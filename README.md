# BFRES reader core, modelled in Dafny

This project models the reading side of a Nintendo Switch BFRES importer.
The reader opens an FRES container, picks its byte order and decodes its
sections: the relocation table (RLT), the string table, the embedded-file
and model arrays, and inside a model its shapes (FSHP), vertex buffer
objects (FVTX) and skeleton (FSKL). It also models the part of the two
Blender importers that does not touch Blender:

- gathering each attribute's values for the vertices a level of detail uses;
- placing positions on Blender's axes;
- cutting an index buffer into faces by topology;
- walking the UV layers `_u0`, `_u1`, ....

The file is an immutable sequence of bytes. Every header becomes a datatype
that holds its bytes, with one accessor per field at its fixed offset. Each
section reader has two forms:

- a pure specification function (`FvtxSpec`, `FsklSpec`, `ReadTable`, ...);
- a class whose methods fill the same fields the Python object fills (`Fvtx`,
  `Fskl`, `Fshp`, `StringTable`, `Rlt`, `Fres`).

Each method is proved to leave exactly the state the specification
describes. Repeated records go through three generic patterns in `Runs`,
proved once:

- `Run`: fixed stride;
- `Walk`: each record starts where the previous one ended, as the FVTX
  buffers do;
- `Each`: one step per element of a list.

Python exceptions become `Result`/`Status` errors. Messages the code prints
and then carries on from become `Warning` lists.

Two behaviours of the skeleton reader look unintended; the model keeps
them as the code has them:

- `FRES/FMDL/FSKL.py:113` reads `max(smooth_idxs)` matrices, so the
  matrix the largest smooth index names is never read
  (`Skeleton.SmoothCount`).
- `FRES/FMDL/FSKL.py:145-147` enters a bone into `bonesByName` only when
  its name is already present. The dictionary starts empty, so it stays
  empty and no duplicate name is ever reported (`Skeleton.NameIndexEmpty`).

`_getAttrBuffers` and `_addVerticesToMesh` are identical in
`Importer/LodImporter.py:37-64,137-151` and
`Importer/ModelImporter.py:179-208,108-122`. One model, `MeshImport`,
covers both copies. The two importers differ in two places:

- faces: the LOD importer builds them by topology, the model importer as
  fixed triples;
- the UV divisor: `format.get('max', 1)` against `format['max']`.

Each difference has its own lemma.

## Model

| member | source | states |
|---|---|---|
| Bytes.ReverseReverse | FRES/__init__.py:103-108 | reversing the bytes twice gives them back, so the big-endian reading is well defined |
| Bytes.UIntEncode | FRES/__init__.py:103-108 | a number that fits in `width` bytes, encoded in either byte order, decodes back to itself |
| Bytes.EncodeUInt | FRES/__init__.py:103-108 | decoding then re-encoding a byte string in either order gives the same bytes |
| Bytes.UIntOrders | FRES/__init__.py:103-108 | little- and big-endian read the same bytes in opposite directions |
| Reader.ReadUIntEncoded | FRES/__init__.py:152-166 | a read of `width` bytes at `pos` returns the number stored there |
| Reader.FieldAt | FRES/__init__.py:14-77 | a header field accessor gives the same number as reading the file at the header's position plus the field offset |
| Reader.ReadItemsAt | FRES/__init__.py:152-166 | a counted read yields exactly `count` items, item `k` read at `pos + k*width` |
| Reader.ReadMatrix | FRES/FMDL/FSKL.py:115-116 | `read('3f', count=4)` gives four rows of three elements |
| Reader.ReadMatrixAt | FRES/FMDL/FSKL.py:115-116 | element `[y][x]` is the 32-bit word at `pos + 12*y + 4*x` |
| Runs.RunAt | FRES/__init__.py:142-148 | a successful fixed-stride loop holds exactly `count` records, record `i` read at `base + i*stride` |
| Runs.RunOk | FRES/__init__.py:142-148 | if every record read succeeds, the loop succeeds |
| Runs.RunFails | FRES/__init__.py:142-148 | a loop fails with the error of its first failing read |
| Runs.RunStep | FRES/__init__.py:142-148 | one loop step: a failed read is the error of the whole loop; a successful one extends the finished prefix by that record |
| Runs.EachAt | FRES/FMDL/FVTX.py:159-173 | a successful pass over a list gives one result per element, in order |
| Runs.EachFails | FRES/FMDL/FVTX.py:159-173 | a pass fails exactly with the error of its first failing element |
| Runs.WalkAt | FRES/FMDL/FVTX.py:133-139 | a successful end-to-end walk holds `n` records; record `k` is read as number `i+k` at the start plus the sizes of the records before it |
| Runs.WalkStep | FRES/FMDL/FVTX.py:133-139 | one walk step: a failure ends the walk with its error; a success starts the next record `size` bytes further on |
| Hex.DigitRoundTrip | FRES/__init__.py:190 | each uppercase hex digit reads back as its value |
| Hex.HexN | FRES/__init__.py:190 | `'%0<w>X'` of a number that fits in `w` digits renders exactly `w` characters |
| Hex.ValueOfHexN | FRES/__init__.py:190 | a rendered number that fits in `w` digits reads back as itself |
| Hex.JoinLength | FRES/__init__.py:191 | joining `n` parts of width `w` with single spaces gives `n*(w+1)-1` characters |
| Hex.UnjoinJoin | FRES/__init__.py:191 | splitting a join of equal-width parts gives back each part's value |
| Hex.HexBytes | FRES/__init__.py:187-191 | the `readHex` rendering has `3n-1` characters, or none for no bytes |
| Hex.HexWords | FRES/__init__.py:194-197 | the `readHexWords` rendering has `9n-1` characters, or none for no words |
| Hex.HexBytesAt | FRES/__init__.py:187-191 | byte `k` sits as two digits at `3k`, followed by a space unless it is the last |
| Hex.HexBytesRoundTrip | FRES/__init__.py:187-191 | every rendered byte value can be read back |
| Hex.HexWordsRoundTrip | FRES/__init__.py:194-197 | every rendered 32-bit word can be read back |
| Relocation.DecodeRltHeader | FRES/RLT.py:9-30 | succeeds exactly when 0x34 bytes fit at the position and start with `_RLT` |
| Relocation.DataStartAt | FRES/RLT.py:9-30 | `data_start` is the u32 at offset 0x30, after the magic and eleven unknown words |
| Relocation.DataStartEncoded | FRES/RLT.py:9-30 | a header whose word at 0x30 holds `v` decodes with `dataStart == v` |
| Relocation.Rlt.constructor | FRES/RLT.py:36-37 | a new table has no header yet |
| Relocation.Rlt.ReadFromFres | FRES/RLT.py:40-49 | reads the header at the given offset, else at `rlt_offset`; keeps it and its `data_start`; on failure changes nothing |
| StringTables.DecodeHeader | Common/StringTable.py:8-16 | a decoded header lies inside the file, carries `_STR`, and `num_strs` is the u32 at 0x10 |
| StringTables.Pad | Common/StringTable.py:36 | `offset += offset & 1` gives the next even offset, at most one byte on |
| StringTables.ReadEntry | Common/StringTable.py:36-44 | an entry lies at the padded offset, its length the u16 little-endian there, its text the decoding of that many bytes after it; a failed length read is the entry's error |
| StringTables.ReadTable | Common/StringTable.py:27-49 | a bad header is the table's error; a read table has the decoded header and `num_strs` entries read right after it |
| StringTables.ChainShape | Common/StringTable.py:35-47 | a successful entry loop holds `n` entries; entry `i` is read from where entry `i-1` ended |
| StringTables.ChainSplit | Common/StringTable.py:35-47 | reading `a+b` entries is reading `a`, then `b` more from where they ended; an earlier failure is the failure of the whole |
| StringTables.EntryShape | Common/StringTable.py:36-45 | an entry sits at the offset rounded up to even, with its u16 little-endian length there and its text the decoding of the bytes after it |
| StringTables.EntryAt | Common/StringTable.py:35-47 | entry `i` was looked for at the start (first entry) or at `offset + length + 3` of the entry before |
| StringTables.EntriesShape | Common/StringTable.py:35-47 | every entry of a successful read is padded, chained and in place as above |
| StringTables.EntriesIncrease | Common/StringTable.py:36-47 | entry offsets strictly increase, so no key of the dict is written twice |
| StringTables.EntriesStep | Common/StringTable.py:35-47 | reading `n+1` entries is reading one, then `n` from where it ended |
| StringTables.EntriesSplit | Common/StringTable.py:35-47 | reading `a+b` entries is reading `a`, then `b` more |
| StringTables.StringsOfKeys | Common/StringTable.py:45 | every key of the dict is the offset of some entry |
| StringTables.StringsOfDistinct | Common/StringTable.py:45 | with distinct offsets, the dict has one key per entry, mapped to that entry's text |
| StringTables.TableContents | Common/StringTable.py:27-49 | a table read keeps exactly `num_strs` strings, each under the even offset of its length prefix; the first is looked for right after the 0x14-byte header |
| StringTables.Step | Common/StringTable.py:35-47 | one pass of the loop: a failing entry fails the table with its error; a decoded one extends the prefix |
| StringTables.StoreStep | Common/StringTable.py:45 | storing one more entry gives the dict of the entries so far plus that one |
| StringTables.StringTable.constructor | Common/StringTable.py:23-24 | a new table has an empty dict |
| StringTables.StringTable.ReadNextEntry | Common/StringTable.py:36-44 | pads, reads the length and the bytes, decodes them; the result is the specified entry or its error, including the Shift-JIS failure |
| StringTables.StringTable.ReadFromFile | Common/StringTable.py:27-49 | the outcome is the table specification's; on success the header is kept and every decoded string is added to the dict |
| StringTables.StringTable.ReadStrings | Common/StringTable.py:35-47 | the entry loop stores each string under its offset; the outcome and the new dict are the specification's |
| Container.SlotLayout | FRES/__init__.py:38-75 | each section kind's offset and dict fields lie between 0x28 and 0xA8, clear of the buffer memory pool words; its count lies among the counts from 0xBC; two kinds' offset fields never overlap and their count fields differ |
| Container.DecodeFresHeader | FRES/__init__.py:14-77 | succeeds exactly when 0xD0 bytes fit and start with `FRES` followed by four spaces |
| Container.FresFieldAt | FRES/__init__.py:14-77 | each header field is the number stored at its offset in the file |
| Container.ByteOrderOf | FRES/__init__.py:103-111 | 0xFFFE is little-endian and 0xFEFF big-endian; every other marker is the invalid-byte-order error |
| Container.OpenSpec | FRES/__init__.py:83-111 | opening succeeds exactly when the header decodes and its byte-order marker is valid; the result keeps that header and the order its marker selects |
| Container.ByteOrderRoundTrip | FRES/__init__.py:103-108 | the marker of an order selects that order |
| Container.OrderFmt | FRES/__init__.py:103-108 | `byteOrderFmt` is `'<'` exactly for little-endian |
| Container.VersionOnlyWarns | FRES/__init__.py:99-111 | an unknown version only adds a warning; opening succeeds exactly when the byte-order marker is valid |
| Container.ObjectsShape | FRES/__init__.py:133-149 | no objects when the dict offset is 0; a failing dict is the error; otherwise `count` objects read at `offs + i*size`, all under the dict root's left name |
| Container.ObjectsSpec | FRES/__init__.py:133-149 | a dict offset of 0 gives no objects; a dict that fails to read is the error |
| Container.FirstStringAtStrTabOffset | FRES/__init__.py:119-123 | when the table has entries, reading it 0x14 bytes before `str_tab_offset` makes `str_tab_offset` (rounded up to even) a key |
| Container.DecodeOrder | FRES/__init__.py:114-130 | decoding reads the RLT, the string table, the embedded files, then the models; each failure stops it with its own error, and success holds each part |
| Container.DecodeSpec | FRES/__init__.py:114-130 | a decoded container holds the RLT at `rlt_offset` and the string table read 0x14 bytes before `str_tab_offset` |
| Container.EffectivePos | FRES/__init__.py:164-165 | the position is the one given, else the cursor, plus `dataStart` when `rel`; without a relocation table `rel` fails |
| Container.ReadStrMatchesTable | FRES/__init__.py:179-184 | `readStr` with its defaults, at the key of a string table entry, gives that entry's text |
| Container.ReadStrSpec | FRES/__init__.py:179-184 | a string is read after a successful length read; it stays raw bytes exactly when no encoding is given, and then it is the bytes after the length |
| Container.ReadWordsAreWords | FRES/__init__.py:195 | a counted read with format `'I'` yields numbers only |
| Container.Fres.constructor | FRES/__init__.py:83-97 | keeps the header, its name, size and version, the byte order and the warnings; no sections are read yet |
| Container.Fres.Open | FRES/__init__.py:83-111 | fails exactly when the header or its byte order is bad; otherwise gives a new container with the cursor after the header and the fields above |
| Container.Fres.Read | FRES/__init__.py:152-166 | reads one value, or a list when `count != 1`, at the effective position; the cursor ends after what was read |
| Container.Fres.Seek | FRES/__init__.py:169-171 | the cursor becomes the given position |
| Container.Fres.Tell | FRES/__init__.py:174-176 | returns the cursor |
| Container.Fres.ReadStr | FRES/__init__.py:179-184 | reads the length, then that many bytes after it, then decodes them if an encoding is given |
| Container.Fres.ReadHex | FRES/__init__.py:187-191 | the `cnt` bytes at `offset` as two-digit hex joined by spaces, or the read's error |
| Container.Fres.ReadHexWords | FRES/__init__.py:194-197 | with `cnt == 1` the bare number cannot be iterated; otherwise the words as eight-digit hex joined by spaces, or the read's error |
| Container.Fres.ReadObjects | FRES/__init__.py:133-149 | the object loop gives exactly `_readObjects`' specified result |
| Container.Fres.Decode | FRES/__init__.py:114-130 | the outcome is `decode`'s specification; on success the RLT, string table, embedded files and models are those it specifies |
| Container.Fres.DecodeTables | FRES/__init__.py:116-123 | reads the RLT at `rlt_offset`, then the string table 0x14 bytes before `str_tab_offset`, and keeps both |
| VertexData.DecodeFvtxHeader | FRES/FMDL/FVTX.py:14-35 | succeeds exactly when 0x60 bytes fit and start with `FVTX` |
| VertexData.FvtxFieldAt | FRES/FMDL/FVTX.py:14-35 | each header field is the number stored at its offset |
| VertexData.ReadBufferFields | FRES/FMDL/FVTX.py:134-137 | a buffer's size and stride are the u32s at the array entries, and its data is what the buffer reader returns at its offset |
| VertexData.ReadOneBuffer | FRES/FMDL/FVTX.py:134-137 | the size read, the stride read, then the buffer data: the specified buffer or the first error |
| VertexData.BufferAt | FRES/FMDL/FVTX.py:125-139 | buffer `i` takes its size and stride from entry `0x10*i` of the two arrays; its data starts at `dataStart + vtx_buf_offs` plus the sizes of the buffers before it |
| VertexData.BuffersLayout | FRES/FMDL/FVTX.py:125-139 | exactly `num_bufs` buffers, each laid out as in `BufferAt` |
| VertexData.ByNameLast | FRES/FMDL/FVTX.py:145-150 | the keys of `attrsByName` are exactly the attribute names; each maps to the last attribute with that name |
| VertexData.ConversionOnlyWithFunc | FRES/FMDL/FVTX.py:164-172 | the conversion function is applied exactly when the format is a dict with `func` |
| VertexData.AttrValue | FRES/FMDL/FVTX.py:160-172 | a bad buffer index is the index error; a value is read exactly when the buffer index is in range and the format's width fits at `buf_offs + i*stride` |
| VertexData.FvtxSpec | FRES/FMDL/FVTX.py:104-115 | a bad header is the read's error; a read FVTX holds the decoded header, the dictionary at its `vtx_attrib_dict_offs` and the contents its layout gives |
| VertexData.FvtxOrder | FRES/FMDL/FVTX.py:104-115 | header, then dictionary, then contents; each failure stops the read with its own error |
| VertexData.ContentsOrder | FRES/FMDL/FVTX.py:111-114 | buffers, then attributes, then vertices; each failure stops the read with its own error |
| VertexData.AttrsLayout | FRES/FMDL/FVTX.py:142-151 | exactly `num_attrs` attributes, attribute `i` read at `vtx_attrib_array_offs + i*AttrStruct.size` |
| VertexData.VtxsLayout | FRES/FMDL/FVTX.py:154-175 | exactly `num_vtxs` vertices, vertex `i` built for index `i` |
| VertexData.VertexValues | FRES/FMDL/FVTX.py:157-173 | each vertex holds one value per attribute, in attribute order, unpacked at `buf_offs + i*stride` of the attribute's buffer |
| VertexData.Fvtx.constructor | FRES/FMDL/FVTX.py:42-48 | a new FVTX holds nothing |
| VertexData.Fvtx.ReadFromFres | FRES/FMDL/FVTX.py:104-115 | records the offset given, else the current position; the outcome is `FvtxSpec`; on success the header, dictionary, buffers, attributes, `attrsByName` and vertices are those it specifies |
| VertexData.Fvtx.ReadBody | FRES/FMDL/FVTX.py:111-122 | the dictionary at `vtx_attrib_dict_offs`, then the contents, as specified |
| VertexData.Fvtx.ReadContents | FRES/FMDL/FVTX.py:112-114 | `_readBuffers`, `_readAttrs`, `_readVtxs` in turn; outcome and fields as specified |
| VertexData.Fvtx.ReadBuffers | FRES/FMDL/FVTX.py:125-139 | the buffer loop gives the specified buffers, the data offset advancing by each buffer's size |
| VertexData.Fvtx.ReadAttrs | FRES/FMDL/FVTX.py:142-151 | the attributes are the specified records; `attrsByName` maps each name to its last attribute |
| VertexData.Fvtx.ReadVtxs | FRES/FMDL/FVTX.py:154-175 | the vertices are the specified ones, or the first error |
| VertexData.Fvtx.ReadVertex | FRES/FMDL/FVTX.py:158-173 | the inner loop gives vertex `i`'s value for each attribute, failing on a bad buffer index or too few bytes |
| Skeleton.DecodeFsklHeader | FRES/FMDL/FSKL.py:14-43 | succeeds exactly when 0x48 bytes fit and start with `FSKL` |
| Skeleton.FsklFieldAt | FRES/FMDL/FSKL.py:14-43 | each header field is the number stored at its offset |
| Skeleton.SmoothIdxsLayout | FRES/FMDL/FSKL.py:103-107 | smooth index `k` is the signed 16-bit number at `smooth_idx_offs + 2k`; a count of one gives a bare number |
| Skeleton.Max | FRES/FMDL/FSKL.py:113 | the result bounds every element and is one of them |
| Skeleton.SmoothCount | FRES/FMDL/FSKL.py:113 | `max` of a bare number is the not-iterable error; of an empty list the empty-max error; otherwise a count no index exceeds, equal to some index when positive |
| Skeleton.CleanMatrixSpec | FRES/FMDL/FSKL.py:126-129 | sanitising keeps the shape and every finite element, turns each NaN or infinity into 0, and is idempotent |
| Skeleton.CleanAllAt | FRES/FMDL/FSKL.py:126-131 | smooth matrix `i` is the sanitised raw matrix `i` |
| Skeleton.RowWarningsExact | FRES/FMDL/FSKL.py:120-124 | a row reports exactly its non-finite elements |
| Skeleton.MatrixWarningsExact | FRES/FMDL/FSKL.py:118-124 | matrix `i` reports exactly its non-finite elements, naming column `x` and row `y` |
| Skeleton.SmoothMtxsLayout | FRES/FMDL/FSKL.py:113-116 | exactly `count` matrices, matrix `i` read at `smooth_mtx_offs + 48i` |
| Skeleton.BonesLayout | FRES/FMDL/FSKL.py:139-148 | exactly `num_bones` bones, bone `i` read at `bone_array_offs + i*Bone._struct.size` |
| Skeleton.Bone.constructor | FRES/FMDL/FSKL.py:143 | a bone carries its record's name and parent index, with no parent or skeleton yet |
| Skeleton.NameIndexEmpty | FRES/FMDL/FSKL.py:137-147 | since a name is entered only when already present, `bonesByName` stays empty and no duplicate is ever reported |
| Skeleton.ParentOf | FRES/FMDL/FSKL.py:153-160 | a bone's parent is the bone at its parent index when that index is in range, and none otherwise |
| Skeleton.ParentWarningsExact | FRES/FMDL/FSKL.py:151-156 | one warning for each bone whose parent index is past the end, and none for any other |
| Skeleton.FsklOrder | FRES/FMDL/FSKL.py:89-100 | header, then body; a failure stops the read with its own error |
| Skeleton.BodyOrder | FRES/FMDL/FSKL.py:96-98 | smooth part, then bones, then bone index groups; each failure stops the read with its own error |
| Skeleton.SmoothOrder | FRES/FMDL/FSKL.py:103-116 | indices, their maximum, then matrices; each failure stops the read with its own error |
| Skeleton.FsklSpec | FRES/FMDL/FSKL.py:89-100 | a bad header is the read's error; a read skeleton holds the decoded header and the body its layout gives |
| Skeleton.Fskl.constructor | FRES/FMDL/FSKL.py:50-53 | a new skeleton holds nothing |
| Skeleton.Fskl.ReadFromFres | FRES/FMDL/FSKL.py:89-100 | records the offset given, else the current position; the outcome is `FsklSpec`. On success it holds: the header; the smooth indices; the sanitised matrices; bones made from the specified records with parents resolved; an empty `bonesByName`; the groups; and the matrix warnings followed by the parent warnings |
| Skeleton.Fskl.ReadBody | FRES/FMDL/FSKL.py:96-98 | the three reads in turn, with the same result as above |
| Skeleton.Fskl.ReadBones | FRES/FMDL/FSKL.py:134-163 | the bone loop, the parent pass, then the bone index group dictionary |
| Skeleton.Fskl.ReadSmooth | FRES/FMDL/FSKL.py:103-113 | the indices, their count of matrices, then the matrices |
| Skeleton.Fskl.ReadSmoothMtxs | FRES/FMDL/FSKL.py:110-131 | `count` matrices 0x30 apart: each one's warnings in order, then the sanitised matrix |
| Skeleton.Fskl.AddSmoothMtx | FRES/FMDL/FSKL.py:118-131 | appends matrix `i`'s warnings and its sanitised form |
| Skeleton.Fskl.MatrixWarns | FRES/FMDL/FSKL.py:119-124 | the nested loops give exactly matrix `i`'s warnings, row by row |
| Skeleton.Fskl.LoadBones | FRES/FMDL/FSKL.py:142-148 | new bones made from the specified records, with `bonesByName` and the warnings as the name rule gives them |
| Skeleton.Fskl.AddBone | FRES/FMDL/FSKL.py:143-147 | appends a new bone; only a name already present is reported and entered |
| Skeleton.Fskl.SetParents | FRES/FMDL/FSKL.py:151-160 | every bone's skeleton becomes this one and its parent `ParentOf` its index; out-of-range indices are reported |
| Shape.DecodeFshpHeader | FRES/FMDL/FSHP.py:16-53 | succeeds exactly when 0x70 bytes fit and start with `FSHP` |
| Shape.FshpFieldAt | FRES/FMDL/FSHP.py:16-53 | each header field is the number stored at its offset |
| Shape.LodsLayout | FRES/FMDL/FSHP.py:101-106 | exactly `lod_cnt` LODs, LOD `i` read at `lod_offset + i*LOD.Header.size` |
| Shape.FshpOrder | FRES/FMDL/FSHP.py:88-108 | header, then FVTX, then LODs; each failure stops the read with its own error |
| Shape.PartsOrder | FRES/FMDL/FSHP.py:96-106 | the FVTX is read before any LOD; each failure stops the read with its own error |
| Shape.FshpSpec | FRES/FMDL/FSHP.py:88-108 | a bad header is the read's error; a read shape holds the decoded header, the FVTX at its `fvtx_offset` and `lod_cnt` LODs from its `lod_offset` |
| Shape.Fshp.constructor | FRES/FMDL/FSHP.py:60-65 | a new shape holds nothing |
| Shape.Fshp.ReadFromFres | FRES/FMDL/FSHP.py:88-108 | records the offset given, else the current position, and the name; the outcome is `FshpSpec`; on success it holds a new FVTX filled as specified and the specified LODs |
| Shape.Fshp.ReadParts | FRES/FMDL/FSHP.py:96-106 | a new FVTX read at `fvtx_offset`, then the LODs |
| Shape.Fshp.ReadLods | FRES/FMDL/FSHP.py:100-106 | the LOD loop gives the specified LODs |
| MeshImport.VertexCount | Importer/LodImporter.py:46-48 | `range(max(idxs)+1)` visits every index a submesh names; an empty submesh is the empty-max error |
| MeshImport.ImportValueCases | Importer/LodImporter.py:50-57 | a format given as a plain string fails (`fmt.get` needs a dict); a bad buffer index is the index error; a value is read exactly when the format is a dict, the buffer index is in range and the bytes fit at `buf_offs + idx*stride`, and it is the FVTX reader's value |
| MeshImport.RowsShape | Importer/LodImporter.py:46-58 | one row per visited vertex, one value per attribute in each |
| MeshImport.RowsAt | Importer/LodImporter.py:46-58 | row `i` of submesh `t` follows the rows of earlier submeshes and holds vertex `i`'s values |
| MeshImport.RowsFailFast | Importer/LodImporter.py:46-58 | a failure in an earlier submesh is the failure of the whole |
| MeshImport.AttrBufferLengths | Importer/LodImporter.py:42-58 | the dict has one list per attribute name, holding one value per visited vertex for each attribute with that name |
| MeshImport.AttrBuffersEqualLength | Importer/LodImporter.py:42-58 | with distinct names, every list has one value per visited vertex |
| MeshImport.AttrBufferValues | Importer/LodImporter.py:49-58 | with distinct names, attribute `k`'s list holds, at vertex `i` of submesh `t`, that vertex's value of `k` |
| MeshImport.GetAttrBuffers | Importer/LodImporter.py:37-64 | the nested loops give `_getAttrBuffers`' specified dict, or the first error |
| MeshImport.AppendSubmesh | Importer/LodImporter.py:46-58 | one submesh's rows added to the dict |
| MeshImport.AppendVertices | Importer/LodImporter.py:48-58 | vertices `0..count-1` added in turn |
| MeshImport.AppendRow | Importer/LodImporter.py:49-58 | one vertex's values appended attribute by attribute, or its error |
| MeshImport.PlaceRoundTrip | Importer/LodImporter.py:149 | the axis change `(x, -z, y)` loses nothing but `w` |
| MeshImport.VerticesSpec | Importer/LodImporter.py:137-151 | the vertices exist exactly when every tuple has 3 or 4 elements, and then vertex `i` is tuple `i` on Blender's axes |
| MeshImport.VerticesExact | Importer/LodImporter.py:137-151 | the mesh gets vertices exactly when every tuple has 3 or 4 elements; vertex `i` is tuple `i` on Blender's axes; otherwise the arity error of the first bad tuple |
| MeshImport.WWarningsExact | Importer/LodImporter.py:145-148 | vertex `i` is reported exactly when its `w` is not 1 |
| MeshImport.VerticesFailFast | Importer/LodImporter.py:139-149 | an earlier bad tuple is the failure of the whole |
| MeshImport.AddVertices | Importer/LodImporter.py:137-151 | the loop gives the specified vertices and the `w` warnings up to the first bad tuple |
| MeshImport.FacesCount | Importer/LodImporter.py:105-106 | there are `ceil(len(idxs)/step)` faces |
| MeshImport.FacesAt | Importer/LodImporter.py:105-107 | face `k` is `idxs[k*step : k*step+width]` |
| MeshImport.FacesFlatten | Importer/LodImporter.py:105-107 | with `step == width` the faces laid end to end give back the index buffer |
| MeshImport.CreateFacesBasic | Importer/LodImporter.py:105-109 | the loop gives the strided slices |
| MeshImport.DecimalInjective | Importer/LodImporter.py:158 | different numbers print differently under `'%d'` |
| MeshImport.UvNameInjective | Importer/LodImporter.py:158 | different indices name different UV attributes |
| MeshImport.UvLayers | Importer/LodImporter.py:154-171 | walks `_u0`, `_u1`, ... while the dict has the name, one layer per name with its values and divisor; stops at the first missing name, or fails with the first divisor error |
| LodImport.TopologyTable | Importer/LodImporter.py:111-134 | exactly the known topology names select a method; each face advances between one index and its width; `line_strip` and `line_loop` are built as triangles |
| LodImport.TopologyOf | Importer/LodImporter.py:95-134 | a method exists exactly for the seven known names, and each steps forward by between one index and its face width |
| LodImport.CreateFaces | Importer/LodImporter.py:95-103 | an unknown topology is the unsupported-format error; otherwise the faces of its step and width |
| LodImport.FacesUseEachIndexOnce | Importer/LodImporter.py:111-134 | every supported topology but the strip uses each index once, in order |
| LodImport.StripFaces | Importer/LodImporter.py:126-127 | a triangle strip makes one face per index: that index and up to two after it |
| LodImport.UvDivisor | Importer/LodImporter.py:162 | a missing attribute is its KeyError; a divisor exists exactly when the format is a dict, and is its `max`, else 1 |
| LodImport.AddUvMap | Importer/LodImporter.py:154-171 | the UV walk with divisor `format.get('max', 1)` |
| ModelImport.ShapeFvtxOfHeader | Importer/ModelImporter.py:47 | the shape's FVTX is `fvtxs[v]` for the u16 `v` at byte 0x62 of its decoded header, or the index error when `v` is past the model's FVTXs |
| ModelImport.ShapeFaces | Importer/ModelImporter.py:71-73 | the faces are consecutive triples that give back the index buffer; there are `ceil(len/3)` of them |
| ModelImport.TriplesAsTriangles | Importer/LodImporter.py:123-134 | a LOD topology selects the triangles method exactly when it is `triangles`, `line_strip` or `line_loop`, and for those the LOD importer's faces are the model importer's triples |
| ModelImport.TriplesIgnorePoints | Importer/ModelImporter.py:70-73 | for points the LOD importer makes one one-index face per index and the model importer `ceil(len/3)` triples, so the faces differ whenever there are two indices or more |
| ModelImport.DivisorsCompared | Importer/ModelImporter.py:133 | the two divisors agree when the format has `max`; without it only the model importer fails, with `KeyError('max')`, where the LOD importer uses 1 |
| ModelImport.StrictUvDivisor | Importer/ModelImporter.py:133 | a missing attribute is its KeyError; a divisor exists exactly when the format is a dict with `max`, and is that `max` |
| ModelImport.AddUvMap | Importer/ModelImporter.py:125-144 | the UV walk with divisor `format['max']` |

## Left out

- FRES/Dict.py is not part of this model. A name dictionary is read by a function parameter; only its root's left name is used, as `_readObjects` uses it. The model takes that name from the dict reader before the loop, while `FRES/__init__.py:143` reads `objDict.root.left.name` only inside it; so with a count of 0 a dict without a left child reads successfully in the code, which the model does not capture.
- The Attribute, Bone, LOD, Buffer, EmbeddedFile and FMDL readers are not part of this model. Each is a function parameter, and so is its record size (`AttrStruct.size`, `Bone._struct.size`, `LOD.Header.size`, the two header sizes `decode` passes).
- BinaryStruct and BinaryFile are not part of this model. Headers are read as fixed-offset fields; a `String` field is kept as its 4-byte offset, so `name`, `name2` and the shape name are not resolved to text.
- Header decoders reject a wrong magic with `BadMagic`; this follows each header's declared `magic` and assumes BinaryStruct checks it.
- Section readers read at explicit positions, taking the file position `tell` as a parameter where `offset=None`; cursor movement is modelled only in `Container.Fres.Read`.
- `Container.Fres.Seek` models `whence = 0` only.
- `Container.Fres.ReadStr` models unsigned length formats only.
- The byte order chosen by the container is recorded; the section reads use the file's default order (`fileOrder`) as the code does, since FRES never changes the file's order.
- `dataStart` is passed to the FVTX reader as a number; the `AttributeError` when the relocation table was never read is modelled only in `Container.EffectivePos`.
- The FSKL flags word is kept as a number; its flag names are not decoded.
- Floating point: matrix elements are 32-bit patterns (NaN and infinity are tested on the bits). Vertex values are `real` tuples produced by a `struct.unpack` parameter, and conversion functions are a parameter too.
- The UV coordinates' division by `vMax` is not carried out; each layer records its divisor.
- Shift-JIS decoding is a parameter.
- Blender and bmesh calls are not modelled: meshes, objects and groups, the faces as bmesh objects, `smooth_faces`, materials, the armature modifier, `_makeVertexGroup` and `_addVertexWeights` with the bone weights, `_importModel`, and the object names `lodName`.
- `nVtxs = int(idx_cnt / 3)` is computed but never used by the code, so it is not modelled.
- Information messages ("Reading FVTX from ...") are not modelled. Messages printed before carrying on are `Warning` lists. `dump` and `__str__` are debug output and are not modelled.
- `fres.animations` and `fres.buffers` always stay empty in the code and are not modelled; the other section kinds (`fska`, `fmaa`, `fvis`, `fshu`, `fscn`) are not read by `decode`.
- Container.Fres.ReadHexWords: for `cnt == 1` the contract states the not-iterable error only when the read succeeds, not which error a failing read gives.
- Skeleton.Fskl.ReadFromFres: on failure the contract gives the error but not the partly filled state the exception leaves behind.
- VertexData.Fvtx.ReadFromFres: on failure the contract gives the error but not the partly filled state the exception leaves behind.
- Shape.Fshp.ReadFromFres: on failure the contract gives the error but not the partly filled state the exception leaves behind.
- StringTables.StringTable.ReadFromFile: on failure the contract gives the error but not the strings already stored in the dict.
- Container.Fres.Decode: on failure the contract gives the error but not the sections already read.
- Hex.HexN: defined only for a number that fits in the width, so it does not model how `'%0<w>X'` prints a wider number; every caller renders bytes or 32-bit words, which fit.
