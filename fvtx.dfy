/** The FVTX section: a vertex buffer object. Its 0x60-byte header locates
    an attribute dictionary, `num_bufs` data buffers whose sizes and strides
    sit in two arrays of 0x10-byte entries, `num_attrs` attribute records,
    and `num_vtxs` vertices whose attribute values are unpacked from the
    buffers at `buf_offs + i*stride`. */
module VertexData {
  import opened Bytes
  import opened Results
  import opened Reader
  import opened Collab
  import opened Runs

  const FvtxMagic: seq<byte> := [0x46, 0x56, 0x54, 0x58]  // "FVTX"
  const FvtxHeaderSize: nat := 0x60

  /** The header as its 0x60 bytes: magic, three unknown words, eight
      64-bit offsets, the 32-bit `vtx_buf_offs`, the two one-byte counts,
      the section index, the vertex count and the skin weight influence. */
  datatype FvtxHeader = FvtxHeader(bytes: seq<byte>, order: Order) {
    function Magic(): seq<byte> { if |bytes| >= 4 then bytes[..4] else bytes }
    function AttribArrayOffs(): nat { Field(bytes, order, 0x10, 8) }
    function AttribDictOffs(): nat { Field(bytes, order, 0x18, 8) }
    function BufSizeOffs(): nat { Field(bytes, order, 0x38, 8) }
    function StrideSizeOffs(): nat { Field(bytes, order, 0x40, 8) }
    function BufArrayOffs(): nat { Field(bytes, order, 0x48, 8) }
    function BufOffs(): nat { Field(bytes, order, 0x50, 4) }
    function NumAttrs(): nat { Field(bytes, order, 0x54, 1) }
    function NumBufs(): nat { Field(bytes, order, 0x55, 1) }
    function Index(): nat { Field(bytes, order, 0x56, 2) }
    function NumVtxs(): nat { Field(bytes, order, 0x58, 4) }
    function SkinWeightInfluence(): nat { Field(bytes, order, 0x5C, 4) }

    /** The fields the buffer, attribute and vertex reads use. */
    function Layout(): FvtxLayout {
      FvtxLayout(AttribArrayOffs(), BufSizeOffs(), StrideSizeOffs(), BufOffs(), NumAttrs(), NumBufs(), NumVtxs())
    }
  }

  datatype FvtxLayout = FvtxLayout(attribArrayOffs: nat, bufSizeOffs: nat, strideSizeOffs: nat, bufOffs: nat,
                                   numAttrs: nat, numBufs: nat, numVtxs: nat)

  function DecodeFvtxHeader(data: seq<byte>, order: Order, pos: int): (r: Result<FvtxHeader>)
    ensures r.Ok? <==> ReadBytes(data, pos, FvtxHeaderSize).Ok? && data[pos..pos + 4] == FvtxMagic
    ensures r.Ok? ==> r.value.Magic() == FvtxMagic && |r.value.bytes| == FvtxHeaderSize
  {
    var block :- ReadBytes(data, pos, FvtxHeaderSize);
    if block[..4] != FvtxMagic then Err(BadMagic(FvtxMagic, block[..4]))
    else Ok(FvtxHeader(block, order))
  }

  /** A field of a decoded header is the number stored at its offset. */
  lemma FvtxFieldAt(data: seq<byte>, order: Order, pos: int, h: FvtxHeader, at: nat, width: nat)
    requires DecodeFvtxHeader(data, order, pos) == Ok(h) && at + width <= FvtxHeaderSize
    ensures h.order == order && ReadUInt(data, order, pos + at, width) == Ok(Field(h.bytes, order, at, width))
  {
    FieldAt(data, order, pos, FvtxHeaderSize, at, width);
  }

  /** A data buffer: its size and stride from the header arrays, where its
      data starts in the file, and the data the buffer reader got there. */
  datatype Buffer = Buffer(size: nat, stride: nat, offset: int, data: seq<byte>)

  /** One buffer: the u32 size at `sizeAt`, the u32 stride at `strideAt`,
      its data at `dataOffs`. */
  function ReadBuffer(data: seq<byte>, order: Order, sizeAt: int, strideAt: int, dataOffs: int,
                      bufferData: (seq<byte>, nat, nat, int) -> Result<seq<byte>>): Result<Buffer>
  {
    var size :- ReadUInt(data, order, sizeAt, 4);
    var stride :- ReadUInt(data, order, strideAt, 4);
    var bytes :- bufferData(data, size, stride, dataOffs);
    Ok(Buffer(size, stride, dataOffs, bytes))
  }

  /** Buffer `i`, its data at `at`: the size and stride entries `0x10*i`
      into the arrays at `sizes` and `strides`. */
  function BufferStep(data: seq<byte>, order: Order, sizes: int, strides: int,
                      bufferData: (seq<byte>, nat, nat, int) -> Result<seq<byte>>): (int, int) -> Result<Buffer>
  {
    (i, at) => ReadBuffer(data, order, sizes + 0x10 * i, strides + 0x10 * i, at, bufferData)
  }

  function BufferSize(b: Buffer): nat { b.size }

  lemma BufferStepAt(data: seq<byte>, order: Order, sizes: int, strides: int,
                     bufferData: (seq<byte>, nat, nat, int) -> Result<seq<byte>>, i: int, at: int)
    ensures BufferStep(data, order, sizes, strides, bufferData)(i, at)
         == ReadBuffer(data, order, sizes + 0x10 * i, strides + 0x10 * i, at, bufferData)
  {
  }

  /** `n` buffers, the first one's data at `start`, each next one's where
      the previous one ended. */
  function BuffersAt(data: seq<byte>, order: Order, sizes: int, strides: int, start: int, n: nat,
                     bufferData: (seq<byte>, nat, nat, int) -> Result<seq<byte>>): Result<seq<Buffer>>
  {
    Walk(BufferStep(data, order, sizes, strides, bufferData), BufferSize, 0, start, n)
  }

  /** `_readBuffers`: `num_bufs` buffers from `dataStart + vtx_buf_offs` on. */
  function BuffersSpec(data: seq<byte>, order: Order, l: FvtxLayout, dataStart: nat,
                       bufferData: (seq<byte>, nat, nat, int) -> Result<seq<byte>>): Result<seq<Buffer>>
  {
    BuffersAt(data, order, l.bufSizeOffs, l.strideSizeOffs, dataStart + l.bufOffs, l.numBufs, bufferData)
  }

  /** What one buffer read yields: the two u32s and the buffer data. */
  lemma ReadBufferFields(data: seq<byte>, order: Order, sizeAt: int, strideAt: int, dataOffs: int,
                         bufferData: (seq<byte>, nat, nat, int) -> Result<seq<byte>>, b: Buffer)
    requires ReadBuffer(data, order, sizeAt, strideAt, dataOffs, bufferData) == Ok(b)
    ensures ReadUInt(data, order, sizeAt, 4) == Ok(b.size) && ReadUInt(data, order, strideAt, 4) == Ok(b.stride)
    ensures b.offset == dataOffs && bufferData(data, b.size, b.stride, dataOffs) == Ok(b.data)
  {
  }

  /** One buffer read in turn: the size, the stride, then the data; the
      first read that fails is the error. */
  method ReadOneBuffer(data: seq<byte>, order: Order, sizeAt: int, strideAt: int, dataOffs: int,
                       bufferData: (seq<byte>, nat, nat, int) -> Result<seq<byte>>) returns (r: Result<Buffer>)
    ensures r == ReadBuffer(data, order, sizeAt, strideAt, dataOffs, bufferData)
  {
    var size := ReadUInt(data, order, sizeAt, 4);
    if size.Err? { return Err(size.error); }
    var stride := ReadUInt(data, order, strideAt, 4);
    if stride.Err? { return Err(stride.error); }
    var bytes := bufferData(data, size.value, stride.value, dataOffs);
    if bytes.Err? { return Err(bytes.error); }
    return Ok(Buffer(size.value, stride.value, dataOffs, bytes.value));
  }

  /** Buffer `i` takes its size and stride from the entries `0x10*i` into
      the two arrays, and its data starts at `start` plus the sizes of the
      buffers before it. */
  lemma BufferAt(data: seq<byte>, order: Order, sizes: int, strides: int, start: int, n: nat,
                 bufferData: (seq<byte>, nat, nat, int) -> Result<seq<byte>>, i: nat)
    requires BuffersAt(data, order, sizes, strides, start, n, bufferData).Ok? && i < n
    ensures var bs := BuffersAt(data, order, sizes, strides, start, n, bufferData).value;
      && i < |bs|
      && ReadUInt(data, order, sizes + 0x10 * i, 4) == Ok(bs[i].size)
      && ReadUInt(data, order, strides + 0x10 * i, 4) == Ok(bs[i].stride)
      && bs[i].offset == start + SizeSum(BufferSize, bs[..i])
      && bufferData(data, bs[i].size, bs[i].stride, bs[i].offset) == Ok(bs[i].data)
  {
    var step := BufferStep(data, order, sizes, strides, bufferData);
    WalkRecord(step, BufferSize, 0, start, n, i);
    var bs := BuffersAt(data, order, sizes, strides, start, n, bufferData).value;
    var at := start + SizeSum(BufferSize, bs[..i]);
    BufferStepAt(data, order, sizes, strides, bufferData, 0 + i, at);
    ReadBufferFields(data, order, sizes + 0x10 * i, strides + 0x10 * i, at, bufferData, bs[i]);
  }

  /** Exactly `n` buffers, each laid out as `BufferAt` says. */
  lemma BuffersLayout(data: seq<byte>, order: Order, sizes: int, strides: int, start: int, n: nat,
                      bufferData: (seq<byte>, nat, nat, int) -> Result<seq<byte>>)
    requires BuffersAt(data, order, sizes, strides, start, n, bufferData).Ok?
    ensures var bs := BuffersAt(data, order, sizes, strides, start, n, bufferData).value;
      && |bs| == n
      && forall i :: 0 <= i < |bs| ==>
           && ReadUInt(data, order, sizes + 0x10 * i, 4) == Ok(bs[i].size)
           && ReadUInt(data, order, strides + 0x10 * i, 4) == Ok(bs[i].stride)
           && bs[i].offset == start + SizeSum(BufferSize, bs[..i])
           && bufferData(data, bs[i].size, bs[i].stride, bs[i].offset) == Ok(bs[i].data)
  {
    WalkLength(BufferStep(data, order, sizes, strides, bufferData), BufferSize, 0, start, n);
    forall i | 0 <= i < n {
      BufferAt(data, order, sizes, strides, start, n, bufferData, i);
    }
  }

  /** `attrsByName`: each name mapped to the last attribute carrying it. */
  function ByName(attrs: seq<Attribute>): map<string, Attribute> {
    if attrs == [] then map[]
    else ByName(attrs[..|attrs| - 1])[attrs[|attrs| - 1].name := attrs[|attrs| - 1]]
  }

  /** The names in `attrsByName` are exactly the attribute names, and each
      one maps to the last attribute of that name. */
  lemma {:induction false} ByNameLast(attrs: seq<Attribute>)
    ensures ByName(attrs).Keys == set a | a in attrs :: a.name
    ensures forall n :: n in ByName(attrs) ==>
      exists j :: (0 <= j < |attrs| && attrs[j] == ByName(attrs)[n] && attrs[j].name == n &&
        forall j' :: j < j' < |attrs| ==> attrs[j'].name != n)
    decreases |attrs|
  {
    if attrs != [] {
      var init, last := attrs[..|attrs| - 1], attrs[|attrs| - 1];
      ByNameLast(init);
      assert attrs == init + [last];
      forall n | n in ByName(attrs)
        ensures exists j :: (0 <= j < |attrs| && attrs[j] == ByName(attrs)[n] && attrs[j].name == n &&
          forall j' :: j < j' < |attrs| ==> attrs[j'].name != n)
      {
        if n == last.name {
          assert attrs[|attrs| - 1] == ByName(attrs)[n];
        } else {
          var j :| (0 <= j < |init| && init[j] == ByName(init)[n] && init[j].name == n &&
            forall j' :: j < j' < |init| ==> init[j'].name != n);
          assert attrs[j] == ByName(attrs)[n];
        }
      }
    }
  }

  /** Where vertex `i`'s value of attribute `a` lies, and what it is: the
      format's byte width at `buf_offs + i*stride` of the attribute's
      buffer, unpacked, then passed through the format's conversion
      function if it names one. */
  function AttrValue(buffers: seq<Buffer>, a: Attribute, i: nat,
                     unpack: (UnpackFmt, seq<byte>) -> Tuple, convert: (string, Tuple) -> Tuple): (r: Result<Tuple>)
    ensures a.bufIdx >= |buffers| ==> r == Err(IndexError(a.bufIdx, |buffers|))
    ensures r.Ok? <==> && a.bufIdx < |buffers|
                       && a.bufOffs + i * buffers[a.bufIdx].stride + a.format.Unpack().width <= |buffers[a.bufIdx].data|
  {
    if a.bufIdx >= |buffers| then Err(IndexError(a.bufIdx, |buffers|))
    else
      var buf := buffers[a.bufIdx];
      var offs := a.bufOffs + i * buf.stride;
      var fmt := a.format.Unpack();
      if offs + fmt.width > |buf.data| then Err(UnpackSize(fmt.width, if offs < |buf.data| then |buf.data| - offs else 0))
      else
        var t := unpack(fmt, buf.data[offs..offs + fmt.width]);
        match a.format
        case Described(_, Some(func), _) => Ok(convert(func, t))
        case _ => Ok(t)
  }

  /** A conversion function is applied exactly when the format is a dict
      with a `func` entry; otherwise the unpacked tuple is kept as it is. */
  lemma ConversionOnlyWithFunc(buffers: seq<Buffer>, a: Attribute, i: nat,
                               unpack: (UnpackFmt, seq<byte>) -> Tuple, convert: (string, Tuple) -> Tuple)
    requires AttrValue(buffers, a, i, unpack, convert).Ok?
    ensures var buf := buffers[a.bufIdx];
      var offs := a.bufOffs + i * buf.stride;
      var t := unpack(a.format.Unpack(), buf.data[offs..offs + a.format.Unpack().width]);
      AttrValue(buffers, a, i, unpack, convert).value ==
        if a.format.Described? && a.format.func.Some? then convert(a.format.func.value, t) else t
  {
  }

  /** Vertex `i`: one value per attribute, in attribute order. */
  function VertexAt(buffers: seq<Buffer>, attrs: seq<Attribute>, i: nat,
                    unpack: (UnpackFmt, seq<byte>) -> Tuple, convert: (string, Tuple) -> Tuple): Result<seq<Tuple>>
  {
    Each(a => AttrValue(buffers, a, i, unpack, convert), attrs)
  }

  /** The vertex reader as a function of the vertex number. */
  function VertexReader(buffers: seq<Buffer>, attrs: seq<Attribute>,
                        unpack: (UnpackFmt, seq<byte>) -> Tuple, convert: (string, Tuple) -> Tuple)
    : int -> Result<seq<Tuple>>
  {
    i => if i < 0 then Err(IndexError(i, 0)) else VertexAt(buffers, attrs, i, unpack, convert)
  }

  /** The attribute records: `num_attrs` of them, `attrSize` bytes apart. */
  function AttrsSpec(data: seq<byte>, l: FvtxLayout, rd: Readers): Result<seq<Attribute>> {
    Run(AttrReader(data, rd.attr), l.attribArrayOffs, rd.attrSize, l.numAttrs)
  }

  /** The attribute reader as a function of the record's offset. */
  function AttrReader(data: seq<byte>, attr: (seq<byte>, int) -> Result<Attribute>): int -> Result<Attribute> {
    o => attr(data, o)
  }

  function VtxsSpec(buffers: seq<Buffer>, attrs: seq<Attribute>, n: nat,
                    unpack: (UnpackFmt, seq<byte>) -> Tuple, convert: (string, Tuple) -> Tuple): Result<seq<seq<Tuple>>>
  {
    Run(VertexReader(buffers, attrs, unpack, convert), 0, 1, n)
  }

  datatype Contents = Contents(buffers: seq<Buffer>, attrs: seq<Attribute>, vtxs: seq<seq<Tuple>>)

  /** The buffers, then the attributes, then the vertices. */
  function ContentsSpec(data: seq<byte>, order: Order, l: FvtxLayout, dataStart: nat, rd: Readers): Result<Contents> {
    var bufs :- BuffersSpec(data, order, l, dataStart, rd.buffer);
    var attrs :- AttrsSpec(data, l, rd);
    var vtxs :- VtxsSpec(bufs, attrs, l.numVtxs, rd.unpack, rd.convert);
    Ok(Contents(bufs, attrs, vtxs))
  }

  datatype FvtxData = FvtxData(header: FvtxHeader, attribDict: NameDict, contents: Contents)

  /** `readFromFRES(offset)`: the header at `offset`, then the attribute
      dictionary, then the contents; the first failure ends it. */
  function FvtxSpec(data: seq<byte>, order: Order, dataStart: nat, offset: int, rd: Readers): (r: Result<FvtxData>)
    ensures DecodeFvtxHeader(data, order, offset).Err? ==> r == Err(DecodeFvtxHeader(data, order, offset).error)
    ensures r.Ok? ==> && DecodeFvtxHeader(data, order, offset) == Ok(r.value.header)
                      && rd.dict(data, r.value.header.AttribDictOffs()) == Ok(r.value.attribDict)
                      && ContentsSpec(data, order, r.value.header.Layout(), dataStart, rd) == Ok(r.value.contents)
  {
    var h :- DecodeFvtxHeader(data, order, offset);
    var (dict, c) :- BodySpec(data, order, dataStart, h, rd);
    Ok(FvtxData(h, dict, c))
  }

  /** What follows the header: the attribute dictionary, then the contents. */
  function BodySpec(data: seq<byte>, order: Order, dataStart: nat, h: FvtxHeader, rd: Readers)
    : Result<(NameDict, Contents)>
  {
    var dict :- rd.dict(data, h.AttribDictOffs());
    var c :- ContentsSpec(data, order, h.Layout(), dataStart, rd);
    Ok((dict, c))
  }

  /** The read order of `readFromFRES`: the header at `offset`, the
      dictionary at `vtx_attrib_dict_offs`, then the contents; a failing
      step fails the read with its own error and nothing after it is read. */
  lemma FvtxOrder(data: seq<byte>, order: Order, dataStart: nat, offset: int, rd: Readers)
    ensures var r := FvtxSpec(data, order, dataStart, offset, rd);
      var hr := DecodeFvtxHeader(data, order, offset);
      && (hr.Err? ==> r == Err(hr.error))
      && (hr.Ok? ==> var d := rd.dict(data, hr.value.AttribDictOffs());
            var c := ContentsSpec(data, order, hr.value.Layout(), dataStart, rd);
            && (d.Err? ==> r == Err(d.error))
            && (d.Ok? && c.Err? ==> r == Err(c.error))
            && (d.Ok? && c.Ok? ==> r == Ok(FvtxData(hr.value, d.value, c.value))))
  {
  }

  /** The same for the contents: buffers, then attributes, then vertices. */
  lemma ContentsOrder(data: seq<byte>, order: Order, l: FvtxLayout, dataStart: nat, rd: Readers)
    ensures var r := ContentsSpec(data, order, l, dataStart, rd);
      var b := BuffersSpec(data, order, l, dataStart, rd.buffer);
      var a := AttrsSpec(data, l, rd);
      && (b.Err? ==> r == Err(b.error))
      && (b.Ok? && a.Err? ==> r == Err(a.error))
      && (b.Ok? && a.Ok? ==> var v := VtxsSpec(b.value, a.value, l.numVtxs, rd.unpack, rd.convert);
            && (v.Err? ==> r == Err(v.error))
            && (v.Ok? ==> r == Ok(Contents(b.value, a.value, v.value))))
  {
  }

  /** Exactly `num_attrs` attributes, attribute `i` read at
      `vtx_attrib_array_offs + i*attrSize`. */
  lemma AttrsLayout(data: seq<byte>, l: FvtxLayout, rd: Readers)
    requires AttrsSpec(data, l, rd).Ok?
    ensures var attrs := AttrsSpec(data, l, rd).value;
      |attrs| == l.numAttrs &&
      forall i :: 0 <= i < l.numAttrs ==> rd.attr(data, l.attribArrayOffs + i * rd.attrSize) == Ok(attrs[i])
  {
    RunAt(AttrReader(data, rd.attr), l.attribArrayOffs, rd.attrSize, l.numAttrs);
  }

  /** Exactly `n` vertices, vertex `i` built for index `i`. */
  lemma VtxsLayout(buffers: seq<Buffer>, attrs: seq<Attribute>, n: nat,
                   unpack: (UnpackFmt, seq<byte>) -> Tuple, convert: (string, Tuple) -> Tuple)
    requires VtxsSpec(buffers, attrs, n, unpack, convert).Ok?
    ensures var vs := VtxsSpec(buffers, attrs, n, unpack, convert).value;
      |vs| == n && forall i :: 0 <= i < n ==> VertexAt(buffers, attrs, i, unpack, convert) == Ok(vs[i])
  {
    var vr := VertexReader(buffers, attrs, unpack, convert);
    RunAt(vr, 0, 1, n);
    var vs := VtxsSpec(buffers, attrs, n, unpack, convert).value;
    forall i | 0 <= i < n ensures VertexAt(buffers, attrs, i, unpack, convert) == Ok(vs[i]) {
      assert vr(0 + i * 1) == Ok(vs[i]);
    }
  }

  /** Each vertex holds one value per attribute, in attribute order. */
  lemma VertexValues(buffers: seq<Buffer>, attrs: seq<Attribute>, i: nat,
                     unpack: (UnpackFmt, seq<byte>) -> Tuple, convert: (string, Tuple) -> Tuple)
    requires VertexAt(buffers, attrs, i, unpack, convert).Ok?
    ensures var v := VertexAt(buffers, attrs, i, unpack, convert).value;
      |v| == |attrs| && forall k :: 0 <= k < |attrs| ==> AttrValue(buffers, attrs[k], i, unpack, convert) == Ok(v[k])
  {
    EachAt(a => AttrValue(buffers, a, i, unpack, convert), attrs);
  }

  /** A vertex buffer object as `FVTX` keeps it. */
  class Fvtx {
    var header: Option<FvtxHeader>
    var headerOffset: Option<int>
    var attribDict: Option<NameDict>
    var buffers: seq<Buffer>
    var attrs: seq<Attribute>
    var attrsByName: map<string, Attribute>
    var vtxs: seq<seq<Tuple>>

    constructor()
      ensures header == None && headerOffset == None && attribDict == None
      ensures buffers == [] && attrs == [] && attrsByName == map[] && vtxs == []
    {
      header := None;
      headerOffset := None;
      attribDict := None;
      buffers := [];
      attrs := [];
      attrsByName := map[];
      vtxs := [];
    }

    /** `readFromFRES(offset)`, the offset defaulting to the file position
        `tell`. */
    method ReadFromFres(data: seq<byte>, order: Order, dataStart: nat, tell: int, offset: Option<int>, rd: Readers)
      returns (r: Status)
      modifies this
      ensures offset.Some? ==> headerOffset == offset
      ensures offset.None? ==> headerOffset == Some(tell)
      ensures r == StatusOf(FvtxSpec(data, order, dataStart, OrDefault(offset, tell), rd))
      ensures r.Done? ==> var f := FvtxSpec(data, order, dataStart, OrDefault(offset, tell), rd).value;
        && header == Some(f.header) && attribDict == Some(f.attribDict) && buffers == f.contents.buffers
        && attrs == f.contents.attrs && attrsByName == ByName(attrs) && vtxs == f.contents.vtxs
    {
      var off := OrDefault(offset, tell);
      headerOffset := Some(off);
      var hr := DecodeFvtxHeader(data, order, off);
      if hr.Err? { return Failed(hr.error); }
      var h := hr.value;
      header := Some(h);
      r := ReadBody(data, order, dataStart, h, rd);
    }

    /** The attribute dictionary, then the contents. */
    method ReadBody(data: seq<byte>, order: Order, dataStart: nat, h: FvtxHeader, rd: Readers) returns (r: Status)
      modifies this`attribDict, this`buffers, this`attrs, this`attrsByName, this`vtxs
      ensures r == StatusOf(BodySpec(data, order, dataStart, h, rd))
      ensures r.Done? ==> var (d, c) := BodySpec(data, order, dataStart, h, rd).value;
        && attribDict == Some(d) && buffers == c.buffers
        && attrs == c.attrs && attrsByName == ByName(attrs) && vtxs == c.vtxs
    {
      var d := rd.dict(data, h.AttribDictOffs());
      if d.Err? { return Failed(d.error); }
      attribDict := Some(d.value);
      r := ReadContents(data, order, h.Layout(), dataStart, rd);
    }

    /** `_readBuffers`, `_readAttrs` and `_readVtxs` in turn. */
    method ReadContents(data: seq<byte>, order: Order, l: FvtxLayout, dataStart: nat, rd: Readers) returns (r: Status)
      modifies this`buffers, this`attrs, this`attrsByName, this`vtxs
      ensures r == StatusOf(ContentsSpec(data, order, l, dataStart, rd))
      ensures r.Done? ==> var c := ContentsSpec(data, order, l, dataStart, rd).value;
        buffers == c.buffers && attrs == c.attrs && attrsByName == ByName(attrs) && vtxs == c.vtxs
    {
      r := ReadBuffers(data, order, l.bufSizeOffs, l.strideSizeOffs, l.numBufs, dataStart + l.bufOffs, rd.buffer);
      if r.Failed? { return; }
      r := ReadAttrs(data, l.attribArrayOffs, l.numAttrs, rd);
      if r.Failed? { return; }
      r := ReadVtxs(l.numVtxs, rd.unpack, rd.convert);
    }

    /** `_readBuffers`: `count` buffers whose sizes and strides are in the
        arrays at `bufSize` and `strideSize`; the data offset starts at
        `dataOffs` and grows by each buffer's size. */
    method ReadBuffers(data: seq<byte>, order: Order, bufSize: nat, strideSize: nat, count: nat, dataOffs: int,
                       bufferData: (seq<byte>, nat, nat, int) -> Result<seq<byte>>) returns (r: Status)
      modifies this`buffers
      ensures r == StatusOf(BuffersAt(data, order, bufSize, strideSize, dataOffs, count, bufferData))
      ensures r.Done? ==> buffers == BuffersAt(data, order, bufSize, strideSize, dataOffs, count, bufferData).value
    {
      var offs := dataOffs;
      ghost var step := BufferStep(data, order, bufSize, strideSize, bufferData);
      ghost var total := BuffersAt(data, order, bufSize, strideSize, dataOffs, count, bufferData);
      buffers := [];
      PrefixedNil(total);
      for i := 0 to count
        invariant total == Prefixed(buffers, Walk(step, BufferSize, i, offs, count - i))
      {
        var b := ReadOneBuffer(data, order, bufSize + 0x10 * i, strideSize + 0x10 * i, offs, bufferData);
        BufferStepAt(data, order, bufSize, strideSize, bufferData, i, offs);
        WalkStep(step, BufferSize, total, buffers, i, offs, count - i, b);
        if b.Err? { return Failed(b.error); }
        buffers := buffers + [b.value];
        offs := offs + BufferSize(b.value);
      }
      assert buffers + [] == buffers;
      return Done;
    }

    /** `_readAttrs`: `count` records `attrSize` bytes apart from `arrayOffs`, each also
        entered in `attrsByName` under its name. */
    method ReadAttrs(data: seq<byte>, arrayOffs: nat, count: nat, rd: Readers) returns (r: Status)
      modifies this`attrs, this`attrsByName
      ensures r == StatusOf(Run(AttrReader(data, rd.attr), arrayOffs, rd.attrSize, count))
      ensures r.Done? ==> attrs == Run(AttrReader(data, rd.attr), arrayOffs, rd.attrSize, count).value
      ensures r.Done? ==> attrsByName == ByName(attrs)
    {
      attrs := [];
      attrsByName := map[];
      var offs := arrayOffs;
      var f := AttrReader(data, rd.attr);
      ghost var total := Run(f, offs, rd.attrSize, count);
      ghost var done: seq<Attribute> := [];
      RunStart(f, offs, rd.attrSize, count);
      for i := 0 to count
        invariant total == Prefixed(done, Run(f, offs, rd.attrSize, count - i))
        invariant attrs == done && attrsByName == ByName(done)
      {
        var attr := rd.attr(data, offs);
        RunStep(f, total, done, offs, rd.attrSize, count - i, attr);
        if attr.Err? { return Failed(attr.error); }
        ghost var before := done;
        done := done + [attr.value];
        assert done[..|done| - 1] == before;
        attrs := attrs + [attr.value];
        attrsByName := attrsByName[attr.value.name := attr.value];
        offs := offs + rd.attrSize;
      }
      RunEnd(f, total, done, offs, rd.attrSize);
      return Done;
    }

    /** `_readVtxs`: `n` vertices, each built by the inner loop over the
        attributes. */
    method ReadVtxs(n: nat, unpack: (UnpackFmt, seq<byte>) -> Tuple, convert: (string, Tuple) -> Tuple)
      returns (r: Status)
      modifies this`vtxs
      ensures r == StatusOf(VtxsSpec(buffers, attrs, n, unpack, convert))
      ensures r.Done? ==> vtxs == VtxsSpec(buffers, attrs, n, unpack, convert).value
    {
      var f := VertexReader(buffers, attrs, unpack, convert);
      ghost var total := Run(f, 0, 1, n);
      ghost var done: seq<seq<Tuple>> := [];
      vtxs := [];
      RunStart(f, 0, 1, n);
      for i := 0 to n
        invariant total == Prefixed(done, Run(f, i, 1, n - i))
        invariant vtxs == done
      {
        var v := ReadVertex(buffers, attrs, i, unpack, convert);
        RunStep(f, total, done, i, 1, n - i, v);
        if v.Err? { return Failed(v.error); }
        done := done + [v.value];
        vtxs := vtxs + [v.value];
      }
      RunEnd(f, total, done, n, 1);
      return Done;
    }

    /** The inner loop of `_readVtxs`: vertex `i`'s value of each attribute. */
    static method ReadVertex(buffers: seq<Buffer>, attrs: seq<Attribute>, i: nat,
                             unpack: (UnpackFmt, seq<byte>) -> Tuple, convert: (string, Tuple) -> Tuple)
      returns (r: Result<seq<Tuple>>)
      ensures r == VertexAt(buffers, attrs, i, unpack, convert)
    {
      var f := a => AttrValue(buffers, a, i, unpack, convert);
      ghost var total := Each(f, attrs);
      var vtx: seq<Tuple> := [];
      EachStart(f, attrs);
      for k := 0 to |attrs|
        invariant total == Prefixed(vtx, Each(f, attrs[k..]))
      {
        var attr := attrs[k];
        if attr.bufIdx >= |buffers| {
          EachAbort(f, total, vtx, attrs, k);
          return Err(IndexError(attr.bufIdx, |buffers|));
        }
        var buf := buffers[attr.bufIdx];
        var offs := attr.bufOffs + i * buf.stride;
        var fmt := attr.format.Unpack();
        var func: Option<string> := None;
        if attr.format.Described? { func := attr.format.func; }
        if offs + fmt.width > |buf.data| {
          EachAbort(f, total, vtx, attrs, k);
          return Err(UnpackSize(fmt.width, if offs < |buf.data| then |buf.data| - offs else 0));
        }
        var value := unpack(fmt, buf.data[offs..offs + fmt.width]);
        if func.Some? { value := convert(func.value, value); }
        EachAdvance(f, total, vtx, attrs, k, value);
        vtx := vtx + [value];
      }
      EachEnd(f, total, vtx, attrs);
      return Ok(vtx);
    }
  }
}
