/** The FSHP section: a shape. Its 0x70-byte header names the shape and
    locates one vertex buffer object (FVTX) and `lod_cnt` level-of-detail
    records laid out at a fixed stride. */
module Shape {
  import opened Bytes
  import opened Results
  import opened Reader
  import opened Collab
  import opened Runs
  import opened VertexData

  const FshpMagic: seq<byte> := [0x46, 0x53, 0x48, 0x50]  // "FSHP"
  const FshpHeaderSize: nat := 0x70

  /** The header as its 0x70 bytes: magic, three unknown words, the name's
      string offset and padding, eight 64-bit offsets, the flags word, six
      16-bit fields, two one-byte counts, the visibility group count, the
      skeleton array count and padding. */
  datatype FshpHeader = FshpHeader(bytes: seq<byte>, order: Order) {
    function Magic(): seq<byte> { if |bytes| >= 4 then bytes[..4] else bytes }
    function NameOffs(): nat { Field(bytes, order, 0x10, 4) }
    function FvtxOffset(): nat { Field(bytes, order, 0x18, 8) }
    function LodOffset(): nat { Field(bytes, order, 0x20, 8) }
    function FsklIdxArrayOffs(): nat { Field(bytes, order, 0x28, 8) }
    function BboxOffset(): nat { Field(bytes, order, 0x40, 8) }
    function BradiusOffset(): nat { Field(bytes, order, 0x48, 8) }
    function Flags(): nat { Field(bytes, order, 0x58, 4) }
    function Index(): nat { Field(bytes, order, 0x5C, 2) }
    function FmatIdx(): nat { Field(bytes, order, 0x5E, 2) }
    function SingleBind(): nat { Field(bytes, order, 0x60, 2) }
    function FvtxIdx(): nat { Field(bytes, order, 0x62, 2) }
    function SkinBoneIdxCnt(): nat { Field(bytes, order, 0x64, 2) }
    function VtxSkinCnt(): nat { Field(bytes, order, 0x66, 1) }
    function LodCnt(): nat { Field(bytes, order, 0x67, 1) }
    function VisGroupCnt(): nat { Field(bytes, order, 0x68, 4) }
    function FsklArrayCnt(): nat { Field(bytes, order, 0x6C, 2) }
  }

  function DecodeFshpHeader(data: seq<byte>, order: Order, pos: int): (r: Result<FshpHeader>)
    ensures r.Ok? <==> ReadBytes(data, pos, FshpHeaderSize).Ok? && data[pos..pos + 4] == FshpMagic
    ensures r.Ok? ==> r.value.Magic() == FshpMagic && |r.value.bytes| == FshpHeaderSize
  {
    var block :- ReadBytes(data, pos, FshpHeaderSize);
    if block[..4] != FshpMagic then Err(BadMagic(FshpMagic, block[..4]))
    else Ok(FshpHeader(block, order))
  }

  /** A field of a decoded header is the number stored at its offset. */
  lemma FshpFieldAt(data: seq<byte>, order: Order, pos: int, h: FshpHeader, at: nat, width: nat)
    requires DecodeFshpHeader(data, order, pos) == Ok(h) && at + width <= FshpHeaderSize
    ensures h.order == order && ReadUInt(data, order, pos + at, width) == Ok(Field(h.bytes, order, at, width))
  {
    FieldAt(data, order, pos, FshpHeaderSize, at, width);
  }

  /** The LOD reader as a function of the record's offset. */
  function LodReader(data: seq<byte>, lod: (seq<byte>, int) -> Result<Lod>): int -> Result<Lod> {
    o => lod(data, o)
  }

  /** The LOD loop: `count` records `lodSize` bytes apart from `lod_offset`. */
  function LodsSpec(data: seq<byte>, lodOffs: nat, count: nat, rd: Readers): Result<seq<Lod>> {
    Run(LodReader(data, rd.lod), lodOffs, rd.lodSize, count)
  }

  /** Exactly `lod_cnt` LODs, LOD `i` read at `lod_offset + i*lodSize`, in order. */
  lemma LodsLayout(data: seq<byte>, lodOffs: nat, count: nat, rd: Readers)
    requires LodsSpec(data, lodOffs, count, rd).Ok?
    ensures var lods := LodsSpec(data, lodOffs, count, rd).value;
      |lods| == count && forall i :: 0 <= i < count ==> rd.lod(data, lodOffs + i * rd.lodSize) == Ok(lods[i])
  {
    RunAt(LodReader(data, rd.lod), lodOffs, rd.lodSize, count);
  }

  datatype FshpData = FshpData(header: FshpHeader, fvtx: FvtxData, lods: seq<Lod>)

  /** `readFromFRES(offset)`: the header at `offset`, then the FVTX and the LODs. */
  function FshpSpec(data: seq<byte>, order: Order, dataStart: nat, offset: int, rd: Readers): (r: Result<FshpData>)
    ensures DecodeFshpHeader(data, order, offset).Err? ==> r == Err(DecodeFshpHeader(data, order, offset).error)
    ensures r.Ok? ==> && DecodeFshpHeader(data, order, offset) == Ok(r.value.header)
                      && FvtxSpec(data, order, dataStart, r.value.header.FvtxOffset(), rd) == Ok(r.value.fvtx)
                      && LodsSpec(data, r.value.header.LodOffset(), r.value.header.LodCnt(), rd) == Ok(r.value.lods)
  {
    var h :- DecodeFshpHeader(data, order, offset);
    var (v, lods) :- PartsSpec(data, order, dataStart, h.FvtxOffset(), h.LodOffset(), h.LodCnt(), rd);
    Ok(FshpData(h, v, lods))
  }

  /** The FVTX at `fvtxOffs`, then `lodCnt` LODs from `lodOffs`; the first
      failure ends it. */
  function PartsSpec(data: seq<byte>, order: Order, dataStart: nat, fvtxOffs: nat, lodOffs: nat, lodCnt: nat,
                     rd: Readers): Result<(FvtxData, seq<Lod>)>
  {
    var v :- FvtxSpec(data, order, dataStart, fvtxOffs, rd);
    var lods :- LodsSpec(data, lodOffs, lodCnt, rd);
    Ok((v, lods))
  }

  /** The read order of `readFromFRES`: the header, the FVTX before any
      LOD; a failing step fails the read with its own error. */
  lemma FshpOrder(data: seq<byte>, order: Order, dataStart: nat, offset: int, rd: Readers)
    ensures var r := FshpSpec(data, order, dataStart, offset, rd);
      var hr := DecodeFshpHeader(data, order, offset);
      && (hr.Err? ==> r == Err(hr.error))
      && (hr.Ok? ==> var p := PartsSpec(data, order, dataStart, hr.value.FvtxOffset(), hr.value.LodOffset(), hr.value.LodCnt(), rd);
            && (p.Err? ==> r == Err(p.error))
            && (p.Ok? ==> r == Ok(FshpData(hr.value, p.value.0, p.value.1))))
  {
  }

  lemma PartsOrder(data: seq<byte>, order: Order, dataStart: nat, fvtxOffs: nat, lodOffs: nat, lodCnt: nat, rd: Readers)
    ensures var r := PartsSpec(data, order, dataStart, fvtxOffs, lodOffs, lodCnt, rd);
      var v := FvtxSpec(data, order, dataStart, fvtxOffs, rd);
      var lods := LodsSpec(data, lodOffs, lodCnt, rd);
      && (v.Err? ==> r == Err(v.error))
      && (v.Ok? && lods.Err? ==> r == Err(lods.error))
      && (v.Ok? && lods.Ok? ==> r == Ok((v.value, lods.value)))
  {
  }

  /** A shape as `FSHP` keeps it; `name` is the header's name field, the
      offset of the name string. */
  class Fshp {
    var header: Option<FshpHeader>
    var headerOffset: Option<int>
    var name: Option<nat>
    var fvtx: Option<Fvtx>
    var lods: seq<Lod>

    constructor()
      ensures header == None && headerOffset == None && name == None && fvtx == None && lods == []
    {
      header := None;
      headerOffset := None;
      name := None;
      fvtx := None;
      lods := [];
    }

    /** `readFromFRES(offset)`, the offset defaulting to the file position
        `tell`. */
    method ReadFromFres(data: seq<byte>, order: Order, dataStart: nat, tell: int, offset: Option<int>, rd: Readers)
      returns (r: Status)
      modifies this`header, this`headerOffset, this`name, this`fvtx, this`lods
      ensures offset.Some? ==> headerOffset == offset
      ensures offset.None? ==> headerOffset == Some(tell)
      ensures r == StatusOf(FshpSpec(data, order, dataStart, OrDefault(offset, tell), rd))
      ensures r.Done? ==> var f := FshpSpec(data, order, dataStart, OrDefault(offset, tell), rd).value;
        && header == Some(f.header) && name == Some(f.header.NameOffs()) && lods == f.lods
        && fvtx.Some? && fresh(fvtx.value) && fvtx.value.headerOffset == Some(f.header.FvtxOffset())
        && fvtx.value.header == Some(f.fvtx.header) && fvtx.value.attribDict == Some(f.fvtx.attribDict)
        && fvtx.value.buffers == f.fvtx.contents.buffers && fvtx.value.attrs == f.fvtx.contents.attrs
        && fvtx.value.attrsByName == ByName(f.fvtx.contents.attrs) && fvtx.value.vtxs == f.fvtx.contents.vtxs
    {
      var off := OrDefault(offset, tell);
      headerOffset := Some(off);
      var hr := DecodeFshpHeader(data, order, off);
      if hr.Err? { return Failed(hr.error); }
      var h := hr.value;
      header := Some(h);
      name := Some(h.NameOffs());
      r := ReadParts(data, order, dataStart, tell, h.FvtxOffset(), h.LodOffset(), h.LodCnt(), rd);
      FshpOrder(data, order, dataStart, off, rd);
    }

    /** The FVTX, a new object read at `fvtxOffs`, then the LODs. */
    method ReadParts(data: seq<byte>, order: Order, dataStart: nat, tell: int, fvtxOffs: nat, lodOffs: nat, lodCnt: nat,
                     rd: Readers) returns (r: Status)
      modifies this`fvtx, this`lods
      ensures r == StatusOf(PartsSpec(data, order, dataStart, fvtxOffs, lodOffs, lodCnt, rd))
      ensures r.Done? ==> var p := PartsSpec(data, order, dataStart, fvtxOffs, lodOffs, lodCnt, rd).value;
        && lods == p.1 && fvtx.Some? && fresh(fvtx.value) && fvtx.value.headerOffset == Some(fvtxOffs)
        && fvtx.value.header == Some(p.0.header) && fvtx.value.attribDict == Some(p.0.attribDict)
        && fvtx.value.buffers == p.0.contents.buffers && fvtx.value.attrs == p.0.contents.attrs
        && fvtx.value.attrsByName == ByName(p.0.contents.attrs) && fvtx.value.vtxs == p.0.contents.vtxs
    {
      var v := new Fvtx();
      r := v.ReadFromFres(data, order, dataStart, tell, Some(fvtxOffs), rd);
      fvtx := Some(v);
      if r.Failed? { return; }
      r := ReadLods(data, lodOffs, lodCnt, rd);
    }

    /** The LOD loop of `readFromFRES`: `count` records `lodSize` bytes
        apart from `lodOffs`, appended in order. */
    method ReadLods(data: seq<byte>, lodOffs: nat, count: nat, rd: Readers) returns (r: Status)
      modifies this`lods
      ensures r == StatusOf(LodsSpec(data, lodOffs, count, rd))
      ensures r.Done? ==> lods == LodsSpec(data, lodOffs, count, rd).value
    {
      lods := [];
      var offs := lodOffs;
      var f := LodReader(data, rd.lod);
      ghost var total := Run(f, offs, rd.lodSize, count);
      ghost var done: seq<Lod> := [];
      RunStart(f, offs, rd.lodSize, count);
      for i := 0 to count
        invariant total == Prefixed(done, Run(f, offs, rd.lodSize, count - i))
        invariant lods == done
      {
        var model := rd.lod(data, offs);
        RunStep(f, total, done, offs, rd.lodSize, count - i, model);
        if model.Err? { return Failed(model.error); }
        offs := offs + rd.lodSize;
        done := done + [model.value];
        lods := lods + [model.value];
      }
      RunEnd(f, total, done, offs, rd.lodSize);
      return Done;
    }
  }
}
