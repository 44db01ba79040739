/** The relocation table: a fixed 0x34-byte `_RLT` header whose only
    interpreted field is `data_start`, the base that relocation-relative
    reads add to their position. */
module Relocation {
  import opened Bytes
  import opened Results
  import opened Reader

  const RltMagic: seq<byte> := [0x5F, 0x52, 0x4C, 0x54]  // "_RLT"
  const RltHeaderSize: nat := 0x34

  /** The header as its 0x34 bytes: the magic, eleven u32 words at
      0x04..0x2C whose meaning is unknown, and the u32 `data_start` at 0x30. */
  datatype RltHeader = RltHeader(bytes: seq<byte>, order: Order) {
    function Magic(): seq<byte> { if |bytes| >= 4 then bytes[..4] else bytes }
    function Unknown(i: nat): nat
      requires i < 11
    {
      if |bytes| >= 8 + 4 * i then UInt(bytes[4 + 4 * i..8 + 4 * i], order) else 0
    }
    function DataStart(): nat { if |bytes| >= 0x34 then UInt(bytes[0x30..0x34], order) else 0 }
  }

  function DecodeRltHeader(data: seq<byte>, order: Order, pos: int): (r: Result<RltHeader>)
    ensures r.Ok? <==> ReadBytes(data, pos, RltHeaderSize).Ok? && data[pos..pos + 4] == RltMagic
    ensures r.Ok? ==> r.value.Magic() == RltMagic && |r.value.bytes| == RltHeaderSize
  {
    var block :- ReadBytes(data, pos, RltHeaderSize);
    if block[..4] != RltMagic then Err(BadMagic(RltMagic, block[..4]))
    else Ok(RltHeader(block, order))
  }

  /** `data_start` is the u32 at 0x30 of the header. */
  lemma DataStartAt(data: seq<byte>, order: Order, pos: int)
    requires DecodeRltHeader(data, order, pos).Ok?
    ensures ReadUInt(data, order, pos + 0x30, 4) == Ok(DecodeRltHeader(data, order, pos).value.DataStart())
  {
    assert data[pos..pos + RltHeaderSize][0x30..0x34] == data[pos + 0x30..pos + 0x34];
  }

  /** Where `readFromFRES` reads: the offset given, else the container
      header's `rlt_offset`. */
  function RltPos(rltOffset: nat, offset: Option<int>): int {
    if offset.Some? then offset.value else rltOffset
  }

  class Rlt {
    var header: Option<RltHeader>
    var dataStart: nat

    constructor ()
      ensures header == None && dataStart == 0
    {
      header := None;
      dataStart := 0;
    }

    /** `readFromFRES`: `data` and `order` are the container's file and
        `rltOffset` its header's `rlt_offset`. */
    method ReadFromFres(data: seq<byte>, order: Order, rltOffset: nat, offset: Option<int>) returns (r: Status)
      modifies this
      ensures r == StatusOf(DecodeRltHeader(data, order, RltPos(rltOffset, offset)))
      ensures r.Done? ==> header == Some(DecodeRltHeader(data, order, RltPos(rltOffset, offset)).value)
      ensures r.Done? ==> dataStart == header.value.DataStart()
      ensures r.Failed? ==> header == old(header) && dataStart == old(dataStart)
    {
      var at := if offset.None? then rltOffset else offset.value;
      var h := DecodeRltHeader(data, order, at);
      if h.Err? { return Failed(h.error); }
      header := Some(h.value);
      dataStart := h.value.DataStart();
      return Done;
    }
  }

  /** Given a header whose `data_start` word holds `v`, `dataStart` is `v`. */
  lemma DataStartEncoded(data: seq<byte>, order: Order, pos: nat, v: nat)
    requires pos + RltHeaderSize <= |data| && data[pos..pos + 4] == RltMagic
    requires v < Pow256(4) && data[pos + 0x30..pos + 0x34] == Encode(v, 4, order)
    ensures DecodeRltHeader(data, order, pos).Ok?
    ensures DecodeRltHeader(data, order, pos).value.DataStart() == v
  {
    DataStartAt(data, order, pos);
    ReadUIntEncoded(data, order, pos + 0x30, 4, v);
  }
}
