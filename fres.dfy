/** The FRES container front end: the fixed 0xD0-byte Switch header, the
    byte-order choice, the decode order (relocation table, string table,
    embedded files, models), the fixed-stride object array reader, and the
    positioned, relocation-relative reads offered to the section readers. */
module Container {
  import opened Bytes
  import opened Results
  import opened Reader
  import opened Collab
  import opened Hex
  import opened Relocation
  import opened StringTables
  import opened Runs

  const FresMagic: seq<byte> := [0x46, 0x52, 0x45, 0x53, 0x20, 0x20, 0x20, 0x20]  // "FRES    "
  const FresHeaderSize: nat := 0xD0

  /** The section kinds the header has an array offset, a dict offset and a count for. */
  datatype SectionKind = Fmdl | Fska | Fmaa | Fvis | Fshu | Fscn | Embed

  function KindIndex(k: SectionKind): (i: nat)
    ensures i < 7
  {
    match k
    case Fmdl => 0 case Fska => 1 case Fmaa => 2 case Fvis => 3
    case Fshu => 4 case Fscn => 5 case Embed => 6
  }

  /** Header positions of a kind's u64 array offset, u64 dict offset and u16
      count: the six animation/model kinds sit in pairs from 0x28, the
      embedded files after the two buffer-memory-pool words, at 0x98. */
  function OffsetAt(k: SectionKind): nat { if k == Embed then 0x98 else 0x28 + 0x10 * KindIndex(k) }
  function DictAt(k: SectionKind): nat { OffsetAt(k) + 8 }
  function CountAt(k: SectionKind): nat { 0xBC + 2 * KindIndex(k) }

  /** The per-kind fields do not overlap each other and lie inside the header,
      clear of the fixed fields before 0x28 and of 0x88..0x98 and 0xA8..0xBC. */
  lemma SlotLayout(k: SectionKind, k': SectionKind)
    requires k != k'
    ensures 0x28 <= OffsetAt(k) && DictAt(k) + 8 <= 0xA8 && CountAt(k) + 2 <= 0xCA
    ensures !(0x88 <= OffsetAt(k) < 0x98) && 0xBC <= CountAt(k)
    ensures OffsetAt(k) + 16 <= OffsetAt(k') || OffsetAt(k') + 16 <= OffsetAt(k)
    ensures CountAt(k) != CountAt(k')
  {
  }

  datatype Slot = Slot(offset: nat, dictOffset: nat, count: nat)

  /** The Switch header as its 0xD0 bytes, each field read off at its own
      offset in the file's default byte order, except `version`, which is
      explicitly little-endian. */
  datatype FresHeader = FresHeader(bytes: seq<byte>, order: Order) {
    function Magic(): seq<byte> { if |bytes| >= 8 then bytes[..8] else bytes }
    function Version(): (nat, nat) { (Field(bytes, Little, 0x08, 2), Field(bytes, Little, 0x0A, 2)) }
    function ByteOrder(): nat { Field(bytes, order, 0x0C, 2) }
    function HeaderLen(): nat { Field(bytes, order, 0x0E, 2) }
    /** `name`: offset of the file name. */
    function Name(): nat { Field(bytes, order, 0x10, 4) }
    function Alignment(): nat { Field(bytes, order, 0x14, 4) }
    function RltOffset(): nat { Field(bytes, order, 0x18, 4) }
    function FileSize(): nat { Field(bytes, order, 0x1C, 4) }
    function Name2(): nat { Field(bytes, order, 0x20, 4) }
    function Unk24(): nat { Field(bytes, order, 0x24, 4) }
    function SlotOf(k: SectionKind): Slot {
      Slot(Field(bytes, order, OffsetAt(k), 8), Field(bytes, order, DictAt(k), 8), Field(bytes, order, CountAt(k), 2))
    }
    function BufMemPool(): nat { Field(bytes, order, 0x88, 8) }
    function BufMemPoolInfo(): nat { Field(bytes, order, 0x90, 8) }
    function UnkA8(): nat { Field(bytes, order, 0xA8, 8) }
    function StrTabOffset(): nat { Field(bytes, order, 0xB0, 8) }
    function StrTabSize(): nat { Field(bytes, order, 0xB8, 4) }
    function UnkCA(): nat { Field(bytes, order, 0xCA, 2) }
    function UnkCC(): nat { Field(bytes, order, 0xCC, 2) }
    function UnkCE(): nat { Field(bytes, order, 0xCE, 2) }
  }

  /** The Switch header at `pos`: 0xD0 bytes starting with the magic. */
  function DecodeFresHeader(data: seq<byte>, order: Order, pos: int): (r: Result<FresHeader>)
    ensures r.Ok? <==> ReadBytes(data, pos, FresHeaderSize).Ok? && data[pos..pos + 8] == FresMagic
    ensures r.Ok? ==> r.value.Magic() == FresMagic && |r.value.bytes| == FresHeaderSize
  {
    var block :- ReadBytes(data, pos, FresHeaderSize);
    if block[..8] != FresMagic then Err(BadMagic(FresMagic, block[..8]))
    else Ok(FresHeader(block, order))
  }

  /** A field of a decoded header is the number stored at its offset. */
  lemma FresFieldAt(data: seq<byte>, order: Order, pos: int, h: FresHeader, at: nat, width: nat)
    requires DecodeFresHeader(data, order, pos) == Ok(h) && at + width <= FresHeaderSize
    ensures h.order == order && ReadUInt(data, order, pos + at, width) == Ok(Field(h.bytes, order, at, width))
  {
    FieldAt(data, order, pos, FresHeaderSize, at, width);
  }

  /** The byte-order marker: 0xFFFE is little-endian, 0xFEFF big-endian,
      anything else is rejected. */
  function ByteOrderOf(marker: nat): (r: Result<Order>)
    ensures r.Ok? <==> marker == 0xFFFE || marker == 0xFEFF
    ensures r.Ok? ==> MarkerOf(r.value) == marker
    ensures r.Err? ==> r.error == InvalidByteOrder(marker)
  {
    if marker == 0xFFFE then Ok(Little)
    else if marker == 0xFEFF then Ok(Big)
    else Err(InvalidByteOrder(marker))
  }

  function MarkerOf(o: Order): nat {
    match o
    case Little => 0xFFFE
    case Big => 0xFEFF
  }

  lemma ByteOrderRoundTrip(o: Order)
    ensures ByteOrderOf(MarkerOf(o)) == Ok(o)
  {
  }

  /** `byteOrderFmt`, the `struct` prefix of the chosen order. */
  function OrderFmt(o: Order): (c: char)
    ensures c == '<' <==> o == Little
  {
    match o
    case Little => '<'
    case Big => '>'
  }

  datatype Opened = Opened(header: FresHeader, byteOrder: Order, warnings: seq<Warning>)

  /** What `FRES.__init__` decides from the file: the header, the byte order,
      and a warning for any version but (3, 5). */
  function OpenSpec(data: seq<byte>, order: Order, pos: int): (r: Result<Opened>)
    ensures r.Ok? <==> DecodeFresHeader(data, order, pos).Ok? && ByteOrderOf(DecodeFresHeader(data, order, pos).value.ByteOrder()).Ok?
    ensures r.Ok? ==> && DecodeFresHeader(data, order, pos) == Ok(r.value.header)
                      && MarkerOf(r.value.byteOrder) == r.value.header.ByteOrder()
  {
    var h :- DecodeFresHeader(data, order, pos);
    var warnings := if h.Version() != (3, 5) then [UnknownVersion(h.Version().0, h.Version().1)] else [];
    var bo :- ByteOrderOf(h.ByteOrder());
    Ok(Opened(h, bo, warnings))
  }

  /** An unknown version never stops a container from opening: with the same
      header bytes otherwise, opening succeeds or fails exactly when it
      would for version (3, 5), and only the warning differs. */
  lemma VersionOnlyWarns(data: seq<byte>, order: Order, pos: int, h: FresHeader)
    requires DecodeFresHeader(data, order, pos) == Ok(h)
    ensures
      && (OpenSpec(data, order, pos).Ok? <==> h.ByteOrder() == 0xFFFE || h.ByteOrder() == 0xFEFF)
      && (OpenSpec(data, order, pos).Ok? ==>
            OpenSpec(data, order, pos).value.warnings == (if h.Version() == (3, 5) then [] else [UnknownVersion(h.Version().0, h.Version().1)]))
  {
  }

  /** The container's outcome of `decode`. */
  datatype Decoded = Decoded(rlt: RltHeader, table: (StringTables.Header, map<int, string>),
                             embeds: seq<Section>, models: seq<Section>)

  /** `_readObjects`: nothing when the dict offset is 0; otherwise the dict
      at that offset, then `count` objects at the array offset, `size`
      bytes apart, each read under the dict root's left name. */
  function ObjectsSpec(data: seq<byte>, slot: Slot, size: nat, dict: (seq<byte>, int) -> Result<NameDict>,
                       read: (seq<byte>, string, int) -> Result<Section>): (r: Result<seq<Section>>)
    ensures slot.dictOffset == 0 ==> r == Ok([])
    ensures slot.dictOffset != 0 && dict(data, slot.dictOffset).Err? ==> r == Err(dict(data, slot.dictOffset).error)
  {
    if slot.dictOffset == 0 then Ok([])
    else
      var d :- dict(data, slot.dictOffset);
      Run(o => read(data, d.rootLeftName, o), slot.offset, size, slot.count)
  }

  /** `_readObjects` returns no objects when the dict offset is 0, and
      otherwise exactly `count` objects read at `offs + i*size` in order, every
      one under the dict root's left name. */
  lemma ObjectsShape(data: seq<byte>, slot: Slot, size: nat, dict: (seq<byte>, int) -> Result<NameDict>,
                     read: (seq<byte>, string, int) -> Result<Section>)
    ensures slot.dictOffset == 0 ==> ObjectsSpec(data, slot, size, dict, read) == Ok([])
    ensures slot.dictOffset != 0 && dict(data, slot.dictOffset).Err? ==>
      ObjectsSpec(data, slot, size, dict, read) == Err(dict(data, slot.dictOffset).error)
    ensures ObjectsSpec(data, slot, size, dict, read).Ok? && slot.dictOffset != 0 ==>
      var name := dict(data, slot.dictOffset).value.rootLeftName;
      var objs := ObjectsSpec(data, slot, size, dict, read).value;
      |objs| == slot.count &&
      forall i :: 0 <= i < slot.count ==> read(data, name, slot.offset + i * size) == Ok(objs[i])
  {
    if slot.dictOffset != 0 && dict(data, slot.dictOffset).Ok? {
      var name := dict(data, slot.dictOffset).value.rootLeftName;
      var f := o => read(data, name, o);
      if Run(f, slot.offset, size, slot.count).Ok? {
        RunAt(f, slot.offset, size, slot.count);
      }
    }
  }

  /** The relocation table at the header's `rlt_offset`, then the string
      table 0x14 bytes before `str_tab_offset`. */
  function TablesSpec(data: seq<byte>, order: Order, h: FresHeader, sjis: seq<byte> -> Option<string>)
    : Result<(RltHeader, (StringTables.Header, map<int, string>))>
  {
    var rlt :- DecodeRltHeader(data, order, h.RltOffset());
    var table :- ReadTable(data, order, sjis, h.StrTabOffset() - HeaderSize);
    Ok((rlt, table))
  }

  /** `decode`: the two tables, then the embedded files, then the models;
      the first failure ends it. */
  function DecodeSpec(data: seq<byte>, order: Order, h: FresHeader, rd: Readers): (r: Result<Decoded>)
    ensures r.Ok? ==> && Ok(r.value.rlt) == DecodeRltHeader(data, order, h.RltOffset())
                      && Ok(r.value.table) == ReadTable(data, order, rd.sjis, h.StrTabOffset() - HeaderSize)
  {
    var (rlt, table) :- TablesSpec(data, order, h, rd.sjis);
    var embeds :- ObjectsSpec(data, h.SlotOf(Embed), rd.embedSize, rd.dict, rd.embed);
    var models :- ObjectsSpec(data, h.SlotOf(Fmdl), rd.modelSize, rd.dict, rd.model);
    Ok(Decoded(rlt, table, embeds, models))
  }

  /** `str_tab_offset` names the first string itself: when the table has
      entries, the first one is keyed by `str_tab_offset` rounded up to even. */
  lemma FirstStringAtStrTabOffset(data: seq<byte>, order: Order, h: FresHeader, rd: Readers)
    requires DecodeSpec(data, order, h, rd).Ok?
    ensures var (th, strings) := DecodeSpec(data, order, h, rd).value.table;
      th.numStrs > 0 ==> Pad(h.StrTabOffset()) in strings
  {
    var at := h.StrTabOffset() - HeaderSize;
    TableContents(data, order, rd.sjis, at);
    assert at + 0x14 == h.StrTabOffset();
  }

  /** Decoding fails as soon as one step does: a bad relocation table
      stops it before the string table is looked at, a bad string table
      before any embedded file, a bad embedded file before any model. */
  lemma DecodeOrder(data: seq<byte>, order: Order, h: FresHeader, rd: Readers)
    ensures DecodeRltHeader(data, order, h.RltOffset()).Err? ==>
      DecodeSpec(data, order, h, rd) == Err(DecodeRltHeader(data, order, h.RltOffset()).error)
    ensures DecodeRltHeader(data, order, h.RltOffset()).Ok? && ReadTable(data, order, rd.sjis, h.StrTabOffset() - 0x14).Err? ==>
      DecodeSpec(data, order, h, rd) == Err(ReadTable(data, order, rd.sjis, h.StrTabOffset() - 0x14).error)
    ensures (DecodeRltHeader(data, order, h.RltOffset()).Ok? && ReadTable(data, order, rd.sjis, h.StrTabOffset() - 0x14).Ok? &&
             ObjectsSpec(data, h.SlotOf(Embed), rd.embedSize, rd.dict, rd.embed).Err?) ==>
      DecodeSpec(data, order, h, rd) == Err(ObjectsSpec(data, h.SlotOf(Embed), rd.embedSize, rd.dict, rd.embed).error)
    ensures (DecodeRltHeader(data, order, h.RltOffset()).Ok? && ReadTable(data, order, rd.sjis, h.StrTabOffset() - 0x14).Ok? &&
             ObjectsSpec(data, h.SlotOf(Embed), rd.embedSize, rd.dict, rd.embed).Ok? &&
             ObjectsSpec(data, h.SlotOf(Fmdl), rd.modelSize, rd.dict, rd.model).Err?) ==>
      DecodeSpec(data, order, h, rd) == Err(ObjectsSpec(data, h.SlotOf(Fmdl), rd.modelSize, rd.dict, rd.model).error)
    ensures DecodeSpec(data, order, h, rd).Ok? <==>
      DecodeRltHeader(data, order, h.RltOffset()).Ok? && ReadTable(data, order, rd.sjis, h.StrTabOffset() - 0x14).Ok? &&
      ObjectsSpec(data, h.SlotOf(Embed), rd.embedSize, rd.dict, rd.embed).Ok? &&
      ObjectsSpec(data, h.SlotOf(Fmdl), rd.modelSize, rd.dict, rd.model).Ok?
    ensures DecodeSpec(data, order, h, rd).Ok? ==>
      var d := DecodeSpec(data, order, h, rd).value;
      && Ok(d.rlt) == DecodeRltHeader(data, order, h.RltOffset())
      && Ok(d.table) == ReadTable(data, order, rd.sjis, h.StrTabOffset() - 0x14)
      && Ok(d.embeds) == ObjectsSpec(data, h.SlotOf(Embed), rd.embedSize, rd.dict, rd.embed)
      && Ok(d.models) == ObjectsSpec(data, h.SlotOf(Fmdl), rd.modelSize, rd.dict, rd.model)
  {
  }

  /** `read`'s position: the one given, else the current one, plus the
      relocation table's `dataStart` when `rel` is set (which needs `decode`
      to have read the table). */
  function EffectivePos(cursor: int, pos: Option<int>, rel: bool, dataStart: Option<nat>): (r: Result<int>)
    ensures r.Err? <==> rel && dataStart.None?
    ensures r.Ok? && !rel ==> r.value == (if pos.Some? then pos.value else cursor)
    ensures r.Ok? && rel ==> r.value == (if pos.Some? then pos.value else cursor) + dataStart.value
  {
    var p := if pos.None? then cursor else pos.value;
    if !rel then Ok(p)
    else if dataStart.None? then Err(NoAttribute("rlt"))
    else Ok(p + dataStart.value)
  }

  /** `readStr`'s result: decoded text, or the raw bytes when no encoding is given. */
  datatype Text = Str(text: string) | Raw(bytes: seq<byte>)

  /** `readStr(offset, fmt, encoding)`: the length in `fmt` at `offset`,
      then that many bytes right after it. */
  function ReadStrSpec(data: seq<byte>, order: Order, offset: int, lenWidth: nat, lenOrder: Option<Order>,
                       encoding: Option<seq<byte> -> Option<string>>): (r: Result<Text>)
    ensures r.Ok? ==> ReadUInt(data, if lenOrder.Some? then lenOrder.value else order, offset, lenWidth).Ok?
    ensures r.Ok? ==> (r.value.Raw? <==> encoding.None?)
    ensures r.Ok? && r.value.Raw? ==>
      ReadBytes(data, offset + lenWidth,
                ReadUInt(data, if lenOrder.Some? then lenOrder.value else order, offset, lenWidth).value)
      == Ok(r.value.bytes)
  {
    var size :- ReadUInt(data, if lenOrder.Some? then lenOrder.value else order, offset, lenWidth);
    var raw :- ReadBytes(data, offset + lenWidth, size);
    if encoding.None? then Ok(Raw(raw))
    else match encoding.value(raw)
      case None => Err(StringDecode(offset + lenWidth, Head16(raw)))
      case Some(s) => Ok(Str(s))
  }

  /** `readStr` with its defaults (`'<H'`, Shift-JIS) at the key of a string
      table entry gives that entry's text: the two readers agree. */
  lemma ReadStrMatchesTable(data: seq<byte>, order: Order, sjis: seq<byte> -> Option<string>, offset: int, n: nat, i: nat)
    requires ReadEntries(data, sjis, offset, n).Ok? && i < |ReadEntries(data, sjis, offset, n).value|
    ensures var e := ReadEntries(data, sjis, offset, n).value[i];
      ReadStrSpec(data, order, e.offset, 2, Some(Little), Some(sjis)) == Ok(Str(e.text))
  {
    EntriesShape(data, sjis, offset, n);
  }

  /** The numbers of a list read with an integer format (None if any item is not one). */
  function Words(items: seq<Datum>): (r: Option<seq<nat>>)
    ensures r.Some? ==> |r.value| == |items|
  {
    if items == [] then Some([])
    else if !items[0].Num? || items[0].value < 0 then None
    else match Words(items[1..])
      case None => None
      case Some(rest) => Some([items[0].value as nat] + rest)
  }

  class Fres {
    const data: seq<byte>
    const fileOrder: Order
    var cursor: int
    var header: FresHeader
    var name: nat
    var size: nat
    var version: (nat, nat)
    var byteOrder: Order
    var warnings: seq<Warning>
    var rlt: Option<Rlt>
    var strtab: Option<StringTable>
    var embeds: seq<Section>
    var models: seq<Section>

    function DataStart(): Option<nat>
      reads this, if rlt.Some? then {rlt.value} else {}
    {
      if rlt.Some? then Some(rlt.value.dataStart) else None
    }

    constructor (data: seq<byte>, fileOrder: Order, cursor: int, o: Opened)
      ensures this.data == data && this.fileOrder == fileOrder && this.cursor == cursor
      ensures header == o.header && byteOrder == o.byteOrder && warnings == o.warnings
      ensures name == o.header.Name() && size == o.header.FileSize() && version == o.header.Version()
      ensures rlt == None && strtab == None && embeds == [] && models == []
    {
      this.data := data;
      this.fileOrder := fileOrder;
      this.cursor := cursor;
      header := o.header;
      name := o.header.Name();
      size := o.header.FileSize();
      version := o.header.Version();
      byteOrder := o.byteOrder;
      warnings := o.warnings;
      rlt := None;
      strtab := None;
      embeds := [];
      models := [];
    }

    /** `FRES(file)`: reads the header at the file's position, warns about an
        unknown version and picks the byte order, or fails. */
    static method Open(data: seq<byte>, fileOrder: Order, start: int) returns (r: Result<Fres>)
      ensures r.Err? <==> OpenSpec(data, fileOrder, start).Err?
      ensures r.Err? ==> r.error == OpenSpec(data, fileOrder, start).error
      ensures r.Ok? ==> fresh(r.value)
      ensures r.Ok? ==> var o := OpenSpec(data, fileOrder, start).value;
        && r.value.data == data && r.value.fileOrder == fileOrder && r.value.cursor == start + FresHeaderSize
        && r.value.header == o.header && r.value.byteOrder == o.byteOrder && r.value.warnings == o.warnings
        && r.value.name == o.header.Name() && r.value.size == o.header.FileSize() && r.value.version == o.header.Version()
        && r.value.rlt == None && r.value.strtab == None && r.value.embeds == [] && r.value.models == []
    {
      var hr := DecodeFresHeader(data, fileOrder, start);
      if hr.Err? { return Err(hr.error); }
      var h := hr.value;
      var warnings: seq<Warning> := [];
      if h.Version() != (3, 5) {
        warnings := warnings + [UnknownVersion(h.Version().0, h.Version().1)];
      }
      var bo: Order;
      if h.ByteOrder() == 0xFFFE {
        bo := Little;
      } else if h.ByteOrder() == 0xFEFF {
        bo := Big;
      } else {
        return Err(InvalidByteOrder(h.ByteOrder()));
      }
      var f := new Fres(data, fileOrder, start + FresHeaderSize, Opened(h, bo, warnings));
      return Ok(f);
    }

    /** `read(size, pos, count, rel)`: the position from `EffectivePos`, then
        one value or, when `count != 1`, a list; the cursor ends after what
        was read. */
    method Read(fmt: Fmt, pos: Option<int>, count: nat, rel: bool) returns (r: Result<Datum>)
      modifies this`cursor
      ensures var p := EffectivePos(old(cursor), pos, rel, DataStart());
        && (p.Err? ==> r == Err(p.error) && cursor == old(cursor))
        && (p.Ok? ==> r == ReadDatum(data, fileOrder, fmt, p.value, count))
        && (p.Ok? && r.Ok? ==> cursor == p.value + FmtWidth(fmt) * count)
    {
      var p := if pos.None? then cursor else pos.value;
      if rel {
        if rlt.None? { return Err(NoAttribute("rlt")); }
        p := p + rlt.value.dataStart;
      }
      r := ReadDatum(data, fileOrder, fmt, p, count);
      if r.Ok? {
        cursor := p + FmtWidth(fmt) * count;
      }
    }

    /** `seek(pos)` from the start of the file. */
    method Seek(pos: int)
      modifies this`cursor
      ensures cursor == pos
    {
      cursor := pos;
    }

    method Tell() returns (pos: int)
      ensures pos == cursor
    {
      return cursor;
    }

    /** `readStr(offset, fmt, encoding)`, for an unsigned length format. */
    method ReadStr(offset: int, lenWidth: nat, lenOrder: Option<Order>,
                   encoding: Option<seq<byte> -> Option<string>>) returns (r: Result<Text>)
      modifies this`cursor
      ensures r == ReadStrSpec(data, fileOrder, offset, lenWidth, lenOrder, encoding)
    {
      var sr := Read(Int(lenWidth, false, lenOrder), Some(offset), 1, false);
      if sr.Err? { return Err(sr.error); }
      var size := sr.value.value;
      assert size >= 0;
      var dr := Read(Count(size), None, 1, false);
      if dr.Err? { return Err(dr.error); }
      var raw := dr.value.bytes;
      if encoding.None? { return Ok(Raw(raw)); }
      var s := encoding.value(raw);
      if s.None? { return Err(StringDecode(offset + lenWidth, Head16(raw))); }
      return Ok(Str(s.value));
    }

    /** `readHex(cnt, offset)`: the `cnt` bytes at `offset`, two uppercase
        digits each, joined by single spaces. */
    method ReadHex(cnt: nat, offset: int) returns (r: Result<string>)
      modifies this`cursor
      ensures var b := ReadBytes(data, offset, cnt);
        && (b.Err? ==> r == Err(b.error))
        && (b.Ok? ==> r == Ok(HexBytes(seq(cnt, i requires 0 <= i < cnt => b.value[i] as nat))))
    {
      var dr := Read(Count(cnt), Some(offset), 1, false);
      if dr.Err? { return Err(dr.error); }
      var bs := dr.value.bytes;
      return Ok(HexBytes(seq(cnt, i requires 0 <= i < cnt => bs[i] as nat)));
    }

    /** `readHexWords(cnt, offset)`: `cnt` u32 words as eight uppercase digits
        each; with `cnt == 1` the read yields a bare number, which cannot be
        iterated, so it fails. */
    method ReadHexWords(cnt: nat, offset: int) returns (r: Result<string>)
      modifies this`cursor
      ensures cnt == 1 && ReadUInt(data, fileOrder, offset, 4).Ok? ==> r == Err(NotIterable)
      ensures cnt != 1 ==> var items := ReadItems(data, fileOrder, Int(4, false, None), offset, cnt);
        && (items.Err? ==> r == Err(items.error))
        && (items.Ok? ==> && Words(items.value).Some?
                          && (forall k :: 0 <= k < |Words(items.value).value| ==> Words(items.value).value[k] < 0x1_0000_0000)
                          && r == Ok(HexWords(Words(items.value).value)))
    {
      var dr := Read(Int(4, false, None), Some(offset), cnt, false);
      if dr.Err? { return Err(dr.error); }
      if !dr.value.List? { return Err(NotIterable); }
      ReadWordsAreWords(data, fileOrder, offset, cnt);
      var ws := Words(dr.value.items);
      return Ok(HexWords(ws.value));
    }

    /** `_readObjects(typ, name, size)` for the kind whose header slot is
        `slot`: walks the array, one object per step, advancing the offset
        by `size`. */
    static method ReadObjects(data: seq<byte>, slot: Slot, objSize: nat, dict: (seq<byte>, int) -> Result<NameDict>,
                              read: (seq<byte>, string, int) -> Result<Section>) returns (r: Result<seq<Section>>)
      ensures r == ObjectsSpec(data, slot, objSize, dict, read)
    {
      var offs := slot.offset;
      var objs: seq<Section> := [];
      if slot.dictOffset == 0 { return Ok(objs); }
      var d := dict(data, slot.dictOffset);
      if d.Err? { return Err(d.error); }
      var objName := d.value.rootLeftName;
      var f := o => read(data, objName, o);
      ghost var total := Run(f, slot.offset, objSize, slot.count);
      RunStart(f, slot.offset, objSize, slot.count);
      for i := 0 to slot.count
        invariant total == Prefixed(objs, Run(f, offs, objSize, slot.count - i))
      {
        var obj := read(data, objName, offs);
        RunStep(f, total, objs, offs, objSize, slot.count - i, obj);
        if obj.Err? { return Err(obj.error); }
        objs := objs + [obj.value];
        offs := offs + objSize;
      }
      RunEnd(f, total, objs, offs, objSize);
      return Ok(objs);
    }

    /** `decode()`: the two tables, then the embedded files, then the models. */
    method Decode(rd: Readers) returns (r: Status)
      modifies this`rlt, this`strtab, this`embeds, this`models
      ensures r == StatusOf(DecodeSpec(data, fileOrder, header, rd))
      ensures r.Done? ==> var d := DecodeSpec(data, fileOrder, header, rd).value;
        && rlt.Some? && rlt.value.header == Some(d.rlt) && rlt.value.dataStart == d.rlt.DataStart()
        && strtab.Some? && strtab.value.header == Some(d.table.0) && strtab.value.strings == d.table.1
        && embeds == d.embeds && models == d.models
    {
      r := DecodeTables(rd.sjis);
      if r.Failed? { return; }
      var es := ReadObjects(data, header.SlotOf(Embed), rd.embedSize, rd.dict, rd.embed);
      if es.Err? { return Failed(es.error); }
      embeds := es.value;
      var ms := ReadObjects(data, header.SlotOf(Fmdl), rd.modelSize, rd.dict, rd.model);
      if ms.Err? { return Failed(ms.error); }
      models := ms.value;
      return Done;
    }

    /** The first two steps of `decode()`: the relocation table at the
        header's `rlt_offset`, then the string table 0x14 bytes before
        `str_tab_offset`, each kept only once read. */
    method DecodeTables(sjis: seq<byte> -> Option<string>) returns (r: Status)
      modifies this`rlt, this`strtab
      ensures r == StatusOf(TablesSpec(data, fileOrder, header, sjis))
      ensures r.Done? ==> var (th, tt) := TablesSpec(data, fileOrder, header, sjis).value;
        && rlt.Some? && rlt.value.header == Some(th) && rlt.value.dataStart == th.DataStart()
        && strtab.Some? && strtab.value.header == Some(tt.0) && strtab.value.strings == tt.1
    {
      var t := new Rlt();
      var st := t.ReadFromFres(data, fileOrder, header.RltOffset(), None);
      if st.Failed? { return st; }
      rlt := Some(t);
      var offs := header.StrTabOffset() - HeaderSize;
      var tab := new StringTable();
      st := tab.ReadFromFile(data, fileOrder, sjis, offs);
      if st.Failed? { return st; }
      MergeEmpty(ReadTable(data, fileOrder, sjis, offs).value.1);
      strtab := Some(tab);
      return Done;
    }
  }

  lemma MergeEmpty<K, V>(m: map<K, V>)
    ensures map[] + m == m
  {
  }

  /** A counted read with the `'I'` format yields unsigned 32-bit numbers only. */
  lemma {:induction false} ReadWordsAreWords(data: seq<byte>, order: Order, pos: int, cnt: nat)
    requires ReadItems(data, order, Int(4, false, None), pos, cnt).Ok?
    ensures Words(ReadItems(data, order, Int(4, false, None), pos, cnt).value).Some?
    ensures var ws := Words(ReadItems(data, order, Int(4, false, None), pos, cnt).value).value;
      |ws| == cnt && forall k :: 0 <= k < cnt ==> ws[k] < 0x1_0000_0000
    decreases cnt
  {
    ReadItemsAt(data, order, Int(4, false, None), pos, cnt);
    if cnt > 0 {
      ReadWordsAreWords(data, order, pos + 4, cnt - 1);
      var items := ReadItems(data, order, Int(4, false, None), pos, cnt).value;
      assert items[1..] == ReadItems(data, order, Int(4, false, None), pos + 4, cnt - 1).value;
      assert Pow256(4) == 0x1_0000_0000;
      var ws := Words(items).value;
      assert ws == [items[0].value as nat] + Words(items[1..]).value;
    }
  }
}
