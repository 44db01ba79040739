/** The string table: a 0x14-byte `_STR` header followed by `num_strs`
    entries, each aligned to an even offset, made of a little-endian u16
    length, that many Shift-JIS bytes and a terminator byte. The table maps
    the offset of each entry's length prefix to its text. */
module StringTables {
  import opened Bytes
  import opened Results
  import opened Reader

  const HeaderSize: nat := 0x14
  const Magic: seq<byte> := [0x5F, 0x53, 0x54, 0x52]  // "_STR"

  /** magic at 0, size (u32) at 8, num_strs (u32) at 0x10; 4 and 0xC are padding. */
  datatype Header = Header(magic: seq<byte>, size: nat, numStrs: nat)

  function DecodeHeader(data: seq<byte>, order: Order, pos: int): (r: Result<Header>)
    ensures r.Ok? ==> 0 <= pos && pos + HeaderSize <= |data| && r.value.magic == Magic
    ensures r.Ok? ==> Ok(r.value.numStrs) == ReadUInt(data, order, pos + 0x10, 4)
  {
    var block :- ReadBytes(data, pos, HeaderSize);
    if block[..4] != Magic then Err(BadMagic(Magic, block[..4]))
    else
      assert block[0x10..0x14] == data[pos + 0x10..pos + 0x14];
      Ok(Header(block[..4], UInt(block[8..12], order), UInt(block[0x10..0x14], order)))
  }

  /** `offset += (offset & 1)`: the next even offset, at most one byte on. */
  function Pad(offset: int): (r: int)
    ensures r % 2 == 0 && offset <= r <= offset + 1
  {
    offset + offset % 2
  }

  datatype Entry = Entry(offset: int, length: nat, text: string)

  function Head16(bs: seq<byte>): seq<byte> { if |bs| <= 16 then bs else bs[..16] }

  /** One entry searched for from `offset`. */
  function ReadEntry(data: seq<byte>, sjis: seq<byte> -> Option<string>, offset: int): (r: Result<Entry>)
    ensures r.Ok? ==> && r.value.offset == Pad(offset)
                      && ReadUInt(data, Little, Pad(offset), 2) == Ok(r.value.length)
                      && ReadBytes(data, Pad(offset) + 2, r.value.length).Ok?
                      && sjis(ReadBytes(data, Pad(offset) + 2, r.value.length).value) == Some(r.value.text)
    ensures ReadUInt(data, Little, Pad(offset), 2).Err? ==> r == Err(ReadUInt(data, Little, Pad(offset), 2).error)
  {
    var p := Pad(offset);
    var length :- ReadUInt(data, Little, p, 2);
    var raw :- ReadBytes(data, p + 2, length);
    match sjis(raw)
    case None => Err(StringDecode(p, Head16(raw)))
    case Some(text) => Ok(Entry(p, length, text))
  }

  /** Where the search for the following entry starts: 2 bytes of prefix,
      the text and 1 terminator byte past this entry's offset. */
  function Next(e: Entry): int { e.offset + e.length + 3 }

  /** `n` entries read one after another by `step`, each next one searched
      for from where the previous one ended. */
  function Chain(step: int -> Result<Entry>, offset: int, n: nat): Result<seq<Entry>>
    decreases n
  {
    if n == 0 then Ok([])
    else
      match step(offset)
      case Err(err) => Err(err)
      case Ok(e) => Prefixed([e], Chain(step, Next(e), n - 1))
  }

  function ReadEntries(data: seq<byte>, sjis: seq<byte> -> Option<string>, offset: int, n: nat): Result<seq<Entry>> {
    Chain(o => ReadEntry(data, sjis, o), offset, n)
  }

  /** The dict the entries fill, in order (a later key would overwrite). */
  function StringsOf(es: seq<Entry>): map<int, string> {
    if es == [] then map[] else StringsOf(es[..|es| - 1])[es[|es| - 1].offset := es[|es| - 1].text]
  }

  /** The whole table read at `offset` (the offset of its header). */
  function ReadTable(data: seq<byte>, order: Order, sjis: seq<byte> -> Option<string>, offset: int)
    : (r: Result<(Header, map<int, string>)>)
    ensures DecodeHeader(data, order, offset).Err? ==> r == Err(DecodeHeader(data, order, offset).error)
    ensures r.Ok? ==> && DecodeHeader(data, order, offset) == Ok(r.value.0)
                      && ReadEntries(data, sjis, offset + HeaderSize, r.value.0.numStrs).Ok?
  {
    var h :- DecodeHeader(data, order, offset);
    var es :- ReadEntries(data, sjis, offset + HeaderSize, h.numStrs);
    Ok((h, StringsOf(es)))
  }

  /** Where the search for entry `i` of `es` started. */
  function Origin(es: seq<Entry>, offset: int, i: nat): int
    requires i <= |es|
  {
    if i == 0 then offset else Next(es[i - 1])
  }

  /** A chain that succeeds holds exactly `n` entries, entry `i` being what
      `step` reads from where entry `i - 1` ended. */
  lemma {:induction false} ChainShape(step: int -> Result<Entry>, offset: int, n: nat)
    requires Chain(step, offset, n).Ok?
    ensures |Chain(step, offset, n).value| == n
    ensures var es := Chain(step, offset, n).value;
      forall i :: 0 <= i < n ==> step(Origin(es, offset, i)) == Ok(es[i])
    decreases n
  {
    if n > 0 {
      var e := step(offset).value;
      ChainShape(step, Next(e), n - 1);
      var rest := Chain(step, Next(e), n - 1).value;
      var es := Chain(step, offset, n).value;
      assert es == [e] + rest;
      forall i | 0 < i < n ensures step(Origin(es, offset, i)) == Ok(es[i]) {
        assert Origin(es, offset, i) == Origin(rest, Next(e), i - 1);
      }
    }
  }

  /** Where the search for the entry after `es` starts (`offset` itself when
      nothing was read yet). */
  function After(es: seq<Entry>, offset: int): int {
    if es == [] then offset else Next(es[|es| - 1])
  }

  /** Reading `a + b` entries is reading `a`, then `b` more from where the
      first `a` left off; in particular a failing entry anywhere makes the
      whole read fail with that entry's error. */
  lemma {:induction false} ChainSplit(step: int -> Result<Entry>, offset: int, a: nat, b: nat)
    ensures Chain(step, offset, a + b) ==
      match Chain(step, offset, a)
      case Err(e) => Err(e)
      case Ok(es) => Prefixed(es, Chain(step, After(es, offset), b))
    decreases a
  {
    if a == 0 {
      PrefixedNil(Chain(step, offset, b));
    } else {
      var r := step(offset);
      if r.Ok? {
        var e := r.value;
        ChainSplit(step, Next(e), a - 1, b);
        var first := Chain(step, Next(e), a - 1);
        if first.Ok? {
          var es := [e] + first.value;
          assert After(es, offset) == After(first.value, Next(e));
          PrefixedPrefixed([e], first.value, Chain(step, After(es, offset), b));
        }
      }
    }
  }

  /** Entry `e` is where the file says: at an even offset, with its u16
      length there and its text the decoding of the `length` bytes after
      that prefix. */
  predicate Fits(data: seq<byte>, sjis: seq<byte> -> Option<string>, e: Entry) {
    && e.offset % 2 == 0
    && ReadUInt(data, Little, e.offset, 2) == Ok(e.length)
    && 0 <= e.offset && e.offset + 2 + e.length <= |data|
    && sjis(data[e.offset + 2..e.offset + 2 + e.length]) == Some(e.text)
  }

  /** One entry read from `offset` sits at the padded offset and fits. */
  lemma EntryShape(data: seq<byte>, sjis: seq<byte> -> Option<string>, offset: int)
    requires ReadEntry(data, sjis, offset).Ok?
    ensures var e := ReadEntry(data, sjis, offset).value;
      e.offset == Pad(offset) && e.offset >= offset && Fits(data, sjis, e)
  {
  }

  /** Entry `i` of a successful read was looked for where entry `i - 1`
      ended (at `offset` for the first), and fits. */
  lemma EntryAt(data: seq<byte>, sjis: seq<byte> -> Option<string>, offset: int, n: nat, i: nat)
    requires ReadEntries(data, sjis, offset, n).Ok? && i < n
    ensures var es := ReadEntries(data, sjis, offset, n).value;
      && |es| == n
      && es[i].offset == Pad(if i == 0 then offset else Next(es[i - 1]))
      && Fits(data, sjis, es[i])
  {
    var step := o => ReadEntry(data, sjis, o);
    ChainShape(step, offset, n);
    var es := ReadEntries(data, sjis, offset, n).value;
    var o := Origin(es, offset, i);
    assert step(o) == Ok(es[i]);
    EntryShape(data, sjis, o);
  }

  /** What every successfully read entry list looks like: `n` entries, the
      first looked for at `offset`, each next one from `offset + length + 3`
      of the previous, each at its padded even offset with its u16 length
      and its decoded text. */
  lemma EntriesShape(data: seq<byte>, sjis: seq<byte> -> Option<string>, offset: int, n: nat)
    requires ReadEntries(data, sjis, offset, n).Ok?
    ensures var es := ReadEntries(data, sjis, offset, n).value;
      && |es| == n
      && (n > 0 ==> es[0].offset == Pad(offset))
      && (forall i :: 0 <= i < n - 1 ==> es[i + 1].offset == Pad(Next(es[i])))
      && (forall i :: 0 <= i < n ==> Fits(data, sjis, es[i]))
  {
    var es := ReadEntries(data, sjis, offset, n).value;
    if n > 0 { EntryAt(data, sjis, offset, n, 0); }
    forall i | 0 <= i < n - 1 ensures es[i + 1].offset == Pad(Next(es[i])) {
      EntryAt(data, sjis, offset, n, i + 1);
    }
    forall i | 0 <= i < n ensures Fits(data, sjis, es[i]) {
      EntryAt(data, sjis, offset, n, i);
    }
  }

  /** Offsets that grow from each entry to the next grow along the whole list. */
  lemma {:induction false} Increasing(es: seq<Entry>)
    requires forall i :: 0 <= i < |es| - 1 ==> es[i].offset < es[i + 1].offset
    ensures forall i, j :: 0 <= i < j < |es| ==> es[i].offset < es[j].offset
  {
    if |es| > 1 {
      Increasing(es[1..]);
      forall i, j | 0 <= i < j < |es| ensures es[i].offset < es[j].offset {
        if i > 0 {
          assert es[i].offset == es[1..][i - 1].offset && es[j].offset == es[1..][j - 1].offset;
        } else if j > 1 {
          assert es[1].offset < es[1..][j - 1].offset;
        }
      }
    }
  }

  /** Entry offsets strictly increase, so no two entries share a key. */
  lemma EntriesIncrease(data: seq<byte>, sjis: seq<byte> -> Option<string>, offset: int, n: nat)
    requires ReadEntries(data, sjis, offset, n).Ok?
    ensures var es := ReadEntries(data, sjis, offset, n).value;
      forall i, j :: 0 <= i < j < |es| ==> es[i].offset < es[j].offset
  {
    EntriesShape(data, sjis, offset, n);
    Increasing(ReadEntries(data, sjis, offset, n).value);
  }

  /** Reading `n + 1` entries is reading one, then `n` from where it ended. */
  lemma EntriesStep(data: seq<byte>, sjis: seq<byte> -> Option<string>, offset: int, n: nat)
    ensures ReadEntries(data, sjis, offset, n + 1) ==
      match ReadEntry(data, sjis, offset)
      case Err(err) => Err(err)
      case Ok(e) => Prefixed([e], ReadEntries(data, sjis, Next(e), n))
  {
  }

  /** Reading `a + b` entries of the table is reading `a`, then `b` more. */
  lemma EntriesSplit(data: seq<byte>, sjis: seq<byte> -> Option<string>, offset: int, a: nat, b: nat)
    ensures ReadEntries(data, sjis, offset, a + b) ==
      match ReadEntries(data, sjis, offset, a)
      case Err(e) => Err(e)
      case Ok(es) => Prefixed(es, ReadEntries(data, sjis, After(es, offset), b))
  {
    ChainSplit(o => ReadEntry(data, sjis, o), offset, a, b);
  }

  /** A table read at `offset` keeps exactly one string per entry, each
      under the even offset of its length prefix; its first entry is looked
      for right after the 0x14-byte header. */
  lemma TableContents(data: seq<byte>, order: Order, sjis: seq<byte> -> Option<string>, offset: int)
    requires ReadTable(data, order, sjis, offset).Ok?
    ensures var (h, strings) := ReadTable(data, order, sjis, offset).value;
      var es := ReadEntries(data, sjis, offset + 0x14, h.numStrs).value;
      && h.magic == Magic
      && |strings| == h.numStrs
      && (h.numStrs > 0 ==> es[0].offset == Pad(offset + 0x14))
      && (forall i :: 0 <= i < |es| ==> es[i].offset in strings && strings[es[i].offset] == es[i].text)
      && (forall k :: k in strings ==> k % 2 == 0)
  {
    var h := DecodeHeader(data, order, offset).value;
    var es := ReadEntries(data, sjis, offset + HeaderSize, h.numStrs).value;
    EntriesShape(data, sjis, offset + HeaderSize, h.numStrs);
    EntriesIncrease(data, sjis, offset + HeaderSize, h.numStrs);
    StringsOfDistinct(es);
    StringsOfKeys(es);
  }

  /** Every key of the dict is the offset of some entry. */
  lemma {:induction false} StringsOfKeys(es: seq<Entry>)
    ensures forall k :: k in StringsOf(es) ==> exists i :: 0 <= i < |es| && es[i].offset == k
  {
    if es != [] {
      var init := es[..|es| - 1];
      StringsOfKeys(init);
      assert StringsOf(es) == StringsOf(init)[es[|es| - 1].offset := es[|es| - 1].text];
      forall k | k in StringsOf(es) ensures exists i :: 0 <= i < |es| && es[i].offset == k {
        if k != es[|es| - 1].offset {
          assert k in StringsOf(init);
          var i :| 0 <= i < |init| && init[i].offset == k;
          assert es[i].offset == k;
        }
      }
    }
  }

  /** With distinct offsets, each entry keeps its own key and text. */
  lemma {:induction false} StringsOfDistinct(es: seq<Entry>)
    requires forall i, j :: 0 <= i < j < |es| ==> es[i].offset < es[j].offset
    ensures |StringsOf(es)| == |es|
    ensures forall i :: 0 <= i < |es| ==> es[i].offset in StringsOf(es) && StringsOf(es)[es[i].offset] == es[i].text
  {
    if es != [] {
      var init := es[..|es| - 1];
      var last := es[|es| - 1];
      StringsOfDistinct(init);
      StringsOfKeys(init);
      forall i | 0 <= i < |init| ensures init[i].offset != last.offset {
        assert es[i].offset < last.offset;
      }
      assert last.offset !in StringsOf(init);
      forall i | 0 <= i < |es| - 1
        ensures es[i].offset in StringsOf(es) && StringsOf(es)[es[i].offset] == es[i].text
      {
        assert init[i] == es[i];
        assert es[i].offset < last.offset;
      }
    }
  }

  /** The loop of `readFromFile` after `done` entries, `k` more to go from
      `off`: a successful entry moves it one on. */
  lemma Advance(data: seq<byte>, sjis: seq<byte> -> Option<string>, start: int, n: nat,
                done: seq<Entry>, off: int, k: nat, e: Entry)
    requires k > 0
    requires ReadEntries(data, sjis, start, n) == Prefixed(done, ReadEntries(data, sjis, off, k))
    requires ReadEntry(data, sjis, off) == Ok(e)
    ensures ReadEntries(data, sjis, start, n) == Prefixed(done + [e], ReadEntries(data, sjis, Next(e), k - 1))
  {
    EntriesStep(data, sjis, off, k - 1);
    PrefixedPrefixed(done, [e], ReadEntries(data, sjis, Next(e), k - 1));
  }

  /** ... and a failing entry fails the whole table with its error. */
  lemma Abort(data: seq<byte>, sjis: seq<byte> -> Option<string>, start: int, n: nat,
              done: seq<Entry>, off: int, k: nat)
    requires k > 0
    requires ReadEntries(data, sjis, start, n) == Prefixed(done, ReadEntries(data, sjis, off, k))
    requires ReadEntry(data, sjis, off).Err?
    ensures ReadEntries(data, sjis, start, n) == Err(ReadEntry(data, sjis, off).error)
  {
    EntriesStep(data, sjis, off, k - 1);
  }

  /** One step of the loop, whichever way the entry read went. */
  lemma Step(data: seq<byte>, sjis: seq<byte> -> Option<string>, start: int, n: nat,
             done: seq<Entry>, off: int, k: nat, er: Result<Entry>)
    requires k > 0
    requires ReadEntries(data, sjis, start, n) == Prefixed(done, ReadEntries(data, sjis, off, k))
    requires ReadEntry(data, sjis, off) == er
    ensures er.Err? ==> ReadEntries(data, sjis, start, n) == Err(er.error)
    ensures er.Ok? ==> ReadEntries(data, sjis, start, n) == Prefixed(done + [er.value], ReadEntries(data, sjis, Next(er.value), k - 1))
  {
    if er.Ok? {
      Advance(data, sjis, start, n, done, off, k, er.value);
    } else {
      Abort(data, sjis, start, n, done, off, k);
    }
  }

  lemma Finish(data: seq<byte>, sjis: seq<byte> -> Option<string>, total: Result<seq<Entry>>, done: seq<Entry>, off: int)
    requires total == Prefixed(done, ReadEntries(data, sjis, off, 0))
    ensures total == Ok(done)
  {
    assert done + [] == done;
  }

  /** Storing one more entry into a dict that already holds `done`. */
  lemma StoreStep(m0: map<int, string>, done: seq<Entry>, e: Entry)
    ensures (m0 + StringsOf(done))[e.offset := e.text] == m0 + StringsOf(done + [e])
  {
    assert (done + [e])[..|done|] == done;
    assert StringsOf(done + [e]) == StringsOf(done)[e.offset := e.text];
  }

  /** The table read from a file's bytes; `strings` holds the entries read. */
  class StringTable {
    var header: Option<Header>
    var strings: map<int, string>

    constructor ()
      ensures header == None && strings == map[]
    {
      header := None;
      strings := map[];
    }

    /** One pass of the loop in `readFromFile` up to the store: pad to an
        even offset, read the u16 length and the text bytes, decode them. */
    static method ReadNextEntry(data: seq<byte>, sjis: seq<byte> -> Option<string>, offset: int)
      returns (r: Result<Entry>)
      ensures r == ReadEntry(data, sjis, offset)
    {
      var p := offset + offset % 2;
      var len := ReadUInt(data, Little, p, 2);
      if len.Err? { return Err(len.error); }
      var raw := ReadBytes(data, p + 2, len.value);
      if raw.Err? { return Err(raw.error); }
      var text := sjis(raw.value);
      if text.None? { return Err(StringDecode(p, Head16(raw.value))); }
      return Ok(Entry(p, len.value, text.value));
    }

    method ReadFromFile(data: seq<byte>, order: Order, sjis: seq<byte> -> Option<string>, offset: int)
      returns (r: Status)
      modifies this
      ensures r == StatusOf(ReadTable(data, order, sjis, offset))
      ensures r.Done? ==> header == Some(ReadTable(data, order, sjis, offset).value.0)
      ensures r.Done? ==> strings == old(strings) + ReadTable(data, order, sjis, offset).value.1
    {
      var hr := DecodeHeader(data, order, offset);
      if hr.Err? { return Failed(hr.error); }
      var h := hr.value;
      header := Some(h);
      r := ReadStrings(data, sjis, offset + HeaderSize, h.numStrs);
    }

    /** The loop of `readFromFile`: `n` entries from `start`, each stored
        under its offset as soon as it is decoded. */
    method ReadStrings(data: seq<byte>, sjis: seq<byte> -> Option<string>, start: int, n: nat)
      returns (r: Status)
      modifies this`strings
      ensures r == StatusOf(ReadEntries(data, sjis, start, n))
      ensures r.Done? ==> strings == old(strings) + StringsOf(ReadEntries(data, sjis, start, n).value)
    {
      var off := start;
      ghost var s0 := strings;
      ghost var total := ReadEntries(data, sjis, start, n);
      ghost var done: seq<Entry> := [];
      PrefixedNil(total);
      for i := 0 to n
        invariant total == Prefixed(done, ReadEntries(data, sjis, off, n - i))
        invariant strings == s0 + StringsOf(done)
      {
        var er := ReadNextEntry(data, sjis, off);
        Step(data, sjis, start, n, done, off, n - i, er);
        if er.Err? { return Failed(er.error); }
        var e := er.value;
        StoreStep(s0, done, e);
        strings := strings[e.offset := e.text];
        done := done + [e];
        off := Next(e);
      }
      Finish(data, sjis, total, done, off);
      return Done;
    }
  }
}
