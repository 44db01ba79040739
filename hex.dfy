/** Debug hex rendering (`'%02X'` per byte, `'%08X'` per word, joined by
    single spaces) and its inverse. */
module Hex {
  import opened Results

  function Pow16(n: nat): (r: nat)
    ensures r >= 1
  {
    if n == 0 then 1 else 16 * Pow16(n - 1)
  }

  /** An uppercase hex digit. */
  function Digit(d: nat): (c: char)
    requires d < 16
    ensures ('0' <= c <= '9') || ('A' <= c <= 'F')
  {
    if d < 10 then ('0' as int + d) as char else ('A' as int + d - 10) as char
  }

  function DigitValue(c: char): (r: Option<nat>)
    ensures r.Some? ==> r.value < 16
  {
    if '0' <= c <= '9' then Some(c as int - '0' as int)
    else if 'A' <= c <= 'F' then Some(c as int - 'A' as int + 10)
    else None
  }

  lemma DigitRoundTrip(d: nat)
    requires d < 16
    ensures DigitValue(Digit(d)) == Some(d)
  {
  }

  /** `'%0<width>X' % n` for an `n` that fits in `width` digits: `width`
      uppercase digits, most significant first. */
  function HexN(n: nat, width: nat): (s: string)
    requires n < Pow16(width)
    ensures |s| == width
  {
    if width == 0 then [] else HexN(n / 16, width - 1) + [Digit(n % 16)]
  }

  /** The value of a string of hex digits (None if any character is not one). */
  function ValueOf(s: string): Option<nat> {
    if s == [] then Some(0)
    else
      match (ValueOf(s[..|s| - 1]), DigitValue(s[|s| - 1]))
      case (Some(hi), Some(lo)) => Some(16 * hi + lo)
      case _ => None
  }

  lemma {:induction false} ValueOfHexN(n: nat, width: nat)
    requires n < Pow16(width)
    ensures ValueOf(HexN(n, width)) == Some(n)
  {
    if width > 0 {
      ValueOfHexN(n / 16, width - 1);
      var s := HexN(n, width);
      assert s[..|s| - 1] == HexN(n / 16, width - 1);
      DigitRoundTrip(n % 16);
    }
  }

  /** `' '.join(parts)` */
  function Join(parts: seq<string>): string {
    if |parts| == 0 then ""
    else if |parts| == 1 then parts[0]
    else parts[0] + " " + Join(parts[1..])
  }

  /** Joining `n > 0` parts of width `w` gives `n*(w+1) - 1` characters. */
  lemma {:induction false} JoinLength(parts: seq<string>, w: nat)
    requires |parts| > 0
    requires forall k :: 0 <= k < |parts| ==> |parts[k]| == w
    ensures |Join(parts)| == |parts| * (w + 1) - 1
  {
    if |parts| > 1 {
      JoinLength(parts[1..], w);
      assert |parts| * (w + 1) == (|parts| - 1) * (w + 1) + (w + 1);
    }
  }

  /** Splits a string of fields of width `w`, each after the first preceded
      by one separator, back into the fields' values. */
  function Unjoin(s: string, w: nat): seq<Option<nat>>
    decreases |s|
  {
    if |s| <= w then [ValueOf(s)] else [ValueOf(s[..w])] + Unjoin(s[w + 1..], w)
  }

  /** `Unjoin` inverts `Join` when every part has width `w`. */
  lemma {:induction false} UnjoinJoin(parts: seq<string>, w: nat)
    requires |parts| > 0
    requires forall k :: 0 <= k < |parts| ==> |parts[k]| == w
    ensures Unjoin(Join(parts), w) == seq(|parts|, k requires 0 <= k < |parts| => ValueOf(parts[k]))
  {
    if |parts| > 1 {
      var rest := parts[1..];
      UnjoinJoin(rest, w);
      var j := Join(parts);
      assert j == parts[0] + " " + Join(rest);
      assert j[..w] == parts[0];
      assert j[w + 1..] == Join(rest);
      assert Unjoin(j, w) == [ValueOf(parts[0])] + Unjoin(Join(rest), w);
      assert seq(|parts|, k requires 0 <= k < |parts| => ValueOf(parts[k]))
          == [ValueOf(parts[0])] + seq(|rest|, k requires 0 <= k < |rest| => ValueOf(rest[k]));
    }
  }

  /** `readHex`'s rendering of the bytes it read. */
  function HexBytes(bs: seq<nat>): (s: string)
    requires forall i :: 0 <= i < |bs| ==> bs[i] < 256
    ensures |bs| > 0 ==> |s| == 3 * |bs| - 1
    ensures |bs| == 0 ==> s == ""
  {
    assert Pow16(2) == 256;
    var parts := seq(|bs|, i requires 0 <= i < |bs| => HexN(bs[i], 2));
    if |bs| == 0 then "" else JoinLength(parts, 2); Join(parts)
  }

  /** `readHexWords`' rendering of the words it read. */
  function HexWords(ws: seq<nat>): (s: string)
    requires forall i :: 0 <= i < |ws| ==> ws[i] < 0x1_0000_0000
    ensures |ws| > 0 ==> |s| == 9 * |ws| - 1
    ensures |ws| == 0 ==> s == ""
  {
    assert Pow16(8) == 0x1_0000_0000;
    var parts := seq(|ws|, i requires 0 <= i < |ws| => HexN(ws[i], 8));
    if |ws| == 0 then "" else JoinLength(parts, 8); Join(parts)
  }

  lemma HexBytesCons(bs: seq<nat>)
    requires |bs| > 1 && forall i :: 0 <= i < |bs| ==> bs[i] < 256
    ensures HexBytes(bs) == HexN(bs[0], 2) + " " + HexBytes(bs[1..])
  {
    var parts := seq(|bs|, i requires 0 <= i < |bs| => HexN(bs[i], 2));
    assert parts[1..] == seq(|bs| - 1, i requires 0 <= i < |bs| - 1 => HexN(bs[1..][i], 2));
  }

  /** Byte `k` is rendered as the two digits at `3k`, followed by a space
      unless it is the last. */
  lemma {:induction false} HexBytesAt(bs: seq<nat>, k: nat)
    requires k < |bs| && forall i :: 0 <= i < |bs| ==> bs[i] < 256
    ensures |HexBytes(bs)| == 3 * |bs| - 1
    ensures HexBytes(bs)[3 * k..3 * k + 2] == HexN(bs[k], 2)
    ensures k < |bs| - 1 ==> HexBytes(bs)[3 * k + 2] == ' '
  {
    if |bs| > 1 {
      HexBytesCons(bs);
      if k > 0 {
        HexBytesAt(bs[1..], k - 1);
      }
    }
  }

  /** The rendering loses nothing: every byte value (and every 32-bit word)
      can be read back. */
  lemma HexBytesRoundTrip(bs: seq<nat>)
    requires |bs| > 0 && forall i :: 0 <= i < |bs| ==> bs[i] < 256
    ensures Unjoin(HexBytes(bs), 2) == seq(|bs|, i requires 0 <= i < |bs| => Some(bs[i]))
  {
    var parts := seq(|bs|, i requires 0 <= i < |bs| => HexN(bs[i], 2));
    UnjoinJoin(parts, 2);
    forall i | 0 <= i < |bs| ensures ValueOf(parts[i]) == Some(bs[i]) {
      ValueOfHexN(bs[i], 2);
    }
  }

  lemma HexWordsRoundTrip(ws: seq<nat>)
    requires |ws| > 0 && forall i :: 0 <= i < |ws| ==> ws[i] < 0x1_0000_0000
    ensures Unjoin(HexWords(ws), 8) == seq(|ws|, i requires 0 <= i < |ws| => Some(ws[i]))
  {
    var parts := seq(|ws|, i requires 0 <= i < |ws| => HexN(ws[i], 8));
    UnjoinJoin(parts, 8);
    forall i | 0 <= i < |ws| ensures ValueOf(parts[i]) == Some(ws[i]) {
      assert Pow16(8) == 0x1_0000_0000;
      ValueOfHexN(ws[i], 8);
    }
  }
}
