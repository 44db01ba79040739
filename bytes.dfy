/** Bytes, byte orders, and the fixed-width unsigned and two's-complement
    integers that the binary reader decodes. */
module Bytes {
  newtype byte = x: int | 0 <= x < 256

  datatype Order = Little | Big

  function Pow256(n: nat): (r: nat)
    ensures r >= 1
  {
    if n == 0 then 1 else 256 * Pow256(n - 1)
  }

  /** The unsigned value of `bs`, least significant byte first. */
  function LE(bs: seq<byte>): (r: nat)
    ensures r < Pow256(|bs|)
  {
    if bs == [] then 0 else bs[0] as nat + 256 * LE(bs[1..])
  }

  function Reverse(bs: seq<byte>): (r: seq<byte>)
    ensures |r| == |bs|
  {
    if bs == [] then [] else Reverse(bs[1..]) + [bs[0]]
  }

  /** Reversal puts byte `i` from the end at position `i`. */
  lemma {:induction false} ReverseAt(bs: seq<byte>)
    ensures forall i :: 0 <= i < |bs| ==> Reverse(bs)[i] == bs[|bs| - 1 - i]
  {
    if bs != [] {
      ReverseAt(bs[1..]);
    }
  }

  /** The unsigned value of `bs` in byte order `order`. */
  function UInt(bs: seq<byte>, order: Order): (r: nat)
    ensures r < Pow256(|bs|)
  {
    match order
    case Little => LE(bs)
    case Big => LE(Reverse(bs))
  }

  /** The two's-complement value of an unsigned `width`-byte number. */
  function Signed(n: nat, width: nat): int {
    if width > 0 && 2 * n >= Pow256(width) then n - Pow256(width) else n
  }

  /** `width` bytes holding `n` modulo 256^width, least significant first. */
  function EncodeLE(n: nat, width: nat): (bs: seq<byte>)
    ensures |bs| == width
  {
    if width == 0 then [] else [(n % 256) as byte] + EncodeLE(n / 256, width - 1)
  }

  function Encode(n: nat, width: nat, order: Order): (bs: seq<byte>)
    ensures |bs| == width
  {
    match order
    case Little => EncodeLE(n, width)
    case Big => Reverse(EncodeLE(n, width))
  }

  lemma {:induction false} ReverseReverse(bs: seq<byte>)
    ensures Reverse(Reverse(bs)) == bs
  {
    var r := Reverse(Reverse(bs));
    ReverseAt(bs);
    ReverseAt(Reverse(bs));
    assert |r| == |bs|;
    forall i | 0 <= i < |bs| ensures r[i] == bs[i] {
      assert r[i] == Reverse(bs)[|bs| - 1 - i];
    }
  }

  /** Reading back an encoded number gives the number, when it fits. */
  lemma {:induction false} LEEncodeLE(n: nat, width: nat)
    requires n < Pow256(width)
    ensures LE(EncodeLE(n, width)) == n
  {
    if width > 0 {
      LEEncodeLE(n / 256, width - 1);
      assert EncodeLE(n, width)[1..] == EncodeLE(n / 256, width - 1);
    }
  }

  /** Encoding a decoded byte string gives the byte string back. */
  lemma {:induction false} EncodeLELE(bs: seq<byte>)
    ensures EncodeLE(LE(bs), |bs|) == bs
  {
    if bs != [] {
      var n := LE(bs);
      assert n % 256 == bs[0] as nat && n / 256 == LE(bs[1..]);
      EncodeLELE(bs[1..]);
    }
  }

  lemma UIntEncode(n: nat, width: nat, order: Order)
    requires n < Pow256(width)
    ensures UInt(Encode(n, width, order), order) == n
  {
    LEEncodeLE(n, width);
    if order == Big { ReverseReverse(EncodeLE(n, width)); }
  }

  lemma EncodeUInt(bs: seq<byte>, order: Order)
    ensures Encode(UInt(bs, order), |bs|, order) == bs
  {
    match order
    case Little => EncodeLELE(bs);
    case Big => EncodeLELE(Reverse(bs)); ReverseReverse(bs);
  }

  /** Little and big endian read the same bytes in opposite directions. */
  lemma UIntOrders(bs: seq<byte>)
    ensures UInt(bs, Big) == UInt(Reverse(bs), Little)
    ensures UInt(bs, Little) == UInt(Reverse(bs), Big)
  {
    ReverseReverse(bs);
  }
}
