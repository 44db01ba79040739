/** Positioned reads from the immutable byte buffer of a file, as the
    container's `read` performs them: raw byte counts, integers in a
    `struct`-style format (the file's default byte order unless the format
    names one), counted repetition, and 4x3 float matrices. */
module Reader {
  import opened Bytes
  import opened Results
  import opened Runs

  function ReadBytes(data: seq<byte>, pos: int, n: nat): Result<seq<byte>> {
    if 0 <= pos && pos + n <= |data| then Ok(data[pos..pos + n]) else Err(OutOfBounds(pos, n))
  }

  function ReadUInt(data: seq<byte>, order: Order, pos: int, width: nat): Result<nat> {
    var bs :- ReadBytes(data, pos, width);
    Ok(UInt(bs, order))
  }

  /** An unsigned number stored at `pos` in `order` reads back as itself. */
  lemma ReadUIntEncoded(data: seq<byte>, order: Order, pos: nat, width: nat, v: nat)
    requires pos + width <= |data| && v < Pow256(width)
    requires data[pos..pos + width] == Encode(v, width, order)
    ensures ReadUInt(data, order, pos, width) == Ok(v)
  {
    UIntEncode(v, width, order);
  }

  /** An optional position, `default` when absent (`offset=None` meaning
      the current file position). */
  function OrDefault(pos: Option<int>, default: int): (r: int)
    ensures pos.Some? ==> r == pos.value
    ensures pos.None? ==> r == default
  {
    if pos.Some? then pos.value else default
  }

  /** The unsigned field of `width` bytes at offset `at` of a header
      block; 0 where the block is too short (never the case for a block
      read at the header's full size). */
  function Field(block: seq<byte>, order: Order, at: nat, width: nat): nat {
    if at + width <= |block| then UInt(block[at..at + width], order) else 0
  }

  /** A header field is the number stored at its offset from the header's start. */
  lemma FieldAt(data: seq<byte>, order: Order, pos: int, size: nat, at: nat, width: nat)
    requires ReadBytes(data, pos, size).Ok? && at + width <= size
    ensures ReadUInt(data, order, pos + at, width) == Ok(Field(data[pos..pos + size], order, at, width))
  {
    var block := data[pos..pos + size];
    forall j | at <= j < at + width ensures block[j] == data[pos + j] { }
    assert block[at..at + width] == data[pos + at..pos + at + width];
  }

  /** A read format: a byte count (`read(n)`), or one integer in `struct`
      notation (`'H'`, `'<H'`, `'I'`, `'h'`): width, signedness and an
      optional explicit byte order (`'<'`/`'>'`). */
  datatype Fmt = Count(n: nat) | Int(width: nat, signed: bool, order: Option<Order>)

  /** What a read returns: raw bytes, a number, or, when `count != 1`, a list. */
  datatype Datum = Blob(bytes: seq<byte>) | Num(value: int) | List(items: seq<Datum>)

  function FmtWidth(f: Fmt): nat {
    match f
    case Count(n) => n
    case Int(w, _, _) => w
  }

  function ReadOne(data: seq<byte>, fileOrder: Order, f: Fmt, pos: int): Result<Datum> {
    match f
    case Count(n) =>
      var bs :- ReadBytes(data, pos, n);
      Ok(Blob(bs))
    case Int(w, signed, order) =>
      var u :- ReadUInt(data, if order.Some? then order.value else fileOrder, pos, w);
      Ok(Num(if signed then Signed(u, w) else u))
  }

  /** The reader `count` repeats: one value of format `f` at a position. */
  function ItemReader(data: seq<byte>, fileOrder: Order, f: Fmt): int -> Result<Datum> {
    p => ReadOne(data, fileOrder, f, p)
  }

  /** `count` consecutive values of format `f` from `pos`; the first failing
      read ends it. */
  function ReadItems(data: seq<byte>, fileOrder: Order, f: Fmt, pos: int, count: nat): Result<seq<Datum>> {
    Run(ItemReader(data, fileOrder, f), pos, FmtWidth(f), count)
  }

  /** `read(fmt, pos, count)`: one value when `count == 1`, otherwise a list
      of `count` consecutive values. */
  function ReadDatum(data: seq<byte>, fileOrder: Order, f: Fmt, pos: int, count: nat): Result<Datum> {
    if count == 1 then ReadOne(data, fileOrder, f, pos)
    else
      var items :- ReadItems(data, fileOrder, f, pos, count);
      Ok(List(items))
  }

  /** A counted read yields exactly `count` items, item `k` read at
      `pos + k*width`. */
  lemma ReadItemsAt(data: seq<byte>, fileOrder: Order, f: Fmt, pos: int, count: nat)
    requires ReadItems(data, fileOrder, f, pos, count).Ok?
    ensures var items := ReadItems(data, fileOrder, f, pos, count).value;
      |items| == count &&
      forall k :: 0 <= k < count ==> ReadOne(data, fileOrder, f, pos + k * FmtWidth(f)) == Ok(items[k])
  {
    RunAt(ItemReader(data, fileOrder, f), pos, FmtWidth(f), count);
  }

  /** A 32-bit float, kept as its IEEE 754 bit pattern. */
  datatype F32 = F32(bits: nat) {
    function Exponent(): nat { (bits / 0x80_0000) % 0x100 }
    function Mantissa(): nat { bits % 0x80_0000 }
    predicate IsNaN() { Exponent() == 0xFF && Mantissa() != 0 }
    predicate IsInf() { Exponent() == 0xFF && Mantissa() == 0 }
  }

  const Zero := F32(0)

  /** `read('3f', count=4, pos)`: four rows of three floats; row `y`,
      column `x` is the 32-bit word at `pos + 12*y + 4*x`. */
  function ReadMatrix(data: seq<byte>, order: Order, pos: int): (r: Result<seq<seq<F32>>>)
    ensures r.Ok? ==> |r.value| == 4 && forall y :: 0 <= y < 4 ==> |r.value[y]| == 3
  {
    var block :- ReadBytes(data, pos, 48);
    Ok(seq(4, y requires 0 <= y < 4 =>
      seq(3, x requires 0 <= x < 3 => F32(UInt(block[12 * y + 4 * x .. 12 * y + 4 * x + 4], order)))))
  }

  lemma ReadMatrixAt(data: seq<byte>, order: Order, pos: int, y: nat, x: nat)
    requires ReadMatrix(data, order, pos).Ok? && y < 4 && x < 3
    ensures ReadUInt(data, order, pos + 12 * y + 4 * x, 4) == Ok(ReadMatrix(data, order, pos).value[y][x].bits)
  {
    var block := data[pos..pos + 48];
    assert block[12 * y + 4 * x .. 12 * y + 4 * x + 4] == data[pos + 12 * y + 4 * x .. pos + 12 * y + 4 * x + 4];
  }
}
