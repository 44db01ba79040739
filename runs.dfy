/** The pattern every section reader repeats: `count` records read one
    after another at `base`, `base + stride`, `base + 2*stride`, ...; the
    first failing read ends the run with its error. */
module Runs {
  import opened Results

  function Run<T>(read: int -> Result<T>, base: int, stride: nat, count: nat): Result<seq<T>>
    decreases count
  {
    if count == 0 then Ok([])
    else
      match read(base)
      case Err(e) => Err(e)
      case Ok(x) => Prefixed([x], Run(read, base + stride, stride, count - 1))
  }

  /** A successful run holds exactly `count` records, record `i` read at
      `base + i*stride`. */
  lemma {:induction false} RunAt<T>(read: int -> Result<T>, base: int, stride: nat, count: nat)
    requires Run(read, base, stride, count).Ok?
    ensures |Run(read, base, stride, count).value| == count
    ensures forall i :: 0 <= i < count ==> read(base + i * stride) == Ok(Run(read, base, stride, count).value[i])
    decreases count
  {
    if count > 0 {
      RunAt(read, base + stride, stride, count - 1);
      var xs := Run(read, base, stride, count).value;
      var rest := Run(read, base + stride, stride, count - 1).value;
      assert xs == [read(base).value] + rest;
      forall i | 1 <= i < count ensures read(base + i * stride) == Ok(xs[i]) {
        assert base + stride + (i - 1) * stride == base + i * stride;
      }
    }
  }

  /** ... and conversely, reads that all succeed make a successful run. */
  lemma {:induction false} RunOk<T>(read: int -> Result<T>, base: int, stride: nat, count: nat)
    requires forall i :: 0 <= i < count ==> read(base + i * stride).Ok?
    ensures Run(read, base, stride, count).Ok?
    decreases count
  {
    if count > 0 {
      assert read(base + 0 * stride).Ok?;
      forall i | 0 <= i < count - 1 ensures read(base + stride + i * stride).Ok? {
        assert base + stride + i * stride == base + (i + 1) * stride;
      }
      RunOk(read, base + stride, stride, count - 1);
    }
  }

  /** A run fails with the error of its first failing read. */
  lemma {:induction false} RunFails<T>(read: int -> Result<T>, base: int, stride: nat, count: nat, j: nat)
    requires j < count && read(base + j * stride).Err?
    requires forall i :: 0 <= i < j ==> read(base + i * stride).Ok?
    ensures Run(read, base, stride, count) == Err(read(base + j * stride).error)
    decreases count
  {
    if j > 0 {
      assert read(base + 0 * stride).Ok?;
      forall i | 0 <= i < j - 1 ensures read(base + stride + i * stride).Ok? {
        assert base + stride + i * stride == base + (i + 1) * stride;
      }
      assert base + stride + (j - 1) * stride == base + j * stride;
      RunFails(read, base + stride, stride, count - 1, j - 1);
    }
  }

  /** One step of a loop that walks a run: `done` read so far, `k` to go
      from `at`; a successful read moves the loop on by one record. */
  lemma RunAdvance<T>(read: int -> Result<T>, total: Result<seq<T>>, done: seq<T>, at: int, stride: nat, k: nat, x: T)
    requires k > 0 && total == Prefixed(done, Run(read, at, stride, k)) && read(at) == Ok(x)
    ensures total == Prefixed(done + [x], Run(read, at + stride, stride, k - 1))
  {
    PrefixedPrefixed(done, [x], Run(read, at + stride, stride, k - 1));
  }

  /** ... and a failing read fails the whole run with its error. */
  lemma RunAbort<T>(read: int -> Result<T>, total: Result<seq<T>>, done: seq<T>, at: int, stride: nat, k: nat)
    requires k > 0 && total == Prefixed(done, Run(read, at, stride, k)) && read(at).Err?
    ensures total == Err(read(at).error)
  {
  }

  /** One step of the loop, whichever way the read went. */
  lemma RunStep<T>(read: int -> Result<T>, total: Result<seq<T>>, done: seq<T>, at: int, stride: nat, k: nat, r: Result<T>)
    requires k > 0 && total == Prefixed(done, Run(read, at, stride, k)) && read(at) == r
    ensures r.Err? ==> total == Err(r.error)
    ensures r.Ok? ==> total == Prefixed(done + [r.value], Run(read, at + stride, stride, k - 1))
  {
    if r.Ok? {
      RunAdvance(read, total, done, at, stride, k, r.value);
    }
  }

  /** The state before the first step and after the last. */
  lemma RunStart<T>(read: int -> Result<T>, base: int, stride: nat, count: nat)
    ensures Run(read, base, stride, count) == Prefixed([], Run(read, base, stride, count))
  {
    PrefixedNil(Run(read, base, stride, count));
  }

  lemma RunEnd<T>(read: int -> Result<T>, total: Result<seq<T>>, done: seq<T>, at: int, stride: nat)
    requires total == Prefixed(done, Run(read, at, stride, 0))
    ensures total == Ok(done)
  {
    assert done + [] == done;
  }

  /** `f` applied to every element of `xs` in order; the first failure
      ends it with its error. */
  function Each<A, T>(f: A -> Result<T>, xs: seq<A>): Result<seq<T>>
    decreases |xs|
  {
    if xs == [] then Ok([])
    else
      match f(xs[0])
      case Err(e) => Err(e)
      case Ok(y) => Prefixed([y], Each(f, xs[1..]))
  }

  /** A successful pass holds one result per element, in order. */
  lemma {:induction false} EachAt<A, T>(f: A -> Result<T>, xs: seq<A>)
    requires Each(f, xs).Ok?
    ensures |Each(f, xs).value| == |xs|
    ensures forall i :: 0 <= i < |xs| ==> f(xs[i]) == Ok(Each(f, xs).value[i])
    decreases |xs|
  {
    if xs != [] {
      EachAt(f, xs[1..]);
      var ys := Each(f, xs).value;
      assert ys == [f(xs[0]).value] + Each(f, xs[1..]).value;
      forall i | 1 <= i < |xs| ensures f(xs[i]) == Ok(ys[i]) {
        assert xs[1..][i - 1] == xs[i];
      }
    }
  }

  /** A pass fails exactly when some element fails, with the error of the
      first one that does. */
  lemma {:induction false} EachFails<A, T>(f: A -> Result<T>, xs: seq<A>, j: nat)
    requires j < |xs| && f(xs[j]).Err?
    requires forall i :: 0 <= i < j ==> f(xs[i]).Ok?
    ensures Each(f, xs) == Err(f(xs[j]).error)
    decreases |xs|
  {
    if j > 0 {
      forall i | 0 <= i < j - 1 ensures f(xs[1..][i]).Ok? {
        assert xs[1..][i] == xs[i + 1];
      }
      assert xs[1..][j - 1] == xs[j];
      EachFails(f, xs[1..], j - 1);
    }
  }

  /** One step of a loop over `xs`: `done` computed for `xs[..k]`. */
  lemma EachAdvance<A, T>(f: A -> Result<T>, total: Result<seq<T>>, done: seq<T>, xs: seq<A>, k: nat, y: T)
    requires k < |xs| && total == Prefixed(done, Each(f, xs[k..])) && f(xs[k]) == Ok(y)
    ensures total == Prefixed(done + [y], Each(f, xs[k + 1..]))
  {
    assert xs[k..][1..] == xs[k + 1..];
    PrefixedPrefixed(done, [y], Each(f, xs[k + 1..]));
  }

  lemma EachAbort<A, T>(f: A -> Result<T>, total: Result<seq<T>>, done: seq<T>, xs: seq<A>, k: nat)
    requires k < |xs| && total == Prefixed(done, Each(f, xs[k..])) && f(xs[k]).Err?
    ensures total == Err(f(xs[k]).error)
  {
  }

  lemma EachStart<A, T>(f: A -> Result<T>, xs: seq<A>)
    ensures Each(f, xs) == Prefixed([], Each(f, xs[0..]))
  {
    assert xs[0..] == xs;
    PrefixedNil(Each(f, xs));
  }

  lemma EachEnd<A, T>(f: A -> Result<T>, total: Result<seq<T>>, done: seq<T>, xs: seq<A>)
    requires total == Prefixed(done, Each(f, xs[|xs|..]))
    ensures total == Ok(done)
  {
    assert xs[|xs|..] == [];
    assert done + [] == done;
  }

  /** Records of varying size laid end to end: record `i` is read by
      `step(i, at)` where `at` is where the previous one ended, and the
      next starts `size` of it further on. */
  function Walk<T>(step: (int, int) -> Result<T>, size: T -> nat, i: int, at: int, n: nat): Result<seq<T>>
    decreases n
  {
    if n == 0 then Ok([])
    else
      match step(i, at)
      case Err(e) => Err(e)
      case Ok(x) => Prefixed([x], Walk(step, size, i + 1, at + size(x), n - 1))
  }

  /** The sum of `size` over `xs`. */
  function SizeSum<T>(size: T -> nat, xs: seq<T>): nat {
    if xs == [] then 0 else SizeSum(size, xs[..|xs| - 1]) + size(xs[|xs| - 1])
  }

  lemma {:induction false} SizeSumCons<T>(size: T -> nat, x: T, xs: seq<T>)
    ensures SizeSum(size, [x] + xs) == size(x) + SizeSum(size, xs)
    decreases |xs|
  {
    if xs != [] {
      assert ([x] + xs)[..|xs|] == [x] + xs[..|xs| - 1];
      SizeSumCons(size, x, xs[..|xs| - 1]);
    }
  }

  lemma {:induction false} WalkLength<T>(step: (int, int) -> Result<T>, size: T -> nat, i: int, at: int, n: nat)
    requires Walk(step, size, i, at, n).Ok?
    ensures |Walk(step, size, i, at, n).value| == n
    decreases n
  {
    if n > 0 {
      WalkLength(step, size, i + 1, at + size(step(i, at).value), n - 1);
    }
  }

  /** Record `k` of a successful walk is read as number `i + k`, at `at`
      plus the sizes of the records before it. */
  lemma {:induction false} WalkRecord<T>(step: (int, int) -> Result<T>, size: T -> nat, i: int, at: int, n: nat, k: nat)
    requires Walk(step, size, i, at, n).Ok? && k < n
    ensures var xs := Walk(step, size, i, at, n).value;
      k < |xs| && step(i + k, at + SizeSum(size, xs[..k])) == Ok(xs[k])
    decreases n
  {
    WalkLength(step, size, i, at, n);
    var x := step(i, at).value;
    var xs := Walk(step, size, i, at, n).value;
    var rest := Walk(step, size, i + 1, at + size(x), n - 1).value;
    assert xs == [x] + rest;
    if k == 0 {
      assert xs[..0] == [];
    } else {
      WalkLength(step, size, i + 1, at + size(x), n - 1);
      WalkRecord(step, size, i + 1, at + size(x), n - 1, k - 1);
      assert xs[..k] == [x] + rest[..k - 1];
      SizeSumCons(size, x, rest[..k - 1]);
    }
  }

  /** A successful walk holds exactly `n` records, record `k` read as
      number `i + k` where the ones before it end. */
  lemma WalkAt<T>(step: (int, int) -> Result<T>, size: T -> nat, i: int, at: int, n: nat)
    requires Walk(step, size, i, at, n).Ok?
    ensures var xs := Walk(step, size, i, at, n).value;
      |xs| == n && forall k :: 0 <= k < n ==> step(i + k, at + SizeSum(size, xs[..k])) == Ok(xs[k])
  {
    WalkLength(step, size, i, at, n);
    forall k | 0 <= k < n
      ensures step(i + k, at + SizeSum(size, Walk(step, size, i, at, n).value[..k])) == Ok(Walk(step, size, i, at, n).value[k])
    {
      WalkRecord(step, size, i, at, n, k);
    }
  }

  lemma WalkAdvance<T>(step: (int, int) -> Result<T>, size: T -> nat, total: Result<seq<T>>, done: seq<T>,
                       i: int, at: int, k: nat, x: T)
    requires k > 0 && total == Prefixed(done, Walk(step, size, i, at, k)) && step(i, at) == Ok(x)
    ensures total == Prefixed(done + [x], Walk(step, size, i + 1, at + size(x), k - 1))
  {
    PrefixedPrefixed(done, [x], Walk(step, size, i + 1, at + size(x), k - 1));
  }

  /** One step of the walk, whichever way the read went. */
  lemma WalkStep<T>(step: (int, int) -> Result<T>, size: T -> nat, total: Result<seq<T>>, done: seq<T>,
                    i: int, at: int, k: nat, r: Result<T>)
    requires k > 0 && total == Prefixed(done, Walk(step, size, i, at, k)) && step(i, at) == r
    ensures r.Err? ==> total == Err(r.error)
    ensures r.Ok? ==> total == Prefixed(done + [r.value], Walk(step, size, i + 1, at + size(r.value), k - 1))
  {
    if r.Ok? {
      WalkAdvance(step, size, total, done, i, at, k, r.value);
    }
  }

  lemma WalkAbort<T>(step: (int, int) -> Result<T>, size: T -> nat, total: Result<seq<T>>, done: seq<T>,
                     i: int, at: int, k: nat)
    requires k > 0 && total == Prefixed(done, Walk(step, size, i, at, k)) && step(i, at).Err?
    ensures total == Err(step(i, at).error)
  {
  }
}
