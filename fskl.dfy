/** The FSKL section: a skeleton. Its 0x48-byte header locates the signed
    16-bit smooth indices, the 4x3 smooth matrices (as many as the largest
    smooth index), the bone records and the bone index group dictionary.
    Non-finite matrix elements are reported and replaced by zero; bone
    parents are resolved from their indices in a second pass. */
module Skeleton {
  import opened Bytes
  import opened Results
  import opened Reader
  import opened Collab
  import opened Runs

  const FsklMagic: seq<byte> := [0x46, 0x53, 0x4B, 0x4C]  // "FSKL"
  const FsklHeaderSize: nat := 0x48

  /** The header as its 0x48 bytes: magic, two sizes, padding, five 64-bit
      offsets, the 32-bit flags, four 16-bit counts and a final word. */
  datatype FsklHeader = FsklHeader(bytes: seq<byte>, order: Order) {
    function Magic(): seq<byte> { if |bytes| >= 4 then bytes[..4] else bytes }
    function Size(): nat { Field(bytes, order, 0x04, 4) }
    function Size2(): nat { Field(bytes, order, 0x08, 4) }
    function BoneIdxGroupOffs(): nat { Field(bytes, order, 0x10, 8) }
    function BoneArrayOffs(): nat { Field(bytes, order, 0x18, 8) }
    function SmoothIdxOffs(): nat { Field(bytes, order, 0x20, 8) }
    function SmoothMtxOffs(): nat { Field(bytes, order, 0x28, 8) }
    function Unk30(): nat { Field(bytes, order, 0x30, 8) }
    function Flags(): nat { Field(bytes, order, 0x38, 4) }
    function NumBones(): nat { Field(bytes, order, 0x3C, 2) }
    function NumSmoothIdxs(): nat { Field(bytes, order, 0x3E, 2) }
    function NumRigidIdxs(): nat { Field(bytes, order, 0x40, 2) }
    function NumExtra(): nat { Field(bytes, order, 0x42, 2) }
    function Unk44(): nat { Field(bytes, order, 0x44, 4) }

    /** The fields the smooth, bone and group reads use. */
    function Layout(): FsklLayout {
      FsklLayout(BoneIdxGroupOffs(), BoneArrayOffs(), SmoothIdxOffs(), SmoothMtxOffs(), NumBones(), NumSmoothIdxs())
    }
  }

  datatype FsklLayout = FsklLayout(boneIdxGroupOffs: nat, boneArrayOffs: nat, smoothIdxOffs: nat,
                                   smoothMtxOffs: nat, numBones: nat, numSmoothIdxs: nat)

  function DecodeFsklHeader(data: seq<byte>, order: Order, pos: int): (r: Result<FsklHeader>)
    ensures r.Ok? <==> ReadBytes(data, pos, FsklHeaderSize).Ok? && data[pos..pos + 4] == FsklMagic
    ensures r.Ok? ==> r.value.Magic() == FsklMagic && |r.value.bytes| == FsklHeaderSize
  {
    var block :- ReadBytes(data, pos, FsklHeaderSize);
    if block[..4] != FsklMagic then Err(BadMagic(FsklMagic, block[..4]))
    else Ok(FsklHeader(block, order))
  }

  /** A field of a decoded header is the number stored at its offset. */
  lemma FsklFieldAt(data: seq<byte>, order: Order, pos: int, h: FsklHeader, at: nat, width: nat)
    requires DecodeFsklHeader(data, order, pos) == Ok(h) && at + width <= FsklHeaderSize
    ensures h.order == order && ReadUInt(data, order, pos + at, width) == Ok(Field(h.bytes, order, at, width))
  {
    FieldAt(data, order, pos, FsklHeaderSize, at, width);
  }

  // ---------------------------------------------------------------- smooth indices

  /** `'h'`: a signed 16-bit integer in the file's byte order. */
  const SmoothIdxFmt: Fmt := Int(2, true, None)

  /** `_readSmoothIdxs`: `read('h', pos=smooth_idx_offs, count=num_smooth_idxs)`. */
  function SmoothIdxsSpec(data: seq<byte>, order: Order, pos: int, count: nat): Result<Datum> {
    ReadDatum(data, order, SmoothIdxFmt, pos, count)
  }

  /** Smooth index `k` is the signed u16 at `smooth_idx_offs + 2*k`; a count
      of one yields that one number rather than a list of it. */
  lemma SmoothIdxsLayout(data: seq<byte>, order: Order, pos: int, count: nat)
    requires SmoothIdxsSpec(data, order, pos, count).Ok?
    ensures var d := SmoothIdxsSpec(data, order, pos, count).value;
      && (count == 1 ==> ReadUInt(data, order, pos, 2).Ok? && d == Num(Signed(ReadUInt(data, order, pos, 2).value, 2)))
      && (count != 1 ==>
            && d.List? && |d.items| == count
            && forall k :: 0 <= k < count ==>
                 ReadUInt(data, order, pos + k * 2, 2).Ok? &&
                 d.items[k] == Num(Signed(ReadUInt(data, order, pos + k * 2, 2).value, 2)))
  {
    if count != 1 {
      ReadItemsAt(data, order, SmoothIdxFmt, pos, count);
      var items := ReadItems(data, order, SmoothIdxFmt, pos, count).value;
      forall k | 0 <= k < count
        ensures ReadUInt(data, order, pos + k * 2, 2).Ok?
        ensures items[k] == Num(Signed(ReadUInt(data, order, pos + k * 2, 2).value, 2))
      {
        assert ReadOne(data, order, SmoothIdxFmt, pos + k * FmtWidth(SmoothIdxFmt)) == Ok(items[k]);
      }
    }
  }

  /** The largest element of a non-empty list. */
  function Max(xs: seq<int>): (m: int)
    requires |xs| > 0
    ensures forall k :: 0 <= k < |xs| ==> xs[k] <= m
    ensures exists k :: 0 <= k < |xs| && xs[k] == m
  {
    if |xs| == 1 then xs[0]
    else
      var rest := Max(xs[1..]);
      assert forall k :: 1 <= k < |xs| ==> xs[k] == xs[1..][k - 1];
      if xs[0] >= rest then xs[0] else rest
  }

  /** The numbers of a list of read values. */
  function Values(items: seq<Datum>): seq<int> {
    seq(|items|, k requires 0 <= k < |items| => if items[k].Num? then items[k].value else 0)
  }

  /** `range(max(smooth_idxs))`: how many smooth matrices are read. `max`
      of a single number (`num_smooth_idxs == 1`) is a TypeError, of an
      empty list a ValueError; a largest index of zero or less reads none. */
  function SmoothCount(d: Datum): (r: Result<nat>)
    ensures r.Ok? <==> d.List? && |d.items| > 0
    ensures d.List? && |d.items| == 0 ==> r == Err(EmptyMax)
    ensures !d.List? ==> r == Err(NotIterable)
    ensures r.Ok? ==> forall k :: 0 <= k < |d.items| ==> Values(d.items)[k] <= r.value
    ensures r.Ok? && r.value > 0 ==> exists k :: 0 <= k < |d.items| && d.items[k] == Num(r.value)
  {
    match d
    case List(items) =>
      if |items| == 0 then Err(EmptyMax)
      else
        var m := Max(Values(items));
        Ok(if m > 0 then m else 0)
    case _ => Err(NotIterable)
  }

  // ---------------------------------------------------------------- smooth matrices

  /** A 4x3 matrix, row by row. */
  type Matrix = seq<seq<F32>>

  predicate NotFinite(e: F32) { e.IsNaN() || e.IsInf() }

  /** The `flt` sanitiser applied to every element. */
  function CleanMatrix(m: Matrix): Matrix {
    seq(|m|, y requires 0 <= y < |m| =>
      seq(|m[y]|, x requires 0 <= x < |m[y]| => if NotFinite(m[y][x]) then Zero else m[y][x]))
  }

  /** Sanitising keeps the shape, turns each NaN or infinity into 0, keeps
      every other element, leaves nothing non-finite and changes nothing
      when applied again. */
  lemma CleanMatrixSpec(m: Matrix)
    ensures var c := CleanMatrix(m);
      && |c| == |m|
      && (forall y :: 0 <= y < |m| ==> |c[y]| == |m[y]|)
      && (forall y, x :: 0 <= y < |m| && 0 <= x < |m[y]| ==>
            && (NotFinite(m[y][x]) ==> c[y][x] == Zero)
            && (!NotFinite(m[y][x]) ==> c[y][x] == m[y][x])
            && !NotFinite(c[y][x]))
      && CleanMatrix(c) == c
  {
    var c := CleanMatrix(m);
    assert !NotFinite(Zero) by { assert Zero.Exponent() == 0; }
    forall y | 0 <= y < |c| ensures CleanMatrix(c)[y] == c[y] { }
  }

  /** Every smooth matrix sanitised, in order. */
  function CleanAll(raws: seq<Matrix>): (r: seq<Matrix>)
    ensures |r| == |raws|
  {
    if raws == [] then [] else CleanAll(raws[..|raws| - 1]) + [CleanMatrix(raws[|raws| - 1])]
  }

  lemma {:induction false} CleanAllAt(raws: seq<Matrix>)
    ensures forall i :: 0 <= i < |raws| ==> CleanAll(raws)[i] == CleanMatrix(raws[i])
    decreases |raws|
  {
    if raws != [] {
      var init := raws[..|raws| - 1];
      CleanAllAt(init);
      assert forall i :: 0 <= i < |init| ==> raws[i] == init[i];
    }
  }

  lemma CleanAllSnoc(raws: seq<Matrix>, m: Matrix)
    ensures CleanAll(raws + [m]) == CleanAll(raws) + [CleanMatrix(m)]
  {
    assert (raws + [m])[..|raws|] == raws;
  }

  /** The warnings of row `y` of matrix `i`, for columns `0..|row|`. */
  function RowWarnings(i: nat, y: nat, row: seq<F32>): seq<Warning> {
    if row == [] then []
    else
      RowWarnings(i, y, row[..|row| - 1]) +
        (if NotFinite(row[|row| - 1]) then [NonFinite(i, |row| - 1, y)] else [])
  }

  /** The warnings of matrix `i`, row by row and column by column. */
  function MatrixWarnings(i: nat, m: Matrix): seq<Warning> {
    if m == [] then [] else MatrixWarnings(i, m[..|m| - 1]) + RowWarnings(i, |m| - 1, m[|m| - 1])
  }

  /** The warnings of all smooth matrices, matrix by matrix. */
  function AllWarnings(raws: seq<Matrix>): seq<Warning> {
    if raws == [] then [] else AllWarnings(raws[..|raws| - 1]) + MatrixWarnings(|raws| - 1, raws[|raws| - 1])
  }

  lemma AllWarningsSnoc(raws: seq<Matrix>, m: Matrix)
    ensures AllWarnings(raws + [m]) == AllWarnings(raws) + MatrixWarnings(|raws|, m)
  {
    assert (raws + [m])[..|raws|] == raws;
  }

  lemma {:induction false} RowWarningsExact(i: nat, y: nat, row: seq<F32>, w: Warning)
    ensures w in RowWarnings(i, y, row) <==> exists x :: 0 <= x < |row| && NotFinite(row[x]) && w == NonFinite(i, x, y)
    decreases |row|
  {
    if row != [] {
      var init := row[..|row| - 1];
      RowWarningsExact(i, y, init, w);
      assert forall x :: 0 <= x < |init| ==> row[x] == init[x];
    }
  }

  /** Matrix `i` reports exactly its non-finite elements, one warning for
      each, naming the column `x` and the row `y`. */
  lemma {:induction false} MatrixWarningsExact(i: nat, m: Matrix, w: Warning)
    ensures w in MatrixWarnings(i, m) <==>
      exists y, x :: 0 <= y < |m| && 0 <= x < |m[y]| && NotFinite(m[y][x]) && w == NonFinite(i, x, y)
    decreases |m|
  {
    if m != [] {
      var init := m[..|m| - 1];
      MatrixWarningsExact(i, init, w);
      RowWarningsExact(i, |m| - 1, m[|m| - 1], w);
      assert forall y :: 0 <= y < |init| ==> m[y] == init[y];
    }
  }

  /** The smooth matrix reader as a function of the matrix's position. */
  function MatrixReader(data: seq<byte>, order: Order): int -> Result<Matrix> {
    pos => ReadMatrix(data, order, pos)
  }

  /** `_readSmoothMtxs` before sanitising: `count` matrices 0x30 bytes
      apart from `smooth_mtx_offs`. */
  function SmoothMtxsSpec(data: seq<byte>, order: Order, pos: int, count: nat): Result<seq<Matrix>> {
    Run(MatrixReader(data, order), pos, 0x30, count)
  }

  /** Exactly `count` matrices, matrix `i` read at `smooth_mtx_offs + 48*i`. */
  lemma SmoothMtxsLayout(data: seq<byte>, order: Order, pos: int, count: nat)
    requires SmoothMtxsSpec(data, order, pos, count).Ok?
    ensures var ms := SmoothMtxsSpec(data, order, pos, count).value;
      |ms| == count && forall i :: 0 <= i < count ==> ReadMatrix(data, order, pos + i * 48) == Ok(ms[i])
  {
    var f := MatrixReader(data, order);
    RunAt(f, pos, 0x30, count);
    var ms := SmoothMtxsSpec(data, order, pos, count).value;
    forall i | 0 <= i < count ensures ReadMatrix(data, order, pos + i * 48) == Ok(ms[i]) {
      assert f(pos + i * 0x30) == Ok(ms[i]);
    }
  }

  /** The smooth indices, then as many matrices as the largest of them. */
  function SmoothSpec(data: seq<byte>, order: Order, l: FsklLayout): Result<(Datum, seq<Matrix>)> {
    var idxs :- SmoothIdxsSpec(data, order, l.smoothIdxOffs, l.numSmoothIdxs);
    var n :- SmoothCount(idxs);
    var raws :- SmoothMtxsSpec(data, order, l.smoothMtxOffs, n);
    Ok((idxs, raws))
  }

  // ---------------------------------------------------------------- bones

  /** The bone reader as a function of the record's offset. */
  function BoneReader(data: seq<byte>, bone: (seq<byte>, int) -> Result<BoneRecord>): int -> Result<BoneRecord> {
    o => bone(data, o)
  }

  /** The first loop of `_readBones`: `num_bones` records `boneSize` bytes
      apart from `bone_array_offs`. */
  function BonesSpec(data: seq<byte>, l: FsklLayout, rd: Readers): Result<seq<BoneRecord>> {
    Run(BoneReader(data, rd.bone), l.boneArrayOffs, rd.boneSize, l.numBones)
  }

  /** Exactly `num_bones` bones, bone `i` read at `bone_array_offs + i*boneSize`. */
  lemma BonesLayout(data: seq<byte>, l: FsklLayout, rd: Readers)
    requires BonesSpec(data, l, rd).Ok?
    ensures var bs := BonesSpec(data, l, rd).value;
      |bs| == l.numBones &&
      forall i :: 0 <= i < l.numBones ==> rd.bone(data, l.boneArrayOffs + i * rd.boneSize) == Ok(bs[i])
  {
    RunAt(BoneReader(data, rd.bone), l.boneArrayOffs, rd.boneSize, l.numBones);
  }

  /** A bone: the name and parent index its record gives, the parent bone
      the second pass resolves, and the skeleton that owns it. */
  class Bone {
    const name: string
    const parentIdx: int
    var parent: Option<Bone>
    var fskl: Option<Fskl>

    constructor(rec: BoneRecord)
      ensures name == rec.name && parentIdx == rec.parentIdx && parent == None && fskl == None
    {
      name := rec.name;
      parentIdx := rec.parentIdx;
      parent := None;
      fskl := None;
    }
  }

  /** The records the bones were made from. */
  function Records(bones: seq<Bone>): (r: seq<BoneRecord>)
    ensures |r| == |bones|
  {
    if bones == [] then []
    else Records(bones[..|bones| - 1]) + [BoneRecord(bones[|bones| - 1].name, bones[|bones| - 1].parentIdx)]
  }

  lemma RecordsSnoc(bones: seq<Bone>, b: Bone)
    ensures Records(bones + [b]) == Records(bones) + [BoneRecord(b.name, b.parentIdx)]
  {
    assert (bones + [b])[..|bones|] == bones;
  }

  /** `bonesByName` and the duplicate-name warnings after the first loop of
      `_readBones` has seen `bones`: a bone is entered, with a warning,
      only when its name is already present. */
  function NameIndex(bones: seq<Bone>): (map<string, Bone>, seq<Warning>) {
    if bones == [] then (map[], [])
    else
      var (m, ws) := NameIndex(bones[..|bones| - 1]);
      var b := bones[|bones| - 1];
      if b.name in m then (m[b.name := b], ws + [DuplicateBone(b.name)]) else (m, ws)
  }

  lemma NameIndexSnoc(bones: seq<Bone>, b: Bone)
    ensures var (m, ws) := NameIndex(bones);
      NameIndex(bones + [b]) == if b.name in m then (m[b.name := b], ws + [DuplicateBone(b.name)]) else (m, ws)
  {
    assert (bones + [b])[..|bones|] == bones;
  }

  /** Starting from an empty dictionary, nothing is ever entered: the
      dictionary stays empty and no duplicate is ever reported. */
  lemma {:induction false} NameIndexEmpty(bones: seq<Bone>)
    ensures NameIndex(bones) == (map[], [])
    decreases |bones|
  {
    if bones != [] {
      NameIndexEmpty(bones[..|bones| - 1]);
    }
  }

  /** The parent the second pass of `_readBones` gives a bone with parent
      index `idx`: the bone at that index when it is in range, none when
      it is negative or past the end. */
  function ParentOf(bones: seq<Bone>, idx: int): (r: Option<Bone>)
    ensures r.Some? <==> 0 <= idx < |bones|
    ensures r.Some? ==> r.value == bones[idx]
  {
    if idx >= |bones| then None
    else if idx >= 0 then Some(bones[idx])
    else None
  }

  /** The warnings of the second pass over `bones` when the skeleton has
      `count` bones. */
  function ParentWarnings(bones: seq<Bone>, count: nat): seq<Warning> {
    if bones == [] then []
    else
      var b := bones[|bones| - 1];
      ParentWarnings(bones[..|bones| - 1], count) +
        (if b.parentIdx >= count then [ParentOutOfRange(b.name, b.parentIdx, count)] else [])
  }

  /** One warning for each bone whose parent index is past the end, and
      none for any other. */
  lemma {:induction false} ParentWarningsExact(bones: seq<Bone>, count: nat, w: Warning)
    ensures w in ParentWarnings(bones, count) <==>
      exists k :: 0 <= k < |bones| && bones[k].parentIdx >= count &&
        w == ParentOutOfRange(bones[k].name, bones[k].parentIdx, count)
    decreases |bones|
  {
    if bones != [] {
      var init := bones[..|bones| - 1];
      ParentWarningsExact(init, count, w);
      assert forall k :: 0 <= k < |init| ==> bones[k] == init[k];
    }
  }

  // ---------------------------------------------------------------- the skeleton

  /** What follows the header: the smooth indices and (unsanitised)
      matrices, the bone records and the bone index groups. */
  datatype FsklBody = FsklBody(smoothIdxs: Datum, smoothMtxs: seq<Matrix>, bones: seq<BoneRecord>, boneIdxGroups: NameDict)

  datatype FsklData = FsklData(header: FsklHeader, body: FsklBody)

  /** `readFromFRES(offset)`: the header at `offset`, then the body. */
  function FsklSpec(data: seq<byte>, order: Order, offset: int, rd: Readers): (r: Result<FsklData>)
    ensures DecodeFsklHeader(data, order, offset).Err? ==> r == Err(DecodeFsklHeader(data, order, offset).error)
    ensures r.Ok? ==> && DecodeFsklHeader(data, order, offset) == Ok(r.value.header)
                      && BodySpec(data, order, r.value.header.Layout(), rd) == Ok(r.value.body)
  {
    var h :- DecodeFsklHeader(data, order, offset);
    var body :- BodySpec(data, order, h.Layout(), rd);
    Ok(FsklData(h, body))
  }

  /** The smooth indices and matrices, the bones, then the bone index
      groups; the first failure ends it. */
  function BodySpec(data: seq<byte>, order: Order, l: FsklLayout, rd: Readers): Result<FsklBody> {
    var (idxs, raws) :- SmoothSpec(data, order, l);
    var (bones, groups) :- BoneTreeSpec(data, l, rd);
    Ok(FsklBody(idxs, raws, bones, groups))
  }

  /** `_readBones`: the bone records, then the bone index groups. */
  function BoneTreeSpec(data: seq<byte>, l: FsklLayout, rd: Readers): Result<(seq<BoneRecord>, NameDict)> {
    var bones :- BonesSpec(data, l, rd);
    var groups :- rd.dict(data, l.boneIdxGroupOffs);
    Ok((bones, groups))
  }

  /** The read order of `readFromFRES`: a failing step fails the read with
      its own error and nothing after it is read. */
  lemma FsklOrder(data: seq<byte>, order: Order, offset: int, rd: Readers)
    ensures var r := FsklSpec(data, order, offset, rd);
      var hr := DecodeFsklHeader(data, order, offset);
      && (hr.Err? ==> r == Err(hr.error))
      && (hr.Ok? ==> var b := BodySpec(data, order, hr.value.Layout(), rd);
            && (b.Err? ==> r == Err(b.error))
            && (b.Ok? ==> r == Ok(FsklData(hr.value, b.value))))
  {
  }

  /** The same for the body. */
  lemma BodyOrder(data: seq<byte>, order: Order, l: FsklLayout, rd: Readers)
    ensures var r := BodySpec(data, order, l, rd);
      var s := SmoothSpec(data, order, l);
      var t := BoneTreeSpec(data, l, rd);
      var b := BonesSpec(data, l, rd);
      var g := rd.dict(data, l.boneIdxGroupOffs);
      && (s.Err? ==> r == Err(s.error))
      && (s.Ok? && t.Err? ==> r == Err(t.error))
      && (s.Ok? && t.Ok? ==> r == Ok(FsklBody(s.value.0, s.value.1, t.value.0, t.value.1)))
      && (b.Err? ==> t == Err(b.error))
      && (b.Ok? && g.Err? ==> t == Err(g.error))
      && (b.Ok? && g.Ok? ==> t == Ok((b.value, g.value)))
  {
  }

  /** The same for the smooth part: indices, their maximum, matrices. */
  lemma SmoothOrder(data: seq<byte>, order: Order, l: FsklLayout)
    ensures var r := SmoothSpec(data, order, l);
      var i := SmoothIdxsSpec(data, order, l.smoothIdxOffs, l.numSmoothIdxs);
      && (i.Err? ==> r == Err(i.error))
      && (i.Ok? ==> var n := SmoothCount(i.value);
            && (n.Err? ==> r == Err(n.error))
            && (n.Ok? ==> var m := SmoothMtxsSpec(data, order, l.smoothMtxOffs, n.value);
                  && (m.Err? ==> r == Err(m.error))
                  && (m.Ok? ==> r == Ok((i.value, m.value)))))
  {
  }

  /** A skeleton as `FSKL` keeps it. */
  class Fskl {
    var header: Option<FsklHeader>
    var headerOffset: Option<int>
    var smoothIdxs: Option<Datum>
    var smoothMtxs: seq<Matrix>
    var bones: seq<Bone>
    var bonesByName: map<string, Bone>
    var boneIdxGroups: Option<NameDict>
    /** What the reads printed, in order. */
    var warnings: seq<Warning>

    constructor()
      ensures header == None && headerOffset == None && smoothIdxs == None && smoothMtxs == []
      ensures bones == [] && bonesByName == map[] && boneIdxGroups == None && warnings == []
    {
      header := None;
      headerOffset := None;
      smoothIdxs := None;
      smoothMtxs := [];
      bones := [];
      bonesByName := map[];
      boneIdxGroups := None;
      warnings := [];
    }

    /** `readFromFRES(offset)`, the offset defaulting to the file position
        `tell`. */
    method ReadFromFres(data: seq<byte>, order: Order, tell: int, offset: Option<int>, rd: Readers)
      returns (r: Status)
      modifies this`headerOffset, this`header, this`smoothIdxs, this`smoothMtxs, this`bones, this`bonesByName,
               this`boneIdxGroups, this`warnings
      ensures offset.Some? ==> headerOffset == offset
      ensures offset.None? ==> headerOffset == Some(tell)
      ensures r == StatusOf(FsklSpec(data, order, OrDefault(offset, tell), rd))
      ensures r.Done? ==> var f := FsklSpec(data, order, OrDefault(offset, tell), rd).value;
        && header == Some(f.header) && smoothIdxs == Some(f.body.smoothIdxs)
        && smoothMtxs == CleanAll(f.body.smoothMtxs) && Records(bones) == f.body.bones
        && bonesByName == map[] && boneIdxGroups == Some(f.body.boneIdxGroups)
        && warnings == AllWarnings(f.body.smoothMtxs) + ParentWarnings(bones, |bones|)
        && forall k :: 0 <= k < |bones| ==>
             bones[k].fskl == Some(this) && bones[k].parent == ParentOf(bones, bones[k].parentIdx)
    {
      var off := OrDefault(offset, tell);
      headerOffset := Some(off);
      var hr := DecodeFsklHeader(data, order, off);
      if hr.Err? { return Failed(hr.error); }
      header := Some(hr.value);
      r := ReadBody(data, order, hr.value.Layout(), rd);
    }

    /** `_readSmoothIdxs`, `_readSmoothMtxs` and `_readBones`. */
    method ReadBody(data: seq<byte>, order: Order, l: FsklLayout, rd: Readers) returns (r: Status)
      modifies this`smoothIdxs, this`smoothMtxs, this`bones, this`bonesByName, this`boneIdxGroups, this`warnings
      ensures r == StatusOf(BodySpec(data, order, l, rd))
      ensures r.Done? ==> var b := BodySpec(data, order, l, rd).value;
        && smoothIdxs == Some(b.smoothIdxs) && smoothMtxs == CleanAll(b.smoothMtxs) && Records(bones) == b.bones
        && bonesByName == map[] && boneIdxGroups == Some(b.boneIdxGroups)
        && warnings == AllWarnings(b.smoothMtxs) + ParentWarnings(bones, |bones|)
        && forall k :: 0 <= k < |bones| ==>
             bones[k].fskl == Some(this) && bones[k].parent == ParentOf(bones, bones[k].parentIdx)
    {
      warnings := [];
      r := ReadSmooth(data, order, l);
      if r.Failed? { return; }
      assert warnings == AllWarnings(SmoothSpec(data, order, l).value.1);
      r := ReadBones(data, l, rd);
    }

    /** `_readBones`: the bones and their parents, then the bone index groups. */
    method ReadBones(data: seq<byte>, l: FsklLayout, rd: Readers) returns (r: Status)
      modifies this`bones, this`bonesByName, this`boneIdxGroups, this`warnings
      ensures r == StatusOf(BoneTreeSpec(data, l, rd))
      ensures r.Done? ==> var t := BoneTreeSpec(data, l, rd).value;
        && Records(bones) == t.0 && bonesByName == map[] && boneIdxGroups == Some(t.1)
        && warnings == old(warnings) + ParentWarnings(bones, |bones|)
        && forall k :: 0 <= k < |bones| ==>
             bones[k].fskl == Some(this) && bones[k].parent == ParentOf(bones, bones[k].parentIdx)
    {
      boneIdxGroups := None;
      ghost var w0 := warnings;
      r := LoadBones(data, l.boneArrayOffs, l.numBones, rd);
      if r.Failed? { return; }
      NameIndexEmpty(bones);
      assert warnings == w0 by { assert w0 + [] == w0; }
      SetParents();
      var g := rd.dict(data, l.boneIdxGroupOffs);
      if g.Err? { return Failed(g.error); }
      boneIdxGroups := Some(g.value);
    }

    /** `_readSmoothIdxs` and `_readSmoothMtxs`. */
    method ReadSmooth(data: seq<byte>, order: Order, l: FsklLayout) returns (r: Status)
      modifies this`smoothIdxs, this`smoothMtxs, this`warnings
      ensures r == StatusOf(SmoothSpec(data, order, l))
      ensures r.Done? ==> var s := SmoothSpec(data, order, l).value;
        smoothIdxs == Some(s.0) && smoothMtxs == CleanAll(s.1) && warnings == old(warnings) + AllWarnings(s.1)
    {
      var idxs := SmoothIdxsSpec(data, order, l.smoothIdxOffs, l.numSmoothIdxs);
      if idxs.Err? { return Failed(idxs.error); }
      smoothIdxs := Some(idxs.value);
      var n := SmoothCount(idxs.value);
      if n.Err? { return Failed(n.error); }
      r := ReadSmoothMtxs(MatrixReader(data, order), l.smoothMtxOffs, n.value);
    }

    /** `_readSmoothMtxs`: `count` matrices 0x30 bytes apart from
        `mtxOffs`, each one's non-finite elements reported and then
        replaced by zero; `read` is the matrix read `read('3f', count=4)`. */
    method ReadSmoothMtxs(read: int -> Result<Matrix>, mtxOffs: int, count: nat) returns (r: Status)
      modifies this`smoothMtxs, this`warnings
      ensures r == StatusOf(Run(read, mtxOffs, 0x30, count))
      ensures r.Done? ==> var raws := Run(read, mtxOffs, 0x30, count).value;
        smoothMtxs == CleanAll(raws) && warnings == old(warnings) + AllWarnings(raws)
    {
      smoothMtxs := [];
      ghost var total := Run(read, mtxOffs, 0x30, count);
      ghost var done: seq<Matrix> := [];
      ghost var w0 := warnings;
      var pos := mtxOffs;
      RunStart(read, mtxOffs, 0x30, count);
      for i := 0 to count
        invariant |done| == i
        invariant total == Prefixed(done, Run(read, pos, 0x30, count - i))
        invariant smoothMtxs == CleanAll(done) && warnings == w0 + AllWarnings(done)
      {
        var mtx := read(pos);
        if mtx.Err? {
          RunAbort(read, total, done, pos, 0x30, count - i);
          return Failed(mtx.error);
        }
        RunAdvance(read, total, done, pos, 0x30, count - i, mtx.value);
        CleanAllSnoc(done, mtx.value);
        AllWarningsSnoc(done, mtx.value);
        AddSmoothMtx(i, mtx.value);
        done := done + [mtx.value];
        pos := pos + 0x30;
      }
      RunEnd(read, total, done, pos, 0x30);
      return Done;
    }

    /** The body of the `_readSmoothMtxs` loop once matrix `i` is read: its
        warnings, then the sanitised matrix appended. */
    method AddSmoothMtx(i: nat, m: Matrix)
      modifies this`smoothMtxs, this`warnings
      ensures warnings == old(warnings) + MatrixWarnings(i, m)
      ensures smoothMtxs == old(smoothMtxs) + [CleanMatrix(m)]
    {
      var ws := MatrixWarns(i, m);
      warnings := warnings + ws;
      smoothMtxs := smoothMtxs + [CleanMatrix(m)];
    }

    /** The two nested loops that report matrix `i`'s non-finite elements,
        over its four rows of three. */
    static method MatrixWarns(i: nat, m: Matrix) returns (ws: seq<Warning>)
      ensures ws == MatrixWarnings(i, m)
    {
      ws := [];
      for y := 0 to |m|
        invariant ws == MatrixWarnings(i, m[..y])
      {
        var row := m[y];
        for x := 0 to |row|
          invariant ws == MatrixWarnings(i, m[..y]) + RowWarnings(i, y, row[..x])
        {
          assert row[..x + 1][..x] == row[..x];
          if NotFinite(row[x]) {
            ws := ws + [NonFinite(i, x, y)];
          }
        }
        assert row[..|row|] == row;
        assert m[..y + 1][..y] == m[..y];
      }
      assert m[..|m|] == m;
    }

    /** The first loop of `_readBones`: `count` bones `boneSize` bytes
        apart from `arrayOffs`, each checked against `bonesByName`. */
    method LoadBones(data: seq<byte>, arrayOffs: nat, count: nat, rd: Readers) returns (r: Status)
      modifies this`bones, this`bonesByName, this`warnings
      ensures r == StatusOf(Run(BoneReader(data, rd.bone), arrayOffs, rd.boneSize, count))
      ensures r.Done? ==> Records(bones) == Run(BoneReader(data, rd.bone), arrayOffs, rd.boneSize, count).value
      ensures r.Done? ==> bonesByName == NameIndex(bones).0 && warnings == old(warnings) + NameIndex(bones).1
      ensures r.Done? ==> forall k :: 0 <= k < |bones| ==> fresh(bones[k])
    {
      bones := [];
      bonesByName := map[];
      var offs := arrayOffs;
      var f := BoneReader(data, rd.bone);
      ghost var total := Run(f, offs, rd.boneSize, count);
      ghost var done: seq<BoneRecord> := [];
      ghost var w0 := warnings;
      RunStart(f, offs, rd.boneSize, count);
      for i := 0 to count
        invariant total == Prefixed(done, Run(f, offs, rd.boneSize, count - i))
        invariant Records(bones) == done
        invariant bonesByName == NameIndex(bones).0 && warnings == w0 + NameIndex(bones).1
        invariant forall k :: 0 <= k < |bones| ==> fresh(bones[k])
      {
        var rec := rd.bone(data, offs);
        RunStep(f, total, done, offs, rd.boneSize, count - i, rec);
        if rec.Err? { return Failed(rec.error); }
        ghost var before := bones;
        var b := AddBone(rec.value);
        RecordsSnoc(before, b);
        NameIndexSnoc(before, b);
        done := done + [rec.value];
        offs := offs + rd.boneSize;
      }
      RunEnd(f, total, done, offs, rd.boneSize);
      return Done;
    }

    /** One step of the first loop: a new bone from `rec`, appended, and
        reported and entered in `bonesByName` when its name already is. */
    method AddBone(rec: BoneRecord) returns (b: Bone)
      modifies this`bones, this`bonesByName, this`warnings
      ensures fresh(b) && b.name == rec.name && b.parentIdx == rec.parentIdx
      ensures bones == old(bones) + [b]
      ensures rec.name in old(bonesByName) ==>
        bonesByName == old(bonesByName)[rec.name := b] && warnings == old(warnings) + [DuplicateBone(rec.name)]
      ensures rec.name !in old(bonesByName) ==> bonesByName == old(bonesByName) && warnings == old(warnings)
    {
      b := new Bone(rec);
      bones := bones + [b];
      if b.name in bonesByName {
        warnings := warnings + [DuplicateBone(b.name)];
        bonesByName := bonesByName[b.name := b];
      }
    }

    /** The second loop of `_readBones`: every bone's skeleton becomes this
        one and its parent the bone its parent index names, if any. */
    method SetParents()
      modifies bones, this`warnings
      ensures forall k :: 0 <= k < |bones| ==>
        bones[k].fskl == Some(this) && bones[k].parent == ParentOf(bones, bones[k].parentIdx)
      ensures warnings == old(warnings) + ParentWarnings(bones, |bones|)
    {
      for k := 0 to |bones|
        invariant forall j :: 0 <= j < k ==>
          bones[j].fskl == Some(this) && bones[j].parent == ParentOf(bones, bones[j].parentIdx)
        invariant warnings == old(warnings) + ParentWarnings(bones[..k], |bones|)
      {
        var bone := bones[k];
        assert bones[..k + 1][..k] == bones[..k];
        bone.fskl := Some(this);
        if bone.parentIdx >= |bones| {
          warnings := warnings + [ParentOutOfRange(bone.name, bone.parentIdx, |bones|)];
          bone.parent := None;
        } else if bone.parentIdx >= 0 {
          bone.parent := Some(bones[bone.parentIdx]);
        } else {
          bone.parent := None;
        }
      }
      assert bones[..|bones|] == bones;
    }
  }
}
