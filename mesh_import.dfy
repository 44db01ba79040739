/** The index logic both importers share: gathering every attribute's
    values for the vertices a level of detail uses, placing positions on
    Blender's axes, cutting an index buffer into faces, and naming the UV
    layers `_u0`, `_u1`, ... . The scene objects these feed (meshes,
    faces, UV loops) are host-editor calls and are not modelled. */
module MeshImport {
  import opened Bytes
  import opened Results
  import opened Collab
  import opened Runs
  import opened VertexData
  import Skeleton

  // ---------------------------------------------------------------------
  // Attribute buffers
  // ---------------------------------------------------------------------

  /** Attribute `a` of vertex `idx` as the importers fetch it: the format
      is used as a dict (`fmt.get`, `fmt['fmt']`), so a bare format string
      fails; then the same buffer, offset and conversion rule as the FVTX
      reader. */
  function ImportValue(buffers: seq<Buffer>, a: Attribute, idx: nat,
                       unpack: (UnpackFmt, seq<byte>) -> Tuple, convert: (string, Tuple) -> Tuple): Result<Tuple>
  {
    if a.format.Plain? then Err(NotADict) else AttrValue(buffers, a, idx, unpack, convert)
  }

  /** A format given as a plain string fails; otherwise a value is read
      exactly when the buffer index is in range and the format's bytes fit
      at `buf_offs + idx*stride`. */
  lemma ImportValueCases(buffers: seq<Buffer>, a: Attribute, idx: nat,
                         unpack: (UnpackFmt, seq<byte>) -> Tuple, convert: (string, Tuple) -> Tuple)
    ensures var r := ImportValue(buffers, a, idx, unpack, convert);
      && (a.format.Plain? ==> r == Err(NotADict))
      && (a.format.Described? && a.bufIdx >= |buffers| ==> r == Err(IndexError(a.bufIdx, |buffers|)))
      && (r.Ok? <==> && a.format.Described? && a.bufIdx < |buffers|
                     && a.bufOffs + idx * buffers[a.bufIdx].stride + a.format.Unpack().width <= |buffers[a.bufIdx].data|)
      && (r.Ok? ==> r == AttrValue(buffers, a, idx, unpack, convert))
  {
  }

  /** The values one vertex contributes, one per attribute in attribute
      order; the first attribute that fails ends it. */
  function RowAt(buffers: seq<Buffer>, attrs: seq<Attribute>, idx: nat,
                 unpack: (UnpackFmt, seq<byte>) -> Tuple, convert: (string, Tuple) -> Tuple): Result<seq<Tuple>>
  {
    Each(a => ImportValue(buffers, a, idx, unpack, convert), attrs)
  }

  function RowReader(buffers: seq<Buffer>, attrs: seq<Attribute>,
                     unpack: (UnpackFmt, seq<byte>) -> Tuple, convert: (string, Tuple) -> Tuple)
    : int -> Result<seq<Tuple>>
  {
    i => if i < 0 then Err(IndexError(i, 0)) else RowAt(buffers, attrs, i, unpack, convert)
  }

  /** `range(max(idxs) + 1)`: how many vertices a submesh makes the
      importer visit, 0 through the largest index it names. */
  function VertexCount(s: Submesh): (r: Result<nat>)
    ensures r.Err? <==> |s.idxs| == 0
    ensures r.Err? ==> r.error == EmptyMax
    ensures r.Ok? ==> forall k :: 0 <= k < |s.idxs| ==> s.idxs[k] < r.value
    ensures r.Ok? && r.value > 0 ==> exists k :: 0 <= k < |s.idxs| && s.idxs[k] == r.value - 1
  {
    if |s.idxs| == 0 then Err(EmptyMax)
    else
      var m := Skeleton.Max(s.idxs);
      Ok(if m + 1 > 0 then m + 1 else 0)
  }

  /** The rows of one submesh: vertices 0, 1, ... in turn. */
  function SubmeshRows(buffers: seq<Buffer>, attrs: seq<Attribute>, s: Submesh,
                       unpack: (UnpackFmt, seq<byte>) -> Tuple, convert: (string, Tuple) -> Tuple)
    : Result<seq<seq<Tuple>>>
  {
    var n :- VertexCount(s);
    Run(RowReader(buffers, attrs, unpack, convert), 0, 1, n)
  }

  /** The rows of all submeshes, submesh by submesh; the first failure
      (an empty index list or a value that cannot be read) ends it. */
  function Rows(buffers: seq<Buffer>, attrs: seq<Attribute>, subs: seq<Submesh>,
                unpack: (UnpackFmt, seq<byte>) -> Tuple, convert: (string, Tuple) -> Tuple)
    : Result<seq<seq<Tuple>>>
    decreases |subs|
  {
    if |subs| == 0 then Ok([])
    else
      var before :- Rows(buffers, attrs, subs[..|subs| - 1], unpack, convert);
      var last :- SubmeshRows(buffers, attrs, subs[|subs| - 1], unpack, convert);
      Ok(before + last)
  }

  /** How many rows the submeshes make when none fails. */
  function Total(subs: seq<Submesh>): nat {
    if |subs| == 0 then 0
    else
      var c := VertexCount(subs[|subs| - 1]);
      Total(subs[..|subs| - 1]) + (if c.Ok? then c.value else 0)
  }

  function Names(attrs: seq<Attribute>): set<string> {
    set a | a in attrs :: a.name
  }

  /** How many attributes are called `name`. */
  function Occurrences(attrs: seq<Attribute>, name: string): nat {
    if |attrs| == 0 then 0
    else Occurrences(attrs[..|attrs| - 1], name) + (if attrs[|attrs| - 1].name == name then 1 else 0)
  }

  /** What one row appends to the list called `name`: the values of the
      attributes with that name, in attribute order. */
  function Picked(attrs: seq<Attribute>, row: seq<Tuple>, name: string): seq<Tuple> {
    if |attrs| == 0 || |row| == 0 then []
    else
      Picked(attrs[..|attrs| - 1], row[..|row| - 1], name)
        + (if attrs[|attrs| - 1].name == name then [row[|row| - 1]] else [])
  }

  /** The list called `name` after `rows`. */
  function Column(attrs: seq<Attribute>, rows: seq<seq<Tuple>>, name: string): seq<Tuple> {
    if |rows| == 0 then [] else Column(attrs, rows[..|rows| - 1], name) + Picked(attrs, rows[|rows| - 1], name)
  }

  /** The dict after `rows`: one list per attribute name. */
  function Columns(attrs: seq<Attribute>, rows: seq<seq<Tuple>>): map<string, seq<Tuple>> {
    map n | n in Names(attrs) :: Column(attrs, rows, n)
  }

  /** `_getAttrBuffers`: attribute name to the values, for every vertex
      every submesh visits. */
  function AttrBuffersSpec(buffers: seq<Buffer>, attrs: seq<Attribute>, subs: seq<Submesh>,
                           unpack: (UnpackFmt, seq<byte>) -> Tuple, convert: (string, Tuple) -> Tuple)
    : Result<map<string, seq<Tuple>>>
  {
    var rows :- Rows(buffers, attrs, subs, unpack, convert);
    Ok(Columns(attrs, rows))
  }

  lemma PickedSnoc(attrs: seq<Attribute>, row: seq<Tuple>, a: Attribute, v: Tuple, name: string)
    requires |row| == |attrs|
    ensures Picked(attrs + [a], row + [v], name) == Picked(attrs, row, name) + (if a.name == name then [v] else [])
  {
    assert (attrs + [a])[..|attrs|] == attrs;
    assert (row + [v])[..|row|] == row;
  }

  /** The dict part way through a row: `rows` done, then the values
      `done` of the attributes `prefix`. */
  function Fill(attrs: seq<Attribute>, rows: seq<seq<Tuple>>, prefix: seq<Attribute>, done: seq<Tuple>)
    : map<string, seq<Tuple>>
  {
    map n | n in Names(attrs) :: Column(attrs, rows, n) + Picked(prefix, done, n)
  }

  lemma FillStart(attrs: seq<Attribute>, rows: seq<seq<Tuple>>)
    ensures Fill(attrs, rows, attrs[..0], []) == Columns(attrs, rows)
  {
    forall n | n in Names(attrs) ensures Column(attrs, rows, n) + Picked(attrs[..0], [], n) == Column(attrs, rows, n) {
      assert Column(attrs, rows, n) + [] == Column(attrs, rows, n);
    }
  }

  lemma FillStep(attrs: seq<Attribute>, rows: seq<seq<Tuple>>, k: nat, done: seq<Tuple>, v: Tuple)
    requires k < |attrs| && |done| == k
    ensures attrs[k].name in Fill(attrs, rows, attrs[..k], done)
    ensures var m := Fill(attrs, rows, attrs[..k], done);
      m[attrs[k].name := m[attrs[k].name] + [v]] == Fill(attrs, rows, attrs[..k + 1], done + [v])
  {
    var a := attrs[k];
    assert attrs[..k + 1] == attrs[..k] + [a];
    assert a in attrs && a.name in Names(attrs);
    var m := Fill(attrs, rows, attrs[..k], done);
    var m2 := m[a.name := m[a.name] + [v]];
    var m3 := Fill(attrs, rows, attrs[..k + 1], done + [v]);
    assert m2.Keys == m3.Keys;
    forall n | n in m3 ensures m2[n] == m3[n] {
      PickedSnoc(attrs[..k], done, a, v, n);
      var c := Column(attrs, rows, n);
      var p := Picked(attrs[..k], done, n);
      if n == a.name {
        assert m2[n] == c + p + [v];
        assert c + p + [v] == c + (p + [v]);
      } else {
        assert p + [] == p;
      }
    }
    assert m2 == m3;
  }

  lemma FillEnd(attrs: seq<Attribute>, rows: seq<seq<Tuple>>, row: seq<Tuple>)
    ensures Fill(attrs, rows, attrs[..|attrs|], row) == Columns(attrs, rows + [row])
  {
    assert (rows + [row])[..|rows|] == rows;
    assert attrs[..|attrs|] == attrs;
  }

  lemma NamesSnoc(attrs: seq<Attribute>, k: nat)
    requires k < |attrs|
    ensures Names(attrs[..k + 1]) == Names(attrs[..k]) + {attrs[k].name}
  {
    assert attrs[..k + 1] == attrs[..k] + [attrs[k]];
  }

  lemma {:induction false} PickedLength(attrs: seq<Attribute>, row: seq<Tuple>, name: string)
    requires |row| == |attrs|
    ensures |Picked(attrs, row, name)| == Occurrences(attrs, name)
    decreases |attrs|
  {
    if |attrs| > 0 {
      PickedLength(attrs[..|attrs| - 1], row[..|row| - 1], name);
    }
  }

  lemma {:induction false} ColumnLength(attrs: seq<Attribute>, rows: seq<seq<Tuple>>, name: string)
    requires forall j :: 0 <= j < |rows| ==> |rows[j]| == |attrs|
    ensures |Column(attrs, rows, name)| == |rows| * Occurrences(attrs, name)
    decreases |rows|
  {
    if |rows| > 0 {
      ColumnLength(attrs, rows[..|rows| - 1], name);
      PickedLength(attrs, rows[|rows| - 1], name);
      assert |rows| * Occurrences(attrs, name) == (|rows| - 1) * Occurrences(attrs, name) + Occurrences(attrs, name);
    }
  }

  /** One row per visited vertex, one value per attribute in each. */
  lemma {:induction false} RowsShape(buffers: seq<Buffer>, attrs: seq<Attribute>, subs: seq<Submesh>,
                                     unpack: (UnpackFmt, seq<byte>) -> Tuple, convert: (string, Tuple) -> Tuple)
    requires Rows(buffers, attrs, subs, unpack, convert).Ok?
    ensures var rows := Rows(buffers, attrs, subs, unpack, convert).value;
      |rows| == Total(subs) && forall j :: 0 <= j < |rows| ==> |rows[j]| == |attrs|
    decreases |subs|
  {
    if |subs| > 0 {
      var init := subs[..|subs| - 1];
      RowsShape(buffers, attrs, init, unpack, convert);
      var s := subs[|subs| - 1];
      var n := VertexCount(s).value;
      var rd := RowReader(buffers, attrs, unpack, convert);
      RunAt(rd, 0, 1, n);
      var last := SubmeshRows(buffers, attrs, s, unpack, convert).value;
      forall i | 0 <= i < n ensures |last[i]| == |attrs| {
        assert rd(0 + i * 1) == Ok(last[i]);
        EachAt(a => ImportValue(buffers, a, i, unpack, convert), attrs);
      }
    }
  }

  /** Row `i` of submesh `t` sits after the rows of the submeshes before
      it, and holds vertex `i`'s values. */
  lemma {:induction false} RowsAt(buffers: seq<Buffer>, attrs: seq<Attribute>, subs: seq<Submesh>,
                                  unpack: (UnpackFmt, seq<byte>) -> Tuple, convert: (string, Tuple) -> Tuple,
                                  t: nat, i: nat)
    requires Rows(buffers, attrs, subs, unpack, convert).Ok?
    requires t < |subs| && VertexCount(subs[t]).Ok? && i < VertexCount(subs[t]).value
    ensures Total(subs[..t]) + i < |Rows(buffers, attrs, subs, unpack, convert).value|
    ensures RowAt(buffers, attrs, i, unpack, convert)
         == Ok(Rows(buffers, attrs, subs, unpack, convert).value[Total(subs[..t]) + i])
    decreases |subs|
  {
    var init := subs[..|subs| - 1];
    if t < |subs| - 1 {
      assert init[..t] == subs[..t] && init[t] == subs[t];
      RowsInit(buffers, attrs, subs, unpack, convert);
      RowsAt(buffers, attrs, init, unpack, convert, t, i);
      assert Total(init[..t]) == Total(subs[..t]);
    } else {
      assert init == subs[..t];
      RowsLast(buffers, attrs, subs, unpack, convert, i);
    }
  }

  /** The rows of all submeshes but the last come first. */
  lemma RowsInit(buffers: seq<Buffer>, attrs: seq<Attribute>, subs: seq<Submesh>,
                 unpack: (UnpackFmt, seq<byte>) -> Tuple, convert: (string, Tuple) -> Tuple)
    requires Rows(buffers, attrs, subs, unpack, convert).Ok? && |subs| > 0
    ensures var before := Rows(buffers, attrs, subs[..|subs| - 1], unpack, convert);
      var rows := Rows(buffers, attrs, subs, unpack, convert).value;
      before.Ok? && |before.value| <= |rows| && forall j :: 0 <= j < |before.value| ==> rows[j] == before.value[j]
  {
  }

  /** Row `i` of the last submesh follows the rows of all the others. */
  lemma RowsLast(buffers: seq<Buffer>, attrs: seq<Attribute>, subs: seq<Submesh>,
                 unpack: (UnpackFmt, seq<byte>) -> Tuple, convert: (string, Tuple) -> Tuple, i: nat)
    requires Rows(buffers, attrs, subs, unpack, convert).Ok? && |subs| > 0
    requires VertexCount(subs[|subs| - 1]).Ok? && i < VertexCount(subs[|subs| - 1]).value
    ensures var rows := Rows(buffers, attrs, subs, unpack, convert).value;
      && Total(subs[..|subs| - 1]) + i < |rows|
      && RowAt(buffers, attrs, i, unpack, convert) == Ok(rows[Total(subs[..|subs| - 1]) + i])
  {
    var init := subs[..|subs| - 1];
    var before := Rows(buffers, attrs, init, unpack, convert).value;
    var last := SubmeshRows(buffers, attrs, subs[|subs| - 1], unpack, convert).value;
    assert Rows(buffers, attrs, subs, unpack, convert).value == before + last;
    assert |before| == Total(init) by { RowsShape(buffers, attrs, init, unpack, convert); }
    SubmeshRowAt(buffers, attrs, subs[|subs| - 1], unpack, convert, i);
  }

  /** Row `i` of one submesh holds vertex `i`'s values. */
  lemma SubmeshRowAt(buffers: seq<Buffer>, attrs: seq<Attribute>, s: Submesh,
                     unpack: (UnpackFmt, seq<byte>) -> Tuple, convert: (string, Tuple) -> Tuple, i: nat)
    requires SubmeshRows(buffers, attrs, s, unpack, convert).Ok? && VertexCount(s).Ok? && i < VertexCount(s).value
    ensures var rows := SubmeshRows(buffers, attrs, s, unpack, convert).value;
      i < |rows| && RowAt(buffers, attrs, i, unpack, convert) == Ok(rows[i])
  {
    var rd := RowReader(buffers, attrs, unpack, convert);
    RunAt(rd, 0, 1, VertexCount(s).value);
    assert rd(0 + i * 1) == Ok(SubmeshRows(buffers, attrs, s, unpack, convert).value[i]);
  }

  /** A failure among the first submeshes is the failure of them all. */
  lemma {:induction false} RowsFailFast(buffers: seq<Buffer>, attrs: seq<Attribute>, subs: seq<Submesh>, s: nat,
                                        unpack: (UnpackFmt, seq<byte>) -> Tuple, convert: (string, Tuple) -> Tuple)
    requires s <= |subs| && Rows(buffers, attrs, subs[..s], unpack, convert).Err?
    ensures Rows(buffers, attrs, subs, unpack, convert) == Rows(buffers, attrs, subs[..s], unpack, convert)
    decreases |subs|
  {
    if s < |subs| {
      var init := subs[..|subs| - 1];
      assert init[..s] == subs[..s];
      RowsFailFast(buffers, attrs, init, s, unpack, convert);
    } else {
      assert subs[..s] == subs;
    }
  }

  /** Each attribute name heads one list, of one value per visited vertex
      and per attribute with that name. */
  lemma AttrBufferLengths(buffers: seq<Buffer>, attrs: seq<Attribute>, subs: seq<Submesh>,
                          unpack: (UnpackFmt, seq<byte>) -> Tuple, convert: (string, Tuple) -> Tuple)
    requires AttrBuffersSpec(buffers, attrs, subs, unpack, convert).Ok?
    ensures var m := AttrBuffersSpec(buffers, attrs, subs, unpack, convert).value;
      m.Keys == Names(attrs)
      && forall n :: n in m ==> |m[n]| == Occurrences(attrs, n) * Total(subs)
  {
    var rows := Rows(buffers, attrs, subs, unpack, convert).value;
    RowsShape(buffers, attrs, subs, unpack, convert);
    forall n | n in Names(attrs) ensures |Column(attrs, rows, n)| == Occurrences(attrs, n) * Total(subs) {
      ColumnLength(attrs, rows, n);
    }
  }

  predicate DistinctNames(attrs: seq<Attribute>) {
    forall i, j :: 0 <= i < j < |attrs| ==> attrs[i].name != attrs[j].name
  }

  lemma {:induction false} OccurrencesDistinct(attrs: seq<Attribute>, k: nat)
    requires DistinctNames(attrs) && k < |attrs|
    ensures Occurrences(attrs, attrs[k].name) == 1
    decreases |attrs|
  {
    var init := attrs[..|attrs| - 1];
    if k < |attrs| - 1 {
      OccurrencesDistinct(init, k);
    } else {
      OccurrencesAbsent(init, attrs[k].name);
    }
  }

  lemma {:induction false} OccurrencesAbsent(attrs: seq<Attribute>, name: string)
    requires forall i :: 0 <= i < |attrs| ==> attrs[i].name != name
    ensures Occurrences(attrs, name) == 0
    decreases |attrs|
  {
    if |attrs| > 0 {
      OccurrencesAbsent(attrs[..|attrs| - 1], name);
    }
  }

  /** With distinct attribute names every list ends with the same length:
      the number of vertices the submeshes visit. */
  lemma AttrBuffersEqualLength(buffers: seq<Buffer>, attrs: seq<Attribute>, subs: seq<Submesh>,
                               unpack: (UnpackFmt, seq<byte>) -> Tuple, convert: (string, Tuple) -> Tuple)
    requires AttrBuffersSpec(buffers, attrs, subs, unpack, convert).Ok? && DistinctNames(attrs)
    ensures var m := AttrBuffersSpec(buffers, attrs, subs, unpack, convert).value;
      forall n :: n in m ==> |m[n]| == Total(subs)
  {
    AttrBufferLengths(buffers, attrs, subs, unpack, convert);
    forall n | n in Names(attrs) ensures Occurrences(attrs, n) == 1 {
      var k :| 0 <= k < |attrs| && attrs[k].name == n;
      OccurrencesDistinct(attrs, k);
    }
  }

  lemma {:induction false} PickedDistinct(attrs: seq<Attribute>, row: seq<Tuple>, k: nat)
    requires |row| == |attrs| && DistinctNames(attrs) && k < |attrs|
    ensures Picked(attrs, row, attrs[k].name) == [row[k]]
    decreases |attrs|
  {
    var init := attrs[..|attrs| - 1];
    if k < |attrs| - 1 {
      PickedDistinct(init, row[..|row| - 1], k);
    } else {
      PickedAbsent(init, row[..|row| - 1], attrs[k].name);
    }
  }

  lemma {:induction false} PickedAbsent(attrs: seq<Attribute>, row: seq<Tuple>, name: string)
    requires forall i :: 0 <= i < |attrs| ==> attrs[i].name != name
    ensures Picked(attrs, row, name) == []
    decreases |attrs|
  {
    if |attrs| > 0 && |row| > 0 {
      PickedAbsent(attrs[..|attrs| - 1], row[..|row| - 1], name);
    }
  }

  lemma {:induction false} ColumnDistinct(attrs: seq<Attribute>, rows: seq<seq<Tuple>>, k: nat)
    requires forall j :: 0 <= j < |rows| ==> |rows[j]| == |attrs|
    requires DistinctNames(attrs) && k < |attrs|
    ensures |Column(attrs, rows, attrs[k].name)| == |rows|
    ensures forall j :: 0 <= j < |rows| ==> Column(attrs, rows, attrs[k].name)[j] == rows[j][k]
    decreases |rows|
  {
    if |rows| > 0 {
      ColumnDistinct(attrs, rows[..|rows| - 1], k);
      PickedDistinct(attrs, rows[|rows| - 1], k);
    }
  }

  /** With distinct attribute names, the list of attribute `k` holds, at
      the place of vertex `i` of submesh `t`, that vertex's value of the
      attribute: the format's bytes at `buf_offs + i*stride`. */
  lemma AttrBufferValues(buffers: seq<Buffer>, attrs: seq<Attribute>, subs: seq<Submesh>,
                         unpack: (UnpackFmt, seq<byte>) -> Tuple, convert: (string, Tuple) -> Tuple,
                         t: nat, i: nat, k: nat)
    requires AttrBuffersSpec(buffers, attrs, subs, unpack, convert).Ok? && DistinctNames(attrs)
    requires t < |subs| && VertexCount(subs[t]).Ok? && i < VertexCount(subs[t]).value && k < |attrs|
    ensures var m := AttrBuffersSpec(buffers, attrs, subs, unpack, convert).value;
      var at := Total(subs[..t]) + i;
      attrs[k].name in m && at < |m[attrs[k].name]|
      && ImportValue(buffers, attrs[k], i, unpack, convert) == Ok(m[attrs[k].name][at])
  {
    var rows := Rows(buffers, attrs, subs, unpack, convert).value;
    RowsShape(buffers, attrs, subs, unpack, convert);
    RowsAt(buffers, attrs, subs, unpack, convert, t, i);
    ColumnDistinct(attrs, rows, k);
    EachAt(a => ImportValue(buffers, a, i, unpack, convert), attrs);
  }

  /** `_getAttrBuffers`: one empty list per attribute name, then for each
      submesh, for each vertex up to its largest index, for each attribute,
      the vertex's value appended to the list of the attribute's name. */
  method GetAttrBuffers(buffers: seq<Buffer>, attrs: seq<Attribute>, subs: seq<Submesh>,
                        unpack: (UnpackFmt, seq<byte>) -> Tuple, convert: (string, Tuple) -> Tuple)
    returns (r: Result<map<string, seq<Tuple>>>)
    ensures r == AttrBuffersSpec(buffers, attrs, subs, unpack, convert)
  {
    var attrBuffers: map<string, seq<Tuple>> := map[];
    for k := 0 to |attrs|
      invariant attrBuffers == map n | n in Names(attrs[..k]) :: []
    {
      NamesSnoc(attrs, k);
      attrBuffers := attrBuffers[attrs[k].name := []];
    }
    assert attrs[..|attrs|] == attrs;
    ghost var rows: seq<seq<Tuple>> := [];
    for s := 0 to |subs|
      invariant Rows(buffers, attrs, subs[..s], unpack, convert) == Ok(rows)
      invariant attrBuffers == Columns(attrs, rows)
    {
      assert subs[..s + 1][..s] == subs[..s];
      assert subs[..s + 1][s] == subs[s];
      var more := AppendSubmesh(attrBuffers, buffers, attrs, subs[s], rows, unpack, convert);
      if more.Err? {
        RowsFailFast(buffers, attrs, subs, s + 1, unpack, convert);
        return Err(more.error);
      }
      rows := rows + SubmeshRows(buffers, attrs, subs[s], unpack, convert).value;
      attrBuffers := more.value;
    }
    assert subs[..|subs|] == subs;
    return Ok(attrBuffers);
  }

  /** The dict after `rows` and then the rows `more` would add, or the
      failure that stops them. */
  function Extended(attrs: seq<Attribute>, rows: seq<seq<Tuple>>, more: Result<seq<seq<Tuple>>>)
    : Result<map<string, seq<Tuple>>>
  {
    match more
    case Ok(x) => Ok(Columns(attrs, rows + x))
    case Err(e) => Err(e)
  }

  /** The rows of one submesh added to the dict. */
  method AppendSubmesh(m: map<string, seq<Tuple>>, buffers: seq<Buffer>, attrs: seq<Attribute>, s: Submesh,
                       ghost rows: seq<seq<Tuple>>,
                       unpack: (UnpackFmt, seq<byte>) -> Tuple, convert: (string, Tuple) -> Tuple)
    returns (r: Result<map<string, seq<Tuple>>>)
    requires m == Columns(attrs, rows)
    ensures r == Extended(attrs, rows, SubmeshRows(buffers, attrs, s, unpack, convert))
  {
    if |s.idxs| == 0 {
      return Err(EmptyMax);
    }
    var n := Skeleton.Max(s.idxs) + 1;
    var count: nat := if n > 0 then n else 0;
    r := AppendVertices(m, buffers, attrs, count, rows, unpack, convert);
  }

  /** Vertices `0 .. count-1` added to the dict in turn. */
  method AppendVertices(m: map<string, seq<Tuple>>, buffers: seq<Buffer>, attrs: seq<Attribute>, count: nat,
                        ghost rows: seq<seq<Tuple>>,
                        unpack: (UnpackFmt, seq<byte>) -> Tuple, convert: (string, Tuple) -> Tuple)
    returns (r: Result<map<string, seq<Tuple>>>)
    requires m == Columns(attrs, rows)
    ensures r == Extended(attrs, rows, Run(RowReader(buffers, attrs, unpack, convert), 0, 1, count))
  {
    ghost var rd := RowReader(buffers, attrs, unpack, convert);
    ghost var total := Run(rd, 0, 1, count);
    ghost var done: seq<seq<Tuple>> := [];
    RunStart(rd, 0, 1, count);
    var acc := m;
    assert rows + done == rows;
    for idx := 0 to count
      invariant total == Prefixed(done, Run(rd, idx, 1, count - idx))
      invariant acc == Columns(attrs, rows + done)
    {
      var row := AppendRow(acc, buffers, attrs, idx, rows + done, unpack, convert);
      if row.Err? {
        RunAbort(rd, total, done, idx, 1, count - idx);
        return Err(row.error);
      }
      ghost var v := RowAt(buffers, attrs, idx, unpack, convert).value;
      RunAdvance(rd, total, done, idx, 1, count - idx, v);
      assert rows + done + [v] == rows + (done + [v]);
      done := done + [v];
      acc := row.value;
    }
    RunEnd(rd, total, done, count, 1);
    return Ok(acc);
  }

  /** One vertex's values appended, attribute by attribute. */
  method AppendRow(m: map<string, seq<Tuple>>, buffers: seq<Buffer>, attrs: seq<Attribute>, idx: nat,
                   ghost rows: seq<seq<Tuple>>,
                   unpack: (UnpackFmt, seq<byte>) -> Tuple, convert: (string, Tuple) -> Tuple)
    returns (r: Result<map<string, seq<Tuple>>>)
    requires m == Columns(attrs, rows)
    ensures RowAt(buffers, attrs, idx, unpack, convert).Err? ==> r == Err(RowAt(buffers, attrs, idx, unpack, convert).error)
    ensures RowAt(buffers, attrs, idx, unpack, convert).Ok? ==> r == Extended(attrs, rows, Ok([RowAt(buffers, attrs, idx, unpack, convert).value]))
  {
    ghost var f := a => ImportValue(buffers, a, idx, unpack, convert);
    ghost var total := RowAt(buffers, attrs, idx, unpack, convert);
    ghost var done: seq<Tuple> := [];
    EachStart(f, attrs);
    var acc := m;
    FillStart(attrs, rows);
    for k := 0 to |attrs|
      invariant |done| == k
      invariant total == Prefixed(done, Each(f, attrs[k..]))
      invariant acc == Fill(attrs, rows, attrs[..k], done)
    {
      var a := attrs[k];
      var v := ImportValue(buffers, a, idx, unpack, convert);
      if v.Err? {
        EachAbort(f, total, done, attrs, k);
        return Err(v.error);
      }
      EachAdvance(f, total, done, attrs, k, v.value);
      FillStep(attrs, rows, k, done, v.value);
      acc := acc[a.name := acc[a.name] + [v.value]];
      done := done + [v.value];
    }
    EachEnd(f, total, done, attrs);
    FillEnd(attrs, rows, done);
    return Ok(acc);
  }

  // ---------------------------------------------------------------------
  // Vertices
  // ---------------------------------------------------------------------

  /** A position as the mesh receives it. */
  datatype Vertex = Vertex(x: real, y: real, z: real)

  /** A position tuple unpacks as `x, y, z, w` or as `x, y, z`. */
  predicate Unpackable(t: Tuple) {
    |t| == 3 || |t| == 4
  }

  /** File axes to Blender's: `(x, y, z)` becomes `(x, -z, y)`; a fourth
      coordinate is dropped. */
  function Place(t: Tuple): Vertex
    requires |t| >= 3
  {
    Vertex(t[0], -t[2], t[1])
  }

  /** Blender's axes back to the file's. */
  function Unplace(v: Vertex): Tuple {
    [v.x, v.z, -v.y]
  }

  /** The axis change loses nothing but `w`. */
  lemma PlaceRoundTrip(t: Tuple)
    requires Unpackable(t)
    ensures Unplace(Place(t)) == t[..3]
    ensures Place(Unplace(Place(t))) == Place(t)
  {
  }

  /** A homogeneous coordinate other than 1 is reported. */
  predicate HasW(t: Tuple) {
    |t| == 4 && t[3] != 1.0
  }

  /** `_addVerticesToMesh` up to its first failure: the positions, or the
      arity error of the first tuple that does not unpack. */
  function VerticesSpec(vtxs: seq<Tuple>): (r: Result<seq<Vertex>>)
    ensures r.Ok? <==> forall i :: 0 <= i < |vtxs| ==> Unpackable(vtxs[i])
    ensures r.Ok? ==> |r.value| == |vtxs| && forall i :: 0 <= i < |vtxs| ==> r.value[i] == Place(vtxs[i])
    decreases |vtxs|
  {
    if |vtxs| == 0 then Ok([])
    else
      var before :- VerticesSpec(vtxs[..|vtxs| - 1]);
      var t := vtxs[|vtxs| - 1];
      if !Unpackable(t) then Err(TupleArity(|t|)) else Ok(before + [Place(t)])
  }

  /** One warning per vertex whose `w` is not 1. */
  function WWarnings(vtxs: seq<Tuple>): seq<Warning>
    decreases |vtxs|
  {
    if |vtxs| == 0 then []
    else WWarnings(vtxs[..|vtxs| - 1]) + (if HasW(vtxs[|vtxs| - 1]) then [UnusedW(|vtxs| - 1)] else [])
  }

  /** The vertices succeed exactly when every tuple unpacks; then vertex
      `i` is tuple `i` on Blender's axes; otherwise the error names the
      arity of the first tuple that does not. */
  lemma {:induction false} VerticesExact(vtxs: seq<Tuple>)
    ensures VerticesSpec(vtxs).Ok? <==> forall i :: 0 <= i < |vtxs| ==> Unpackable(vtxs[i])
    ensures VerticesSpec(vtxs).Ok? ==>
      |VerticesSpec(vtxs).value| == |vtxs|
      && forall i :: 0 <= i < |vtxs| ==> VerticesSpec(vtxs).value[i] == Place(vtxs[i])
    ensures VerticesSpec(vtxs).Err? ==>
      exists j :: 0 <= j < |vtxs| && !Unpackable(vtxs[j]) && (forall i :: 0 <= i < j ==> Unpackable(vtxs[i]))
        && VerticesSpec(vtxs).error == TupleArity(|vtxs[j]|)
    decreases |vtxs|
  {
    if |vtxs| > 0 {
      var init := vtxs[..|vtxs| - 1];
      VerticesExact(init);
      assert forall i :: 0 <= i < |init| ==> init[i] == vtxs[i];
    }
  }

  /** Vertex `i` is reported exactly when it has a `w` other than 1. */
  lemma {:induction false} WWarningsExact(vtxs: seq<Tuple>, i: nat)
    ensures UnusedW(i) in WWarnings(vtxs) <==> i < |vtxs| && HasW(vtxs[i])
    decreases |vtxs|
  {
    if |vtxs| > 0 {
      var init := vtxs[..|vtxs| - 1];
      WWarningsExact(init, i);
      if i < |init| { assert init[i] == vtxs[i]; }
    }
  }

  lemma WWarningsSnoc(vtxs: seq<Tuple>, t: Tuple)
    ensures WWarnings(vtxs + [t]) == WWarnings(vtxs) + (if HasW(t) then [UnusedW(|vtxs|)] else [])
  {
    assert (vtxs + [t])[..|vtxs|] == vtxs;
  }

  lemma VerticesSnoc(vtxs: seq<Tuple>, t: Tuple, before: seq<Vertex>)
    requires VerticesSpec(vtxs) == Ok(before)
    ensures VerticesSpec(vtxs + [t]) == if Unpackable(t) then Ok(before + [Place(t)]) else Err(TupleArity(|t|))
  {
    assert (vtxs + [t])[..|vtxs|] == vtxs;
  }

  /** `_addVerticesToMesh`: each position tuple in turn, placed on
      Blender's axes, with a warning for each `w` other than 1; the first
      tuple that does not unpack ends it, after the warnings of the
      vertices before it. */
  method AddVertices(vtxs: seq<Tuple>) returns (verts: Result<seq<Vertex>>, warnings: seq<Warning>)
    ensures verts == VerticesSpec(vtxs)
    ensures verts.Ok? ==> warnings == WWarnings(vtxs)
    ensures verts.Err? ==>
      exists j :: && 0 <= j < |vtxs| && !Unpackable(vtxs[j])
                  && (forall i :: 0 <= i < j ==> Unpackable(vtxs[i]))
                  && warnings == WWarnings(vtxs[..j])
  {
    var placed: seq<Vertex> := [];
    warnings := [];
    for i := 0 to |vtxs|
      invariant VerticesSpec(vtxs[..i]) == Ok(placed)
      invariant warnings == WWarnings(vtxs[..i])
      invariant forall k :: 0 <= k < i ==> Unpackable(vtxs[k])
    {
      var t := vtxs[i];
      assert vtxs[..i + 1] == vtxs[..i] + [t];
      VerticesSnoc(vtxs[..i], t, placed);
      if !Unpackable(t) {
        VerticesFailFast(vtxs, i + 1);
        verts := Err(TupleArity(|t|));
        return;
      }
      WWarningsSnoc(vtxs[..i], t);
      if HasW(t) {
        warnings := warnings + [UnusedW(i)];
      }
      placed := placed + [Place(t)];
    }
    assert vtxs[..|vtxs|] == vtxs;
    verts := Ok(placed);
  }

  lemma {:induction false} VerticesFailFast(vtxs: seq<Tuple>, s: nat)
    requires s <= |vtxs| && VerticesSpec(vtxs[..s]).Err?
    ensures VerticesSpec(vtxs) == VerticesSpec(vtxs[..s])
    decreases |vtxs|
  {
    if s < |vtxs| {
      var init := vtxs[..|vtxs| - 1];
      assert init[..s] == vtxs[..s];
      VerticesFailFast(init, s);
    } else {
      assert vtxs[..s] == vtxs;
    }
  }

  // ---------------------------------------------------------------------
  // Faces
  // ---------------------------------------------------------------------

  function Min(a: int, b: int): int { if a <= b then a else b }

  /** `idxs[i:i+width]` for `i = 0, step, 2*step, ...` while `i < len(idxs)`;
      a trailing slice is cut short at the end of the buffer. */
  function Faces(idxs: seq<int>, step: nat, width: nat): seq<seq<int>>
    requires step > 0
    decreases |idxs|
  {
    if |idxs| == 0 then []
    else [idxs[..Min(width, |idxs|)]] + Faces(idxs[Min(step, |idxs|)..], step, width)
  }

  /** There are ceil(len/step) faces. */
  lemma {:induction false} FacesCount(idxs: seq<int>, step: nat, width: nat)
    requires step > 0
    ensures |Faces(idxs, step, width)| == (|idxs| + step - 1) / step
    decreases |idxs|
  {
    if |idxs| > 0 {
      var rest := idxs[Min(step, |idxs|)..];
      FacesCount(rest, step, width);
      if step >= |idxs| {
        CeilOne(|idxs|, step);
      } else {
        assert |idxs| == |rest| + step;
        CeilShift(|rest|, step);
      }
    }
  }

  lemma CeilOne(n: int, s: int)
    requires 0 < n <= s
    ensures (n + s - 1) / s == 1
  {
    DivUnique(n + s - 1, s, 1, n - 1);
  }

  lemma CeilShift(m: nat, s: int)
    requires s > 0
    ensures (m + s + s - 1) / s == (m + s - 1) / s + 1
  {
    var q, r := (m + s - 1) / s, (m + s - 1) % s;
    assert (q + 1) * s == q * s + s;
    DivUnique(m + s + s - 1, s, q + 1, r);
  }

  /** Face `k` is the slice starting at `k*step`, `width` long or cut
      short at the end. */
  lemma {:induction false} FacesAt(idxs: seq<int>, step: nat, width: nat, k: nat)
    requires step > 0 && k < |Faces(idxs, step, width)|
    ensures k * step < |idxs| && Faces(idxs, step, width)[k] == idxs[k * step .. Min(k * step + width, |idxs|)]
    decreases |idxs|
  {
    var rest := idxs[Min(step, |idxs|)..];
    assert Faces(idxs, step, width) == [idxs[..Min(width, |idxs|)]] + Faces(rest, step, width);
    if k > 0 {
      assert Faces(idxs, step, width)[k] == Faces(rest, step, width)[k - 1];
      FacesAt(rest, step, width, k - 1);
      assert step < |idxs|;
      FacesAtNext(idxs, step, width, k);
    }
  }

  /** Face `k - 1` of what follows the first face is face `k` of the whole. */
  lemma FacesAtNext(idxs: seq<int>, step: nat, width: nat, k: nat)
    requires 0 < step < |idxs| && k > 0 && (k - 1) * step < |idxs| - step
    ensures k * step < |idxs|
    ensures idxs[step..][(k - 1) * step .. Min((k - 1) * step + width, |idxs| - step)]
         == idxs[k * step .. Min(k * step + width, |idxs|)]
  {
    var j := (k - 1) * step;
    assert j + step == k * step;
    SliceOfSuffix(idxs, step, j, Min(j + width, |idxs| - step));
  }

  lemma SliceOfSuffix(s: seq<int>, d: nat, a: nat, b: nat)
    requires d <= |s| && a <= b <= |s| - d
    ensures s[d..][a..b] == s[d + a .. d + b]
  {
  }

  /** `n / s == q` whenever `n == q*s + r` with `0 <= r < s`. */
  lemma DivUnique(n: int, s: int, q: int, r: int)
    requires s > 0 && 0 <= r < s && n == q * s + r
    ensures n / s == q
  {
    var q', r' := n / s, n % s;
    assert (q - q') * s == r' - r;
    MulBound(q - q', s);
  }

  lemma MulBound(a: int, s: int)
    requires s > 0
    ensures a >= 1 ==> a * s >= s
    ensures a <= -1 ==> a * s <= -s
  {
  }

  /** Faces that do not overlap, laid end to end, give back the index
      buffer. */
  lemma {:induction false} FacesFlatten(idxs: seq<int>, width: nat)
    requires width > 0
    ensures Flatten(Faces(idxs, width, width)) == idxs
    decreases |idxs|
  {
    if |idxs| > 0 {
      var m := Min(width, |idxs|);
      FacesFlatten(idxs[m..], width);
      assert idxs[..m] + idxs[m..] == idxs;
      FlattenCons(idxs[..m], Faces(idxs[m..], width, width));
    }
  }

  function Flatten(xss: seq<seq<int>>): seq<int> {
    if |xss| == 0 then [] else xss[0] + Flatten(xss[1..])
  }

  lemma FlattenCons(xs: seq<int>, xss: seq<seq<int>>)
    ensures Flatten([xs] + xss) == xs + Flatten(xss)
  {
    assert ([xs] + xss)[1..] == xss;
  }

  /** `_createFacesBasic`: the strided slices of the index buffer. */
  method CreateFacesBasic(idxs: seq<int>, step: nat, width: nat) returns (faces: seq<seq<int>>)
    requires step > 0
    ensures faces == Faces(idxs, step, width)
  {
    faces := [];
    var i := 0;
    while i < |idxs|
      invariant 0 <= i
      invariant faces + Faces(idxs[Min(i, |idxs|)..], step, width) == Faces(idxs, step, width)
      decreases |idxs| - i
    {
      var rest := idxs[i..];
      assert Faces(rest, step, width) == [rest[..Min(width, |rest|)]] + Faces(rest[Min(step, |rest|)..], step, width);
      assert rest[..Min(width, |rest|)] == idxs[i..Min(i + width, |idxs|)];
      assert rest[Min(step, |rest|)..] == idxs[Min(i + step, |idxs|)..];
      faces := faces + [idxs[i..Min(i + width, |idxs|)]];
      i := i + step;
    }
    assert idxs[Min(i, |idxs|)..] == [];
  }

  // ---------------------------------------------------------------------
  // UV layer names
  // ---------------------------------------------------------------------

  function Digit(d: nat): char
    requires d < 10
  {
    (48 + d) as char
  }

  /** `'%d' % n`. */
  function Decimal(n: nat): (s: string)
    ensures |s| >= 1
    decreases n
  {
    if n < 10 then [Digit(n)] else Decimal(n / 10) + [Digit(n % 10)]
  }

  /** Different numbers print differently. */
  lemma {:induction false} DecimalInjective(a: nat, b: nat)
    requires Decimal(a) == Decimal(b)
    ensures a == b
    decreases a
  {
    if a >= 10 && b >= 10 {
      var da := Decimal(a / 10);
      var db := Decimal(b / 10);
      assert Decimal(a)[..|da|] == da && Decimal(b)[..|db|] == db;
      assert Digit(a % 10) == Decimal(a)[|Decimal(a)| - 1] == Digit(b % 10);
      DecimalInjective(a / 10, b / 10);
    } else {
      assert |Decimal(a)| == 1 <==> a < 10;
      assert |Decimal(b)| == 1 <==> b < 10;
      assert Digit(a) == Decimal(a)[0];
    }
  }

  /** `'_u%d' % idx`. */
  function UvName(idx: nat): string {
    "_u" + Decimal(idx)
  }

  lemma UvNameInjective(a: nat, b: nat)
    requires UvName(a) == UvName(b)
    ensures a == b
  {
    assert UvName(a)[2..] == Decimal(a) && UvName(b)[2..] == Decimal(b);
    DecimalInjective(a, b);
  }

  /** A UV layer: its attribute name, the values, and the divisor its
      coordinates are scaled by. */
  datatype UvLayer = UvLayer(name: string, data: seq<Tuple>, divisor: real)

  /** `layers` are the first `|layers|` names of the walk, each present,
      with its values and its divisor. */
  predicate Walked(attrBuffers: map<string, seq<Tuple>>, divisor: string -> Result<real>, layers: seq<UvLayer>) {
    forall j :: 0 <= j < |layers| ==>
      UvName(j) in attrBuffers && divisor(UvName(j)).Ok?
      && layers[j] == UvLayer(UvName(j), attrBuffers[UvName(j)], divisor(UvName(j)).value)
  }

  lemma WalkedSnoc(attrBuffers: map<string, seq<Tuple>>, divisor: string -> Result<real>, layers: seq<UvLayer>, d: real)
    requires Walked(attrBuffers, divisor, layers)
    requires UvName(|layers|) in attrBuffers && divisor(UvName(|layers|)) == Ok(d)
    ensures Walked(attrBuffers, divisor, layers + [UvLayer(UvName(|layers|), attrBuffers[UvName(|layers|)], d)])
  {
  }

  /** `_addUvMap`'s name walk: `_u0`, `_u1`, ... while the dict has the
      name; each layer's divisor comes from `divisor`, whose failure ends
      the walk. */
  method UvLayers(attrBuffers: map<string, seq<Tuple>>, divisor: string -> Result<real>)
    returns (r: Result<seq<UvLayer>>)
    ensures r.Ok? ==> Walked(attrBuffers, divisor, r.value) && UvName(|r.value|) !in attrBuffers
    ensures r.Err? ==>
      exists layers :: Walked(attrBuffers, divisor, layers)
        && UvName(|layers|) in attrBuffers && divisor(UvName(|layers|)) == Err(r.error)
  {
    var layers: seq<UvLayer> := [];
    var idx := 0;
    while true
      invariant idx == |layers|
      invariant Seen(idx) <= attrBuffers.Keys
      invariant Walked(attrBuffers, divisor, layers)
      decreases |attrBuffers.Keys - Seen(idx)|
    {
      var attr := UvName(idx);
      if attr !in attrBuffers {
        return Ok(layers);
      }
      var data := attrBuffers[attr];
      var vMax := divisor(attr);
      if vMax.Err? {
        return Err(vMax.error);
      }
      SeenStep(idx);
      Shrinks(attrBuffers.Keys, Seen(idx), attr);
      WalkedSnoc(attrBuffers, divisor, layers, vMax.value);
      layers := layers + [UvLayer(attr, data, vMax.value)];
      idx := idx + 1;
    }
  }

  /** The names the walk has looked up before `idx`. */
  ghost function Seen(idx: nat): set<string> {
    set j: nat | j < idx :: UvName(j)
  }

  lemma SeenStep(idx: nat)
    ensures Seen(idx + 1) == Seen(idx) + {UvName(idx)}
    ensures UvName(idx) !in Seen(idx)
  {
    if UvName(idx) in Seen(idx) {
      var j: nat :| j < idx && UvName(j) == UvName(idx);
      UvNameInjective(j, idx);
    }
  }

  lemma Shrinks(keys: set<string>, seen: set<string>, x: string)
    requires x in keys && x !in seen
    ensures |keys - (seen + {x})| < |keys - seen|
  {
    var a := keys - (seen + {x});
    assert keys - seen == a + {x};
  }
}
