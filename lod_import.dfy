/** The LOD importer's own logic: which face-building method a level of
    detail's primitive topology selects, the faces it makes, and the UV
    divisor with its default. */
module LodImport {
  import opened Results
  import opened Collab
  import opened MeshImport

  /** A face-building method's stride through the index buffer and the
      number of indices per face. */
  datatype Topology = Topology(step: nat, width: nat)

  /** The `_createFaces_<fmt>` methods the importer has. `line_strip` and
      `line_loop` are bound to the triangles method. */
  function TopologyOf(primFmt: string): (r: Option<Topology>)
    ensures r.Some? <==> primFmt in KnownTopologies
    ensures r.Some? ==> 1 <= r.value.step <= r.value.width
  {
    if primFmt == "points" then Some(Topology(1, 1))
    else if primFmt == "lines" then Some(Topology(2, 2))
    else if primFmt == "triangles" then Some(Topology(3, 3))
    else if primFmt == "triangle_strip" then Some(Topology(1, 3))
    else if primFmt == "quads" then Some(Topology(4, 4))
    else if primFmt == "line_strip" || primFmt == "line_loop" then Some(Topology(3, 3))
    else None
  }

  const KnownTopologies: set<string> :=
    {"points", "lines", "triangles", "triangle_strip", "quads", "line_strip", "line_loop"}

  /** Exactly the seven names select a method; every method steps forward
      and takes at least one index per face; the two line aliases behave as
      triangles. */
  lemma TopologyTable(primFmt: string)
    ensures TopologyOf(primFmt).Some? <==> primFmt in KnownTopologies
    ensures TopologyOf(primFmt).Some? ==> 1 <= TopologyOf(primFmt).value.step <= TopologyOf(primFmt).value.width
    ensures primFmt == "line_strip" || primFmt == "line_loop" ==> TopologyOf(primFmt) == TopologyOf("triangles")
  {
  }

  /** `_createFaces`: the faces of the selected method, or
      UnsupportedFormatError for a topology without one. */
  method CreateFaces(primFmt: string, idxs: seq<int>) returns (r: Result<seq<seq<int>>>)
    ensures TopologyOf(primFmt).None? ==> r == Err(UnsupportedFormat(primFmt))
    ensures TopologyOf(primFmt).Some? ==>
      r == Ok(Faces(idxs, TopologyOf(primFmt).value.step, TopologyOf(primFmt).value.width))
  {
    var t := TopologyOf(primFmt);
    if t.None? {
      return Err(UnsupportedFormat(primFmt));
    }
    var faces := CreateFacesBasic(idxs, t.value.step, t.value.width);
    return Ok(faces);
  }

  /** Every supported topology but the strip cuts the index buffer into
      faces that use each index once, in order. */
  lemma FacesUseEachIndexOnce(primFmt: string, idxs: seq<int>)
    requires TopologyOf(primFmt).Some? && primFmt != "triangle_strip"
    ensures var t := TopologyOf(primFmt).value;
      Flatten(Faces(idxs, t.step, t.width)) == idxs
  {
    FacesFlatten(idxs, TopologyOf(primFmt).value.width);
  }

  /** A triangle strip makes one face per index: the index and up to two
      after it. */
  lemma StripFaces(idxs: seq<int>)
    ensures var fs := Faces(idxs, 1, 3);
      |fs| == |idxs| && forall k :: 0 <= k < |idxs| ==> fs[k] == idxs[k..Min(k + 3, |idxs|)]
  {
    FacesCount(idxs, 1, 3);
    forall k | 0 <= k < |idxs| ensures Faces(idxs, 1, 3)[k] == idxs[k..Min(k + 3, |idxs|)] {
      FacesAt(idxs, 1, 3, k);
    }
  }

  /** `format.get('max', 1)` on the attribute of that name. */
  function UvDivisor(attrsByName: map<string, Attribute>, name: string): (r: Result<real>)
    ensures name !in attrsByName ==> r == Err(KeyError(name))
    ensures r.Ok? <==> name in attrsByName && attrsByName[name].format.Described?
    ensures r.Ok? && attrsByName[name].format.max.Some? ==> r.value == attrsByName[name].format.max.value
    ensures r.Ok? && attrsByName[name].format.max.None? ==> r.value == 1.0
  {
    if name !in attrsByName then Err(KeyError(name))
    else
      match attrsByName[name].format
      case Plain(_) => Err(NotADict)
      case Described(_, _, max) => Ok(if max.Some? then max.value else 1.0)
  }

  /** `_addUvMap`: layers `_u0`, `_u1`, ... for as long as the attribute
      buffers have the name, each scaled by its format's `max` or 1. */
  method AddUvMap(attrBuffers: map<string, seq<Tuple>>, attrsByName: map<string, Attribute>)
    returns (r: Result<seq<UvLayer>>)
    ensures r.Ok? ==> Walked(attrBuffers, name => UvDivisor(attrsByName, name), r.value) && UvName(|r.value|) !in attrBuffers
    ensures r.Err? ==>
      exists layers :: Walked(attrBuffers, name => UvDivisor(attrsByName, name), layers)
        && UvName(|layers|) in attrBuffers && UvDivisor(attrsByName, UvName(|layers|)) == Err(r.error)
  {
    r := UvLayers(attrBuffers, name => UvDivisor(attrsByName, name));
  }
}
