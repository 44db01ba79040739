/** The model importer's own logic: the FVTX a shape uses, its faces as
    fixed triples, and the UV divisor without a default. */
module ModelImport {
  import opened Results
  import opened Collab
  import opened MeshImport
  import opened Bytes
  import Reader
  import Shape
  import LodImport

  /** `fmdl.fvtxs[fshp.header['fvtx_idx']]`. */
  function ShapeFvtx<T>(fvtxs: seq<T>, fvtxIdx: nat): (r: Result<T>)
    ensures r.Ok? <==> fvtxIdx < |fvtxs|
    ensures r.Ok? ==> r.value == fvtxs[fvtxIdx]
    ensures r.Err? ==> r.error == IndexError(fvtxIdx, |fvtxs|)
  {
    if fvtxIdx < |fvtxs| then Ok(fvtxs[fvtxIdx]) else Err(IndexError(fvtxIdx, |fvtxs|))
  }

  /** The shape's FVTX is the one its decoded header's `fvtx_idx` names,
      the 16-bit number at byte 0x62 of the header; an index past the
      model's FVTXs is an IndexError. */
  lemma ShapeFvtxOfHeader<T>(data: seq<byte>, order: Order, pos: int, h: Shape.FshpHeader, fvtxs: seq<T>)
    requires Shape.DecodeFshpHeader(data, order, pos) == Ok(h)
    ensures Reader.ReadUInt(data, order, pos + 0x62, 2) == Ok(h.FvtxIdx())
    ensures h.FvtxIdx() < |fvtxs| ==> ShapeFvtx(fvtxs, h.FvtxIdx()) == Ok(fvtxs[h.FvtxIdx()])
    ensures h.FvtxIdx() >= |fvtxs| ==> ShapeFvtx(fvtxs, h.FvtxIdx()) == Err(IndexError(h.FvtxIdx(), |fvtxs|))
  {
    Shape.FshpFieldAt(data, order, pos, h, 0x62, 2);
  }

  /** `_importShape`'s faces: `idxs[i:i+3]` for `i = 0, 3, 6, ...`,
      whatever topology the level of detail names. */
  method ShapeFaces(idxs: seq<int>) returns (faces: seq<seq<int>>)
    ensures faces == Faces(idxs, 3, 3)
    ensures Flatten(faces) == idxs
    ensures |faces| == (|idxs| + 2) / 3
  {
    faces := CreateFacesBasic(idxs, 3, 3);
    FacesFlatten(idxs, 3);
    FacesCount(idxs, 3, 3);
  }

  /** The triples agree with the LOD importer's faces exactly for the
      topologies it also builds as triangles. */
  lemma TriplesAsTriangles(primFmt: string, idxs: seq<int>)
    ensures LodImport.TopologyOf(primFmt) == Some(LodImport.Topology(3, 3)) <==>
      primFmt in {"triangles", "line_strip", "line_loop"}
    ensures primFmt in {"triangles", "line_strip", "line_loop"} ==>
      LodImport.TopologyOf(primFmt).Some? &&
      Faces(idxs, LodImport.TopologyOf(primFmt).value.step, LodImport.TopologyOf(primFmt).value.width) == Faces(idxs, 3, 3)
  {
  }

  /** For points the two importers differ: the LOD importer makes one
      one-index face per index, the triples one face per three, so as soon
      as there are two indices the faces are not the same. */
  lemma {:induction false} TriplesIgnorePoints(idxs: seq<int>)
    ensures LodImport.TopologyOf("points") == Some(LodImport.Topology(1, 1))
    ensures |Faces(idxs, 1, 1)| == |idxs| && forall k :: 0 <= k < |idxs| ==> Faces(idxs, 1, 1)[k] == [idxs[k]]
    ensures |Faces(idxs, 3, 3)| == (|idxs| + 2) / 3
    ensures |idxs| >= 2 ==> Faces(idxs, 3, 3) != Faces(idxs, 1, 1)
  {
    FacesCount(idxs, 1, 1);
    FacesCount(idxs, 3, 3);
    forall k | 0 <= k < |idxs| ensures Faces(idxs, 1, 1)[k] == [idxs[k]] {
      FacesAt(idxs, 1, 1, k);
      assert idxs[k..k + 1] == [idxs[k]];
    }
  }

  /** `format['max']` on the attribute of that name: no default. */
  function StrictUvDivisor(attrsByName: map<string, Attribute>, name: string): (r: Result<real>)
    ensures name !in attrsByName ==> r == Err(KeyError(name))
    ensures r.Ok? <==> && name in attrsByName && attrsByName[name].format.Described?
                       && attrsByName[name].format.max.Some?
    ensures r.Ok? ==> r.value == attrsByName[name].format.max.value
  {
    if name !in attrsByName then Err(KeyError(name))
    else
      match attrsByName[name].format
      case Plain(_) => Err(NotADict)
      case Described(_, _, max) => if max.Some? then Ok(max.value) else Err(KeyError("max"))
  }

  /** The two divisors agree whenever the format has a `max`; without one
      the LOD importer divides by 1 where this importer fails. */
  lemma DivisorsCompared(attrsByName: map<string, Attribute>, name: string)
    ensures StrictUvDivisor(attrsByName, name).Ok? ==>
      LodImport.UvDivisor(attrsByName, name) == StrictUvDivisor(attrsByName, name)
    ensures StrictUvDivisor(attrsByName, name).Err? && LodImport.UvDivisor(attrsByName, name).Ok? <==>
      name in attrsByName && attrsByName[name].format.Described? && attrsByName[name].format.max.None?
    ensures StrictUvDivisor(attrsByName, name).Err? && LodImport.UvDivisor(attrsByName, name).Ok? ==>
      StrictUvDivisor(attrsByName, name) == Err(KeyError("max")) && LodImport.UvDivisor(attrsByName, name) == Ok(1.0)
  {
  }

  /** `_addUvMap`: layers `_u0`, `_u1`, ... for as long as the attribute
      buffers have the name, each scaled by its format's `max`. */
  method AddUvMap(attrBuffers: map<string, seq<Tuple>>, attrsByName: map<string, Attribute>)
    returns (r: Result<seq<UvLayer>>)
    ensures r.Ok? ==> Walked(attrBuffers, name => StrictUvDivisor(attrsByName, name), r.value) && UvName(|r.value|) !in attrBuffers
    ensures r.Err? ==>
      exists layers :: Walked(attrBuffers, name => StrictUvDivisor(attrsByName, name), layers)
        && UvName(|layers|) in attrBuffers && StrictUvDivisor(attrsByName, UvName(|layers|)) == Err(r.error)
  {
    r := UvLayers(attrBuffers, name => StrictUvDivisor(attrsByName, name));
  }
}
