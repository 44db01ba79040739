/** The collaborators of the core whose code is not part of this model:
    the name dictionary, attribute, bone and LOD readers, the two
    section readers of the container, Shift-JIS decoding, `struct.unpack`
    and the attribute conversion functions. Each one is a function-typed
    parameter; only the shape of what it returns is fixed here. */
module Collab {
  import opened Bytes
  import opened Results

  /** A name dictionary as far as the core uses it: the name of the root's
      left child. */
  datatype NameDict = NameDict(offset: int, rootLeftName: string)

  /** A `struct` format string and the byte count `struct.calcsize` gives it. */
  datatype UnpackFmt = UnpackFmt(code: string, width: nat)

  /** An attribute's format: a bare format string, or a dict with an `fmt`
      entry and optional `func` and `max` entries. */
  datatype AttrFormat =
    | Plain(fmt: UnpackFmt)
    | Described(fmt: UnpackFmt, func: Option<string>, max: Option<real>)
  {
    function Unpack(): UnpackFmt {
      match this
      case Plain(f) => f
      case Described(f, _, _) => f
    }
  }

  datatype Attribute = Attribute(name: string, format: AttrFormat, bufIdx: nat, bufOffs: nat)

  datatype BoneRecord = BoneRecord(name: string, parentIdx: int)

  datatype Submesh = Submesh(idxs: seq<int>)

  /** A level of detail: its header's index count, index buffer, submeshes
      and primitive topology name. */
  datatype Lod = Lod(idxCnt: nat, idxBuf: seq<int>, submeshes: seq<Submesh>, primFmt: string)

  /** A top-level section object (embedded file or model) as its own reader
      returns it. */
  datatype Section = Section(name: string, offset: int, size: nat)

  /** A decoded attribute value (`struct.unpack` result, possibly converted). */
  type Tuple = seq<real>

  datatype Readers = Readers(
    dict: (seq<byte>, int) -> Result<NameDict>,
    attr: (seq<byte>, int) -> Result<Attribute>,
    attrSize: nat,
    bone: (seq<byte>, int) -> Result<BoneRecord>,
    boneSize: nat,
    buffer: (seq<byte>, nat, nat, int) -> Result<seq<byte>>,
    lod: (seq<byte>, int) -> Result<Lod>,
    lodSize: nat,
    embed: (seq<byte>, string, int) -> Result<Section>,
    embedSize: nat,
    model: (seq<byte>, string, int) -> Result<Section>,
    modelSize: nat,
    sjis: seq<byte> -> Option<string>,
    unpack: (UnpackFmt, seq<byte>) -> Tuple,
    convert: (string, Tuple) -> Tuple)
}
