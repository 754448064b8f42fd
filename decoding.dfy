/** TPMRawToTPM of io_mesh_tpm/tpm_types.py: the interpretation of raw
    blocks as typed TPM entities.

    The specification is `Decode`, a left fold of `LoadStep` over the blocks
    followed by the TPM constructor. `LoadStep` first strips one pair of
    enclosing double quotes from the block's identifier and from every
    property value (`UnquoteBlock`), then hands the block to the loader for
    its type. The method `TPMRawToTPM` is the source's loop: it rewrites each
    block of the caller's array in place before loading it, so a decode that
    raises leaves the blocks up to and including the failing one unquoted. */
module Decoding {
  import opened Errors
  import opened Quoting
  import opened Vectors
  import opened RawFormat
  import opened Entities
  import opened Patterns

  // ---------------------------------------------------------------------------
  // Unquoting

  function UnquoteProperty(p: Property): (r: Property)
    ensures r.key == p.key
    ensures Quoted(p.value) ==> EncloseInQuotes(r.value) == p.value
    ensures !Quoted(p.value) ==> r.value == p.value
  {
    if Quoted(p.value) then EncloseOfChopped(p.value); Property(p.key, ChopQuotes(p.value).0)
    else Property(p.key, p.value)
  }

  function UnquoteIdentifier(id: Option<string>): (r: Option<string>)
    ensures r.Some? <==> id.Some?
    ensures id.Some? && Quoted(id.value) ==> EncloseInQuotes(r.value) == id.value
    ensures id.Some? && !Quoted(id.value) ==> r == id
  {
    if id.None? then None
    else if Quoted(id.value) then EncloseOfChopped(id.value); Some(ChopQuotes(id.value).0)
    else id
  }

  function UnquoteProperties(ps: seq<Property>): (r: seq<Property>)
    ensures |r| == |ps|
    ensures forall i :: 0 <= i < |ps| ==> r[i] == UnquoteProperty(ps[i])
  {
    seq(|ps|, i requires 0 <= i < |ps| => UnquoteProperty(ps[i]))
  }

  /** The block as the loaders see it. */
  function UnquoteBlock(b: Block): (r: Block)
    ensures r.blockType == b.blockType
    ensures r.identifier == UnquoteIdentifier(b.identifier)
    ensures r.properties == UnquoteProperties(b.properties)
  {
    Block(b.blockType, UnquoteIdentifier(b.identifier), UnquoteProperties(b.properties))
  }

  // ---------------------------------------------------------------------------
  // `dict(block.properties)`

  /** Later pairs overwrite earlier ones. */
  function Dict(ps: seq<Property>): map<string, string>
    decreases |ps|
  {
    if ps == [] then map[] else Dict(ps[..|ps| - 1])[ps[|ps| - 1].key := ps[|ps| - 1].value]
  }

  /** `stringDict.get(key)`. */
  function Get(ps: seq<Property>, key: string): Option<string> {
    var d := Dict(ps);
    if key in d then Some(d[key]) else None
  }

  /** `stringDict[key]`, a KeyError when absent. */
  function Lookup(ps: seq<Property>, key: string): (r: Result<string>)
    ensures r.Err? ==> r.error == MissingKey(key)
  {
    Need(Get(ps, key), MissingKey(key))
  }

  // ---------------------------------------------------------------------------
  // Loaders, one per block type (the block is already unquoted)

  function FileInfoOf(b: Block): Result<FileInfo> {
    var ps := b.properties;
    var formatVersion :- Lookup(ps, "formatversion");
    MakeFileInfo(Some(formatVersion), Get(ps, "name"), Get(ps, "version"), Get(ps, "source"),
                 Get(ps, "date"), Get(ps, "comments"))
  }

  /** Position, rotation and scale are converted before the mesh name is
      looked up, so their errors come first. */
  function InstanceOf(b: Block): Result<Instance> {
    var ps := b.properties;
    var positionText :- Lookup(ps, "position");
    var position :- ParseVector(positionText);
    var rotationText :- Lookup(ps, "rotation");
    var rotation :- ParseVector(rotationText);
    var scaleText :- Lookup(ps, "scale");
    var scale :- ParseFloat(scaleText);
    var mesh :- Lookup(ps, "mesh");
    MakeInstance(b.identifier, Some(mesh), Some(position), Some(rotation), Some(scale))
  }

  function MaterialOf(b: Block): Result<Material> {
    var ps := b.properties;
    MakeMaterial(b.identifier, Get(ps, "colormap"), Get(ps, "bumpmap"), Get(ps, "opacitymap"))
  }

  function BoneOf(b: Block): Result<Bone> {
    var ps := b.properties;
    var positionText :- Lookup(ps, "position");
    var position :- ParseVector(positionText);
    var rotationText :- Lookup(ps, "rotation");
    var rotation :- ParseVector(rotationText);
    MakeBone(b.identifier, position, rotation)
  }

  /** The lists a mesh or skin block accumulates. */
  datatype MeshLists = MeshLists(
    materialNames: seq<string>,
    vertices: seq<Vector>,
    vertexBoneIndices: seq<int>,
    textureCoords: seq<Vector>,
    normals: seq<Vector>,
    faces: seq<Face>)

  const NoLists := MeshLists([], [], [], [], [], [])

  /** One iteration of the property loop of a mesh or skin block. */
  function MeshProperty(skin: bool, lists: MeshLists, p: Property): Result<MeshLists> {
    if p.key == "m" then
      Ok(lists.(materialNames := lists.materialNames + [p.value]))
    else if p.key == "v" then
      if skin then
        var m :- Need(SkinVertex(p.value), BadSkinVertex(p.value));
        var v :- ParseVector(m.0);
        Ok(lists.(vertices := lists.vertices + [v], vertexBoneIndices := lists.vertexBoneIndices + [m.1]))
      else
        var v :- ParseVector(p.value);
        Ok(lists.(vertices := lists.vertices + [v]))
    else if p.key == "t" then
      var v :- ParseVector(p.value);
      Ok(lists.(textureCoords := lists.textureCoords + [v]))
    else if p.key == "n" then
      var v :- ParseVector(p.value);
      Ok(lists.(normals := lists.normals + [v]))
    else if p.key == "f" then
      var ix :- Need(FaceEntry(p.value), BadFace(p.value));
      var f :- MakeFace(ix[0..3], ix[3..6], ix[6..9], ix[9]);
      Ok(lists.(faces := lists.faces + [f]))
    else
      Err(UnknownMeshProperty(p.key))
  }

  function MeshStep(skin: bool): (MeshLists, Property) -> Result<MeshLists> {
    (lists, p) => MeshProperty(skin, lists, p)
  }

  predicate IsMeshType(blockType: string) {
    blockType == "mesh" || blockType == "skin"
  }

  function MeshOf(b: Block): Result<Mesh>
    requires IsMeshType(b.blockType)
  {
    var l :- Fold(MeshStep(b.blockType == "skin"), NoLists, b.properties);
    if b.blockType == "mesh" then
      MakeMesh(b.identifier, l.materialNames, l.vertices, l.textureCoords, l.normals, l.faces)
    else
      MakeSkin(b.identifier, l.materialNames, l.vertices, l.vertexBoneIndices, l.textureCoords, l.normals, l.faces)
  }

  // ---------------------------------------------------------------------------
  // The block loop

  /** What the loop has collected so far. */
  datatype Loaded = Loaded(
    fileInfo: Option<FileInfo>,
    materials: seq<Material>,
    meshes: seq<Mesh>,
    instances: seq<Instance>,
    bones: seq<Bone>)

  const Nothing := Loaded(None, [], [], [], [])

  function LoadBlock(acc: Loaded, b: Block): Result<Loaded> {
    if b.blockType == "fileinfo" then
      if acc.fileInfo.Some? then Err(MultipleFileInfo)
      else
        var fi :- FileInfoOf(b);
        Ok(acc.(fileInfo := Some(fi)))
    else if b.blockType == "instance" then
      var x :- InstanceOf(b);
      Ok(acc.(instances := acc.instances + [x]))
    else if b.blockType == "material" then
      var x :- MaterialOf(b);
      Ok(acc.(materials := acc.materials + [x]))
    else if IsMeshType(b.blockType) then
      var x :- MeshOf(b);
      Ok(acc.(meshes := acc.meshes + [x]))
    else if b.blockType == "bone" then
      var x :- BoneOf(b);
      Ok(acc.(bones := acc.bones + [x]))
    else
      Err(UnexpectedBlockType(b.blockType))
  }

  /** One iteration of the block loop: unquote, then load. */
  function LoadStep(acc: Loaded, b: Block): Result<Loaded> {
    LoadBlock(acc, UnquoteBlock(b))
  }

  /** What TPMRawToTPM returns for the blocks `bs`. */
  function Decode(bs: seq<Block>): Result<TPM> {
    var acc :- Fold(LoadStep, Nothing, bs);
    MakeTPM(acc.fileInfo, acc.materials, acc.meshes, acc.instances, acc.bones)
  }

  // ---------------------------------------------------------------------------
  // The imperative loops

  /** One iteration of the property loop of a mesh or skin block: append to
      the list the key names, or raise. */
  method AddMeshProperty(skin: bool, lists: MeshLists, p: Property) returns (r: Result<MeshLists>)
    ensures r == MeshProperty(skin, lists, p)
  {
    if p.key == "m" {
      return Ok(lists.(materialNames := lists.materialNames + [p.value]));
    } else if p.key == "v" {
      if skin {
        var m := SkinVertex(p.value);
        if m.None? {
          return Err(BadSkinVertex(p.value));
        }
        var v := VectorStringToVector(m.value.0);
        if v.Err? {
          return Err(v.error);
        }
        return Ok(lists.(vertices := lists.vertices + [v.value],
                         vertexBoneIndices := lists.vertexBoneIndices + [m.value.1]));
      }
      var v := VectorStringToVector(p.value);
      if v.Err? {
        return Err(v.error);
      }
      return Ok(lists.(vertices := lists.vertices + [v.value]));
    } else if p.key == "t" {
      var v := VectorStringToVector(p.value);
      if v.Err? {
        return Err(v.error);
      }
      return Ok(lists.(textureCoords := lists.textureCoords + [v.value]));
    } else if p.key == "n" {
      var v := VectorStringToVector(p.value);
      if v.Err? {
        return Err(v.error);
      }
      return Ok(lists.(normals := lists.normals + [v.value]));
    } else if p.key == "f" {
      var m := FaceEntry(p.value);
      if m.None? {
        return Err(BadFace(p.value));
      }
      var ix := m.value;
      var f := MakeFace(ix[0..3], ix[3..6], ix[6..9], ix[9]);
      return Ok(lists.(faces := lists.faces + [f.value]));
    }
    return Err(UnknownMeshProperty(p.key));
  }

  /** The property loop of a mesh or skin block, then the constructor. */
  method LoadMesh(b: Block) returns (r: Result<Mesh>)
    requires IsMeshType(b.blockType)
    ensures r == MeshOf(b)
  {
    var skin := b.blockType == "skin";
    var ps := b.properties;
    var lists := NoLists;
    var j := 0;
    while j < |ps|
      invariant 0 <= j <= |ps|
      invariant Fold(MeshStep(skin), NoLists, ps[..j]) == Ok(lists)
    {
      FoldPrefixStep(MeshStep(skin), NoLists, ps, j);
      var next := AddMeshProperty(skin, lists, ps[j]);
      if next.Err? {
        FoldStopsAtError(MeshStep(skin), NoLists, ps, j + 1);
        return Err(next.error);
      }
      lists := next.value;
      j := j + 1;
    }
    FoldWhole(MeshStep(skin), NoLists, ps);
    if b.blockType == "mesh" {
      r := MakeMesh(b.identifier, lists.materialNames, lists.vertices, lists.textureCoords, lists.normals, lists.faces);
    } else {
      r := MakeSkin(b.identifier, lists.materialNames, lists.vertices, lists.vertexBoneIndices,
                    lists.textureCoords, lists.normals, lists.faces);
    }
  }

  /** The type dispatch for one unquoted block. */
  method AddBlock(acc: Loaded, b: Block) returns (r: Result<Loaded>)
    ensures r == LoadBlock(acc, b)
  {
    if b.blockType == "fileinfo" {
      if acc.fileInfo.Some? {
        return Err(MultipleFileInfo);
      }
      var fi := FileInfoOf(b);
      if fi.Err? {
        return Err(fi.error);
      }
      return Ok(acc.(fileInfo := Some(fi.value)));
    } else if b.blockType == "instance" {
      var x := InstanceOf(b);
      if x.Err? {
        return Err(x.error);
      }
      return Ok(acc.(instances := acc.instances + [x.value]));
    } else if b.blockType == "material" {
      var x := MaterialOf(b);
      if x.Err? {
        return Err(x.error);
      }
      return Ok(acc.(materials := acc.materials + [x.value]));
    } else if IsMeshType(b.blockType) {
      var x := LoadMesh(b);
      if x.Err? {
        return Err(x.error);
      }
      return Ok(acc.(meshes := acc.meshes + [x.value]));
    } else if b.blockType == "bone" {
      var x := BoneOf(b);
      if x.Err? {
        return Err(x.error);
      }
      return Ok(acc.(bones := acc.bones + [x.value]));
    }
    return Err(UnexpectedBlockType(b.blockType));
  }

  /** Strip the quotes of one block: its identifier when it has one, then
      each property value in turn. */
  method Unquote(b: Block) returns (u: Block)
    ensures u == UnquoteBlock(b)
  {
    var identifier := b.identifier;
    if identifier.Some? {
      identifier := Some(ChopQuotes(identifier.value).0);
    }
    var ps := b.properties;
    var j := 0;
    while j < |ps|
      invariant 0 <= j <= |ps| == |b.properties|
      invariant forall k :: 0 <= k < j ==> ps[k] == UnquoteProperty(b.properties[k])
      invariant forall k :: j <= k < |ps| ==> ps[k] == b.properties[k]
    {
      ps := ps[j := Property(ps[j].key, ChopQuotes(ps[j].value).0)];
      j := j + 1;
    }
    u := Block(b.blockType, identifier, ps);
  }

  /** Interpret the blocks of `raw`, rewriting each visited block with its
      quotes stripped. */
  method TPMRawToTPM(raw: array<Block>) returns (r: Result<TPM>)
    modifies raw
    ensures r == Decode(old(raw[..]))
    ensures forall k :: 0 <= k < raw.Length ==>
              raw[k] == (if k < Reached(LoadStep, Nothing, old(raw[..])) then UnquoteBlock(old(raw[..])[k]) else old(raw[..])[k])
  {
    ghost var bs := raw[..];
    var acc := Nothing;
    var i := 0;
    while i < raw.Length
      invariant 0 <= i <= raw.Length
      invariant Fold(LoadStep, Nothing, bs[..i]) == Ok(acc)
      invariant forall k :: 0 <= k < raw.Length ==> raw[k] == (if k < i then UnquoteBlock(bs[k]) else bs[k])
    {
      FoldPrefixStep(LoadStep, Nothing, bs, i);
      var block := Unquote(raw[i]);
      raw[i] := block;
      assert forall k :: 0 <= k < raw.Length ==> raw[k] == (if k < i + 1 then UnquoteBlock(bs[k]) else bs[k]);
      var next := AddBlock(acc, block);
      if next.Err? {
        ReachedAt(LoadStep, Nothing, bs, i);
        FoldStopsAtError(LoadStep, Nothing, bs, i + 1);
        return Err(next.error);
      }
      acc := next.value;
      i := i + 1;
    }
    FoldWhole(LoadStep, Nothing, bs);
    ReachedAll(LoadStep, Nothing, bs);
    r := MakeTPM(acc.fileInfo, acc.materials, acc.meshes, acc.instances, acc.bones);
  }
}
