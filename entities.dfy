/** The typed TPM entities of io_mesh_tpm/tpm_types.py (class TPM and its
    nested classes) with the guards their constructors apply.

    A Python field that may hold `None` is an `Option`; a constructor that
    raises TPMException returns `Err`. The entities are never changed after
    construction, so they are values here. */
module Entities {
  import opened Errors
  import opened Vectors

  datatype FileInfo = FileInfo(
    formatVersion: string,
    name: Option<string>,
    version: Option<string>,
    source: Option<string>,
    date: Option<string>,
    comments: Option<string>)

  datatype Instance = Instance(name: string, mesh: string, position: Vector, rotation: Vector, scale: Component)

  datatype Material = Material(name: string, colourmap: Option<string>, bumpmap: Option<string>, opacitymap: Option<string>)

  /** Three 1-based indices. */
  type Index3 = s: seq<int> | |s| == 3 witness [1, 1, 1]

  datatype Face = Face(vertexIndices: Index3, texCoordIndices: Index3, normalIndices: Index3, materialIndex: int)

  /** `TPM.Mesh`, or its subclass `TPM.Skin` with one bone index per vertex. */
  datatype MeshKind = Plain | Skin(vertexBoneIndices: seq<int>)

  datatype Mesh = Mesh(
    name: string,
    materialNames: seq<string>,
    vertices: seq<Vector>,
    textureCoords: seq<Vector>,
    normals: seq<Vector>,
    faces: seq<Face>,
    kind: MeshKind)

  datatype Bone = Bone(name: string, position: Vector, rotation: Vector)

  datatype TPM = TPM(
    fileInfo: FileInfo,
    materials: seq<Material>,
    meshes: seq<Mesh>,
    instances: seq<Instance>,
    bones: seq<Bone>)

  /** A skin carries one bone index per vertex. */
  predicate SkinParityHolds(m: Mesh) {
    m.kind.Skin? ==> |m.kind.vertexBoneIndices| == |m.vertices|
  }

  function MakeFileInfo(formatVersion: Option<string>, name: Option<string>, version: Option<string>,
                        source: Option<string>, date: Option<string>, comments: Option<string>): (r: Result<FileInfo>)
    ensures r.Ok? <==> formatVersion.Some?
    ensures r.Err? ==> r.error == NoneField("FileInfo")
    ensures r.Ok? ==> r.value.formatVersion == formatVersion.value && r.value.name == name &&
                      r.value.version == version && r.value.source == source &&
                      r.value.date == date && r.value.comments == comments
  {
    if formatVersion.None? then Err(NoneField("FileInfo"))
    else Ok(FileInfo(formatVersion.value, name, version, source, date, comments))
  }

  /** `None in (name, mesh, position, rotation, scale)` raises. */
  function MakeInstance(name: Option<string>, mesh: Option<string>, position: Option<Vector>,
                        rotation: Option<Vector>, scale: Option<Component>): (r: Result<Instance>)
    ensures r.Ok? <==> name.Some? && mesh.Some? && position.Some? && rotation.Some? && scale.Some?
    ensures r.Err? ==> r.error == NoneField("Instance")
    ensures r.Ok? ==> r.value == Instance(name.value, mesh.value, position.value, rotation.value, scale.value)
  {
    if name.None? || mesh.None? || position.None? || rotation.None? || scale.None? then Err(NoneField("Instance"))
    else Ok(Instance(name.value, mesh.value, position.value, rotation.value, scale.value))
  }

  function MakeMaterial(name: Option<string>, colourmap: Option<string>, bumpmap: Option<string>,
                        opacitymap: Option<string>): (r: Result<Material>)
    ensures r.Ok? <==> name.Some?
    ensures r.Err? ==> r.error == NoneField("Material")
    ensures r.Ok? ==> r.value == Material(name.value, colourmap, bumpmap, opacitymap)
  {
    if name.None? then Err(NoneField("Material")) else Ok(Material(name.value, colourmap, bumpmap, opacitymap))
  }

  /** The three tuples are checked in order: vertex, texture coordinate,
      normal. */
  function MakeFace(vertexIndices: seq<int>, texCoordIndices: seq<int>, normalIndices: seq<int>,
                    materialIndex: int): (r: Result<Face>)
    ensures r.Ok? <==> |vertexIndices| == 3 && |texCoordIndices| == 3 && |normalIndices| == 3
    ensures |vertexIndices| != 3 ==> r == Err(FaceArity("vertex"))
    ensures |vertexIndices| == 3 && |texCoordIndices| != 3 ==> r == Err(FaceArity("texture coordinate"))
    ensures |vertexIndices| == 3 && |texCoordIndices| == 3 && |normalIndices| != 3 ==> r == Err(FaceArity("normal"))
    ensures r.Ok? ==> r.value.vertexIndices == vertexIndices && r.value.texCoordIndices == texCoordIndices &&
                      r.value.normalIndices == normalIndices && r.value.materialIndex == materialIndex
  {
    if |vertexIndices| != 3 then Err(FaceArity("vertex"))
    else if |texCoordIndices| != 3 then Err(FaceArity("texture coordinate"))
    else if |normalIndices| != 3 then Err(FaceArity("normal"))
    else Ok(Face(vertexIndices, texCoordIndices, normalIndices, materialIndex))
  }

  function MakeMesh(name: Option<string>, materialNames: seq<string>, vertices: seq<Vector>,
                    textureCoords: seq<Vector>, normals: seq<Vector>, faces: seq<Face>): (r: Result<Mesh>)
    ensures r.Ok? <==> name.Some?
    ensures r.Err? ==> r.error == NoneField("Mesh")
    ensures r.Ok? ==> r.value == Mesh(name.value, materialNames, vertices, textureCoords, normals, faces, Plain)
  {
    if name.None? then Err(NoneField("Mesh"))
    else Ok(Mesh(name.value, materialNames, vertices, textureCoords, normals, faces, Plain))
  }

  /** The Mesh guard runs first (`super().__init__`), then the parity
      check. */
  function MakeSkin(name: Option<string>, materialNames: seq<string>, vertices: seq<Vector>,
                    vertexBoneIndices: seq<int>, textureCoords: seq<Vector>, normals: seq<Vector>,
                    faces: seq<Face>): (r: Result<Mesh>)
    ensures r.Ok? <==> name.Some? && |vertexBoneIndices| == |vertices|
    ensures name.None? ==> r == Err(NoneField("Mesh"))
    ensures name.Some? && |vertexBoneIndices| != |vertices| ==> r == Err(SkinParity(|vertices|, |vertexBoneIndices|))
    ensures r.Ok? ==> SkinParityHolds(r.value) &&
                      r.value == Mesh(name.value, materialNames, vertices, textureCoords, normals, faces, Skin(vertexBoneIndices))
  {
    var m :- MakeMesh(name, materialNames, vertices, textureCoords, normals, faces);
    if |vertexBoneIndices| != |vertices| then Err(SkinParity(|vertices|, |vertexBoneIndices|))
    else Ok(m.(kind := Skin(vertexBoneIndices)))
  }

  function MakeBone(name: Option<string>, position: Vector, rotation: Vector): (r: Result<Bone>)
    ensures r.Ok? <==> name.Some?
    ensures r.Err? ==> r.error == NoneField("Bone")
    ensures r.Ok? ==> r.value == Bone(name.value, position, rotation)
  {
    if name.None? then Err(NoneField("Bone")) else Ok(Bone(name.value, position, rotation))
  }

  function MakeTPM(fileInfo: Option<FileInfo>, materials: seq<Material>, meshes: seq<Mesh>,
                   instances: seq<Instance>, bones: seq<Bone>): (r: Result<TPM>)
    ensures r.Ok? <==> fileInfo.Some?
    ensures r.Err? ==> r.error == MissingFileInfo
    ensures r.Ok? ==> r.value == TPM(fileInfo.value, materials, meshes, instances, bones)
  {
    if fileInfo.None? then Err(MissingFileInfo) else Ok(TPM(fileInfo.value, materials, meshes, instances, bones))
  }
}
