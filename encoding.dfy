/** TPMToTPMRaw of io_mesh_tpm/tpm_types.py: the typed TPM written out as
    raw blocks.

    The specification is `Encode`: one fileinfo block, then one block per
    material, mesh, instance and bone, in that order. Strings are enclosed in
    double quotes, vectors and faces are written in the file's tuple syntax,
    instance and bone rotations pass through the caller's `toDegrees`, and
    a fileinfo or material field that is `None` or empty is not written. The
    methods are the source's loops, proved against the functions. */
module Encoding {
  import opened Errors
  import opened Text
  import opened Quoting
  import opened Vectors
  import opened RawFormat
  import opened Entities
  import opened Patterns

  // ---------------------------------------------------------------------------
  // The specification

  /** Python's truth value of an optional string: present and non-empty. */
  predicate Truthy(o: Option<string>) {
    o.Some? && o.value != []
  }

  /** `[key, value]` when `o` is truthy, nothing otherwise. */
  function Optional(key: string, o: Option<string>, quote: bool): seq<Property> {
    if Truthy(o) then [Property(key, if quote then EncloseInQuotes(o.value) else o.value)] else []
  }

  function FileInfoProperties(fi: FileInfo): seq<Property> {
    [Property("formatversion", fi.formatVersion)] +
    Optional("name", fi.name, true) + Optional("version", fi.version, false) +
    Optional("source", fi.source, true) + Optional("date", fi.date, false) +
    Optional("comments", fi.comments, true)
  }

  function FileInfoBlock(fi: FileInfo): Block {
    Block("fileinfo", None, FileInfoProperties(fi))
  }

  function MaterialProperties(m: Material): seq<Property> {
    Optional("colormap", m.colourmap, true) + Optional("bumpmap", m.bumpmap, true) +
    Optional("opacitymap", m.opacitymap, true)
  }

  function MaterialBlock(m: Material): Block {
    Block("material", Some(EncloseInQuotes(m.name)), MaterialProperties(m))
  }

  function MaterialBlocks(ms: seq<Material>): (r: seq<Block>)
    ensures |r| == |ms|
    ensures forall i :: 0 <= i < |ms| ==> r[i] == MaterialBlock(ms[i])
  {
    seq(|ms|, i requires 0 <= i < |ms| => MaterialBlock(ms[i]))
  }

  function NameProperties(names: seq<string>): (r: seq<Property>)
    ensures |r| == |names|
    ensures forall i :: 0 <= i < |names| ==> r[i] == Property("m", EncloseInQuotes(names[i]))
  {
    seq(|names|, i requires 0 <= i < |names| => Property("m", EncloseInQuotes(names[i])))
  }

  function VertexProperty(v: Vector): Result<Property> {
    var text :- FormatLeading(v, 3);
    Ok(Property("v", text))
  }

  function SkinVertexProperty(vb: (Vector, int)): Result<Property> {
    var text :- FormatLeading(vb.0, 3);
    Ok(Property("v", SkinVertexText(text, vb.1)))
  }

  function TexCoordProperty(v: Vector): Result<Property> {
    var text :- FormatLeading(v, 2);
    Ok(Property("t", text))
  }

  function NormalProperty(v: Vector): Result<Property> {
    var text :- FormatLeading(v, 3);
    Ok(Property("n", text))
  }

  function FaceProperty(f: Face): Property {
    Property("f", FaceText(f.vertexIndices, f.texCoordIndices, f.normalIndices, f.materialIndex))
  }

  function FaceProperties(fs: seq<Face>): (r: seq<Property>)
    ensures |r| == |fs|
    ensures forall i :: 0 <= i < |fs| ==> r[i] == FaceProperty(fs[i])
  {
    Map(FaceProperty, fs)
  }

  /** `zip(vertices, vertexBoneIndices)`. */
  function Zip(vs: seq<Vector>, bones: seq<int>): (r: seq<(Vector, int)>)
    requires |vs| == |bones|
    ensures |r| == |vs|
    ensures forall i :: 0 <= i < |vs| ==> r[i] == (vs[i], bones[i])
  {
    seq(|vs|, i requires 0 <= i < |vs| => (vs[i], bones[i]))
  }

  /** The `v` lines of a mesh; a skin whose two lists differ in length
      raises before any is written. */
  function VertexProperties(m: Mesh): Result<seq<Property>> {
    match m.kind
    case Plain => MapAll(VertexProperty, m.vertices)
    case Skin(bones) =>
      if |m.vertices| != |bones| then Err(ExportSkinMismatch(m.name, |m.vertices|, |bones|))
      else MapAll(SkinVertexProperty, Zip(m.vertices, bones))
  }

  /** The properties of a mesh block: materials, vertices, texture
      coordinates, normals, faces. */
  function MeshProperties(m: Mesh): Result<seq<Property>> {
    var vs :- VertexProperties(m);
    var ts :- MapAll(TexCoordProperty, m.textureCoords);
    var ns :- MapAll(NormalProperty, m.normals);
    Ok(NameProperties(m.materialNames) + vs + ts + ns + FaceProperties(m.faces))
  }

  function MeshBlock(m: Mesh): Result<Block> {
    var ps :- MeshProperties(m);
    Ok(Block(if m.kind.Skin? then "skin" else "mesh", Some(EncloseInQuotes(m.name)), ps))
  }

  function InstanceBlock(x: Instance, toDegrees: Vector -> Vector): Result<Block> {
    var p :- FormatLeading(x.position, 3);
    var r :- FormatLeading(toDegrees(x.rotation), 3);
    Ok(Block("instance", Some(EncloseInQuotes(x.name)),
             [Property("mesh", EncloseInQuotes(x.mesh)), Property("position", p),
              Property("rotation", r), Property("scale", x.scale)]))
  }

  function InstanceEncoder(toDegrees: Vector -> Vector): Instance -> Result<Block> {
    x => InstanceBlock(x, toDegrees)
  }

  function BoneBlock(b: Bone, toDegrees: Vector -> Vector): Result<Block> {
    var p :- FormatLeading(b.position, 3);
    var r :- FormatLeading(toDegrees(b.rotation), 3);
    Ok(Block("bone", Some(EncloseInQuotes(b.name)), [Property("position", p), Property("rotation", r)]))
  }

  function BoneEncoder(toDegrees: Vector -> Vector): Bone -> Result<Block> {
    b => BoneBlock(b, toDegrees)
  }

  /** What TPMToTPMRaw returns for `tpm`. */
  function Encode(tpm: TPM, toDegrees: Vector -> Vector): Result<seq<Block>> {
    var meshes :- MapAll(MeshBlock, tpm.meshes);
    var instances :- MapAll(InstanceEncoder(toDegrees), tpm.instances);
    var bones :- MapAll(BoneEncoder(toDegrees), tpm.bones);
    Ok([FileInfoBlock(tpm.fileInfo)] + MaterialBlocks(tpm.materials) + meshes + instances + bones)
  }

  // ---------------------------------------------------------------------------
  // When the encoder succeeds

  /** A mesh the encoder can write: every vector it indexes is long enough,
      and a skin has one bone index per vertex. */
  predicate MeshExportable(m: Mesh) {
    SkinParityHolds(m) &&
    (forall k :: 0 <= k < |m.vertices| ==> |m.vertices[k]| >= 3) &&
    (forall k :: 0 <= k < |m.textureCoords| ==> |m.textureCoords[k]| >= 2) &&
    (forall k :: 0 <= k < |m.normals| ==> |m.normals[k]| >= 3)
  }

  predicate PoseExportable(position: Vector, rotation: Vector, toDegrees: Vector -> Vector) {
    |position| >= 3 && |toDegrees(rotation)| >= 3
  }

  predicate Exportable(tpm: TPM, toDegrees: Vector -> Vector) {
    (forall i :: 0 <= i < |tpm.meshes| ==> MeshExportable(tpm.meshes[i])) &&
    (forall i :: 0 <= i < |tpm.instances| ==>
       PoseExportable(tpm.instances[i].position, tpm.instances[i].rotation, toDegrees)) &&
    (forall i :: 0 <= i < |tpm.bones| ==> PoseExportable(tpm.bones[i].position, tpm.bones[i].rotation, toDegrees))
  }

  lemma VertexPropertiesOk(m: Mesh)
    ensures VertexProperties(m).Ok? <==>
            SkinParityHolds(m) && forall k :: 0 <= k < |m.vertices| ==> |m.vertices[k]| >= 3
  {
    if m.kind.Skin? && |m.vertices| == |m.kind.vertexBoneIndices| {
      var z := Zip(m.vertices, m.kind.vertexBoneIndices);
      assert forall k :: 0 <= k < |z| ==> z[k].0 == m.vertices[k];
    }
  }

  /** A mesh is written exactly when it is exportable. */
  lemma MeshBlockOk(m: Mesh)
    ensures MeshBlock(m).Ok? <==> MeshExportable(m)
  {
    VertexPropertiesOk(m);
  }

  /** The encoder fails exactly when some mesh, instance or bone is not
      exportable. */
  lemma EncodeOk(tpm: TPM, toDegrees: Vector -> Vector)
    ensures Encode(tpm, toDegrees).Ok? <==> Exportable(tpm, toDegrees)
  {
    MeshesOk(tpm.meshes);
    InstancesOk(tpm.instances, toDegrees);
    BonesOk(tpm.bones, toDegrees);
  }

  lemma MeshesOk(ms: seq<Mesh>)
    ensures MapAll(MeshBlock, ms).Ok? <==> forall i :: 0 <= i < |ms| ==> MeshExportable(ms[i])
  {
    forall i | 0 <= i < |ms| ensures MeshBlock(ms[i]).Ok? <==> MeshExportable(ms[i]) {
      MeshBlockOk(ms[i]);
    }
  }

  lemma InstancesOk(xs: seq<Instance>, toDegrees: Vector -> Vector)
    ensures MapAll(InstanceEncoder(toDegrees), xs).Ok? <==>
            forall i :: 0 <= i < |xs| ==> PoseExportable(xs[i].position, xs[i].rotation, toDegrees)
  {
    forall i | 0 <= i < |xs|
      ensures InstanceEncoder(toDegrees)(xs[i]).Ok? <==> PoseExportable(xs[i].position, xs[i].rotation, toDegrees)
    {
      assert InstanceEncoder(toDegrees)(xs[i]) == InstanceBlock(xs[i], toDegrees);
    }
  }

  lemma BonesOk(xs: seq<Bone>, toDegrees: Vector -> Vector)
    ensures MapAll(BoneEncoder(toDegrees), xs).Ok? <==>
            forall i :: 0 <= i < |xs| ==> PoseExportable(xs[i].position, xs[i].rotation, toDegrees)
  {
    forall i | 0 <= i < |xs|
      ensures BoneEncoder(toDegrees)(xs[i]).Ok? <==> PoseExportable(xs[i].position, xs[i].rotation, toDegrees)
    {
      assert BoneEncoder(toDegrees)(xs[i]) == BoneBlock(xs[i], toDegrees);
    }
  }

  /** A skin whose vertex and bone-index counts differ is refused with the
      counts, once every mesh before it was written. */
  lemma SkinMismatchRefused(tpm: TPM, toDegrees: Vector -> Vector, i: nat)
    requires i < |tpm.meshes| && tpm.meshes[i].kind.Skin?
    requires |tpm.meshes[i].vertices| != |tpm.meshes[i].kind.vertexBoneIndices|
    requires forall j :: 0 <= j < i ==> MeshExportable(tpm.meshes[j])
    ensures Encode(tpm, toDegrees) ==
            Err(ExportSkinMismatch(tpm.meshes[i].name, |tpm.meshes[i].vertices|,
                                   |tpm.meshes[i].kind.vertexBoneIndices|))
  {
    forall j | 0 <= j < i ensures MeshBlock(tpm.meshes[j]).Ok? {
      MeshBlockOk(tpm.meshes[j]);
    }
    MapAllFirstError(MeshBlock, tpm.meshes, i);
  }

  /** The cut points of a five-part concatenation. */
  lemma SectionsAt<T>(all: seq<T>, p: seq<T>, q: seq<T>, r: seq<T>, s: seq<T>, t: seq<T>, o: nat, a: nat, b: nat, c: nat)
    requires all == p + q + r + s + t
    requires o == |p| && a == o + |q| && b == a + |r| && c == b + |s|
    ensures |all| == c + |t|
    ensures all[..o] == p && all[o..a] == q && all[a..b] == r && all[b..c] == s && all[c..] == t
  {
  }

  /** The fileinfo block comes first, followed by one block per material,
      in order. */
  lemma EncodeLayout(tpm: TPM, toDegrees: Vector -> Vector)
    requires Encode(tpm, toDegrees).Ok?
    ensures var bs := Encode(tpm, toDegrees).value;
      |bs| == 1 + |tpm.materials| + |tpm.meshes| + |tpm.instances| + |tpm.bones| &&
      bs[..1] == [FileInfoBlock(tpm.fileInfo)] &&
      bs[1..1 + |tpm.materials|] == MaterialBlocks(tpm.materials)
  {
    EncodeValue(tpm, toDegrees);
    var a := 1 + |tpm.materials|;
    var b := a + |tpm.meshes|;
    var c := b + |tpm.instances|;
    SectionsAt(Encode(tpm, toDegrees).value, [FileInfoBlock(tpm.fileInfo)], MaterialBlocks(tpm.materials),
               MapAll(MeshBlock, tpm.meshes).value, MapAll(InstanceEncoder(toDegrees), tpm.instances).value,
               MapAll(BoneEncoder(toDegrees), tpm.bones).value, 1, a, b, c);
  }

  /** The third of five sections, when it is the value of a `MapAll`. */
  lemma MiddleSection<X, T>(all: seq<T>, p: seq<T>, q: seq<T>, f: X -> Result<T>, xs: seq<X>, r: seq<T>, s: seq<T>, t: seq<T>, a: nat, b: nat)
    requires MapAll(f, xs) == Ok(r) && all == p + q + r + s + t
    requires a == |p| + |q| && b == a + |xs|
    ensures b <= |all| && all[a..b] == r
  {
    SectionsAt(all, p, q, r, s, t, |p|, a, b, b + |s|);
  }

  /** After the materials come the blocks of the meshes, in order. */
  lemma EncodeMeshSection(tpm: TPM, toDegrees: Vector -> Vector, bs: seq<Block>)
    requires Encode(tpm, toDegrees) == Ok(bs)
    ensures 1 + |tpm.materials| + |tpm.meshes| <= |bs|
    ensures MapAll(MeshBlock, tpm.meshes).Ok?
    ensures bs[1 + |tpm.materials|..1 + |tpm.materials| + |tpm.meshes|] == MapAll(MeshBlock, tpm.meshes).value
  {
    EncodeValue(tpm, toDegrees);
    MiddleSection(bs, [FileInfoBlock(tpm.fileInfo)], MaterialBlocks(tpm.materials), MeshBlock, tpm.meshes,
                  MapAll(MeshBlock, tpm.meshes).value, MapAll(InstanceEncoder(toDegrees), tpm.instances).value,
                  MapAll(BoneEncoder(toDegrees), tpm.bones).value, 1 + |tpm.materials|, 1 + |tpm.materials| + |tpm.meshes|);
  }

  /** After the meshes come the blocks of the instances, in order. */
  lemma EncodeInstanceSection(tpm: TPM, toDegrees: Vector -> Vector, bs: seq<Block>)
    requires Encode(tpm, toDegrees) == Ok(bs)
    ensures 1 + |tpm.materials| + |tpm.meshes| + |tpm.instances| <= |bs|
    ensures MapAll(InstanceEncoder(toDegrees), tpm.instances).Ok?
    ensures bs[1 + |tpm.materials| + |tpm.meshes|..1 + |tpm.materials| + |tpm.meshes| + |tpm.instances|] ==
            MapAll(InstanceEncoder(toDegrees), tpm.instances).value
  {
    EncodeValue(tpm, toDegrees);
    var a := 1 + |tpm.materials| + |tpm.meshes|;
    SectionsAt(bs, [FileInfoBlock(tpm.fileInfo)], MaterialBlocks(tpm.materials), MapAll(MeshBlock, tpm.meshes).value,
               MapAll(InstanceEncoder(toDegrees), tpm.instances).value, MapAll(BoneEncoder(toDegrees), tpm.bones).value,
               1, 1 + |tpm.materials|, a, a + |tpm.instances|);
  }

  /** The blocks of the bones come last, in order. */
  lemma EncodeBoneSection(tpm: TPM, toDegrees: Vector -> Vector, bs: seq<Block>)
    requires Encode(tpm, toDegrees) == Ok(bs)
    ensures 1 + |tpm.materials| + |tpm.meshes| + |tpm.instances| <= |bs|
    ensures MapAll(BoneEncoder(toDegrees), tpm.bones).Ok?
    ensures bs[1 + |tpm.materials| + |tpm.meshes| + |tpm.instances|..] == MapAll(BoneEncoder(toDegrees), tpm.bones).value
  {
    EncodeValue(tpm, toDegrees);
    var a := 1 + |tpm.materials| + |tpm.meshes|;
    SectionsAt(bs, [FileInfoBlock(tpm.fileInfo)], MaterialBlocks(tpm.materials), MapAll(MeshBlock, tpm.meshes).value,
               MapAll(InstanceEncoder(toDegrees), tpm.instances).value, MapAll(BoneEncoder(toDegrees), tpm.bones).value,
               1, 1 + |tpm.materials|, a, a + |tpm.instances|);
  }

  lemma EncodeValue(tpm: TPM, toDegrees: Vector -> Vector)
    requires Encode(tpm, toDegrees).Ok?
    ensures MapAll(MeshBlock, tpm.meshes).Ok? && MapAll(InstanceEncoder(toDegrees), tpm.instances).Ok? &&
            MapAll(BoneEncoder(toDegrees), tpm.bones).Ok?
    ensures Encode(tpm, toDegrees).value ==
            [FileInfoBlock(tpm.fileInfo)] + MaterialBlocks(tpm.materials) + MapAll(MeshBlock, tpm.meshes).value +
            MapAll(InstanceEncoder(toDegrees), tpm.instances).value + MapAll(BoneEncoder(toDegrees), tpm.bones).value
  {
  }

  lemma HasKeyConcat(a: seq<Property>, b: seq<Property>, key: string)
    ensures HasKey(a + b, key) <==> HasKey(a, key) || HasKey(b, key)
  {
    if HasKey(a + b, key) {
      var i :| 0 <= i < |a + b| && (a + b)[i].key == key;
      if i >= |a| {
        assert b[i - |a|] == (a + b)[i];
      }
    }
    if HasKey(a, key) {
      var i :| 0 <= i < |a| && a[i].key == key;
      assert (a + b)[i] == a[i];
    }
    if HasKey(b, key) {
      var i :| 0 <= i < |b| && b[i].key == key;
      assert (a + b)[|a| + i] == b[i];
    }
  }

  lemma HasKeyOptional(key: string, o: Option<string>, quote: bool, k: string)
    ensures HasKey(Optional(key, o, quote), k) <==> Truthy(o) && key == k
  {
    if Truthy(o) {
      assert Optional(key, o, quote)[0].key == key;
    }
  }

  /** formatversion is always written, first; every other fileinfo field
      exactly when it is truthy, the free-text ones quoted. */
  lemma FileInfoFields(fi: FileInfo)
    ensures FileInfoProperties(fi)[0] == Property("formatversion", fi.formatVersion)
    ensures HasKey(FileInfoProperties(fi), "name") <==> Truthy(fi.name)
    ensures HasKey(FileInfoProperties(fi), "version") <==> Truthy(fi.version)
    ensures HasKey(FileInfoProperties(fi), "source") <==> Truthy(fi.source)
    ensures HasKey(FileInfoProperties(fi), "date") <==> Truthy(fi.date)
    ensures HasKey(FileInfoProperties(fi), "comments") <==> Truthy(fi.comments)
  {
    FileInfoKey(fi, "name");
    FileInfoKey(fi, "version");
    FileInfoKey(fi, "source");
    FileInfoKey(fi, "date");
    FileInfoKey(fi, "comments");
  }

  lemma FileInfoKey(fi: FileInfo, k: string)
    ensures HasKey(FileInfoProperties(fi), k) <==>
            k == "formatversion" || (k == "name" && Truthy(fi.name)) || (k == "version" && Truthy(fi.version)) ||
            (k == "source" && Truthy(fi.source)) || (k == "date" && Truthy(fi.date)) ||
            (k == "comments" && Truthy(fi.comments))
  {
    var p0 := [Property("formatversion", fi.formatVersion)];
    var p1 := p0 + Optional("name", fi.name, true);
    var p2 := p1 + Optional("version", fi.version, false);
    var p3 := p2 + Optional("source", fi.source, true);
    var p4 := p3 + Optional("date", fi.date, false);
    assert HasKey(p0, k) <==> k == "formatversion" by {
      if HasKey(p0, k) {
        var i :| 0 <= i < |p0| && p0[i].key == k;
      }
      if k == "formatversion" {
        assert p0[0].key == k;
      }
    }
    HasKeyConcat(p0, Optional("name", fi.name, true), k);
    HasKeyOptional("name", fi.name, true, k);
    HasKeyConcat(p1, Optional("version", fi.version, false), k);
    HasKeyOptional("version", fi.version, false, k);
    HasKeyConcat(p2, Optional("source", fi.source, true), k);
    HasKeyOptional("source", fi.source, true, k);
    HasKeyConcat(p3, Optional("date", fi.date, false), k);
    HasKeyOptional("date", fi.date, false, k);
    HasKeyConcat(p4, Optional("comments", fi.comments, true), k);
    HasKeyOptional("comments", fi.comments, true, k);
  }

  /** A material map is written exactly when it is truthy. */
  lemma MaterialFields(m: Material)
    ensures HasKey(MaterialProperties(m), "colormap") <==> Truthy(m.colourmap)
    ensures HasKey(MaterialProperties(m), "bumpmap") <==> Truthy(m.bumpmap)
    ensures HasKey(MaterialProperties(m), "opacitymap") <==> Truthy(m.opacitymap)
  {
    MaterialKey(m, "colormap");
    MaterialKey(m, "bumpmap");
    MaterialKey(m, "opacitymap");
  }

  lemma MaterialKey(m: Material, k: string)
    ensures HasKey(MaterialProperties(m), k) <==>
            (k == "colormap" && Truthy(m.colourmap)) || (k == "bumpmap" && Truthy(m.bumpmap)) ||
            (k == "opacitymap" && Truthy(m.opacitymap))
  {
    var p1 := Optional("colormap", m.colourmap, true);
    var p2 := p1 + Optional("bumpmap", m.bumpmap, true);
    HasKeyOptional("colormap", m.colourmap, true, k);
    HasKeyConcat(p1, Optional("bumpmap", m.bumpmap, true), k);
    HasKeyOptional("bumpmap", m.bumpmap, true, k);
    HasKeyConcat(p2, Optional("opacitymap", m.opacitymap, true), k);
    HasKeyOptional("opacitymap", m.opacitymap, true, k);
  }

  // ---------------------------------------------------------------------------
  // The source's loops

  /** An `if x: props.append([key, …])` step. */
  lemma AppendOptional(ps: seq<Property>, key: string, o: Option<string>, quote: bool)
    ensures ps + Optional(key, o, quote) ==
            if Truthy(o) then ps + [Property(key, if quote then EncloseInQuotes(o.value) else o.value)] else ps
  {
    if !Truthy(o) {
      assert ps + [] == ps;
    }
  }

  method FileInfoToBlock(fi: FileInfo) returns (b: Block)
    ensures b == FileInfoBlock(fi)
  {
    var ps := [Property("formatversion", fi.formatVersion)];
    AppendOptional(ps, "name", fi.name, true);
    if Truthy(fi.name) {
      ps := ps + [Property("name", EncloseInQuotes(fi.name.value))];
    }
    AppendOptional(ps, "version", fi.version, false);
    if Truthy(fi.version) {
      ps := ps + [Property("version", fi.version.value)];
    }
    AppendOptional(ps, "source", fi.source, true);
    if Truthy(fi.source) {
      ps := ps + [Property("source", EncloseInQuotes(fi.source.value))];
    }
    AppendOptional(ps, "date", fi.date, false);
    if Truthy(fi.date) {
      ps := ps + [Property("date", fi.date.value)];
    }
    AppendOptional(ps, "comments", fi.comments, true);
    if Truthy(fi.comments) {
      ps := ps + [Property("comments", EncloseInQuotes(fi.comments.value))];
    }
    return Block("fileinfo", None, ps);
  }

  method MaterialToBlock(m: Material) returns (b: Block)
    ensures b == MaterialBlock(m)
  {
    var ps: seq<Property> := [];
    AppendOptional(ps, "colormap", m.colourmap, true);
    if Truthy(m.colourmap) {
      ps := ps + [Property("colormap", EncloseInQuotes(m.colourmap.value))];
    }
    assert ps == Optional("colormap", m.colourmap, true);
    AppendOptional(ps, "bumpmap", m.bumpmap, true);
    if Truthy(m.bumpmap) {
      ps := ps + [Property("bumpmap", EncloseInQuotes(m.bumpmap.value))];
    }
    assert ps == Optional("colormap", m.colourmap, true) + Optional("bumpmap", m.bumpmap, true);
    AppendOptional(ps, "opacitymap", m.opacitymap, true);
    if Truthy(m.opacitymap) {
      ps := ps + [Property("opacitymap", EncloseInQuotes(m.opacitymap.value))];
    }
    return Block("material", Some(EncloseInQuotes(m.name)), ps);
  }

  /** `for v in vs: props.append([key, f"(…)"])`, raising on a short vector. */
  method AppendVectors(key: string, n: nat, vs: seq<Vector>, f: Vector -> Result<Property>) returns (r: Result<seq<Property>>)
    requires forall v :: f(v) == (if |v| < n then Err(ComponentIndexOutOfRange) else Ok(Property(key, FormatVector(v[..n]))))
    ensures r == MapAll(f, vs)
  {
    var ps: seq<Property> := [];
    var i := 0;
    while i < |vs|
      invariant 0 <= i <= |vs|
      invariant MapAll(f, vs[..i]) == Ok(ps)
    {
      MapAllPrefixStep(f, vs, i);
      var text := FormatLeading(vs[i], n);
      if text.Err? {
        MapAllFirstErrorAt(f, vs, i);
        return Err(text.error);
      }
      ps := ps + [Property(key, text.value)];
      i := i + 1;
    }
    assert vs[..i] == vs;
    return Ok(ps);
  }

  /** The prefix before a failing element succeeded, so the loop's error is
      that element's. */
  lemma MapAllFirstErrorAt<X, Y>(f: X -> Result<Y>, xs: seq<X>, i: nat)
    requires i < |xs| && MapAll(f, xs[..i]).Ok? && f(xs[i]).Err?
    ensures MapAll(f, xs) == Err(f(xs[i]).error)
  {
    forall j | 0 <= j < i ensures f(xs[j]).Ok? {
      assert xs[..i][j] == xs[j];
    }
    MapAllFirstError(f, xs, i);
  }

  method SkinVerticesToProperties(vs: seq<Vector>, bones: seq<int>) returns (r: Result<seq<Property>>)
    requires |vs| == |bones|
    ensures r == MapAll(SkinVertexProperty, Zip(vs, bones))
  {
    var z := Zip(vs, bones);
    var ps: seq<Property> := [];
    var i := 0;
    while i < |vs|
      invariant 0 <= i <= |vs|
      invariant MapAll(SkinVertexProperty, z[..i]) == Ok(ps)
    {
      MapAllPrefixStep(SkinVertexProperty, z, i);
      var text := FormatLeading(vs[i], 3);
      if text.Err? {
        MapAllFirstErrorAt(SkinVertexProperty, z, i);
        return Err(text.error);
      }
      ps := ps + [Property("v", SkinVertexText(text.value, bones[i]))];
      i := i + 1;
    }
    assert z[..i] == z;
    return Ok(ps);
  }

  method NamesToProperties(names: seq<string>) returns (ps: seq<Property>)
    ensures ps == NameProperties(names)
  {
    ps := [];
    for i := 0 to |names|
      invariant ps == NameProperties(names[..i])
    {
      ps := ps + [Property("m", EncloseInQuotes(names[i]))];
    }
    assert names[..|names|] == names;
  }

  method FacesToProperties(faces: seq<Face>) returns (ps: seq<Property>)
    ensures ps == FaceProperties(faces)
  {
    ps := [];
    for i := 0 to |faces|
      invariant ps == FaceProperties(faces[..i])
    {
      MapPrefixStep(FaceProperty, faces, i);
      ps := ps + [FaceProperty(faces[i])];
    }
    assert faces[..|faces|] == faces;
  }

  /** The vertex lines, after the skin's re-check of its two counts. */
  method VerticesToProperties(m: Mesh) returns (r: Result<seq<Property>>)
    ensures r == VertexProperties(m)
  {
    if m.kind.Skin? {
      if |m.vertices| != |m.kind.vertexBoneIndices| {
        return Err(ExportSkinMismatch(m.name, |m.vertices|, |m.kind.vertexBoneIndices|));
      }
      r := SkinVerticesToProperties(m.vertices, m.kind.vertexBoneIndices);
    } else {
      r := AppendVectors("v", 3, m.vertices, VertexProperty);
    }
  }

  method MeshToBlock(m: Mesh) returns (r: Result<Block>)
    ensures r == MeshBlock(m)
  {
    var ms := NamesToProperties(m.materialNames);
    var vs := VerticesToProperties(m);
    if vs.Err? {
      return Err(vs.error);
    }
    var ts := AppendVectors("t", 2, m.textureCoords, TexCoordProperty);
    if ts.Err? {
      return Err(ts.error);
    }
    var ns := AppendVectors("n", 3, m.normals, NormalProperty);
    if ns.Err? {
      return Err(ns.error);
    }
    var fs := FacesToProperties(m.faces);
    return Ok(Block(if m.kind.Skin? then "skin" else "mesh", Some(EncloseInQuotes(m.name)),
                    ms + vs.value + ts.value + ns.value + fs));
  }

  method InstanceToBlock(x: Instance, toDegrees: Vector -> Vector) returns (r: Result<Block>)
    ensures r == InstanceBlock(x, toDegrees)
  {
    var rotation := toDegrees(x.rotation);
    var ps := [Property("mesh", EncloseInQuotes(x.mesh))];
    var p := FormatLeading(x.position, 3);
    if p.Err? {
      return Err(p.error);
    }
    ps := ps + [Property("position", p.value)];
    var rt := FormatLeading(rotation, 3);
    if rt.Err? {
      return Err(rt.error);
    }
    ps := ps + [Property("rotation", rt.value), Property("scale", x.scale)];
    assert ps == [Property("mesh", EncloseInQuotes(x.mesh)), Property("position", p.value),
                  Property("rotation", rt.value), Property("scale", x.scale)];
    return Ok(Block("instance", Some(EncloseInQuotes(x.name)), ps));
  }

  method BoneToBlock(b: Bone, toDegrees: Vector -> Vector) returns (r: Result<Block>)
    ensures r == BoneBlock(b, toDegrees)
  {
    var rotation := toDegrees(b.rotation);
    var p := FormatLeading(b.position, 3);
    if p.Err? {
      return Err(p.error);
    }
    var rt := FormatLeading(rotation, 3);
    if rt.Err? {
      return Err(rt.error);
    }
    return Ok(Block("bone", Some(EncloseInQuotes(b.name)), [Property("position", p.value), Property("rotation", rt.value)]));
  }

  /** TPMToTPMRaw: the blocks appended one by one; an entity that cannot be
      written raises and nothing is returned. */
  method TPMToTPMRaw(tpm: TPM, toDegrees: Vector -> Vector) returns (r: Result<seq<Block>>)
    ensures r == Encode(tpm, toDegrees)
  {
    var fileInfo := FileInfoToBlock(tpm.fileInfo);
    var blocks := [fileInfo];
    for i := 0 to |tpm.materials|
      invariant blocks == [FileInfoBlock(tpm.fileInfo)] + MaterialBlocks(tpm.materials[..i])
    {
      var b := MaterialToBlock(tpm.materials[i]);
      blocks := blocks + [b];
    }
    assert tpm.materials[..|tpm.materials|] == tpm.materials;
    var head := blocks;
    var meshes := AppendMeshes(tpm.meshes);
    if meshes.Err? {
      return Err(meshes.error);
    }
    var instances := AppendInstances(tpm.instances, toDegrees);
    if instances.Err? {
      return Err(instances.error);
    }
    var bones := AppendBones(tpm.bones, toDegrees);
    if bones.Err? {
      return Err(bones.error);
    }
    return Ok(head + meshes.value + instances.value + bones.value);
  }

  method AppendMeshes(ms: seq<Mesh>) returns (r: Result<seq<Block>>)
    ensures r == MapAll(MeshBlock, ms)
  {
    var bs: seq<Block> := [];
    var i := 0;
    while i < |ms|
      invariant 0 <= i <= |ms|
      invariant MapAll(MeshBlock, ms[..i]) == Ok(bs)
    {
      MapAllPrefixStep(MeshBlock, ms, i);
      var b := MeshToBlock(ms[i]);
      if b.Err? {
        MapAllFirstErrorAt(MeshBlock, ms, i);
        return Err(b.error);
      }
      bs := bs + [b.value];
      i := i + 1;
    }
    assert ms[..i] == ms;
    return Ok(bs);
  }

  method AppendInstances(xs: seq<Instance>, toDegrees: Vector -> Vector) returns (r: Result<seq<Block>>)
    ensures r == MapAll(InstanceEncoder(toDegrees), xs)
  {
    var bs: seq<Block> := [];
    var i := 0;
    while i < |xs|
      invariant 0 <= i <= |xs|
      invariant MapAll(InstanceEncoder(toDegrees), xs[..i]) == Ok(bs)
    {
      MapAllPrefixStep(InstanceEncoder(toDegrees), xs, i);
      var b := InstanceToBlock(xs[i], toDegrees);
      if b.Err? {
        MapAllFirstErrorAt(InstanceEncoder(toDegrees), xs, i);
        return Err(b.error);
      }
      bs := bs + [b.value];
      i := i + 1;
    }
    assert xs[..i] == xs;
    return Ok(bs);
  }

  method AppendBones(xs: seq<Bone>, toDegrees: Vector -> Vector) returns (r: Result<seq<Block>>)
    ensures r == MapAll(BoneEncoder(toDegrees), xs)
  {
    var bs: seq<Block> := [];
    var i := 0;
    while i < |xs|
      invariant 0 <= i <= |xs|
      invariant MapAll(BoneEncoder(toDegrees), xs[..i]) == Ok(bs)
    {
      MapAllPrefixStep(BoneEncoder(toDegrees), xs, i);
      var b := BoneToBlock(xs[i], toDegrees);
      if b.Err? {
        MapAllFirstErrorAt(BoneEncoder(toDegrees), xs, i);
        return Err(b.error);
      }
      bs := bs + [b.value];
      i := i + 1;
    }
    assert xs[..i] == xs;
    return Ok(bs);
  }
}
