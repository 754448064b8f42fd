/** Reading back what TPMToTPMRaw writes (io_mesh_tpm/tpm_types.py): the
    blocks `Encode` produces decode to the TPM that was encoded, up to what
    the file format does not carry.

    The format loses three things. A fileinfo or material field that is
    `None` or empty is not written, so it reads back as `None`. Only the
    leading three components of a vertex, normal, position or rotation and
    the leading two of a texture coordinate are written. Rotations are
    written through the caller's `toDegrees` and read back as written.
    `Normalize` applies exactly these losses. The round trip needs the
    values to be writable in the first place (`Wire`): components that are
    float literals, non-negative indices, and the few fields written without
    quotes not to look quoted. */
module RoundTrip {
  import opened Errors
  import opened Text
  import opened Quoting
  import opened Vectors
  import opened RawFormat
  import opened Entities
  import opened DecodeLaws
  import opened Patterns
  import opened Decoding
  import opened Encoding

  // ---------------------------------------------------------------------------
  // What survives the trip

  /** A vector whose leading `n` components are written and read back. */
  predicate WireVector(v: Vector, n: nat) {
    |v| >= n && forall k :: 0 <= k < n ==> WireComponent(v[k])
  }

  /** The leading `n` components, all of them when there are fewer. */
  function Truncate(v: Vector, n: nat): Vector {
    if |v| <= n then v else v[..n]
  }

  function TruncateAll(vs: seq<Vector>, n: nat): (r: seq<Vector>)
    ensures |r| == |vs|
    ensures forall i :: 0 <= i < |vs| ==> r[i] == Truncate(vs[i], n)
  {
    seq(|vs|, i requires 0 <= i < |vs| => Truncate(vs[i], n))
  }

  /** The regexes only match non-negative indices. */
  predicate FaceWire(f: Face) {
    NonNegative(f.vertexIndices) && NonNegative(f.texCoordIndices) && NonNegative(f.normalIndices) &&
    f.materialIndex >= 0
  }

  predicate VectorsWire(vs: seq<Vector>, n: nat) {
    forall k :: 0 <= k < |vs| ==> WireVector(vs[k], n)
  }

  predicate FacesWire(fs: seq<Face>) {
    forall k :: 0 <= k < |fs| ==> FaceWire(fs[k])
  }

  /** A skin has one non-negative bone index per vertex. */
  predicate BonesWire(m: Mesh) {
    m.kind.Skin? ==> |m.kind.vertexBoneIndices| == |m.vertices| && NonNegative(m.kind.vertexBoneIndices)
  }

  predicate MeshWire(m: Mesh) {
    VectorsWire(m.vertices, 3) && VectorsWire(m.textureCoords, 2) && VectorsWire(m.normals, 3) &&
    FacesWire(m.faces) && BonesWire(m)
  }

  function NormalMesh(m: Mesh): Mesh {
    m.(vertices := TruncateAll(m.vertices, 3), textureCoords := TruncateAll(m.textureCoords, 2),
       normals := TruncateAll(m.normals, 3))
  }

  // ---------------------------------------------------------------------------
  // One property

  /** The text of a wire vector is not quoted and parses back. */
  lemma LeadingRead(v: Vector, n: nat)
    requires n >= 1 && WireVector(v, n)
    ensures FormatLeading(v, n) == Ok(FormatVector(v[..n]))
    ensures !Quoted(FormatVector(v[..n]))
    ensures ParseVector(FormatVector(v[..n])) == Ok(Truncate(v, n))
  {
    ParseFormatVector(v[..n]);
    assert FormatVector(v[..n])[0] == '(';
    if |v| == n {
      assert v[..n] == v;
    }
  }

  /** The components of a wire vector hold no `)` and no newline. */
  lemma {:induction false} JoinOfWire(parts: seq<Component>)
    requires forall k :: 0 <= k < |parts| ==> WireComponent(parts[k])
    ensures ')' !in Join(parts, ',') && '\n' !in Join(parts, ',')
    decreases |parts|
  {
    if |parts| >= 1 {
      FloatLiteralChars(parts[0]);
      forall i | 0 <= i < |parts[0]| ensures parts[0][i] != ')' && parts[0][i] != '\n' {
        NumeralCharIsPlain(parts[0][i]);
      }
      if |parts| > 1 {
        JoinOfWire(parts[1..]);
      }
    }
  }

  /** Which list a vector key fills; `v` holds plain vectors outside a skin. */
  predicate VectorKey(key: string, skin: bool) {
    (key == "v" && !skin) || key == "t" || key == "n"
  }

  function AddVectors(l: MeshLists, key: string, ys: seq<Vector>): MeshLists {
    if key == "v" then l.(vertices := l.vertices + ys)
    else if key == "t" then l.(textureCoords := l.textureCoords + ys)
    else l.(normals := l.normals + ys)
  }

  // ---------------------------------------------------------------------------
  // The values of a mesh block, as its property loop reads them

  /** `p` is a vector value under `key` reading as `y`. */
  ghost predicate VectorRead(key: string, p: Property, y: Vector) {
    p.key == key && ParseVector(p.value) == Ok(y)
  }

  /** `p` is a skin vertex value reading as the vector and bone index `z`. */
  ghost predicate SkinRead(p: Property, z: (Vector, int)) {
    p.key == "v" && SkinVertex(p.value).Some? && SkinVertex(p.value).value.1 == z.1 &&
    ParseVector(SkinVertex(p.value).value.0) == Ok(z.0)
  }

  /** `p` is a face value reading as `f`. */
  ghost predicate FaceRead(p: Property, f: Face) {
    p.key == "f" && FaceEntry(p.value) == Some(FaceIndices(f))
  }

  ghost function VectorReads(key: string): (Property, Vector) -> bool {
    (p, y) => VectorRead(key, p, y)
  }

  function VectorsPut(key: string): (MeshLists, seq<Vector>) -> MeshLists {
    (l, ys) => AddVectors(l, key, ys)
  }

  function Firsts(zs: seq<(Vector, int)>): seq<Vector> {
    Map((z: (Vector, int)) => z.0, zs)
  }

  function Seconds(zs: seq<(Vector, int)>): seq<int> {
    Map((z: (Vector, int)) => z.1, zs)
  }

  function SkinPut(l: MeshLists, zs: seq<(Vector, int)>): MeshLists {
    l.(vertices := l.vertices + Firsts(zs), vertexBoneIndices := l.vertexBoneIndices + Seconds(zs))
  }

  function FacesPut(l: MeshLists, fs: seq<Face>): MeshLists {
    l.(faces := l.faces + fs)
  }

  lemma AppendEmpty<T>(a: seq<T>, b: seq<T>)
    requires b == []
    ensures a + b == a
  {
  }

  lemma SnocAssoc<T>(a: seq<T>, b: seq<T>, x: T)
    ensures a + b + [x] == a + (b + [x])
  {
  }

  lemma FirstsSnoc(zs: seq<(Vector, int)>, z: (Vector, int))
    ensures Firsts(zs + [z]) == Firsts(zs) + [z.0]
    ensures Seconds(zs + [z]) == Seconds(zs) + [z.1]
  {
    MapSnoc((z: (Vector, int)) => z.0, zs, z);
    MapSnoc((z: (Vector, int)) => z.1, zs, z);
  }

  lemma AppendToEmpty<T>(a: seq<T>, b: seq<T>)
    requires a == []
    ensures a + b == b
  {
  }

  /** The mesh keys are distinct, settled once so that a step lemma does not
      search for it. */
  lemma MeshKeys(k: string)
    ensures k == "m" ==> k != "v" && k != "t" && k != "n" && k != "f"
    ensures k == "v" ==> k != "m" && k != "t" && k != "n" && k != "f"
    ensures k == "t" ==> k != "m" && k != "v" && k != "n" && k != "f"
    ensures k == "n" ==> k != "m" && k != "v" && k != "t" && k != "f"
    ensures k == "f" ==> k != "m" && k != "v" && k != "t" && k != "n"
  {
  }

  /** A face is determined by its ten indices. */
  lemma FaceIndicesInjective(f: Face, g: Face)
    requires FaceIndices(f) == FaceIndices(g)
    ensures f == g
  {
    var ix := FaceIndices(f);
    assert ix[0..3] == f.vertexIndices == g.vertexIndices;
    assert ix[3..6] == f.texCoordIndices == g.texCoordIndices;
    assert ix[6..9] == f.normalIndices == g.normalIndices;
    assert ix[9] == f.materialIndex == g.materialIndex;
  }

  lemma VectorStep(skin: bool, key: string, l: MeshLists, done: seq<Vector>, p: Property, y: Vector)
    requires VectorKey(key, skin) && VectorRead(key, p, y)
    ensures MeshProperty(skin, AddVectors(l, key, done), p) == Ok(AddVectors(l, key, done + [y]))
  {
    MeshKeys(p.key);
    if key == "v" {
      SnocAssoc(l.vertices, done, y);
    } else if key == "t" {
      SnocAssoc(l.textureCoords, done, y);
    } else {
      SnocAssoc(l.normals, done, y);
    }
  }

  lemma VectorSteps(skin: bool, key: string)
    requires VectorKey(key, skin)
    ensures forall l, done, p, y | VectorReads(key)(p, y) ::
      MeshStep(skin)(VectorsPut(key)(l, done), p) == Ok(VectorsPut(key)(l, done + [y]))
  {
    forall l, done, p, y | VectorReads(key)(p, y)
      ensures MeshStep(skin)(VectorsPut(key)(l, done), p) == Ok(VectorsPut(key)(l, done + [y]))
    {
      VectorStep(skin, key, l, done, p, y);
    }
  }

  lemma SkinStep(l: MeshLists, done: seq<(Vector, int)>, p: Property, z: (Vector, int))
    requires SkinRead(p, z)
    ensures MeshProperty(true, SkinPut(l, done), p) == Ok(SkinPut(l, done + [z]))
  {
    MeshKeys(p.key);
    FirstsSnoc(done, z);
    SnocAssoc(l.vertices, Firsts(done), z.0);
    SnocAssoc(l.vertexBoneIndices, Seconds(done), z.1);
  }

  lemma SkinSteps()
    ensures forall l, done, p, z | SkinRead(p, z) :: MeshStep(true)(SkinPut(l, done), p) == Ok(SkinPut(l, done + [z]))
  {
    forall l, done, p, z | SkinRead(p, z) ensures MeshStep(true)(SkinPut(l, done), p) == Ok(SkinPut(l, done + [z])) {
      SkinStep(l, done, p, z);
    }
  }

  lemma FaceStep(skin: bool, l: MeshLists, done: seq<Face>, p: Property, f: Face)
    requires FaceRead(p, f)
    ensures MeshProperty(skin, FacesPut(l, done), p) == Ok(FacesPut(l, done + [f]))
  {
    MeshKeys(p.key);
    var ix := FaceEntry(p.value).value;
    FaceOfEntry(ix);
    FaceIndicesInjective(MakeFace(ix[0..3], ix[3..6], ix[6..9], ix[9]).value, f);
    SnocAssoc(l.faces, done, f);
  }

  lemma FaceSteps(skin: bool)
    ensures forall l, done, p, f | FaceRead(p, f) :: MeshStep(skin)(FacesPut(l, done), p) == Ok(FacesPut(l, done + [f]))
  {
    forall l, done, p, f | FaceRead(p, f) ensures MeshStep(skin)(FacesPut(l, done), p) == Ok(FacesPut(l, done + [f])) {
      FaceStep(skin, l, done, p, f);
    }
  }

  // ---------------------------------------------------------------------------
  // What the encoder writes for the lists of a mesh, and how the loop reads it

  lemma UnquoteConcat(a: seq<Property>, b: seq<Property>)
    ensures UnquoteProperties(a + b) == UnquoteProperties(a) + UnquoteProperties(b)
  {
  }

  lemma VectorsWritten(key: string, n: nat, f: Vector -> Result<Property>, vs: seq<Vector>)
    requires n >= 1
    requires forall v :: f(v) == (if |v| < n then Err(ComponentIndexOutOfRange) else Ok(Property(key, FormatVector(v[..n]))))
    requires VectorsWire(vs, n)
    ensures MapAll(f, vs).Ok?
    ensures var xs := UnquoteProperties(MapAll(f, vs).value);
      |xs| == |vs| && forall k :: 0 <= k < |xs| ==> VectorReads(key)(xs[k], TruncateAll(vs, n)[k])
  {
    assert forall k :: 0 <= k < |vs| ==> f(vs[k]).Ok?;
    var ps := MapAll(f, vs).value;
    var xs := UnquoteProperties(ps);
    forall k | 0 <= k < |xs| ensures VectorReads(key)(xs[k], TruncateAll(vs, n)[k]) {
      assert f(vs[k]) == Ok(ps[k]);
      LeadingRead(vs[k], n);
    }
  }

  lemma VectorsRead(skin: bool, key: string, n: nat, f: Vector -> Result<Property>, l: MeshLists, vs: seq<Vector>)
    requires VectorKey(key, skin) && n >= 1
    requires forall v :: f(v) == (if |v| < n then Err(ComponentIndexOutOfRange) else Ok(Property(key, FormatVector(v[..n]))))
    requires VectorsWire(vs, n)
    ensures MapAll(f, vs).Ok?
    ensures Fold(MeshStep(skin), l, UnquoteProperties(MapAll(f, vs).value)) == Ok(AddVectors(l, key, TruncateAll(vs, n)))
  {
    VectorsWritten(key, n, f, vs);
    VectorSteps(skin, key);
    FoldRelated(MeshStep(skin), VectorsPut(key), l, UnquoteProperties(MapAll(f, vs).value), TruncateAll(vs, n), VectorReads(key));
    AppendEmpty(l.vertices, []);
    AppendEmpty(l.textureCoords, []);
    AppendEmpty(l.normals, []);
  }

  lemma SkinWritten(vs: seq<Vector>, bones: seq<int>)
    requires |vs| == |bones| && NonNegative(bones)
    requires VectorsWire(vs, 3)
    ensures MapAll(SkinVertexProperty, Zip(vs, bones)).Ok?
    ensures var xs := UnquoteProperties(MapAll(SkinVertexProperty, Zip(vs, bones)).value);
      |xs| == |vs| && forall k :: 0 <= k < |xs| ==> SkinRead(xs[k], Zip(TruncateAll(vs, 3), bones)[k])
  {
    var z := Zip(vs, bones);
    forall k | 0 <= k < |z| ensures SkinVertexProperty(z[k]).Ok? {
      SkinVertexText3(vs[k], bones[k]);
    }
    var ps := MapAll(SkinVertexProperty, z).value;
    var xs := UnquoteProperties(ps);
    forall k | 0 <= k < |xs| ensures SkinRead(xs[k], Zip(TruncateAll(vs, 3), bones)[k]) {
      assert SkinVertexProperty(z[k]) == Ok(ps[k]);
      SkinVertexText3(vs[k], bones[k]);
    }
  }

  lemma SkinVerticesRead(l: MeshLists, vs: seq<Vector>, bones: seq<int>)
    requires |vs| == |bones| && NonNegative(bones)
    requires VectorsWire(vs, 3)
    ensures MapAll(SkinVertexProperty, Zip(vs, bones)).Ok?
    ensures Fold(MeshStep(true), l, UnquoteProperties(MapAll(SkinVertexProperty, Zip(vs, bones)).value)) ==
            Ok(l.(vertices := l.vertices + TruncateAll(vs, 3), vertexBoneIndices := l.vertexBoneIndices + bones))
  {
    var zs := Zip(TruncateAll(vs, 3), bones);
    SkinWritten(vs, bones);
    SkinSteps();
    FoldRelated(MeshStep(true), SkinPut, l, UnquoteProperties(MapAll(SkinVertexProperty, Zip(vs, bones)).value), zs, SkinRead);
    assert Firsts(zs) == TruncateAll(vs, 3) && Seconds(zs) == bones;
    assert l.vertices + Firsts([]) == l.vertices && l.vertexBoneIndices + Seconds([]) == l.vertexBoneIndices;
  }

  lemma FacesWritten(faces: seq<Face>)
    requires FacesWire(faces)
    ensures var xs := UnquoteProperties(FaceProperties(faces));
      |xs| == |faces| && forall k :: 0 <= k < |xs| ==> FaceRead(xs[k], faces[k])
  {
    var xs := UnquoteProperties(FaceProperties(faces));
    forall k | 0 <= k < |xs| ensures FaceRead(xs[k], faces[k]) {
      FaceTextRead(faces[k]);
    }
  }

  lemma FacesRead(skin: bool, l: MeshLists, faces: seq<Face>)
    requires FacesWire(faces)
    ensures Fold(MeshStep(skin), l, UnquoteProperties(FaceProperties(faces))) == Ok(l.(faces := l.faces + faces))
  {
    FacesWritten(faces);
    FaceSteps(skin);
    FoldRelated(MeshStep(skin), FacesPut, l, UnquoteProperties(FaceProperties(faces)), faces, FaceRead);
    AppendEmpty(l.faces, []);
  }

  /** The bone indices a mesh block carries: none for a plain mesh. */
  function BoneIndices(m: Mesh): seq<int> {
    if m.kind.Skin? then m.kind.vertexBoneIndices else []
  }

  /** The lists the property loop builds from a wire mesh's properties. */
  function WireLists(m: Mesh): MeshLists {
    MeshLists(m.materialNames, TruncateAll(m.vertices, 3), BoneIndices(m),
              TruncateAll(m.textureCoords, 2), TruncateAll(m.normals, 3), m.faces)
  }

  lemma SkinPropertiesRead(m: Mesh, l: MeshLists)
    requires m.kind.Skin? && |m.kind.vertexBoneIndices| == |m.vertices| && NonNegative(m.kind.vertexBoneIndices)
    requires VectorsWire(m.vertices, 3) && l.vertices == [] && l.vertexBoneIndices == []
    ensures VertexProperties(m).Ok?
    ensures Fold(MeshStep(true), l, UnquoteProperties(VertexProperties(m).value)) ==
            Ok(l.(vertices := TruncateAll(m.vertices, 3), vertexBoneIndices := m.kind.vertexBoneIndices))
  {
    assert VertexProperties(m) == MapAll(SkinVertexProperty, Zip(m.vertices, m.kind.vertexBoneIndices));
    SkinVerticesRead(l, m.vertices, m.kind.vertexBoneIndices);
    AppendToEmpty(l.vertices, TruncateAll(m.vertices, 3));
    AppendToEmpty(l.vertexBoneIndices, m.kind.vertexBoneIndices);
  }

  lemma PlainPropertiesRead(m: Mesh, l: MeshLists)
    requires m.kind.Plain? && VectorsWire(m.vertices, 3) && l.vertices == []
    ensures VertexProperties(m).Ok?
    ensures Fold(MeshStep(false), l, UnquoteProperties(VertexProperties(m).value)) ==
            Ok(l.(vertices := TruncateAll(m.vertices, 3)))
  {
    VectorsRead(false, "v", 3, VertexProperty, l, m.vertices);
    AppendToEmpty(l.vertices, TruncateAll(m.vertices, 3));
  }

  lemma VertexPropertiesRead(m: Mesh, l: MeshLists)
    requires BonesWire(m) && VectorsWire(m.vertices, 3) && l.vertices == [] && l.vertexBoneIndices == []
    ensures VertexProperties(m).Ok?
    ensures Fold(MeshStep(m.kind.Skin?), l, UnquoteProperties(VertexProperties(m).value)) ==
            Ok(l.(vertices := TruncateAll(m.vertices, 3), vertexBoneIndices := BoneIndices(m)))
  {
    if m.kind.Skin? {
      SkinPropertiesRead(m, l);
    } else {
      PlainPropertiesRead(m, l);
    }
  }

  lemma MeshPropertiesRead(m: Mesh)
    requires MeshWire(m)
    ensures MeshProperties(m).Ok?
    ensures Fold(MeshStep(m.kind.Skin?), NoLists, UnquoteProperties(MeshProperties(m).value)) == Ok(WireLists(m))
  {
    var skin := m.kind.Skin?;
    var step := MeshStep(skin);
    var l1 := NoLists.(materialNames := m.materialNames);
    var l2 := l1.(vertices := TruncateAll(m.vertices, 3), vertexBoneIndices := BoneIndices(m));
    var l3 := l2.(textureCoords := TruncateAll(m.textureCoords, 2));
    var l4 := l3.(normals := TruncateAll(m.normals, 3));
    var a := NameProperties(m.materialNames);
    assert Fold(step, NoLists, UnquoteProperties(a)) == Ok(l1) by {
      NamesRead(skin, NoLists, m.materialNames);
      AppendToEmpty(NoLists.materialNames, m.materialNames);
    }
    assert VertexProperties(m).Ok? && Fold(step, l1, UnquoteProperties(VertexProperties(m).value)) == Ok(l2) by {
      VertexPropertiesRead(m, l1);
    }
    var b := VertexProperties(m).value;
    assert MapAll(TexCoordProperty, m.textureCoords).Ok? &&
           Fold(step, l2, UnquoteProperties(MapAll(TexCoordProperty, m.textureCoords).value)) == Ok(l3) by {
      VectorsRead(skin, "t", 2, TexCoordProperty, l2, m.textureCoords);
      AppendToEmpty(l2.textureCoords, TruncateAll(m.textureCoords, 2));
    }
    var c := MapAll(TexCoordProperty, m.textureCoords).value;
    assert MapAll(NormalProperty, m.normals).Ok? &&
           Fold(step, l3, UnquoteProperties(MapAll(NormalProperty, m.normals).value)) == Ok(l4) by {
      VectorsRead(skin, "n", 3, NormalProperty, l3, m.normals);
      AppendToEmpty(l3.normals, TruncateAll(m.normals, 3));
    }
    var d := MapAll(NormalProperty, m.normals).value;
    var e := FaceProperties(m.faces);
    assert Fold(step, l4, UnquoteProperties(e)) == Ok(WireLists(m)) by {
      FacesRead(skin, l4, m.faces);
      AppendToEmpty(l4.faces, m.faces);
    }
    assert MeshProperties(m) == Ok(a + b + c + d + e);
    PropertiesThen(step, a, b, c, d, e, l1, l2, l3, l4, WireLists(m));
  }

  /** The mesh loop over the five runs of a mesh block, one after the other. */
  lemma PropertiesThen(step: (MeshLists, Property) -> Result<MeshLists>, a: seq<Property>, b: seq<Property>,
                       c: seq<Property>, d: seq<Property>, e: seq<Property>,
                       l1: MeshLists, l2: MeshLists, l3: MeshLists, l4: MeshLists, l5: MeshLists)
    requires Fold(step, NoLists, UnquoteProperties(a)) == Ok(l1)
    requires Fold(step, l1, UnquoteProperties(b)) == Ok(l2)
    requires Fold(step, l2, UnquoteProperties(c)) == Ok(l3)
    requires Fold(step, l3, UnquoteProperties(d)) == Ok(l4)
    requires Fold(step, l4, UnquoteProperties(e)) == Ok(l5)
    ensures Fold(step, NoLists, UnquoteProperties(a + b + c + d + e)) == Ok(l5)
  {
    UnquoteConcat(a + b + c + d, e);
    UnquoteConcat(a + b + c, d);
    UnquoteConcat(a + b, c);
    UnquoteConcat(a, b);
    var ua, ub, uc, ud := UnquoteProperties(a), UnquoteProperties(b), UnquoteProperties(c), UnquoteProperties(d);
    FoldThen(step, NoLists, ua, ub, l1, l2);
    FoldThen(step, NoLists, ua + ub, uc, l2, l3);
    FoldThen(step, NoLists, ua + ub + uc, ud, l3, l4);
    FoldThen(step, NoLists, ua + ub + uc + ud, UnquoteProperties(e), l4, l5);
  }

  /** A quoted name reads back as the name. */
  lemma IdentifierRead(name: string)
    ensures UnquoteIdentifier(Some(EncloseInQuotes(name))) == Some(name)
  {
    ChopQuotesOfEnclosed(name);
  }

  /** A wire mesh's block reads back as the mesh, truncated to the
      components the encoder writes. */
  lemma MeshRead(m: Mesh)
    requires MeshWire(m)
    ensures MeshBlock(m).Ok? && IsMeshType(MeshBlock(m).value.blockType)
    ensures MeshOf(UnquoteBlock(MeshBlock(m).value)) == Ok(NormalMesh(m))
  {
    MeshPropertiesRead(m);
    IdentifierRead(m.name);
    var b := UnquoteBlock(MeshBlock(m).value);
    assert b.blockType == (if m.kind.Skin? then "skin" else "mesh");
    assert "skin" != "mesh";
  }

  // ---------------------------------------------------------------------------
  // The other blocks

  /** What reads back of an optional field: only a truthy value is written. */
  function Kept(o: Option<string>): Option<string> {
    if Truthy(o) then o else None
  }

  /** A field written without quotes must not look quoted. */
  predicate Unquoted(o: Option<string>) {
    Truthy(o) ==> !Quoted(o.value)
  }

  predicate FileInfoWire(fi: FileInfo) {
    !Quoted(fi.formatVersion) && Unquoted(fi.version) && Unquoted(fi.date)
  }

  function NormalFileInfo(fi: FileInfo): FileInfo {
    fi.(name := Kept(fi.name), version := Kept(fi.version), source := Kept(fi.source),
        date := Kept(fi.date), comments := Kept(fi.comments))
  }

  function NormalMaterial(m: Material): Material {
    m.(colourmap := Kept(m.colourmap), bumpmap := Kept(m.bumpmap), opacitymap := Kept(m.opacitymap))
  }

  /** The dictionary after an optional field: its value, when written. */
  function Put(d: map<string, string>, key: string, o: Option<string>): map<string, string> {
    if Truthy(o) then d[key := o.value] else d
  }

  lemma DictSnoc(ps: seq<Property>, p: Property)
    ensures Dict(ps + [p]) == Dict(ps)[p.key := p.value]
  {
    assert (ps + [p])[..|ps|] == ps;
  }

  lemma DictOptional(ps: seq<Property>, key: string, o: Option<string>, quote: bool)
    requires !quote ==> Unquoted(o)
    ensures Dict(UnquoteProperties(ps + Optional(key, o, quote))) == Put(Dict(UnquoteProperties(ps)), key, o)
  {
    UnquoteConcat(ps, Optional(key, o, quote));
    if Truthy(o) {
      if quote {
        ChopQuotesOfEnclosed(o.value);
      }
      assert UnquoteProperties(Optional(key, o, quote)) == [Property(key, o.value)];
      DictSnoc(UnquoteProperties(ps), Property(key, o.value));
    } else {
      assert UnquoteProperties(ps) + UnquoteProperties(Optional(key, o, quote)) == UnquoteProperties(ps);
    }
  }

  function FileInfoDict(fi: FileInfo): map<string, string> {
    Put(Put(Put(Put(Put(map["formatversion" := fi.formatVersion], "name", fi.name), "version", fi.version),
                "source", fi.source), "date", fi.date), "comments", fi.comments)
  }

  lemma FileInfoDictRead(fi: FileInfo)
    requires FileInfoWire(fi)
    ensures Dict(UnquoteProperties(FileInfoProperties(fi))) == FileInfoDict(fi)
  {
    var p0 := [Property("formatversion", fi.formatVersion)];
    var p1 := p0 + Optional("name", fi.name, true);
    var p2 := p1 + Optional("version", fi.version, false);
    var p3 := p2 + Optional("source", fi.source, true);
    var p4 := p3 + Optional("date", fi.date, false);
    assert UnquoteProperties(p0) == p0;
    DictSnoc([], Property("formatversion", fi.formatVersion));
    assert [] + p0 == p0;
    DictOptional(p0, "name", fi.name, true);
    DictOptional(p1, "version", fi.version, false);
    DictOptional(p2, "source", fi.source, true);
    DictOptional(p3, "date", fi.date, false);
    DictOptional(p4, "comments", fi.comments, true);
  }

  lemma FileInfoGets(fi: FileInfo)
    ensures var d := FileInfoDict(fi);
      "formatversion" in d && d["formatversion"] == fi.formatVersion &&
      (if "name" in d then Some(d["name"]) else None) == Kept(fi.name) &&
      (if "version" in d then Some(d["version"]) else None) == Kept(fi.version) &&
      (if "source" in d then Some(d["source"]) else None) == Kept(fi.source) &&
      (if "date" in d then Some(d["date"]) else None) == Kept(fi.date) &&
      (if "comments" in d then Some(d["comments"]) else None) == Kept(fi.comments)
  {
  }

  /** A fileinfo block reads back as the file information, with its falsy
      optional fields as `None`. */
  lemma FileInfoRead(fi: FileInfo)
    requires FileInfoWire(fi)
    ensures FileInfoOf(UnquoteBlock(FileInfoBlock(fi))) == Ok(NormalFileInfo(fi))
  {
    FileInfoDictRead(fi);
    FileInfoGets(fi);
  }

  function MaterialDict(m: Material): map<string, string> {
    Put(Put(Put(map[], "colormap", m.colourmap), "bumpmap", m.bumpmap), "opacitymap", m.opacitymap)
  }

  lemma MaterialDictRead(m: Material)
    ensures Dict(UnquoteProperties(MaterialProperties(m))) == MaterialDict(m)
  {
    var p1 := Optional("colormap", m.colourmap, true);
    var p2 := p1 + Optional("bumpmap", m.bumpmap, true);
    DictOptional([], "colormap", m.colourmap, true);
    assert [] + p1 == p1;
    DictOptional(p1, "bumpmap", m.bumpmap, true);
    DictOptional(p2, "opacitymap", m.opacitymap, true);
  }

  lemma MaterialGets(m: Material)
    ensures var d := MaterialDict(m);
      (if "colormap" in d then Some(d["colormap"]) else None) == Kept(m.colourmap) &&
      (if "bumpmap" in d then Some(d["bumpmap"]) else None) == Kept(m.bumpmap) &&
      (if "opacitymap" in d then Some(d["opacitymap"]) else None) == Kept(m.opacitymap)
  {
  }

  /** A material block reads back as the material, with its falsy texture
      maps as `None`. */
  lemma MaterialRead(m: Material)
    ensures MaterialOf(UnquoteBlock(MaterialBlock(m))) == Ok(NormalMaterial(m))
  {
    IdentifierRead(m.name);
    MaterialDictRead(m);
    MaterialGets(m);
  }

  lemma Dict2(a: Property, b: Property)
    ensures Dict([a, b]) == map[a.key := a.value][b.key := b.value]
  {
    DictSnoc([], a);
    assert [] + [a] == [a];
    DictSnoc([a], b);
  }

  lemma Dict4(a: Property, b: Property, c: Property, d: Property)
    ensures Dict([a, b, c, d]) == map[a.key := a.value][b.key := b.value][c.key := c.value][d.key := d.value]
  {
    Dict2(a, b);
    DictSnoc([a, b], c);
    assert [a, b] + [c] == [a, b, c];
    DictSnoc([a, b, c], d);
    assert [a, b, c] + [d] == [a, b, c, d];
  }

  lemma Unquote2(a: Property, b: Property)
    ensures UnquoteProperties([a, b]) == [UnquoteProperty(a), UnquoteProperty(b)]
  {
  }

  lemma Unquote4(a: Property, b: Property, c: Property, d: Property)
    ensures UnquoteProperties([a, b, c, d]) == [UnquoteProperty(a), UnquoteProperty(b), UnquoteProperty(c), UnquoteProperty(d)]
  {
    assert [a, b, c, d] == [a, b] + [c, d];
    UnquoteConcat([a, b], [c, d]);
    Unquote2(a, b);
    Unquote2(c, d);
  }

  /** A scale written as a float literal is not quoted and reads back. */
  lemma ScaleRead(c: Component)
    requires WireComponent(c)
    ensures !Quoted(c) && ParseFloat(c) == Ok(c)
  {
    NoCommaInWireComponent(c);
    StripOfClean(c);
    FloatLiteralChars(c);
    if |c| > 0 {
      NumeralCharIsPlain(c[0]);
    }
  }

  /** An instance the encoder writes and the decoder reads back. */
  predicate InstanceWire(x: Instance, toDegrees: Vector -> Vector) {
    WireVector(x.position, 3) && WireVector(toDegrees(x.rotation), 3) && WireComponent(x.scale)
  }

  /** The rotation reads back as written: in degrees. */
  function NormalInstance(x: Instance, toDegrees: Vector -> Vector): Instance {
    x.(position := Truncate(x.position, 3), rotation := Truncate(toDegrees(x.rotation), 3))
  }

  /** The dictionary of an instance block, whatever its four texts. */
  lemma InstanceDictGets(mesh: string, p: string, r: string, s: string)
    ensures var d := map["mesh" := mesh]["position" := p]["rotation" := r]["scale" := s];
      "mesh" in d && d["mesh"] == mesh && "position" in d && d["position"] == p &&
      "rotation" in d && d["rotation"] == r && "scale" in d && d["scale"] == s
  {
  }

  lemma InstanceOfDict(b: Block, mesh: string, p: string, r: string, s: string, pv: Vector, rv: Vector, sv: Component)
    requires Dict(b.properties) == map["mesh" := mesh]["position" := p]["rotation" := r]["scale" := s]
    requires ParseVector(p) == Ok(pv) && ParseVector(r) == Ok(rv) && ParseFloat(s) == Ok(sv)
    ensures InstanceOf(b) == MakeInstance(b.identifier, Some(mesh), Some(pv), Some(rv), Some(sv))
  {
    InstanceDictGets(mesh, p, r, s);
  }

  lemma InstanceRead(x: Instance, toDegrees: Vector -> Vector)
    requires InstanceWire(x, toDegrees)
    ensures InstanceBlock(x, toDegrees).Ok?
    ensures InstanceOf(UnquoteBlock(InstanceBlock(x, toDegrees).value)) == Ok(NormalInstance(x, toDegrees))
  {
    var r := toDegrees(x.rotation);
    var pt, rt := FormatVector(x.position[..3]), FormatVector(r[..3]);
    LeadingRead(x.position, 3);
    LeadingRead(r, 3);
    ScaleRead(x.scale);
    ChopQuotesOfEnclosed(x.mesh);
    IdentifierRead(x.name);
    var a, b, c, d := Property("mesh", x.mesh), Property("position", pt), Property("rotation", rt), Property("scale", x.scale);
    var blk := UnquoteBlock(InstanceBlock(x, toDegrees).value);
    var q := Property("mesh", EncloseInQuotes(x.mesh));
    assert InstanceBlock(x, toDegrees).value.properties == [q, b, c, d];
    Unquote4(q, b, c, d);
    assert UnquoteProperty(q) == a;
    Dict4(a, b, c, d);
    InstanceOfDict(blk, x.mesh, pt, rt, x.scale, Truncate(x.position, 3), Truncate(r, 3), x.scale);
  }

  predicate BoneWire(b: Bone, toDegrees: Vector -> Vector) {
    WireVector(b.position, 3) && WireVector(toDegrees(b.rotation), 3)
  }

  function NormalBone(b: Bone, toDegrees: Vector -> Vector): Bone {
    b.(position := Truncate(b.position, 3), rotation := Truncate(toDegrees(b.rotation), 3))
  }

  lemma BoneRead(b: Bone, toDegrees: Vector -> Vector)
    requires BoneWire(b, toDegrees)
    ensures BoneBlock(b, toDegrees).Ok?
    ensures BoneOf(UnquoteBlock(BoneBlock(b, toDegrees).value)) == Ok(NormalBone(b, toDegrees))
  {
    var r := toDegrees(b.rotation);
    LeadingRead(b.position, 3);
    LeadingRead(r, 3);
    IdentifierRead(b.name);
    var p := Property("position", FormatVector(b.position[..3]));
    var q := Property("rotation", FormatVector(r[..3]));
    assert BoneBlock(b, toDegrees).value.properties == [p, q];
    Unquote2(p, q);
    Dict2(p, q);
  }

  // ---------------------------------------------------------------------------
  // The block loop

  /** `b` is a material block that loads as `y`. */
  ghost predicate MaterialLoads(b: Block, y: Material) {
    b.blockType == "material" && MaterialOf(UnquoteBlock(b)) == Ok(y)
  }

  ghost predicate MeshLoads(b: Block, y: Mesh) {
    IsMeshType(b.blockType) && MeshOf(UnquoteBlock(b)) == Ok(y)
  }

  ghost predicate InstanceLoads(b: Block, y: Instance) {
    b.blockType == "instance" && InstanceOf(UnquoteBlock(b)) == Ok(y)
  }

  ghost predicate BoneLoads(b: Block, y: Bone) {
    b.blockType == "bone" && BoneOf(UnquoteBlock(b)) == Ok(y)
  }

  function MaterialsPut(acc: Loaded, ys: seq<Material>): Loaded {
    acc.(materials := acc.materials + ys)
  }

  function MeshesPut(acc: Loaded, ys: seq<Mesh>): Loaded {
    acc.(meshes := acc.meshes + ys)
  }

  function InstancesPut(acc: Loaded, ys: seq<Instance>): Loaded {
    acc.(instances := acc.instances + ys)
  }

  function BonesPut(acc: Loaded, ys: seq<Bone>): Loaded {
    acc.(bones := acc.bones + ys)
  }

  lemma MaterialSteps()
    ensures forall acc, done, b, y | MaterialLoads(b, y) :: LoadStep(MaterialsPut(acc, done), b) == Ok(MaterialsPut(acc, done + [y]))
  {
    forall acc, done, b, y | MaterialLoads(b, y)
      ensures LoadStep(MaterialsPut(acc, done), b) == Ok(MaterialsPut(acc, done + [y]))
    {
      BlockTypes(b.blockType);
      SnocAssoc(acc.materials, done, y);
    }
  }

  lemma MeshSteps()
    ensures forall acc, done, b, y | MeshLoads(b, y) :: LoadStep(MeshesPut(acc, done), b) == Ok(MeshesPut(acc, done + [y]))
  {
    forall acc, done, b, y | MeshLoads(b, y)
      ensures LoadStep(MeshesPut(acc, done), b) == Ok(MeshesPut(acc, done + [y]))
    {
      BlockTypes(b.blockType);
      SnocAssoc(acc.meshes, done, y);
    }
  }

  lemma InstanceSteps()
    ensures forall acc, done, b, y | InstanceLoads(b, y) :: LoadStep(InstancesPut(acc, done), b) == Ok(InstancesPut(acc, done + [y]))
  {
    forall acc, done, b, y | InstanceLoads(b, y)
      ensures LoadStep(InstancesPut(acc, done), b) == Ok(InstancesPut(acc, done + [y]))
    {
      BlockTypes(b.blockType);
      SnocAssoc(acc.instances, done, y);
    }
  }

  lemma BoneSteps()
    ensures forall acc, done, b, y | BoneLoads(b, y) :: LoadStep(BonesPut(acc, done), b) == Ok(BonesPut(acc, done + [y]))
  {
    forall acc, done, b, y | BoneLoads(b, y)
      ensures LoadStep(BonesPut(acc, done), b) == Ok(BonesPut(acc, done + [y]))
    {
      BlockTypes(b.blockType);
      SnocAssoc(acc.bones, done, y);
    }
  }

  function NormalMaterials(ms: seq<Material>): (r: seq<Material>)
    ensures |r| == |ms| && forall i :: 0 <= i < |ms| ==> r[i] == NormalMaterial(ms[i])
  {
    seq(|ms|, i requires 0 <= i < |ms| => NormalMaterial(ms[i]))
  }

  function NormalMeshes(ms: seq<Mesh>): (r: seq<Mesh>)
    ensures |r| == |ms| && forall i :: 0 <= i < |ms| ==> r[i] == NormalMesh(ms[i])
  {
    seq(|ms|, i requires 0 <= i < |ms| => NormalMesh(ms[i]))
  }

  function NormalInstances(xs: seq<Instance>, toDegrees: Vector -> Vector): (r: seq<Instance>)
    ensures |r| == |xs| && forall i :: 0 <= i < |xs| ==> r[i] == NormalInstance(xs[i], toDegrees)
  {
    seq(|xs|, i requires 0 <= i < |xs| => NormalInstance(xs[i], toDegrees))
  }

  function NormalBones(xs: seq<Bone>, toDegrees: Vector -> Vector): (r: seq<Bone>)
    ensures |r| == |xs| && forall i :: 0 <= i < |xs| ==> r[i] == NormalBone(xs[i], toDegrees)
  {
    seq(|xs|, i requires 0 <= i < |xs| => NormalBone(xs[i], toDegrees))
  }

  /** The first block: the file information, read into an empty slot. */
  lemma FileInfoLoaded(acc: Loaded, fi: FileInfo)
    requires acc.fileInfo.None? && FileInfoWire(fi)
    ensures Fold(LoadStep, acc, [FileInfoBlock(fi)]) == Ok(acc.(fileInfo := Some(NormalFileInfo(fi))))
  {
    BlockTypes(FileInfoBlock(fi).blockType);
    FileInfoRead(fi);
    assert [FileInfoBlock(fi)][..0] == [];
  }

  /** The material blocks append their materials, in order. */
  lemma MaterialsLoaded(acc: Loaded, ms: seq<Material>)
    ensures Fold(LoadStep, acc, MaterialBlocks(ms)) == Ok(MaterialsPut(acc, NormalMaterials(ms)))
  {
    var bs, ys := MaterialBlocks(ms), NormalMaterials(ms);
    forall k | 0 <= k < |bs| ensures MaterialLoads(bs[k], ys[k]) {
      MaterialRead(ms[k]);
    }
    MaterialSteps();
    FoldRelated(LoadStep, MaterialsPut, acc, bs, ys, MaterialLoads);
    AppendEmpty(acc.materials, []);
  }

  /** The mesh and skin blocks append their meshes, in order. */
  lemma MeshesLoaded(acc: Loaded, ms: seq<Mesh>)
    requires forall i :: 0 <= i < |ms| ==> MeshWire(ms[i])
    ensures MapAll(MeshBlock, ms).Ok?
    ensures Fold(LoadStep, acc, MapAll(MeshBlock, ms).value) == Ok(MeshesPut(acc, NormalMeshes(ms)))
  {
    forall k | 0 <= k < |ms| ensures MeshBlock(ms[k]).Ok? {
      MeshRead(ms[k]);
    }
    var bs, ys := MapAll(MeshBlock, ms).value, NormalMeshes(ms);
    forall k | 0 <= k < |bs| ensures MeshLoads(bs[k], ys[k]) {
      MeshRead(ms[k]);
    }
    MeshSteps();
    FoldRelated(LoadStep, MeshesPut, acc, bs, ys, MeshLoads);
    AppendEmpty(acc.meshes, []);
  }

  /** The instance blocks append their instances, in order. */
  lemma InstancesLoaded(acc: Loaded, xs: seq<Instance>, toDegrees: Vector -> Vector)
    requires forall i :: 0 <= i < |xs| ==> InstanceWire(xs[i], toDegrees)
    ensures MapAll(InstanceEncoder(toDegrees), xs).Ok?
    ensures Fold(LoadStep, acc, MapAll(InstanceEncoder(toDegrees), xs).value) ==
            Ok(InstancesPut(acc, NormalInstances(xs, toDegrees)))
  {
    forall k | 0 <= k < |xs| ensures InstanceEncoder(toDegrees)(xs[k]).Ok? {
      InstanceRead(xs[k], toDegrees);
    }
    var bs, ys := MapAll(InstanceEncoder(toDegrees), xs).value, NormalInstances(xs, toDegrees);
    forall k | 0 <= k < |bs| ensures InstanceLoads(bs[k], ys[k]) {
      InstanceRead(xs[k], toDegrees);
      assert InstanceEncoder(toDegrees)(xs[k]) == InstanceBlock(xs[k], toDegrees);
    }
    InstanceSteps();
    FoldRelated(LoadStep, InstancesPut, acc, bs, ys, InstanceLoads);
    AppendEmpty(acc.instances, []);
  }

  /** The bone blocks append their bones, in order. */
  lemma BonesLoaded(acc: Loaded, xs: seq<Bone>, toDegrees: Vector -> Vector)
    requires forall i :: 0 <= i < |xs| ==> BoneWire(xs[i], toDegrees)
    ensures MapAll(BoneEncoder(toDegrees), xs).Ok?
    ensures Fold(LoadStep, acc, MapAll(BoneEncoder(toDegrees), xs).value) ==
            Ok(BonesPut(acc, NormalBones(xs, toDegrees)))
  {
    forall k | 0 <= k < |xs| ensures BoneEncoder(toDegrees)(xs[k]).Ok? {
      BoneRead(xs[k], toDegrees);
    }
    var bs, ys := MapAll(BoneEncoder(toDegrees), xs).value, NormalBones(xs, toDegrees);
    forall k | 0 <= k < |bs| ensures BoneLoads(bs[k], ys[k]) {
      BoneRead(xs[k], toDegrees);
      assert BoneEncoder(toDegrees)(xs[k]) == BoneBlock(xs[k], toDegrees);
    }
    BoneSteps();
    FoldRelated(LoadStep, BonesPut, acc, bs, ys, BoneLoads);
    AppendEmpty(acc.bones, []);
  }

  // ---------------------------------------------------------------------------
  // The whole file

  /** Every entity is in the form the writer and the reader agree on. */
  predicate Wire(tpm: TPM, toDegrees: Vector -> Vector) {
    FileInfoWire(tpm.fileInfo) &&
    (forall i :: 0 <= i < |tpm.meshes| ==> MeshWire(tpm.meshes[i])) &&
    (forall i :: 0 <= i < |tpm.instances| ==> InstanceWire(tpm.instances[i], toDegrees)) &&
    (forall i :: 0 <= i < |tpm.bones| ==> BoneWire(tpm.bones[i], toDegrees))
  }

  /** What reading back what was written gives: the same model, with vectors
      cut to their written width, falsy optional fields absent and
      rotations in the unit the writer converted them to. */
  function Normalize(tpm: TPM, toDegrees: Vector -> Vector): TPM {
    TPM(NormalFileInfo(tpm.fileInfo), NormalMaterials(tpm.materials), NormalMeshes(tpm.meshes),
        NormalInstances(tpm.instances, toDegrees), NormalBones(tpm.bones, toDegrees))
  }

  /** Writing a model and reading the blocks back gives the model again. */
  lemma EncodeDecode(tpm: TPM, toDegrees: Vector -> Vector)
    requires Wire(tpm, toDegrees)
    ensures Encode(tpm, toDegrees).Ok?
    ensures Decode(Encode(tpm, toDegrees).value) == Ok(Normalize(tpm, toDegrees))
  {
    var a1 := Nothing.(fileInfo := Some(NormalFileInfo(tpm.fileInfo)));
    var a2 := MaterialsPut(a1, NormalMaterials(tpm.materials));
    var a3 := MeshesPut(a2, NormalMeshes(tpm.meshes));
    var a4 := InstancesPut(a3, NormalInstances(tpm.instances, toDegrees));
    var a5 := BonesPut(a4, NormalBones(tpm.bones, toDegrees));
    FileInfoLoaded(Nothing, tpm.fileInfo);
    MaterialsLoaded(a1, tpm.materials);
    MeshesLoaded(a2, tpm.meshes);
    InstancesLoaded(a3, tpm.instances, toDegrees);
    BonesLoaded(a4, tpm.bones, toDegrees);
    var f := [FileInfoBlock(tpm.fileInfo)];
    var p := MaterialBlocks(tpm.materials);
    var q := MapAll(MeshBlock, tpm.meshes).value;
    var r := MapAll(InstanceEncoder(toDegrees), tpm.instances).value;
    var s := MapAll(BoneEncoder(toDegrees), tpm.bones).value;
    assert Encode(tpm, toDegrees) == Ok(f + p + q + r + s);
    FoldThen(LoadStep, Nothing, f, p, a1, a2);
    FoldThen(LoadStep, Nothing, f + p, q, a2, a3);
    FoldThen(LoadStep, Nothing, f + p + q, r, a3, a4);
    FoldThen(LoadStep, Nothing, f + p + q + r, s, a4, a5);
    AppendToEmpty([], NormalMaterials(tpm.materials));
    AppendToEmpty([], NormalMeshes(tpm.meshes));
    AppendToEmpty([], NormalInstances(tpm.instances, toDegrees));
    AppendToEmpty([], NormalBones(tpm.bones, toDegrees));
  }

  /** The encoder's text for a wire skin vertex. */
  lemma SkinVertexText3(v: Vector, bone: int)
    requires WireVector(v, 3) && bone >= 0
    ensures SkinVertexProperty((v, bone)) == Ok(Property("v", SkinVertexText(FormatVector(v[..3]), bone)))
    ensures !Quoted(SkinVertexText(FormatVector(v[..3]), bone))
    ensures SkinVertex(SkinVertexText(FormatVector(v[..3]), bone)) == Some((FormatVector(v[..3]), bone))
    ensures ParseVector(FormatVector(v[..3])) == Ok(Truncate(v, 3))
  {
    LeadingRead(v, 3);
    JoinOfWire(v[..3]);
    SkinVertexOf(Join(v[..3], ','), bone);
    assert SkinVertexText(FormatVector(v[..3]), bone)[0] == '(';
  }

  /** The encoder's text for a face with non-negative indices. */
  lemma FaceTextRead(f: Face)
    requires FaceWire(f)
    ensures var text := FaceText(f.vertexIndices, f.texCoordIndices, f.normalIndices, f.materialIndex);
      !Quoted(text) && FaceEntry(text) == Some(FaceIndices(f))
  {
    var v, t, n, m := f.vertexIndices, f.texCoordIndices, f.normalIndices, f.materialIndex;
    FaceEntryOf(v, t, n, m);
    FaceTextThen(v, t, n, m);
    TripleTextStarts(v, "," + (TripleText(t) + ("," + (TripleText(n) + ("," + IntToString(m))))));
  }

  lemma NamesRead(skin: bool, l: MeshLists, names: seq<string>)
    ensures Fold(MeshStep(skin), l, UnquoteProperties(NameProperties(names))) ==
            Ok(l.(materialNames := l.materialNames + names))
  {
    var xs := UnquoteProperties(NameProperties(names));
    var put := (s: MeshLists, ys: seq<string>) => s.(materialNames := s.materialNames + ys);
    forall k | 0 <= k < |xs| ensures MeshStep(skin)(put(l, names[..k]), xs[k]) == Ok(put(l, names[..k + 1])) {
      ChopQuotesOfEnclosed(names[k]);
      assert names[..k + 1] == names[..k] + [names[k]];
      assert l.materialNames + names[..k] + [names[k]] == l.materialNames + names[..k + 1];
    }
    FoldPut(MeshStep(skin), put, l, xs, names);
    AppendEmpty(l.materialNames, []);
  }
}
