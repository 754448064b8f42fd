/** What TPMRawToTPM (io_mesh_tpm/tpm_types.py) guarantees about the TPM it
    returns, proved on `Decoding.Decode`. */
module DecodeLaws {
  import opened Errors
  import opened Vectors
  import opened RawFormat
  import opened Entities
  import opened Patterns
  import opened Decoding

  // ---------------------------------------------------------------------------
  // dict(properties): the last pair with a key wins

  /** A key is in the dictionary exactly when some pair has it. */
  lemma {:induction false} DictHas(ps: seq<Property>, key: string)
    ensures key in Dict(ps) <==> HasKey(ps, key)
    decreases |ps|
  {
    if ps != [] {
      var init := ps[..|ps| - 1];
      DictHas(init, key);
      if exists i :: 0 <= i < |init| && init[i].key == key {
        var i :| 0 <= i < |init| && init[i].key == key;
        assert ps[i] == init[i];
      }
      if exists i :: 0 <= i < |ps| && ps[i].key == key {
        var i :| 0 <= i < |ps| && ps[i].key == key;
        if i < |init| {
          assert init[i] == ps[i];
        }
      }
    }
  }

  /** `stringDict.get(key)` is the value of the last pair with that key. */
  lemma {:induction false} GetLast(ps: seq<Property>, i: nat)
    requires i < |ps|
    requires forall j :: i < j < |ps| ==> ps[j].key != ps[i].key
    ensures Get(ps, ps[i].key) == Some(ps[i].value)
    decreases |ps|
  {
    if i < |ps| - 1 {
      var init := ps[..|ps| - 1];
      assert init[i] == ps[i];
      forall j | i < j < |init| ensures init[j].key != init[i].key {
        assert init[j] == ps[j];
      }
      GetLast(init, i);
    }
  }

  /** A key no pair has is absent. */
  lemma GetAbsent(ps: seq<Property>, key: string)
    requires forall i :: 0 <= i < |ps| ==> ps[i].key != key
    ensures Get(ps, key) == None
  {
    DictHas(ps, key);
  }

  /** A required key that no pair has raises a KeyError naming it. */
  lemma LookupAbsent(ps: seq<Property>, key: string)
    requires forall i :: 0 <= i < |ps| ==> ps[i].key != key
    ensures Lookup(ps, key) == Err(MissingKey(key))
  {
    GetAbsent(ps, key);
  }

  /** A fileinfo block loads exactly when it has a `formatversion` pair, and
      then its version is the value of the last such pair. */
  lemma FileInfoNeedsFormatVersion(b: Block)
    ensures FileInfoOf(b).Ok? <==> HasKey(b.properties, "formatversion")
    ensures !HasKey(b.properties, "formatversion") ==> FileInfoOf(b) == Err(MissingKey("formatversion"))
    ensures forall i :: 0 <= i < |b.properties| && b.properties[i].key == "formatversion" &&
                        (forall j :: i < j < |b.properties| ==> b.properties[j].key != "formatversion") ==>
                        FileInfoOf(b).Ok? && FileInfoOf(b).value.formatVersion == b.properties[i].value
  {
    DictHas(b.properties, "formatversion");
    forall i | 0 <= i < |b.properties| && b.properties[i].key == "formatversion" &&
               (forall j :: i < j < |b.properties| ==> b.properties[j].key != "formatversion")
      ensures FileInfoOf(b).Ok? && FileInfoOf(b).value.formatVersion == b.properties[i].value
    {
      GetLast(b.properties, i);
    }
  }

  /** An instance block loads only when all four of its keys are present and
      it has an identifier. */
  lemma InstanceNeedsKeys(b: Block)
    requires InstanceOf(b).Ok?
    ensures b.identifier.Some?
    ensures HasKey(b.properties, "position") && HasKey(b.properties, "rotation") &&
            HasKey(b.properties, "scale") && HasKey(b.properties, "mesh")
    ensures InstanceOf(b).value.name == b.identifier.value
  {
    InstanceGets(b);
    DictHas(b.properties, "position");
    DictHas(b.properties, "rotation");
    DictHas(b.properties, "scale");
    DictHas(b.properties, "mesh");
  }

  lemma InstanceGets(b: Block)
    requires InstanceOf(b).Ok?
    ensures b.identifier.Some? && InstanceOf(b).value.name == b.identifier.value
    ensures Lookup(b.properties, "position").Ok? && Lookup(b.properties, "rotation").Ok? &&
            Lookup(b.properties, "scale").Ok? && Lookup(b.properties, "mesh").Ok?
  {
  }

  // ---------------------------------------------------------------------------
  // Mesh and skin property lists

  /** The values of the properties with key `key`, in order. */
  function Values(ps: seq<Property>, key: string): (r: seq<string>)
    ensures |r| <= |ps|
    decreases |ps|
  {
    if ps == [] then []
    else Values(ps[..|ps| - 1], key) + (if ps[|ps| - 1].key == key then [ps[|ps| - 1].value] else [])
  }

  predicate MeshKey(key: string) {
    key == "m" || key == "v" || key == "t" || key == "n" || key == "f"
  }

  /** The ten indices a face was built from. */
  function FaceIndices(f: Face): (r: seq<int>)
    ensures |r| == 10
  {
    f.vertexIndices + f.texCoordIndices + f.normalIndices + [f.materialIndex]
  }

  /** Each value converts to the vector at the same position. */
  ghost predicate VectorsFrom(values: seq<string>, vs: seq<Vector>) {
    |vs| == |values| && forall k :: 0 <= k < |values| ==> ParseVector(values[k]) == Ok(vs[k])
  }

  /** Each value is a skin vertex whose vector and bone index are at the
      same position. */
  ghost predicate SkinVerticesFrom(values: seq<string>, vs: seq<Vector>, bones: seq<int>) {
    |vs| == |values| && |bones| == |values| &&
    forall k :: 0 <= k < |values| ==>
      SkinVertex(values[k]).Some? && SkinVertex(values[k]).value.1 == bones[k] &&
      ParseVector(SkinVertex(values[k]).value.0) == Ok(vs[k])
  }

  /** Each value is a face entry holding the indices of the face at the
      same position. */
  ghost predicate FacesFrom(values: seq<string>, fs: seq<Face>) {
    |fs| == |values| && forall k :: 0 <= k < |values| ==> FaceEntry(values[k]) == Some(FaceIndices(fs[k]))
  }

  /** A skin's vertex values are skin vertices; a plain mesh's are vectors
      and it has no bone indices. */
  ghost predicate VerticesFrom(skin: bool, values: seq<string>, vs: seq<Vector>, bones: seq<int>) {
    if skin then SkinVerticesFrom(values, vs, bones) else VectorsFrom(values, vs) && bones == []
  }

  predicate KeysKnown(ps: seq<Property>) {
    forall i :: 0 <= i < |ps| ==> MeshKey(ps[i].key)
  }

  /** What the loop has built from the properties it has read: one entry per
      property of each key, in order, each the conversion of the value. */
  ghost predicate Built(skin: bool, ps: seq<Property>, l: MeshLists) {
    KeysKnown(ps) &&
    l.materialNames == Values(ps, "m") &&
    VerticesFrom(skin, Values(ps, "v"), l.vertices, l.vertexBoneIndices) &&
    VectorsFrom(Values(ps, "t"), l.textureCoords) &&
    VectorsFrom(Values(ps, "n"), l.normals) &&
    FacesFrom(Values(ps, "f"), l.faces)
  }

  /** The last property leaves the values of every other key as they were. */
  lemma ValuesOther(ps: seq<Property>, key: string)
    requires ps != [] && ps[|ps| - 1].key != key
    ensures Values(ps, key) == Values(ps[..|ps| - 1], key)
  {
    assert Values(ps[..|ps| - 1], key) + [] == Values(ps[..|ps| - 1], key);
  }

  lemma KeysKnownLast(ps: seq<Property>)
    requires ps != [] && KeysKnown(ps[..|ps| - 1]) && MeshKey(ps[|ps| - 1].key)
    ensures KeysKnown(ps)
  {
    forall i | 0 <= i < |ps| ensures MeshKey(ps[i].key) {
      if i < |ps| - 1 {
        assert ps[i] == ps[..|ps| - 1][i];
      }
    }
  }

  lemma VectorsFromSnoc(values: seq<string>, vs: seq<Vector>, s: string, v: Vector)
    requires VectorsFrom(values, vs) && ParseVector(s) == Ok(v)
    ensures VectorsFrom(values + [s], vs + [v])
  {
    forall k | 0 <= k < |values + [s]| ensures ParseVector((values + [s])[k]) == Ok((vs + [v])[k]) {
      if k < |values| {
        assert (values + [s])[k] == values[k] && (vs + [v])[k] == vs[k];
      }
    }
  }

  lemma SkinVerticesFromSnoc(values: seq<string>, vs: seq<Vector>, bones: seq<int>, s: string, v: Vector, bone: int)
    requires SkinVerticesFrom(values, vs, bones)
    requires SkinVertex(s).Some? && SkinVertex(s).value.1 == bone && ParseVector(SkinVertex(s).value.0) == Ok(v)
    ensures SkinVerticesFrom(values + [s], vs + [v], bones + [bone])
  {
    forall k | 0 <= k < |values + [s]|
      ensures SkinVertex((values + [s])[k]).Some? && SkinVertex((values + [s])[k]).value.1 == (bones + [bone])[k] &&
              ParseVector(SkinVertex((values + [s])[k]).value.0) == Ok((vs + [v])[k])
    {
      if k < |values| {
        assert (values + [s])[k] == values[k] && (vs + [v])[k] == vs[k] && (bones + [bone])[k] == bones[k];
      }
    }
  }

  lemma FacesFromSnoc(values: seq<string>, fs: seq<Face>, s: string, f: Face)
    requires FacesFrom(values, fs) && FaceEntry(s) == Some(FaceIndices(f))
    ensures FacesFrom(values + [s], fs + [f])
  {
    forall k | 0 <= k < |values + [s]| ensures FaceEntry((values + [s])[k]) == Some(FaceIndices((fs + [f])[k])) {
      if k < |values| {
        assert (values + [s])[k] == values[k] && (fs + [f])[k] == fs[k];
      }
    }
  }

  /** The indices a face entry yields are those of the face built from it. */
  lemma FaceOfEntry(ix: seq<nat>)
    requires |ix| == 10
    ensures MakeFace(ix[0..3], ix[3..6], ix[6..9], ix[9]).Ok?
    ensures FaceIndices(MakeFace(ix[0..3], ix[3..6], ix[6..9], ix[9]).value) == ix
  {
    assert ix[0..3] + ix[3..6] + ix[6..9] + [ix[9]] == ix;
  }

  lemma NoListsBuilt(skin: bool)
    ensures Built(skin, [], NoLists)
  {
  }

  lemma BuiltMaterial(skin: bool, ps: seq<Property>, l: MeshLists)
    requires ps != [] && Built(skin, ps[..|ps| - 1], l) && ps[|ps| - 1].key == "m"
    ensures Built(skin, ps, l.(materialNames := l.materialNames + [ps[|ps| - 1].value]))
  {
    KeysKnownLast(ps);
    ValuesOther(ps, "v");
    ValuesOther(ps, "t");
    ValuesOther(ps, "n");
    ValuesOther(ps, "f");
  }

  lemma BuiltSkinVertex(ps: seq<Property>, l: MeshLists, v: Vector, bone: int)
    requires ps != [] && Built(true, ps[..|ps| - 1], l) && ps[|ps| - 1].key == "v"
    requires SkinVertex(ps[|ps| - 1].value).Some? && SkinVertex(ps[|ps| - 1].value).value.1 == bone
    requires ParseVector(SkinVertex(ps[|ps| - 1].value).value.0) == Ok(v)
    ensures Built(true, ps, l.(vertices := l.vertices + [v], vertexBoneIndices := l.vertexBoneIndices + [bone]))
  {
    KeysKnownLast(ps);
    ValuesOther(ps, "m");
    ValuesOther(ps, "t");
    ValuesOther(ps, "n");
    ValuesOther(ps, "f");
    SkinVerticesFromSnoc(Values(ps[..|ps| - 1], "v"), l.vertices, l.vertexBoneIndices, ps[|ps| - 1].value, v, bone);
  }

  lemma BuiltVertex(ps: seq<Property>, l: MeshLists, v: Vector)
    requires ps != [] && Built(false, ps[..|ps| - 1], l) && ps[|ps| - 1].key == "v"
    requires ParseVector(ps[|ps| - 1].value) == Ok(v)
    ensures Built(false, ps, l.(vertices := l.vertices + [v]))
  {
    KeysKnownLast(ps);
    ValuesOther(ps, "m");
    ValuesOther(ps, "t");
    ValuesOther(ps, "n");
    ValuesOther(ps, "f");
    VectorsFromSnoc(Values(ps[..|ps| - 1], "v"), l.vertices, ps[|ps| - 1].value, v);
  }

  lemma BuiltTexCoord(skin: bool, ps: seq<Property>, l: MeshLists, v: Vector)
    requires ps != [] && Built(skin, ps[..|ps| - 1], l) && ps[|ps| - 1].key == "t"
    requires ParseVector(ps[|ps| - 1].value) == Ok(v)
    ensures Built(skin, ps, l.(textureCoords := l.textureCoords + [v]))
  {
    KeysKnownLast(ps);
    ValuesOther(ps, "m");
    ValuesOther(ps, "v");
    ValuesOther(ps, "n");
    ValuesOther(ps, "f");
    VectorsFromSnoc(Values(ps[..|ps| - 1], "t"), l.textureCoords, ps[|ps| - 1].value, v);
  }

  lemma BuiltNormal(skin: bool, ps: seq<Property>, l: MeshLists, v: Vector)
    requires ps != [] && Built(skin, ps[..|ps| - 1], l) && ps[|ps| - 1].key == "n"
    requires ParseVector(ps[|ps| - 1].value) == Ok(v)
    ensures Built(skin, ps, l.(normals := l.normals + [v]))
  {
    KeysKnownLast(ps);
    ValuesOther(ps, "m");
    ValuesOther(ps, "v");
    ValuesOther(ps, "t");
    ValuesOther(ps, "f");
    VectorsFromSnoc(Values(ps[..|ps| - 1], "n"), l.normals, ps[|ps| - 1].value, v);
  }

  lemma BuiltFace(skin: bool, ps: seq<Property>, l: MeshLists, f: Face)
    requires ps != [] && Built(skin, ps[..|ps| - 1], l) && ps[|ps| - 1].key == "f"
    requires FaceEntry(ps[|ps| - 1].value) == Some(FaceIndices(f))
    ensures Built(skin, ps, l.(faces := l.faces + [f]))
  {
    KeysKnownLast(ps);
    ValuesOther(ps, "m");
    ValuesOther(ps, "v");
    ValuesOther(ps, "t");
    ValuesOther(ps, "n");
    FacesFromSnoc(Values(ps[..|ps| - 1], "f"), l.faces, ps[|ps| - 1].value, f);
  }

  /** One property read by the loop keeps `Built`. */
  lemma BuiltStep(skin: bool, ps: seq<Property>, l: MeshLists)
    requires ps != [] && Built(skin, ps[..|ps| - 1], l) && MeshProperty(skin, l, ps[|ps| - 1]).Ok?
    ensures Built(skin, ps, MeshProperty(skin, l, ps[|ps| - 1]).value)
  {
    var p := ps[|ps| - 1];
    if p.key == "m" {
      BuiltMaterial(skin, ps, l);
    } else if p.key == "v" && skin {
      var m := SkinVertex(p.value).value;
      BuiltSkinVertex(ps, l, ParseVector(m.0).value, m.1);
    } else if p.key == "v" {
      BuiltVertex(ps, l, ParseVector(p.value).value);
    } else if p.key == "t" {
      BuiltTexCoord(skin, ps, l, ParseVector(p.value).value);
    } else if p.key == "n" {
      BuiltNormal(skin, ps, l, ParseVector(p.value).value);
    } else {
      var ix := FaceEntry(p.value).value;
      FaceOfEntry(ix);
      BuiltFace(skin, ps, l, MakeFace(ix[0..3], ix[3..6], ix[6..9], ix[9]).value);
    }
  }

  /** The mesh property loop, when it completes, has built exactly the
      lists of the properties' values. */
  lemma {:induction false} MeshLoopBuilds(skin: bool, ps: seq<Property>)
    requires Fold(MeshStep(skin), NoLists, ps).Ok?
    ensures Built(skin, ps, Fold(MeshStep(skin), NoLists, ps).value)
    decreases |ps|
  {
    if ps == [] {
      NoListsBuilt(skin);
    } else {
      FoldLast(MeshStep(skin), NoLists, ps);
      MeshLoopBuilds(skin, ps[..|ps| - 1]);
      BuiltStep(skin, ps, Fold(MeshStep(skin), NoLists, ps[..|ps| - 1]).value);
    }
  }

  /** A property key other than m, v, t, n and f raises. */
  lemma UnknownMeshKeyFails(skin: bool, ps: seq<Property>, i: nat)
    requires i < |ps| && !MeshKey(ps[i].key)
    ensures Fold(MeshStep(skin), NoLists, ps).Err?
  {
    if Fold(MeshStep(skin), NoLists, ps).Ok? {
      MeshLoopBuilds(skin, ps);
    }
  }

  /** A decoded skin always satisfies the vertex/bone-index parity its
      constructor checks, so decoding never raises that error. */
  lemma DecodedSkinParity(b: Block)
    requires b.blockType == "skin"
    requires Fold(MeshStep(true), NoLists, b.properties).Ok?
    ensures MeshOf(b).Ok? <==> b.identifier.Some?
    ensures MeshOf(b).Ok? ==> SkinParityHolds(MeshOf(b).value)
  {
    MeshLoopBuilds(true, b.properties);
  }

  // ---------------------------------------------------------------------------
  // The block loop

  /** The list a block type feeds: skins go with meshes. */
  function Group(blockType: string): (g: string)
    ensures g == "mesh" <==> IsMeshType(blockType)
  {
    if blockType == "skin" then "mesh" else blockType
  }

  predicate KnownType(blockType: string) {
    blockType == "fileinfo" || blockType == "instance" || blockType == "material" ||
    blockType == "mesh" || blockType == "skin" || blockType == "bone"
  }

  predicate TypesKnown(bs: seq<Block>) {
    forall i :: 0 <= i < |bs| ==> KnownType(bs[i].blockType)
  }

  /** The blocks of group `g`, in order. */
  function OfGroup(bs: seq<Block>, g: string): (r: seq<Block>)
    ensures |r| <= |bs|
    decreases |bs|
  {
    if bs == [] then []
    else OfGroup(bs[..|bs| - 1], g) + (if Group(bs[|bs| - 1].blockType) == g then [bs[|bs| - 1]] else [])
  }

  ghost predicate FileInfoFrom(blocks: seq<Block>, fi: Option<FileInfo>) {
    if fi.None? then blocks == [] else |blocks| == 1 && FileInfoOf(UnquoteBlock(blocks[0])) == Ok(fi.value)
  }

  ghost predicate MaterialsFrom(blocks: seq<Block>, xs: seq<Material>) {
    |xs| == |blocks| && forall k :: 0 <= k < |blocks| ==> MaterialOf(UnquoteBlock(blocks[k])) == Ok(xs[k])
  }

  ghost predicate InstancesFrom(blocks: seq<Block>, xs: seq<Instance>) {
    |xs| == |blocks| && forall k :: 0 <= k < |blocks| ==> InstanceOf(UnquoteBlock(blocks[k])) == Ok(xs[k])
  }

  ghost predicate BonesFrom(blocks: seq<Block>, xs: seq<Bone>) {
    |xs| == |blocks| && forall k :: 0 <= k < |blocks| ==> BoneOf(UnquoteBlock(blocks[k])) == Ok(xs[k])
  }

  ghost predicate MeshesFrom(blocks: seq<Block>, xs: seq<Mesh>) {
    |xs| == |blocks| &&
    forall k :: 0 <= k < |blocks| ==> IsMeshType(blocks[k].blockType) && MeshOf(UnquoteBlock(blocks[k])) == Ok(xs[k])
  }

  /** What the block loop has collected from the blocks it has read: every
      block has a known type, and each list holds the entities loaded from
      the blocks of its type, in order. */
  ghost predicate Collected(bs: seq<Block>, acc: Loaded) {
    TypesKnown(bs) &&
    FileInfoFrom(OfGroup(bs, "fileinfo"), acc.fileInfo) &&
    MaterialsFrom(OfGroup(bs, "material"), acc.materials) &&
    MeshesFrom(OfGroup(bs, "mesh"), acc.meshes) &&
    InstancesFrom(OfGroup(bs, "instance"), acc.instances) &&
    BonesFrom(OfGroup(bs, "bone"), acc.bones)
  }

  /** The last block leaves every other group as it was. */
  lemma OfGroupOther(bs: seq<Block>, g: string)
    requires bs != [] && Group(bs[|bs| - 1].blockType) != g
    ensures OfGroup(bs, g) == OfGroup(bs[..|bs| - 1], g)
  {
    assert OfGroup(bs[..|bs| - 1], g) + [] == OfGroup(bs[..|bs| - 1], g);
  }

  /** A group is empty exactly when no block belongs to it. */
  lemma {:induction false} OfGroupEmpty(bs: seq<Block>, g: string)
    ensures OfGroup(bs, g) == [] <==> forall i :: 0 <= i < |bs| ==> Group(bs[i].blockType) != g
    decreases |bs|
  {
    if bs != [] {
      var init := bs[..|bs| - 1];
      OfGroupEmpty(init, g);
      if Group(bs[|bs| - 1].blockType) == g {
        assert |OfGroup(bs, g)| == |OfGroup(init, g)| + 1;
      } else {
        OfGroupOther(bs, g);
        if forall i :: 0 <= i < |init| ==> Group(init[i].blockType) != g {
          forall i | 0 <= i < |bs| ensures Group(bs[i].blockType) != g {
            if i < |init| {
              assert bs[i] == init[i];
            }
          }
        } else {
          var i :| 0 <= i < |init| && Group(init[i].blockType) == g;
          assert bs[i] == init[i];
        }
      }
    }
  }

  lemma TypesKnownLast(bs: seq<Block>)
    requires bs != [] && TypesKnown(bs[..|bs| - 1]) && KnownType(bs[|bs| - 1].blockType)
    ensures TypesKnown(bs)
  {
    forall i | 0 <= i < |bs| ensures KnownType(bs[i].blockType) {
      if i < |bs| - 1 {
        assert bs[i] == bs[..|bs| - 1][i];
      }
    }
  }

  lemma MaterialsFromSnoc(blocks: seq<Block>, xs: seq<Material>, b: Block, x: Material)
    requires MaterialsFrom(blocks, xs) && MaterialOf(UnquoteBlock(b)) == Ok(x)
    ensures MaterialsFrom(blocks + [b], xs + [x])
  {
    forall k | 0 <= k < |blocks + [b]| ensures MaterialOf(UnquoteBlock((blocks + [b])[k])) == Ok((xs + [x])[k]) {
      if k < |blocks| {
        assert (blocks + [b])[k] == blocks[k] && (xs + [x])[k] == xs[k];
      }
    }
  }

  lemma InstancesFromSnoc(blocks: seq<Block>, xs: seq<Instance>, b: Block, x: Instance)
    requires InstancesFrom(blocks, xs) && InstanceOf(UnquoteBlock(b)) == Ok(x)
    ensures InstancesFrom(blocks + [b], xs + [x])
  {
    forall k | 0 <= k < |blocks + [b]| ensures InstanceOf(UnquoteBlock((blocks + [b])[k])) == Ok((xs + [x])[k]) {
      if k < |blocks| {
        assert (blocks + [b])[k] == blocks[k] && (xs + [x])[k] == xs[k];
      }
    }
  }

  lemma BonesFromSnoc(blocks: seq<Block>, xs: seq<Bone>, b: Block, x: Bone)
    requires BonesFrom(blocks, xs) && BoneOf(UnquoteBlock(b)) == Ok(x)
    ensures BonesFrom(blocks + [b], xs + [x])
  {
    forall k | 0 <= k < |blocks + [b]| ensures BoneOf(UnquoteBlock((blocks + [b])[k])) == Ok((xs + [x])[k]) {
      if k < |blocks| {
        assert (blocks + [b])[k] == blocks[k] && (xs + [x])[k] == xs[k];
      }
    }
  }

  lemma MeshesFromSnoc(blocks: seq<Block>, xs: seq<Mesh>, b: Block, x: Mesh)
    requires MeshesFrom(blocks, xs) && IsMeshType(b.blockType) && MeshOf(UnquoteBlock(b)) == Ok(x)
    ensures MeshesFrom(blocks + [b], xs + [x])
  {
    forall k | 0 <= k < |blocks + [b]|
      ensures IsMeshType((blocks + [b])[k].blockType) && MeshOf(UnquoteBlock((blocks + [b])[k])) == Ok((xs + [x])[k])
    {
      if k < |blocks| {
        assert (blocks + [b])[k] == blocks[k] && (xs + [x])[k] == xs[k];
      }
    }
  }

  lemma CollectedFileInfo(bs: seq<Block>, acc: Loaded, fi: FileInfo)
    requires bs != [] && Collected(bs[..|bs| - 1], acc) && acc.fileInfo.None?
    requires bs[|bs| - 1].blockType == "fileinfo" && FileInfoOf(UnquoteBlock(bs[|bs| - 1])) == Ok(fi)
    ensures Collected(bs, acc.(fileInfo := Some(fi)))
  {
    OfGroupOther(bs, "material");
    OfGroupOther(bs, "mesh");
    OfGroupOther(bs, "instance");
    OfGroupOther(bs, "bone");
    TypesKnownLast(bs);
  }

  lemma CollectedMaterial(bs: seq<Block>, acc: Loaded, x: Material)
    requires bs != [] && Collected(bs[..|bs| - 1], acc)
    requires bs[|bs| - 1].blockType == "material" && MaterialOf(UnquoteBlock(bs[|bs| - 1])) == Ok(x)
    ensures Collected(bs, acc.(materials := acc.materials + [x]))
  {
    OfGroupOther(bs, "fileinfo");
    OfGroupOther(bs, "mesh");
    OfGroupOther(bs, "instance");
    OfGroupOther(bs, "bone");
    TypesKnownLast(bs);
    MaterialsFromSnoc(OfGroup(bs[..|bs| - 1], "material"), acc.materials, bs[|bs| - 1], x);
  }

  lemma CollectedInstance(bs: seq<Block>, acc: Loaded, x: Instance)
    requires bs != [] && Collected(bs[..|bs| - 1], acc)
    requires bs[|bs| - 1].blockType == "instance" && InstanceOf(UnquoteBlock(bs[|bs| - 1])) == Ok(x)
    ensures Collected(bs, acc.(instances := acc.instances + [x]))
  {
    OfGroupOther(bs, "fileinfo");
    OfGroupOther(bs, "material");
    OfGroupOther(bs, "mesh");
    OfGroupOther(bs, "bone");
    TypesKnownLast(bs);
    InstancesFromSnoc(OfGroup(bs[..|bs| - 1], "instance"), acc.instances, bs[|bs| - 1], x);
  }

  lemma CollectedBone(bs: seq<Block>, acc: Loaded, x: Bone)
    requires bs != [] && Collected(bs[..|bs| - 1], acc)
    requires bs[|bs| - 1].blockType == "bone" && BoneOf(UnquoteBlock(bs[|bs| - 1])) == Ok(x)
    ensures Collected(bs, acc.(bones := acc.bones + [x]))
  {
    OfGroupOther(bs, "fileinfo");
    OfGroupOther(bs, "material");
    OfGroupOther(bs, "mesh");
    OfGroupOther(bs, "instance");
    TypesKnownLast(bs);
    BonesFromSnoc(OfGroup(bs[..|bs| - 1], "bone"), acc.bones, bs[|bs| - 1], x);
  }

  lemma CollectedMesh(bs: seq<Block>, acc: Loaded, x: Mesh)
    requires bs != [] && Collected(bs[..|bs| - 1], acc)
    requires IsMeshType(bs[|bs| - 1].blockType) && MeshOf(UnquoteBlock(bs[|bs| - 1])) == Ok(x)
    ensures Collected(bs, acc.(meshes := acc.meshes + [x]))
  {
    OfGroupOther(bs, "fileinfo");
    OfGroupOther(bs, "material");
    OfGroupOther(bs, "instance");
    OfGroupOther(bs, "bone");
    TypesKnownLast(bs);
    MeshesFromSnoc(OfGroup(bs[..|bs| - 1], "mesh"), acc.meshes, bs[|bs| - 1], x);
  }

  /** The block types are distinct, settled once as for the mesh keys. */
  lemma BlockTypes(t: string)
    ensures t == "fileinfo" ==> t != "instance" && t != "material" && t != "mesh" && t != "skin" && t != "bone"
    ensures t == "instance" ==> t != "fileinfo" && t != "material" && t != "mesh" && t != "skin" && t != "bone"
    ensures t == "material" ==> t != "fileinfo" && t != "instance" && t != "mesh" && t != "skin" && t != "bone"
    ensures t == "mesh" ==> t != "fileinfo" && t != "instance" && t != "material" && t != "skin" && t != "bone"
    ensures t == "skin" ==> t != "fileinfo" && t != "instance" && t != "material" && t != "mesh" && t != "bone"
    ensures t == "bone" ==> t != "fileinfo" && t != "instance" && t != "material" && t != "mesh" && t != "skin"
  {
  }

  /** One block read by the loop keeps `Collected`. */
  lemma CollectedStep(bs: seq<Block>, acc: Loaded)
    requires bs != [] && Collected(bs[..|bs| - 1], acc) && LoadStep(acc, bs[|bs| - 1]).Ok?
    ensures Collected(bs, LoadStep(acc, bs[|bs| - 1]).value)
  {
    var b := bs[|bs| - 1];
    var u := UnquoteBlock(b);
    BlockTypes(b.blockType);
    if b.blockType == "fileinfo" {
      CollectedFileInfo(bs, acc, FileInfoOf(u).value);
    } else if b.blockType == "instance" {
      CollectedInstance(bs, acc, InstanceOf(u).value);
    } else if b.blockType == "material" {
      CollectedMaterial(bs, acc, MaterialOf(u).value);
    } else if IsMeshType(b.blockType) {
      CollectedMesh(bs, acc, MeshOf(u).value);
    } else {
      CollectedBone(bs, acc, BoneOf(u).value);
    }
  }

  lemma NothingCollected()
    ensures Collected([], Nothing)
  {
  }

  /** The block loop, as long as it has not raised, has collected exactly
      the entities of the blocks read. */
  lemma {:induction false} LoopCollects(bs: seq<Block>)
    requires Fold(LoadStep, Nothing, bs).Ok?
    ensures Collected(bs, Fold(LoadStep, Nothing, bs).value)
    decreases |bs|
  {
    if bs == [] {
      NothingCollected();
    } else {
      FoldLast(LoadStep, Nothing, bs);
      LoopCollects(bs[..|bs| - 1]);
      CollectedStep(bs, Fold(LoadStep, Nothing, bs[..|bs| - 1]).value);
    }
  }

  /** A decoded TPM has exactly one file info block, every block has a known
      type, and each entity list holds what the blocks of its type load to,
      in file order. */
  lemma DecodeContents(bs: seq<Block>)
    requires Decode(bs).Ok?
    ensures TypesKnown(bs)
    ensures |OfGroup(bs, "fileinfo")| == 1
    ensures FileInfoOf(UnquoteBlock(OfGroup(bs, "fileinfo")[0])) == Ok(Decode(bs).value.fileInfo)
    ensures MaterialsFrom(OfGroup(bs, "material"), Decode(bs).value.materials)
    ensures MeshesFrom(OfGroup(bs, "mesh"), Decode(bs).value.meshes)
    ensures InstancesFrom(OfGroup(bs, "instance"), Decode(bs).value.instances)
    ensures BonesFrom(OfGroup(bs, "bone"), Decode(bs).value.bones)
  {
    LoopCollects(bs);
  }

  /** Once the loop has read every block before `j` without raising, block
      `j`'s outcome decides. */
  lemma DecodeStopsAt(bs: seq<Block>, j: nat)
    requires j < |bs| && Fold(LoadStep, Nothing, bs[..j]).Ok?
    requires LoadStep(Fold(LoadStep, Nothing, bs[..j]).value, bs[j]).Err?
    ensures Decode(bs) == Err(LoadStep(Fold(LoadStep, Nothing, bs[..j]).value, bs[j]).error)
  {
    FoldPrefixStep(LoadStep, Nothing, bs, j);
    FoldStopsAtError(LoadStep, Nothing, bs, j + 1);
  }

  /** A second fileinfo block raises, provided nothing before it did. */
  lemma SecondFileInfo(bs: seq<Block>, i: nat, j: nat)
    requires i < j < |bs|
    requires bs[i].blockType == "fileinfo" && bs[j].blockType == "fileinfo"
    requires Fold(LoadStep, Nothing, bs[..j]).Ok?
    ensures Decode(bs) == Err(MultipleFileInfo)
  {
    var pre := bs[..j];
    LoopCollects(pre);
    assert pre[i] == bs[i];
    OfGroupEmpty(pre, "fileinfo");
    DecodeStopsAt(bs, j);
  }

  /** A file without a fileinfo block raises, unless another block raised
      first. */
  lemma NoFileInfo(bs: seq<Block>)
    requires forall i :: 0 <= i < |bs| ==> bs[i].blockType != "fileinfo"
    ensures Fold(LoadStep, Nothing, bs).Ok? ==> Decode(bs) == Err(MissingFileInfo)
  {
    if Fold(LoadStep, Nothing, bs).Ok? {
      LoopCollects(bs);
      OfGroupEmpty(bs, "fileinfo");
    }
  }

  /** A block of any other type raises, provided nothing before it did. */
  lemma UnknownBlockType(bs: seq<Block>, j: nat)
    requires j < |bs| && !KnownType(bs[j].blockType)
    requires Fold(LoadStep, Nothing, bs[..j]).Ok?
    ensures Decode(bs) == Err(UnexpectedBlockType(bs[j].blockType))
  {
    DecodeStopsAt(bs, j);
  }
}
