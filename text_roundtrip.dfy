/** Writing a TPM to text and reading the text back (io_mesh_tpm/tpm_types.py):
    TPMToTPMRaw, then TPMRawToString, then StringToTPMRaw, then
    TPMRawToTPM gives the model again, up to what `Normalize` drops.

    The text adds its own demands to those of the blocks (`Wire`). Every
    name written as a header identifier must be non-empty and free of
    double quotes, since the header regex reads `"[^"]+"` between the
    quotes. Every value must stay on its line. A value written without
    quotes must be non-empty and have no surrounding whitespace, since
    the property regex reads `.+` and the reader strips each line.
    `TextWire` collects these demands. A mesh with an empty name shows
    that the writer does produce text the reader refuses. */
module TextRoundTrip {
  import opened Errors
  import opened Text
  import opened Quoting
  import opened Vectors
  import opened RawFormat
  import opened RawLaws
  import opened Entities
  import opened Patterns
  import opened Decoding
  import opened Encoding
  import opened RoundTrip

  // ---------------------------------------------------------------------------
  // What the text demands

  /** A name the writer puts between quotes on a header line. */
  predicate NameText(s: string) {
    s != [] && '"' !in s && NoLineBreak(s)
  }

  /** An optional value written between quotes. */
  predicate QuotedText(o: Option<string>) {
    Truthy(o) ==> NoLineBreak(o.value)
  }

  /** An optional value written as it is. */
  predicate BareText(o: Option<string>) {
    Truthy(o) ==> Clean(o.value) && NoLineBreak(o.value)
  }

  predicate FileInfoText(fi: FileInfo) {
    fi.formatVersion != [] && Clean(fi.formatVersion) && NoLineBreak(fi.formatVersion) &&
    QuotedText(fi.name) && BareText(fi.version) && QuotedText(fi.source) && BareText(fi.date) &&
    QuotedText(fi.comments)
  }

  predicate MaterialText(m: Material) {
    NameText(m.name) && QuotedText(m.colourmap) && QuotedText(m.bumpmap) && QuotedText(m.opacitymap)
  }

  predicate MeshText(m: Mesh) {
    NameText(m.name) && forall k :: 0 <= k < |m.materialNames| ==> NoLineBreak(m.materialNames[k])
  }

  predicate InstanceText(x: Instance) {
    NameText(x.name) && NoLineBreak(x.mesh)
  }

  /** Every text of the model survives its line of the file. */
  predicate TextWire(tpm: TPM) {
    FileInfoText(tpm.fileInfo) &&
    (forall i :: 0 <= i < |tpm.materials| ==> MaterialText(tpm.materials[i])) &&
    (forall i :: 0 <= i < |tpm.meshes| ==> MeshText(tpm.meshes[i])) &&
    (forall i :: 0 <= i < |tpm.instances| ==> InstanceText(tpm.instances[i])) &&
    (forall i :: 0 <= i < |tpm.bones| ==> NameText(tpm.bones[i].name))
  }

  // ---------------------------------------------------------------------------
  // Lines that survive

  /** A property whose line is written and read back as it is. */
  predicate SentProperty(p: Property) {
    WritableProperty(p) && NoLineBreak(p.value)
  }

  predicate SentProperties(ps: seq<Property>) {
    forall i :: 0 <= i < |ps| ==> SentProperty(ps[i])
  }

  /** A block whose lines are written and read back, and whose identifier
      TPMRawToTPM unquotes to what it would have got from the block itself. */
  predicate Sent(b: Block) {
    WritableBlock(b) && Unbroken(b) && b.identifier != Some([])
  }

  predicate AllSent(bs: seq<Block>) {
    forall i :: 0 <= i < |bs| ==> Sent(bs[i])
  }

  lemma SentAppend(ps: seq<Property>, qs: seq<Property>)
    requires SentProperties(ps) && SentProperties(qs)
    ensures SentProperties(ps + qs)
  {
    forall i | 0 <= i < |ps + qs| ensures SentProperty((ps + qs)[i]) {
      if i >= |ps| {
        assert (ps + qs)[i] == qs[i - |ps|];
      }
    }
  }

  lemma AllSentAppend(bs: seq<Block>, cs: seq<Block>)
    requires AllSent(bs) && AllSent(cs)
    ensures AllSent(bs + cs)
  {
    forall i | 0 <= i < |bs + cs| ensures Sent((bs + cs)[i]) {
      if i >= |bs| {
        assert (bs + cs)[i] == cs[i - |bs|];
      }
    }
  }

  /** The keys and block types the writer uses are words. */
  lemma Words()
    ensures WordText("fileinfo") && WordText("material") && WordText("mesh") && WordText("skin") &&
            WordText("instance") && WordText("bone")
    ensures WordText("formatversion") && WordText("name") && WordText("version") && WordText("source") &&
            WordText("date") && WordText("comments")
    ensures WordText("colormap") && WordText("bumpmap") && WordText("opacitymap")
    ensures WordText("m") && WordText("v") && WordText("t") && WordText("n") && WordText("f")
    ensures WordText("position") && WordText("rotation") && WordText("scale")
  {
    TypeWords();
    FileInfoWords();
    OtherWords();
  }

  lemma TypeWords()
    ensures WordText("fileinfo") && WordText("material") && WordText("mesh") && WordText("skin") &&
            WordText("instance") && WordText("bone")
  {
  }

  lemma FileInfoWords()
    ensures WordText("formatversion") && WordText("name") && WordText("version") && WordText("source") &&
            WordText("date") && WordText("comments")
  {
  }

  lemma OtherWords()
    ensures WordText("colormap") && WordText("bumpmap") && WordText("opacitymap")
    ensures WordText("m") && WordText("v") && WordText("t") && WordText("n") && WordText("f")
    ensures WordText("position") && WordText("rotation") && WordText("scale")
  {
  }

  /** A quoted value: its quotes keep it clean and non-empty. */
  lemma QuotedSent(key: string, s: string)
    requires WordText(key) && NoLineBreak(s)
    ensures SentProperty(Property(key, EncloseInQuotes(s)))
  {
    var q := EncloseInQuotes(s);
    forall i | 0 <= i < |q| ensures !IsLineBreak(q[i]) {
      if 0 < i < |q| - 1 {
        assert q[i] == s[i - 1];
      }
    }
    assert '\n' !in q by {
      assert IsLineBreak('\n');
    }
  }

  /** A bare value that is clean, non-empty and on one line. */
  lemma BareSent(key: string, s: string)
    requires WordText(key) && s != [] && Clean(s) && NoLineBreak(s)
    ensures SentProperty(Property(key, s))
  {
    assert '\n' !in s by {
      assert IsLineBreak('\n');
    }
  }

  lemma OptionalSent(key: string, o: Option<string>, quote: bool)
    requires WordText(key)
    requires if quote then QuotedText(o) else BareText(o)
    ensures SentProperties(Optional(key, o, quote))
  {
    if Truthy(o) {
      if quote {
        QuotedSent(key, o.value);
      } else {
        BareSent(key, o.value);
      }
    }
  }

  /** A name between quotes is a writable identifier that reads back. */
  lemma NameSent(ty: string, name: string, ps: seq<Property>)
    requires WordText(ty) && NameText(name) && SentProperties(ps)
    ensures Sent(Block(ty, Some(EncloseInQuotes(name)), ps))
  {
    var q := EncloseInQuotes(name);
    ChopQuotesOfEnclosed(name);
    forall i | 0 <= i < |q| ensures !IsLineBreak(q[i]) {
      if 0 < i < |q| - 1 {
        assert q[i] == name[i - 1];
      }
    }
  }

  // ---------------------------------------------------------------------------
  // The texts of vectors and faces

  lemma {:induction false} JoinUnbroken(parts: seq<Component>)
    requires forall k :: 0 <= k < |parts| ==> WireComponent(parts[k])
    ensures NoLineBreak(Join(parts, ','))
    decreases |parts|
  {
    if |parts| >= 1 {
      FloatLiteralChars(parts[0]);
      forall i | 0 <= i < |parts[0]| ensures !IsLineBreak(parts[0][i]) {
        NumeralCharIsPlain(parts[0][i]);
      }
      if |parts| > 1 {
        JoinUnbroken(parts[1..]);
        UnbrokenJoin(parts[0], [',']);
        UnbrokenJoin(parts[0] + [','], Join(parts[1..], ','));
      }
    }
  }

  /** `(a,b,c)`: clean, non-empty and on one line. */
  lemma VectorSent(key: string, v: Vector, n: nat)
    requires WordText(key) && n >= 1 && WireVector(v, n)
    ensures FormatLeading(v, n).Ok?
    ensures SentProperty(Property(key, FormatLeading(v, n).value))
  {
    var j := Join(v[..n], ',');
    JoinUnbroken(v[..n]);
    UnbrokenJoin("(", j);
    UnbrokenJoin("(" + j, ")");
    BareSent(key, FormatVector(v[..n]));
  }

  lemma DigitsUnbroken(x: int)
    requires x >= 0
    ensures NoLineBreak(IntToString(x))
  {
    var s := IntToString(x);
    forall i | 0 <= i < |s| ensures !IsLineBreak(s[i]) {
      assert IsDigit(s[i]);
    }
  }

  lemma TripleUnbroken(x: seq<int>)
    requires |x| == 3 && NonNegative(x)
    ensures NoLineBreak(TripleText(x))
  {
    var a, b, c := IntToString(x[0]), IntToString(x[1]), IntToString(x[2]);
    DigitsUnbroken(x[0]);
    DigitsUnbroken(x[1]);
    DigitsUnbroken(x[2]);
    UnbrokenJoin("(", a);
    UnbrokenJoin("(" + a, ",");
    UnbrokenJoin("(" + a + ",", b);
    UnbrokenJoin("(" + a + "," + b, ",");
    UnbrokenJoin("(" + a + "," + b + ",", c);
    UnbrokenJoin("(" + a + "," + b + "," + c, ")");
  }

  /** The face text starts with `(` and ends with a digit. */
  lemma FaceSent(f: Face)
    requires FaceWire(f)
    ensures SentProperty(FaceProperty(f))
  {
    var v, t, n, m := f.vertexIndices, f.texCoordIndices, f.normalIndices, f.materialIndex;
    var tv, tt, tn, tm := TripleText(v), TripleText(t), TripleText(n), IntToString(m);
    TripleUnbroken(v);
    TripleUnbroken(t);
    TripleUnbroken(n);
    DigitsUnbroken(m);
    UnbrokenJoin(tv, ",");
    UnbrokenJoin(tv + ",", tt);
    UnbrokenJoin(tv + "," + tt, ",");
    UnbrokenJoin(tv + "," + tt + ",", tn);
    UnbrokenJoin(tv + "," + tt + "," + tn, ",");
    UnbrokenJoin(tv + "," + tt + "," + tn + ",", tm);
    var s := FaceText(v, t, n, m);
    assert s[0] == '(';
    assert s[|s| - 1] == tm[|tm| - 1];
    assert IsDigit(tm[|tm| - 1]);
    Words();
    BareSent("f", s);
  }

  /** `(a,b,c),bone`: clean, non-empty and on one line. */
  lemma SkinVertexSent(v: Vector, bone: int)
    requires WireVector(v, 3) && bone >= 0
    ensures SkinVertexProperty((v, bone)).Ok?
    ensures SentProperty(SkinVertexProperty((v, bone)).value)
  {
    Words();
    VectorSent("v", v, 3);
    var vt, bt := FormatVector(v[..3]), IntToString(bone);
    DigitsUnbroken(bone);
    UnbrokenJoin(vt, ",");
    UnbrokenJoin(vt + ",", bt);
    var s := SkinVertexText(vt, bone);
    assert s[0] == '(';
    assert s[|s| - 1] == bt[|bt| - 1];
    assert IsDigit(bt[|bt| - 1]);
    BareSent("v", s);
  }

  // ---------------------------------------------------------------------------
  // The blocks the writer produces

  lemma FileInfoSent(fi: FileInfo)
    requires FileInfoText(fi)
    ensures Sent(FileInfoBlock(fi))
  {
    Words();
    BareSent("formatversion", fi.formatVersion);
    OptionalSent("name", fi.name, true);
    OptionalSent("version", fi.version, false);
    OptionalSent("source", fi.source, true);
    OptionalSent("date", fi.date, false);
    OptionalSent("comments", fi.comments, true);
    var p0 := [Property("formatversion", fi.formatVersion)];
    var p1 := p0 + Optional("name", fi.name, true);
    var p2 := p1 + Optional("version", fi.version, false);
    var p3 := p2 + Optional("source", fi.source, true);
    var p4 := p3 + Optional("date", fi.date, false);
    SentAppend(p0, Optional("name", fi.name, true));
    SentAppend(p1, Optional("version", fi.version, false));
    SentAppend(p2, Optional("source", fi.source, true));
    SentAppend(p3, Optional("date", fi.date, false));
    SentAppend(p4, Optional("comments", fi.comments, true));
  }

  lemma MaterialSent(m: Material)
    requires MaterialText(m)
    ensures Sent(MaterialBlock(m))
  {
    Words();
    OptionalSent("colormap", m.colourmap, true);
    OptionalSent("bumpmap", m.bumpmap, true);
    OptionalSent("opacitymap", m.opacitymap, true);
    var p1 := Optional("colormap", m.colourmap, true) + Optional("bumpmap", m.bumpmap, true);
    SentAppend(Optional("colormap", m.colourmap, true), Optional("bumpmap", m.bumpmap, true));
    SentAppend(p1, Optional("opacitymap", m.opacitymap, true));
    NameSent("material", m.name, MaterialProperties(m));
  }

  lemma VertexPropertiesSent(m: Mesh)
    requires MeshWire(m)
    ensures VertexProperties(m).Ok? && SentProperties(VertexProperties(m).value)
  {
    Words();
    match m.kind
    case Plain =>
      forall k | 0 <= k < |m.vertices| ensures VertexProperty(m.vertices[k]).Ok? {
        VectorSent("v", m.vertices[k], 3);
      }
      var ps := VertexProperties(m).value;
      forall k | 0 <= k < |ps| ensures SentProperty(ps[k]) {
        VectorSent("v", m.vertices[k], 3);
      }
    case Skin(bones) =>
      var z := Zip(m.vertices, bones);
      forall k | 0 <= k < |z| ensures SkinVertexProperty(z[k]).Ok? {
        SkinVertexSent(m.vertices[k], bones[k]);
      }
      var ps := VertexProperties(m).value;
      forall k | 0 <= k < |ps| ensures SentProperty(ps[k]) {
        SkinVertexSent(m.vertices[k], bones[k]);
      }
  }

  lemma VectorPropertiesSent(key: string, f: Vector -> Result<Property>, vs: seq<Vector>, n: nat)
    requires WordText(key) && n >= 1 && VectorsWire(vs, n)
    requires forall v :: f(v) == (var text :- FormatLeading(v, n); Ok(Property(key, text)))
    ensures MapAll(f, vs).Ok? && SentProperties(MapAll(f, vs).value)
  {
    forall k | 0 <= k < |vs| ensures f(vs[k]).Ok? {
      VectorSent(key, vs[k], n);
    }
    var ps := MapAll(f, vs).value;
    forall k | 0 <= k < |ps| ensures SentProperty(ps[k]) {
      VectorSent(key, vs[k], n);
    }
  }

  lemma MeshSent(m: Mesh)
    requires MeshWire(m) && MeshText(m)
    ensures MeshBlock(m).Ok? && Sent(MeshBlock(m).value)
  {
    Words();
    var names := NameProperties(m.materialNames);
    forall k | 0 <= k < |names| ensures SentProperty(names[k]) {
      QuotedSent("m", m.materialNames[k]);
    }
    VertexPropertiesSent(m);
    VectorPropertiesSent("t", TexCoordProperty, m.textureCoords, 2);
    VectorPropertiesSent("n", NormalProperty, m.normals, 3);
    var faces := FaceProperties(m.faces);
    forall k | 0 <= k < |faces| ensures SentProperty(faces[k]) {
      FaceSent(m.faces[k]);
    }
    var vs := VertexProperties(m).value;
    var ts := MapAll(TexCoordProperty, m.textureCoords).value;
    var ns := MapAll(NormalProperty, m.normals).value;
    SentAppend(names, vs);
    SentAppend(names + vs, ts);
    SentAppend(names + vs + ts, ns);
    SentAppend(names + vs + ts + ns, faces);
    NameSent(if m.kind.Skin? then "skin" else "mesh", m.name, MeshProperties(m).value);
  }

  lemma InstanceSent(x: Instance, toDegrees: Vector -> Vector)
    requires InstanceWire(x, toDegrees) && InstanceText(x)
    ensures InstanceBlock(x, toDegrees).Ok? && Sent(InstanceBlock(x, toDegrees).value)
  {
    Words();
    QuotedSent("mesh", x.mesh);
    VectorSent("position", x.position, 3);
    VectorSent("rotation", toDegrees(x.rotation), 3);
    FloatLiteralChars(x.scale);
    if x.scale != [] {
      NumeralCharIsPlain(x.scale[0]);
      NumeralCharIsPlain(x.scale[|x.scale| - 1]);
    }
    forall i | 0 <= i < |x.scale| ensures !IsLineBreak(x.scale[i]) {
      NumeralCharIsPlain(x.scale[i]);
    }
    BareSent("scale", x.scale);
    NameSent("instance", x.name, InstanceBlock(x, toDegrees).value.properties);
  }

  lemma BoneSent(b: Bone, toDegrees: Vector -> Vector)
    requires BoneWire(b, toDegrees) && NameText(b.name)
    ensures BoneBlock(b, toDegrees).Ok? && Sent(BoneBlock(b, toDegrees).value)
  {
    Words();
    VectorSent("position", b.position, 3);
    VectorSent("rotation", toDegrees(b.rotation), 3);
    NameSent("bone", b.name, BoneBlock(b, toDegrees).value.properties);
  }

  /** Every block of an encoded wire model survives its lines. */
  lemma EncodeSent(tpm: TPM, toDegrees: Vector -> Vector)
    requires Wire(tpm, toDegrees) && TextWire(tpm)
    ensures Encode(tpm, toDegrees).Ok? && AllSent(Encode(tpm, toDegrees).value)
  {
    FileInfoSent(tpm.fileInfo);
    var f := [FileInfoBlock(tpm.fileInfo)];
    var p := MaterialBlocks(tpm.materials);
    forall k | 0 <= k < |p| ensures Sent(p[k]) {
      MaterialSent(tpm.materials[k]);
    }
    forall k | 0 <= k < |tpm.meshes| ensures MeshBlock(tpm.meshes[k]).Ok? {
      MeshSent(tpm.meshes[k]);
    }
    forall k | 0 <= k < |tpm.instances| ensures InstanceEncoder(toDegrees)(tpm.instances[k]).Ok? {
      InstanceSent(tpm.instances[k], toDegrees);
    }
    forall k | 0 <= k < |tpm.bones| ensures BoneEncoder(toDegrees)(tpm.bones[k]).Ok? {
      BoneSent(tpm.bones[k], toDegrees);
    }
    var q := MapAll(MeshBlock, tpm.meshes).value;
    var r := MapAll(InstanceEncoder(toDegrees), tpm.instances).value;
    var t := MapAll(BoneEncoder(toDegrees), tpm.bones).value;
    forall k | 0 <= k < |q| ensures Sent(q[k]) {
      MeshSent(tpm.meshes[k]);
    }
    forall k | 0 <= k < |r| ensures Sent(r[k]) {
      InstanceSent(tpm.instances[k], toDegrees);
    }
    forall k | 0 <= k < |t| ensures Sent(t[k]) {
      BoneSent(tpm.bones[k], toDegrees);
    }
    AllSentAppend(f, p);
    AllSentAppend(f + p, q);
    AllSentAppend(f + p + q, r);
    AllSentAppend(f + p + q + r, t);
    assert Encode(tpm, toDegrees).value == f + p + q + r + t;
  }

  // ---------------------------------------------------------------------------
  // Reading the identifier twice

  /** The header regex already takes the quotes off a written identifier;
      TPMRawToTPM's own unquoting then leaves the name alone, since it holds
      no quote. */
  lemma ReadBackUnquoted(b: Block)
    requires Sent(b)
    ensures UnquoteBlock(ReadBack(b)) == UnquoteBlock(b)
  {
    if b.identifier.Some? {
      var x := ChopQuotes(b.identifier.value).0;
      assert ReadIdentifier(b.identifier) == Some(x);
      assert !Quoted(x);
    }
  }

  lemma {:induction false} LoadReadBacks(acc: Loaded, bs: seq<Block>)
    requires AllSent(bs)
    ensures Fold(LoadStep, acc, ReadBacks(bs)) == Fold(LoadStep, acc, bs)
    decreases |bs|
  {
    if bs != [] {
      var n := |bs|;
      var rs := ReadBacks(bs);
      assert rs[..n - 1] == ReadBacks(bs[..n - 1]);
      LoadReadBacks(acc, bs[..n - 1]);
      ReadBackUnquoted(bs[n - 1]);
      assert rs[n - 1] == ReadBack(bs[n - 1]);
    }
  }

  // ---------------------------------------------------------------------------
  // The whole trip

  /** TPMToTPMRaw, TPMRawToString, StringToTPMRaw and TPMRawToTPM in a row
      give back the model, normalised as the block round trip promises. */
  lemma TextRoundTrip(tpm: TPM, toDegrees: Vector -> Vector)
    requires Wire(tpm, toDegrees) && TextWire(tpm)
    ensures Encode(tpm, toDegrees).Ok?
    ensures var text := Join(RawLines(Encode(tpm, toDegrees).value), '\n');
            ParseLines(SplitLines(text)).Ok? &&
            Decode(ParseLines(SplitLines(text)).value) == Ok(Normalize(tpm, toDegrees))
  {
    EncodeSent(tpm, toDegrees);
    var bs := Encode(tpm, toDegrees).value;
    StringRoundTrip(bs);
    LoadReadBacks(Nothing, bs);
    EncodeDecode(tpm, toDegrees);
  }

  // ---------------------------------------------------------------------------
  // What the text cannot carry

  /** `mesh ""` is not a header: `"[^"]+"` needs a character between the
      quotes, and without them the line would end at its type and spaces. */
  lemma EmptyNameHeader()
    ensures ParseHeader("mesh \"\"").None?
  {
    var line := "mesh \"\"";
    if ParseHeader(line).Some? {
      HeaderSound(line);
    }
  }

  /** The blocks of a file holding one mesh with an empty name. */
  lemma EmptyMeshEncoded(fi: FileInfo, toDegrees: Vector -> Vector)
    ensures var tpm := TPM(fi, [], [Mesh("", [], [], [], [], [], Plain)], [], []);
            Encode(tpm, toDegrees) == Ok([FileInfoBlock(fi), Block("mesh", Some("\"\""), [])])
  {
    var m := Mesh("", [], [], [], [], [], Plain);
    var tpm := TPM(fi, [], [m], [], []);
    var fb := FileInfoBlock(fi);
    var mb := Block("mesh", Some("\"\""), []);
    assert EncloseInQuotes("") == "\"\"";
    var none: seq<Property> := [];
    assert VertexProperties(m) == Ok(none);
    assert MapAll(TexCoordProperty, m.textureCoords) == Ok(none);
    assert MapAll(NormalProperty, m.normals) == Ok(none);
    assert NameProperties([]) + none + none + none + FaceProperties([]) == none;
    assert MeshBlock(m) == Ok(mb);
    var ms := MapAll(MeshBlock, [m]);
    assert ms.Ok? && MeshBlock([m][0]) == Ok(ms.value[0]);
    assert ms.value == [mb];
    var nothing: seq<Block> := [];
    assert MaterialBlocks([]) == nothing;
    assert MapAll(InstanceEncoder(toDegrees), tpm.instances) == Ok(nothing);
    assert MapAll(BoneEncoder(toDegrees), tpm.bones) == Ok(nothing);
    assert [fb] + nothing + [mb] + nothing + nothing == [fb, mb];
  }

  /** `mesh ""` is a significant line that is not a header. */
  lemma EmptyNameLine()
    ensures var line := "mesh \"\"";
            !Trivial(line) && Strip(line) == line && ParseHeader(Strip(line)).None?
  {
    var line := "mesh \"\"";
    StripOfClean(line);
    assert !AllSpace(line) by {
      assert !IsSpace(line[0]);
    }
    assert !StartsWith(line, "//") by {
      assert line[0] != '/';
    }
    EmptyNameHeader();
  }

  lemma EmptyNameUnbroken()
    ensures var ls := ["mesh \"\""] + ["{", "}"];
            forall k :: 0 <= k < |ls| ==> NoLineBreak(ls[k])
  {
    assert NoLineBreak("mesh \"\"") && NoLineBreak("{") && NoLineBreak("}");
  }

  /** Lines and a final empty one, as `splitlines` gives them back after
      the lines `pre`. */
  lemma LinesAfter(pre: seq<string>, ls: seq<string>)
    requires forall k :: 0 <= k < |pre| ==> NoLineBreak(pre[k])
    requires forall k :: 0 <= k < |ls| ==> NoLineBreak(ls[k])
    ensures SplitLines(Join(pre + (ls + [""]), '\n')) == pre + ls
  {
    var all := pre + (ls + [""]);
    assert NoLineBreak("");
    UnbrokenAppend(ls, [""]);
    UnbrokenAppend(pre, ls + [""]);
    SplitLinesJoin(all);
    assert all[..|all| - 1] == pre + ls;
  }

  /** The lines written for a block that survives its lines, then for the
      mesh block with the empty identifier. */
  lemma EmptyNameRawLines(fb: Block)
    ensures RawLines([fb, Block("mesh", Some("\"\""), [])]) ==
            RawLines([fb]) + ((["mesh \"\""] + ["{", "}"]) + [""])
  {
    var mb := Block("mesh", Some("\"\""), []);
    assert [fb, mb] == [fb] + [mb];
    RawLinesSnoc([fb], mb);
    assert HeaderLine(mb) == "mesh \"\"";
    assert PropertyLines([]) == [];
    assert BlockLines(mb) == (["mesh \"\""] + ["{", "}"]) + [""];
  }

  /** After any block that survives its lines, the lines of a mesh block
      with the empty identifier `""` stop the parser at its header. */
  lemma EmptyNameText(fb: Block)
    requires Sent(fb)
    ensures ParseLines(SplitLines(Join(RawLines([fb, Block("mesh", Some("\"\""), [])]), '\n'))) ==
            Err(ExpectedTypeIdentifier("mesh \"\""))
  {
    var line := "mesh \"\"";
    EmptyNameRawLines(fb);
    UnbrokenRawLines([fb]);
    EmptyNameUnbroken();
    LinesAfter(RawLines([fb]), [line] + ["{", "}"]);
    EmptyNameLine();
    HeaderExpected([fb], line, ["{", "}"]);
  }

  /** The writer accepts a mesh with an empty name, and its blocks decode,
      but the text it writes for them does not parse: the header line
      `mesh ""` raises ExpectedTypeIdentifier. */
  lemma EmptyMeshNameUnreadable(fi: FileInfo, toDegrees: Vector -> Vector)
    requires FileInfoWire(fi) && FileInfoText(fi)
    ensures var tpm := TPM(fi, [], [Mesh("", [], [], [], [], [], Plain)], [], []);
            Encode(tpm, toDegrees).Ok? &&
            Decode(Encode(tpm, toDegrees).value).Ok? &&
            ParseLines(SplitLines(Join(RawLines(Encode(tpm, toDegrees).value), '\n'))) ==
            Err(ExpectedTypeIdentifier("mesh \"\""))
  {
    var tpm := TPM(fi, [], [Mesh("", [], [], [], [], [], Plain)], [], []);
    EmptyMeshEncoded(fi, toDegrees);
    EncodeDecode(tpm, toDegrees);
    FileInfoSent(fi);
    EmptyNameText(FileInfoBlock(fi));
  }
}
