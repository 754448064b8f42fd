/** The older copies of the reader and the writers that io_mesh_tpm/tpm_utils.py
    still carries, and its file writer WriteTPMRawToFile.

    The older StringToTPMRaw applies the same grammar as LinesToTPMRaw. The
    older TPMRawToTPM knows no skins and no bones: it strips quotes from every
    block, passes over `skin` and `bone` blocks, and loads the other four block
    types exactly as the current loader does. The older TPMToTPMRaw writes
    every mesh as a plain mesh, writes no bones, and converts each rotation
    component with `math.degrees`. The older `TPM` has no bone list; here its
    bone list is always empty. */
module Legacy {
  import opened Errors
  import opened Text
  import opened Vectors
  import opened RawFormat
  import opened Entities
  import opened Decoding
  import opened Encoding

  // ---------------------------------------------------------------------------
  // Reading

  /** The older StringToTPMRaw: the lines of the text as `splitlines` cuts
      them, parsed by the same grammar as the current LinesToTPMRaw. */
  method StringToTPMRaw(tpmData: string) returns (r: Result<seq<Block>>)
    ensures r == ParseLines(SplitLines(tpmData))
  {
    r := LinesToTPMRaw(SplitLines(tpmData));
  }

  /** The block types the older loader loads. */
  predicate LoadedType(blockType: string) {
    blockType == "fileinfo" || blockType == "instance" || blockType == "material" || blockType == "mesh"
  }

  /** The block types the older loader passes over. */
  predicate SkippedType(blockType: string) {
    blockType == "skin" || blockType == "bone"
  }

  /** The type dispatch of the older loop for one unquoted block. */
  function LegacyLoadBlock(acc: Loaded, b: Block): Result<Loaded> {
    if LoadedType(b.blockType) then LoadBlock(acc, b)
    else if SkippedType(b.blockType) then Ok(acc)
    else Err(UnexpectedBlockType(b.blockType))
  }

  /** One iteration of the older block loop: unquote, then load or skip. */
  function LegacyStep(acc: Loaded, b: Block): Result<Loaded> {
    LegacyLoadBlock(acc, UnquoteBlock(b))
  }

  /** What the older TPMRawToTPM returns for the blocks `bs`. */
  function LegacyDecode(bs: seq<Block>): Result<TPM> {
    var acc :- Fold(LegacyStep, Nothing, bs);
    MakeTPM(acc.fileInfo, acc.materials, acc.meshes, acc.instances, [])
  }

  /** Dropping a skin or bone block from a document does not change what the
      older loader returns. */
  lemma SkinAndBoneIgnored(bs: seq<Block>, i: nat)
    requires i < |bs| && SkippedType(bs[i].blockType)
    ensures LegacyDecode(bs[..i] + bs[i + 1..]) == LegacyDecode(bs)
  {
    var front, back := bs[..i], bs[i + 1..];
    assert bs == front + [bs[i]] + back;
    FoldAppend(LegacyStep, Nothing, front + [bs[i]], back);
    FoldAppend(LegacyStep, Nothing, front, back);
    FoldSnoc(LegacyStep, Nothing, front, bs[i]);
  }

  /** A block of none of the six known types raises, once the blocks before
      it have loaded. */
  lemma LegacyUnknownType(bs: seq<Block>, j: nat)
    requires j < |bs| && Fold(LegacyStep, Nothing, bs[..j]).Ok?
    requires !LoadedType(bs[j].blockType) && !SkippedType(bs[j].blockType)
    ensures LegacyDecode(bs) == Err(UnexpectedBlockType(bs[j].blockType))
  {
    FoldPrefixStep(LegacyStep, Nothing, bs, j);
    FoldStopsAtError(LegacyStep, Nothing, bs, j + 1);
  }

  predicate NoBones(acc: Loaded) {
    acc.bones == []
  }

  /** A block that is not a bone block leaves the bone list alone. */
  lemma LoadKeepsBones(acc: Loaded, b: Block)
    requires b.blockType != "bone" && LoadStep(acc, b).Ok?
    ensures LoadStep(acc, b).value.bones == acc.bones
  {
  }

  /** On a document without skin or bone blocks the older loader and the
      current one agree. */
  lemma LegacyAgrees(bs: seq<Block>)
    requires forall i :: 0 <= i < |bs| ==> !SkippedType(bs[i].blockType)
    ensures LegacyDecode(bs) == Decode(bs)
  {
    FoldPointwise(LegacyStep, LoadStep, Nothing, bs);
    if Fold(LoadStep, Nothing, bs).Ok? {
      forall k, s | 0 <= k < |bs| && NoBones(s) && LoadStep(s, bs[k]).Ok?
        ensures NoBones(LoadStep(s, bs[k]).value)
      {
        LoadKeepsBones(s, bs[k]);
      }
      FoldInvariant(LoadStep, Nothing, bs, NoBones);
    }
  }

  /** The older TPMRawToTPM: the blocks of `raw` are interpreted in order,
      each rewritten in place with its quotes stripped before it is loaded
      or skipped. */
  method TPMRawToTPM(raw: array<Block>) returns (r: Result<TPM>)
    modifies raw
    ensures r == LegacyDecode(old(raw[..]))
    ensures forall k :: 0 <= k < raw.Length ==>
              raw[k] == (if k < Reached(LegacyStep, Nothing, old(raw[..])) then UnquoteBlock(old(raw[..])[k])
                         else old(raw[..])[k])
  {
    ghost var bs := raw[..];
    var acc := Nothing;
    var i := 0;
    while i < raw.Length
      invariant 0 <= i <= raw.Length
      invariant Fold(LegacyStep, Nothing, bs[..i]) == Ok(acc)
      invariant forall k :: 0 <= k < raw.Length ==> raw[k] == (if k < i then UnquoteBlock(bs[k]) else bs[k])
    {
      FoldPrefixStep(LegacyStep, Nothing, bs, i);
      var block := Unquote(raw[i]);
      raw[i] := block;
      assert forall k :: 0 <= k < raw.Length ==> raw[k] == (if k < i + 1 then UnquoteBlock(bs[k]) else bs[k]);
      if LoadedType(block.blockType) {
        var next := AddBlock(acc, block);
        if next.Err? {
          ReachedAt(LegacyStep, Nothing, bs, i);
          FoldStopsAtError(LegacyStep, Nothing, bs, i + 1);
          return Err(next.error);
        }
        acc := next.value;
      } else if !SkippedType(block.blockType) {
        ReachedAt(LegacyStep, Nothing, bs, i);
        FoldStopsAtError(LegacyStep, Nothing, bs, i + 1);
        return Err(UnexpectedBlockType(block.blockType));
      }
      i := i + 1;
    }
    FoldWhole(LegacyStep, Nothing, bs);
    ReachedAll(LegacyStep, Nothing, bs);
    r := MakeTPM(acc.fileInfo, acc.materials, acc.meshes, acc.instances, []);
  }

  // ---------------------------------------------------------------------------
  // Writing

  /** The older writer has no skins: a mesh is written as a plain mesh, its
      bone indices dropped. */
  function LegacyMeshBlock(m: Mesh): Result<Block> {
    MeshBlock(m.(kind := Plain))
  }

  /** `math.degrees` applied to every component of a rotation. */
  function Degrees(degrees: Component -> Component): Vector -> Vector {
    v => Map(degrees, v)
  }

  /** What the older TPMToTPMRaw returns: the fileinfo block, then one block
      per material, mesh and instance. */
  function LegacyEncode(tpm: TPM, degrees: Component -> Component): Result<seq<Block>> {
    var meshes :- MapAll(LegacyMeshBlock, tpm.meshes);
    var instances :- MapAll(InstanceEncoder(Degrees(degrees)), tpm.instances);
    Ok([FileInfoBlock(tpm.fileInfo)] + MaterialBlocks(tpm.materials) + meshes + instances)
  }

  /** The types the older writer writes. */
  predicate LegacyWritten(blockType: string) {
    blockType == "fileinfo" || blockType == "material" || blockType == "mesh" || blockType == "instance"
  }

  predicate AllLegacyWritten(bs: seq<Block>) {
    forall i :: 0 <= i < |bs| ==> LegacyWritten(bs[i].blockType)
  }

  lemma AllLegacyWrittenConcat(a: seq<Block>, b: seq<Block>)
    requires AllLegacyWritten(a) && AllLegacyWritten(b)
    ensures AllLegacyWritten(a + b)
  {
    forall i | 0 <= i < |a + b| ensures LegacyWritten((a + b)[i].blockType) {
      if i < |a| {
        assert (a + b)[i] == a[i];
      } else {
        assert (a + b)[i] == b[i - |a|];
      }
    }
  }

  /** Every mesh the older writer writes is a `mesh` block. */
  lemma LegacyMeshesWritten(ms: seq<Mesh>, bs: seq<Block>)
    requires MapAll(LegacyMeshBlock, ms) == Ok(bs)
    ensures forall i :: 0 <= i < |bs| ==> bs[i].blockType == "mesh"
  {
    forall i | 0 <= i < |bs| ensures bs[i].blockType == "mesh" {
      assert LegacyMeshBlock(ms[i]) == Ok(bs[i]);
    }
  }

  lemma InstancesWritten(xs: seq<Instance>, toDegrees: Vector -> Vector, bs: seq<Block>)
    requires MapAll(InstanceEncoder(toDegrees), xs) == Ok(bs)
    ensures AllLegacyWritten(bs)
  {
    forall i | 0 <= i < |bs| ensures LegacyWritten(bs[i].blockType) {
      assert InstanceEncoder(toDegrees)(xs[i]) == Ok(bs[i]);
    }
  }

  lemma HeadWritten(fi: FileInfo, ms: seq<Material>)
    ensures AllLegacyWritten([FileInfoBlock(fi)] + MaterialBlocks(ms))
  {
    var head := [FileInfoBlock(fi)] + MaterialBlocks(ms);
    forall i | 0 <= i < |head| ensures LegacyWritten(head[i].blockType) {
      if i > 0 {
        assert head[i] == MaterialBlocks(ms)[i - 1];
      }
    }
  }

  lemma LegacyEncodeValue(tpm: TPM, degrees: Component -> Component)
    requires LegacyEncode(tpm, degrees).Ok?
    ensures MapAll(LegacyMeshBlock, tpm.meshes).Ok?
    ensures MapAll(InstanceEncoder(Degrees(degrees)), tpm.instances).Ok?
    ensures LegacyEncode(tpm, degrees).value ==
            [FileInfoBlock(tpm.fileInfo)] + MaterialBlocks(tpm.materials) +
            MapAll(LegacyMeshBlock, tpm.meshes).value + MapAll(InstanceEncoder(Degrees(degrees)), tpm.instances).value
  {
  }

  /** The fileinfo block comes first and starts with `formatversion`; then one
      block per material, mesh and instance; no block is a skin or a bone. */
  lemma LegacyEncodeShape(tpm: TPM, degrees: Component -> Component)
    requires LegacyEncode(tpm, degrees).Ok?
    ensures var bs := LegacyEncode(tpm, degrees).value;
            |bs| == 1 + |tpm.materials| + |tpm.meshes| + |tpm.instances| &&
            bs[0] == FileInfoBlock(tpm.fileInfo) &&
            bs[0].properties[0] == Property("formatversion", tpm.fileInfo.formatVersion) &&
            forall i :: 0 <= i < |bs| ==> LegacyWritten(bs[i].blockType)
  {
    LegacyEncodeValue(tpm, degrees);
    FileInfoFields(tpm.fileInfo);
    var ms := MapAll(LegacyMeshBlock, tpm.meshes).value;
    var xs := MapAll(InstanceEncoder(Degrees(degrees)), tpm.instances).value;
    var head := [FileInfoBlock(tpm.fileInfo)] + MaterialBlocks(tpm.materials);
    HeadWritten(tpm.fileInfo, tpm.materials);
    LegacyMeshesWritten(tpm.meshes, ms);
    InstancesWritten(tpm.instances, Degrees(degrees), xs);
    AllLegacyWrittenConcat(head, ms);
    AllLegacyWrittenConcat(head + ms, xs);
    assert (head + ms + xs)[0] == head[0];
  }

  /** On a model without skins or bones the older writer and the current one
      agree, when the current one converts rotations component by component. */
  lemma LegacyEncodeAgrees(tpm: TPM, degrees: Component -> Component)
    requires forall i :: 0 <= i < |tpm.meshes| ==> tpm.meshes[i].kind.Plain?
    requires tpm.bones == []
    ensures LegacyEncode(tpm, degrees) == Encode(tpm, Degrees(degrees))
  {
    forall i | 0 <= i < |tpm.meshes| ensures LegacyMeshBlock(tpm.meshes[i]) == MeshBlock(tpm.meshes[i]) {
      assert tpm.meshes[i].(kind := Plain) == tpm.meshes[i];
    }
    MapAllPointwise(LegacyMeshBlock, MeshBlock, tpm.meshes);
    assert MapAll(BoneEncoder(Degrees(degrees)), tpm.bones) == Ok([]);
    if LegacyEncode(tpm, degrees).Ok? {
      var head := [FileInfoBlock(tpm.fileInfo)] + MaterialBlocks(tpm.materials) +
                  MapAll(MeshBlock, tpm.meshes).value + MapAll(InstanceEncoder(Degrees(degrees)), tpm.instances).value;
      assert head + [] == head;
    }
  }

  /** The older TPMToTPMRaw: the blocks appended one by one; a vector too short
      to write raises and nothing is returned. */
  method TPMToTPMRaw(tpm: TPM, degrees: Component -> Component) returns (r: Result<seq<Block>>)
    ensures r == LegacyEncode(tpm, degrees)
  {
    var fileInfo := FileInfoToBlock(tpm.fileInfo);
    var blocks := [fileInfo];
    for i := 0 to |tpm.materials|
      invariant blocks == [FileInfoBlock(tpm.fileInfo)] + MaterialBlocks(tpm.materials[..i])
    {
      var b := MaterialToBlock(tpm.materials[i]);
      blocks := blocks + [b];
    }
    assert tpm.materials[..|tpm.materials|] == tpm.materials;
    var meshes: seq<Block> := [];
    var i := 0;
    while i < |tpm.meshes|
      invariant 0 <= i <= |tpm.meshes|
      invariant MapAll(LegacyMeshBlock, tpm.meshes[..i]) == Ok(meshes)
    {
      MapAllPrefixStep(LegacyMeshBlock, tpm.meshes, i);
      var b := MeshToBlock(tpm.meshes[i].(kind := Plain));
      if b.Err? {
        MapAllFirstErrorAt(LegacyMeshBlock, tpm.meshes, i);
        return Err(b.error);
      }
      meshes := meshes + [b.value];
      i := i + 1;
    }
    assert tpm.meshes[..i] == tpm.meshes;
    var instances := AppendInstances(tpm.instances, Degrees(degrees));
    if instances.Err? {
      return Err(instances.error);
    }
    return Ok(blocks + meshes + instances.value);
  }

  // ---------------------------------------------------------------------------
  // WriteTPMRawToFile

  /** An open text file, as the text written to it so far. */
  class Output {
    var text: string

    constructor ()
      ensures text == ""
    {
      text := "";
    }

    /** `file.write(s)`. */
    method Write(s: string)
      modifies this
      ensures text == old(text) + s
    {
      text := text + s;
    }
  }

  /** The text WriteTPMRawToFile writes for one property. */
  function PropertyText(p: Property): string {
    "\t" + p.key + " = " + p.value + "\n"
  }

  function PropertiesText(ps: seq<Property>): string
    decreases |ps|
  {
    if ps == [] then "" else PropertiesText(ps[..|ps| - 1]) + PropertyText(ps[|ps| - 1])
  }

  /** The text WriteTPMRawToFile writes for one block. */
  function BlockText(b: Block): string {
    HeaderLine(b) + "\n{\n" + PropertiesText(b.properties) + "}\n\n"
  }

  /** The text WriteTPMRawToFile writes for a block list. */
  function FileText(bs: seq<Block>): string
    decreases |bs|
  {
    if bs == [] then "" else FileText(bs[..|bs| - 1]) + BlockText(bs[|bs| - 1])
  }

  lemma FileTextStep(bs: seq<Block>, i: nat)
    requires i < |bs|
    ensures FileText(bs[..i + 1]) == FileText(bs[..i]) + BlockText(bs[i])
  {
    assert bs[..i + 1][..i] == bs[..i];
  }

  /** The inner loop of WriteTPMRawToFile: one `\tkey = value` line per
      property, in order. */
  method WriteProperties(ps: seq<Property>, file: Output)
    modifies file
    ensures file.text == old(file.text) + PropertiesText(ps)
  {
    for j := 0 to |ps|
      invariant file.text == old(file.text) + PropertiesText(ps[..j])
    {
      var p := ps[j];
      file.Write("\t" + p.key + " = " + p.value + "\n");
      assert ps[..j + 1][..j] == ps[..j];
    }
    assert ps[..|ps|] == ps;
  }

  /** One iteration of the outer loop of WriteTPMRawToFile: the type,
      ` identifier` when the identifier is non-empty, the braces on lines of
      their own around the properties, and an empty line. */
  method WriteBlock(block: Block, file: Output)
    modifies file
    ensures file.text == old(file.text) + BlockText(block)
  {
    ghost var h, body := HeaderLine(block), PropertiesText(block.properties);
    file.Write(block.blockType);
    if block.identifier.Some? && block.identifier.value != [] {
      file.Write(" " + block.identifier.value);
      Assoc(old(file.text), block.blockType, " " + block.identifier.value);
      Assoc(block.blockType, " ", block.identifier.value);
    }
    file.Write("\n{\n");
    WriteProperties(block.properties, file);
    file.Write("}\n\n");
    Assoc(old(file.text), h, "\n{\n");
    Assoc(old(file.text), h + "\n{\n", body);
    Assoc(old(file.text), h + "\n{\n" + body, "}\n\n");
  }

  /** Write the blocks to `file`, one after another. */
  method WriteTPMRawToFile(raw: seq<Block>, file: Output)
    modifies file
    ensures file.text == old(file.text) + FileText(raw)
  {
    for i := 0 to |raw|
      invariant file.text == old(file.text) + FileText(raw[..i])
    {
      WriteBlock(raw[i], file);
      FileTextStep(raw, i);
      Assoc(old(file.text), FileText(raw[..i]), BlockText(raw[i]));
    }
    assert raw[..|raw|] == raw;
  }

  /** Each line of `lines` followed by a line feed. */
  function Terminated(lines: seq<string>): string
    decreases |lines|
  {
    if lines == [] then "" else lines[0] + "\n" + Terminated(lines[1..])
  }

  lemma {:induction false} TerminatedAppend(a: seq<string>, b: seq<string>)
    ensures Terminated(a + b) == Terminated(a) + Terminated(b)
    decreases |a|
  {
    if a == [] {
      assert a + b == b;
    } else {
      assert (a + b)[1..] == a[1..] + b;
      TerminatedAppend(a[1..], b);
    }
  }

  lemma {:induction false} PropertiesTextLines(ps: seq<Property>)
    ensures PropertiesText(ps) == Terminated(PropertyLines(ps))
    decreases |ps|
  {
    if ps != [] {
      var n := |ps| - 1;
      PropertiesTextLines(ps[..n]);
      assert PropertyLines(ps) == PropertyLines(ps[..n]) + [PropertyLine(ps[n])];
      TerminatedAppend(PropertyLines(ps[..n]), [PropertyLine(ps[n])]);
    }
  }

  lemma HeaderTerminated(h: string)
    ensures Terminated([h, "{"]) == h + "\n{\n"
  {
    assert [h, "{"][1..] == ["{"];
    assert Terminated(["{"]) == "{\n";
  }

  lemma CloseTerminated()
    ensures Terminated(["}", ""]) == "}\n\n"
  {
    assert ["}", ""][1..] == [""];
    assert Terminated([""]) == "\n";
  }

  lemma BlockTextLines(b: Block)
    ensures BlockText(b) == Terminated(BlockLines(b))
  {
    var h, pl := HeaderLine(b), PropertyLines(b.properties);
    PropertiesTextLines(b.properties);
    HeaderTerminated(h);
    CloseTerminated();
    TerminatedAppend([h, "{"] + pl, ["}", ""]);
    TerminatedAppend([h, "{"], pl);
  }

  /** The file text is the written lines, each ended by a line feed. */
  lemma {:induction false} FileTextLines(bs: seq<Block>)
    ensures FileText(bs) == Terminated(RawLines(bs))
    decreases |bs|
  {
    if bs != [] {
      var n := |bs| - 1;
      FileTextLines(bs[..n]);
      BlockTextLines(bs[n]);
      assert bs == bs[..n] + [bs[n]];
      RawLinesSnoc(bs[..n], bs[n]);
      TerminatedAppend(RawLines(bs[..n]), BlockLines(bs[n]));
    }
  }

  lemma {:induction false} TerminatedJoin(lines: seq<string>)
    requires lines != []
    ensures Terminated(lines) == Join(lines, '\n') + "\n"
    decreases |lines|
  {
    if |lines| > 1 {
      TerminatedJoin(lines[1..]);
    }
  }

  /** WriteTPMRawToFile writes the text TPMRawToString returns, and one more
      line feed when there is at least one block. */
  lemma FileTextIsString(bs: seq<Block>)
    ensures FileText(bs) == if bs == [] then "" else Join(RawLines(bs), '\n') + "\n"
  {
    FileTextLines(bs);
    if bs != [] {
      assert RawLines(bs) == BlockLines(bs[0]) + RawLines(bs[1..]);
      TerminatedJoin(RawLines(bs));
    }
  }
}
