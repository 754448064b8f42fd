# TPM text format: reader, loader, writer

This project models the format layer of the Blender add-on for TPM mesh files
(`io_mesh_tpm`). It is written in Dafny. The layer covers four steps:

- reading the text into raw blocks: `StringToTPMRaw` and `LinesToTPMRaw`;
- interpreting the raw blocks as a TPM model: `TPMRawToTPM`, which covers
  file information, materials, meshes, skins, instances and bones;
- turning a model back into raw blocks: `TPMToTPMRaw`;
- writing raw blocks as text: `TPMRawToLines`, `TPMRawToString` and the
  older `WriteTPMRawToFile`.

`io_mesh_tpm/tpm_types.py` holds the current reader, loader and writer.
`io_mesh_tpm/tpm_utils.py` holds the helpers they use: quote chopping and
vector parsing. It also keeps older copies of the reader, the loader and the
writer, from before skins and bones existed.

Modules, one file each:

| module | file | what it holds |
|---|---|---|
| `Errors` | errors.dfy | `Option`, `Result`, the error conditions raised, and a generic left fold `Fold` / `MapAll` for loops that may raise |
| `Text` | text.dfy | the Python string built-ins: `strip`, `isspace`, `splitlines`, `split(',')`, `'\n'.join`, `f"{int}"` |
| `Quoting` | quoting.dfy | `ChopCharsFromEnds*`, `ChopQuotes`, `EncloseInQuotes` |
| `Vectors` | vectors.dfy | `float()` as the grammar of Python float literals; `VectorStringToVector`; vector formatting |
| `RawFormat` | raw_format.dfy | the `TPM_Raw` blocks; the line reader and the line writer |
| `RawLaws` | raw_laws.dfy | what the line reader accepts, refuses and reads back |
| `Entities` | entities.dfy | the TPM entity classes, with constructors that raise as the source's do |
| `Patterns` | patterns.dfy | the face regex and the skin-vertex regex, as scanners |
| `Decoding` | decoding.dfy | `TPMRawToTPM` |
| `DecodeLaws` | decode_laws.dfy | what `TPMRawToTPM` accepts and returns |
| `Encoding` | encoding.dfy | `TPMToTPMRaw` |
| `RoundTrip` | roundtrip.dfy | reading back what `TPMToTPMRaw` writes |
| `TextRoundTrip` | text_roundtrip.dfy | reading back the text `TPMRawToString` writes for what `TPMToTPMRaw` writes |
| `Legacy` | legacy.dfy | the older copies in `tpm_utils.py`, and `WriteTPMRawToFile` |

Modelling choices:

- Python exceptions are `Err` values of `Result`. Each carries the error
  condition the source raises:
  - a missing dictionary key, for Python's `KeyError`;
  - a string that is not a float literal, for `float()`'s `ValueError`;
  - each `TPMException` and `RuntimeError` the code raises.
- Floating-point values are kept as the text of their literal, stripped of
  whitespace. `float(c)` succeeds exactly when the stripped text is a Python
  float literal. `f"{x}"` writes that text back.
- `TPMRawToTPM` rewrites the caller's blocks in place as it unquotes them. It
  is modelled on an `array<Block>`. Its contract states both the result and
  which blocks were rewritten before the loop returned or raised.
- The writers' loops are methods proved equal to the specification functions
  `Encode`, `RawLines` and `LegacyEncode`. The laws are stated about those
  functions.
- `ToDegrees` is called at `io_mesh_tpm/tpm_types.py:347` and `:359` and is
  defined in neither `tpm_types.py` nor `tpm_utils.py`, so it is a parameter
  `toDegrees: Vector -> Vector`. The older writer uses `math.degrees`, so it
  takes a parameter `degrees` on one component.
- `TPMRawToTPM` stores instance and bone rotations as read
  (`tpm_types.py:212-218`, `268-272`), while `TPMToTPMRaw` writes
  `ToDegrees(rotation)`. `Normalize` therefore keeps rotations in the unit the
  writer wrote.

## Model

| member | source | states |
|---|---|---|
| `Quoting.ChopCharsFromEndsAsymmetrical` | io_mesh_tpm/tpm_utils.py:161-164 | the flag is set iff the text has at least two characters, the first in `cStart` and the last in `cEnd`; the inner text is returned when it is set, the text unchanged otherwise |
| `Quoting.ChopCharsFromEnds` | io_mesh_tpm/tpm_utils.py:167-168 | chops iff both ends are in the same set; an unchopped text is returned unchanged |
| `Quoting.ChopQuotes` | io_mesh_tpm/tpm_utils.py:171-172 | chops iff the text is at least two characters long and starts and ends with `"` |
| `Quoting.EncloseInQuotes` | io_mesh_tpm/tpm_utils.py:444-445 | the result is always quoted |
| `Quoting.ChopQuotesOfEnclosed` | io_mesh_tpm/tpm_utils.py:171-172 | chopping the quotes off an enclosed string gives that string back, with the flag set |
| `Quoting.EncloseOfChopped` | io_mesh_tpm/tpm_utils.py:444-445 | enclosing what was chopped from a quoted string gives the quoted string back |
| `Vectors.ParseFloat` | io_mesh_tpm/tpm_utils.py:182-183 | `float(c)` succeeds iff the stripped text is a float literal, and yields that text; otherwise it raises for `c` |
| `Vectors.VectorStringToVector` | io_mesh_tpm/tpm_utils.py:175-184 | the loop computes `ParseVector`: strip, require `(`…`)`, split on commas, `float()` on each piece |
| `Vectors.VectorNeedsParentheses` | io_mesh_tpm/tpm_utils.py:176-179 | text that is not parenthesised after stripping raises "cannot be converted to a vector"; every vector that parses was parenthesised |
| `Vectors.ComponentsExactly` | io_mesh_tpm/tpm_utils.py:180-183 | the component loop succeeds iff every piece is a float literal; the components are then the stripped pieces, in order |
| `Vectors.ParseVectorExactly` | io_mesh_tpm/tpm_utils.py:175-184 | a vector parses iff it is parenthesised and every comma-separated piece is a float; it then has one component more than the text has commas |
| `Vectors.FormatLeading` | io_mesh_tpm/tpm_types.py:327-334 | formatting the leading `n` components succeeds iff the vector has at least `n`; indexing past the end raises |
| `Vectors.ParseFormatVector` | io_mesh_tpm/tpm_types.py:327-328 | a vector of float literals written as `(a,b,c)` parses back to itself |
| `Text.Split` | io_mesh_tpm/tpm_utils.py:180 | `split(',')` gives one piece more than there are separators, and no piece contains one |
| `Text.JoinSplit` | io_mesh_tpm/tpm_utils.py:180 | joining the pieces of a split gives the text back |
| `Text.SplitJoin` | io_mesh_tpm/tpm_utils.py:180 | splitting a join of separator-free pieces gives the pieces back |
| `Text.SplitLinesJoin` | io_mesh_tpm/tpm_types.py:112-113 | `splitlines` of lines joined by `\n` gives the lines back, dropping only a final empty line |
| `Text.Strip` | io_mesh_tpm/tpm_types.py:129 | the stripped line has no leading or trailing whitespace and is no longer than the line |
| `Text.StripSound` | io_mesh_tpm/tpm_types.py:129 | the line is whitespace, then the stripped line, then whitespace: `strip` removes nothing but whitespace, and only at the ends |
| `Text.StripComplete` | io_mesh_tpm/tpm_types.py:129 | whitespace on both sides of a text with no whitespace at its ends is exactly what `strip` removes |
| `Text.IntToString` | io_mesh_tpm/tpm_types.py:341 | `f"{i}"` is non-empty and is all digits iff the integer is non-negative |
| `Text.DigitsValueOfNatToString` | io_mesh_tpm/tpm_types.py:251-260 | `int()` of the text `f"{n}"` writes for a natural number gives the number back |
| `Entities.MakeFileInfo` | io_mesh_tpm/tpm_types.py:31-39 | succeeds iff `formatVersion` is not `None`, and keeps every field; raises otherwise |
| `Entities.MakeInstance` | io_mesh_tpm/tpm_types.py:42-49 | succeeds iff none of the five values is `None`; raises otherwise |
| `Entities.MakeMaterial` | io_mesh_tpm/tpm_types.py:52-58 | succeeds iff the name is not `None` |
| `Entities.MakeFace` | io_mesh_tpm/tpm_types.py:62-73 | succeeds iff each index tuple has three entries; the first one that does not names the error |
| `Entities.MakeMesh` | io_mesh_tpm/tpm_types.py:75-83 | succeeds iff the name is not `None`; the mesh is a plain mesh with the given lists |
| `Entities.MakeSkin` | io_mesh_tpm/tpm_types.py:86-90 | succeeds iff the name is given and there is one bone index per vertex; a count mismatch raises with both counts |
| `Entities.MakeBone` | io_mesh_tpm/tpm_types.py:93-98 | succeeds iff the name is not `None` |
| `Entities.MakeTPM` | io_mesh_tpm/tpm_types.py:100-107 | succeeds iff there is file information; raises "must contain a fileinfo block" otherwise |
| `Patterns.FaceEntry` | io_mesh_tpm/tpm_types.py:189 | a face entry that matches yields exactly ten numbers |
| `Patterns.FaceEntrySound` | io_mesh_tpm/tpm_types.py:189 | every match is three parenthesised triples of digit runs and a last digit run, the comma between any two of them with optional whitespace on both sides; the ten numbers are the values of the ten runs, in order |
| `Patterns.FaceEntryComplete` | io_mesh_tpm/tpm_types.py:189 | every text of that shape matches, with any whitespace, and yields the values of its ten digit runs |
| `Patterns.FaceEntryOf` | io_mesh_tpm/tpm_types.py:189 | the text the writer produces for a face with non-negative indices matches, and yields those ten numbers |
| `Patterns.NegativeFaceRefused` | io_mesh_tpm/tpm_types.py:189 | a face whose first vertex index is negative, as the writer formats it, does not match |
| `Patterns.SkinVertex` | io_mesh_tpm/tpm_types.py:190 | a match starts with `(`, and its vector part is a prefix of the text ending in `)` |
| `Patterns.SkinVertexSound` | io_mesh_tpm/tpm_types.py:190 | every match is `(`, a text without a line feed, `)`, optional whitespace, `,`, optional whitespace and a digit run; it yields the parenthesised part and the run's value |
| `Patterns.SkinVertexComplete` | io_mesh_tpm/tpm_types.py:190 | every text of that shape matches, yielding the parenthesised part and the value of the digit run |
| `Patterns.SkinVertexOf` | io_mesh_tpm/tpm_types.py:190 | the text the writer produces for a skin vertex matches, yielding the vector text and the bone index |
| `RawFormat.Significant` | io_mesh_tpm/tpm_types.py:121-133 | the lines `NonTrivialLine` returns are at most as many as the input lines |
| `RawFormat.HeaderComplete` | io_mesh_tpm/tpm_types.py:118 | `word`, optional whitespace and an optional `"id"` (no inner quote) match the header regex, giving the type and the unquoted identifier |
| `RawFormat.HeaderSound` | io_mesh_tpm/tpm_types.py:118 | every header match is of that form |
| `RawFormat.PropertyComplete` | io_mesh_tpm/tpm_types.py:119 | `key`, optional whitespace, `=`, optional whitespace and a value match the property regex, giving key and value |
| `RawFormat.PropertySound` | io_mesh_tpm/tpm_types.py:119 | every property match is of that form |
| `RawFormat.ParseBlockAt` | io_mesh_tpm/tpm_types.py:141-175 | no block is read iff no significant line is left; a block consumes at least three lines |
| `RawFormat.DocumentMeaning` | io_mesh_tpm/tpm_types.py:177-185 | the reader over line positions gives the same result as the grammar over the significant lines |
| `RawFormat.NonTrivialLine` | io_mesh_tpm/tpm_types.py:121-133 | returns the next line that is not blank and not a `//` comment, stripped, and the position after it; nothing at the end |
| `RawFormat.ParseBlock` | io_mesh_tpm/tpm_types.py:141-175 | reads one block as the grammar does, or nothing at the end of the input, or the grammar's error |
| `RawFormat.LinesToTPMRaw` | io_mesh_tpm/tpm_types.py:116-185 | the block loop returns `ParseLines(lines)` |
| `RawFormat.StringToTPMRaw` | io_mesh_tpm/tpm_types.py:112-113 | reads the lines `splitlines` cuts from the text |
| `RawFormat.BlockLines` | io_mesh_tpm/tpm_types.py:370-379 | a block takes its property count plus four lines |
| `RawFormat.RawLinesLength` | io_mesh_tpm/tpm_types.py:368-380 | the line count is the sum of the blocks' line counts |
| `RawFormat.TPMRawToLines` | io_mesh_tpm/tpm_types.py:368-380 | the loop returns `RawLines(raw)`: header line, `{`, one `\tkey = value` line per property, `}`, an empty line |
| `RawFormat.TPMRawToString` | io_mesh_tpm/tpm_types.py:383-384 | the lines joined with `\n` |
| `RawLaws.SkippedLinesIgnored` | io_mesh_tpm/tpm_types.py:121-133 | blank, whitespace-only and `//` lines anywhere do not change what is read |
| `RawLaws.TrailingEmptyLine` | io_mesh_tpm/tpm_types.py:125-127 | an empty last line does not change what is read |
| `RawLaws.LinesRoundTrip` | io_mesh_tpm/tpm_types.py:116-185 | the lines the writer writes for writable blocks read back as those blocks, identifiers unquoted |
| `RawLaws.EndAfterBlocks` | io_mesh_tpm/tpm_types.py:142-147 | trivial lines after the last block are ignored |
| `RawLaws.StringRoundTrip` | io_mesh_tpm/tpm_types.py:383-384 | the text `TPMRawToString` writes reads back through `StringToTPMRaw`, when no value contains a line break |
| `RawLaws.EndAfterHeader` | io_mesh_tpm/tpm_types.py:174-175 | input that ends after a header raises "Unexpected end of file" |
| `RawLaws.EndInsideBody` | io_mesh_tpm/tpm_types.py:174-175 | input that ends before the closing brace raises "Unexpected end of file" |
| `RawLaws.HeaderExpected` | io_mesh_tpm/tpm_types.py:151-153 | a line that is not a type or type-identifier where a block starts raises, naming the stripped line |
| `RawLaws.BraceExpected` | io_mesh_tpm/tpm_types.py:160-162 | anything but `{` after a header raises "expected opening brace", naming the line, the type and the identifier |
| `RawLaws.PropertyExpected` | io_mesh_tpm/tpm_types.py:135-139 | a body line that is neither `}` nor a property raises "expected property" |
| `Decoding.UnquoteBlock` | io_mesh_tpm/tpm_types.py:201-204 | only the identifier and the property values change; each loses one pair of enclosing quotes |
| `Decoding.Lookup` | io_mesh_tpm/tpm_types.py:211 | `stringDict[key]` raises only for the missing key |
| `Decoding.AddMeshProperty` | io_mesh_tpm/tpm_types.py:230-263 | one property of a mesh or skin block, added to the lists or raising as the source does |
| `Decoding.LoadMesh` | io_mesh_tpm/tpm_types.py:222-267 | the property loop and the mesh or skin constructor give `MeshOf(b)` |
| `Decoding.AddBlock` | io_mesh_tpm/tpm_types.py:207-274 | dispatches one unquoted block on its type and adds its entity, or raises |
| `Decoding.Unquote` | io_mesh_tpm/tpm_types.py:201-204 | rewrites a block as `UnquoteBlock` |
| `Decoding.TPMRawToTPM` | io_mesh_tpm/tpm_types.py:188-275 | returns `Decode` of the blocks as given; every block up to the one that raised is left unquoted in place, the rest unchanged |
| `DecodeLaws.DictHas` | io_mesh_tpm/tpm_types.py:210 | a key is in `dict(properties)` iff some property has it |
| `DecodeLaws.GetLast` | io_mesh_tpm/tpm_types.py:210 | for a duplicated key, `dict(properties)` keeps the last value |
| `DecodeLaws.LookupAbsent` | io_mesh_tpm/tpm_types.py:215-218 | looking up an absent key raises for that key |
| `DecodeLaws.FileInfoNeedsFormatVersion` | io_mesh_tpm/tpm_types.py:207-211 | a fileinfo block loads iff it has `formatversion`, with the last such value; otherwise it raises a missing-key error |
| `DecodeLaws.InstanceNeedsKeys` | io_mesh_tpm/tpm_types.py:212-218 | an instance loads only with an identifier and the `position`, `rotation`, `scale` and `mesh` keys |
| `DecodeLaws.MeshLoopBuilds` | io_mesh_tpm/tpm_types.py:230-263 | the lists built are exactly the `m`, `v`, `t`, `n` and `f` values in order, each converted |
| `DecodeLaws.UnknownMeshKeyFails` | io_mesh_tpm/tpm_types.py:262-263 | a property key other than `m`, `v`, `t`, `n` and `f` makes the mesh raise |
| `DecodeLaws.DecodedSkinParity` | io_mesh_tpm/tpm_types.py:264-267 | a skin that loads has one bone index per vertex |
| `DecodeLaws.DecodeContents` | io_mesh_tpm/tpm_types.py:188-275 | a decoded model has exactly one fileinfo block, and its materials, meshes, instances and bones are those of the blocks of each type, in order |
| `DecodeLaws.DecodeStopsAt` | io_mesh_tpm/tpm_types.py:199-274 | the first block that raises decides the result |
| `DecodeLaws.SecondFileInfo` | io_mesh_tpm/tpm_types.py:208-209 | a second fileinfo block raises "more than one fileinfo block" |
| `DecodeLaws.NoFileInfo` | io_mesh_tpm/tpm_types.py:100-102 | blocks without a fileinfo block raise "must contain a fileinfo block" |
| `DecodeLaws.UnknownBlockType` | io_mesh_tpm/tpm_types.py:273-274 | a block of an unknown type raises, naming the type |
| `Encoding.MaterialBlocks` | io_mesh_tpm/tpm_types.py:304-312 | one material block per material, in order |
| `Encoding.FileInfoFields` | io_mesh_tpm/tpm_types.py:289-301 | `formatversion` is the first property, and every other field is written iff it is truthy |
| `Encoding.MaterialFields` | io_mesh_tpm/tpm_types.py:305-311 | each map is written iff it is truthy |
| `Encoding.MeshBlockOk` | io_mesh_tpm/tpm_types.py:315-342 | a mesh is written iff every vector is long enough and a skin has one bone index per vertex |
| `Encoding.EncodeOk` | io_mesh_tpm/tpm_types.py:280-365 | the writer succeeds iff every mesh, instance and bone can be written |
| `Encoding.SkinMismatchRefused` | io_mesh_tpm/tpm_types.py:322-323 | the first skin whose counts differ raises, naming the skin and both counts |
| `Encoding.EncodeLayout` | io_mesh_tpm/tpm_types.py:280-365 | one block per entity: fileinfo first, then the materials |
| `Encoding.EncodeMeshSection` | io_mesh_tpm/tpm_types.py:315-342 | the meshes follow the materials, one block each, in order |
| `Encoding.EncodeInstanceSection` | io_mesh_tpm/tpm_types.py:345-354 | the instances follow the meshes |
| `Encoding.EncodeBoneSection` | io_mesh_tpm/tpm_types.py:357-363 | the bones come last |
| `Encoding.FileInfoToBlock` | io_mesh_tpm/tpm_types.py:289-301 | the appends build `FileInfoBlock` |
| `Encoding.MaterialToBlock` | io_mesh_tpm/tpm_types.py:305-312 | the appends build `MaterialBlock` |
| `Encoding.NamesToProperties` | io_mesh_tpm/tpm_types.py:318-319 | one quoted `m` property per material name |
| `Encoding.SkinVerticesToProperties` | io_mesh_tpm/tpm_types.py:324-325 | one `v` property per vertex and bone index, raising at the first short vertex |
| `Encoding.VerticesToProperties` | io_mesh_tpm/tpm_types.py:321-328 | the vertex properties of a skin or a plain mesh |
| `Encoding.FacesToProperties` | io_mesh_tpm/tpm_types.py:336-341 | one `f` property per face |
| `Encoding.MeshToBlock` | io_mesh_tpm/tpm_types.py:315-342 | the loops build `MeshBlock` |
| `Encoding.InstanceToBlock` | io_mesh_tpm/tpm_types.py:345-354 | builds `InstanceBlock` with the rotation through `toDegrees` |
| `Encoding.BoneToBlock` | io_mesh_tpm/tpm_types.py:357-363 | builds `BoneBlock` |
| `Encoding.TPMToTPMRaw` | io_mesh_tpm/tpm_types.py:280-365 | the loops return `Encode(tpm, toDegrees)` |
| `RoundTrip.MeshRead` | io_mesh_tpm/tpm_types.py:222-267 | a mesh or skin block the writer writes loads back as the mesh, with vectors cut to their written width |
| `RoundTrip.InstanceRead` | io_mesh_tpm/tpm_types.py:212-218 | an instance block loads back, with the rotation as the writer converted it |
| `RoundTrip.BoneRead` | io_mesh_tpm/tpm_types.py:268-272 | a bone block loads back |
| `RoundTrip.EncodeDecode` | io_mesh_tpm/tpm_types.py:188-365 | a writable model is written without error, and reading the blocks back gives the model again, up to what the format drops |
| `TextRoundTrip.FileInfoSent` | io_mesh_tpm/tpm_types.py:289-301 | the fileinfo block of a model whose texts fit their lines has word keys and non-empty one-line values without surrounding whitespace |
| `TextRoundTrip.MaterialSent` | io_mesh_tpm/tpm_types.py:304-312 | a material block keeps its lines, and its identifier is a non-empty name in quotes with no inner quote |
| `TextRoundTrip.MeshSent` | io_mesh_tpm/tpm_types.py:315-342 | a mesh or skin block keeps its lines: vectors, skin vertices and faces are written as one-line texts that start with `(` and end with `)` or a digit |
| `TextRoundTrip.InstanceSent` | io_mesh_tpm/tpm_types.py:345-354 | an instance block keeps its lines, its scale written as a float literal |
| `TextRoundTrip.BoneSent` | io_mesh_tpm/tpm_types.py:357-363 | a bone block keeps its lines |
| `TextRoundTrip.EncodeSent` | io_mesh_tpm/tpm_types.py:280-365 | every block the writer produces for such a model keeps its lines and its identifier |
| `TextRoundTrip.ReadBackUnquoted` | io_mesh_tpm/tpm_types.py:201-202 | the header regex has already taken the quotes off a written identifier, and the loader's `ChopQuotes` leaves the quote-free name alone, so the loader unquotes the block it reads to the block it would have got from the writer |
| `TextRoundTrip.LoadReadBacks` | io_mesh_tpm/tpm_types.py:199-274 | loading the blocks read from the text gives what loading the written blocks gives |
| `TextRoundTrip.TextRoundTrip` | io_mesh_tpm/tpm_types.py:112-384 | a model whose blocks round-trip and whose texts fit their lines is written, turned into text, read and loaded back without error, giving the model the block round trip gives |
| `TextRoundTrip.EmptyNameHeader` | io_mesh_tpm/tpm_types.py:118 | `mesh ""` does not match the header regex, since `[^"]+` needs a character between the quotes |
| `TextRoundTrip.EmptyMeshNameUnreadable` | io_mesh_tpm/tpm_types.py:342 | a model with one mesh named `""` is written, and its blocks load, but its text raises "expected type identifier" at the line `mesh ""` |
| `Legacy.StringToTPMRaw` | io_mesh_tpm/tpm_utils.py:88-158 | the older reader applies the same grammar to the `splitlines` lines |
| `Legacy.SkinAndBoneIgnored` | io_mesh_tpm/tpm_utils.py:253-254 | the older loader ignores skin and bone blocks: removing one does not change the result |
| `Legacy.LegacyUnknownType` | io_mesh_tpm/tpm_utils.py:255-256 | a block of none of the six types raises, naming the type |
| `Legacy.LegacyAgrees` | io_mesh_tpm/tpm_utils.py:187-257 | on blocks without skins or bones, the older loader returns what the current one does |
| `Legacy.TPMRawToTPM` | io_mesh_tpm/tpm_utils.py:187-257 | returns `LegacyDecode` of the blocks; blocks up to the one that raised are left unquoted in place |
| `Legacy.LegacyEncodeShape` | io_mesh_tpm/tpm_utils.py:448-521 | fileinfo first with `formatversion` first; one block per material, mesh and instance; no skin or bone block |
| `Legacy.LegacyEncodeAgrees` | io_mesh_tpm/tpm_utils.py:448-521 | on a model without skins or bones, the older writer gives what the current one gives with per-component degrees |
| `Legacy.TPMToTPMRaw` | io_mesh_tpm/tpm_utils.py:448-521 | the loops return `LegacyEncode` |
| `Legacy.Output.Write` | io_mesh_tpm/tpm_utils.py:526-532 | `file.write` appends its text |
| `Legacy.WriteProperties` | io_mesh_tpm/tpm_utils.py:530-531 | writes one `\tkey = value\n` line per property, in order |
| `Legacy.WriteBlock` | io_mesh_tpm/tpm_utils.py:526-532 | writes one block: the header, ` identifier` when it is truthy, `\n{\n`, the properties, `}\n\n` |
| `Legacy.WriteTPMRawToFile` | io_mesh_tpm/tpm_utils.py:524-532 | appends `FileText(raw)` to the file |
| `Legacy.FileTextIsString` | io_mesh_tpm/tpm_utils.py:524-532 | the file text is what `TPMRawToString` returns, plus one line feed when there is a block |

## Left out

- Blender import and export (`Import`, `Export`, `CreateImageNodeFromTPMTexMap`, `FindTextureOnDisk`), the add-on registration and the UI operators: they work on Blender objects and the file system.
- `mathutils.Vector` and float arithmetic: components are kept as their literal text, so no rounding and no float formatting beyond writing the text back are modelled.
- `ToDegrees` and `math.degrees`: they are parameters, because the conversion is float arithmetic.
- `WarningCallback`, a parameter of `TPMRawToTPM` (`tpm_types.py:188`): the function body never calls it.
- The `print` of each normal in the older `TPMToTPMRaw`: console output only.
- Opening the file handed to `WriteTPMRawToFile`: the file is an `Output` object that records the text written.
- The different exception classes (`TPMException`, `RuntimeError`, `ValueError`, `KeyError`): errors are distinguished by condition, not by class.
- Regex `\w` and `\d`, and `float()`, accept only ASCII letters and digits here. Python also accepts other Unicode word characters and digits.
- Recovery of the quoted identifier by the header regex: an identifier with an inner quote does not match and is reported as a header error, as in the source.
- `Text.Strip`: its own contract states only that the result is clean and no longer than the line. `Text.StripSound` and `Text.StripComplete` state that the result is the line less its leading and trailing whitespace.
- `Patterns.FaceEntry`: its own contract states only that a match yields ten numbers. `Patterns.FaceEntrySound` and `Patterns.FaceEntryComplete` state which texts match and which numbers they yield.
- `Patterns.SkinVertex`: its own contract states only the shape of the vector part. `Patterns.SkinVertexSound` and `Patterns.SkinVertexComplete` state which texts match and what they yield.
- `TextRoundTrip.TextRoundTrip`: holds only for models whose texts fit their lines (`TextWire`). The writer also accepts names that are empty or hold a double quote, an empty or space-padded `formatversion`, `version` or `date`, and values with line breaks. The text it then writes does not read back, or reads back as something else. `TextRoundTrip.EmptyMeshNameUnreadable` shows this for an empty mesh name.
