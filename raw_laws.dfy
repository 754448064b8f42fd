/** Laws of the TPM text grammar of io_mesh_tpm/tpm_types.py: skipped lines
    change nothing, where a file may end, which error a misplaced line
    raises, and LinesToTPMRaw / StringToTPMRaw reading back what
    TPMRawToLines / TPMRawToString write. */
module RawLaws {
  import opened Errors
  import opened Text
  import opened Quoting
  import opened RawFormat

  // ---------------------------------------------------------------------
  // Skipped lines

  /** Blank, whitespace-only and `//` comment lines may be inserted anywhere
      without changing the outcome. */
  lemma SkippedLinesIgnored(a: seq<string>, ts: seq<string>, b: seq<string>)
    requires forall i :: 0 <= i < |ts| ==> Trivial(ts[i])
    ensures ParseLines(a + ts + b) == ParseLines(a + b)
  {
    SignificantAppend(a + ts, b);
    SignificantAppend(a, ts);
    SignificantOfTrivial(ts);
    SignificantAppend(a, b);
    assert Significant(a + ts) == Significant(a);
    assert Significant(a + ts + b) == Significant(a + b);
  }

  /** A final empty line, such as the one after the last `}`, changes
      nothing. */
  lemma TrailingEmptyLine(lines: seq<string>)
    ensures ParseLines(lines + [""]) == ParseLines(lines)
  {
    assert Trivial("");
    SkippedLinesIgnored(lines, [""], []);
    assert lines + [""] + [] == lines + [""];
    assert lines + [] == lines;
  }

  lemma SignificantCons(line: string, rest: seq<string>)
    requires !Trivial(line)
    ensures Significant([line] + rest) == [Strip(line)] + Significant(rest)
  {
    assert ([line] + rest)[0] == line;
    assert ([line] + rest)[1..] == rest;
  }

  lemma SignificantSkip(line: string, rest: seq<string>)
    requires Trivial(line)
    ensures Significant([line] + rest) == Significant(rest)
  {
    assert ([line] + rest)[0] == line;
    assert ([line] + rest)[1..] == rest;
  }

  // ---------------------------------------------------------------------
  // What the writer can write so that the reader reads it back

  /** An identifier that survives the trip through a header line: none,
      empty, or a quoted name that `[^"]+` matches. */
  predicate WritableIdentifier(id: Option<string>) {
    id.None? || id.value == [] || (Quoted(id.value) && IdentifierOk(Some(ChopQuotes(id.value).0)))
  }

  /** A property that survives the trip through `\tkey = value`: the key
      is a word, and the value is one line that `strip` leaves alone. */
  predicate WritableProperty(p: Property) {
    WordText(p.key) && p.value != [] && Clean(p.value) && '\n' !in p.value
  }

  predicate WritableProperties(ps: seq<Property>) {
    forall i :: 0 <= i < |ps| ==> WritableProperty(ps[i])
  }

  predicate WritableBlock(b: Block) {
    WordText(b.blockType) && WritableIdentifier(b.identifier) && WritableProperties(b.properties)
  }

  predicate Writable(bs: seq<Block>) {
    forall i :: 0 <= i < |bs| ==> WritableBlock(bs[i])
  }

  /** The identifier the header regex gives back: the text between the
      quotes, and no identifier for an empty one. */
  function ReadIdentifier(id: Option<string>): (r: Option<string>)
    ensures r.Some? <==> id.Some? && id.value != []
    ensures r.Some? && Quoted(id.value) ==> EncloseInQuotes(r.value) == id.value
  {
    if id.Some? && id.value != [] then
      (if Quoted(id.value) then EncloseOfChopped(id.value); Some(ChopQuotes(id.value).0)
       else Some(ChopQuotes(id.value).0))
    else None
  }

  function ReadBack(b: Block): Block {
    Block(b.blockType, ReadIdentifier(b.identifier), b.properties)
  }

  function ReadBacks(bs: seq<Block>): (r: seq<Block>)
    ensures |r| == |bs|
    ensures forall i :: 0 <= i < |bs| ==> r[i] == ReadBack(bs[i])
  {
    seq(|bs|, i requires 0 <= i < |bs| => ReadBack(bs[i]))
  }

  lemma ReadBacksCons(bs: seq<Block>)
    requires bs != []
    ensures ReadBacks(bs) == [ReadBack(bs[0])] + ReadBacks(bs[1..])
  {
  }

  // ---------------------------------------------------------------------
  // Written lines, one at a time

  lemma WordCharIsPlain(c: char)
    requires IsWordChar(c)
    ensures !IsSpace(c) && c != '/' && !IsLineBreak(c)
  {
  }

  /** A clean line that starts with neither whitespace nor `/` is not
      skipped and is its own strip. */
  lemma PlainLine(line: string)
    requires line != [] && Clean(line) && line[0] != '/'
    ensures !Trivial(line) && Strip(line) == line
  {
    StripOfClean(line);
    assert !IsSpace(line[0]);
    assert |line| < 2 || line[..2][0] == line[0];
  }

  lemma BraceLines()
    ensures !Trivial("{") && Strip("{") == "{"
    ensures !Trivial("}") && Strip("}") == "}"
    ensures Trivial("")
  {
    PlainLine("{");
    PlainLine("}");
  }

  /** The stripped form of a written property line. */
  function StrippedProperty(p: Property): string {
    PropertyText(p.key, " ", " ", p.value)
  }

  function StrippedProperties(ps: seq<Property>): (r: seq<string>)
    ensures |r| == |ps|
    ensures forall i :: 0 <= i < |ps| ==> r[i] == StrippedProperty(ps[i])
  {
    seq(|ps|, i requires 0 <= i < |ps| => StrippedProperty(ps[i]))
  }

  lemma StrippedPropertiesCons(ps: seq<Property>)
    requires ps != []
    ensures StrippedProperties(ps) == [StrippedProperty(ps[0])] + StrippedProperties(ps[1..])
  {
  }

  lemma PropertyLinesCons(ps: seq<Property>)
    requires ps != []
    ensures PropertyLines(ps) == [PropertyLine(ps[0])] + PropertyLines(ps[1..])
  {
  }

  /** `f"\t{key} = {value}"` is a tab in front of `key = value`. */
  lemma PropertyLineText(p: Property)
    ensures PropertyLine(p) == "\t" + StrippedProperty(p)
  {
    assert " = " + p.value == " " + ("=" + (" " + p.value));
  }

  /** The ends of `key = value`. */
  lemma StrippedPropertyEnds(p: Property)
    requires WritableProperty(p)
    ensures var t := StrippedProperty(p);
            t != [] && Clean(t) && t[0] != '/' && t != "}"
  {
    var t := StrippedProperty(p);
    PropertyChars(p.key, " ", " ", p.value);
    assert t[0] == p.key[0];
    WordCharIsPlain(p.key[0]);
    assert t[|t| - 1] == p.value[|p.value| - 1];
  }

  /** A written property line is read as its stripped form. */
  lemma PropertyLineSignificant(p: Property)
    requires WritableProperty(p)
    ensures !Trivial(PropertyLine(p)) && Strip(PropertyLine(p)) == StrippedProperty(p)
  {
    var t := StrippedProperty(p);
    PropertyLineText(p);
    StrippedPropertyEnds(p);
    PlainLine(t);
    StripIndented("\t", t);
    assert PropertyLine(p)[1] == t[0];
  }

  lemma {:induction false} SignificantPropertyLines(ps: seq<Property>)
    requires WritableProperties(ps)
    ensures Significant(PropertyLines(ps)) == StrippedProperties(ps)
    decreases |ps|
  {
    if ps != [] {
      PropertyLinesCons(ps);
      PropertyLineSignificant(ps[0]);
      SignificantCons(PropertyLine(ps[0]), PropertyLines(ps[1..]));
      SignificantPropertyLines(ps[1..]);
      StrippedPropertiesCons(ps);
    }
  }

  /** A written header line is `type`, or `type "name"`. */
  lemma HeaderLineText(b: Block)
    requires WritableBlock(b)
    ensures var id := ReadIdentifier(b.identifier);
            HeaderLine(b) == b.blockType + (if id.Some? then " " else "") + IdentifierText(id)
  {
    var id := ReadIdentifier(b.identifier);
    if id.None? {
      assert b.blockType + "" + "" == b.blockType;
    }
  }

  /** The ends of a written header line. */
  lemma HeaderLineEnds(b: Block)
    requires WritableBlock(b)
    ensures var h := HeaderLine(b);
            h != [] && Clean(h) && h[0] != '/'
  {
    var h := HeaderLine(b);
    var ty := b.blockType;
    assert h[0] == ty[0];
    WordCharIsPlain(ty[0]);
    if b.identifier.Some? && b.identifier.value != [] {
      var q := b.identifier.value;
      assert h[|h| - 1] == q[|q| - 1];
    } else {
      WordCharIsPlain(ty[|ty| - 1]);
    }
  }

  /** A written header line is significant and is its own strip. */
  lemma HeaderLineSignificant(b: Block)
    requires WritableBlock(b)
    ensures !Trivial(HeaderLine(b)) && Strip(HeaderLine(b)) == HeaderLine(b)
  {
    HeaderLineEnds(b);
    PlainLine(HeaderLine(b));
  }

  /** The header regex reads the type and the de-quoted identifier off a
      written header line. */
  lemma HeaderLineParses(b: Block)
    requires WritableBlock(b)
    ensures ParseHeader(HeaderLine(b)) == Some((b.blockType, ReadIdentifier(b.identifier)))
  {
    var id := ReadIdentifier(b.identifier);
    HeaderLineText(b);
    HeaderComplete(b.blockType, if id.Some? then " " else "", id);
  }

  /** The lines written for a block, with `rest` after them. */
  lemma BlockLinesShape(b: Block, rest: seq<string>)
    ensures BlockLines(b) + rest ==
            [HeaderLine(b)] + (["{"] + (PropertyLines(b.properties) + (["}"] + ([""] + rest))))
  {
  }

  /** The significant lines of a written block, with `rest` after them: the
      header, `{`, the stripped property lines and `}`. */
  lemma SignificantBlockLines(b: Block, rest: seq<string>)
    requires WritableBlock(b)
    ensures Significant(BlockLines(b) + rest) ==
            [HeaderLine(b)] + (["{"] + (StrippedProperties(b.properties) + (["}"] + Significant(rest))))
  {
    var h := HeaderLine(b);
    var pl := PropertyLines(b.properties);
    var x3 := ["}"] + ([""] + rest);
    var x2 := pl + x3;
    var x1 := ["{"] + x2;
    BlockLinesShape(b, rest);
    HeaderLineSignificant(b);
    BraceLines();
    SignificantCons(h, x1);
    SignificantCons("{", x2);
    SignificantAppend(pl, x3);
    SignificantPropertyLines(b.properties);
    SignificantCons("}", [""] + rest);
    SignificantSkip("", rest);
  }

  // ---------------------------------------------------------------------
  // The grammar on written lines

  /** `properties` in front of a body parse. */
  function BodyAfter(properties: seq<Property>, r: Result<(seq<Property>, seq<string>)>): Result<(seq<Property>, seq<string>)> {
    match r
    case Ok((ps, rest)) => Ok((properties + ps, rest))
    case Err(e) => Err(e)
  }

  lemma BodyAfterNothing(r: Result<(seq<Property>, seq<string>)>)
    ensures BodyAfter([], r) == r
  {
    if r.Ok? {
      assert [] + r.value.0 == r.value.0;
    }
  }

  lemma BodyAfterCons(ps: seq<Property>, r: Result<(seq<Property>, seq<string>)>)
    requires ps != []
    ensures (match BodyAfter(ps[1..], r)
             case Err(e) => Err(e)
             case Ok((qs, rest)) => Ok(([ps[0]] + qs, rest))) == BodyAfter(ps, r)
  {
    if r.Ok? {
      assert [ps[0]] + (ps[1..] + r.value.0) == ps + r.value.0;
    }
  }

  lemma StrippedPropertiesThen(ps: seq<Property>, tail: seq<string>)
    requires ps != []
    ensures StrippedProperties(ps) + tail == [StrippedProperty(ps[0])] + (StrippedProperties(ps[1..]) + tail)
  {
    StrippedPropertiesCons(ps);
  }

  /** One written property line in a body. */
  lemma BodyOfWrittenLine(p: Property, more: seq<string>)
    requires WritableProperty(p)
    ensures ParseBody([StrippedProperty(p)] + more) ==
            match ParseBody(more)
            case Err(e) => Err(e)
            case Ok((qs, rest)) => Ok(([p] + qs, rest))
  {
    StrippedPropertyEnds(p);
    PropertyComplete(p.key, " ", " ", p.value);
    BodyStep(StrippedProperty(p), more);
  }

  /** Written property lines are read as those properties, and then the
      body goes on as it would without them. */
  lemma {:induction false} BodyOfWritten(ps: seq<Property>, tail: seq<string>)
    requires WritableProperties(ps)
    ensures ParseBody(StrippedProperties(ps) + tail) == BodyAfter(ps, ParseBody(tail))
    decreases |ps|
  {
    if ps == [] {
      assert StrippedProperties(ps) + tail == tail;
      BodyAfterNothing(ParseBody(tail));
    } else {
      var more := StrippedProperties(ps[1..]) + tail;
      StrippedPropertiesThen(ps, tail);
      BodyOfWrittenLine(ps[0], more);
      BodyOfWritten(ps[1..], tail);
      BodyAfterCons(ps, ParseBody(tail));
    }
  }

  /** The closing brace ends a body. */
  lemma BodyClose(ps: seq<Property>, rest: seq<string>)
    ensures BodyAfter(ps, ParseBody(["}"] + rest)) == Ok((ps, rest))
  {
    BodyStep("}", rest);
    assert ps + [] == ps;
  }

  /** A written block is read back, with its identifier de-quoted, and the
      lines after it are left over. */
  lemma BlockOfWritten(b: Block, rest: seq<string>)
    requires WritableBlock(b)
    ensures ParseBlockAt([HeaderLine(b)] + (["{"] + (StrippedProperties(b.properties) + (["}"] + rest)))) ==
            Ok(Some((ReadBack(b), rest)))
  {
    var body := StrippedProperties(b.properties) + (["}"] + rest);
    BlockStepCons(HeaderLine(b), "{", body);
    HeaderLineParses(b);
    BodyOfWritten(b.properties, ["}"] + rest);
    BodyClose(b.properties, rest);
  }

  /** A block read off the front of the lines is the first of the
      document. */
  lemma DocumentStep(ss: seq<string>, b: Block, rest: seq<string>)
    requires ParseBlockAt(ss) == Ok(Some((b, rest)))
    ensures ParseDocument(ss) == Prepend([b], ParseDocument(rest))
  {
  }

  /** A failure to read the next block is the document's failure. */
  lemma DocumentFails(ss: seq<string>)
    requires ParseBlockAt(ss).Err?
    ensures ParseDocument(ss) == Err(ParseBlockAt(ss).error)
  {
  }

  lemma PrependCons(b: Block, bs: seq<Block>, r: Result<seq<Block>>)
    ensures Prepend([b], Prepend(bs, r)) == Prepend([b] + bs, r)
  {
    if r.Ok? {
      assert [b] + (bs + r.value) == ([b] + bs) + r.value;
    }
  }

  lemma RawLinesCons(bs: seq<Block>, more: seq<string>)
    requires bs != []
    ensures RawLines(bs) + more == BlockLines(bs[0]) + (RawLines(bs[1..]) + more)
  {
  }

  /** Written blocks are read back one by one, and then the document goes on
      as it would without them. */
  lemma {:induction false} BlocksThen(bs: seq<Block>, more: seq<string>)
    requires Writable(bs)
    ensures ParseLines(RawLines(bs) + more) == Prepend(ReadBacks(bs), ParseLines(more))
    decreases |bs|
  {
    if bs == [] {
      assert RawLines(bs) + more == more;
      NoBlocksInFront(ParseLines(more));
    } else {
      var b := bs[0];
      var after := RawLines(bs[1..]) + more;
      var m := Significant(after);
      RawLinesCons(bs, more);
      SignificantBlockLines(b, after);
      BlockOfWritten(b, m);
      DocumentStep([HeaderLine(b)] + (["{"] + (StrippedProperties(b.properties) + (["}"] + m))), ReadBack(b), m);
      BlocksThen(bs[1..], more);
      ReadBacksCons(bs);
      PrependCons(ReadBack(b), ReadBacks(bs[1..]), ParseLines(more));
    }
  }

  // ---------------------------------------------------------------------
  // Round trips

  /** LinesToTPMRaw reads back what TPMRawToLines writes. */
  lemma LinesRoundTrip(bs: seq<Block>)
    requires Writable(bs)
    ensures ParseLines(RawLines(bs)) == Ok(ReadBacks(bs))
  {
    BlocksThen(bs, []);
    assert RawLines(bs) + [] == RawLines(bs);
    assert ReadBacks(bs) + [] == ReadBacks(bs);
  }

  /** The file may end after any complete block, with or without skipped
      lines after it: the blocks read so far are the result. */
  lemma EndAfterBlocks(bs: seq<Block>, ts: seq<string>)
    requires Writable(bs)
    requires forall i :: 0 <= i < |ts| ==> Trivial(ts[i])
    ensures ParseLines(RawLines(bs) + ts) == Ok(ReadBacks(bs))
  {
    SkippedLinesIgnored(RawLines(bs), ts, []);
    assert RawLines(bs) + ts + [] == RawLines(bs) + ts;
    assert RawLines(bs) + [] == RawLines(bs);
    LinesRoundTrip(bs);
  }

  /** No written line breaks a line: type and key are words, and the
      identifier and the values carry no boundary of `splitlines`. */
  predicate Unbroken(b: Block) {
    (b.identifier.Some? ==> NoLineBreak(b.identifier.value)) &&
    forall i :: 0 <= i < |b.properties| ==> NoLineBreak(b.properties[i].value)
  }

  lemma UnbrokenJoin(a: string, b: string)
    requires NoLineBreak(a) && NoLineBreak(b)
    ensures NoLineBreak(a + b)
  {
    forall i | 0 <= i < |a + b|
      ensures !IsLineBreak((a + b)[i])
    {
      if i < |a| {
        assert (a + b)[i] == a[i];
      } else {
        assert (a + b)[i] == b[i - |a|];
      }
    }
  }

  lemma UnbrokenWord(w: string)
    requires AllWord(w)
    ensures NoLineBreak(w)
  {
    forall i | 0 <= i < |w|
      ensures !IsLineBreak(w[i])
    {
      WordCharIsPlain(w[i]);
    }
  }

  lemma UnbrokenHeader(b: Block)
    requires WritableBlock(b) && Unbroken(b)
    ensures NoLineBreak(HeaderLine(b))
  {
    UnbrokenWord(b.blockType);
    if b.identifier.Some? && b.identifier.value != [] {
      UnbrokenJoin(b.blockType, " ");
      UnbrokenJoin(b.blockType + " ", b.identifier.value);
    }
  }

  lemma UnbrokenPropertyLine(p: Property)
    requires WritableProperty(p) && NoLineBreak(p.value)
    ensures NoLineBreak(PropertyLine(p))
  {
    UnbrokenWord(p.key);
    UnbrokenJoin("\t", p.key);
    UnbrokenJoin("\t" + p.key, " = ");
    UnbrokenJoin("\t" + p.key + " = ", p.value);
  }

  lemma UnbrokenBlockLines(b: Block)
    requires WritableBlock(b) && Unbroken(b)
    ensures forall k :: 0 <= k < |BlockLines(b)| ==> NoLineBreak(BlockLines(b)[k])
  {
    var ls := BlockLines(b);
    UnbrokenHeader(b);
    forall k | 0 <= k < |ls|
      ensures NoLineBreak(ls[k])
    {
      var n := |b.properties|;
      if 2 <= k < n + 2 {
        assert ls[k] == PropertyLine(b.properties[k - 2]);
        UnbrokenPropertyLine(b.properties[k - 2]);
      }
    }
  }

  lemma UnbrokenAppend(a: seq<string>, c: seq<string>)
    requires forall k :: 0 <= k < |a| ==> NoLineBreak(a[k])
    requires forall k :: 0 <= k < |c| ==> NoLineBreak(c[k])
    ensures forall k :: 0 <= k < |a + c| ==> NoLineBreak((a + c)[k])
  {
    forall k | 0 <= k < |a + c|
      ensures NoLineBreak((a + c)[k])
    {
      if k < |a| {
        assert (a + c)[k] == a[k];
      } else {
        assert (a + c)[k] == c[k - |a|];
      }
    }
  }

  lemma {:induction false} UnbrokenRawLines(bs: seq<Block>)
    requires Writable(bs)
    requires forall i :: 0 <= i < |bs| ==> Unbroken(bs[i])
    ensures forall k :: 0 <= k < |RawLines(bs)| ==> NoLineBreak(RawLines(bs)[k])
    decreases |bs|
  {
    if bs != [] {
      UnbrokenBlockLines(bs[0]);
      UnbrokenRawLines(bs[1..]);
      UnbrokenAppend(BlockLines(bs[0]), RawLines(bs[1..]));
    }
  }

  /** The last line written for a non-empty block list is the empty line
      after the last `}`. */
  lemma RawLinesEnd(bs: seq<Block>)
    requires bs != []
    ensures var ls := RawLines(bs);
            ls != [] && ls == ls[..|ls| - 1] + [""]
  {
    var n := |bs|;
    assert bs == bs[..n - 1] + [bs[n - 1]];
    RawLinesSnoc(bs[..n - 1], bs[n - 1]);
    var ls := RawLines(bs);
    assert ls[|ls| - 1] == "";
  }

  /** `splitlines` gives back the written lines, less the final empty
      one. */
  lemma SplitWritten(bs: seq<Block>)
    requires Writable(bs)
    requires forall i :: 0 <= i < |bs| ==> Unbroken(bs[i])
    ensures var ls := RawLines(bs);
            SplitLines(Join(ls, '\n')) == ls || SplitLines(Join(ls, '\n')) + [""] == ls
  {
    var ls := RawLines(bs);
    UnbrokenRawLines(bs);
    SplitLinesJoin(ls);
    if bs != [] {
      RawLinesEnd(bs);
    }
  }

  /** StringToTPMRaw reads back what TPMRawToString writes. */
  lemma StringRoundTrip(bs: seq<Block>)
    requires Writable(bs)
    requires forall i :: 0 <= i < |bs| ==> Unbroken(bs[i])
    ensures ParseLines(SplitLines(Join(RawLines(bs), '\n'))) == Ok(ReadBacks(bs))
  {
    var split := SplitLines(Join(RawLines(bs), '\n'));
    SplitWritten(bs);
    TrailingEmptyLine(split);
    LinesRoundTrip(bs);
  }

  // ---------------------------------------------------------------------
  // Where a file may not end, and what a misplaced line raises

  /** A file that ends right after a header raises "Unexpected end of
      file". */
  lemma EndAfterHeader(bs: seq<Block>, b: Block)
    requires Writable(bs) && WritableBlock(b)
    ensures ParseLines(RawLines(bs) + [HeaderLine(b)]) == Err(UnexpectedEndOfFile)
  {
    var h := HeaderLine(b);
    BlocksThen(bs, [h]);
    HeaderLineSignificant(b);
    HeaderLineParses(b);
    SignificantCons(h, []);
    assert [h] + [] == [h];
    BlockStepLast(h, []);
    DocumentFails([h] + []);
  }

  /** The significant lines of a block cut off inside its body. */
  lemma SignificantOpenBlock(b: Block, rest: seq<string>)
    requires WritableBlock(b)
    ensures Significant([HeaderLine(b)] + (["{"] + (PropertyLines(b.properties) + rest))) ==
            [HeaderLine(b)] + (["{"] + (StrippedProperties(b.properties) + Significant(rest)))
  {
    var h := HeaderLine(b);
    var pl := PropertyLines(b.properties);
    HeaderLineSignificant(b);
    BraceLines();
    SignificantCons(h, ["{"] + (pl + rest));
    SignificantCons("{", pl + rest);
    SignificantAppend(pl, rest);
    SignificantPropertyLines(b.properties);
  }

  /** A file that ends inside a block body, after any number of property
      lines, raises "Unexpected end of file". */
  lemma EndInsideBody(bs: seq<Block>, b: Block)
    requires Writable(bs) && WritableBlock(b)
    ensures ParseLines(RawLines(bs) + ([HeaderLine(b)] + (["{"] + PropertyLines(b.properties)))) ==
            Err(UnexpectedEndOfFile)
  {
    var h := HeaderLine(b);
    var pl := PropertyLines(b.properties);
    var sp := StrippedProperties(b.properties);
    BlocksThen(bs, [h] + (["{"] + pl));
    assert pl + [] == pl;
    SignificantOpenBlock(b, []);
    assert sp + Significant([]) == sp;
    BlockStepCons(h, "{", sp);
    HeaderLineParses(b);
    BodyOfWritten(b.properties, []);
    assert sp + [] == sp;
  }

  /** Where a block must start, a line that is neither skipped nor a header
      raises ExpectedTypeIdentifier with its stripped text. */
  lemma HeaderExpected(bs: seq<Block>, line: string, more: seq<string>)
    requires Writable(bs) && !Trivial(line) && ParseHeader(Strip(line)).None?
    ensures ParseLines(RawLines(bs) + ([line] + more)) == Err(ExpectedTypeIdentifier(Strip(line)))
  {
    BlocksThen(bs, [line] + more);
    SignificantCons(line, more);
    assert ([Strip(line)] + Significant(more))[0] == Strip(line);
  }

  /** After a header, a significant line other than `{` raises
      ExpectedOpeningBrace with the line, the type and the identifier. */
  lemma BraceExpected(bs: seq<Block>, b: Block, line: string, more: seq<string>)
    requires Writable(bs) && WritableBlock(b) && !Trivial(line) && Strip(line) != "{"
    ensures ParseLines(RawLines(bs) + ([HeaderLine(b)] + ([line] + more))) ==
            Err(ExpectedOpeningBrace(Strip(line), b.blockType, ReadIdentifier(b.identifier)))
  {
    var h := HeaderLine(b);
    BlocksThen(bs, [h] + ([line] + more));
    HeaderLineSignificant(b);
    SignificantCons(h, [line] + more);
    SignificantCons(line, more);
    BlockStepCons(h, Strip(line), Significant(more));
    HeaderLineParses(b);
  }

  /** Inside a body, after any number of property lines, a significant line
      that is neither `}` nor a property raises ExpectedProperty. */
  lemma PropertyExpected(bs: seq<Block>, b: Block, line: string, more: seq<string>)
    requires Writable(bs) && WritableBlock(b) && !Trivial(line)
    requires Strip(line) != "}" && ParseProperty(Strip(line)).None?
    ensures ParseLines(RawLines(bs) + ([HeaderLine(b)] + (["{"] + (PropertyLines(b.properties) + ([line] + more))))) ==
            Err(ExpectedProperty(Strip(line)))
  {
    var h := HeaderLine(b);
    var sp := StrippedProperties(b.properties);
    var s := Strip(line);
    var m := Significant(more);
    BlocksThen(bs, [h] + (["{"] + (PropertyLines(b.properties) + ([line] + more))));
    SignificantOpenBlock(b, [line] + more);
    SignificantCons(line, more);
    BlockStepCons(h, "{", sp + ([s] + m));
    HeaderLineParses(b);
    BodyOfWritten(b.properties, [s] + m);
    BodyStep(s, m);
    DocumentFails([h] + (["{"] + (sp + ([s] + m))));
  }
}
