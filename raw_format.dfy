/** The line-oriented block grammar of io_mesh_tpm/tpm_types.py: a TPM file is
    a list of blocks, each a header line `type` or `type "identifier"`, a `{`
    line, `key = value` lines and a `}` line. Blank, whitespace-only and `//`
    lines are skipped.

    The parser is specified over the significant lines (the stripped lines
    that are not skipped); the imperative parser walks the raw lines with a
    position standing for Python's line iterator. */
module RawFormat {
  import opened Errors
  import opened Text

  /** One `key = value` pair; keys may repeat, order matters. */
  datatype Property = Property(key: string, value: string)

  /** `TPM_Raw.Block`: a type, an optional identifier and the property list. */
  datatype Block = Block(blockType: string, identifier: Option<string>, properties: seq<Property>)

  /** Some pair of `ps` has key `key`. */
  predicate HasKey(ps: seq<Property>, key: string) {
    exists i :: 0 <= i < |ps| && ps[i].key == key
  }

  // ---------------------------------------------------------------------
  // Skipped lines

  /** A line NonTrivialLine passes over: empty, all whitespace, or a `//`
      comment once stripped. */
  predicate Trivial(line: string) {
    AllSpace(line) || StartsWith(Strip(line), "//")
  }

  /** The stripped lines the parser sees, in order. */
  function Significant(lines: seq<string>): (r: seq<string>)
    ensures |r| <= |lines|
    decreases |lines|
  {
    if lines == [] then []
    else (if Trivial(lines[0]) then [] else [Strip(lines[0])]) + Significant(lines[1..])
  }

  lemma {:induction false} SignificantAppend(a: seq<string>, b: seq<string>)
    ensures Significant(a + b) == Significant(a) + Significant(b)
    decreases |a|
  {
    if a == [] {
      assert a + b == b;
    } else {
      var h := if Trivial(a[0]) then [] else [Strip(a[0])];
      assert (a + b)[0] == a[0];
      assert (a + b)[1..] == a[1..] + b;
      assert Significant(a + b) == h + Significant(a[1..] + b);
      SignificantAppend(a[1..], b);
      assert Significant(a) == h + Significant(a[1..]);
      Assoc(h, Significant(a[1..]), Significant(b));
    }
  }

  /** Lines that are all skipped contribute nothing. */
  lemma {:induction false} SignificantOfTrivial(ts: seq<string>)
    requires forall i :: 0 <= i < |ts| ==> Trivial(ts[i])
    ensures Significant(ts) == []
    decreases |ts|
  {
    if ts != [] {
      SignificantOfTrivial(ts[1..]);
    }
  }

  // ---------------------------------------------------------------------
  // The two full-line regexes

  /** `"([^"]+)"` matching `line` from `k` to its end. */
  predicate QuotedFrom(line: string, k: nat)
    requires k <= |line|
  {
    |line| - k >= 3 && line[k] == '"' && line[|line| - 1] == '"' &&
    forall j :: k < j < |line| - 1 ==> line[j] != '"'
  }

  /** A full match of `(\w+)\s*(?:"([^"]+)")?`: the type and, when present,
      the identifier without its quotes. */
  function ParseHeader(line: string): Option<(string, Option<string>)> {
    var w := WordEnd(line, 0);
    var k := SpaceEnd(line, w);
    if w == 0 then None
    else if k == |line| then Some((line[..w], None))
    else if QuotedFrom(line, k) then Some((line[..w], Some(line[k + 1..|line| - 1])))
    else None
  }

  /** Where `(.+)` starts after the greedy `\s*` that begins at `i`: that
      `\s*` gives back the last character when nothing would be left. */
  function ValueStart(line: string, i: nat): (j: nat)
    requires i < |line|
    ensures i <= j < |line|
    ensures forall m {:trigger IsSpace(line[m])} :: i <= m < j ==> IsSpace(line[m])
    ensures j + 1 == |line| || !IsSpace(line[j])
  {
    var e := SpaceEnd(line, i);
    if e < |line| then e else |line| - 1
  }

  /** `.` does not match "\n". */
  predicate NoNewlineFrom(line: string, j: nat) {
    forall m :: j <= m < |line| ==> line[m] != '\n'
  }

  /** The cuts of a match of `(\w+)\s*=\s*(.+)`: the key is `line[..w]`, `=`
      is at `k` and the value is `line[j..]`. */
  predicate PropertySpans(line: string, w: nat, k: nat, j: nat) {
    0 < w <= k && k + 1 <= j < |line| && line[k] == '=' &&
    (forall m {:trigger IsWordChar(line[m])} :: 0 <= m < w ==> IsWordChar(line[m])) &&
    (forall m {:trigger IsSpace(line[m])} :: w <= m < k ==> IsSpace(line[m])) &&
    (forall m {:trigger IsSpace(line[m])} :: k + 1 <= m < j ==> IsSpace(line[m])) &&
    NoNewlineFrom(line, j) && (j + 1 == |line| || !IsSpace(line[j]))
  }

  /** Where the property regex cuts `line`, if it matches. */
  function PropertyMatch(line: string): (r: Option<(nat, nat, nat)>)
    ensures r.Some? ==> PropertySpans(line, r.value.0, r.value.1, r.value.2)
  {
    var w := WordEnd(line, 0);
    var k := SpaceEnd(line, w);
    if w == 0 || k + 1 >= |line| || line[k] != '=' then None
    else
      var j := ValueStart(line, k + 1);
      if NoNewlineFrom(line, j) then Some((w, k, j)) else None
  }

  /** A full match of `(\w+)\s*=\s*(.+)`: the key and the value. */
  function ParseProperty(line: string): Option<Property> {
    match PropertyMatch(line)
    case None => None
    case Some((w, _, j)) => Some(Property(line[..w], line[j..]))
  }

  /** A non-empty run of word characters. */
  predicate WordText(s: string) {
    s != [] && AllWord(s)
  }

  /** The identifier part of a header line: nothing, or `"x"`. */
  function IdentifierText(id: Option<string>): string {
    match id
    case None => ""
    case Some(x) => "\"" + x + "\""
  }

  /** What `[^"]+` admits. */
  predicate IdentifierOk(id: Option<string>) {
    id.Some? ==> id.value != [] && '"' !in id.value
  }

  /** The type word at the front of `ty + sp + q`, where `sp` is whitespace
      and `q` is empty or starts with a quote. */
  lemma HeaderWord(ty: string, sp: string, q: string)
    requires WordText(ty) && AllSpace(sp) && (q == [] || q[0] == '"')
    ensures var s := ty + sp + q;
            WordEnd(s, 0) == |ty| && s[..|ty|] == ty
  {
    var s := ty + sp + q;
    WordInFront(ty, sp, q);
    if |ty| < |s| {
      if sp != [] {
        assert s[|ty|] == sp[0];
      } else {
        assert s[|ty|] == q[0];
      }
    }
    WordEndIs(s, 0, |ty|);
    assert s[..|ty|] == ty;
  }

  /** The whitespace after the type word of `ty + sp + q`. */
  lemma HeaderSpace(ty: string, sp: string, q: string)
    requires AllSpace(sp) && (q == [] || q[0] == '"')
    ensures var s := ty + sp + q;
            SpaceEnd(s, |ty|) == |ty| + |sp|
  {
    var s := ty + sp + q;
    var k := |ty| + |sp|;
    SpacesInside(ty, sp, q);
    if k < |s| {
      assert s[k] == q[0];
    }
    SpaceEndIs(s, |ty|, k);
  }

  /** `"x"` at the end of `a + "\"" + x + "\""` is a quoted identifier. */
  lemma QuotedTail(a: string, x: string)
    requires x != [] && '"' !in x
    ensures var s := a + IdentifierText(Some(x));
            QuotedFrom(s, |a|) && s[|a| + 1..|s| - 1] == x
  {
    var s := a + IdentifierText(Some(x));
    var k := |a|;
    assert s[k] == '"' && s[|s| - 1] == '"';
    forall j | k < j < |s| - 1
      ensures s[j] != '"'
    {
      assert s[j] == x[j - k - 1];
    }
    assert s[k + 1..|s| - 1] == x;
  }

  /** Every line of the header shape matches, and the match recovers the type
      and the unquoted identifier. */
  lemma HeaderComplete(ty: string, sp: string, id: Option<string>)
    requires WordText(ty) && AllSpace(sp) && IdentifierOk(id)
    ensures ParseHeader(ty + sp + IdentifierText(id)) == Some((ty, id))
  {
    var q := IdentifierText(id);
    HeaderWord(ty, sp, q);
    HeaderSpace(ty, sp, q);
    if id.Some? {
      QuotedTail(ty + sp, id.value);
    }
  }

  /** The whitespace between the type and the identifier of a header line. */
  function HeaderGap(line: string): string {
    var w := WordEnd(line, 0);
    line[w..SpaceEnd(line, w)]
  }

  /** Only lines of the header shape match: a matched line is its type, the
      whitespace gap and the quoted identifier, put together again. */
  lemma HeaderSound(line: string)
    requires ParseHeader(line).Some?
    ensures var h := ParseHeader(line).value;
            WordText(h.0) && IdentifierOk(h.1) && AllSpace(HeaderGap(line)) &&
            line == h.0 + HeaderGap(line) + IdentifierText(h.1)
  {
    var h := ParseHeader(line).value;
    var w := WordEnd(line, 0);
    var k := SpaceEnd(line, w);
    Cut3(line, w, k);
    SliceAllWord(line, w);
    SliceAllSpace(line, w, k);
    if h.1.Some? {
      QuotedSplit(line, k);
    } else {
      assert line[k..] == [];
    }
  }

  /** A quoted tail is its identifier between two quotes. */
  lemma QuotedSplit(line: string, k: nat)
    requires k <= |line| && QuotedFrom(line, k)
    ensures var x := line[k + 1..|line| - 1];
            line[k..] == IdentifierText(Some(x)) && x != [] && '"' !in x
  {
    var x := line[k + 1..|line| - 1];
    assert line[k..] == [line[k]] + x + [line[|line| - 1]];
    forall j | 0 <= j < |x|
      ensures x[j] != '"'
    {
      assert x[j] == line[k + 1 + j];
    }
  }

  /** What `.+` admits after the greedy `\s*`. */
  predicate ValueOk(v: string) {
    v != [] && '\n' !in v && (|v| == 1 || !IsSpace(v[0]))
  }

  /** A line of the property shape: key, whitespace, `=`, whitespace, value. */
  function PropertyText(key: string, sp1: string, sp2: string, v: string): string {
    key + (sp1 + ("=" + (sp2 + v)))
  }

  /** The characters of a property line, segment by segment. */
  lemma PropertyChars(key: string, sp1: string, sp2: string, v: string)
    ensures var s := PropertyText(key, sp1, sp2, v);
            var k := |key| + |sp1|;
            var j := k + 1 + |sp2|;
            |s| == j + |v| && s[k] == '=' &&
            (forall m :: 0 <= m < |key| ==> s[m] == key[m]) &&
            (forall m :: |key| <= m < k ==> s[m] == sp1[m - |key|]) &&
            (forall m :: k + 1 <= m < j ==> s[m] == sp2[m - k - 1]) &&
            (forall m :: j <= m < |s| ==> s[m] == v[m - j])
  {
  }

  /** Where the key and the `=` of a property line are. */
  lemma PropertyKeyPositions(key: string, sp1: string, sp2: string, v: string)
    requires WordText(key) && AllSpace(sp1)
    ensures var s := PropertyText(key, sp1, sp2, v);
            var k := |key| + |sp1|;
            k < |s| && s[k] == '=' && WordEnd(s, 0) == |key| && SpaceEnd(s, |key|) == k
  {
    var s := PropertyText(key, sp1, sp2, v);
    var k := |key| + |sp1|;
    PropertyChars(key, sp1, sp2, v);
    assert forall m {:trigger IsWordChar(s[m])} :: 0 <= m < |key| ==> IsWordChar(s[m]);
    assert forall m {:trigger IsSpace(s[m])} :: |key| <= m < k ==> IsSpace(s[m]);
    if |key| < k {
      assert s[|key|] == sp1[0];
    }
    WordEndIs(s, 0, |key|);
    SpaceEndIs(s, |key|, k);
  }

  /** Where the value of a property line starts. */
  lemma PropertyValuePositions(key: string, sp1: string, sp2: string, v: string)
    requires AllSpace(sp2) && ValueOk(v)
    ensures var s := PropertyText(key, sp1, sp2, v);
            var k := |key| + |sp1|;
            var j := k + 1 + |sp2|;
            j < |s| && ValueStart(s, k + 1) == j && NoNewlineFrom(s, j)
  {
    var s := PropertyText(key, sp1, sp2, v);
    var k := |key| + |sp1|;
    var j := k + 1 + |sp2|;
    PropertyChars(key, sp1, sp2, v);
    assert forall m {:trigger IsSpace(s[m])} :: k + 1 <= m < j ==> IsSpace(s[m]);
    if |v| == 1 && IsSpace(v[0]) {
      SpaceEndIs(s, k + 1, |s|);
    } else {
      SpaceEndIs(s, k + 1, j);
    }
  }

  /** The property regex cuts a property line where its pieces meet. */
  lemma PropertyMatchOf(key: string, sp1: string, sp2: string, v: string)
    requires WordText(key) && AllSpace(sp1) && AllSpace(sp2) && ValueOk(v)
    ensures var k := |key| + |sp1|;
            PropertyMatch(PropertyText(key, sp1, sp2, v)) == Some((|key|, k, k + 1 + |sp2|))
  {
    PropertyKeyPositions(key, sp1, sp2, v);
    PropertyValuePositions(key, sp1, sp2, v);
  }

  /** The key and the value are where the cuts say. */
  lemma PropertySlices(key: string, sp1: string, sp2: string, v: string)
    ensures var s := PropertyText(key, sp1, sp2, v);
            s[..|key|] == key && s[|key| + |sp1| + 1 + |sp2|..] == v
  {
    PropertyChars(key, sp1, sp2, v);
  }

  /** Every line of the property shape matches, and the match recovers the
      key and the value. */
  lemma PropertyComplete(key: string, sp1: string, sp2: string, v: string)
    requires WordText(key) && AllSpace(sp1) && AllSpace(sp2) && ValueOk(v)
    ensures ParseProperty(PropertyText(key, sp1, sp2, v)) == Some(Property(key, v))
  {
    PropertyMatchOf(key, sp1, sp2, v);
    PropertySlices(key, sp1, sp2, v);
  }

  /** The whitespace a matched property line has before and after `=`. */
  function PropertyGaps(line: string): (string, string)
    requires ParseProperty(line).Some?
  {
    var (w, k, j) := PropertyMatch(line).value;
    (line[w..k], line[k + 1..j])
  }

  /** Only lines of the property shape match: a matched line is its key, the
      whitespace gaps around `=` and its value, put together again. */
  lemma PropertySound(line: string)
    requires ParseProperty(line).Some?
    ensures var p := ParseProperty(line).value;
            var g := PropertyGaps(line);
            WordText(p.key) && ValueOk(p.value) && AllSpace(g.0) && AllSpace(g.1) &&
            line == PropertyText(p.key, g.0, g.1, p.value)
  {
    var (w, k, j) := PropertyMatch(line).value;
    var p := ParseProperty(line).value;
    var g := PropertyGaps(line);
    PropertyShape(line, w, k, j, p.key, g.0, g.1, p.value);
  }

  /** The pieces of a line cut where the property pattern cuts it. */
  lemma PropertyShape(line: string, w: nat, k: nat, j: nat, key: string, sp1: string, sp2: string, v: string)
    requires PropertySpans(line, w, k, j)
    requires key == line[..w] && sp1 == line[w..k] && sp2 == line[k + 1..j] && v == line[j..]
    ensures WordText(key) && ValueOk(v) && AllSpace(sp1) && AllSpace(sp2)
    ensures line == PropertyText(key, sp1, sp2, v)
  {
    SliceAllWord(line, w);
    SliceAllSpace(line, w, k);
    SliceAllSpace(line, k + 1, j);
    ValueOkFrom(line, j);
    Cut5(line, w, k, j);
  }

  /** What `(.+)` matched is a value `.+` admits. */
  lemma ValueOkFrom(line: string, j: nat)
    requires j < |line| && NoNewlineFrom(line, j)
    requires j + 1 == |line| || !IsSpace(line[j])
    ensures ValueOk(line[j..])
  {
    var v := line[j..];
    forall m | 0 <= m < |v|
      ensures v[m] != '\n'
    {
      assert v[m] == line[j + m];
    }
  }

  /** A property line cut at the key end, the `=` and the value start. */
  lemma Cut5(s: string, w: nat, k: nat, j: nat)
    requires w <= k < j <= |s|
    ensures s == s[..w] + (s[w..k] + ([s[k]] + (s[k + 1..j] + s[j..])))
  {
    assert s[k..] == [s[k]] + s[k + 1..];
    assert s[k + 1..] == s[k + 1..j] + s[j..];
    assert s[w..] == s[w..k] + s[k..];
    assert s == s[..w] + s[w..];
  }

  // ---------------------------------------------------------------------
  // The grammar over significant lines

  /** The properties up to the closing `}` and the significant lines after
      it. */
  function ParseBody(ss: seq<string>): (r: Result<(seq<Property>, seq<string>)>)
    ensures r.Ok? ==> |r.value.1| < |ss|
    decreases |ss|
  {
    if ss == [] then Err(UnexpectedEndOfFile)
    else if ss[0] == "}" then Ok(([], ss[1..]))
    else
      match ParseProperty(ss[0])
      case None => Err(ExpectedProperty(ss[0]))
      case Some(p) =>
        var rest :- ParseBody(ss[1..]);
        Ok(([p] + rest.0, rest.1))
  }

  /** The next block and the significant lines after it; `None` at the end. */
  function ParseBlockAt(ss: seq<string>): (r: Result<Option<(Block, seq<string>)>>)
    ensures r == Ok(None) <==> ss == []
    ensures r.Ok? && r.value.Some? ==> |r.value.value.1| + 3 <= |ss|
  {
    if ss == [] then Ok(None)
    else
      match ParseHeader(ss[0])
      case None => Err(ExpectedTypeIdentifier(ss[0]))
      case Some(h) =>
        if |ss| < 2 then Err(UnexpectedEndOfFile)
        else if ss[1] != "{" then Err(ExpectedOpeningBrace(ss[1], h.0, h.1))
        else
          var body :- ParseBody(ss[2..]);
          Ok(Some((Block(h.0, h.1, body.0), body.1)))
  }

  /** The block list of a sequence of significant lines. */
  function ParseDocument(ss: seq<string>): Result<seq<Block>>
    decreases |ss|
  {
    match ParseBlockAt(ss)
    case Err(e) => Err(e)
    case Ok(None) => Ok([])
    case Ok(Some((b, rest))) =>
      var bs :- ParseDocument(rest);
      Ok([b] + bs)
  }

  /** The grammar's body rule read one line at a time. */
  lemma BodyStep(line: string, tail: seq<string>)
    ensures ParseBody([line] + tail) ==
            if line == "}" then Ok(([], tail))
            else
              match ParseProperty(line)
              case None => Err(ExpectedProperty(line))
              case Some(p) =>
                match ParseBody(tail)
                case Err(e) => Err(e)
                case Ok((ps, rest)) => Ok(([p] + ps, rest))
  {
    assert ([line] + tail)[1..] == tail;
  }

  /** The grammar's block rule on a header and the line after it. */
  lemma BlockStepCons(header: string, brace: string, tail: seq<string>)
    ensures ParseBlockAt([header] + ([brace] + tail)) ==
            match ParseHeader(header)
            case None => Err(ExpectedTypeIdentifier(header))
            case Some(h) =>
              if brace != "{" then Err(ExpectedOpeningBrace(brace, h.0, h.1))
              else
                match ParseBody(tail)
                case Err(e) => Err(e)
                case Ok((ps, rest)) => Ok(Some((Block(h.0, h.1, ps), rest)))
  {
    var ss := [header] + ([brace] + tail);
    assert ss[1] == brace;
    assert ss[2..] == tail;
  }

  /** The grammar's block rule on a header with nothing after it. */
  lemma BlockStepLast(header: string, tail: seq<string>)
    requires tail == []
    ensures ParseBlockAt([header] + tail) ==
            match ParseHeader(header)
            case None => Err(ExpectedTypeIdentifier(header))
            case Some(_) => Err(UnexpectedEndOfFile)
  {
    assert [header] + tail == [header];
  }

  /** What LinesToTPMRaw computes. */
  function ParseLines(lines: seq<string>): Result<seq<Block>> {
    ParseDocument(Significant(lines))
  }

  /** `blocks` in front of a parse result. */
  function Prepend(blocks: seq<Block>, r: Result<seq<Block>>): Result<seq<Block>> {
    match r
    case Ok(bs) => Ok(blocks + bs)
    case Err(e) => Err(e)
  }

  // ---------------------------------------------------------------------
  // The parser as the source runs it: over line positions

  /** `NonTrivialLine`: the next line at or after `pos` that is not skipped,
      stripped, and the position after it; `None` stands for StopIteration. */
  function NextSignificant(lines: seq<string>, pos: nat): (r: Option<(string, nat)>)
    requires pos <= |lines|
    ensures r.Some? ==> pos < r.value.1 <= |lines|
    decreases |lines| - pos
  {
    if pos == |lines| then None
    else if Trivial(lines[pos]) then NextSignificant(lines, pos + 1)
    else Some((Strip(lines[pos]), pos + 1))
  }

  /** The property loop of `ParseBlock`: the properties up to `}` and the
      position after it. */
  function BodyFrom(lines: seq<string>, pos: nat): (r: Result<(seq<Property>, nat)>)
    requires pos <= |lines|
    ensures r.Ok? ==> pos < r.value.1 <= |lines|
    decreases |lines| - pos
  {
    match NextSignificant(lines, pos)
    case None => Err(UnexpectedEndOfFile)
    case Some((line, next)) =>
      if line == "}" then Ok(([], next))
      else
        match ParseProperty(line)
        case None => Err(ExpectedProperty(line))
        case Some(p) =>
          var rest :- BodyFrom(lines, next);
          Ok(([p] + rest.0, rest.1))
  }

  /** `ParseBlock`: the next block and the position after it; `None` at the
      end of the lines. */
  function BlockFrom(lines: seq<string>, pos: nat): (r: Result<Option<(Block, nat)>>)
    requires pos <= |lines|
    ensures r.Ok? && r.value.Some? ==> pos < r.value.value.1 <= |lines|
  {
    match NextSignificant(lines, pos)
    case None => Ok(None)
    case Some((header, n1)) =>
      match ParseHeader(header)
      case None => Err(ExpectedTypeIdentifier(header))
      case Some(h) =>
        match NextSignificant(lines, n1)
        case None => Err(UnexpectedEndOfFile)
        case Some((brace, n2)) =>
          if brace != "{" then Err(ExpectedOpeningBrace(brace, h.0, h.1))
          else
            var body :- BodyFrom(lines, n2);
            Ok(Some((Block(h.0, h.1, body.0), body.1)))
  }

  /** The block loop of `LinesToTPMRaw`, from a position. */
  function DocumentFrom(lines: seq<string>, pos: nat): Result<seq<Block>>
    requires pos <= |lines|
    decreases |lines| - pos
  {
    match BlockFrom(lines, pos)
    case Err(e) => Err(e)
    case Ok(None) => Ok([])
    case Ok(Some(bn)) =>
      var rest :- DocumentFrom(lines, bn.1);
      Ok([bn.0] + rest)
  }

  // ---------------------------------------------------------------------
  // The position-based parser is the grammar over significant lines

  lemma SignificantUnfold(lines: seq<string>, i: nat)
    requires i < |lines|
    ensures Significant(lines[i..]) ==
            (if Trivial(lines[i]) then [] else [Strip(lines[i])]) + Significant(lines[i + 1..])
  {
    assert lines[i..][1..] == lines[i + 1..];
  }

  /** The line NonTrivialLine returns is the first significant line, and what
      remains after it is the rest of the significant lines. */
  lemma {:induction false} NextSignificantMeaning(lines: seq<string>, pos: nat)
    requires pos <= |lines|
    ensures NextSignificant(lines, pos).None? <==> Significant(lines[pos..]) == []
    ensures NextSignificant(lines, pos).Some? ==>
              var (line, next) := NextSignificant(lines, pos).value;
              Significant(lines[pos..]) == [line] + Significant(lines[next..])
    decreases |lines| - pos
  {
    if pos == |lines| {
      assert lines[pos..] == [];
    } else {
      SignificantUnfold(lines, pos);
      if Trivial(lines[pos]) {
        NextSignificantMeaning(lines, pos + 1);
      }
    }
  }

  /** The property loop reads the body of the grammar: the same properties or
      the same error, and it stops where the body ends. */
  lemma {:induction false} BodyMeaning(lines: seq<string>, pos: nat)
    requires pos <= |lines|
    ensures var ss := Significant(lines[pos..]);
            match BodyFrom(lines, pos)
            case Err(e) => ParseBody(ss) == Err(e)
            case Ok((ps, next)) => ParseBody(ss) == Ok((ps, Significant(lines[next..])))
    decreases |lines| - pos
  {
    NextSignificantMeaning(lines, pos);
    match NextSignificant(lines, pos)
    case None =>
    case Some((line, next)) =>
      BodyStep(line, Significant(lines[next..]));
      if line != "}" && ParseProperty(line).Some? {
        BodyMeaning(lines, next);
      }
  }

  /** `ParseBlock` reads the next block of the grammar. */
  lemma BlockMeaning(lines: seq<string>, pos: nat)
    requires pos <= |lines|
    ensures var ss := Significant(lines[pos..]);
            match BlockFrom(lines, pos)
            case Err(e) => ParseBlockAt(ss) == Err(e)
            case Ok(None) => ParseBlockAt(ss) == Ok(None)
            case Ok(Some((b, next))) => ParseBlockAt(ss) == Ok(Some((b, Significant(lines[next..]))))
  {
    NextSignificantMeaning(lines, pos);
    match NextSignificant(lines, pos)
    case None =>
    case Some((header, n1)) =>
      NextSignificantMeaning(lines, n1);
      match NextSignificant(lines, n1)
      case None =>
        BlockStepLast(header, Significant(lines[n1..]));
      case Some((brace, n2)) =>
        BlockStepCons(header, brace, Significant(lines[n2..]));
        if ParseHeader(header).Some? && brace == "{" {
          BodyMeaning(lines, n2);
        }
  }

  /** The block loop of the source computes the grammar's block list. */
  lemma {:induction false} DocumentMeaning(lines: seq<string>, pos: nat)
    requires pos <= |lines|
    ensures DocumentFrom(lines, pos) == ParseDocument(Significant(lines[pos..]))
    decreases |lines| - pos
  {
    BlockMeaning(lines, pos);
    match BlockFrom(lines, pos)
    case Err(e) =>
    case Ok(None) =>
    case Ok(Some((b, next))) =>
      DocumentMeaning(lines, next);
  }

  // ---------------------------------------------------------------------
  // The imperative parser

  /** Advance the line iterator to the next significant line. */
  method NonTrivialLine(lines: seq<string>, pos: nat) returns (line: Option<string>, next: nat)
    requires pos <= |lines|
    ensures next <= |lines|
    ensures match NextSignificant(lines, pos)
            case None => line.None?
            case Some((l, n)) => line == Some(l) && next == n
  {
    next := pos;
    while next < |lines|
      invariant pos <= next <= |lines|
      invariant NextSignificant(lines, next) == NextSignificant(lines, pos)
      decreases |lines| - next
    {
      var l := lines[next];
      next := next + 1;
      if l == [] || AllSpace(l) {
        continue;
      }
      var s := Strip(l);
      if StartsWith(s, "//") {
        continue;
      }
      return Some(s), next;
    }
    return None, next;
  }

  /** The outcome of the ParseBlock method read against BlockFrom. */
  predicate BlockStep(lines: seq<string>, pos: nat, r: Result<Option<Block>>, next: nat)
    requires pos <= |lines|
  {
    match BlockFrom(lines, pos)
    case Err(e) => r == Err(e)
    case Ok(None) => r == Ok(None)
    case Ok(Some((b, n))) => r == Ok(Some(b)) && next == n
  }

  lemma NoPropsInFront(r: Result<(seq<Property>, nat)>)
    ensures PrependProps([], r) == r
  {
    if r.Ok? {
      assert [] + r.value.0 == r.value.0;
    }
  }

  /** Parse one block from the iterator position, or `None` at the end. */
  method ParseBlock(lines: seq<string>, pos: nat) returns (r: Result<Option<Block>>, next: nat)
    requires pos <= |lines|
    ensures next <= |lines|
    ensures BlockStep(lines, pos, r, next)
  {
    var header;
    header, next := NonTrivialLine(lines, pos);
    if header.None? {
      return Ok(None), next;
    }
    var h := ParseHeader(header.value);
    if h.None? {
      return Err(ExpectedTypeIdentifier(header.value)), next;
    }
    var blockType := h.value.0;
    var identifier := h.value.1;
    ghost var bodyStart := NextSignificant(lines, next);
    var brace;
    brace, next := NonTrivialLine(lines, next);
    if brace.None? {
      return Err(UnexpectedEndOfFile), next;
    }
    if brace.value != "{" {
      return Err(ExpectedOpeningBrace(brace.value, blockType, identifier)), next;
    }
    ghost var start := next;
    var properties: seq<Property> := [];
    NoPropsInFront(BodyFrom(lines, start));
    while true
      invariant start <= next <= |lines|
      invariant BodyFrom(lines, start) == PrependProps(properties, BodyFrom(lines, next))
      decreases |lines| - next
    {
      ghost var here := next;
      var line;
      line, next := NonTrivialLine(lines, next);
      if line.None? {
        return Err(UnexpectedEndOfFile), next;
      }
      if line.value == "}" {
        assert properties + [] == properties;
        return Ok(Some(Block(blockType, identifier, properties))), next;
      }
      var p := ParseProperty(line.value);
      if p.None? {
        return Err(ExpectedProperty(line.value)), next;
      }
      PrependPropsAssoc(properties, p.value, BodyFrom(lines, next));
      properties := properties + [p.value];
    }
  }

  /** `properties` in front of the properties of a body read from a position;
      the position reached stays. */
  function PrependProps(properties: seq<Property>, r: Result<(seq<Property>, nat)>): Result<(seq<Property>, nat)> {
    match r
    case Ok(b) => Ok((properties + b.0, b.1))
    case Err(e) => Err(e)
  }

  lemma PrependPropsAssoc(ps: seq<Property>, p: Property, r: Result<(seq<Property>, nat)>)
    ensures PrependProps(ps, PrependProps([p], r)) == PrependProps(ps + [p], r)
  {
    if r.Ok? {
      assert ps + ([p] + r.value.0) == (ps + [p]) + r.value.0;
    }
  }

  lemma PrependAssoc(bs: seq<Block>, b: Block, r: Result<seq<Block>>)
    ensures Prepend(bs, Prepend([b], r)) == Prepend(bs + [b], r)
  {
    if r.Ok? {
      assert bs + ([b] + r.value) == (bs + [b]) + r.value;
    }
  }

  lemma NoBlocksInFront(r: Result<seq<Block>>)
    ensures Prepend([], r) == r
  {
    if r.Ok? {
      assert [] + r.value == r.value;
    }
  }

  /** The block loop, started at the first line, parses all the lines. */
  lemma ParseLinesFrom(lines: seq<string>)
    ensures ParseLines(lines) == DocumentFrom(lines, 0)
  {
    DocumentMeaning(lines, 0);
    assert lines[0..] == lines;
  }

  /** Parse a list of lines into blocks. */
  method LinesToTPMRaw(lines: seq<string>) returns (r: Result<seq<Block>>)
    ensures r == ParseLines(lines)
  {
    ParseLinesFrom(lines);
    var pos := 0;
    var blocks: seq<Block> := [];
    NoBlocksInFront(DocumentFrom(lines, 0));
    while true
      invariant pos <= |lines|
      invariant DocumentFrom(lines, 0) == Prepend(blocks, DocumentFrom(lines, pos))
      decreases |lines| - pos
    {
      var b, next := ParseBlock(lines, pos);
      if b.Err? {
        return Err(b.error);
      }
      if b.value.None? {
        assert blocks + [] == blocks;
        return Ok(blocks);
      }
      PrependAssoc(blocks, b.value.value, DocumentFrom(lines, next));
      blocks := blocks + [b.value.value];
      pos := next;
    }
  }

  /** Parse the text of a TPM file: its lines as `str.splitlines` cuts them. */
  method StringToTPMRaw(tpmData: string) returns (r: Result<seq<Block>>)
    ensures r == ParseLines(SplitLines(tpmData))
  {
    r := LinesToTPMRaw(SplitLines(tpmData));
  }

  // ---------------------------------------------------------------------
  // Writing

  /** `type`, or `type identifier` when the identifier is non-empty. */
  function HeaderLine(b: Block): string {
    if b.identifier.Some? && b.identifier.value != [] then b.blockType + " " + b.identifier.value
    else b.blockType
  }

  function PropertyLine(p: Property): string {
    "\t" + p.key + " = " + p.value
  }

  function PropertyLines(ps: seq<Property>): (r: seq<string>)
    ensures |r| == |ps|
    ensures forall i :: 0 <= i < |ps| ==> r[i] == PropertyLine(ps[i])
  {
    seq(|ps|, i requires 0 <= i < |ps| => PropertyLine(ps[i]))
  }

  /** The lines written for one block. */
  function BlockLines(b: Block): (r: seq<string>)
    ensures |r| == |b.properties| + 4
  {
    [HeaderLine(b), "{"] + PropertyLines(b.properties) + ["}", ""]
  }

  /** What TPMRawToLines computes: the blocks' lines one after another. */
  function RawLines(bs: seq<Block>): seq<string>
    decreases |bs|
  {
    if bs == [] then [] else BlockLines(bs[0]) + RawLines(bs[1..])
  }

  lemma {:induction false} RawLinesSnoc(bs: seq<Block>, b: Block)
    ensures RawLines(bs + [b]) == RawLines(bs) + BlockLines(b)
    decreases |bs|
  {
    if bs == [] {
      assert [b][1..] == [];
    } else {
      assert (bs + [b])[0] == bs[0];
      assert (bs + [b])[1..] == bs[1..] + [b];
      RawLinesSnoc(bs[1..], b);
    }
  }

  /** Sum over the blocks of `len(properties) + 4`. */
  function LineCount(bs: seq<Block>): nat
    decreases |bs|
  {
    if bs == [] then 0 else |bs[0].properties| + 4 + LineCount(bs[1..])
  }

  /** Every block takes `len(properties) + 4` lines. */
  lemma {:induction false} RawLinesLength(bs: seq<Block>)
    ensures |RawLines(bs)| == LineCount(bs)
    decreases |bs|
  {
    if bs != [] {
      RawLinesLength(bs[1..]);
    }
  }

  lemma NoPropertyLines(ps: seq<Property>)
    ensures PropertyLines(ps[..0]) == []
  {
  }

  /** One more turn of the property loop. */
  lemma PropertyLinesStep(head: seq<string>, ps: seq<Property>, j: nat)
    requires j < |ps|
    ensures head + PropertyLines(ps[..j]) + [PropertyLine(ps[j])] == head + PropertyLines(ps[..j + 1])
  {
    assert PropertyLines(ps[..j + 1]) == PropertyLines(ps[..j]) + [PropertyLine(ps[j])];
  }

  /** The appends of one turn of the block loop write the block's lines. */
  lemma BlockLinesAppend(head: seq<string>, b: Block)
    ensures head + [HeaderLine(b)] + ["{"] + PropertyLines(b.properties) + ["}"] + [""] ==
            head + BlockLines(b)
  {
  }

  /** One more turn of the block loop. */
  lemma RawLinesStep(bs: seq<Block>, i: nat)
    requires i < |bs|
    ensures var b := bs[i];
            RawLines(bs[..i]) + [HeaderLine(b)] + ["{"] + PropertyLines(b.properties[..|b.properties|]) +
              ["}"] + [""] == RawLines(bs[..i + 1])
  {
    var b := bs[i];
    assert b.properties[..|b.properties|] == b.properties;
    BlockLinesAppend(RawLines(bs[..i]), b);
    RawLinesSnoc(bs[..i], b);
    assert bs[..i + 1] == bs[..i] + [b];
  }

  /** The lines of a block list: per block the header, `{`, one `\tkey = value`
      line per property, `}` and an empty line. */
  method TPMRawToLines(raw: seq<Block>) returns (lines: seq<string>)
    ensures lines == RawLines(raw)
  {
    lines := [];
    for i := 0 to |raw|
      invariant lines == RawLines(raw[..i])
    {
      var block := raw[i];
      lines := lines + [HeaderLine(block)];
      lines := lines + ["{"];
      ghost var head := lines;
      NoPropertyLines(block.properties);
      for j := 0 to |block.properties|
        invariant lines == head + PropertyLines(block.properties[..j])
      {
        PropertyLinesStep(head, block.properties, j);
        lines := lines + [PropertyLine(block.properties[j])];
      }
      lines := lines + ["}"];
      lines := lines + [""];
      RawLinesStep(raw, i);
    }
    assert raw[..|raw|] == raw;
  }

  /** The text of a block list: its lines joined with "\n". */
  method TPMRawToString(raw: seq<Block>) returns (s: string)
    ensures s == Join(RawLines(raw), '\n')
  {
    var lines := TPMRawToLines(raw);
    s := Join(lines, '\n');
  }
}
