/** The two value regexes of TPMRawToTPM (io_mesh_tpm/tpm_types.py), the
    face entry and the skin vertex, as scanners, together with the text the
    encoder writes for the same values.

    Each scanner consumes a prefix and hands back the rest; a full match is a
    scan that leaves nothing. The face regex needs no backtracking: every
    `\d+` is followed by whitespace, `,`, `)` or the end, and every `\s*` by a
    digit or punctuation, so matching each piece greedily finds the only
    match. */
module Patterns {
  import opened Errors
  import opened Text

  /** `\s*`: drop the leading whitespace. */
  function SkipSpace(s: string): (r: string)
    ensures |r| <= |s|
    ensures r == [] || !IsSpace(r[0])
  {
    s[SpaceEnd(s, 0)..]
  }

  /** One literal character. */
  function Expect(s: string, c: char): (r: Option<string>)
    ensures r.Some? <==> |s| > 0 && s[0] == c
    ensures r.Some? ==> r.value == s[1..]
  {
    if |s| > 0 && s[0] == c then Some(s[1..]) else None
  }

  /** `\s*c\s*`. */
  function Punct(s: string, c: char): (r: Option<string>)
    ensures r.Some? ==> |r.value| < |s|
  {
    var t :- Expect(SkipSpace(s), c);
    Some(SkipSpace(t))
  }

  /** `(\d+)` followed by `int(…)` of the group. A greedy run: the
      character after it is not a digit. */
  function Number(s: string): (r: Option<(nat, string)>)
    ensures r.Some? <==> |s| > 0 && IsDigit(s[0])
    ensures r.Some? ==> |r.value.1| < |s| && (r.value.1 == [] || !IsDigit(r.value.1[0]))
  {
    var e := DigitEnd(s, 0);
    if e == 0 then None
    else
      assert AllDigits(s[..e]) by {
        forall j | 0 <= j < e ensures IsDigit(s[..e][j]) {
          assert s[..e][j] == s[j];
        }
      }
      Some((DigitsValue(s[..e]), s[e..]))
  }

  /** `(\d+)\s*c\s*`. */
  function NumberThen(s: string, c: char): (r: Option<(nat, string)>)
    ensures r.Some? ==> |r.value.1| < |s|
  {
    var a :- Number(s);
    var rest :- Punct(a.1, c);
    Some((a.0, rest))
  }

  /** `\((\d+)\s*,\s*(\d+)\s*,\s*(\d+)\s*\)`. */
  function Triple(s: string): (r: Option<(seq<nat>, string)>)
    ensures r.Some? ==> |r.value.0| == 3 && |r.value.1| < |s|
  {
    var s0 :- Expect(s, '(');
    var a :- NumberThen(s0, ',');
    var b :- NumberThen(a.1, ',');
    var c :- Number(b.1);
    var s3 :- Expect(SkipSpace(c.1), ')');
    Some(([a.0, b.0, c.0], s3))
  }

  /** `\s*,\s*` and a triple. */
  function NextTriple(s: string): (r: Option<(seq<nat>, string)>)
    ensures r.Some? ==> |r.value.0| == 3
  {
    var s1 :- Punct(s, ',');
    Triple(s1)
  }

  /** `faceEntryRegex.fullmatch`: three index triples and a material index,
      separated by `\s*,\s*`; the ten integers in order. */
  function FaceEntry(s: string): (r: Option<seq<nat>>)
    ensures r.Some? ==> |r.value| == 10
  {
    var v :- Triple(s);
    var t :- NextTriple(v.1);
    var n :- NextTriple(t.1);
    var s3 :- Punct(n.1, ',');
    var m :- Number(s3);
    if m.1 != [] then None else Some(v.0 + t.0 + n.0 + [m.0])
  }

  /** The last position of `c` in `s`. */
  function LastIndex(s: string, c: char): (r: Option<nat>)
    ensures r.Some? ==> r.value < |s| && s[r.value] == c
    ensures r.Some? ==> forall k :: r.value < k < |s| ==> s[k] != c
    ensures r.None? ==> c !in s
    decreases |s|
  {
    if s == [] then None
    else if s[|s| - 1] == c then Some(|s| - 1)
    else LastIndex(s[..|s| - 1], c)
  }

  /** The tail `\s*,\s*(\d+)` of the skin vertex regex, to the end. */
  function BoneIndexTail(s: string): (r: Option<nat>)
  {
    var t :- Punct(s, ',');
    var k :- Number(t);
    if k.1 != [] then None else Some(k.0)
  }

  /** `skinVertexRegex.fullmatch`, `(\(.*?\))\s*,\s*(\d+)`: group 1 and
      `int` of group 2. The tail contains no `)`, so the lazy group can only
      end at the last `)` of the text; `.` does not match a newline. */
  function SkinVertex(s: string): (r: Option<(string, nat)>)
    ensures r.Some? ==> |s| > 0 && s[0] == '(' && 2 <= |r.value.0| <= |s| &&
                        r.value.0 == s[..|r.value.0|] && r.value.0[|r.value.0| - 1] == ')' &&
                        '\n' !in r.value.0
  {
    if |s| == 0 || s[0] != '(' then None
    else
      var j :- LastIndex(s, ')');
      if j == 0 || '\n' in s[..j + 1] then None
      else SkinVertexAt(s, j)
  }

  /** Group 1 ending at the `)` at index `j`, group 2 from the rest. */
  function SkinVertexAt(s: string, j: nat): (r: Option<(string, nat)>)
    requires j < |s|
    ensures r.Some? ==> r.value.0 == s[..j + 1] && BoneIndexTail(s[j + 1..]) == Some(r.value.1)
  {
    var k :- BoneIndexTail(s[j + 1..]);
    Some((s[..j + 1], k))
  }

  // ---------------------------------------------------------------------------
  // The encoder's text for the same values

  /** `f"({x[0]},{x[1]},{x[2]})"`. */
  function TripleText(x: seq<int>): string
    requires |x| == 3
  {
    "(" + IntToString(x[0]) + "," + IntToString(x[1]) + "," + IntToString(x[2]) + ")"
  }

  /** `f"({v…}),({t…}),({n…}),{m}"`, the face property the encoder writes. */
  function FaceText(v: seq<int>, t: seq<int>, n: seq<int>, m: int): string
    requires |v| == 3 && |t| == 3 && |n| == 3
  {
    TripleText(v) + "," + TripleText(t) + "," + TripleText(n) + "," + IntToString(m)
  }

  /** `f"{vector},{bone}"`, the skin vertex property the encoder writes after
      its vector text. */
  function SkinVertexText(vector: string, bone: int): string {
    vector + "," + IntToString(bone)
  }

  predicate NonNegative(x: seq<int>) {
    forall k :: 0 <= k < |x| ==> x[k] >= 0
  }

  // ---------------------------------------------------------------------------
  // Scanning the encoder's text

  lemma SkipNothing(t: string)
    requires t == [] || !IsSpace(t[0])
    ensures SkipSpace(t) == t
  {
    SpaceEndIs(t, 0, 0);
    assert t[0..] == t;
  }

  lemma NumberOf(n: nat, t: string)
    requires t == [] || !IsDigit(t[0])
    ensures Number(NatToString(n) + t) == Some((n, t))
  {
    var d := NatToString(n);
    var s := d + t;
    assert forall j :: 0 <= j < |d| ==> s[j] == d[j];
    DigitEndIs(s, 0, |d|);
    assert s[..|d|] == d;
    assert s[|d|..] == t;
    DigitsValueOfNatToString(n);
  }

  lemma TailOfCons(c: char, t: string)
    ensures ([c] + t)[1..] == t
  {
  }

  lemma PunctOf(c: char, t: string)
    requires !IsSpace(c)
    requires t == [] || !IsSpace(t[0])
    ensures Punct([c] + t, c) == Some(t)
  {
    SkipNothing([c] + t);
    TailOfCons(c, t);
    SkipNothing(t);
  }

  /** The triple's text, nested from the right. */
  lemma TripleTextThen(x: seq<int>, t: string)
    requires |x| == 3 && NonNegative(x)
    ensures TripleText(x) + t ==
            "(" + (NatToString(x[0]) + ("," + (NatToString(x[1]) + ("," + (NatToString(x[2]) + (")" + t))))))
  {
    var a, b, c := NatToString(x[0]), NatToString(x[1]), NatToString(x[2]);
    Assoc("(" + a + "," + b + "," + c, ")", t);
    Assoc("(" + a + "," + b + ",", c, ")" + t);
    Assoc("(" + a + "," + b, ",", c + (")" + t));
    Assoc("(" + a + ",", b, "," + (c + (")" + t)));
    Assoc("(" + a, ",", b + ("," + (c + (")" + t))));
    Assoc("(", a, "," + (b + ("," + (c + (")" + t)))));
  }

  /** A triple of non-negative integers is read back, and scanning stops at
      the character after `)`. */
  lemma TripleOf(x: seq<int>, t: string)
    requires |x| == 3 && NonNegative(x)
    ensures Triple(TripleText(x) + t) == Some((x, t))
  {
    var a, b, c := NatToString(x[0]), NatToString(x[1]), NatToString(x[2]);
    var s2 := c + (")" + t);
    var s1 := b + ("," + s2);
    var s0 := a + ("," + s1);
    TripleTextThen(x, t);
    TailOfCons('(', s0);
    NumberThenNumber(x[0], ',', b, "," + s2);
    NumberThenNumber(x[1], ',', c, ")" + t);
    ClosingNumber(x[2], t);
    ThreeOf(x);
  }

  /** A number, then `c`, then something that starts with a digit. */
  lemma NumberThenNumber(n: nat, c: char, d: string, rest: string)
    requires !IsSpace(c) && !IsDigit(c)
    requires |d| > 0 && IsDigit(d[0])
    ensures NumberThen(NatToString(n) + ([c] + (d + rest)), c) == Some((n, d + rest))
  {
    NumberThenOf(n, c, d + rest);
  }

  /** A number and the separator after it. */
  lemma NumberThenOf(n: nat, c: char, rest: string)
    requires !IsSpace(c) && !IsDigit(c)
    requires rest == [] || !IsSpace(rest[0])
    ensures NumberThen(NatToString(n) + ([c] + rest), c) == Some((n, rest))
  {
    NumberOf(n, [c] + rest);
    PunctOf(c, rest);
  }

  /** The last number of a triple and its closing parenthesis. */
  lemma ClosingNumber(n: nat, t: string)
    ensures Number(NatToString(n) + (")" + t)) == Some((n, ")" + t))
    ensures Expect(SkipSpace(")" + t), ')') == Some(t)
  {
    NumberOf(n, ")" + t);
    SkipNothing(")" + t);
    TailOfCons(')', t);
  }

  lemma TripleTextStarts(x: seq<int>, r: string)
    requires |x| == 3
    ensures |TripleText(x) + r| > 0 && (TripleText(x) + r)[0] == '('
  {
    assert TripleText(x)[0] == '(';
  }

  lemma ThreeOf(x: seq<int>)
    requires |x| == 3
    ensures [x[0], x[1], x[2]] == x
  {
  }

  lemma AppendEmpty(s: string)
    ensures s + [] == s
  {
  }

  /** The face text, nested from the right. */
  lemma FaceTextThen(v: seq<int>, t: seq<int>, n: seq<int>, m: int)
    requires |v| == 3 && |t| == 3 && |n| == 3
    ensures FaceText(v, t, n, m) ==
            TripleText(v) + ("," + (TripleText(t) + ("," + (TripleText(n) + ("," + IntToString(m))))))
  {
    var tv, tt, tn, mt := TripleText(v), TripleText(t), TripleText(n), IntToString(m);
    Assoc(tv + "," + tt + "," + tn, ",", mt);
    Assoc(tv + "," + tt + ",", tn, "," + mt);
    Assoc(tv + "," + tt, ",", tn + ("," + mt));
    Assoc(tv + ",", tt, "," + (tn + ("," + mt)));
    Assoc(tv, ",", tt + ("," + (tn + ("," + mt))));
  }

  /** The encoder's face text is matched, with its ten indices in order. */
  lemma FaceEntryOf(v: seq<int>, t: seq<int>, n: seq<int>, m: int)
    requires |v| == 3 && |t| == 3 && |n| == 3
    requires NonNegative(v) && NonNegative(t) && NonNegative(n) && m >= 0
    ensures FaceEntry(FaceText(v, t, n, m)) == Some(v + t + n + [m])
  {
    var mt := NatToString(m);
    var r3 := "," + mt;
    var r2 := "," + (TripleText(n) + r3);
    var r1 := "," + (TripleText(t) + r2);
    FaceTextThen(v, t, n, m);
    TripleOf(v, r1);
    NextTripleOf(t, r2);
    NextTripleOf(n, r3);
    PunctOf(',', mt);
    AppendEmpty(mt);
    NumberOf(m, []);
  }

  lemma NextTripleOf(x: seq<int>, r: string)
    requires |x| == 3 && NonNegative(x)
    ensures NextTriple("," + (TripleText(x) + r)) == Some((x, r))
  {
    TripleTextStarts(x, r);
    PunctOf(',', TripleText(x) + r);
    TripleOf(x, r);
  }

  /** A face entry needs a digit where the regex wants one: a face whose
      first vertex index is negative, as the encoder writes it, is refused. */
  lemma NegativeFaceRefused(v: seq<int>, t: seq<int>, n: seq<int>, m: int)
    requires |v| == 3 && |t| == 3 && |n| == 3
    requires v[0] < 0
    ensures FaceEntry(FaceText(v, t, n, m)) == None
  {
    var rest := "," + IntToString(v[1]) + "," + IntToString(v[2]) + ")" + ("," + (TripleText(t) + ("," + (TripleText(n) + ("," + IntToString(m))))));
    var after := "-" + (NatToString(-v[0]) + rest);
    FaceTextThen(v, t, n, m);
    NegativeTripleThen(v, "," + (TripleText(t) + ("," + (TripleText(n) + ("," + IntToString(m))))));
    TailOfCons('(', after);
  }

  lemma NegativeTripleThen(x: seq<int>, t: string)
    requires |x| == 3 && x[0] < 0
    ensures TripleText(x) + t ==
            "(" + ("-" + (NatToString(-x[0]) + ("," + IntToString(x[1]) + "," + IntToString(x[2]) + ")" + t)))
  {
    var a, b, c := NatToString(-x[0]), IntToString(x[1]), IntToString(x[2]);
    assert IntToString(x[0]) == "-" + a;
    Assoc("(" + ("-" + a) + "," + b + "," + c, ")", t);
    Assoc("(" + ("-" + a), "," + b + "," + c, ")" + t);
    Assoc("(" + ("-" + a), "," + b + "," + c + ")", t);
    Assoc("(", "-" + a, "," + b + "," + c + ")" + t);
    Assoc("-", a, "," + b + "," + c + ")" + t);
    CommaChain("(" + ("-" + a), b, c);
  }

  lemma CommaChain(p: string, b: string, c: string)
    ensures p + "," + b + "," + c == p + ("," + b + "," + c)
  {
  }

  /** The last `c` found scanning back from the end. */
  lemma {:induction false} LastIndexIs(s: string, c: char, j: nat)
    requires j < |s| && s[j] == c
    requires forall k :: j < k < |s| ==> s[k] != c
    ensures LastIndex(s, c) == Some(j)
    decreases |s|
  {
    if j < |s| - 1 {
      var s' := s[..|s| - 1];
      assert s'[j] == c;
      forall k | j < k < |s'| ensures s'[k] != c {
        assert s'[k] == s[k];
      }
      LastIndexIs(s', c, j);
    }
  }

  /** `vec + tail` splits at the last `)`, the one closing `vec`. */
  lemma LastParenAt(vec: string, tail: string)
    requires |vec| >= 1 && vec[|vec| - 1] == ')'
    requires ')' !in tail
    ensures LastIndex(vec + tail, ')') == Some(|vec| - 1)
  {
    var s := vec + tail;
    forall k | |vec| - 1 < k < |s| ensures s[k] != ')' {
      assert s[k] == tail[k - |vec|];
    }
    LastIndexIs(s, ')', |vec| - 1);
  }

  lemma SplitAt(a: string, b: string)
    ensures (a + b)[..|a|] == a && (a + b)[|a|..] == b
  {
  }

  /** A skin vertex is its bracketed text and a tail without `)`. */
  lemma SkinVertexSplit(vec: string, tail: string)
    requires |vec| >= 2 && vec[0] == '(' && vec[|vec| - 1] == ')' && '\n' !in vec
    requires ')' !in tail
    ensures SkinVertex(vec + tail) ==
            (match BoneIndexTail(tail)
             case Some(k) => Some((vec, k))
             case None => None)
  {
    LastParenAt(vec, tail);
    SplitAt(vec, tail);
  }

  lemma BoneIndexTailOf(bone: nat)
    ensures ')' !in "," + NatToString(bone)
    ensures BoneIndexTail("," + NatToString(bone)) == Some(bone)
  {
    var b := NatToString(bone);
    PunctOf(',', b);
    AppendEmpty(b);
    NumberOf(bone, []);
    forall k | 0 < k < |"," + b| ensures ("," + b)[k] != ')' {
      assert ("," + b)[k] == b[k - 1];
    }
  }

  /** The encoder's skin vertex text is matched, giving back the vector text
      and the bone index. */
  lemma SkinVertexOf(inner: string, bone: int)
    requires ')' !in inner && '\n' !in inner
    requires bone >= 0
    ensures SkinVertex(SkinVertexText("(" + inner + ")", bone)) == Some(("(" + inner + ")", bone))
  {
    var vec := "(" + inner + ")";
    Assoc(vec, ",", NatToString(bone));
    NoNewlineInVector(inner);
    BoneIndexTailOf(bone);
    SkinVertexSplit(vec, "," + NatToString(bone));
  }

  lemma NoNewlineInVector(inner: string)
    requires '\n' !in inner
    ensures '\n' !in "(" + inner + ")"
  {
  }

  // ---------------------------------------------------------------------------
  // What the two regexes match, with any spacing

  /** What `\d+` matches: a non-empty run of ASCII digits. */
  predicate DigitRun(d: string) {
    d != [] && AllDigits(d)
  }

  /** `int` of each digit run. */
  function Values(d: seq<string>): (r: seq<nat>)
    requires forall i :: 0 <= i < |d| ==> AllDigits(d[i])
    ensures |r| == |d|
    ensures forall i :: 0 <= i < |d| ==> r[i] == DigitsValue(d[i])
  {
    seq(|d|, i requires 0 <= i < |d| => DigitsValue(d[i]))
  }

  /** A text `\((\d+)\s*,\s*(\d+)\s*,\s*(\d+)\s*\)` matches, given by its three
      digit runs `d` and its five whitespace runs `g` in pattern order. */
  function SpacedTriple(d: seq<string>, g: seq<string>): string
    requires |d| == 3 && |g| == 5
  {
    "(" + d[0] + g[0] + "," + g[1] + d[1] + g[2] + "," + g[3] + d[2] + g[4] + ")"
  }

  /** A text the face regex matches, given by its ten digit runs `d` and its
      twenty-one whitespace runs `g` in pattern order: three triples and the
      material index, with `\s*,\s*` between them. */
  function SpacedFace(d: seq<string>, g: seq<string>): string
    requires |d| == 10 && |g| == 21
  {
    SpacedTriple(d[..3], g[..5]) + g[5] + "," + g[6] +
    SpacedTriple(d[3..6], g[7..12]) + g[12] + "," + g[13] +
    SpacedTriple(d[6..9], g[14..19]) + g[19] + "," + g[20] + d[9]
  }

  predicate TripleParts(d: seq<string>, g: seq<string>) {
    |d| == 3 && |g| == 5 &&
    (forall i :: 0 <= i < 3 ==> DigitRun(d[i])) && (forall j :: 0 <= j < 5 ==> AllSpace(g[j]))
  }

  predicate FaceParts(d: seq<string>, g: seq<string>) {
    |d| == 10 && |g| == 21 &&
    (forall i :: 0 <= i < 10 ==> DigitRun(d[i])) && (forall j :: 0 <= j < 21 ==> AllSpace(g[j]))
  }

  /** A text `(\(.*?\))\s*,\s*(\d+)` matches: the bracketed vector text, the
      whitespace around the comma and the digit run. */
  function SpacedSkinVertex(inner: string, a: string, b: string, d: string): string {
    "(" + inner + ")" + a + "," + b + d
  }

  /** `.` does not match a line feed. */
  predicate SkinParts(inner: string, a: string, b: string, d: string) {
    '\n' !in inner && AllSpace(a) && AllSpace(b) && DigitRun(d)
  }

  /** Every text of the face regex's shape matches, giving the ten integers
      in order. */
  lemma FaceEntryComplete(d: seq<string>, g: seq<string>)
    requires FaceParts(d, g)
    ensures FaceEntry(SpacedFace(d, g)) == Some(Values(d))
  {
    var t0, t1, t2 := SpacedTriple(d[..3], g[..5]), SpacedTriple(d[3..6], g[7..12]), SpacedTriple(d[6..9], g[14..19]);
    var x3 := g[19] + ("," + (g[20] + d[9]));
    var x2 := g[12] + ("," + (g[13] + (t2 + x3)));
    var x1 := g[5] + ("," + (g[6] + (t1 + x2)));
    FaceThen(d, g);
    FacePartsSlices(d, g);
    TripleRead(d[..3], g[..5], x1);
    NextTripleRead(g[5], g[6], d[3..6], g[7..12], x2);
    NextTripleRead(g[12], g[13], d[6..9], g[14..19], x3);
    MaterialIndexRead(g[19], g[20], d[9]);
    FaceValues(d);
  }

  /** The three triples' runs and the runs between them. */
  lemma FacePartsSlices(d: seq<string>, g: seq<string>)
    requires FaceParts(d, g)
    ensures TripleParts(d[..3], g[..5]) && TripleParts(d[3..6], g[7..12]) && TripleParts(d[6..9], g[14..19])
    ensures AllSpace(g[5]) && AllSpace(g[6]) && AllSpace(g[12]) && AllSpace(g[13]) && AllSpace(g[19]) && AllSpace(g[20])
    ensures DigitRun(d[9])
  {
    assert forall i :: 0 <= i < 3 ==> d[3..6][i] == d[i + 3] && d[6..9][i] == d[i + 6];
    assert forall j :: 0 <= j < 5 ==> g[7..12][j] == g[j + 7] && g[14..19][j] == g[j + 14];
  }

  /** Only texts of that shape match: a matched text is its digit runs and
      whitespace runs put together again, and the integers are theirs. */
  lemma FaceEntrySound(s: string)
    requires FaceEntry(s).Some?
    ensures exists d, g :: FaceParts(d, g) && s == SpacedFace(d, g) && FaceEntry(s).value == Values(d)
  {
    var d0, g0, a1, b1, d1, g1, a2, b2, d2, g2, a3, b3, d9 := FaceRuns(s);
    var d, g := d0 + d1 + d2 + [d9], g0 + [a1, b1] + g1 + [a2, b2] + g2 + [a3, b3];
    FaceOfRuns(d0, d1, d2, d9, g0, g1, g2, a1, b1, a2, b2, a3, b3);
    assert FaceParts(d, g) && s == SpacedFace(d, g) && FaceEntry(s).value == Values(d);
  }

  /** The runs of a matched face, piece by piece. */
  lemma FaceRuns(s: string)
    returns (d0: seq<string>, g0: seq<string>, a1: string, b1: string, d1: seq<string>, g1: seq<string>,
             a2: string, b2: string, d2: seq<string>, g2: seq<string>, a3: string, b3: string, d9: string)
    requires FaceEntry(s).Some?
    ensures TripleParts(d0, g0) && TripleParts(d1, g1) && TripleParts(d2, g2) && DigitRun(d9)
    ensures AllSpace(a1) && AllSpace(b1) && AllSpace(a2) && AllSpace(b2) && AllSpace(a3) && AllSpace(b3)
    ensures s == SpacedTriple(d0, g0) + (a1 + ("," + (b1 + (SpacedTriple(d1, g1) + (a2 + ("," + (b2 +
                 (SpacedTriple(d2, g2) + (a3 + ("," + (b3 + d9)))))))))))
    ensures FaceEntry(s) == Some(Values(d0) + Values(d1) + Values(d2) + [DigitsValue(d9)])
  {
    var x1 := Triple(s).value.1;
    d0, g0 := TripleSound(s);
    var x2 := NextTriple(x1).value.1;
    a1, b1, d1, g1 := NextTripleSound(x1);
    var x3 := NextTriple(x2).value.1;
    a2, b2, d2, g2 := NextTripleSound(x2);
    a3, b3, d9 := MaterialIndexSound(x3);
  }

  /** `\s*,\s*` and a triple. */
  lemma NextTripleRead(a: string, b: string, d: seq<string>, g: seq<string>, t: string)
    requires AllSpace(a) && AllSpace(b) && TripleParts(d, g)
    ensures NextTriple(a + ("," + (b + (SpacedTriple(d, g) + t)))) == Some((Values(d), t))
  {
    TripleStarts(d, g, t);
    PunctGaps(a, ',', b, SpacedTriple(d, g) + t);
    TripleRead(d, g, t);
  }

  lemma NextTripleSound(x: string) returns (a: string, b: string, d: seq<string>, g: seq<string>)
    requires NextTriple(x).Some?
    ensures AllSpace(a) && AllSpace(b) && TripleParts(d, g)
    ensures x == a + ("," + (b + (SpacedTriple(d, g) + NextTriple(x).value.1)))
    ensures NextTriple(x).value.0 == Values(d)
  {
    var u := Punct(x, ',').value;
    a, b := PunctSound(x, ',');
    d, g := TripleSound(u);
  }

  /** `\s*,\s*(\d+)` to the end of the text. */
  lemma MaterialIndexRead(a: string, b: string, d: string)
    requires AllSpace(a) && AllSpace(b) && DigitRun(d)
    ensures Punct(a + ("," + (b + d)), ',') == Some(d)
    ensures Number(d) == Some((DigitsValue(d), []))
  {
    PunctGaps(a, ',', b, d);
    AppendEmpty(d);
    NumberRun(d, []);
  }

  lemma MaterialIndexSound(x: string) returns (a: string, b: string, d: string)
    requires Punct(x, ',').Some? && Number(Punct(x, ',').value).Some?
    requires Number(Punct(x, ',').value).value.1 == []
    ensures AllSpace(a) && AllSpace(b) && DigitRun(d)
    ensures x == a + ("," + (b + d))
    ensures Number(Punct(x, ',').value).value.0 == DigitsValue(d)
  {
    var u := Punct(x, ',').value;
    a, b := PunctSound(x, ',');
    d := NumberSound(u);
    AppendEmpty(d);
  }

  /** A face put together from three triples, the whitespace around the
      three commas between them and the material index. */
  lemma FaceOfRuns(d0: seq<string>, d1: seq<string>, d2: seq<string>, d9: string,
                   g0: seq<string>, g1: seq<string>, g2: seq<string>,
                   a1: string, b1: string, a2: string, b2: string, a3: string, b3: string)
    requires TripleParts(d0, g0) && TripleParts(d1, g1) && TripleParts(d2, g2) && DigitRun(d9)
    requires AllSpace(a1) && AllSpace(b1) && AllSpace(a2) && AllSpace(b2) && AllSpace(a3) && AllSpace(b3)
    ensures var d, g := d0 + d1 + d2 + [d9], g0 + [a1, b1] + g1 + [a2, b2] + g2 + [a3, b3];
            FaceParts(d, g) &&
            Values(d) == Values(d0) + Values(d1) + Values(d2) + [DigitsValue(d9)] &&
            SpacedFace(d, g) ==
            SpacedTriple(d0, g0) + (a1 + ("," + (b1 + (SpacedTriple(d1, g1) + (a2 + ("," + (b2 +
            (SpacedTriple(d2, g2) + (a3 + ("," + (b3 + d9)))))))))))
  {
    var d, g := d0 + d1 + d2 + [d9], g0 + [a1, b1] + g1 + [a2, b2] + g2 + [a3, b3];
    FacePieces(d0, d1, d2, d9, g0, g1, g2, a1, b1, a2, b2, a3, b3);
    FaceThen(d, g);
    FaceRunsParts(d0, d1, d2, d9, g0, g1, g2, a1, b1, a2, b2, a3, b3);
    FaceSoundValues(d0, d1, d2, d9);
  }

  lemma FaceRunsParts(d0: seq<string>, d1: seq<string>, d2: seq<string>, d9: string,
                      g0: seq<string>, g1: seq<string>, g2: seq<string>,
                      a1: string, b1: string, a2: string, b2: string, a3: string, b3: string)
    requires TripleParts(d0, g0) && TripleParts(d1, g1) && TripleParts(d2, g2) && DigitRun(d9)
    requires AllSpace(a1) && AllSpace(b1) && AllSpace(a2) && AllSpace(b2) && AllSpace(a3) && AllSpace(b3)
    ensures FaceParts(d0 + d1 + d2 + [d9], g0 + [a1, b1] + g1 + [a2, b2] + g2 + [a3, b3])
  {
    var d, g := d0 + d1 + d2 + [d9], g0 + [a1, b1] + g1 + [a2, b2] + g2 + [a3, b3];
    forall i | 0 <= i < 10 ensures DigitRun(d[i]) {
      if i < 3 {
        assert d[i] == d0[i];
      } else if i < 6 {
        assert d[i] == d1[i - 3];
      } else if i < 9 {
        assert d[i] == d2[i - 6];
      }
    }
    forall j | 0 <= j < 21 ensures AllSpace(g[j]) {
      if j < 5 {
        assert g[j] == g0[j];
      } else if 7 <= j < 12 {
        assert g[j] == g1[j - 7];
      } else if 14 <= j < 19 {
        assert g[j] == g2[j - 14];
      }
    }
  }

  /** Every text of the skin vertex regex's shape matches, giving the
      bracketed text and the bone index. */
  lemma SkinVertexComplete(inner: string, a: string, b: string, d: string)
    requires SkinParts(inner, a, b, d)
    ensures SkinVertex(SpacedSkinVertex(inner, a, b, d)) == Some(("(" + inner + ")", DigitsValue(d)))
  {
    var vec := "(" + inner + ")";
    var tail := a + ("," + (b + d));
    Assoc(vec + a + ",", b, d);
    Assoc(vec + a, ",", b + d);
    Assoc(vec, a, "," + (b + d));
    NoParenInTail(a, b, d);
    NoNewlineInVector(inner);
    SkinVertexSplit(vec, tail);
    PunctGaps(a, ',', b, d);
    AppendEmpty(d);
    NumberRun(d, []);
  }

  /** Only texts of that shape match: the bracketed text runs to the last
      `)`, and the rest is the comma, its whitespace and the bone index. */
  lemma SkinVertexSound(s: string)
    requires SkinVertex(s).Some?
    ensures exists inner, a, b, d :: SkinParts(inner, a, b, d) && s == SpacedSkinVertex(inner, a, b, d) &&
                                     SkinVertex(s).value == ("(" + inner + ")", DigitsValue(d))
  {
    var v, k := SkinVertex(s).value.0, SkinVertex(s).value.1;
    var j := SkinVertexCut(s);
    var inner, a, b, d := SkinRuns(s, j, k);
    Assoc(v + a + ",", b, d);
    Assoc(v + a, ",", b + d);
    Assoc(v, a, "," + (b + d));
    assert SkinParts(inner, a, b, d) && s == SpacedSkinVertex(inner, a, b, d) &&
           SkinVertex(s).value == ("(" + inner + ")", DigitsValue(d));
  }

  /** A match ends its bracketed part at the last `)`, `j`, and the bone
      index tail follows it. */
  lemma SkinVertexCut(s: string) returns (j: nat)
    requires SkinVertex(s).Some?
    ensures 0 < j < |s| && s[0] == '(' && s[j] == ')' && '\n' !in s[..j + 1]
    ensures SkinVertex(s).value.0 == s[..j + 1] && BoneIndexTail(s[j + 1..]) == Some(SkinVertex(s).value.1)
  {
    j := SkinVertexLast(s);
    SkinVertexAtLast(s, j);
  }

  /** The bracketed part of a match ends at the last `)`. */
  lemma SkinVertexLast(s: string) returns (j: nat)
    requires SkinVertex(s).Some?
    ensures LastIndex(s, ')') == Some(j) && 0 < j < |s| && s[0] == '(' && s[j] == ')' && '\n' !in s[..j + 1]
  {
    j := LastIndex(s, ')').value;
  }

  lemma SkinVertexAtLast(s: string, j: nat)
    requires SkinVertex(s).Some? && LastIndex(s, ')') == Some(j)
    ensures j < |s| && SkinVertex(s) == SkinVertexAt(s, j)
  {
  }

  /** The runs of a skin vertex whose bracketed part ends at `j` and whose
      bone index is `k`. */
  lemma SkinRuns(s: string, j: nat, k: nat) returns (inner: string, a: string, b: string, d: string)
    requires 0 < j < |s| && s[0] == '(' && s[j] == ')' && '\n' !in s[..j + 1]
    requires BoneIndexTail(s[j + 1..]) == Some(k)
    ensures SkinParts(inner, a, b, d)
    ensures s[..j + 1] == "(" + inner + ")"
    ensures s == s[..j + 1] + (a + ("," + (b + d)))
    ensures k == DigitsValue(d)
  {
    inner := s[1..j];
    Bracketed(s, j);
    a, b, d := BoneIndexSound(s[j + 1..]);
    Halves(s, j + 1);
  }

  lemma Halves(s: string, k: nat)
    requires k <= |s|
    ensures s == s[..k] + s[k..]
  {
  }

  /** The text up to the `)` at `j` is `(`, a line without a line feed and `)`. */
  lemma Bracketed(s: string, j: nat)
    requires 0 < j < |s| && s[0] == '(' && s[j] == ')' && '\n' !in s[..j + 1]
    ensures s[..j + 1] == "(" + s[1..j] + ")" && '\n' !in s[1..j]
  {
    var vec, inner := s[..j + 1], s[1..j];
    assert vec == "(" + inner + ")";
    forall k | 0 <= k < |inner| ensures inner[k] != '\n' {
      assert inner[k] == vec[k + 1];
    }
  }

  /** `\s*,\s*(\d+)` read to the end is two whitespace runs and a digit run. */
  lemma BoneIndexSound(t: string) returns (a: string, b: string, d: string)
    requires BoneIndexTail(t).Some?
    ensures AllSpace(a) && AllSpace(b) && DigitRun(d)
    ensures t == a + ("," + (b + d))
    ensures BoneIndexTail(t).value == DigitsValue(d)
  {
    a, b, d := MaterialIndexSound(t);
  }

  // The pieces of the proofs

  /** `\s*` stops where the whitespace run `a` ends. */
  lemma SkipGap(a: string, t: string)
    requires AllSpace(a) && (t == [] || !IsSpace(t[0]))
    ensures SkipSpace(a + t) == t
  {
    var s := a + t;
    assert forall m :: 0 <= m < |a| ==> IsSpace(s[m]) by {
      forall m | 0 <= m < |a| ensures IsSpace(s[m]) {
        assert s[m] == a[m];
      }
    }
    if t != [] {
      assert s[|a|] == t[0];
    }
    SpaceEndIs(s, 0, |a|);
    assert s[|a|..] == t;
  }

  /** `\d+` takes the whole digit run `d`. */
  lemma NumberRun(d: string, t: string)
    requires DigitRun(d) && (t == [] || !IsDigit(t[0]))
    ensures Number(d + t) == Some((DigitsValue(d), t))
  {
    var s := d + t;
    assert forall m :: 0 <= m < |d| ==> IsDigit(s[m]) by {
      forall m | 0 <= m < |d| ensures IsDigit(s[m]) {
        assert s[m] == d[m];
      }
    }
    if t != [] {
      assert s[|d|] == t[0];
    }
    DigitEndIs(s, 0, |d|);
    assert s[..|d|] == d;
    assert s[|d|..] == t;
  }

  /** `\s*c\s*` takes the whitespace runs `a` and `b` around `c`. */
  lemma PunctGaps(a: string, c: char, b: string, t: string)
    requires AllSpace(a) && AllSpace(b) && !IsSpace(c)
    requires t == [] || !IsSpace(t[0])
    ensures Punct(a + ([c] + (b + t)), c) == Some(t)
  {
    SkipGap(a, [c] + (b + t));
    TailOfCons(c, b + t);
    SkipGap(b, t);
  }

  /** `(\d+)\s*c\s*` before a text that does not start with whitespace. */
  lemma NumberPunct(d: string, a: string, c: char, b: string, t: string)
    requires DigitRun(d) && AllSpace(a) && AllSpace(b) && !IsSpace(c) && !IsDigit(c)
    requires t == [] || !IsSpace(t[0])
    ensures NumberThen(d + (a + ([c] + (b + t))), c) == Some((DigitsValue(d), t))
  {
    var r := a + ([c] + (b + t));
    assert r[0] == if a == [] then c else a[0];
    NumberRun(d, r);
    PunctGaps(a, c, b, t);
  }

  /** The triple's text, nested from the right. */
  lemma TripleNested(d: seq<string>, g: seq<string>, t: string)
    requires |d| == 3 && |g| == 5
    ensures SpacedTriple(d, g) + t ==
            "(" + (d[0] + (g[0] + ("," + (g[1] + (d[1] + (g[2] + ("," + (g[3] + (d[2] + (g[4] + (")" + t)))))))))))
  {
    var p0 := "(" + d[0] + g[0] + "," + g[1] + d[1] + g[2] + "," + g[3] + d[2] + g[4];
    Assoc(p0, ")", t);
    var p1 := "(" + d[0] + g[0] + "," + g[1] + d[1] + g[2] + "," + g[3] + d[2];
    Assoc(p1, g[4], ")" + t);
    var p2 := "(" + d[0] + g[0] + "," + g[1] + d[1] + g[2] + "," + g[3];
    Assoc(p2, d[2], g[4] + (")" + t));
    var p3 := "(" + d[0] + g[0] + "," + g[1] + d[1] + g[2] + ",";
    Assoc(p3, g[3], d[2] + (g[4] + (")" + t)));
    var p4 := "(" + d[0] + g[0] + "," + g[1] + d[1] + g[2];
    Assoc(p4, ",", g[3] + (d[2] + (g[4] + (")" + t))));
    var p5 := "(" + d[0] + g[0] + "," + g[1] + d[1];
    Assoc(p5, g[2], "," + (g[3] + (d[2] + (g[4] + (")" + t)))));
    var p6 := "(" + d[0] + g[0] + "," + g[1];
    Assoc(p6, d[1], g[2] + ("," + (g[3] + (d[2] + (g[4] + (")" + t))))));
    var p7 := "(" + d[0] + g[0] + ",";
    Assoc(p7, g[1], d[1] + (g[2] + ("," + (g[3] + (d[2] + (g[4] + (")" + t)))))));
    var p8 := "(" + d[0] + g[0];
    Assoc(p8, ",", g[1] + (d[1] + (g[2] + ("," + (g[3] + (d[2] + (g[4] + (")" + t))))))));
    Assoc("(" + d[0], g[0], "," + (g[1] + (d[1] + (g[2] + ("," + (g[3] + (d[2] + (g[4] + (")" + t)))))))));
    Assoc("(", d[0], g[0] + ("," + (g[1] + (d[1] + (g[2] + ("," + (g[3] + (d[2] + (g[4] + (")" + t))))))))));
  }

  lemma TripleStarts(d: seq<string>, g: seq<string>, t: string)
    requires |d| == 3 && |g| == 5
    ensures |SpacedTriple(d, g) + t| > 0 && (SpacedTriple(d, g) + t)[0] == '('
  {
    TripleNested(d, g, t);
  }

  /** A triple of that shape is read, and scanning stops right after `)`. */
  lemma TripleRead(d: seq<string>, g: seq<string>, t: string)
    requires TripleParts(d, g)
    ensures Triple(SpacedTriple(d, g) + t) == Some((Values(d), t))
  {
    var r2 := d[2] + (g[4] + (")" + t));
    var r1 := d[1] + (g[2] + ("," + (g[3] + r2)));
    TripleNested(d, g, t);
    TailOfCons('(', d[0] + (g[0] + ("," + (g[1] + r1))));
    NumberPunct(d[0], g[0], ',', g[1], r1);
    NumberPunct(d[1], g[2], ',', g[3], r2);
    assert (g[4] + (")" + t))[0] == if g[4] == [] then ')' else g[4][0];
    NumberRun(d[2], g[4] + (")" + t));
    SkipGap(g[4], ")" + t);
    TailOfCons(')', t);
    ThreeValues(d);
  }

  lemma ThreeValues(d: seq<string>)
    requires |d| == 3 && forall i :: 0 <= i < 3 ==> AllDigits(d[i])
    ensures [DigitsValue(d[0]), DigitsValue(d[1]), DigitsValue(d[2])] == Values(d)
  {
  }

  /** The face text, nested from the right. */
  lemma FaceThen(d: seq<string>, g: seq<string>)
    requires |d| == 10 && |g| == 21
    ensures var t0, t1, t2 := SpacedTriple(d[..3], g[..5]), SpacedTriple(d[3..6], g[7..12]), SpacedTriple(d[6..9], g[14..19]);
            SpacedFace(d, g) ==
            t0 + (g[5] + ("," + (g[6] + (t1 + (g[12] + ("," + (g[13] + (t2 + (g[19] + ("," + (g[20] + d[9])))))))))))
  {
    var t0, t1, t2 := SpacedTriple(d[..3], g[..5]), SpacedTriple(d[3..6], g[7..12]), SpacedTriple(d[6..9], g[14..19]);
    var x3 := g[19] + ("," + (g[20] + d[9]));
    var x2 := g[12] + ("," + (g[13] + (t2 + x3)));
    var q := t0 + g[5] + "," + g[6] + t1 + g[12] + "," + g[13] + t2;
    Assoc(q + g[19] + ",", g[20], d[9]);
    Assoc(q + g[19], ",", g[20] + d[9]);
    Assoc(q, g[19], "," + (g[20] + d[9]));
    var q2 := t0 + g[5] + "," + g[6] + t1;
    Assoc(q2 + g[12] + "," + g[13], t2, x3);
    Assoc(q2 + g[12] + ",", g[13], t2 + x3);
    Assoc(q2 + g[12], ",", g[13] + (t2 + x3));
    Assoc(q2, g[12], "," + (g[13] + (t2 + x3)));
    Assoc(t0 + g[5] + "," + g[6], t1, x2);
    Assoc(t0 + g[5] + ",", g[6], t1 + x2);
    Assoc(t0 + g[5], ",", g[6] + (t1 + x2));
    Assoc(t0, g[5], "," + (g[6] + (t1 + x2)));
  }

  lemma FaceValues(d: seq<string>)
    requires |d| == 10 && forall i :: 0 <= i < 10 ==> AllDigits(d[i])
    ensures Values(d[..3]) + Values(d[3..6]) + Values(d[6..9]) + [DigitsValue(d[9])] == Values(d)
  {
  }

  lemma FaceSoundValues(d0: seq<string>, d1: seq<string>, d2: seq<string>, d9: string)
    requires |d0| == 3 && |d1| == 3 && |d2| == 3
    requires forall i :: 0 <= i < 3 ==> AllDigits(d0[i]) && AllDigits(d1[i]) && AllDigits(d2[i])
    requires AllDigits(d9)
    ensures var d := d0 + d1 + d2 + [d9];
            (forall i :: 0 <= i < 10 ==> AllDigits(d[i])) &&
            Values(d0) + Values(d1) + Values(d2) + [DigitsValue(d9)] == Values(d)
  {
  }

  /** Where the pieces of a matched face sit in the runs of SpacedFace. */
  lemma FacePieces(d0: seq<string>, d1: seq<string>, d2: seq<string>, d9: string,
                   g0: seq<string>, g1: seq<string>, g2: seq<string>,
                   a1: string, b1: string, a2: string, b2: string, a3: string, b3: string)
    requires |d0| == 3 && |d1| == 3 && |d2| == 3 && |g0| == 5 && |g1| == 5 && |g2| == 5
    ensures var d, g := d0 + d1 + d2 + [d9], g0 + [a1, b1] + g1 + [a2, b2] + g2 + [a3, b3];
            |d| == 10 && |g| == 21 &&
            d[..3] == d0 && d[3..6] == d1 && d[6..9] == d2 && d[9] == d9 &&
            g[..5] == g0 && g[5] == a1 && g[6] == b1 && g[7..12] == g1 && g[12] == a2 && g[13] == b2 &&
            g[14..19] == g2 && g[19] == a3 && g[20] == b3
  {
    var d, g := d0 + d1 + d2 + [d9], g0 + [a1, b1] + g1 + [a2, b2] + g2 + [a3, b3];
    assert d[..3] == d0;
    assert d[3..6] == d1;
    assert d[6..9] == d2;
    assert g[..5] == g0;
    assert g[7..12] == g1;
    assert g[14..19] == g2;
  }

  /** `\s*` skips exactly a whitespace run. */
  lemma SkipSound(s: string) returns (a: string)
    ensures AllSpace(a) && s == a + SkipSpace(s)
  {
    var e := SpaceEnd(s, 0);
    a := s[..e];
    SliceAllSpace(s, 0, e);
    assert a == s[0..e];
    assert s == s[..e] + s[e..];
  }

  /** A number read is a digit run. */
  lemma NumberSound(s: string) returns (d: string)
    requires Number(s).Some?
    ensures DigitRun(d) && s == d + Number(s).value.1 && Number(s).value.0 == DigitsValue(d)
  {
    var e := DigitEnd(s, 0);
    d := s[..e];
    assert AllDigits(d) by {
      forall j | 0 <= j < e ensures IsDigit(d[j]) {
        assert d[j] == s[j];
      }
    }
    assert s == s[..e] + s[e..];
  }

  /** `\s*c\s*` read is two whitespace runs around `c`. */
  lemma PunctSound(s: string, c: char) returns (a: string, b: string)
    requires Punct(s, c).Some?
    ensures AllSpace(a) && AllSpace(b) && s == a + ([c] + (b + Punct(s, c).value))
  {
    a := SkipSound(s);
    var r := SkipSpace(s);
    var t := r[1..];
    b := SkipSound(t);
    assert r == [c] + t;
  }

  /** `(\d+)\s*c\s*` read is a digit run and two whitespace runs around `c`. */
  lemma NumberThenSound(s: string, c: char) returns (d: string, a: string, b: string)
    requires NumberThen(s, c).Some?
    ensures DigitRun(d) && AllSpace(a) && AllSpace(b)
    ensures s == d + (a + ([c] + (b + NumberThen(s, c).value.1)))
    ensures NumberThen(s, c).value.0 == DigitsValue(d)
  {
    var x := Number(s).value;
    d := NumberSound(s);
    a, b := PunctSound(x.1, c);
  }

  /** A triple read is a text of the triple's shape. */
  lemma TripleSound(s: string) returns (d: seq<string>, g: seq<string>)
    requires Triple(s).Some?
    ensures TripleParts(d, g) && s == SpacedTriple(d, g) + Triple(s).value.1 && Triple(s).value.0 == Values(d)
  {
    var s0 := ExpectSound(s, '(');
    var p := NumberThen(s0, ',').value;
    var d0, g0, g1 := NumberThenSound(s0, ',');
    var q := NumberThen(p.1, ',').value;
    var d1, g2, g3 := NumberThenSound(p.1, ',');
    var z := Number(q.1).value;
    var d2 := NumberSound(q.1);
    var g4, t := ClosingSound(z.1);
    assert Triple(s).value == ([p.0, q.0, z.0], t);
    d, g := [d0, d1, d2], [g0, g1, g2, g3, g4];
    TripleOfRuns(d0, d1, d2, g0, g1, g2, g3, g4);
    TripleNested(d, g, t);
  }

  /** A literal character read is that character in front. */
  lemma ExpectSound(s: string, c: char) returns (t: string)
    requires Expect(s, c).Some?
    ensures t == Expect(s, c).value && s == [c] + t
  {
    t := s[1..];
  }

  /** `\s*\)` read is a whitespace run and `)`. */
  lemma ClosingSound(s: string) returns (a: string, t: string)
    requires Expect(SkipSpace(s), ')').Some?
    ensures AllSpace(a) && t == Expect(SkipSpace(s), ')').value && s == a + (")" + t)
  {
    a := SkipSound(s);
    t := ExpectSound(SkipSpace(s), ')');
  }

  lemma TripleOfRuns(d0: string, d1: string, d2: string, g0: string, g1: string, g2: string, g3: string, g4: string)
    requires DigitRun(d0) && DigitRun(d1) && DigitRun(d2)
    requires AllSpace(g0) && AllSpace(g1) && AllSpace(g2) && AllSpace(g3) && AllSpace(g4)
    ensures TripleParts([d0, d1, d2], [g0, g1, g2, g3, g4])
    ensures Values([d0, d1, d2]) == [DigitsValue(d0), DigitsValue(d1), DigitsValue(d2)]
  {
    ThreeValues([d0, d1, d2]);
  }

  /** The whitespace, comma and digits after a skin vertex's `)` hold no `)`. */
  lemma NoParenInTail(a: string, b: string, d: string)
    requires AllSpace(a) && AllSpace(b) && AllDigits(d)
    ensures ')' !in a + ("," + (b + d))
  {
    var t := a + ("," + (b + d));
    forall k | 0 <= k < |t| ensures t[k] != ')' {
      if k < |a| {
        assert t[k] == a[k];
      } else if k == |a| {
        assert t[k] == ',';
      } else if k < |a| + 1 + |b| {
        assert t[k] == b[k - |a| - 1];
      } else {
        assert t[k] == d[k - |a| - 1 - |b|];
      }
    }
  }
}
