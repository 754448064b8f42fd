/** The vector codec of io_mesh_tpm/tpm_utils.py (VectorStringToVector) and the
    component formatting of the encoders.

    Floating-point values are abstract here: a component is kept as the text
    that Python's `float()` accepts (stripped of surrounding whitespace), and
    writing a component back writes that text. */
module Vectors {
  import opened Errors
  import opened Text
  import Quoting

  /** The decimal text of one float. */
  type Component = string

  /** A `mathutils.Vector`, as its sequence of components. */
  type Vector = seq<Component>

  /** The states of a scanner for what Python's `float()` accepts once
      surrounding whitespace is gone:
      `[sign] (number [exponent] | "inf" | "infinity" | "nan")`, where
      `number` is `digitpart ["." [digitpart]] | "." digitpart`, `exponent` is
      `("e" | "E") [sign] digitpart`, `digitpart` is `digit (["_"] digit)*`
      and the three words may be in any letter case. */
  datatype FloatState =
    | Start | Signed | Int | IntSep | LeadDot | Dot | Frac | FracSep
    | Exp | ExpSigned | ExpInt | ExpSep
    | I | In | Inf | Infi | Infin | Infini | Infinit | Infinity
    | N | Na | Nan
    | Dead

  function Lower(c: char): char {
    if 'A' <= c <= 'Z' then (c as int + 32) as char else c
  }

  function Step(st: FloatState, c: char): FloatState {
    var l := Lower(c);
    match st
    case Start =>
      if c == '+' || c == '-' then Signed else if IsDigit(c) then Int else if c == '.' then LeadDot
      else if l == 'i' then I else if l == 'n' then N else Dead
    case Signed =>
      if IsDigit(c) then Int else if c == '.' then LeadDot
      else if l == 'i' then I else if l == 'n' then N else Dead
    case Int =>
      if IsDigit(c) then Int else if c == '_' then IntSep else if c == '.' then Dot
      else if l == 'e' then Exp else Dead
    case IntSep => if IsDigit(c) then Int else Dead
    case LeadDot => if IsDigit(c) then Frac else Dead
    case Dot => if IsDigit(c) then Frac else if l == 'e' then Exp else Dead
    case Frac => if IsDigit(c) then Frac else if c == '_' then FracSep else if l == 'e' then Exp else Dead
    case FracSep => if IsDigit(c) then Frac else Dead
    case Exp => if c == '+' || c == '-' then ExpSigned else if IsDigit(c) then ExpInt else Dead
    case ExpSigned => if IsDigit(c) then ExpInt else Dead
    case ExpInt => if IsDigit(c) then ExpInt else if c == '_' then ExpSep else Dead
    case ExpSep => if IsDigit(c) then ExpInt else Dead
    case I => if l == 'n' then In else Dead
    case In => if l == 'f' then Inf else Dead
    case Inf => if l == 'i' then Infi else Dead
    case Infi => if l == 'n' then Infin else Dead
    case Infin => if l == 'i' then Infini else Dead
    case Infini => if l == 't' then Infinit else Dead
    case Infinit => if l == 'y' then Infinity else Dead
    case Infinity => Dead
    case N => if l == 'a' then Na else Dead
    case Na => if l == 'n' then Nan else Dead
    case Nan => Dead
    case Dead => Dead
  }

  function Run(st: FloatState, s: string): FloatState
    decreases |s|
  {
    if s == [] then st else Run(Step(st, s[0]), s[1..])
  }

  predicate Accepting(st: FloatState) {
    st == Int || st == Dot || st == Frac || st == ExpInt || st == Inf || st == Infinity || st == Nan
  }

  /** What Python's `float()` accepts once surrounding whitespace is gone
      (ASCII digits only). */
  predicate FloatLiteral(s: string) {
    Accepting(Run(Start, s))
  }

  /** The characters a float literal is made of. */
  predicate NumeralChar(c: char) {
    IsDigit(c) || ('a' <= c <= 'z') || ('A' <= c <= 'Z') || c == '_' || c == '.' || c == '+' || c == '-'
  }

  lemma {:induction false} RunChars(st: FloatState, s: string)
    requires Run(st, s) != Dead
    ensures forall i :: 0 <= i < |s| ==> NumeralChar(s[i])
    decreases |s|
  {
    if s != [] {
      var next := Step(st, s[0]);
      if next == Dead {
        DeadStaysDead(s[1..]);
      }
      assert next != Dead;
      RunChars(next, s[1..]);
      assert forall i :: 1 <= i < |s| ==> s[i] == s[1..][i - 1];
    }
  }

  lemma {:induction false} DeadStaysDead(s: string)
    ensures Run(Dead, s) == Dead
    decreases |s|
  {
    if s != [] {
      DeadStaysDead(s[1..]);
    }
  }

  /** A float literal holds no whitespace, comma, parenthesis, quote or line
      break, so it survives being written between `(`, `,` and `)`. */
  lemma FloatLiteralChars(s: string)
    requires FloatLiteral(s)
    ensures forall i :: 0 <= i < |s| ==> NumeralChar(s[i])
  {
    RunChars(Start, s);
  }

  lemma NumeralCharIsPlain(c: char)
    requires NumeralChar(c)
    ensures !IsSpace(c) && !IsLineBreak(c) && c != ',' && c != '(' && c != ')' && c != '"'
  {
  }

  /** `float(c)`: succeeds exactly on a float literal with optional
      surrounding whitespace; the component kept is the stripped text. */
  function ParseFloat(c: string): (r: Result<Component>)
    ensures r.Ok? <==> FloatLiteral(Strip(c))
    ensures r.Ok? ==> r.value == Strip(c)
    ensures r.Err? ==> r.error == NotAFloat(c)
  {
    var t := Strip(c);
    if FloatLiteral(t) then Ok(t) else Err(NotAFloat(c))
  }

  /** One iteration of the component loop of VectorStringToVector. */
  function AppendComponent(components: Vector, c: string): Result<Vector> {
    var x :- ParseFloat(c);
    Ok(components + [x])
  }

  /** The stripped text is `( … )`. */
  predicate Bracketed(s: string) {
    var t := Strip(s);
    |t| >= 2 && t[0] == '(' && t[|t| - 1] == ')'
  }

  /** What lies between the parentheses. */
  function Inner(s: string): string
    requires Bracketed(s)
  {
    var t := Strip(s);
    t[1..|t| - 1]
  }

  /** The comma-separated pieces between the parentheses. */
  function Pieces(s: string): seq<string>
    requires Bracketed(s)
  {
    Split(Inner(s), ',')
  }

  /** What VectorStringToVector computes. */
  function ParseVector(s: string): Result<Vector> {
    var chop := Quoting.ChopCharsFromEndsAsymmetrical(Strip(s), "(", ")");
    if !chop.1 then Err(NotAVector(s))
    else Fold(AppendComponent, [], Split(chop.0, ','))
  }

  /** Parse a `( … )` comma-separated vector, raising when the stripped text is
      not bracketed or a component is not a float. */
  method VectorStringToVector(s: string) returns (r: Result<Vector>)
    ensures r == ParseVector(s)
  {
    var line := Strip(s);
    var chop := Quoting.ChopCharsFromEndsAsymmetrical(line, "(", ")");
    if !chop.1 {
      return Err(NotAVector(s));
    }
    var compStrings := Split(chop.0, ',');
    var components: Vector := [];
    var i := 0;
    while i < |compStrings|
      invariant 0 <= i <= |compStrings|
      invariant Fold(AppendComponent, [], compStrings[..i]) == Ok(components)
    {
      FoldPrefixStep(AppendComponent, [], compStrings, i);
      var c := ParseFloat(compStrings[i]);
      if c.Err? {
        FoldStopsAtError(AppendComponent, [], compStrings, i + 1);
        return Err(c.error);
      }
      components := components + [c.value];
      i := i + 1;
    }
    FoldWhole(AppendComponent, [], compStrings);
    return Ok(components);
  }

  predicate AllFloats(pieces: seq<string>) {
    forall k :: 0 <= k < |pieces| ==> FloatLiteral(Strip(pieces[k]))
  }

  predicate StrippedPieces(v: Vector, pieces: seq<string>) {
    |v| == |pieces| && forall k :: 0 <= k < |v| ==> v[k] == Strip(pieces[k])
  }

  /** The component loop succeeds exactly when every piece is a float, and
      then keeps one stripped component per piece, in order. */
  lemma {:induction false} ComponentsExactly(pieces: seq<string>)
    ensures Fold(AppendComponent, [], pieces).Ok? <==> AllFloats(pieces)
    ensures Fold(AppendComponent, [], pieces).Ok? ==>
            StrippedPieces(Fold(AppendComponent, [], pieces).value, pieces)
    decreases |pieces|
  {
    if pieces != [] {
      var init := pieces[..|pieces| - 1];
      var last := pieces[|pieces| - 1];
      assert pieces == init + [last];
      ComponentsExactly(init);
      FoldSnoc(AppendComponent, [], init, last);
      assert forall k :: 0 <= k < |init| ==> init[k] == pieces[k];
      match Fold(AppendComponent, [], init)
      case Err(e) =>
        assert !AllFloats(init);
        var k :| 0 <= k < |init| && !FloatLiteral(Strip(init[k]));
        assert !FloatLiteral(Strip(pieces[k]));
      case Ok(v0) =>
        assert AllFloats(init);
        if FloatLiteral(Strip(last)) {
          assert Fold(AppendComponent, [], pieces) == Ok(v0 + [Strip(last)]);
          assert AllFloats(pieces);
        } else {
          assert Fold(AppendComponent, [], pieces).Err?;
        }
    }
  }

  /** VectorStringToVector raises unless the stripped input is `( … )`. */
  lemma VectorNeedsParentheses(s: string)
    ensures !Bracketed(s) ==> ParseVector(s) == Err(NotAVector(s))
    ensures ParseVector(s).Ok? ==> Bracketed(s)
  {
  }

  /** A bracketed text is parsed by running the component loop over its
      pieces. */
  lemma ParseBracketed(s: string)
    requires Bracketed(s)
    ensures ParseVector(s) == Fold(AppendComponent, [], Pieces(s))
  {
  }

  /** A vector parses exactly when it is bracketed and every comma-separated
      piece is a float; it then has one component per piece, that is, one
      more than the commas between the parentheses. */
  lemma ParseVectorExactly(s: string)
    ensures ParseVector(s).Ok? <==> Bracketed(s) && AllFloats(Pieces(s))
    ensures Bracketed(s) && ParseVector(s).Ok? ==>
            StrippedPieces(ParseVector(s).value, Pieces(s)) &&
            |ParseVector(s).value| == Count(Inner(s), ',') + 1
  {
    if Bracketed(s) {
      ParseBracketed(s);
      ComponentsExactly(Pieces(s));
    } else {
      VectorNeedsParentheses(s);
    }
  }

  /** A component written by the encoders and read back unchanged. */
  predicate WireComponent(c: Component) {
    FloatLiteral(c)
  }

  /** `"(" + ",".join(v) + ")"`: the text the encoders write for a vector. */
  function FormatVector(v: Vector): string {
    "(" + Join(v, ',') + ")"
  }

  /** The first `n` components, `f"({v[0]},…,{v[n-1]})"`; an IndexError when
      the vector is shorter. */
  function FormatLeading(v: Vector, n: nat): (r: Result<string>)
    ensures r.Ok? <==> |v| >= n
  {
    if |v| < n then Err(ComponentIndexOutOfRange) else Ok(FormatVector(v[..n]))
  }

  lemma NoCommaInWireComponent(c: Component)
    requires WireComponent(c)
    ensures ',' !in c
    ensures Clean(c)
  {
    FloatLiteralChars(c);
    if ',' in c {
      var i :| 0 <= i < |c| && c[i] == ',';
      NumeralCharIsPlain(c[i]);
    }
    if c != [] {
      NumeralCharIsPlain(c[0]);
      NumeralCharIsPlain(c[|c| - 1]);
    }
  }

  /** The component loop over clean float literals gives them back. */
  lemma {:induction false} ComponentsOfWire(v: Vector)
    requires forall k :: 0 <= k < |v| ==> WireComponent(v[k])
    ensures Fold(AppendComponent, [], v) == Ok(v)
    decreases |v|
  {
    if v != [] {
      var init := v[..|v| - 1];
      var last := v[|v| - 1];
      assert v == init + [last];
      ComponentsOfWire(init);
      FoldSnoc(AppendComponent, [], init, last);
      assert ParseFloat(last) == Ok(last) by {
        NoCommaInWireComponent(last);
        StripOfClean(last);
      }
      assert AppendComponent(init, last) == Ok(init + [last]);
    }
  }

  /** The text of a formatted vector is bracketed, and its pieces are the
      joined components split again. */
  lemma FormatVectorPieces(v: Vector)
    ensures Bracketed(FormatVector(v))
    ensures Pieces(FormatVector(v)) == Split(Join(v, ','), ',')
  {
    Parenthesized(Join(v, ','));
  }

  /** What lies between written parentheses is read back. */
  lemma Parenthesized(j: string)
    ensures Bracketed("(" + j + ")")
    ensures Inner("(" + j + ")") == j
  {
    var s := "(" + j + ")";
    assert Clean(s);
    StripOfClean(s);
    assert s[1..|s| - 1] == j;
  }

  /** Formatting a non-empty vector of float literals and parsing it back
      gives the same vector. */
  lemma ParseFormatVector(v: Vector)
    requires |v| >= 1
    requires forall k :: 0 <= k < |v| ==> WireComponent(v[k])
    ensures ParseVector(FormatVector(v)) == Ok(v)
  {
    forall k | 0 <= k < |v| ensures ',' !in v[k] {
      NoCommaInWireComponent(v[k]);
    }
    FormatVectorPieces(v);
    ParseBracketed(FormatVector(v));
    SplitJoin(v, ',');
    ComponentsOfWire(v);
  }
}
