/** The Python `str` behaviour the TPM code relies on: character classes as
    Python's `re` and `str` define them, `strip`, `startswith`, `split(",")`,
    `splitlines`, `join`, `int()` of a digit run and `f"{n}"` of an integer. */
module Text {

  /** `str.isspace`, `str.strip` and the regex class `\s` (Unicode whitespace). */
  predicate IsSpace(c: char) {
    var n := c as int;
    (0x09 <= n <= 0x0d) || (0x1c <= n <= 0x20) || n == 0x85 || n == 0xa0 ||
    n == 0x1680 || (0x2000 <= n <= 0x200a) || n == 0x2028 || n == 0x2029 ||
    n == 0x202f || n == 0x205f || n == 0x3000
  }

  /** The boundaries at which `str.splitlines` cuts. */
  predicate IsLineBreak(c: char) {
    var n := c as int;
    (0x0a <= n <= 0x0d) || (0x1c <= n <= 0x1e) || n == 0x85 || n == 0x2028 || n == 0x2029
  }

  /** The regex class `\w`, restricted to ASCII. */
  predicate IsWordChar(c: char) {
    ('a' <= c <= 'z') || ('A' <= c <= 'Z') || ('0' <= c <= '9') || c == '_'
  }

  /** The regex class `\d`, restricted to ASCII. */
  predicate IsDigit(c: char) {
    '0' <= c <= '9'
  }

  predicate AllSpace(s: string) {
    forall i :: 0 <= i < |s| ==> IsSpace(s[i])
  }

  predicate AllWord(s: string) {
    forall i :: 0 <= i < |s| ==> IsWordChar(s[i])
  }

  predicate AllDigits(s: string) {
    forall i :: 0 <= i < |s| ==> IsDigit(s[i])
  }

  predicate NoLineBreak(s: string) {
    forall i :: 0 <= i < |s| ==> !IsLineBreak(s[i])
  }

  lemma LineBreakIsSpace(c: char)
    requires IsLineBreak(c)
    ensures IsSpace(c)
  {
  }

  /** Neither end is whitespace: what `strip` leaves behind. */
  predicate Clean(s: string) {
    s == [] || (!IsSpace(s[0]) && !IsSpace(s[|s| - 1]))
  }

  /** The end of the run of whitespace that starts at `i` (`\s*` from `i`). */
  function SpaceEnd(s: string, i: nat): (e: nat)
    requires i <= |s|
    ensures i <= e <= |s|
    ensures forall j {:trigger IsSpace(s[j])} :: i <= j < e ==> IsSpace(s[j])
    ensures e < |s| ==> !IsSpace(s[e])
    decreases |s| - i
  {
    if i < |s| && IsSpace(s[i]) then SpaceEnd(s, i + 1) else i
  }

  /** The start of the run of whitespace that ends at `j`, scanning backwards. */
  function SpaceStart(s: string, j: nat): (b: nat)
    requires j <= |s|
    ensures b <= j
    ensures forall k {:trigger IsSpace(s[k])} :: b <= k < j ==> IsSpace(s[k])
    ensures b > 0 ==> !IsSpace(s[b - 1])
    decreases j
  {
    if j > 0 && IsSpace(s[j - 1]) then SpaceStart(s, j - 1) else j
  }

  /** The end of the run of word characters that starts at `i` (`\w*` from `i`). */
  function WordEnd(s: string, i: nat): (e: nat)
    requires i <= |s|
    ensures i <= e <= |s|
    ensures forall j {:trigger IsWordChar(s[j])} :: i <= j < e ==> IsWordChar(s[j])
    ensures e < |s| ==> !IsWordChar(s[e])
    decreases |s| - i
  {
    if i < |s| && IsWordChar(s[i]) then WordEnd(s, i + 1) else i
  }

  /** The end of the run of ASCII digits that starts at `i` (`\d*` from `i`). */
  function DigitEnd(s: string, i: nat): (e: nat)
    requires i <= |s|
    ensures i <= e <= |s|
    ensures forall j {:trigger IsDigit(s[j])} :: i <= j < e ==> IsDigit(s[j])
    ensures e < |s| ==> !IsDigit(s[e])
    decreases |s| - i
  {
    if i < |s| && IsDigit(s[i]) then DigitEnd(s, i + 1) else i
  }

  /** `str.strip()`: drop leading and trailing whitespace. */
  function Strip(s: string): (r: string)
    ensures Clean(r)
    ensures |r| <= |s|
  {
    var a := SpaceEnd(s, 0);
    if a == |s| then [] else s[a..SpaceStart(s, |s|)]
  }

  /** A string with no whitespace at its ends is its own strip. */
  lemma StripOfClean(s: string)
    requires Clean(s)
    ensures Strip(s) == s
  {
    if s != [] {
      assert SpaceEnd(s, 0) == 0;
      assert SpaceStart(s, |s|) == |s|;
      assert s[0..|s|] == s;
    }
  }

  /** Indentation in front of a clean string is stripped away. */
  lemma StripIndented(a: string, s: string)
    requires AllSpace(a) && Clean(s)
    ensures Strip(a + s) == s
  {
    var t := a + s;
    if s == [] {
      assert t == a;
      assert SpaceEnd(t, 0) == |t|;
    } else {
      assert t[|a|] == s[0];
      assert SpaceEnd(t, 0) == |a|;
      assert t[|t| - 1] == s[|s| - 1];
      assert SpaceStart(t, |t|) == |t|;
      assert t[|a|..|t|] == s;
    }
  }

  /** `strip` only removes whitespace: the input is the result with a run of
      whitespace on either side. */
  lemma StripSound(s: string)
    ensures exists a, b :: AllSpace(a) && AllSpace(b) && s == a + Strip(s) + b
  {
    var e := SpaceEnd(s, 0);
    if e == |s| {
      SliceAllSpace(s, 0, |s|);
      assert s[0..|s|] == s;
      var a, b: string := s, [];
      assert AllSpace(a) && AllSpace(b) && s == a + Strip(s) + b;
    } else {
      var st := SpaceStart(s, |s|);
      var a, b := s[..e], s[st..];
      assert Strip(s) == s[e..st];
      SliceAllSpace(s, 0, e);
      SliceAllSpace(s, st, |s|);
      assert a == s[0..e] && b == s[st..|s|];
      Cut3(s, e, st);
      assert AllSpace(a) && AllSpace(b) && s == a + Strip(s) + b;
    }
  }

  /** ... and all of it: whitespace around a clean string is exactly what
      `strip` removes. With StripSound and `Clean(Strip(s))` this fixes
      `Strip` on every input. */
  lemma StripComplete(a: string, r: string, b: string)
    requires AllSpace(a) && Clean(r) && AllSpace(b)
    ensures Strip(a + r + b) == r
  {
    var t := a + r + b;
    if r == [] {
      assert forall m :: 0 <= m < |t| ==> IsSpace(t[m]) by {
        forall m | 0 <= m < |t| ensures IsSpace(t[m]) {
          if m < |a| {
            assert t[m] == a[m];
          } else {
            assert t[m] == b[m - |a|];
          }
        }
      }
      SpaceEndIs(t, 0, |t|);
    } else {
      var j := |a| + |r|;
      assert forall m :: 0 <= m < |a| ==> IsSpace(t[m]) by {
        forall m | 0 <= m < |a| ensures IsSpace(t[m]) {
          assert t[m] == a[m];
        }
      }
      assert t[|a|] == r[0];
      SpaceEndIs(t, 0, |a|);
      assert forall m :: j <= m < |t| ==> IsSpace(t[m]) by {
        forall m | j <= m < |t| ensures IsSpace(t[m]) {
          assert t[m] == b[m - j];
        }
      }
      assert t[j - 1] == r[|r| - 1];
      SpaceStartIs(t, |t|, j);
      assert t[|a|..j] == r;
    }
  }

  /** `\s*` scanned backwards from `j` stops at `n` when `[n, j)` is
      whitespace and the character before `n` is not. */
  lemma {:induction false} SpaceStartIs(s: string, j: nat, n: nat)
    requires n <= j <= |s|
    requires forall m {:trigger IsSpace(s[m])} :: n <= m < j ==> IsSpace(s[m])
    requires n == 0 || !IsSpace(s[n - 1])
    ensures SpaceStart(s, j) == n
    decreases j
  {
    if j > n {
      SpaceStartIs(s, j - 1, n);
    }
  }

  /** A string is its pieces between two cut points. */
  lemma Cut3(s: string, a: nat, b: nat)
    requires a <= b <= |s|
    ensures s == s[..a] + s[a..b] + s[b..]
  {
  }

  /** A slice of whitespace characters is whitespace. */
  lemma SliceAllSpace(s: string, i: nat, j: nat)
    requires i <= j <= |s|
    requires forall m :: i <= m < j ==> IsSpace(s[m])
    ensures AllSpace(s[i..j])
  {
    forall m | 0 <= m < j - i
      ensures IsSpace(s[i..j][m])
    {
      assert s[i..j][m] == s[i + m];
    }
  }

  /** A slice of word characters is a word. */
  lemma SliceAllWord(s: string, j: nat)
    requires j <= |s|
    requires forall m :: 0 <= m < j ==> IsWordChar(s[m])
    ensures AllWord(s[..j])
  {
    forall m | 0 <= m < j
      ensures IsWordChar(s[..j][m])
    {
      assert s[..j][m] == s[m];
    }
  }

  /** `\s*` from `i` stops at `n` when `[i, n)` is whitespace and `n` is not. */
  lemma SpaceEndIs(s: string, i: nat, n: nat)
    requires i <= n <= |s|
    requires forall m {:trigger IsSpace(s[m])} :: i <= m < n ==> IsSpace(s[m])
    requires n == |s| || !IsSpace(s[n])
    ensures SpaceEnd(s, i) == n
  {
  }

  /** `\w*` from `i` stops at `n` when `[i, n)` are word characters and `n` is not. */
  lemma WordEndIs(s: string, i: nat, n: nat)
    requires i <= n <= |s|
    requires forall m {:trigger IsWordChar(s[m])} :: i <= m < n ==> IsWordChar(s[m])
    requires n == |s| || !IsWordChar(s[n])
    ensures WordEnd(s, i) == n
  {
  }

  /** `\d*` from `i` stops at `n` when `[i, n)` are digits and `n` is not. */
  lemma DigitEndIs(s: string, i: nat, n: nat)
    requires i <= n <= |s|
    requires forall m {:trigger IsDigit(s[m])} :: i <= m < n ==> IsDigit(s[m])
    requires n == |s| || !IsDigit(s[n])
    ensures DigitEnd(s, i) == n
  {
  }

  /** The whitespace `sp` keeps its place inside `a + sp + b`. */
  lemma SpacesInside(a: string, sp: string, b: string)
    requires AllSpace(sp)
    ensures var s := a + sp + b;
            forall m {:trigger IsSpace(s[m])} :: |a| <= m < |a| + |sp| ==> IsSpace(s[m])
  {
    var s := a + sp + b;
    forall m | |a| <= m < |a| + |sp|
      ensures IsSpace(s[m])
    {
      assert s[m] == sp[m - |a|];
    }
  }

  /** The word `w` keeps its place at the front of `w + b + c`. */
  lemma WordInFront(w: string, b: string, c: string)
    requires AllWord(w)
    ensures var s := w + b + c;
            forall m {:trigger IsWordChar(s[m])} :: 0 <= m < |w| ==> IsWordChar(s[m])
  {
    var s := w + b + c;
    forall m | 0 <= m < |w|
      ensures IsWordChar(s[m])
    {
      assert s[m] == w[m];
    }
  }

  /** `str.startswith(p)`. */
  predicate StartsWith(s: string, p: string) {
    |p| <= |s| && s[..|p|] == p
  }

  /** Index of the first `c` in `s` (or the length). */
  function Find(s: string, c: char): (i: nat)
    ensures i <= |s|
    ensures forall j :: 0 <= j < i ==> s[j] != c
    ensures i < |s| ==> s[i] == c
    decreases |s|
  {
    if s == [] || s[0] == c then 0 else 1 + Find(s[1..], c)
  }

  function Count(s: string, c: char): nat
    decreases |s|
  {
    if s == [] then 0 else (if s[0] == c then 1 else 0) + Count(s[1..], c)
  }

  /** `str.split(sep)` for a one-character separator: cut at every occurrence. */
  function Split(s: string, sep: char): (r: seq<string>)
    ensures |r| == Count(s, sep) + 1
    ensures forall i :: 0 <= i < |r| ==> sep !in r[i]
    decreases |s|
  {
    if s == [] then [[]]
    else
      var rest := Split(s[1..], sep);
      if s[0] == sep then [[]] + rest else [[s[0]] + rest[0]] + rest[1..]
  }

  /** `sep.join(parts)`. */
  function Join(parts: seq<string>, sep: char): string
    decreases |parts|
  {
    if |parts| == 0 then []
    else if |parts| == 1 then parts[0]
    else parts[0] + [sep] + Join(parts[1..], sep)
  }

  lemma {:induction false} JoinSplit(s: string, sep: char)
    ensures Join(Split(s, sep), sep) == s
    decreases |s|
  {
    if s != [] {
      JoinSplit(s[1..], sep);
      var rest := Split(s[1..], sep);
      if s[0] == sep {
        assert Split(s, sep)[1..] == rest;
      } else {
        var r := Split(s, sep);
        assert r[0] == [s[0]] + rest[0];
        assert r[1..] == rest[1..];
        if |rest| == 1 {
          assert s == [s[0]] + s[1..];
        } else {
          assert Join(rest, sep) == rest[0] + [sep] + Join(rest[1..], sep);
          assert s == [s[0]] + s[1..];
        }
      }
    }
  }

  lemma {:induction false} SplitPrefix(p: string, t: string, sep: char)
    requires sep !in p
    ensures Split(p + t, sep) == [p + Split(t, sep)[0]] + Split(t, sep)[1..]
    decreases |p|
  {
    if p == [] {
      assert p + t == t;
      assert p + Split(t, sep)[0] == Split(t, sep)[0];
      assert Split(t, sep) == [Split(t, sep)[0]] + Split(t, sep)[1..];
    } else {
      assert (p + t)[0] == p[0];
      assert (p + t)[1..] == p[1..] + t;
      SplitPrefix(p[1..], t, sep);
      assert [p[0]] + (p[1..] + Split(t, sep)[0]) == p + Split(t, sep)[0];
    }
  }

  /** Splitting what was joined gives the parts back, when no part holds the
      separator. */
  lemma {:induction false} SplitJoin(parts: seq<string>, sep: char)
    requires |parts| >= 1
    requires forall i :: 0 <= i < |parts| ==> sep !in parts[i]
    ensures Split(Join(parts, sep), sep) == parts
    decreases |parts|
  {
    if |parts| == 1 {
      SplitPrefix(parts[0], [], sep);
      assert parts[0] + [] == parts[0];
    } else {
      var tail := Join(parts[1..], sep);
      SplitJoin(parts[1..], sep);
      assert Join(parts, sep) == parts[0] + ([sep] + tail);
      SplitPrefix(parts[0], [sep] + tail, sep);
      assert ([sep] + tail)[1..] == tail;
      assert Split([sep] + tail, sep) == [[]] + Split(tail, sep);
      assert parts[0] + [] == parts[0];
      assert parts == [parts[0]] + parts[1..];
    }
  }

  /** Index of the first line boundary (or the length). */
  function FirstBreak(s: string): (i: nat)
    ensures i <= |s|
    ensures forall j {:trigger IsLineBreak(s[j])} :: 0 <= j < i ==> !IsLineBreak(s[j])
    ensures i < |s| ==> IsLineBreak(s[i])
    decreases |s|
  {
    if s == [] then 0
    else if IsLineBreak(s[0]) then 0
    else 1 + FirstBreak(s[1..])
  }

  /** `str.splitlines()`: "\r\n" counts as one boundary, the boundaries are
      dropped, and a final boundary does not open an empty last line. */
  function SplitLines(s: string): seq<string>
    decreases |s|
  {
    if s == [] then []
    else
      var i := FirstBreak(s);
      if i == |s| then [s]
      else
        var width := if s[i] == '\r' && i + 1 < |s| && s[i + 1] == '\n' then 2 else 1;
        [s[..i]] + SplitLines(s[i + width..])
  }

  /** A line without boundaries, then "\n", is cut off as the first line. */
  lemma SplitLinesCons(l: string, tail: string)
    requires NoLineBreak(l)
    ensures SplitLines(l + ['\n'] + tail) == [l] + SplitLines(tail)
  {
    var s := l + ['\n'] + tail;
    forall j | 0 <= j < |l|
      ensures !IsLineBreak(s[j])
    {
      assert s[j] == l[j];
    }
    assert s[|l|] == '\n' && IsLineBreak(s[|l|]);
    assert FirstBreak(s) == |l|;
    assert s[..|l|] == l;
    assert s[|l| + 1..] == tail;
  }

  /** Joining lines with "\n" and splitting them again loses only a final
      empty line. */
  lemma {:induction false} SplitLinesJoin(lines: seq<string>)
    requires forall k :: 0 <= k < |lines| ==> NoLineBreak(lines[k])
    ensures SplitLines(Join(lines, '\n')) ==
            if lines != [] && lines[|lines| - 1] == [] then lines[..|lines| - 1] else lines
    decreases |lines|
  {
    if |lines| == 1 {
      var l := lines[0];
      if l != [] {
        assert FirstBreak(l) == |l|;
      }
    } else if |lines| > 1 {
      var l := lines[0];
      var rest := lines[1..];
      assert NoLineBreak(l);
      SplitLinesCons(l, Join(rest, '\n'));
      SplitLinesJoin(rest);
      SplitLinesJoinTail(lines);
    }
  }

  /** Dropping a final empty line commutes with putting a line in front. */
  lemma SplitLinesJoinTail(lines: seq<string>)
    requires |lines| > 1
    ensures var rest := lines[1..];
            [lines[0]] + (if rest[|rest| - 1] == [] then rest[..|rest| - 1] else rest) ==
            if lines[|lines| - 1] == [] then lines[..|lines| - 1] else lines
  {
    var rest := lines[1..];
    assert lines == [lines[0]] + rest;
    if lines[|lines| - 1] == [] {
      assert lines[..|lines| - 1] == [lines[0]] + rest[..|rest| - 1];
    }
  }

  function DigitChar(d: nat): (c: char)
    requires d < 10
    ensures IsDigit(c)
  {
    ['0', '1', '2', '3', '4', '5', '6', '7', '8', '9'][d]
  }

  /** `f"{n}"` for a non-negative integer: its decimal digits. */
  function NatToString(n: nat): (s: string)
    ensures |s| >= 1 && AllDigits(s)
  {
    if n < 10 then [DigitChar(n)] else NatToString(n / 10) + [DigitChar(n % 10)]
  }

  /** `f"{i}"` for any integer. */
  function IntToString(i: int): (s: string)
    ensures |s| >= 1
    ensures i >= 0 <==> AllDigits(s)
  {
    if i < 0 then
      var s := "-" + NatToString(-i);
      assert !IsDigit(s[0]);
      s
    else NatToString(i)
  }

  /** `int(d)` for a run of ASCII digits (leading zeros allowed). */
  function DigitsValue(s: string): nat
    requires AllDigits(s)
    decreases |s|
  {
    if s == [] then 0
    else DigitsValue(s[..|s| - 1]) * 10 + (s[|s| - 1] as int - '0' as int)
  }

  lemma {:induction false} DigitsValueOfNatToString(n: nat)
    ensures DigitsValue(NatToString(n)) == n
  {
    if n >= 10 {
      DigitsValueOfNatToString(n / 10);
      var s := NatToString(n);
      assert s[..|s| - 1] == NatToString(n / 10);
      assert s[|s| - 1] as int - '0' as int == n % 10;
    } else {
      assert NatToString(n)[0] as int - '0' as int == n;
    }
  }
}
