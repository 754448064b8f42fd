/** The quoting helpers of io_mesh_tpm/tpm_utils.py: an all-or-nothing chop of
    one character from each end, and its inverse for double quotes. */
module Quoting {

  /** `(s[1:-1], True)` when `s` has at least two characters, starts with one
      of `cStart` and ends with one of `cEnd`; `(s, False)` otherwise. */
  function ChopCharsFromEndsAsymmetrical(s: string, cStart: string, cEnd: string): (r: (string, bool))
    ensures r.1 <==> |s| >= 2 && s[0] in cStart && s[|s| - 1] in cEnd
    ensures r.1 ==> r.0 == s[1..|s| - 1]
    ensures !r.1 ==> r.0 == s
  {
    if |s| >= 2 && s[0] in cStart && s[|s| - 1] in cEnd then (s[1..|s| - 1], true) else (s, false)
  }

  function ChopCharsFromEnds(s: string, chop: string): (r: (string, bool))
    ensures r.1 <==> |s| >= 2 && s[0] in chop && s[|s| - 1] in chop
    ensures !r.1 ==> r.0 == s
  {
    ChopCharsFromEndsAsymmetrical(s, chop, chop)
  }

  /** True when `s` is bracketed by a pair of double quotes. */
  predicate Quoted(s: string) {
    |s| >= 2 && s[0] == '"' && s[|s| - 1] == '"'
  }

  function ChopQuotes(s: string): (r: (string, bool))
    ensures r.1 <==> Quoted(s)
    ensures !r.1 ==> r.0 == s
  {
    ChopCharsFromEnds(s, "\"")
  }

  function EncloseInQuotes(s: string): (r: string)
    ensures Quoted(r)
  {
    "\"" + s + "\""
  }

  /** Unquoting undoes quoting, for every string. */
  lemma ChopQuotesOfEnclosed(s: string)
    ensures ChopQuotes(EncloseInQuotes(s)) == (s, true)
  {
    var q := EncloseInQuotes(s);
    assert q[1..|q| - 1] == s;
  }

  /** Quoting undoes unquoting, for every string that was bracketed. */
  lemma EncloseOfChopped(s: string)
    requires Quoted(s)
    ensures EncloseInQuotes(ChopQuotes(s).0) == s
  {
    var r := ChopQuotes(s).0;
    assert r == s[1..|s| - 1];
    assert s == [s[0]] + s[1..|s| - 1] + [s[|s| - 1]];
  }
}
