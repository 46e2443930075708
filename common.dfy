/** Small shared vocabulary: an optional value, real-number helpers and the
    string predicates that the site's regular expressions are built from. */
module Common {

  datatype Option<+T> = None | Some(value: T)

  function Abs(x: real): real { if x < 0.0 then -x else x }

  function Min(a: real, b: real): real { if a <= b then a else b }

  function Max(a: real, b: real): real { if a >= b then a else b }

  /** `r` lies on the closed segment between `a` and `b`, whichever is larger. */
  predicate Between(a: real, b: real, r: real) {
    (a <= r <= b) || (b <= r <= a)
  }

  /** ASCII lower-casing, the model of a regular expression's `i` flag and
      of `String.prototype.toLowerCase` on the site's ASCII data. */
  function Lower(c: char): char {
    if 'A' <= c <= 'Z' then (c as int - 'A' as int + 'a' as int) as char else c
  }

  function LowerStr(s: string): (r: string)
    ensures |r| == |s|
    ensures forall i :: 0 <= i < |s| ==> r[i] == Lower(s[i])
  {
    if s == [] then [] else [Lower(s[0])] + LowerStr(s[1..])
  }

  /** A string without upper-case ASCII letters is its own lower-casing. */
  lemma LowerOfLower(s: string)
    requires forall i :: 0 <= i < |s| ==> !('A' <= s[i] <= 'Z')
    ensures LowerStr(s) == s
  {
    assert forall i :: 0 <= i < |s| ==> LowerStr(s)[i] == s[i];
  }

  predicate StartsWith(s: string, p: string) {
    |p| <= |s| && s[..|p|] == p
  }

  /** Case-insensitive prefix test, as `/^p/i` does. */
  predicate StartsWithCI(s: string, p: string) {
    |p| <= |s| && LowerStr(s[..|p|]) == LowerStr(p)
  }

  predicate EndsWith(s: string, p: string) {
    |p| <= |s| && s[|s| - |p|..] == p
  }

  /** Case-insensitive suffix test, as `/p$/i` does. */
  predicate EndsWithCI(s: string, p: string) {
    |p| <= |s| && LowerStr(s[|s| - |p|..]) == LowerStr(p)
  }

  /** The characters of the `\s` class of ECMAScript regular expressions
      (white space and line terminators). */
  predicate IsJsSpace(c: char) {
    c == ' ' || c == '\t' || c == '\n' || c == '\r' || c == '\U{0B}' || c == '\U{0C}'
    || c == '\U{A0}' || c == '\U{1680}' || ('\U{2000}' <= c <= '\U{200A}')
    || c == '\U{2028}' || c == '\U{2029}' || c == '\U{202F}' || c == '\U{205F}'
    || c == '\U{3000}' || c == '\U{FEFF}'
  }

  /** Index of the first occurrence of `c` in `s`, as `indexOf` returns it
      (with `None` for -1). */
  function IndexOf(s: string, c: char): (r: Option<nat>)
    ensures r.None? <==> c !in s
    ensures r.Some? ==> r.value < |s| && s[r.value] == c && c !in s[..r.value]
  {
    if s == [] then None
    else if s[0] == c then Some(0)
    else match IndexOf(s[1..], c)
      case None => None
      case Some(k) => assert s[..k + 1] == [s[0]] + s[1..][..k]; Some(k + 1)
  }

  /** A factor whose product with a positive number is not negative is not
      negative. */
  lemma ProductSign(q: real, d: real)
    requires d > 0.0 && q * d >= 0.0
    ensures q >= 0.0
  {
    assert q == (q * d) / d;
  }
}
