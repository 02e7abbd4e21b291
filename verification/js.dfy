/**
 The slice of JavaScript semantics the voice-cloner components rely on:
 values that may be `null`, the truthiness of such values, and the two
 string methods the components call, `String.prototype.startsWith` and
 `String.prototype.trim`.
 */
module Js {

  /** A value that may be `null` (or `undefined`). */
  datatype Option<+T> = None | Some(value: T)

  /** A `string | null` is truthy when it is present and not the empty string. */
  predicate Truthy(s: Option<string>) {
    s.Some? && s.value != ""
  }

  /** `s.startsWith(prefix)`, with no start position argument. */
  function StartsWith(s: string, prefix: string): (b: bool)
    ensures b <==> |prefix| <= |s| && forall k :: 0 <= k < |prefix| ==> s[k] == prefix[k]
  {
    |prefix| <= |s| && s[..|prefix|] == prefix
  }

  /** Every extension of a prefix starts with it. */
  lemma StartsWithAppend(prefix: string, rest: string)
    ensures StartsWith(prefix + rest, prefix)
  {
    assert (prefix + rest)[..|prefix|] == prefix;
  }

  /**
   The characters `trim` removes: the WhiteSpace and LineTerminator code points
   of sections 12.2 and 12.3 of ECMA-262 (tab, vertical tab, form feed, space,
   no-break space, the byte order mark, the other space separators of Unicode
   category Zs, line feed, carriage return, line and paragraph separators).
   */
  predicate IsWhitespace(c: char) {
    var u := c as int;
    || u == 0x09 || u == 0x0A || u == 0x0B || u == 0x0C || u == 0x0D
    || u == 0x20 || u == 0xA0 || u == 0x1680
    || (0x2000 <= u <= 0x200A)
    || u == 0x2028 || u == 0x2029 || u == 0x202F || u == 0x205F
    || u == 0x3000 || u == 0xFEFF
  }

  /** True when every character of `s` is whitespace (vacuously so for ""). */
  predicate AllWhitespace(s: string) {
    forall k :: 0 <= k < |s| ==> IsWhitespace(s[k])
  }

  /** The first index at or after `i` that does not hold whitespace, or `|s|`. */
  function SkipLeading(s: string, i: nat): (a: nat)
    requires i <= |s|
    ensures i <= a <= |s|
    ensures forall k :: i <= k < a ==> IsWhitespace(s[k])
    ensures a == |s| || !IsWhitespace(s[a])
    decreases |s| - i
  {
    if i < |s| && IsWhitespace(s[i]) then SkipLeading(s, i + 1) else i
  }

  /** Moving down from `j`, the end of the text once trailing whitespace is
      skipped, never going below `lo`. */
  function SkipTrailing(s: string, lo: nat, j: nat): (b: nat)
    requires lo <= j <= |s|
    ensures lo <= b <= j
    ensures forall k :: b <= k < j ==> IsWhitespace(s[k])
    ensures b == lo || !IsWhitespace(s[b - 1])
    decreases j
  {
    if j > lo && IsWhitespace(s[j - 1]) then SkipTrailing(s, lo, j - 1) else j
  }

  /** Where `trim` cuts `s`: everything before `a` and from `b` on is whitespace,
      and the kept part `s[a..b]` is empty or has non-whitespace at both ends. */
  function TrimBounds(s: string): (ab: (nat, nat))
    ensures ab.0 <= ab.1 <= |s|
    ensures forall k :: 0 <= k < ab.0 ==> IsWhitespace(s[k])
    ensures forall k :: ab.1 <= k < |s| ==> IsWhitespace(s[k])
    ensures ab.0 < ab.1 ==> !IsWhitespace(s[ab.0]) && !IsWhitespace(s[ab.1 - 1])
  {
    var a := SkipLeading(s, 0);
    (a, SkipTrailing(s, a, |s|))
  }

  /** `s.trim()`: `s` with its leading and trailing whitespace dropped. It is
      empty exactly when `s` holds nothing but whitespace. */
  function Trim(s: string): (r: string)
    ensures |r| <= |s|
    ensures r != [] ==> !IsWhitespace(r[0]) && !IsWhitespace(r[|r| - 1])
    ensures r == [] <==> AllWhitespace(s)
  {
    var (a, b) := TrimBounds(s);
    if a == b then
      assert AllWhitespace(s);
      s[a..b]
    else
      assert !IsWhitespace(s[a]);
      s[a..b]
  }

  /** Trimming twice is trimming once. */
  lemma TrimIdempotent(s: string)
    ensures Trim(Trim(s)) == Trim(s)
  {
    var r := Trim(s);
    if r != [] {
      assert SkipLeading(r, 0) == 0;
      assert SkipTrailing(r, 0, |r|) == |r|;
      assert r[0..|r|] == r;
    }
  }

  /** A non-empty trim comes from a non-empty string: the trimmed test is the
      stronger of the two emptiness tests. */
  lemma TrimNonEmptyImpliesNonEmpty(s: string)
    requires Trim(s) != ""
    ensures s != ""
  {
    assert 0 < |Trim(s)| <= |s|;
  }

  /** The converse fails: a string of spaces is non-empty yet trims to "". */
  lemma WhitespaceOnlyTrimsToEmpty()
    ensures "   " != "" && Trim("   ") == ""
  {
    assert AllWhitespace("   ");
  }
}
