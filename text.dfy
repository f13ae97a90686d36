/** JavaScript's `String.prototype.trim`, on strings seen as sequences of
    characters. */
module JsText {

  /** ECMAScript WhiteSpace and LineTerminator code points: what `trim` strips. */
  predicate IsJsWhitespace(c: char) {
    var n := c as int;
    n == 0x09 || n == 0x0A || n == 0x0B || n == 0x0C || n == 0x0D || n == 0x20 ||
    n == 0xA0 || n == 0x1680 || (0x2000 <= n <= 0x200A) ||
    n == 0x2028 || n == 0x2029 || n == 0x202F || n == 0x205F || n == 0x3000 || n == 0xFEFF
  }

  predicate AllWhitespace(s: string) {
    forall k :: 0 <= k < |s| ==> IsJsWhitespace(s[k])
  }

  /** Neither end of `s` is whitespace: what `trim` always returns. */
  predicate IsTrimmed(s: string) {
    s == [] || (!IsJsWhitespace(s[0]) && !IsJsWhitespace(s[|s| - 1]))
  }

  /** The end of the run of whitespace that starts at `i`: the first
      non-whitespace offset at or after `i`, or `|s|`. */
  function SkipLeading(s: string, i: nat): (k: nat)
    requires i <= |s|
    decreases |s| - i
    ensures i <= k <= |s|
    ensures forall j :: i <= j < k ==> IsJsWhitespace(s[j])
    ensures k < |s| ==> !IsJsWhitespace(s[k])
  {
    if i < |s| && IsJsWhitespace(s[i]) then SkipLeading(s, i + 1) else i
  }

  /** The start of the run of whitespace that ends at `k`, not going below
      `lo`: the offset just after the last non-whitespace character of
      `s[lo..k]`, or `lo`. */
  function SkipTrailing(s: string, lo: nat, k: nat): (j: nat)
    requires lo <= k <= |s|
    decreases k
    ensures lo <= j <= k
    ensures forall m :: j <= m < k ==> IsJsWhitespace(s[m])
    ensures j > lo ==> !IsJsWhitespace(s[j - 1])
  {
    if k > lo && IsJsWhitespace(s[k - 1]) then SkipTrailing(s, lo, k - 1) else k
  }

  /** `s.trim()`: the slice of `s` between its leading and its trailing
      whitespace. */
  function Trim(s: string): (r: string)
    ensures IsTrimmed(r)
    ensures exists i :: 0 <= i <= |s| - |r| && r == s[i..i + |r|]
              && AllWhitespace(s[..i]) && AllWhitespace(s[i + |r|..])
  {
    var i := SkipLeading(s, 0);
    var j := SkipTrailing(s, i, |s|);
    assert AllWhitespace(s[..i]) && AllWhitespace(s[j..]);
    s[i..j]
  }

  /** A string with no whitespace at either end is its own trim. */
  lemma TrimmedIsFixed(s: string)
    requires IsTrimmed(s)
    ensures Trim(s) == s
  {
  }

  /** Trimming twice is trimming once. */
  lemma TrimIdempotent(s: string)
    ensures Trim(Trim(s)) == Trim(s)
  {
  }

  /** `trim` yields the empty string exactly on all-whitespace input. */
  lemma TrimEmptyIff(s: string)
    ensures Trim(s) == [] <==> AllWhitespace(s)
  {
  }
}
