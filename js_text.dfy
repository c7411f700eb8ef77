/**
  JavaScript strings as the TODO app sees them: sequences of UTF-16 code
  units, where `.length` is the number of code units, and the `trim()` that
  the client form applies before its "required" checks.
 */
module JsText {

  /** One UTF-16 code unit. */
  newtype CodeUnit = x: int | 0 <= x < 0x1_0000

  /** A JavaScript string; `|s|` is its `.length`. */
  type JsString = seq<CodeUnit>

  /** The code units `String.prototype.trim` removes: the WhiteSpace and
      LineTerminator code points of ECMA-262 (sections 12.2 and 12.3), all of
      which lie in the Basic Multilingual Plane. */
  predicate IsTrimmable(c: CodeUnit)
  {
    || c == 0x0009 || c == 0x000A || c == 0x000B || c == 0x000C || c == 0x000D
    || c == 0x0020 || c == 0x00A0 || c == 0x1680
    || (0x2000 <= c <= 0x200A)
    || c == 0x2028 || c == 0x2029 || c == 0x202F || c == 0x205F
    || c == 0x3000 || c == 0xFEFF
  }

  /** The first index at or after `k` whose code unit is not trimmable,
      or `|s|` when there is none. */
  function SkipLeading(s: JsString, k: nat): (a: nat)
    requires k <= |s|
    ensures k <= a <= |s|
    ensures forall i :: k <= i < a ==> IsTrimmable(s[i])
    ensures a == |s| || !IsTrimmable(s[a])
    decreases |s| - k
  {
    if k < |s| && IsTrimmable(s[k]) then SkipLeading(s, k + 1) else k
  }

  /** One past the last index below `k` whose code unit is not trimmable,
      looking no further back than `a`. */
  function SkipTrailing(s: JsString, a: nat, k: nat): (b: nat)
    requires a <= k <= |s|
    ensures a <= b <= k
    ensures forall i :: b <= i < k ==> IsTrimmable(s[i])
    ensures b == a || !IsTrimmable(s[b - 1])
  {
    if a < k && IsTrimmable(s[k - 1]) then SkipTrailing(s, a, k - 1) else k
  }

  /** `r` is `s[a..b]`, and everything outside `a..b` is trimmable. */
  predicate TrimmedSlice(s: JsString, r: JsString, a: int, b: int)
  {
    && 0 <= a <= b <= |s| && r == s[a..b]
    && (forall i :: 0 <= i < a ==> IsTrimmable(s[i]))
    && (forall i :: b <= i < |s| ==> IsTrimmable(s[i]))
  }

  /** `s.trim()`: the slice of `s` left once trimmable code units are
      removed from both ends, and no more, since the slice neither starts
      nor ends with one. */
  function Trim(s: JsString): (r: JsString)
    ensures var a := SkipLeading(s, 0); TrimmedSlice(s, r, a, SkipTrailing(s, a, |s|))
    ensures r == [] || (!IsTrimmable(r[0]) && !IsTrimmable(r[|r| - 1]))
  {
    var a := SkipLeading(s, 0);
    s[a..SkipTrailing(s, a, |s|)]
  }

  /** `!s.trim()`: the trimmed string is the empty, falsy, string. */
  predicate IsBlank(s: JsString)
  {
    Trim(s) == []
  }

  /** A string is blank exactly when every code unit in it is trimmable. */
  lemma BlankIffAllTrimmable(s: JsString)
    ensures IsBlank(s) <==> forall i :: 0 <= i < |s| ==> IsTrimmable(s[i])
  {
    var a := SkipLeading(s, 0);
    var b := SkipTrailing(s, a, |s|);
    if !IsBlank(s) {
      assert s[a] == Trim(s)[0];
    } else {
      assert a == b;
    }
  }
}
