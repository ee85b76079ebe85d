/**
 * The two properties of JavaScript strings the model relies on:
 * `String.prototype.includes` and `String.prototype.length`, which counts
 * UTF-16 code units rather than Unicode scalar values.
 */
module JsText {

  /** `t` occurs in `s` starting at index `i`. */
  predicate OccursAt(s: string, t: string, i: int) {
    0 <= i && i + |t| <= |s| && s[i..i + |t|] == t
  }

  /** `s.includes(t)`: `t` occurs in `s` at some index, so it is no longer than `s`. */
  predicate Includes(s: string, t: string): (b: bool)
    ensures b ==> |t| <= |s|
  {
    exists i | 0 <= i <= |s| :: OccursAt(s, t, i)
  }

  /** Every character of a string that `s` includes occurs in `s`. */
  lemma IncludesKeepsChars(s: string, t: string, c: char)
    requires Includes(s, t) && c in t
    ensures c in s
  {
    var i :| 0 <= i <= |s| && OccursAt(s, t, i);
    var j :| 0 <= j < |t| && t[j] == c;
    assert s[i + j] == s[i..i + |t|][j];
  }

  /** A character of `t` that `s` lacks rules out `s.includes(t)`. */
  lemma MissingCharExcludes(s: string, t: string, c: char)
    requires c in t && c !in s
    ensures !Includes(s, t)
  {
    if Includes(s, t) {
      IncludesKeepsChars(s, t, c);
    }
  }

  /** A string that starts with `t` includes it. */
  lemma PrefixIncluded(s: string, t: string)
    requires |t| <= |s| && s[..|t|] == t
    ensures Includes(s, t)
  {
    assert OccursAt(s, t, 0);
  }

  /** Number of UTF-16 code units that encode `c`. */
  function CodeUnits(c: char): (n: nat)
    ensures 1 <= n <= 2
  {
    if c as int < 0x1_0000 then 1 else 2
  }

  /** `s.length` in JavaScript: characters outside the Basic Multilingual Plane count twice. */
  function JsLength(s: string): (n: nat)
    ensures |s| <= n <= 2 * |s|
  {
    if s == [] then 0 else CodeUnits(s[0]) + JsLength(s[1..])
  }

  /** All characters of `s` are in the Basic Multilingual Plane. */
  predicate InBmp(s: string) {
    forall i :: 0 <= i < |s| ==> s[i] as int < 0x1_0000
  }

  /** For text made of Basic Multilingual Plane characters, `length` is the character count. */
  lemma {:induction false} JsLengthInBmp(s: string)
    requires InBmp(s)
    ensures JsLength(s) == |s|
  {
    if s != [] {
      assert InBmp(s[1..]) by {
        forall i | 0 <= i < |s[1..]| ensures s[1..][i] as int < 0x1_0000 {
          assert s[1..][i] == s[i + 1];
        }
      }
      JsLengthInBmp(s[1..]);
    }
  }
}
