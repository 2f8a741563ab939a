/**
 * The `String.prototype` methods the core calls: `toLowerCase`, `indexOf`
 * and `lastIndexOf`. Case mapping is modelled for the ASCII letters only.
 */
module JsString {

  /** `toLowerCase` of one character: A-Z map to a-z, everything else is kept. */
  function LowerChar(c: char): (d: char)
    ensures 'A' <= c <= 'Z' ==> d as int == c as int + 32
    ensures !('A' <= c <= 'Z') ==> d == c
  {
    if 'A' <= c <= 'Z' then (c as int + 32) as char else c
  }

  function ToLower(s: string): (r: string)
    ensures |r| == |s|
    ensures forall k :: 0 <= k < |s| ==> r[k] == LowerChar(s[k])
  {
    seq(|s|, k requires 0 <= k < |s| => LowerChar(s[k]))
  }

  lemma ToLowerIdempotent(s: string)
    ensures ToLower(ToLower(s)) == ToLower(s)
  {
  }

  /** `t` occurs in `s` starting at index `k`. */
  predicate OccursAt(s: string, t: string, k: int) {
    0 <= k && k + |t| <= |s| && s[k..k + |t|] == t
  }

  predicate Contains(s: string, t: string) {
    exists k | 0 <= k <= |s| :: OccursAt(s, t, k)
  }

  predicate StartsWith(s: string, t: string) {
    |t| <= |s| && s[..|t|] == t
  }

  /** `s.indexOf(t, from)`: the first occurrence at or after `from`, or -1. */
  function IndexOfFrom(s: string, t: string, from: nat): (k: int)
    ensures k == -1 || (from <= k && OccursAt(s, t, k))
    ensures k >= 0 ==> forall j :: from <= j < k ==> !OccursAt(s, t, j)
    ensures k == -1 ==> forall j :: from <= j ==> !OccursAt(s, t, j)
    decreases |s| - from
  {
    if from + |t| > |s| then -1
    else if s[from..from + |t|] == t then from
    else IndexOfFrom(s, t, from + 1)
  }

  /** `s.indexOf(t)`. */
  function IndexOf(s: string, t: string): int {
    IndexOfFrom(s, t, 0)
  }

  /**
   * `s.indexOf(t) > -1` holds exactly when `t` occurs somewhere in `s`, and
   * then it is the position of the first occurrence.
   */
  lemma IndexOfFindsOccurrence(s: string, t: string)
    ensures IndexOf(s, t) > -1 <==> Contains(s, t)
    ensures IndexOf(s, t) >= 0 ==>
              OccursAt(s, t, IndexOf(s, t)) && forall j | 0 <= j < IndexOf(s, t) :: !OccursAt(s, t, j)
  {
    if IndexOf(s, t) > -1 {
      assert OccursAt(s, t, IndexOf(s, t));
    }
  }

  /**
   * `s.lastIndexOf(t, pos)` for a non-negative position: the last occurrence
   * starting at or before `pos`, or -1.
   */
  function LastIndexOfAt(s: string, t: string, pos: nat): (k: int)
    ensures k == -1 || (0 <= k <= pos && OccursAt(s, t, k))
    ensures k >= 0 ==> forall j :: k < j <= pos ==> !OccursAt(s, t, j)
    ensures k == -1 ==> forall j :: 0 <= j <= pos ==> !OccursAt(s, t, j)
    decreases pos
  {
    if pos + |t| <= |s| && s[pos..pos + |t|] == t then pos
    else if pos == 0 then -1
    else LastIndexOfAt(s, t, pos - 1)
  }

  /**
   * Searching backwards from position 0 can only find a match at 0: the
   * result is 0 when `s` starts with `t` and -1 otherwise.
   */
  lemma LastIndexOfFromZero(s: string, t: string)
    ensures LastIndexOfAt(s, t, 0) == (if StartsWith(s, t) then 0 else -1)
  {
  }
}
