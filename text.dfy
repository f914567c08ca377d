/** The two `java.lang.String` operations the client's parsing rests on. */
module Text {
  import opened Wrappers

  /** `pat` occurs in `s` starting at index `i`. */
  predicate OccursAt(s: string, pat: string, i: nat)
  {
    i + |pat| <= |s| && s[i..i + |pat|] == pat
  }

  /** `i` is where `pat` occurs in `s` for the first time. */
  predicate IsFirst(s: string, pat: string, i: nat)
  {
    OccursAt(s, pat, i) && forall j :: 0 <= j < i ==> !OccursAt(s, pat, j)
  }

  predicate StartsWith(s: string, prefix: string)
  {
    OccursAt(s, prefix, 0)
  }

  /**
   * `s.indexOf(pat, from)`, with `None` for Java's -1: the first position at
   * or after `from` where `pat` occurs.
   */
  function IndexOf(s: string, pat: string, from: nat): (r: Option<nat>)
    decreases |s| - from
    ensures r.Some? ==> from <= r.value && OccursAt(s, pat, r.value)
  {
    if from + |pat| > |s| then None
    else if OccursAt(s, pat, from) then Some(from)
    else IndexOf(s, pat, from + 1)
  }

  /** What `IndexOf` finds is the first occurrence, and it finds nothing only when there is none. */
  lemma {:induction false} IndexOfSpec(s: string, pat: string, from: nat)
    decreases |s| - from
    ensures IndexOf(s, pat, from).Some? ==> forall j :: from <= j < IndexOf(s, pat, from).value ==> !OccursAt(s, pat, j)
    ensures IndexOf(s, pat, from).None? ==> forall j :: from <= j ==> !OccursAt(s, pat, j)
  {
    if from + |pat| <= |s| && !OccursAt(s, pat, from) {
      IndexOfSpec(s, pat, from + 1);
    }
  }

  /** Conversely, a first occurrence at or after `from` is the one `IndexOf` finds. */
  lemma {:induction false} IndexOfFirst(s: string, pat: string, from: nat, k: nat)
    requires from <= k && OccursAt(s, pat, k)
    requires forall j :: from <= j < k ==> !OccursAt(s, pat, j)
    ensures IndexOf(s, pat, from) == Some(k)
    decreases k - from
  {
    if from < k {
      assert !OccursAt(s, pat, from);
      IndexOfFirst(s, pat, from + 1, k);
    }
  }

  /** Java's `trim` removes every character at or below U+0020. */
  predicate IsBlank(c: char) { c <= ' ' }

  /** How many blanks `s` starts with. */
  function LeadingBlanks(s: string): (k: nat)
    decreases |s|
    ensures k <= |s|
    ensures forall j :: 0 <= j < k ==> IsBlank(s[j])
    ensures k < |s| ==> !IsBlank(s[k])
  {
    if |s| == 0 || !IsBlank(s[0]) then 0 else 1 + LeadingBlanks(s[1..])
  }

  /** How many blanks `s` ends with. */
  function TrailingBlanks(s: string): (k: nat)
    decreases |s|
    ensures k <= |s|
    ensures forall j :: |s| - k <= j < |s| ==> IsBlank(s[j])
    ensures k < |s| ==> !IsBlank(s[|s| - 1 - k])
  {
    if |s| == 0 || !IsBlank(s[|s| - 1]) then 0 else 1 + TrailingBlanks(s[..|s| - 1])
  }

  /** `s.trim()`. */
  function Trim(s: string): (r: string)
    ensures |r| <= |s|
    ensures r == [] || (!IsBlank(r[0]) && !IsBlank(r[|r| - 1]))
  {
    var i := LeadingBlanks(s);
    var t := s[i..];
    var j := i + |t| - TrailingBlanks(t);
    assert t[..|t| - TrailingBlanks(t)] == s[i..j];
    s[i..j]
  }

  /** What `Trim` removes is blank: it keeps one contiguous piece of its input. */
  lemma TrimRemovesOnlyBlanks(s: string)
    ensures exists i, j :: 0 <= i <= j <= |s| && Trim(s) == s[i..j] &&
              (forall k :: 0 <= k < i ==> IsBlank(s[k])) &&
              (forall k :: j <= k < |s| ==> IsBlank(s[k]))
  {
    var i := LeadingBlanks(s);
    var t := s[i..];
    var j := i + |t| - TrailingBlanks(t);
    assert t[..|t| - TrailingBlanks(t)] == s[i..j];
    assert Trim(s) == s[i..j];
  }

  /** Text that neither starts nor ends with a blank is left as it is. */
  lemma TrimKeeps(s: string)
    requires s != [] && !IsBlank(s[0]) && !IsBlank(s[|s| - 1])
    ensures Trim(s) == s
  {
  }
}
