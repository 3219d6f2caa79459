/** Scanning helpers for the hand-written email patterns. */
module Strings {

  /** No position of `s` in [lo, hi) holds `c`. */
  predicate NoneIn(s: string, lo: int, hi: int, c: char)
    requires 0 <= lo <= hi <= |s|
  {
    forall k | lo <= k < hi :: s[k] != c
  }

  /** The first position at or after `from` that holds `c`, or `|s|` if there is none. */
  function IndexOf(s: string, c: char, from: nat): (i: nat)
    requires from <= |s|
    ensures from <= i <= |s|
    ensures i < |s| ==> s[i] == c
    ensures NoneIn(s, from, i, c)
    decreases |s| - from
  {
    if from == |s| || s[from] == c then from else IndexOf(s, c, from + 1)
  }

  /** A position that holds `c` after a run free of `c` starting at `from` is the first one. */
  lemma IndexOfIsFirst(s: string, c: char, from: nat, j: nat)
    requires from <= j < |s| && s[j] == c && NoneIn(s, from, j, c)
    ensures IndexOf(s, c, from) == j
  {
  }

  /** A run free of `c` from `from` up to `hi` ends no later than the first `c`. */
  lemma IndexOfBeyondRun(s: string, c: char, from: nat, hi: nat)
    requires from <= hi <= |s| && NoneIn(s, from, hi, c)
    ensures hi <= IndexOf(s, c, from)
  {
  }
}
