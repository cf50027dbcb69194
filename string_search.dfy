/**
 * The `String?.indexesOf(substr, ignoreCase)` extension: every start index of
 * `substr` in the receiver, overlapping occurrences included, found by
 * repeated calls to Kotlin's `indexOf(substr, startIndex, ignoreCase)`.
 */
module StringSearch {
  import opened Wrappers
  import opened Chars

  /** Kotlin `Char.equals(other, ignoreCase)`: equal, or (ignoring case) equal after upper-casing, or after upper- then lower-casing. */
  predicate CharEquals(a: char, b: char, ignoreCase: bool) {
    a == b || (ignoreCase && (ToUpper(a) == ToUpper(b) || ToLower(ToUpper(a)) == ToLower(ToUpper(b))))
  }

  /** `sub` occurs in `s` starting at `p` (Kotlin `regionMatches(0, s, p, |sub|, ignoreCase)`). */
  predicate OccursAt(s: string, sub: string, p: nat, ignoreCase: bool) {
    p + |sub| <= |s| && forall k :: 0 <= k < |sub| ==> CharEquals(s[p + k], sub[k], ignoreCase)
  }

  /**
   * Kotlin `s.indexOf(sub, from, ignoreCase)` for `0 <= from <= |s|`: the first
   * start `p` in `from..|s|` at which `sub` occurs, or -1 when there is none.
   */
  function IndexOf(s: string, sub: string, from: nat, ignoreCase: bool): (r: int)
    requires from <= |s|
    ensures r == -1 || (from <= r <= |s| && OccursAt(s, sub, r, ignoreCase))
    ensures forall p :: from <= p <= |s| && (r == -1 || p < r) ==> !OccursAt(s, sub, p, ignoreCase)
    decreases |s| - from
  {
    if OccursAt(s, sub, from, ignoreCase) then from
    else if from == |s| then -1
    else IndexOf(s, sub, from + 1, ignoreCase)
  }

  /** The occurrence starts of `sub` in `s` below `hi`, in increasing order. */
  function OccurrencesBelow(s: string, sub: string, ignoreCase: bool, hi: nat): (r: seq<nat>)
    decreases hi
  {
    if hi == 0 then []
    else OccurrencesBelow(s, sub, ignoreCase, hi - 1) + (if OccursAt(s, sub, hi - 1, ignoreCase) then [hi - 1] else [])
  }

  /** The specification of `indexesOf`: every occurrence start that is a valid index of `s`. */
  function Occurrences(s: string, sub: string, ignoreCase: bool): seq<nat> {
    OccurrencesBelow(s, sub, ignoreCase, |s|)
  }

  /** `OccurrencesBelow` is exactly the sorted list of occurrence starts below `hi`. */
  lemma {:induction false} OccurrencesBelowSpec(s: string, sub: string, ignoreCase: bool, hi: nat)
    ensures var r := OccurrencesBelow(s, sub, ignoreCase, hi);
      && (forall k :: 0 <= k < |r| ==> r[k] < hi && OccursAt(s, sub, r[k], ignoreCase))
      && (forall k, l :: 0 <= k < l < |r| ==> r[k] < r[l])
      && (forall p :: 0 <= p < hi && OccursAt(s, sub, p, ignoreCase) ==> p in r)
  {
    if hi > 0 {
      OccurrencesBelowSpec(s, sub, ignoreCase, hi - 1);
    }
  }

  /** No occurrence in `lo..hi` means the list below `hi` is the list below `lo`. */
  lemma {:induction false} OccurrencesBelowSkip(s: string, sub: string, ignoreCase: bool, lo: nat, hi: nat)
    requires lo <= hi
    requires forall p :: lo <= p < hi ==> !OccursAt(s, sub, p, ignoreCase)
    ensures OccurrencesBelow(s, sub, ignoreCase, hi) == OccurrencesBelow(s, sub, ignoreCase, lo)
    decreases hi - lo
  {
    if lo < hi {
      OccurrencesBelowSkip(s, sub, ignoreCase, lo, hi - 1);
    }
  }

  /**
   * `indexesOf` as the source writes it: a null or empty receiver gives the
   * empty list; otherwise the search resumes one past every hit until
   * `indexOf` answers -1 or the cursor reaches the end.
   */
  method IndexesOf(receiver: Option<string>, sub: string, ignoreCase: bool) returns (indices: seq<nat>)
    ensures receiver.None? ==> indices == []
    ensures receiver.Some? ==> indices == Occurrences(receiver.value, sub, ignoreCase)
    ensures receiver.Some? ==> forall k :: 0 <= k < |indices| ==>
      indices[k] < |receiver.value| && OccursAt(receiver.value, sub, indices[k], ignoreCase)
    ensures forall k, l :: 0 <= k < l < |indices| ==> indices[k] < indices[l]
    ensures receiver.Some? ==> forall p :: 0 <= p < |receiver.value| && OccursAt(receiver.value, sub, p, ignoreCase) ==> p in indices
  {
    if receiver.None? || receiver.value == [] {
      OccurrencesBelowSpec([], sub, ignoreCase, 0);
      return [];
    }
    var s := receiver.value;
    indices := [];
    var lastIndex: int := 0;
    while lastIndex > -1 && lastIndex < |s|
      invariant -1 <= lastIndex <= |s|
      invariant lastIndex >= 0 ==> indices == OccurrencesBelow(s, sub, ignoreCase, lastIndex)
      invariant lastIndex == -1 ==> indices == OccurrencesBelow(s, sub, ignoreCase, |s|)
      decreases if lastIndex == -1 then 0 else |s| + 1 - lastIndex
    {
      var indexOf := IndexOf(s, sub, lastIndex, ignoreCase);
      if indexOf > -1 {
        OccurrencesBelowSkip(s, sub, ignoreCase, lastIndex, indexOf);
        lastIndex := indexOf;
        indices := indices + [lastIndex];
        lastIndex := lastIndex + 1;
      } else {
        OccurrencesBelowSkip(s, sub, ignoreCase, lastIndex, |s|);
        lastIndex := indexOf;
      }
    }
    OccurrencesBelowSpec(s, sub, ignoreCase, |s|);
  }

  /** An empty `substr` occurs at every index: the result is `0, 1, ..., |s| - 1`. */
  lemma {:induction false} EmptyNeedleEveryIndex(s: string, ignoreCase: bool, hi: nat)
    requires hi <= |s|
    ensures OccurrencesBelow(s, [], ignoreCase, hi) == seq(hi, i => i)
    ensures hi == |s| ==> Occurrences(s, [], ignoreCase) == seq(|s|, i => i)
  {
    if hi > 0 {
      EmptyNeedleEveryIndex(s, ignoreCase, hi - 1);
      assert OccursAt(s, [], hi - 1, ignoreCase);
    }
  }
}
