/** The near-duplicate frame walk shared by the analysis job and the older
    script: items are visited in order against a reference image; an item
    scoring at or above the threshold against the reference is removed,
    otherwise it is kept and becomes the new reference. The similarity score is
    an uninterpreted function. Positions are 0-based within `items`. */
module Dedup {

  predicate Increasing(s: seq<nat>) {
    forall i, j :: 0 <= i < j < |s| ==> s[i] < s[j]
  }

  /** Appending a value above every entry keeps a sequence increasing. */
  lemma IncreasingSnoc(s: seq<nat>, x: nat)
    requires Increasing(s) && forall k :: 0 <= k < |s| ==> s[k] < x
    ensures Increasing(s + [x])
  {
    var t := s + [x];
    assert forall k :: 0 <= k < |s| ==> t[k] == s[k];
  }

  /** `[lo, hi)` in order. */
  function Range(lo: nat, hi: nat): (r: seq<nat>)
    ensures |r| == if lo <= hi then hi - lo else 0
    ensures forall k :: 0 <= k < |r| ==> r[k] == lo + k
    decreases hi - lo
  {
    if lo >= hi then [] else [lo] + Range(lo + 1, hi)
  }

  /** The state after walking some items: the current reference and the
      positions removed and kept so far. */
  datatype WalkState<T> = WalkState(reference: T, removed: seq<nat>, kept: seq<nat>)

  function Walk<T>(init: T, items: seq<T>, score: (T, T) -> real, threshold: real): (w: WalkState<T>)
    ensures Increasing(w.removed) && Increasing(w.kept)
    ensures forall k :: 0 <= k < |w.removed| ==> w.removed[k] < |items|
    ensures forall k :: 0 <= k < |w.kept| ==> w.kept[k] < |items|
    decreases |items|
  {
    if items == [] then WalkState(init, [], [])
    else
      var n := |items| - 1;
      var prev := Walk(init, items[..n], score, threshold);
      if score(prev.reference, items[n]) >= threshold then
        WalkState(prev.reference, prev.removed + [n], prev.kept)
      else
        WalkState(items[n], prev.removed, prev.kept + [n])
  }

  /** Walking one more item takes one more step from the walk over the
      others. */
  lemma WalkSnoc<T>(init: T, items: seq<T>, x: T, score: (T, T) -> real, threshold: real)
    ensures var prev := Walk(init, items, score, threshold);
      Walk(init, items + [x], score, threshold) ==
        if score(prev.reference, x) >= threshold then WalkState(prev.reference, prev.removed + [|items|], prev.kept)
        else WalkState(x, prev.removed, prev.kept + [|items|])
  {
    assert (items + [x])[..|items|] == items;
  }

  /** Every item is either removed or kept, never both, and the reference is
      the last kept item (the initial one while nothing has been kept). */
  lemma {:induction false} WalkPartition<T>(init: T, items: seq<T>, score: (T, T) -> real, threshold: real, j: nat)
    requires j < |items|
    ensures j in Walk(init, items, score, threshold).removed <==> j !in Walk(init, items, score, threshold).kept
    decreases |items|
  {
    var n := |items| - 1;
    if j < n {
      WalkPartition(init, items[..n], score, threshold, j);
    }
    WalkLastStep(init, items, score, threshold, j);
  }

  /** The last step of a walk places the last item in exactly one of the two
      lists and leaves the earlier items where they were. */
  lemma WalkLastStep<T>(init: T, items: seq<T>, score: (T, T) -> real, threshold: real, j: nat)
    requires j < |items|
    ensures var n := |items| - 1;
      var prev := Walk(init, items[..n], score, threshold);
      var w := Walk(init, items, score, threshold);
      && (j < n ==> (j in w.removed <==> j in prev.removed) && (j in w.kept <==> j in prev.kept))
      && (j == n ==> (j in w.removed <==> j !in w.kept))
  {
    var n := |items| - 1;
    var prev := Walk(init, items[..n], score, threshold);
    var w := Walk(init, items, score, threshold);
    WalkStepShape(init, items, score, threshold);
    assert n !in prev.removed && n !in prev.kept;
    if w.removed == prev.removed + [n] {
      SnocMember(prev.removed, n, j);
    } else {
      SnocMember(prev.kept, n, j);
    }
  }

  /** The last step appends the last position to exactly one of the lists. */
  lemma WalkStepShape<T>(init: T, items: seq<T>, score: (T, T) -> real, threshold: real)
    requires items != []
    ensures var n := |items| - 1;
      var prev := Walk(init, items[..n], score, threshold);
      var w := Walk(init, items, score, threshold);
      || (w.removed == prev.removed + [n] && w.kept == prev.kept)
      || (w.removed == prev.removed && w.kept == prev.kept + [n])
  {
  }

  lemma SnocMember(s: seq<nat>, x: nat, j: nat)
    ensures j in s + [x] <==> j in s || j == x
  {
  }

  lemma {:induction false} WalkReference<T>(init: T, items: seq<T>, score: (T, T) -> real, threshold: real)
    ensures var w := Walk(init, items, score, threshold);
      w.reference == if w.kept == [] then init else items[w.kept[|w.kept| - 1]]
    decreases |items|
  {
    if items != [] {
      var n := |items| - 1;
      WalkReference(init, items[..n], score, threshold);
    }
  }

  function Removed<T>(init: T, items: seq<T>, score: (T, T) -> real, threshold: real): seq<nat> {
    Walk(init, items, score, threshold).removed
  }

  /** The reference item `j` is compared against: the walk over the items
      before it. */
  function ReferenceBefore<T>(init: T, items: seq<T>, score: (T, T) -> real, threshold: real, j: nat): T
    requires j <= |items|
  {
    Walk(init, items[..j], score, threshold).reference
  }

  /** Walking a prefix decides the items of that prefix the same way as
      walking the whole. */
  lemma {:induction false} WalkPrefix<T>(init: T, items: seq<T>, score: (T, T) -> real, threshold: real, j: nat, k: nat)
    requires k < j <= |items|
    ensures k in Walk(init, items, score, threshold).removed <==> k in Walk(init, items[..j], score, threshold).removed
    decreases |items| - j
  {
    if j == |items| {
      assert items[..j] == items;
    } else {
      var n := |items| - 1;
      var w := Walk(init, items, score, threshold);
      var prev := Walk(init, items[..n], score, threshold);
      assert w.removed == prev.removed || w.removed == prev.removed + [n];
      assert k in w.removed <==> k in prev.removed;
      if j < n {
        var front := items[..n];
        assert front[..j] == items[..j];
        WalkPrefix(init, front, score, threshold, j, k);
      }
    }
  }

  /** An item is removed exactly when it scores at or above the threshold
      against the reference in force when it is reached. */
  lemma {:induction false} RemovedIff<T>(init: T, items: seq<T>, score: (T, T) -> real, threshold: real, j: nat)
    requires j < |items|
    ensures j in Removed(init, items, score, threshold) <==>
      score(ReferenceBefore(init, items, score, threshold, j), items[j]) >= threshold
  {
    WalkPrefix(init, items, score, threshold, j + 1, j);
    var p := Walk(init, items[..j + 1], score, threshold);
    assert items[..j + 1][..j] == items[..j];
    assert items[..j + 1][j] == items[j];
    var q := Walk(init, items[..j], score, threshold);
    assert j !in q.removed;
    assert p == if score(q.reference, items[j]) >= threshold then WalkState(q.reference, q.removed + [j], q.kept)
      else WalkState(items[j], q.removed, q.kept + [j]);
    assert j in p.removed <==> score(q.reference, items[j]) >= threshold;
    var w := Walk(init, items, score, threshold);
    assert j in w.removed <==> j in p.removed;
  }

  /** If no item reaches the threshold against anything, nothing is removed
      and the reference ends on the last item. */
  lemma AllDifferent<T>(init: T, items: seq<T>, score: (T, T) -> real, threshold: real)
    requires forall a, b :: score(a, b) < threshold
    ensures Removed(init, items, score, threshold) == []
  {
    var w := Walk(init, items, score, threshold);
    if w.removed != [] {
      RemovedIff(init, items, score, threshold, w.removed[0]);
    }
  }

  /** If every item reaches the threshold against the initial reference, all
      of them are removed and the reference never moves. */
  lemma {:induction false} AllSimilar<T>(init: T, items: seq<T>, score: (T, T) -> real, threshold: real)
    requires forall k :: 0 <= k < |items| ==> score(init, items[k]) >= threshold
    ensures Removed(init, items, score, threshold) == Range(0, |items|)
    ensures Walk(init, items, score, threshold).reference == init
    decreases |items|
  {
    if items != [] {
      var n := |items| - 1;
      AllSimilar(init, items[..n], score, threshold);
      assert Range(0, n) + [n] == Range(0, n + 1);
    }
  }

  /** While every item so far has been removed, nothing is kept and the
      reference is still the initial one. */
  lemma {:induction false} NothingKept<T>(init: T, items: seq<T>, score: (T, T) -> real, threshold: real)
    requires forall k :: 0 <= k < |items| ==> k in Walk(init, items, score, threshold).removed
    ensures Walk(init, items, score, threshold).kept == []
    ensures Walk(init, items, score, threshold).reference == init
    decreases |items|
  {
    if items != [] {
      var n := |items| - 1;
      var w := Walk(init, items, score, threshold);
      var prev := Walk(init, items[..n], score, threshold);
      assert n !in prev.removed;
      assert w.removed == prev.removed + [n];
      forall k | 0 <= k < n
        ensures k in prev.removed
      {
        assert k in w.removed;
      }
      NothingKept(init, items[..n], score, threshold);
    }
  }

  /** When every item before the last was removed, the last is compared with
      the initial reference. */
  lemma LastAgainstInitial<T>(init: T, items: seq<T>, score: (T, T) -> real, threshold: real)
    requires |items| > 0
    requires forall k :: 0 <= k < |items| - 1 ==> k in Removed(init, items, score, threshold)
    ensures |items| - 1 in Removed(init, items, score, threshold) <==> score(init, items[|items| - 1]) >= threshold
  {
    var n := |items| - 1;
    forall k | 0 <= k < n
      ensures k in Walk(init, items[..n], score, threshold).removed
    {
      assert k in Removed(init, items, score, threshold);
      WalkPrefix(init, items, score, threshold, n, k);
    }
    NothingKept(init, items[..n], score, threshold);
    RemovedIff(init, items, score, threshold, n);
  }
}
