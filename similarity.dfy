/** The older de-duplication script: image 0 is always kept, each later image
    is compared with the most recently kept one and kept only if the similarity
    is strictly below 0.90; the result is the indices not kept. */
module Similarity {
  import Dedup

  const KEEP_BELOW: real := 0.90

  /** The positions kept by the walk over images 1.., as image indices. */
  function Shift(positions: seq<nat>): (r: seq<nat>)
    ensures |r| == |positions| && forall k :: 0 <= k < |r| ==> r[k] == positions[k] + 1
    ensures Dedup.Increasing(positions) ==> Dedup.Increasing(r)
  {
    seq(|positions|, k requires 0 <= k < |positions| => positions[k] + 1)
  }

  lemma ShiftMember(positions: seq<nat>, i: nat)
    ensures i in Shift(positions) <==> i >= 1 && i - 1 in positions
  {
    if i in Shift(positions) {
      var k :| 0 <= k < |positions| && Shift(positions)[k] == i;
    }
    if i >= 1 && i - 1 in positions {
      var k :| 0 <= k < |positions| && positions[k] == i - 1;
      assert Shift(positions)[k] == i;
    }
  }

  /** The indices of [0, n) that are not in `keep`, in ascending order. */
  function NotKept(n: nat, keep: seq<nat>): (r: seq<nat>)
    ensures Dedup.Increasing(r)
    ensures forall k :: 0 <= k < |r| ==> r[k] < n
    ensures forall i :: 0 <= i && i in r <==> 0 <= i < n && i !in keep
    decreases n
  {
    if n == 0 then []
    else
      var rest := NotKept(n - 1, keep);
      if n - 1 in keep then rest else rest + [n - 1]
  }

  /** The state of the loop after images [0, i) have been seen: `keep` holds
      image 0 and the images the walk over images 1..i-1 kept, and its last
      entry is the walk's reference. */
  ghost predicate KeepInvariant<Img>(images: seq<Img>, similarity: (Img, Img) -> real, i: nat, keep: seq<nat>)
    requires 1 <= i <= |images|
  {
    var w := Dedup.Walk(images[0], images[1..i], similarity, KEEP_BELOW);
    && keep == [0] + Shift(w.kept)
    && images[keep[|keep| - 1]] == w.reference
  }

  lemma KeepStep<Img>(images: seq<Img>, similarity: (Img, Img) -> real, i: nat, keep: seq<nat>)
    requires 1 <= i < |images|
    requires KeepInvariant(images, similarity, i, keep)
    ensures similarity(images[keep[|keep| - 1]], images[i]) < KEEP_BELOW ==>
      KeepInvariant(images, similarity, i + 1, keep + [i])
    ensures similarity(images[keep[|keep| - 1]], images[i]) >= KEEP_BELOW ==>
      KeepInvariant(images, similarity, i + 1, keep)
  {
    var prev := Dedup.Walk(images[0], images[1..i], similarity, KEEP_BELOW);
    WalkExtend(images, similarity, i);
    var w := Dedup.Walk(images[0], images[1..i + 1], similarity, KEEP_BELOW);
    assert prev.reference == images[keep[|keep| - 1]];
    if similarity(prev.reference, images[i]) < KEEP_BELOW {
      assert w.kept == prev.kept + [i - 1] && w.reference == images[i];
      ShiftSnoc(prev.kept, i - 1);
      assert keep + [i] == [0] + (Shift(prev.kept) + [i]);
    } else {
      assert w.kept == prev.kept && w.reference == prev.reference;
    }
  }

  /** The walk over images 1..i takes one more step to cover image i. */
  lemma WalkExtend<Img>(images: seq<Img>, similarity: (Img, Img) -> real, i: nat)
    requires 1 <= i < |images|
    ensures var prev := Dedup.Walk(images[0], images[1..i], similarity, KEEP_BELOW);
      Dedup.Walk(images[0], images[1..i + 1], similarity, KEEP_BELOW) ==
        if similarity(prev.reference, images[i]) >= KEEP_BELOW then Dedup.WalkState(prev.reference, prev.removed + [i - 1], prev.kept)
        else Dedup.WalkState(images[i], prev.removed, prev.kept + [i - 1])
  {
    assert images[1..i + 1] == images[1..i] + [images[i]];
    Dedup.WalkSnoc(images[0], images[1..i], images[i], similarity, KEEP_BELOW);
  }

  lemma ShiftSnoc(positions: seq<nat>, x: nat)
    ensures Shift(positions + [x]) == Shift(positions) + [x + 1]
  {
  }

  method RemoveSimilarImages<Img>(images: seq<Img>, similarity: (Img, Img) -> real) returns (removed: seq<nat>)
    ensures |images| <= 1 ==> removed == []
    ensures |images| >= 1 ==>
      removed == Shift(Dedup.Removed(images[0], images[1..], similarity, KEEP_BELOW))
  {
    var keep: seq<nat> := [0];
    var i := 1;
    while i < |images|
      invariant |images| == 0 ==> keep == [0]
      invariant |images| >= 1 ==> i <= |images| && KeepInvariant(images, similarity, i, keep)
    {
      var lastImageIndex := keep[|keep| - 1];
      var lastImage := images[lastImageIndex];
      var currentImage := images[i];
      var s := similarity(lastImage, currentImage);
      KeepStep(images, similarity, i, keep);
      if s < KEEP_BELOW {
        keep := keep + [i];
      }
      i := i + 1;
    }
    removed := NotKept(|images|, keep);
    if |images| >= 1 {
      assert images[1..i] == images[1..];
      RemovedAreNotKept(images, similarity, removed, keep);
    }
  }

  lemma RemovedAreNotKept<Img>(images: seq<Img>, similarity: (Img, Img) -> real, removed: seq<nat>, keep: seq<nat>)
    requires |images| >= 1
    requires keep == [0] + Shift(Dedup.Walk(images[0], images[1..], similarity, KEEP_BELOW).kept)
    requires removed == NotKept(|images|, keep)
    ensures removed == Shift(Dedup.Removed(images[0], images[1..], similarity, KEEP_BELOW))
  {
    var items := images[1..];
    var w := Dedup.Walk(images[0], items, similarity, KEEP_BELOW);
    var expected := Shift(w.removed);
    forall i: nat | i < |images|
      ensures i in removed <==> i in expected
    {
      if i > 0 {
        Dedup.WalkPartition(images[0], items, similarity, KEEP_BELOW, i - 1);
      }
      NotKeptMember(w.kept, w.removed, |images|, i);
    }
    SameIncreasing(removed, expected, |images|);
  }

  /** An image is not kept exactly when it is removed, given that the walk
      over images 1.. puts each of its positions in exactly one list. */
  lemma NotKeptMember(kept: seq<nat>, removed: seq<nat>, n: nat, i: nat)
    requires i < n
    requires 0 < i ==> (i - 1 in removed <==> i - 1 !in kept)
    ensures i in NotKept(n, [0] + Shift(kept)) <==> i in Shift(removed)
  {
    ShiftMember(kept, i);
    ShiftMember(removed, i);
    assert i in [0] + Shift(kept) <==> i == 0 || i in Shift(kept);
  }

  /** The members of `a` below n, in ascending order. */
  function Ascending(n: nat, a: seq<nat>): seq<nat>
    decreases n
  {
    if n == 0 then [] else if n - 1 in a then Ascending(n - 1, a) + [n - 1] else Ascending(n - 1, a)
  }

  lemma {:induction false} AscendingOfIncreasing(a: seq<nat>, n: nat)
    requires Dedup.Increasing(a)
    requires forall k :: 0 <= k < |a| ==> a[k] < n
    ensures Ascending(n, a) == a
    decreases n
  {
    if |a| == 0 {
      AscendingOfEmpty(n, a);
    } else if n - 1 in a {
      var last := |a| - 1;
      var j :| 0 <= j < |a| && a[j] == n - 1;
      assert a[last] >= a[j];
      var a' := a[..last];
      forall k | 0 <= k < |a'|
        ensures a'[k] < n - 1
      {
        assert a[k] < a[last];
      }
      AscendingOfIncreasing(a', n - 1);
      SameBelow(n - 1, a, a');
      assert a == a' + [n - 1];
    } else {
      forall k | 0 <= k < |a|
        ensures a[k] < n - 1
      {
        assert a[k] in a;
      }
      AscendingOfIncreasing(a, n - 1);
    }
  }

  lemma {:induction false} AscendingOfEmpty(n: nat, a: seq<nat>)
    requires a == []
    ensures Ascending(n, a) == []
    decreases n
  {
    if n > 0 {
      AscendingOfEmpty(n - 1, a);
    }
  }

  lemma {:induction false} SameBelow(n: nat, a: seq<nat>, b: seq<nat>)
    requires forall i :: 0 <= i < n ==> (i in a <==> i in b)
    ensures Ascending(n, a) == Ascending(n, b)
    decreases n
  {
    if n > 0 {
      SameBelow(n - 1, a, b);
    }
  }

  /** Two increasing sequences below n with the same members are equal. */
  lemma SameIncreasing(a: seq<nat>, b: seq<nat>, n: nat)
    requires Dedup.Increasing(a) && Dedup.Increasing(b)
    requires forall k :: 0 <= k < |a| ==> a[k] < n
    requires forall k :: 0 <= k < |b| ==> b[k] < n
    requires forall i :: 0 <= i < n ==> (i in a <==> i in b)
    ensures a == b
  {
    AscendingOfIncreasing(a, n);
    AscendingOfIncreasing(b, n);
    SameBelow(n, a, b);
  }

  /** Image 0 is never removed, and an image is removed exactly when it scores
      0.90 or more against the last kept image before it (image 0 if none). */
  lemma RemovedIff<Img>(images: seq<Img>, similarity: (Img, Img) -> real, i: nat)
    requires 1 <= i < |images|
    ensures 0 !in Shift(Dedup.Removed(images[0], images[1..], similarity, KEEP_BELOW))
    ensures i in Shift(Dedup.Removed(images[0], images[1..], similarity, KEEP_BELOW)) <==>
      similarity(Dedup.ReferenceBefore(images[0], images[1..], similarity, KEEP_BELOW, i - 1), images[i]) >= KEEP_BELOW
  {
    var w := Dedup.Removed(images[0], images[1..], similarity, KEEP_BELOW);
    Dedup.RemovedIff(images[0], images[1..], similarity, KEEP_BELOW, i - 1);
    assert i in Shift(w) <==> i - 1 in w by {
      if i in Shift(w) {
        var k :| 0 <= k < |w| && Shift(w)[k] == i;
      }
      if i - 1 in w {
        var k :| 0 <= k < |w| && w[k] == i - 1;
        assert Shift(w)[k] == i;
      }
    }
  }
}
