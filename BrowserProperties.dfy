/**
 * Properties of the browsing screen's state: bounds and wrap-around of the
 * drag navigation, the two drag directions undoing each other, the scale
 * staying in {1, 1.5}, which photo is shown after a drag, and what holds of
 * every state reachable by any sequence of gestures.
 */
module BrowserProperties {
  import opened Wrappers
  import opened Browser
  import Modular

  // ---------------------------------------------------------------------------
  // One drag

  /** From the first photo, a drag to the right wraps to the last one. */
  lemma WrapBackFromFirst(count: int, translation: real)
    requires count > 0 && translation > 0.0
    ensures NextIndex(0, translation, count) == count - 1
  {
  }

  /** From the last photo, a drag to the left (or no movement) wraps to the first. */
  lemma WrapForwardFromLast(count: int, translation: real)
    requires count > 0 && translation <= 0.0
    ensures NextIndex(count - 1, translation, count) == 0
  {
  }

  /** Inside the list, a step back undoes a step forward and vice versa. */
  lemma StepsAreInverse(index: int, count: int, back: real, forward: real)
    requires 0 <= index < count
    requires back > 0.0 && forward <= 0.0
    ensures NextIndex(NextIndex(index, forward, count), back, count) == index
    ensures NextIndex(NextIndex(index, back, count), forward, count) == index
  {
    Modular.ModOfSum(index + 1, -1, count);
    Modular.ModOfSum(index - 1, 1, count);
    Modular.ModOfSmall(index, count);
  }

  /** Without the invariant `index >= 0` Swift's truncating `%` can leave the
      range: from index -4 over two photos a rightward drag yields -1. */
  lemma NegativeIndexLeavesRange()
    ensures NextIndex(-4, 1.0, 2) == -1
  {
  }

  // ---------------------------------------------------------------------------
  // The photo shown

  /** After a drag over the current list the index is always inside it, so
      the screen shows a photo exactly when that photo's bytes have arrived. */
  lemma DragShowsPhotoIffLoaded(photos: seq<Photo>, photoData: map<PhotoId, Bytes>, index: int, translation: real)
    requires |photos| > 0 && index >= 0
    ensures var i := NextIndex(index, translation, |photos|);
            0 <= i < |photos| &&
            (CurrentPhoto(photos, photoData, i).Some? <==> photos[i].id in photoData)
  {
  }

  /** Once every photo of the list has its bytes, every index inside the list
      shows its photo with those bytes. */
  lemma AllLoadedAlwaysShown(photos: seq<Photo>, photoData: map<PhotoId, Bytes>, index: int)
    requires forall k :: 0 <= k < |photos| ==> photos[k].id in photoData
    requires 0 <= index < |photos|
    ensures CurrentPhoto(photos, photoData, index) == Some((photos[index], photoData[photos[index].id]))
  {
  }

  // ---------------------------------------------------------------------------
  // Sequences of gestures

  /** `k` copies of one gesture. */
  function Repeat(g: Gesture, k: nat): (r: seq<Gesture>)
    ensures |r| == k
    ensures forall i :: 0 <= i < k ==> r[i] == g
  {
    seq(k, _ => g)
  }

  lemma RepeatSplit(g: Gesture, k: nat)
    ensures Repeat(g, k + 1)[..k] == Repeat(g, k)
    ensures Repeat(g, k + 1)[k] == g
  {
  }

  /** Every state reachable from a good state is good: the index is never
      negative and the scale is 1 or 1.5. */
  lemma {:induction false} RunKeepsInvariant(s: Screen, gs: seq<Gesture>)
    requires Inv(s)
    ensures Run(s, gs).Some? ==> Inv(Run(s, gs).value)
    decreases |gs|
  {
    if gs != [] {
      RunKeepsInvariant(s, gs[..|gs| - 1]);
    }
  }

  /** In particular for the state the screen starts in. */
  lemma ReachableFromInitial(gs: seq<Gesture>)
    ensures Run(Initial, gs).Some? ==> Run(Initial, gs).value.index >= 0
    ensures Run(Initial, gs).Some? ==> IsScale(Run(Initial, gs).value.scale)
  {
    RunKeepsInvariant(Initial, gs);
  }

  /** A sequence of gestures traps exactly when one of its drags happens over
      an empty photo list. */
  lemma {:induction false} RunTrapsIffEmptyDrag(s: Screen, gs: seq<Gesture>)
    ensures Run(s, gs).None? <==> exists k :: 0 <= k < |gs| && IsEmptyDrag(gs[k])
    decreases |gs|
  {
    if gs != [] {
      var init := gs[..|gs| - 1];
      RunTrapsIffEmptyDrag(s, init);
      if exists k :: 0 <= k < |init| && IsEmptyDrag(init[k]) {
        var k :| 0 <= k < |init| && IsEmptyDrag(init[k]);
        assert gs[k] == init[k];
      }
      if exists k :: 0 <= k < |gs| && IsEmptyDrag(gs[k]) {
        var k :| 0 <= k < |gs| && IsEmptyDrag(gs[k]);
        if k < |init| {
          assert init[k] == gs[k];
        }
      }
    }
  }

  /** The index lies below the photo count seen by the most recent drag, or is
      still the starting index when there has been no drag. */
  lemma {:induction false} IndexBelowLastDragCount(s: Screen, gs: seq<Gesture>)
    requires Inv(s)
    ensures Run(s, gs).Some? && LastDragCount(gs).Some? ==>
              0 <= Run(s, gs).value.index < LastDragCount(gs).value
    ensures Run(s, gs).Some? && LastDragCount(gs).None? ==>
              Run(s, gs).value.index == s.index
    decreases |gs|
  {
    if gs != [] {
      var init := gs[..|gs| - 1];
      IndexBelowLastDragCount(s, init);
      RunKeepsInvariant(s, init);
    }
  }

  /** `k` forward drags move `k` photos on, wrapping around the end; `k`
      backward drags move `k` photos back, wrapping around the start. */
  lemma {:induction false} RepeatedDrags(s: Screen, translation: real, count: nat, k: nat)
    requires 0 <= s.index < count
    ensures translation <= 0.0 ==>
              Run(s, Repeat(Drag(translation, count), k)) == Some(Screen((s.index + k) % count, s.scale))
    ensures translation > 0.0 ==>
              Run(s, Repeat(Drag(translation, count), k)) == Some(Screen((s.index - k) % count, s.scale))
  {
    var g := Drag(translation, count);
    if k == 0 {
      Modular.ModOfSmall(s.index, count);
      assert Repeat(g, 0) == [];
    } else {
      RepeatedDrags(s, translation, count, k - 1);
      RepeatSplit(g, k - 1);
      if translation <= 0.0 {
        Modular.ModOfSum(s.index + (k - 1), 1, count);
      } else {
        Modular.ModOfSum(s.index - (k - 1), -1, count);
      }
    }
  }

  /** As many drags in one direction as there are photos come back to the
      same photo. */
  lemma FullCycle(s: Screen, translation: real, count: nat)
    requires 0 <= s.index < count
    ensures Run(s, Repeat(Drag(translation, count), count)) == Some(s)
  {
    RepeatedDrags(s, translation, count, count);
    Modular.ModUnique(s.index + count, count, 1, s.index);
    Modular.ModUnique(s.index - count, count, -1, s.index);
  }

  // ---------------------------------------------------------------------------
  // Zoom

  /** Two single taps restore the scale; taps never move to another photo. */
  lemma TwoSingleTapsRestore(s: Screen)
    requires IsScale(s.scale)
    ensures Run(s, [SingleTap, SingleTap]) == Some(s)
  {
  }

  /** A double tap always unzooms, whatever came before it. */
  lemma DoubleTapUnzooms(s: Screen, gs: seq<Gesture>)
    requires Run(s, gs).Some?
    ensures Run(s, gs + [DoubleTap]) == Some(Screen(Run(s, gs).value.index, Unzoomed))
  {
  }
}
