/**
 * The navigation-and-zoom state of the `ImageBrowser` screen: which photo of
 * the downloaded list is shown, how a finished horizontal drag moves to the
 * neighbouring photo (wrapping around the ends), which photo and image bytes
 * the screen displays, and the tap-to-zoom scale.
 *
 * The photo list and the downloaded image data belong to an observable
 * object that is not modelled; they appear here as a sequence of photo
 * records and a map from photo identifier to bytes.
 */
module Browser {
  import opened Wrappers
  import SwiftInt
  import Modular

  type PhotoId = string
  type Bytes = seq<bv8>

  /** A photo record as the photo-listing service delivers it. */
  datatype Photo = Photo(id: PhotoId, owner: string, url: string)

  // ---------------------------------------------------------------------------
  // Zoom scale

  /** The scale the screen starts with and returns to. */
  const Unzoomed: real := 1.0
  /** The scale a single tap zooms to. */
  const Zoomed: real := 1.5

  predicate IsScale(s: real)
  {
    s == Unzoomed || s == Zoomed
  }

  /** A single tap: 1 becomes 1.5 and any other scale becomes 1. */
  function SingleTapScale(s: real): (r: real)
    ensures IsScale(r)
    ensures r == Zoomed <==> s == Unzoomed
  {
    if s == Unzoomed then Zoomed else Unzoomed
  }

  // ---------------------------------------------------------------------------
  // Navigation

  /** The index step a finished drag asks for: back for a positive horizontal
      translation, forward for anything else, zero included. */
  function DragStep(translation: real): (step: int)
    ensures step == -1 <==> translation > 0.0
    ensures step == 1 <==> translation <= 0.0
  {
    if translation > 0.0 then -1 else 1
  }

  /** The index after a drag ends, computed as the screen computes it:
      `(index + step + count) % count` with Swift's truncating `%`. A
      non-negative index lands in `[0, count)` and moves by one step modulo
      `count`, even when it was already out of range. */
  function NextIndex(index: int, translation: real, count: int): (r: int)
    requires count > 0
    ensures -count < r < count
    ensures index >= 0 ==> 0 <= r < count
    ensures index >= 0 && translation > 0.0 ==> r == (index - 1) % count
    ensures index >= 0 && translation <= 0.0 ==> r == (index + 1) % count
  {
    var x := index + DragStep(translation) + count;
    if x >= 0 then
      SwiftInt.RemAgreesWhenNonNegative(x, count);
      Modular.ShiftByModulus(index + DragStep(translation), count);
      SwiftInt.Rem(x, count)
    else
      SwiftInt.Rem(x, count)
  }

  /** The photo on screen: the photo at `index` together with its downloaded
      bytes, or nothing when the index is past the end of the list or the
      photo's bytes have not arrived. */
  function CurrentPhoto(photos: seq<Photo>, photoData: map<PhotoId, Bytes>, index: int): (r: Option<(Photo, Bytes)>)
    requires index >= 0
    ensures index >= |photos| ==> r.None?
    ensures index < |photos| ==> (r.Some? <==> photos[index].id in photoData)
    ensures r.Some? ==> index < |photos| && r.value.0 == photos[index]
                        && r.value.1 == photoData[photos[index].id]
  {
    if index >= |photos| then None
    else
      var photo := photos[index];
      if photo.id in photoData then Some((photo, photoData[photo.id])) else None
  }

  // ---------------------------------------------------------------------------
  // The screen's state and the gestures that change it

  /** The screen's own state: the current photo index and the zoom scale. */
  datatype Screen = Screen(index: int, scale: real)

  /** The state when the screen appears: the first photo, unzoomed. */
  const Initial: Screen := Screen(0, Unzoomed)

  /** What every reachable state satisfies. */
  predicate Inv(s: Screen)
  {
    s.index >= 0 && IsScale(s.scale)
  }

  /** A finished gesture; a drag carries the photo count at that moment. */
  datatype Gesture =
    | Drag(translation: real, photoCount: nat)
    | SingleTap
    | DoubleTap

  predicate IsEmptyDrag(g: Gesture)
  {
    g.Drag? && g.photoCount == 0
  }

  /** The state after one gesture, or `None` when the handler traps: a drag
      over an empty photo list takes the remainder by zero. */
  function Handle(s: Screen, g: Gesture): (r: Option<Screen>)
    ensures r.None? <==> IsEmptyDrag(g)
    ensures r.Some? && g.Drag? ==> r.value.scale == s.scale
    ensures r.Some? && !g.Drag? ==> r.value.index == s.index && IsScale(r.value.scale)
    ensures r.Some? && g.DoubleTap? ==> r.value.scale == Unzoomed
    ensures r.Some? && Inv(s) ==> Inv(r.value)
    ensures r.Some? && g.Drag? && s.index >= 0 ==> 0 <= r.value.index < g.photoCount
    ensures r.Some? && g.Drag? && s.index >= 0 ==>
              r.value.index == (s.index + DragStep(g.translation)) % g.photoCount
    ensures r.Some? && g.SingleTap? ==> (r.value.scale == Zoomed <==> s.scale == Unzoomed)
  {
    match g
    case Drag(translation, count) =>
      if count == 0 then None else Some(Screen(NextIndex(s.index, translation, count), s.scale))
    case SingleTap => Some(Screen(s.index, SingleTapScale(s.scale)))
    case DoubleTap => Some(Screen(s.index, Unzoomed))
  }

  /** The state after a sequence of gestures, or `None` once one has trapped. */
  function Run(s: Screen, gs: seq<Gesture>): Option<Screen>
    decreases |gs|
  {
    if gs == [] then Some(s)
    else
      match Run(s, gs[..|gs| - 1])
      case None => None
      case Some(t) => Handle(t, gs[|gs| - 1])
  }

  /** The photo count seen by the most recent drag, if any. */
  function LastDragCount(gs: seq<Gesture>): Option<nat>
    decreases |gs|
  {
    if gs == [] then None
    else if gs[|gs| - 1].Drag? then Some(gs[|gs| - 1].photoCount)
    else LastDragCount(gs[..|gs| - 1])
  }

  // ---------------------------------------------------------------------------
  // The screen object, whose handlers update its state in place

  class ImageBrowser {
    var index: int
    var scale: real

    ghost predicate Valid()
      reads this
    {
      Inv(State())
    }

    function State(): Screen
      reads this
    {
      Screen(index, scale)
    }

    constructor ()
      ensures Valid()
      ensures State() == Initial
    {
      index := 0;
      scale := Unzoomed;
    }

    /** The drag `onEnded` handler; `photoCount` is the length of the photo
        list when the drag ends, and the handler traps when it is zero. */
    method OnDragEnded(translation: real, photoCount: nat)
      requires Valid()
      requires photoCount > 0
      modifies this
      ensures Valid()
      ensures Handle(old(State()), Drag(translation, photoCount)) == Some(State())
      ensures 0 <= index < photoCount
      ensures translation > 0.0 ==> index == (old(index) - 1) % photoCount
      ensures translation <= 0.0 ==> index == (old(index) + 1) % photoCount
      ensures scale == old(scale)
    {
      var change := translation;
      var newIndex := SwiftInt.Rem(index + (if change > 0.0 then -1 else 1) + photoCount, photoCount);
      assert newIndex == NextIndex(index, translation, photoCount);
      index := newIndex;
    }

    /** The single-tap handler. */
    method OnSingleTap()
      requires Valid()
      modifies this
      ensures Valid()
      ensures Handle(old(State()), SingleTap) == Some(State())
      ensures scale == Zoomed <==> old(scale) == Unzoomed
      ensures index == old(index)
    {
      scale := if scale == Unzoomed then Zoomed else Unzoomed;
    }

    /** The double-tap handler. */
    method OnDoubleTap()
      requires Valid()
      modifies this
      ensures Valid()
      ensures Handle(old(State()), DoubleTap) == Some(State())
      ensures scale == Unzoomed
      ensures index == old(index)
    {
      scale := Unzoomed;
    }
  }
}
