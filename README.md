# ImageBrowser navigation and zoom, modelled in Dafny

This project models the state behind the `ImageBrowser` photo-browsing screen
(`Assignment3/ImageBrowser.swift`). The screen shows one photo of a downloaded
list at a time. A finished horizontal drag moves to the previous photo (for a
positive translation) or the next one (for any other translation, zero
included), wrapping around both ends. A single tap toggles the zoom scale
between 1 and 1.5, and a double tap resets it to 1. The photo on screen is the
one at the current index, but only once its image bytes have been downloaded.

Modules:

- `SwiftInt` (`SwiftInt.dfy`): Swift's `Int` division and remainder. Swift
  truncates toward zero; Dafny's `/` and `%` are Euclidean. `Rem` is Swift's
  `%`. It is proved to agree with Dafny's `%` on a non-negative dividend, and
  its relation to Dafny's `%` on a negative dividend is stated exactly.
- `Modular` (`Modular.dfy`): arithmetic facts about Dafny's `%` that the
  wrap-around proofs use.
- `Browser` (`Browser.dfy`), the model itself:
  - the photo record;
  - the drag step `NextIndex`, written with Swift's `%` exactly as the handler
    computes it;
  - the `photo` lookup `CurrentPhoto`;
  - the single-tap scale;
  - a reducer over finished gestures: `Handle` for one gesture, `Run` for a
    sequence, where `None` stands for the trap;
  - the class `ImageBrowser`, whose fields `index` and `scale` are the
    screen's state and whose handler methods update them in place.
- `BrowserProperties` (`BrowserProperties.dfy`): lemmas about that model.

A drag over an empty photo list takes the remainder by zero, which traps in
Swift. The drag handler method therefore requires a non-empty list. The
reducer `Handle` yields `None` for such a drag, and `Run` yields `None` exactly
when some drag in the sequence met an empty list.

The index field is never negative. It starts at 0 and is only ever assigned a
remainder whose dividend is non-negative. The model does not assume this: it
is the invariant `Inv`, kept by every handler. `NegativeIndexLeavesRange`
shows why the invariant matters: with a negative index, Swift's `%` can give
a negative result. On the other hand, nothing keeps the index below the
photo count once the list changes under it. `CurrentPhoto` handles that case
by showing nothing.

The photo list and the downloaded bytes live in an observable object whose
source is not part of this model. Here they are passed in as a `seq<Photo>`
and a `map<PhotoId, Bytes>`. A drag's photo count is passed to the handler as
a parameter. The `owner` and `url` fields of `Photo` follow the record's
description, because its declaration is not available.

In this revision of the screen, the sign of the drag's translation picks
the direction and the index wraps modulo the photo count. Other revisions of
the same screen clamp the index at the ends instead, or step by the drag's
magnitude. Those revisions are not part of this model.

## Model

| member | source | states |
|---|---|---|
| `SwiftInt.Quot` | Assignment3/ImageBrowser.swift:61 | Swift's truncating quotient: its magnitude is the quotient of the magnitudes, and its sign is positive only when the operands agree in sign |
| `SwiftInt.Rem` | Assignment3/ImageBrowser.swift:61 | Swift's `%`: smaller in magnitude than the divisor, magnitude equal to the remainder of the magnitudes, sign that of the dividend |
| `SwiftInt.RemAgreesWhenNonNegative` | Assignment3/ImageBrowser.swift:61 | with a non-negative dividend and a positive divisor, Swift's `%` equals Dafny's Euclidean `%` |
| `SwiftInt.RemOfNegative` | Assignment3/ImageBrowser.swift:61 | with a negative dividend and a positive divisor, Swift's `%` is 0 on a multiple of the divisor and otherwise Dafny's `%` minus the divisor |
| `SwiftInt.RemDiffersWhenNegative` | Assignment3/ImageBrowser.swift:61 | the two can differ on a negative dividend: `-1 % 3` is -1 in Swift and 2 in Dafny |
| `Browser.SingleTapScale` | Assignment3/ImageBrowser.swift:43 | a single tap always yields 1 or 1.5, and yields 1.5 exactly when the scale was 1 |
| `Browser.DragStep` | Assignment3/ImageBrowser.swift:60-61 | the step is -1 exactly for a positive translation and +1 for every other translation, zero included |
| `Browser.NextIndex` | Assignment3/ImageBrowser.swift:59-61 | the new index lies in `(-count, count)` for any index; for a non-negative index it lies in `[0, count)`, even if the old index was out of range, and equals `(index - 1) mod count` after a positive translation and `(index + 1) mod count` otherwise |
| `Browser.CurrentPhoto` | Assignment3/ImageBrowser.swift:21-31 | nothing when the index is past the end of the list; inside the list, a result exactly when the data map has an entry for that photo's id, and then the result is that photo paired with its bytes |
| `Browser.Handle` | Assignment3/ImageBrowser.swift:41-64 | one finished gesture traps exactly when it is a drag over an empty list; a drag keeps the scale and, from a non-negative index, lands inside the list at the old index plus its step modulo the count; taps keep the index; a single tap gives 1.5 exactly when the scale was 1 and leaves it at 1 or 1.5; a double tap leaves it at 1; the invariant (index non-negative, scale 1 or 1.5) is preserved |
| `Browser.ImageBrowser.constructor` | Assignment3/ImageBrowser.swift:12-14 | the screen starts on index 0 at scale 1 |
| `Browser.ImageBrowser.OnDragEnded` | Assignment3/ImageBrowser.swift:59-64 | needs a non-empty list; sets the index to the previous index modulo the count for a positive translation and to the next otherwise, always inside `[0, count)`; leaves the scale alone and agrees with `Handle` |
| `Browser.ImageBrowser.OnSingleTap` | Assignment3/ImageBrowser.swift:41-44 | the scale becomes 1.5 exactly when it was 1, and 1 otherwise; the index is unchanged and the invariant kept |
| `Browser.ImageBrowser.OnDoubleTap` | Assignment3/ImageBrowser.swift:46-49 | the scale becomes 1; the index is unchanged |
| `BrowserProperties.WrapBackFromFirst` | Assignment3/ImageBrowser.swift:61 | from index 0, a positive drag gives `count - 1` |
| `BrowserProperties.WrapForwardFromLast` | Assignment3/ImageBrowser.swift:61 | from `count - 1`, a non-positive drag gives 0 |
| `BrowserProperties.StepsAreInverse` | Assignment3/ImageBrowser.swift:61 | inside the list, a backward step undoes a forward step and a forward step undoes a backward one |
| `BrowserProperties.NegativeIndexLeavesRange` | Assignment3/ImageBrowser.swift:61 | the bound needs a non-negative index: from -4 over 2 photos a positive drag gives -1 |
| `BrowserProperties.DragShowsPhotoIffLoaded` | Assignment3/ImageBrowser.swift:21-31 | after a drag over the current list the index is inside the list, so a photo is shown exactly when its bytes are in the data map |
| `BrowserProperties.AllLoadedAlwaysShown` | Assignment3/ImageBrowser.swift:22-27 | when every listed photo has bytes, every index inside the list shows its photo with those bytes |
| `BrowserProperties.RunKeepsInvariant` | Assignment3/ImageBrowser.swift:12-14 | after any sequence of gestures that does not trap, the index is still non-negative and the scale still 1 or 1.5 |
| `BrowserProperties.ReachableFromInitial` | Assignment3/ImageBrowser.swift:12-14 | every state reachable from the starting state has a non-negative index and a scale of 1 or 1.5 |
| `BrowserProperties.RunTrapsIffEmptyDrag` | Assignment3/ImageBrowser.swift:61 | a sequence of gestures traps exactly when one of its drags meets an empty photo list |
| `BrowserProperties.IndexBelowLastDragCount` | Assignment3/ImageBrowser.swift:59-64 | after any sequence of gestures, the index is below the photo count seen by the most recent drag, or is still the starting index when there was no drag |
| `BrowserProperties.RepeatedDrags` | Assignment3/ImageBrowser.swift:61 | `k` forward drags from an index in the list give `(index + k) mod count`, and `k` backward drags give `(index - k) mod count`; the scale is unchanged |
| `BrowserProperties.FullCycle` | Assignment3/ImageBrowser.swift:61 | `count` drags in one direction return to the starting state |
| `BrowserProperties.TwoSingleTapsRestore` | Assignment3/ImageBrowser.swift:43 | two single taps restore a scale of 1 or 1.5 and keep the index |
| `BrowserProperties.DoubleTapUnzooms` | Assignment3/ImageBrowser.swift:48 | after any sequence of gestures, a double tap gives scale 1 and keeps the index |

## Left out

- `Assignment3/ContentView.swift`: the image download is a network fetch, with its completion sent back to the UI thread and decoded by the platform's image library. That is I/O and concurrency through foreign libraries. The rest of that file is view composition.
- `normalizeRadians`: floating-point angle arithmetic, never called.
- The rotation gesture and the `dialAngle` / `gestureRotation` state: cosmetic floating-point angles, driven by the UI framework's gesture-state semantics.
- The view tree and its modifiers (`scaleEffect`, `rotationEffect`, `overlay`, `opacity`, `withAnimation`). `withAnimation` only animates the assignment of the new index.
- The condition on the tap recognisers. They are attached only while a photo is on screen (`Assignment3/ImageBrowser.swift:36-51`). `Browser.Handle` and `Browser.Run` accept a single or double tap in every state, photo or not. This over-approximation keeps the all-sequences lemmas sound, but the model does not capture that a tap with no photo shown does nothing.
- The simultaneous composition of the single-tap and double-tap recognisers. Which handler fires, and in what order, is up to the framework. Each handler is modelled as an independent method and gesture.
- The internals of the photo-list state object and of the photo service, whose sources are not available. They are replaced by a sequence of photos and a map from id to bytes, so the asynchronous arrival of photos and bytes is not modelled.
- The commented-out image initialiser at the end of the file.
- Browser.NextIndex: does not model Swift's trap on 64-bit overflow of `index + step + count`. Both operands are bounded by an array's length, so that overflow cannot occur there.
- Browser.DragStep: the translation is an exact real, so a CGFloat NaN or infinity is not modelled. A NaN fails `> 0` and so would step forward, like the "otherwise" case.
- Browser.ImageBrowser.OnDragEnded: the division-by-zero trap on an empty list is a precondition here. `Browser.Handle` and `Browser.Run` model the trap as `None`.
