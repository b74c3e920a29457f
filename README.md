# Spevents landing-page demo state machines, modelled in Dafny

The Spevents landing page holds an interactive product demo and an event carousel. Both are
small client-side state machines. This project models them in Dafny and proves their
properties:

- **Swipe review** (`PhotoReviewMini`, module `PhotoReviewMini`):
  - One photo of a review queue is shown at a time.
  - A vertical drag released more than 50 units up uploads the photo; more than 50 units down rejects it; anything shorter is cancelled.
  - The `isProcessing` flag refuses a second commit until a 300 ms timeout ends.
  - After a commit, the cursor moves back from the last photo.
  - `onComplete` fires when at most one photo is left.
- **Product page** (`ProductPage`, module `Product`): moves photo records between the review queue `availablePhotos` and the gallery list `uploadedPhotos`, using append and filter-by-id, and shows or hides the review through `reviewCompleted`.
- **Simple gallery** (`PhotoSlideshowMini`, module `PhotoSlideshowMini`):
  - Three view modes.
  - A 5 s rotation in the simple mode.
  - Unguarded navigation dots.
  - A two-phase deletion: mark the photo, then after 300 ms call `onPhotoDelete` and clear the mark.
- **Presenter gallery** (`MiniPresenterSlideshow`, module `MiniPresenterSlideshow`):
  - The photos are cut into sets of three by a loop.
  - A 5 s interval advances the set index with wrap-around.
  - The arrow keys and the dots do the same, but are refused during a 500 ms transition window.
- **Event carousel** (`EventShowcase` in ExampleShowcase.tsx, module `ExampleShowcase`):
  - Each event keeps its own image index.
  - A horizontal drag beyond 100 units, the arrows and the dots move it, clamped to the event's images.
  - Every update writes one event's entry only.

Shared definitions live in three modules:

- `Basics`: an optional value and the absolute value.
- `Photos`: the photo record, id filtering, id uniqueness, and their lemmas.
- `Rotation`: the modular step forward and back used by both galleries.

How the source maps onto the model:

- Component state is a class with one field per `useState` variable.
- Props are the handler parameters (`photos`).
- Callbacks are handler results: the photo passed to `onPhotoAction` or `onPhotoDelete`, and whether `onComplete` was called.
- `ProductPage` applies those results to its own lists.
- Timers are explicit events:
  - `Tick` is an interval firing.
  - `Settle`, `TransitionSettle` and `DeleteSettle` are timeouts expiring.
- The gallery's delete timeouts that are still pending form a queue (`pendingDeletes`), because equal timeouts fire in the order they were scheduled.
- A stale index read past the end of a list (the source never clamps it) renders as an explicit error screen (`IndexError`, `SetIndexError`). No invariant is claimed for that case.

Notes on how the code behaves, each proved about the model:

- A rejecting (downward) swipe does not remove the photo from the review queue. `onPhotoAction` is called only for uploads, and only uploads filter `availablePhotos`, so the queue drains only through uploads. `Product.ProductPage.ReviewDragEnd` states this.
- The presenter's 5 s interval does not consult `isTransitioning`: a tick during a transition opened by a key or a dot still advances, so the flag does not keep timer and user advances apart (`MiniPresenterSlideshow.PresenterSlideshow.Tick`). Only the keys and the dots are refused while it is set.
- The simple gallery's dots are not guarded at all, and the simple view never reads its transition flag (`PhotoSlideshowMini.PhotoSlideshow.SelectDot`).
- Mounted from the page, the review cursor never leaves 0. The page always passes the current queue, and the cursor moves back only from the last photo of a queue of two or more. `Product.ProductPage.Valid` keeps this as an invariant.
- The hint texts switch to "Release to Upload/Delete" from half the threshold on (`abs(d) >= 25`), while a release up to 50 units still cancels (`PhotoReviewMini.ReleaseHintBeforeThreshold`). The overlays that carry the texts show only above 25 units (`abs(d) > 25`), so at exactly 25 the text has changed but is not visible.

## Model

| member | source | states |
|---|---|---|
| Photos.WithoutId | src/pages/landing/Product/Product.tsx:19 | the id filter keeps exactly the entries with another id, never grows the list and leaves no entry with that id |
| Photos.WithoutIdConcat | src/pages/landing/Product/Product.tsx:24 | filtering a concatenation is the concatenation of the filtered parts, so the other photos keep their relative order |
| Photos.WithoutAbsentId | src/pages/landing/Product/Product.tsx:19 | filtering an id that is not in the list changes nothing |
| Photos.WithoutIdAt | src/pages/landing/Product/Product.tsx:19 | on a list with unique ids, filtering the id of entry k removes exactly that entry and keeps every other one in order |
| Rotation.Next | src/components/slideshow_modes/MiniPresenterSlideshow.tsx:43 | `(i + 1) mod n` stays below n, is `i + 1` inside the range and wraps the last index to 0 |
| Rotation.Prev | src/components/slideshow_modes/MiniPresenterSlideshow.tsx:57 | the left arrow maps 0 to `n - 1` and any other index to its predecessor, staying below n |
| Rotation.PrevNextInverse | src/components/slideshow_modes/MiniPresenterSlideshow.tsx:55-62 | left and right arrow undo each other on every index in range |
| Rotation.RotationsFromZero | src/pages/landing/Product/minis/PhotoSlideshowMini.tsx:36 | k interval steps from index 0 give `k mod n` |
| PhotoReviewMini.Classify | src/pages/landing/Product/minis/PhotoReviewMini.tsx:48-49 | a release is an upload iff the offset is below -50, a reject iff above 50, a cancel iff within [-50, 50] |
| PhotoReviewMini.CursorAfterCommit | src/pages/landing/Product/minis/PhotoReviewMini.tsx:64-68 | with at most one photo the cursor is untouched; otherwise a cursor on (or past) the last photo is decremented by one and any other is kept, and a cursor in range ends below `n - 1`, so it stays in range once the queue shrinks by one |
| PhotoReviewMini.CompletesReview | src/pages/landing/Product/minis/PhotoReviewMini.tsx:64 | a commit calls `onComplete` exactly when at most one photo is in the queue |
| PhotoReviewMini.IsNearThreshold | src/pages/landing/Product/minis/PhotoReviewMini.tsx:79-80 | `abs(d / 50) >= 0.5` holds iff `abs(d) >= 25` |
| PhotoReviewMini.UploadOverlayVisible | src/pages/landing/Product/minis/PhotoReviewMini.tsx:110 | the upload overlay shows iff `d < -25` while dragging |
| PhotoReviewMini.DeleteOverlayVisible | src/pages/landing/Product/minis/PhotoReviewMini.tsx:126 | the delete overlay shows iff `d > 25` while dragging |
| PhotoReviewMini.UploadHint | src/pages/landing/Product/minis/PhotoReviewMini.tsx:116 | the upload text is "Release to Upload" iff `d <= -25`, and "Keep sliding up" otherwise |
| PhotoReviewMini.DeleteHint | src/pages/landing/Product/minis/PhotoReviewMini.tsx:132 | the delete text is "Release to Delete" iff `d >= 25`, and "Keep sliding down" otherwise |
| PhotoReviewMini.CommitIsAnnounced | src/pages/landing/Product/minis/PhotoReviewMini.tsx:110-132 | at every offset that would commit on release, the matching overlay shows and asks to release |
| PhotoReviewMini.ReleaseHintBeforeThreshold | src/pages/landing/Product/minis/PhotoReviewMini.tsx:116-132 | for `25 <= abs(d) <= 50` the hint already asks to release, although the release cancels |
| PhotoReviewMini.Counter | src/pages/landing/Product/minis/PhotoReviewMini.tsx:147 | the counter shows a position between 1 and the queue length |
| PhotoReviewMini.PhotoReview.constructor | src/pages/landing/Product/minis/PhotoReviewMini.tsx:40-43 | a fresh review starts at cursor 0, with no drag in progress and no commit being processed |
| PhotoReviewMini.PhotoReview.HandleDragStart | src/pages/landing/Product/minis/PhotoReviewMini.tsx:92 | starting a drag sets only `isDragging`, also while a commit is processed |
| PhotoReviewMini.PhotoReview.HandleDrag | src/pages/landing/Product/minis/PhotoReviewMini.tsx:93 | dragging records the live offset and nothing else |
| PhotoReviewMini.PhotoReview.HandlePhotoAction | src/pages/landing/Product/minis/PhotoReviewMini.tsx:56-74 | while processing it changes nothing and calls nothing; otherwise it sets `isProcessing`, calls `onPhotoAction` with the photo exactly when upward, calls `onComplete` iff at most one photo is left, adjusts the cursor and resets the drag position |
| PhotoReviewMini.PhotoReview.HandleDragEnd | src/pages/landing/Product/minis/PhotoReviewMini.tsx:45-54 | while processing nothing changes; a cancel calls no callback and keeps the cursor; a commit reports `photos[cursor]` for an upload only, completes iff at most one photo is left, and sets `isProcessing`; the drag state is reset unless processing |
| PhotoReviewMini.PhotoReview.Settle | src/pages/landing/Product/minis/PhotoReviewMini.tsx:71-73 | the 300 ms timeout clears only `isProcessing` |
| Product.UploadKeepsPartition | src/pages/landing/Product/Product.tsx:17-21 | uploading an available photo removes exactly that entry, keeping the ids unique and disjoint across both lists, the set of ids and the collection of photos |
| Product.DeleteKeepsPartition | src/pages/landing/Product/Product.tsx:23-27 | deleting an uploaded photo keeps the ids unique and disjoint across both lists and the set of ids, and the collection too when the record is the uploaded one |
| Product.ProductPage.Valid | src/pages/landing/Product/Product.tsx:13-27 | the page invariant: no id occurs twice across and within the two lists, and while the review is shown its queue is not empty and its cursor is 0 |
| Product.ProductPage.constructor | src/pages/landing/Product/Product.tsx:13-15 | the page starts with nothing uploaded, the sample photos to review and the review shown |
| Product.ProductPage.HandlePhotoUpload | src/pages/landing/Product/Product.tsx:17-21 | the photo is appended to `uploadedPhotos` and every entry with its id leaves `availablePhotos` |
| Product.ProductPage.HandlePhotoDelete | src/pages/landing/Product/Product.tsx:23-27 | as written: every entry with the id leaves `uploadedPhotos`, the photo is appended to `availablePhotos` unconditionally, and the review is re-opened |
| Product.ProductPage.HandlePhotoDeleteChecked | src/pages/landing/Product/Product.tsx:23-27 | corrected: the same move when the id is uploaded, and nothing at all otherwise |
| Product.ProductPage.CompleteReview | src/pages/landing/Product/Product.tsx:96 | `onComplete` sets `reviewCompleted` and leaves both lists alone |
| Product.ProductPage.ReviewDragStart | src/pages/landing/Product/Product.tsx:92-97 | a drag start on the shown review sets only `isDragging` and keeps the page invariant |
| Product.ProductPage.ReviewDrag | src/pages/landing/Product/Product.tsx:92-97 | a drag on the shown review keeps the page invariant and records the offset |
| Product.ProductPage.ReviewDragEnd | src/pages/landing/Product/Product.tsx:92-97 | a release keeps ids unique and disjoint, the set of ids and the collection; only an upload commit moves a photo, the head of the queue, to the end of the gallery; a reject moves nothing; the review is hidden iff a commit happens with at most one photo left; the cursor stays 0; the review's drag state is reset unless the release was ignored, in which case it is kept |
| Product.ProductPage.ReviewSettle | src/pages/landing/Product/Product.tsx:73 | the timeout of a shown review clears only `isProcessing`; a hidden review is left unchanged; the page invariant is kept |
| Product.ProductPage.GalleryDelete | src/pages/landing/Product/Product.tsx:66-70 | corrected: the gallery's `onPhotoDelete` with the checked deletion keeps the invariant and the set of ids, moves an uploaded photo back and re-opens the review with a freshly mounted interface (cursor 0, no drag, nothing processed), and ignores a photo that is no longer uploaded; the page as written wires the unchecked `handlePhotoDelete` here |
| Product.ProductPage.GalleryDeleteAsWritten | src/pages/landing/Product/Product.tsx:66-73 | the gallery's `onPhotoDelete` as wired: the unchecked deletion, and a review that was hidden is shown again as a freshly mounted interface (cursor 0, no drag, nothing processed) |
| Product.ProductPage.UploadAll | src/pages/landing/Product/Product.tsx:92-97 | n upward releases, each followed by its timeout, on a shown queue of n photos: the queue drains into the end of the gallery in order, and the review completes on the n-th release and on no earlier one |
| Product.DoubleDeleteAsWritten | src/pages/landing/Product/Product.tsx:23-27 | one upload, then a double delete click with the handler as written, leaves the first sample photo twice in the review queue, so ids are no longer unique |
| Product.DoubleDeleteChecked | src/pages/landing/Product/Product.tsx:23-27 | the same clicks with the checked handler leave the photo in the queue once, with unique ids |
| Product.DuplicateStallsReview | src/pages/landing/Product/Product.tsx:17-21 | on a queue holding one photo twice, one upward release on the review does not call `onComplete`, and the page's upload empties the queue |
| PhotoSlideshowMini.Render | src/pages/landing/Product/minis/PhotoSlideshowMini.tsx:53-67 | an empty list shows the empty state in every mode; otherwise the mode picks the view, and the simple view shows `photos[currentIndex]` or errors past the end |
| PhotoSlideshowMini.AutoAdvances | src/pages/landing/Product/minis/PhotoSlideshowMini.tsx:32 | the interval runs exactly with more than one photo in the simple mode |
| PhotoSlideshowMini.TicksFromStart | src/pages/landing/Product/minis/PhotoSlideshowMini.tsx:36 | on an unchanging list of m > 1 photos, k ticks from the start show photo `k mod m` |
| PhotoSlideshowMini.TicksOnFreshGallery | src/pages/landing/Product/minis/PhotoSlideshowMini.tsx:26-41 | k interval ticks on a freshly mounted simple gallery over m > 1 photos end on index `k mod m`, showing `photos[k mod m]` |
| PhotoSlideshowMini.PhotoSlideshow.constructor | src/pages/landing/Product/minis/PhotoSlideshowMini.tsx:26-29 | the gallery starts in simple mode at index 0 with no photo marked for deletion |
| PhotoSlideshowMini.PhotoSlideshow.Tick | src/pages/landing/Product/minis/PhotoSlideshowMini.tsx:31-41 | a tick advances the index modulo the list length exactly in simple mode with more than one photo, and otherwise changes nothing |
| PhotoSlideshowMini.PhotoSlideshow.TransitionSettle | src/pages/landing/Product/minis/PhotoSlideshowMini.tsx:37 | the 500 ms timeout clears only the transition flag |
| PhotoSlideshowMini.PhotoSlideshow.SelectDot | src/pages/landing/Product/minis/PhotoSlideshowMini.tsx:163-167 | a dot sets the index unconditionally, whatever the transition flag |
| PhotoSlideshowMini.PhotoSlideshow.SetViewMode | src/pages/landing/Product/minis/PhotoSlideshowMini.tsx:78 | a mode button sets the mode and keeps the index |
| PhotoSlideshowMini.PhotoSlideshow.HandleDelete | src/pages/landing/Product/minis/PhotoSlideshowMini.tsx:43-45 | a delete click marks the photo's id and schedules its deletion |
| PhotoSlideshowMini.PhotoSlideshow.DeleteSettle | src/pages/landing/Product/minis/PhotoSlideshowMini.tsx:45-50 | the oldest scheduled deletion fires: `onPhotoDelete` gets its photo when the prop is given, and the mark is cleared |
| MiniPresenterSlideshow.Chunks | src/components/slideshow_modes/MiniPresenterSlideshow.tsx:29-35 | the sets: consecutive slices of three photos, the last possibly shorter (the specification of the loop) |
| MiniPresenterSlideshow.ChunkAt | src/components/slideshow_modes/MiniPresenterSlideshow.tsx:29-35 | there are `ceil(n / 3)` sets, and set k is the slice `[3k, min(3k + 3, n))` |
| MiniPresenterSlideshow.ChunksFlatten | src/components/slideshow_modes/MiniPresenterSlideshow.tsx:29-35 | joining the sets gives the photo list back exactly |
| MiniPresenterSlideshow.ChunkSizes | src/components/slideshow_modes/MiniPresenterSlideshow.tsx:29-35 | every set holds 1 to 3 photos, all but the last exactly 3, and the last `n mod 3` when that is not 0 |
| MiniPresenterSlideshow.PhotoSetsOf | src/components/slideshow_modes/MiniPresenterSlideshow.tsx:29-35 | the chunking loop builds exactly the sets above |
| MiniPresenterSlideshow.Render | src/components/slideshow_modes/MiniPresenterSlideshow.tsx:70-78 | no photos show the empty message; an index in range shows that slice of 1 to 3 photos; an index past the last set errors |
| MiniPresenterSlideshow.SetCounter | src/components/slideshow_modes/MiniPresenterSlideshow.tsx:156 | the counter shows a set number between 1 and the number of sets |
| MiniPresenterSlideshow.FourPhotos | src/components/slideshow_modes/MiniPresenterSlideshow.tsx:29-45 | four photos make the sets `[0..3)` and `[3..4)`, and one tick goes from the first to the second |
| MiniPresenterSlideshow.PresenterSlideshow.constructor | src/components/slideshow_modes/MiniPresenterSlideshow.tsx:25-26 | the view starts at set 0 with no transition running |
| MiniPresenterSlideshow.PresenterSlideshow.Tick | src/components/slideshow_modes/MiniPresenterSlideshow.tsx:38-48 | with more than one set a tick advances modulo the number of sets, whatever the transition flag, and sets the flag; otherwise nothing changes; an index in range stays in range |
| MiniPresenterSlideshow.PresenterSlideshow.Settle | src/components/slideshow_modes/MiniPresenterSlideshow.tsx:44 | the 500 ms timeout clears only the transition flag |
| MiniPresenterSlideshow.PresenterSlideshow.KeyDown | src/components/slideshow_modes/MiniPresenterSlideshow.tsx:52-63 | keys are ignored during a transition or with at most one set; the left arrow steps back with wrap-around, the right arrow forward with wrap-around; other keys do nothing; an index in range stays in range |
| MiniPresenterSlideshow.PresenterSlideshow.SelectDot | src/components/slideshow_modes/MiniPresenterSlideshow.tsx:139-144 | a dot jumps to its set and opens a transition only when none is running |
| ExampleShowcase.ImageCount | src/pages/landing/Examples/ExampleShowcase.tsx:94-95 | the image count of the first event with the id, and 0 when there is none |
| ExampleShowcase.Navigate | src/pages/landing/Examples/ExampleShowcase.tsx:110-114 | prev steps back unless at 0, next steps forward unless at `len - 1`, and an index in `[0, len - 1]` stays there |
| ExampleShowcase.DragDirection | src/pages/landing/Examples/ExampleShowcase.tsx:92-98 | a release goes back iff the offset is above 100, forward iff below -100, and does nothing iff within [-100, 100] |
| ExampleShowcase.PrevDisabled | src/pages/landing/Examples/ExampleShowcase.tsx:177 | the prev button is disabled at index 0 |
| ExampleShowcase.NextDisabled | src/pages/landing/Examples/ExampleShowcase.tsx:185 | the next button is disabled at index `len - 1` |
| ExampleShowcase.DisabledIffNoMove | src/pages/landing/Examples/ExampleShowcase.tsx:177-185 | prev is disabled iff pressing it changes nothing, and so is next, except for an event without images, whose next stays enabled and does nothing |
| ExampleShowcase.MoveEntry | src/pages/landing/Examples/ExampleShowcase.tsx:97-113 | a move writes only the entry of its event, keeps the set of events, and leaves an unknown event alone |
| ExampleShowcase.Showcase.Valid | src/pages/landing/Examples/ExampleShowcase.tsx:96-114 | the carousel invariant: every event's index is within `[0, len - 1]` (0 for an event without images) |
| ExampleShowcase.Showcase.constructor | src/pages/landing/Examples/ExampleShowcase.tsx:79-81 | every event's index starts at 0 |
| ExampleShowcase.Showcase.HandleDragEnd | src/pages/landing/Examples/ExampleShowcase.tsx:87-102 | a short drag changes nothing; a long one is the matching arrow press on that event only; every index stays within its event's images |
| ExampleShowcase.Showcase.HandleImageNavigation | src/pages/landing/Examples/ExampleShowcase.tsx:103-115 | an arrow press moves that event's index by the clamped rule and nothing else; every index stays within its event's images |
| ExampleShowcase.SiteShowcase | src/pages/landing/Examples/ExampleShowcase.tsx:36-81 | the site's carousel over its two events starts with both indices at 0 |
| ExampleShowcase.Showcase.SelectImage | src/pages/landing/Examples/ExampleShowcase.tsx:158-163 | a dot sets that event's index to the dot and nothing else; every index stays within its event's images |

## Left out

- `MiniFunSlideshow` is not part of this model. Its layout comes from `Math.random()` floating-point positions; the simple gallery's fun mode is only the `FunView` screen.
- Real-time timers are not modelled. Durations, interleavings and React's re-render and effect-cleanup machinery are not modelled either; intervals and timeouts are the explicit events `Tick` and `Settle`.
- Animations, springs, opacity and scale values, and all markup are left out. This covers the landing, examples, footer, logo and routing files, and the tailwind configuration.
- `Navigation.tsx` is not part of this model: scrolling, media-query listeners and `scrollIntoView` are browser I/O.
- The roll's image list (`import.meta.glob` plus a numeric `localeCompare` sort) is a bundler feature and a collation library. The model takes its length as the parameter of `ExampleShowcase.ShowcaseEvents`.
- Drag offsets are integers; fractional pixel offsets are not modelled.
- The presenter view is unmounted and remounted (back to set 0) when the gallery's mode changes. The model does not tie the lifetime of `PresenterSlideshow` to `PhotoSlideshow.viewMode`.
- `ExampleShowcase.Showcase.HandleDragEnd`: the handlers read `currentImages` from the render they were created in, not the latest state. The model applies every event to the latest state, which is the same thing when each event is followed by a render.
- A stale index past the end of a shrunken list (`currentIndex` of the simple gallery, `currentSetIndex` of the presenter) is shown as an error screen. No in-bounds invariant is claimed; the handlers only keep an index that is in range in range for a fixed list.
- `Product.ProductPage.Valid`, and the contracts of `Product.ProductPage.ReviewDragEnd`, `ReviewSettle`, `GalleryDelete` and `UploadAll`, hold for the corrected page, whose gallery deletion is the checked one (`GalleryDelete`); the page as written deletes through `GalleryDeleteAsWritten`, which differs from it only by the membership check. The page as written can break `Valid`: `Product.DoubleDeleteAsWritten` shows a photo twice in the review queue. The as-written handlers keep the two lists' ids disjoint, but not the ids within the queue unique.
- `PhotoSlideshowMini.PhotoSlideshow.DeleteSettle`: the optional `onPhotoDelete` prop is the parameter `hasDeleteHandler`, and the call it makes is the result.
- `MiniPresenterSlideshow.PresenterSlideshow.SelectDot`: the dots exist only with more than one set, but the precondition admits index 0 with one set too, which changes nothing observable.

## Findings

| source | as written | input that shows it | evidently intended | confidence | as-written member | corrected member |
|---|---|---|---|---|---|---|
| src/pages/landing/Product/Product.tsx:23-27 | `handlePhotoDelete` appends the photo to `availablePhotos` without checking that it is still uploaded | Upload the first sample photo, then click its delete button twice within the 300 ms fade. Both timeouts call `onPhotoDelete`, and the review queue becomes `[photo 2, photo 3, photo 1, photo 1]`. Next, upload photos 2 and 3. The queue is now `[photo 1, photo 1]`, and one more upload filters both copies away without calling `onComplete`, so the review shows nothing (`Product.DuplicateStallsReview`) | a photo goes back to the review queue only while it is in the gallery, so each photo is in exactly one list once | not executed | Product.DoubleDeleteAsWritten | Product.ProductPage.HandlePhotoDeleteChecked |
