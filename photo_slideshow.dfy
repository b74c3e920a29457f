/** The gallery of the product demo (component `PhotoSlideshowMini`). It shows the uploaded
    photos (a prop, the parameter `photos` of every handler) in one of three view modes; in the
    simple mode a 5 s interval (the event `Tick`) rotates through them. Deleting a photo is two-phase:
    the click marks it with `deletingPhotoId` and schedules a 300 ms timeout; the timeout (the
    event `DeleteSettle`) calls `onPhotoDelete` and clears the marker. Timeouts of equal length fire
    in the order they were scheduled, so the scheduled deletions form a queue. */
module PhotoSlideshowMini {
  import opened Basics
  import opened Photos
  import opened Rotation

  datatype ViewMode = Simple | Fun | Presenter

  /** What the gallery shows. `IndexError` stands for the simple view reading
      `photos[currentIndex]` past the end of the list, which throws in the component. */
  datatype Screen = EmptyState | SimpleView(photo: Photo) | FunView | PresenterView | IndexError

  /** The rendered gallery for the given prop and state. */
  function Render(photos: seq<Photo>, viewMode: ViewMode, currentIndex: nat): (s: Screen)
    ensures s == EmptyState <==> photos == []
    ensures s == IndexError <==> photos != [] && viewMode == Simple && currentIndex >= |photos|
    ensures s.SimpleView? <==> viewMode == Simple && currentIndex < |photos|
    ensures s.SimpleView? ==> s.photo == photos[currentIndex]
    ensures photos != [] && viewMode == Fun ==> s == FunView
    ensures photos != [] && viewMode == Presenter ==> s == PresenterView
  {
    if photos == [] then EmptyState
    else match viewMode
      case Simple => if currentIndex < |photos| then SimpleView(photos[currentIndex]) else IndexError
      case Fun => FunView
      case Presenter => PresenterView
  }

  /** Whether the simple-mode interval is running: more than one photo and the simple view. */
  predicate AutoAdvances(photos: seq<Photo>, viewMode: ViewMode)
  {
    |photos| > 1 && viewMode == Simple
  }

  class PhotoSlideshow {
    var viewMode: ViewMode
    var currentIndex: nat
    /** Written by the tick and the dots, cleared 500 ms later; the component never reads it. */
    var isTransitioning: bool
    var deletingPhotoId: Option<int>
    /** The photos whose 300 ms delete timeout is still pending, oldest first. */
    var pendingDeletes: seq<Photo>

    constructor()
      ensures viewMode == Simple && currentIndex == 0 && !isTransitioning
      ensures deletingPhotoId == None && pendingDeletes == []
    {
      viewMode := Simple;
      currentIndex := 0;
      isTransitioning := false;
      deletingPhotoId := None;
      pendingDeletes := [];
    }

    /** The 5 s interval: advances the index modulo the number of photos, and only exists while
        there is more than one photo in the simple view. */
    method Tick(photos: seq<Photo>)
      modifies this
      ensures AutoAdvances(photos, old(viewMode)) ==>
        currentIndex == Next(old(currentIndex), |photos|) && isTransitioning
      ensures !AutoAdvances(photos, old(viewMode)) ==>
        currentIndex == old(currentIndex) && isTransitioning == old(isTransitioning)
      ensures old(currentIndex) < |photos| ==> currentIndex < |photos|
      ensures viewMode == old(viewMode) && deletingPhotoId == old(deletingPhotoId)
      ensures pendingDeletes == old(pendingDeletes)
    {
      if |photos| <= 1 || viewMode != Simple {
        return;
      }
      isTransitioning := true;
      currentIndex := Next(currentIndex, |photos|);
    }

    /** The 500 ms timeout after a transition. */
    method TransitionSettle()
      modifies this
      ensures !isTransitioning
      ensures viewMode == old(viewMode) && currentIndex == old(currentIndex)
      ensures deletingPhotoId == old(deletingPhotoId) && pendingDeletes == old(pendingDeletes)
    {
      isTransitioning := false;
    }

    /** A navigation dot: there is one per photo; selecting is never blocked by a transition. */
    method SelectDot(photos: seq<Photo>, index: nat)
      requires index < |photos|
      modifies this
      ensures currentIndex == index && currentIndex < |photos| && isTransitioning
      ensures viewMode == old(viewMode)
      ensures deletingPhotoId == old(deletingPhotoId) && pendingDeletes == old(pendingDeletes)
    {
      isTransitioning := true;
      currentIndex := index;
    }

    /** The view-mode buttons; the simple view's index is kept across mode changes. */
    method SetViewMode(mode: ViewMode)
      modifies this
      ensures viewMode == mode
      ensures currentIndex == old(currentIndex) && isTransitioning == old(isTransitioning)
      ensures deletingPhotoId == old(deletingPhotoId) && pendingDeletes == old(pendingDeletes)
    {
      viewMode := mode;
    }

    /** `handleDelete`, first phase: mark the photo and schedule its deletion. */
    method HandleDelete(photo: Photo)
      modifies this
      ensures deletingPhotoId == Some(photo.id)
      ensures pendingDeletes == old(pendingDeletes) + [photo]
      ensures viewMode == old(viewMode) && currentIndex == old(currentIndex)
      ensures isTransitioning == old(isTransitioning)
    {
      deletingPhotoId := Some(photo.id);
      pendingDeletes := pendingDeletes + [photo];
    }

    /** `handleDelete`, second phase: the oldest pending timeout fires. It calls `onPhotoDelete`
        with its photo when the prop is given (the result), and clears the marker even when a later
        deletion is still pending. */
    method DeleteSettle(hasDeleteHandler: bool) returns (deleted: Option<Photo>)
      requires pendingDeletes != []
      modifies this
      ensures deleted == if hasDeleteHandler then Some(old(pendingDeletes)[0]) else None
      ensures pendingDeletes == old(pendingDeletes)[1..]
      ensures deletingPhotoId == None
      ensures viewMode == old(viewMode) && currentIndex == old(currentIndex)
      ensures isTransitioning == old(isTransitioning)
    {
      var photo := pendingDeletes[0];
      pendingDeletes := pendingDeletes[1..];
      deleted := if hasDeleteHandler then Some(photo) else None;
      deletingPhotoId := None;
    }
  }

  /** On an unchanging list of `m > 1` photos in the simple view, the index after `k` ticks
      from the initial state is `k mod m`. */
  lemma TicksFromStart(photos: seq<Photo>, k: nat)
    requires |photos| > 1
    ensures Rotations(0, |photos|, k) == k % |photos|
    ensures Render(photos, Simple, Rotations(0, |photos|, k)) == SimpleView(photos[k % |photos|])
  {
    RotationsFromZero(|photos|, k);
  }

  /** A freshly mounted gallery in the simple view, left alone on an unchanging list of `m > 1`
      photos for `k` interval ticks: it ends on index `k mod m`. */
  method TicksOnFreshGallery(photos: seq<Photo>, k: nat) returns (index: nat)
    requires |photos| > 1
    ensures index == k % |photos|
    ensures Render(photos, Simple, index) == SimpleView(photos[k % |photos|])
  {
    var gallery := new PhotoSlideshow();
    var i := 0;
    while i < k
      invariant 0 <= i <= k
      invariant gallery.viewMode == Simple
      invariant gallery.currentIndex == Rotations(0, |photos|, i)
    {
      gallery.Tick(photos);
      i := i + 1;
    }
    TicksFromStart(photos, k);
    index := gallery.currentIndex;
  }
}
