/** The swipe-review controller of the product demo (component `PhotoReviewMini`): one photo of
    the review queue is shown at a time; a vertical drag released more than `SWIPE_THRESHOLD`
    upwards reports the photo as uploaded, downwards rejects it, anything shorter is cancelled.
    The queue itself is a prop owned by the page: every handler takes it as the parameter `photos`,
    and the two callbacks `onPhotoAction` and `onComplete` are the handlers' results.
    The 300 ms timeout that ends the commit window is the event `Settle`. */
module PhotoReviewMini {
  import opened Basics
  import opened Photos

  const SWIPE_THRESHOLD: int := 50

  /** The demo's initial review queue. */
  const SAMPLE_PHOTOS: seq<Photo> := [
    Photo(1, "https://images.unsplash.com/photo-1730724620842-b1bb8eea6ca0?q=80&w=2970&auto=format&fit=crop&ixlib=rb-4.0.3&ixid=M3wxMjA3fDB8MHxwaG90by1wYWdlfHx8fGVufDB8fHx8fA%3D%3D"),
    Photo(2, "https://images.unsplash.com/flagged/photo-1620830102229-9db5c00d4afc?q=80&w=2970&auto=format&fit=crop&ixlib=rb-4.0.3&ixid=M3wxMjA3fDB8MHxwaG90by1wYWdlfHx8fGVufDB8fHx8fA%3D%3D"),
    Photo(3, "https://images.unsplash.com/photo-1468359601543-843bfaef291a?q=80&w=3000&auto=format&fit=crop&ixlib=rb-4.0.3&ixid=M3wxMjA3fDB8MHxwaG90by1wYWdlfHx8fGVufDB8fHx8fA%3D%3D")
  ]

  /** What a released drag means. */
  datatype SwipeOutcome = Cancel | Upload | Reject

  /** Classification of the vertical offset at which the drag was released. */
  function Classify(offset: int): (g: SwipeOutcome)
    ensures g == Cancel <==> -SWIPE_THRESHOLD <= offset <= SWIPE_THRESHOLD
    ensures g == Upload <==> offset < -SWIPE_THRESHOLD
    ensures g == Reject <==> offset > SWIPE_THRESHOLD
  {
    if Abs(offset) > SWIPE_THRESHOLD then
      if offset < 0 then Upload else Reject
    else Cancel
  }

  /** The cursor after a committed swipe on a queue of `n` photos: moved back by one when it was
      on the last photo of a queue of two or more, kept otherwise. */
  function CursorAfterCommit(cursor: int, n: int): (r: int)
    ensures n <= 1 ==> r == cursor
    ensures n >= 2 && 0 <= cursor < n ==> 0 <= r < n - 1
    ensures n >= 2 && 0 <= cursor < n - 1 ==> r == cursor
    ensures n >= 2 && cursor >= n - 1 ==> r == cursor - 1
  {
    if n <= 1 then cursor
    else if cursor >= n - 1 then cursor - 1
    else cursor
  }

  /** A committed swipe completes the review exactly when at most one photo is left. */
  predicate CompletesReview(n: int)
  {
    n <= 1
  }

  /** "Near threshold": `|dragPosition / SWIPE_THRESHOLD| >= 0.5`, computed on reals as the
      component does. */
  predicate IsNearThreshold(dragPosition: int)
    ensures IsNearThreshold(dragPosition) <==> dragPosition <= -25 || dragPosition >= 25
  {
    var ratio := dragPosition as real / SWIPE_THRESHOLD as real;
    (if ratio < 0.0 then -ratio else ratio) >= 0.5
  }

  /** The green upload overlay: `dragPosition < -SWIPE_THRESHOLD / 2 && isDragging`. */
  predicate UploadOverlayVisible(dragPosition: int, isDragging: bool)
    ensures UploadOverlayVisible(dragPosition, isDragging) <==> dragPosition < -25 && isDragging
  {
    (dragPosition as real) < -(SWIPE_THRESHOLD as real / 2.0) && isDragging
  }

  /** The red delete overlay: `dragPosition > SWIPE_THRESHOLD / 2 && isDragging`. */
  predicate DeleteOverlayVisible(dragPosition: int, isDragging: bool)
    ensures DeleteOverlayVisible(dragPosition, isDragging) <==> dragPosition > 25 && isDragging
  {
    (dragPosition as real) > SWIPE_THRESHOLD as real / 2.0 && isDragging
  }

  /** Text of the upload overlay. */
  function UploadHint(dragPosition: int): (t: string)
    ensures t == "Release to Upload" <==> dragPosition <= -25
    ensures t == "Release to Upload" || t == "Keep sliding up"
  {
    if IsNearThreshold(dragPosition) && dragPosition < 0 then "Release to Upload" else "Keep sliding up"
  }

  /** Text of the delete overlay. */
  function DeleteHint(dragPosition: int): (t: string)
    ensures t == "Release to Delete" <==> dragPosition >= 25
    ensures t == "Release to Delete" || t == "Keep sliding down"
  {
    if IsNearThreshold(dragPosition) && dragPosition > 0 then "Release to Delete" else "Keep sliding down"
  }

  /** Whenever releasing at the current drag position would commit, the matching overlay is
      showing and its hint asks to release. */
  lemma CommitIsAnnounced(dragPosition: int)
    ensures Classify(dragPosition) == Upload ==>
      UploadOverlayVisible(dragPosition, true) && UploadHint(dragPosition) == "Release to Upload"
    ensures Classify(dragPosition) == Reject ==>
      DeleteOverlayVisible(dragPosition, true) && DeleteHint(dragPosition) == "Release to Delete"
  {
  }

  /** The hints ask to release already from half the threshold on, where a release still cancels. */
  lemma ReleaseHintBeforeThreshold(dragPosition: int)
    requires 25 <= Abs(dragPosition) <= SWIPE_THRESHOLD
    ensures Classify(dragPosition) == Cancel
    ensures dragPosition < 0 ==> UploadHint(dragPosition) == "Release to Upload"
    ensures dragPosition > 0 ==> DeleteHint(dragPosition) == "Release to Delete"
  {
  }

  /** The counter `{currentPhotoIndex + 1} / {photos.length}`. */
  function Counter(cursor: int, n: int): (c: (int, int))
    ensures 0 <= cursor < n ==> 1 <= c.0 <= c.1 == n
  {
    (cursor + 1, n)
  }

  class PhotoReview {
    var currentPhotoIndex: int
    var dragPosition: int
    var isDragging: bool
    var isProcessing: bool

    /** A freshly mounted review interface. */
    constructor()
      ensures currentPhotoIndex == 0 && dragPosition == 0 && !isDragging && !isProcessing
    {
      currentPhotoIndex := 0;
      dragPosition := 0;
      isDragging := false;
      isProcessing := false;
    }

    /** `onDragStart`: not guarded by `isProcessing`. */
    method HandleDragStart()
      modifies this
      ensures isDragging
      ensures currentPhotoIndex == old(currentPhotoIndex) && dragPosition == old(dragPosition)
      ensures isProcessing == old(isProcessing)
    {
      isDragging := true;
    }

    /** `onDrag`: records the live offset, not guarded by `isProcessing`. */
    method HandleDrag(offset: int)
      modifies this
      ensures dragPosition == offset
      ensures currentPhotoIndex == old(currentPhotoIndex) && isDragging == old(isDragging)
      ensures isProcessing == old(isProcessing)
    {
      dragPosition := offset;
    }

    /** `handlePhotoAction`: commits a swipe on `photo`. Returns the photo passed to
        `onPhotoAction` (only for an upward swipe) and whether `onComplete` was called. */
    method HandlePhotoAction(photos: seq<Photo>, photo: Photo, isUpward: bool)
      returns (uploaded: Option<Photo>, completed: bool)
      modifies this
      ensures old(isProcessing) ==> unchanged(this) && uploaded == None && !completed
      ensures !old(isProcessing) ==>
        && isProcessing
        && uploaded == (if isUpward then Some(photo) else None)
        && completed == CompletesReview(|photos|)
        && currentPhotoIndex == CursorAfterCommit(old(currentPhotoIndex), |photos|)
        && dragPosition == 0
        && isDragging == old(isDragging)
    {
      uploaded, completed := None, false;
      if isProcessing {
        return;
      }
      isProcessing := true;
      if isUpward {
        uploaded := Some(photo);
      }
      if |photos| <= 1 {
        completed := true;
      } else if currentPhotoIndex >= |photos| - 1 {
        currentPhotoIndex := currentPhotoIndex - 1;
      }
      dragPosition := 0;
    }

    /** `handleDragEnd`: ignored while a commit is being processed; otherwise commits when the
        release offset is past the threshold, and always resets the drag state. The photo under
        the cursor is on screen, so the cursor is within the queue. */
    method HandleDragEnd(photos: seq<Photo>, offset: int) returns (uploaded: Option<Photo>, completed: bool)
      requires 0 <= currentPhotoIndex < |photos|
      modifies this
      ensures old(isProcessing) ==> unchanged(this) && uploaded == None && !completed
      ensures !old(isProcessing) && Classify(offset) == Cancel ==>
        && uploaded == None && !completed
        && currentPhotoIndex == old(currentPhotoIndex) && !isProcessing
        && dragPosition == 0 && !isDragging
      ensures !old(isProcessing) && Classify(offset) != Cancel ==>
        && uploaded == (if Classify(offset) == Upload then Some(photos[old(currentPhotoIndex)]) else None)
        && completed == CompletesReview(|photos|)
        && currentPhotoIndex == CursorAfterCommit(old(currentPhotoIndex), |photos|)
        && isProcessing
        && dragPosition == 0 && !isDragging
    {
      uploaded, completed := None, false;
      if isProcessing {
        return;
      }
      if Abs(offset) > SWIPE_THRESHOLD {
        var isUpward := offset < 0;
        uploaded, completed := HandlePhotoAction(photos, photos[currentPhotoIndex], isUpward);
      }
      dragPosition := 0;
      isDragging := false;
    }

    /** The 300 ms timeout after a commit: accepts gestures again. */
    method Settle()
      modifies this
      ensures !isProcessing
      ensures currentPhotoIndex == old(currentPhotoIndex) && dragPosition == old(dragPosition)
      ensures isDragging == old(isDragging)
    {
      isProcessing := false;
    }
  }
}
