/** The product page (component `ProductPage`): the single writer of the two photo lists.
    `availablePhotos` feeds the review interface, `uploadedPhotos` feeds the gallery; an upload
    moves a photo from the first to the second, a gallery deletion moves it back and re-opens the
    review. The review interface is mounted only while `reviewCompleted` is false, and a fresh one
    (cursor 0, nothing in progress) is mounted each time the flag goes back to false. */
module Product {
  import opened Basics
  import opened Photos
  import opened PhotoReviewMini
  import opened PhotoSlideshowMini

  /** Upload of the photo at index `k` of the available list (`[...prev, photo]` on the uploaded
      list, the id filter on the available list) keeps the ids unique across both lists, removes
      exactly one entry and keeps the collection of photos. */
  lemma UploadKeepsPartition(available: seq<Photo>, uploaded: seq<Photo>, k: int)
    requires UniqueIds(available + uploaded) && 0 <= k < |available|
    ensures var p := available[k];
      && WithoutId(available, p.id) == available[..k] + available[k+1..]
      && |WithoutId(available, p.id)| == |available| - 1
      && UniqueIds(WithoutId(available, p.id) + (uploaded + [p]))
      && IdSet(WithoutId(available, p.id) + (uploaded + [p])) == IdSet(available + uploaded)
      && multiset(WithoutId(available, p.id) + (uploaded + [p])) == multiset(available + uploaded)
  {
    var p := available[k];
    var before, after := available[..k], available[k+1..];
    UniqueConcat(available, uploaded);
    WithoutIdAt(available, k);
    UniqueSplit(available, k);
    assert available == before + [p] + after;
    // the new lists are `before + after` and `uploaded + [p]`
    UniqueConcat(before + [p] + after, uploaded);
    IdSetConcat(before + [p], after);
    IdSetConcat(before, [p]);
    IdSetSingleton(p);
    IdSetConcat(before, after);
    UniqueConcat(before, after);
    UniqueConcat(uploaded, [p]);
    IdSetConcat(uploaded, [p]);
    UniqueConcat(before + after, uploaded + [p]);
    IdSetConcat(before + after, uploaded + [p]);
    IdSetConcat(available, uploaded);
    assert before + after + (uploaded + [p]) == WithoutId(available, p.id) + (uploaded + [p]);
  }

  /** Deletion of a photo whose id is that of entry `k` of the uploaded list (the id filter on the
      uploaded list, `[...prev, photo]` on the available list) keeps the ids unique across both
      lists and keeps the set of ids; when the photo is that entry, the collection is kept too. */
  lemma DeleteKeepsPartition(available: seq<Photo>, uploaded: seq<Photo>, photo: Photo, k: int)
    requires UniqueIds(available + uploaded) && 0 <= k < |uploaded| && uploaded[k].id == photo.id
    ensures WithoutId(uploaded, photo.id) == uploaded[..k] + uploaded[k+1..]
    ensures UniqueIds((available + [photo]) + WithoutId(uploaded, photo.id))
    ensures IdSet((available + [photo]) + WithoutId(uploaded, photo.id)) == IdSet(available + uploaded)
    ensures photo == uploaded[k] ==>
      multiset((available + [photo]) + WithoutId(uploaded, photo.id)) == multiset(available + uploaded)
  {
    var before, after := uploaded[..k], uploaded[k+1..];
    UniqueConcat(available, uploaded);
    WithoutIdAt(uploaded, k);
    UniqueSplit(uploaded, k);
    assert uploaded == before + [uploaded[k]] + after;
    IdSetConcat(before + [uploaded[k]], after);
    IdSetConcat(before, [uploaded[k]]);
    IdSetSingleton(uploaded[k]);
    IdSetSingleton(photo);
    IdSetConcat(before, after);
    UniqueConcat(before, after);
    UniqueConcat(available, [photo]);
    IdSetConcat(available, [photo]);
    UniqueConcat(available + [photo], before + after);
    IdSetConcat(available + [photo], before + after);
    IdSetConcat(available, uploaded);
    if photo == uploaded[k] {
      assert multiset(uploaded) == multiset(before) + multiset{photo} + multiset(after);
    }
  }

  class ProductPage {
    var uploadedPhotos: seq<Photo>
    var availablePhotos: seq<Photo>
    var reviewCompleted: bool
    /** The review interface; it is mounted while `reviewCompleted` is false. */
    var review: PhotoReview

    /** Every photo id is in at most one list, at most once; while the review interface is
        mounted it has a photo to show, under a cursor that never leaves 0 (the cursor only moves
        back from the last photo of a queue of two or more, and a fresh interface starts at 0). */
    ghost predicate Valid()
      reads this, review
    {
      && UniqueIds(availablePhotos + uploadedPhotos)
      && (!reviewCompleted ==> availablePhotos != [] && review.currentPhotoIndex == 0)
    }

    constructor()
      ensures Valid() && fresh(review)
      ensures uploadedPhotos == [] && availablePhotos == SAMPLE_PHOTOS && !reviewCompleted
      ensures !review.isProcessing && !review.isDragging && review.dragPosition == 0
    {
      uploadedPhotos := [];
      availablePhotos := SAMPLE_PHOTOS;
      reviewCompleted := false;
      review := new PhotoReview();
      new;
      assert availablePhotos + uploadedPhotos == SAMPLE_PHOTOS;
    }

    /** `handlePhotoUpload`, the review's `onPhotoAction`. */
    method HandlePhotoUpload(photo: Photo)
      modifies this
      ensures uploadedPhotos == old(uploadedPhotos) + [photo]
      ensures availablePhotos == WithoutId(old(availablePhotos), photo.id)
      ensures reviewCompleted == old(reviewCompleted) && review == old(review)
    {
      uploadedPhotos := uploadedPhotos + [photo];
      availablePhotos := WithoutId(availablePhotos, photo.id);
    }

    /** `handlePhotoDelete` as written, the gallery's `onPhotoDelete`: it appends the photo to
        the available list even when its id is no longer in the uploaded list. */
    method HandlePhotoDelete(photo: Photo)
      modifies this
      ensures uploadedPhotos == WithoutId(old(uploadedPhotos), photo.id)
      ensures availablePhotos == old(availablePhotos) + [photo]
      ensures !reviewCompleted && review == old(review)
    {
      uploadedPhotos := WithoutId(uploadedPhotos, photo.id);
      availablePhotos := availablePhotos + [photo];
      reviewCompleted := false;
    }

    /** `handlePhotoDelete` as evidently intended: a photo is moved back only while its id is
        in the uploaded list, so a repeated deletion of the same photo does nothing. */
    method HandlePhotoDeleteChecked(photo: Photo)
      modifies this
      ensures photo.id in IdSet(old(uploadedPhotos)) ==>
        && uploadedPhotos == WithoutId(old(uploadedPhotos), photo.id)
        && availablePhotos == old(availablePhotos) + [photo]
        && !reviewCompleted
      ensures photo.id !in IdSet(old(uploadedPhotos)) ==>
        && uploadedPhotos == old(uploadedPhotos) && availablePhotos == old(availablePhotos)
        && reviewCompleted == old(reviewCompleted)
      ensures review == old(review)
    {
      if photo.id in IdSet(uploadedPhotos) {
        HandlePhotoDelete(photo);
      }
    }

    /** The review's `onComplete`: hides (unmounts) the review interface. */
    method CompleteReview()
      modifies this
      ensures reviewCompleted
      ensures uploadedPhotos == old(uploadedPhotos) && availablePhotos == old(availablePhotos)
      ensures review == old(review)
    {
      reviewCompleted := true;
    }

    /** A drag starts on the review interface. */
    method ReviewDragStart()
      requires Valid() && !reviewCompleted
      modifies review
      ensures Valid() && review.isDragging
      ensures review.isProcessing == old(review.isProcessing)
      ensures review.dragPosition == old(review.dragPosition)
      ensures review.currentPhotoIndex == old(review.currentPhotoIndex)
    {
      review.HandleDragStart();
    }

    /** The review interface is dragged to `offset`. */
    method ReviewDrag(offset: int)
      requires Valid() && !reviewCompleted
      modifies review
      ensures Valid() && review.dragPosition == offset
      ensures review.isProcessing == old(review.isProcessing) && review.isDragging == old(review.isDragging)
    {
      review.HandleDrag(offset);
    }

    /** A drag on the review interface is released at `offset`, and the page applies the
        callbacks the review makes: an upward commit uploads the photo on screen, any commit on
        the last photo completes the review, a downward commit moves no photo. */
    method ReviewDragEnd(offset: int)
      requires Valid() && !reviewCompleted
      modifies this, review
      ensures Valid()
      ensures review == old(review)
      ensures IdSet(availablePhotos + uploadedPhotos) == old(IdSet(availablePhotos + uploadedPhotos))
      ensures multiset(availablePhotos + uploadedPhotos) == old(multiset(availablePhotos + uploadedPhotos))
      ensures old(review.isProcessing) || Classify(offset) != Upload ==>
        uploadedPhotos == old(uploadedPhotos) && availablePhotos == old(availablePhotos)
      ensures !old(review.isProcessing) && Classify(offset) == Upload ==>
        && uploadedPhotos == old(uploadedPhotos) + [old(availablePhotos)[0]]
        && availablePhotos == old(availablePhotos)[1..]
      ensures reviewCompleted <==>
        !old(review.isProcessing) && Classify(offset) != Cancel && |old(availablePhotos)| <= 1
      ensures review.isProcessing <==> old(review.isProcessing) || Classify(offset) != Cancel
      ensures review.currentPhotoIndex == 0
      ensures old(review.isProcessing) ==>
        review.dragPosition == old(review.dragPosition) && review.isDragging == old(review.isDragging)
      ensures !old(review.isProcessing) ==> review.dragPosition == 0 && !review.isDragging
    {
      var uploaded, completed := review.HandleDragEnd(availablePhotos, offset);
      if uploaded.Some? {
        UploadKeepsPartition(availablePhotos, uploadedPhotos, 0);
        HandlePhotoUpload(uploaded.value);
      }
      if completed {
        CompleteReview();
      }
    }

    /** The 300 ms timeout after a commit; after the review was hidden it changes nothing. */
    method ReviewSettle()
      requires Valid()
      modifies review
      ensures Valid()
      ensures reviewCompleted ==> unchanged(review)
      ensures !reviewCompleted ==>
        && !review.isProcessing
        && review.currentPhotoIndex == old(review.currentPhotoIndex)
        && review.dragPosition == old(review.dragPosition)
        && review.isDragging == old(review.isDragging)
    {
      if !reviewCompleted {
        review.Settle();
      }
    }

    /** A user who swipes every photo of the queue up, waiting out each 300 ms commit window:
        the queue drains into the gallery in order, and the review completes on the last release
        and on no earlier one. `completions[i]` is `reviewCompleted` after release `i`. */
    method UploadAll(offset: int) returns (completions: seq<bool>)
      requires Valid() && !reviewCompleted && !review.isProcessing
      requires Classify(offset) == Upload
      modifies this, review
      ensures Valid() && review == old(review)
      ensures availablePhotos == [] && reviewCompleted
      ensures uploadedPhotos == old(uploadedPhotos) + old(availablePhotos)
      ensures |completions| == |old(availablePhotos)|
      ensures forall i :: 0 <= i < |completions| ==> (completions[i] <==> i == |completions| - 1)
    {
      var queue := availablePhotos;
      completions := [];
      var i := 0;
      while i < |queue|
        invariant 0 <= i <= |queue| && |completions| == i
        invariant Valid() && review == old(review)
        invariant availablePhotos == queue[i..]
        invariant uploadedPhotos == old(uploadedPhotos) + queue[..i]
        invariant reviewCompleted <==> i == |queue|
        invariant i < |queue| ==> !review.isProcessing
        invariant forall j :: 0 <= j < i ==> (completions[j] <==> j == |queue| - 1)
      {
        ReviewDragEnd(offset);
        ReviewSettle();
        assert queue[i..][1..] == queue[i + 1..];
        assert queue[..i] + [queue[i]] == queue[..i + 1];
        completions := completions + [reviewCompleted];
        i := i + 1;
      }
      assert queue[..i] == queue;
    }

    /** The page's `onPhotoDelete` as written: the unchecked `handlePhotoDelete`, after which a
        review that was hidden is mounted afresh (its state starts over). */
    method GalleryDeleteAsWritten(photo: Photo)
      modifies this
      ensures uploadedPhotos == WithoutId(old(uploadedPhotos), photo.id)
      ensures availablePhotos == old(availablePhotos) + [photo]
      ensures !reviewCompleted
      ensures old(reviewCompleted) ==>
        && fresh(review) && !review.isProcessing && !review.isDragging
        && review.dragPosition == 0 && review.currentPhotoIndex == 0
      ensures !old(reviewCompleted) ==> review == old(review)
    {
      var wasCompleted := reviewCompleted;
      HandlePhotoDelete(photo);
      if wasCompleted {
        review := new PhotoReview();
      }
    }

    /** The gallery's delete timeout calls `onPhotoDelete(photo)` for a photo it displayed; the
        page applies the checked deletion, and a review that was hidden is mounted afresh. */
    method GalleryDelete(photo: Photo)
      requires Valid()
      modifies this
      ensures Valid()
      ensures IdSet(availablePhotos + uploadedPhotos) == old(IdSet(availablePhotos + uploadedPhotos))
      ensures photo.id in IdSet(old(uploadedPhotos)) ==>
        && uploadedPhotos == WithoutId(old(uploadedPhotos), photo.id)
        && availablePhotos == old(availablePhotos) + [photo]
        && !reviewCompleted
        && (old(reviewCompleted) ==>
             fresh(review) && !review.isProcessing && !review.isDragging
             && review.dragPosition == 0 && review.currentPhotoIndex == 0)
        && (!old(reviewCompleted) ==> review == old(review))
      ensures photo.id !in IdSet(old(uploadedPhotos)) ==>
        && uploadedPhotos == old(uploadedPhotos) && availablePhotos == old(availablePhotos)
        && reviewCompleted == old(reviewCompleted) && review == old(review)
    {
      if photo.id in IdSet(uploadedPhotos) {
        var k := IdIndex(uploadedPhotos, photo.id);
        DeleteKeepsPartition(availablePhotos, uploadedPhotos, photo, k);
        UniqueConcat(availablePhotos + [photo], WithoutId(uploadedPhotos, photo.id));
        UniqueConcat(availablePhotos, uploadedPhotos);
        IdSetConcat(availablePhotos, uploadedPhotos);
        IdSetConcat(WithoutId(uploadedPhotos, photo.id), availablePhotos + [photo]);
        UniqueConcat(WithoutId(uploadedPhotos, photo.id), availablePhotos + [photo]);
        IdSetConcat(availablePhotos + [photo], WithoutId(uploadedPhotos, photo.id));
        var wasCompleted := reviewCompleted;
        HandlePhotoDeleteChecked(photo);
        if wasCompleted {
          review := new PhotoReview();
        }
      }
    }
  }

  /** A double click on a gallery photo's delete button inside the 300 ms fade: both timeouts
      call `onPhotoDelete`, and with `handlePhotoDelete` as written the photo lands twice in the
      review queue. */
  method DoubleDeleteAsWritten() returns (available: seq<Photo>, uploaded: seq<Photo>)
    ensures available == [SAMPLE_PHOTOS[1], SAMPLE_PHOTOS[2], SAMPLE_PHOTOS[0], SAMPLE_PHOTOS[0]]
    ensures uploaded == []
    ensures !UniqueIds(available + uploaded)
  {
    var page := new ProductPage();
    page.ReviewDragEnd(-80);
    page.ReviewSettle();
    var photo := page.uploadedPhotos[0];
    assert photo == SAMPLE_PHOTOS[0] && page.availablePhotos == SAMPLE_PHOTOS[1..];
    var gallery := new PhotoSlideshow();
    gallery.HandleDelete(photo);
    gallery.HandleDelete(photo);
    var first := gallery.DeleteSettle(true);
    page.GalleryDeleteAsWritten(first.value);
    assert WithoutId([photo], photo.id) == [];
    assert page.uploadedPhotos == [] && page.availablePhotos == SAMPLE_PHOTOS[1..] + [photo];
    var second := gallery.DeleteSettle(true);
    page.GalleryDeleteAsWritten(second.value);
    available, uploaded := page.availablePhotos, page.uploadedPhotos;
    assert (available + uploaded)[2] == (available + uploaded)[3];
  }

  /** The same double click with the checked deletion: the photo is moved back once. */
  method DoubleDeleteChecked() returns (available: seq<Photo>, uploaded: seq<Photo>)
    ensures available == [SAMPLE_PHOTOS[1], SAMPLE_PHOTOS[2], SAMPLE_PHOTOS[0]]
    ensures uploaded == []
    ensures UniqueIds(available + uploaded)
  {
    var page := new ProductPage();
    page.ReviewDragEnd(-80);
    page.ReviewSettle();
    var photo := page.uploadedPhotos[0];
    assert photo == SAMPLE_PHOTOS[0] && page.availablePhotos == SAMPLE_PHOTOS[1..];
    var gallery := new PhotoSlideshow();
    gallery.HandleDelete(photo);
    gallery.HandleDelete(photo);
    var first := gallery.DeleteSettle(true);
    page.GalleryDelete(first.value);
    assert WithoutId([photo], photo.id) == [];
    assert page.uploadedPhotos == [] && page.availablePhotos == SAMPLE_PHOTOS[1..] + [photo];
    var second := gallery.DeleteSettle(true);
    page.GalleryDelete(second.value);
    available, uploaded := page.availablePhotos, page.uploadedPhotos;
  }

  /** A queue holding one photo twice, as the double deletion leaves it: one upward release on the
      review reports the photo and does not complete the review, and the page's upload then filters
      both copies away. The review interface stays shown with an empty queue, which renders
      nothing, and `onComplete` is never called. */
  method DuplicateStallsReview(p: Photo)
    returns (available: seq<Photo>, uploaded: seq<Photo>, completed: bool)
    ensures available == [] && uploaded == [p]
    ensures !completed
  {
    var page := new ProductPage();
    page.availablePhotos, page.uploadedPhotos := [p, p], [];
    var upload, complete := page.review.HandleDragEnd(page.availablePhotos, -(SWIPE_THRESHOLD + 1));
    page.HandlePhotoUpload(upload.value);
    assert WithoutId([p, p], p.id) == [];
    available, uploaded, completed := page.availablePhotos, page.uploadedPhotos, complete;
  }
}
