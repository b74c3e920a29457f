/** The grouped "presenter" gallery view (component `MiniPresenterSlideshow`): the photos are cut
    into sets of `PHOTOS_PER_SET` in order and one set is shown at a time. The set index moves on a
    5 s interval (the event `Tick`), with the arrow keys and with the navigation dots; the keys and
    the dots are refused while the 500 ms transition window (ended by the event `Settle`) is open,
    the interval is not. */
module MiniPresenterSlideshow {
  import opened Photos
  import opened Rotation

  const PHOTOS_PER_SET: nat := 3

  function Min(a: int, b: int): int
  {
    if a < b then a else b
  }

  /** The sets of a list: consecutive slices of `PHOTOS_PER_SET` photos, the last one possibly
      shorter. This is the specification of `PhotoSetsOf`. */
  function Chunks(s: seq<Photo>): seq<seq<Photo>>
    decreases |s|
  {
    if s == [] then []
    else if |s| <= PHOTOS_PER_SET then [s]
    else [s[..PHOTOS_PER_SET]] + Chunks(s[PHOTOS_PER_SET..])
  }

  /** All sets joined back together. */
  function Flatten(sets: seq<seq<Photo>>): seq<Photo>
  {
    if sets == [] then [] else sets[0] + Flatten(sets[1..])
  }

  /** Set `k` is the slice `[3k, min(3k + 3, n))`, and there are `ceil(n / 3)` sets. */
  lemma {:induction false} ChunkAt(s: seq<Photo>, k: int)
    ensures |Chunks(s)| == (|s| + 2) / 3
    ensures 0 <= k < |Chunks(s)| ==>
      3 * k < |s| && Chunks(s)[k] == s[3 * k .. Min(3 * k + 3, |s|)]
    decreases |s|
  {
    if |s| > PHOTOS_PER_SET {
      var rest := s[PHOTOS_PER_SET..];
      ChunkAt(rest, k - 1);
      if 0 < k < |Chunks(s)| {
        assert Chunks(s)[k] == Chunks(rest)[k - 1];
        var lo, hi := 3 * (k - 1), Min(3 * (k - 1) + 3, |rest|);
        assert hi + 3 == Min(3 * k + 3, |s|);
        assert forall j :: lo <= j < hi ==> rest[j] == s[j + 3];
        assert rest[lo..hi] == s[lo + 3..hi + 3];
      }
    }
  }

  /** Joining the sets gives back the photo list exactly. */
  lemma {:induction false} ChunksFlatten(s: seq<Photo>)
    ensures Flatten(Chunks(s)) == s
    decreases |s|
  {
    if |s| > PHOTOS_PER_SET {
      ChunksFlatten(s[PHOTOS_PER_SET..]);
      assert s[..PHOTOS_PER_SET] + s[PHOTOS_PER_SET..] == s;
    } else if s != [] {
      assert Flatten([s]) == s + Flatten([]);
    }
  }

  /** Every set holds one to three photos; all but the last hold exactly three, and the last holds
      `n mod 3` photos when that is not 0. */
  lemma ChunkSizes(s: seq<Photo>)
    ensures forall k :: 0 <= k < |Chunks(s)| ==> 1 <= |Chunks(s)[k]| <= PHOTOS_PER_SET
    ensures forall k :: 0 <= k < |Chunks(s)| - 1 ==> |Chunks(s)[k]| == PHOTOS_PER_SET
    ensures s != [] ==> |Chunks(s)[|Chunks(s)| - 1]| == if |s| % 3 == 0 then 3 else |s| % 3
  {
    var n, m := |s|, |Chunks(s)|;
    ChunkAt(s, 0);
    SetCountBounds(n);
    forall k | 0 <= k < m
      ensures 1 <= |Chunks(s)[k]| <= PHOTOS_PER_SET
      ensures k < m - 1 ==> |Chunks(s)[k]| == PHOTOS_PER_SET
    {
      ChunkAt(s, k);
    }
    if s != [] {
      ChunkAt(s, m - 1);
    }
  }

  /** With `m = (n + 2) / 3` sets, the last set starts below `n` and holds `n mod 3` photos, or 3. */
  lemma SetCountBounds(n: nat)
    ensures var m := (n + 2) / 3; n <= 3 * m <= n + 2
    ensures n > 0 ==> var m := (n + 2) / 3;
      3 * (m - 1) < n && n - 3 * (m - 1) == if n % 3 == 0 then 3 else n % 3
  {
  }

  /** The `photoSets` memo: a loop that pushes `photos.slice(i, min(i + 3, n))` for
      `i = 0, 3, 6, ...` while `i < n`. */
  method PhotoSetsOf(photos: seq<Photo>) returns (sets: seq<seq<Photo>>)
    ensures sets == Chunks(photos)
  {
    sets := [];
    var i := 0;
    while i < |photos|
      invariant 0 <= i && i == PHOTOS_PER_SET * |sets|
      invariant i < |photos| + PHOTOS_PER_SET
      invariant forall k :: 0 <= k < |sets| ==>
        3 * k < |photos| && sets[k] == photos[3 * k .. Min(3 * k + 3, |photos|)]
    {
      sets := sets + [photos[i .. Min(i + PHOTOS_PER_SET, |photos|)]];
      i := i + PHOTOS_PER_SET;
    }
    ChunkAt(photos, 0);
    assert |sets| == |Chunks(photos)|;
    forall k | 0 <= k < |sets| ensures sets[k] == Chunks(photos)[k] {
      ChunkAt(photos, k);
    }
  }

  /** What the view shows; `SetIndexError` stands for `photoSets[currentSetIndex]` read past the
      last set (after the list shrank), which throws in the component. */
  datatype PresenterScreen = NoPhotos | ShowSet(shown: seq<Photo>) | SetIndexError

  function Render(photos: seq<Photo>, currentSetIndex: nat): (s: PresenterScreen)
    ensures s == NoPhotos <==> photos == []
    ensures s == SetIndexError <==> photos != [] && currentSetIndex >= |Chunks(photos)|
    ensures s.ShowSet? ==>
      && currentSetIndex < |Chunks(photos)|
      && s.shown == Chunks(photos)[currentSetIndex]
      && 1 <= |s.shown| <= PHOTOS_PER_SET && 3 * currentSetIndex < |photos|
      && s.shown == photos[3 * currentSetIndex .. Min(3 * currentSetIndex + 3, |photos|)]
  {
    if photos == [] then NoPhotos
    else if currentSetIndex < |Chunks(photos)| then
      ChunkAt(photos, currentSetIndex);
      ShowSet(Chunks(photos)[currentSetIndex])
    else SetIndexError
  }

  /** The arrow keys; any other key is ignored. */
  datatype Key = ArrowLeft | ArrowRight | OtherKey

  /** The counter `Set {currentSetIndex + 1} of {photoSets.length}`. */
  function SetCounter(currentSetIndex: nat, setCount: nat): (c: (int, int))
    ensures currentSetIndex < setCount ==> 1 <= c.0 <= c.1 == setCount
  {
    (currentSetIndex + 1, setCount)
  }

  class PresenterSlideshow {
    var currentSetIndex: nat
    var isTransitioning: bool

    constructor()
      ensures currentSetIndex == 0 && !isTransitioning
    {
      currentSetIndex := 0;
      isTransitioning := false;
    }

    /** The 5 s interval; it only exists while there is more than one set, and does not look at
        `isTransitioning`. */
    method Tick(photos: seq<Photo>)
      modifies this
      ensures |Chunks(photos)| <= 1 ==> unchanged(this)
      ensures |Chunks(photos)| > 1 ==>
        isTransitioning && currentSetIndex == Next(old(currentSetIndex), |Chunks(photos)|)
      ensures old(currentSetIndex) < |Chunks(photos)| ==> currentSetIndex < |Chunks(photos)|
    {
      var sets := PhotoSetsOf(photos);
      if |sets| <= 1 {
        return;
      }
      isTransitioning := true;
      currentSetIndex := Next(currentSetIndex, |sets|);
    }

    /** The 500 ms timeout that ends a transition. */
    method Settle()
      modifies this
      ensures !isTransitioning && currentSetIndex == old(currentSetIndex)
    {
      isTransitioning := false;
    }

    /** `handleKeyDown`: ignored during a transition or with at most one set; the left arrow
        steps back with wrap-around, the right arrow steps forward with wrap-around. */
    method KeyDown(photos: seq<Photo>, key: Key)
      modifies this
      ensures old(isTransitioning) || |Chunks(photos)| <= 1 || key == OtherKey ==> unchanged(this)
      ensures !old(isTransitioning) && |Chunks(photos)| > 1 && key == ArrowLeft ==>
        isTransitioning && currentSetIndex == Prev(old(currentSetIndex), |Chunks(photos)|)
      ensures !old(isTransitioning) && |Chunks(photos)| > 1 && key == ArrowRight ==>
        isTransitioning && currentSetIndex == Next(old(currentSetIndex), |Chunks(photos)|)
      ensures old(currentSetIndex) < |Chunks(photos)| ==> currentSetIndex < |Chunks(photos)|
    {
      var sets := PhotoSetsOf(photos);
      if isTransitioning || |sets| <= 1 {
        return;
      }
      if key == ArrowLeft {
        isTransitioning := true;
        currentSetIndex := Prev(currentSetIndex, |sets|);
      } else if key == ArrowRight {
        isTransitioning := true;
        currentSetIndex := Next(currentSetIndex, |sets|);
      }
    }

    /** A navigation dot (one per set): jumps to that set unless a transition is running. */
    method SelectDot(photos: seq<Photo>, index: nat)
      requires index < |Chunks(photos)|
      modifies this
      ensures old(isTransitioning) ==> unchanged(this)
      ensures !old(isTransitioning) ==> isTransitioning && currentSetIndex == index
      ensures old(currentSetIndex) < |Chunks(photos)| ==> currentSetIndex < |Chunks(photos)|
    {
      if !isTransitioning {
        isTransitioning := true;
        currentSetIndex := index;
      }
    }
  }

  /** With four photos there are two sets, `photos[0..3]` and `photos[3..4]`, and one interval
      tick from the first set shows the second. */
  lemma FourPhotos(photos: seq<Photo>)
    requires |photos| == 4
    ensures Chunks(photos) == [photos[..3], photos[3..]]
    ensures Next(0, |Chunks(photos)|) == 1
  {
    assert Chunks(photos[3..]) == [photos[3..]];
  }
}
