/** The example-event carousel (component `EventShowcase` in ExampleShowcase.tsx): every event
    has its own image index, kept in the record `currentImages` from event id to index. A
    horizontal drag released beyond 100 units, the prev/next buttons and the dots move it; every
    update writes the entry of one event only, and the buttons never move an index out of
    `[0, images - 1]`. */
module ExampleShowcase {
  import opened Basics

  const DRAG_DISTANCE: int := 100

  /** An event of the showcase, reduced to what the carousel uses: its id and its image count. */
  datatype EventInfo = EventInfo(id: int, imageCount: nat)

  /** The showcase's table: "Mock Shaadi 2025" (id 2, one image) first, then "VABS x Roth n Roll"
      (id 1), whose images are the roll's photo files found at build time. */
  function ShowcaseEvents(rollImageCount: nat): seq<EventInfo>
  {
    [EventInfo(2, 1), EventInfo(1, rollImageCount)]
  }

  function EventIds(events: seq<EventInfo>): set<int>
  {
    set e | e in events :: e.id
  }

  /** `events.find(e => e.id === id)?.images.length || 0`: the image count of the first event
      with that id, and 0 when there is none. */
  function ImageCount(events: seq<EventInfo>, id: int): (n: nat)
    ensures (forall i :: 0 <= i < |events| ==> events[i].id != id) ==> n == 0
    ensures forall i :: 0 <= i < |events| && events[i].id == id ==>
      (forall j :: 0 <= j < i ==> events[j].id != id) ==> n == events[i].imageCount
  {
    if events == [] then 0
    else if events[0].id == id then events[0].imageCount
    else ImageCount(events[1..], id)
  }

  /** The largest index an event with `count` images can show (0 for an event without images). */
  function MaxIndex(count: nat): nat
  {
    if count > 0 then count - 1 else 0
  }

  datatype Direction = PrevImage | NextImage

  /** `handleImageNavigation` on one index: back by one unless at 0, forward by one unless at
      `count - 1`. */
  function Navigate(current: int, count: nat, dir: Direction): (r: int)
    ensures dir == PrevImage ==> (if current > 0 then r == current - 1 else r == current)
    ensures dir == NextImage ==> (if current < count - 1 then r == current + 1 else r == current)
    ensures 0 <= current <= MaxIndex(count) ==> 0 <= r <= MaxIndex(count)
  {
    match dir
    case PrevImage => if current > 0 then current - 1 else current
    case NextImage => if current < count - 1 then current + 1 else current
  }

  /** A released horizontal drag: beyond 100 units to the right it goes back, beyond 100 units to
      the left it goes forward, otherwise it does nothing. */
  function DragDirection(offsetX: int): (d: Option<Direction>)
    ensures d == None <==> -DRAG_DISTANCE <= offsetX <= DRAG_DISTANCE
    ensures d == Some(PrevImage) <==> offsetX > DRAG_DISTANCE
    ensures d == Some(NextImage) <==> offsetX < -DRAG_DISTANCE
  {
    if Abs(offsetX) > DRAG_DISTANCE then
      if offsetX > 0 then Some(PrevImage) else Some(NextImage)
    else None
  }

  /** The prev button is disabled at index 0. */
  predicate PrevDisabled(current: int)
  {
    current == 0
  }

  /** The next button is disabled at index `count - 1`. */
  predicate NextDisabled(current: int, count: nat)
  {
    current == count - 1
  }

  /** On an index in range, a button is disabled exactly when pressing it would change nothing;
      an event without images is the exception, whose next button stays enabled and does nothing. */
  lemma DisabledIffNoMove(current: int, count: nat)
    requires 0 <= current <= MaxIndex(count)
    ensures PrevDisabled(current) <==> Navigate(current, count, PrevImage) == current
    ensures count > 0 ==> (NextDisabled(current, count) <==> Navigate(current, count, NextImage) == current)
    ensures count == 0 ==> !NextDisabled(current, count) && Navigate(current, count, NextImage) == current
  {
  }

  /** The record after moving the entry of `eventId` in direction `dir`. An id without an entry
      reads as `undefined` in the component, which is neither `> 0` nor `< count - 1`, so nothing
      is written. */
  function MoveEntry(currentImages: map<int, int>, events: seq<EventInfo>, eventId: int, dir: Direction)
    : (r: map<int, int>)
    ensures r.Keys == currentImages.Keys
    ensures forall id :: id in r && id != eventId ==> r[id] == currentImages[id]
    ensures eventId in r ==> r[eventId] == Navigate(currentImages[eventId], ImageCount(events, eventId), dir)
  {
    if eventId in currentImages then
      currentImages[eventId := Navigate(currentImages[eventId], ImageCount(events, eventId), dir)]
    else currentImages
  }

  class Showcase {
    const events: seq<EventInfo>
    var currentImages: map<int, int>

    /** Every index is within its event's images. */
    ghost predicate Valid()
      reads this
    {
      forall id :: id in currentImages ==> 0 <= currentImages[id] <= MaxIndex(ImageCount(events, id))
    }

    /** `Object.fromEntries(events.map(e => [e.id, 0]))`. */
    constructor(events: seq<EventInfo>)
      ensures this.events == events && Valid()
      ensures currentImages.Keys == EventIds(events)
      ensures forall id :: id in currentImages ==> currentImages[id] == 0
    {
      this.events := events;
      currentImages := map id | id in EventIds(events) :: 0;
    }

    /** `handleDragEnd` on the carousel of `eventId`. */
    method HandleDragEnd(eventId: int, offsetX: int)
      requires Valid()
      modifies this
      ensures Valid()
      ensures DragDirection(offsetX) == None ==> currentImages == old(currentImages)
      ensures DragDirection(offsetX).Some? ==>
        currentImages == MoveEntry(old(currentImages), events, eventId, DragDirection(offsetX).value)
    {
      if Abs(offsetX) > DRAG_DISTANCE && eventId in currentImages {
        var currentImage := currentImages[eventId];
        var eventImages: int := ImageCount(events, eventId);
        if offsetX > 0 && currentImage > 0 {
          currentImages := currentImages[eventId := currentImage - 1];
        } else if offsetX < 0 && currentImage < eventImages - 1 {
          currentImages := currentImages[eventId := currentImage + 1];
        }
      }
    }

    /** `handleImageNavigation`: the prev and next arrows of the carousel of `eventId`. */
    method HandleImageNavigation(eventId: int, dir: Direction)
      requires Valid()
      modifies this
      ensures Valid()
      ensures currentImages == MoveEntry(old(currentImages), events, eventId, dir)
    {
      if eventId in currentImages {
        var currentImage := currentImages[eventId];
        var eventImages: int := ImageCount(events, eventId);
        if dir == PrevImage && currentImage > 0 {
          currentImages := currentImages[eventId := currentImage - 1];
        } else if dir == NextImage && currentImage < eventImages - 1 {
          currentImages := currentImages[eventId := currentImage + 1];
        }
      }
    }

    /** A navigation dot: there is one per image of the event. */
    method SelectImage(eventId: int, index: int)
      requires Valid() && 0 <= index < ImageCount(events, eventId)
      modifies this
      ensures Valid()
      ensures currentImages == old(currentImages)[eventId := index]
    {
      currentImages := currentImages[eventId := index];
    }
  }

  /** The site's carousel as mounted: both events start on their first image. */
  method SiteShowcase(rollImageCount: nat) returns (showcase: Showcase)
    ensures fresh(showcase) && showcase.Valid()
    ensures showcase.events == ShowcaseEvents(rollImageCount)
    ensures showcase.currentImages == map[2 := 0, 1 := 0]
  {
    showcase := new Showcase(ShowcaseEvents(rollImageCount));
    assert EventIds(ShowcaseEvents(rollImageCount)) == {2, 1} by {
      var events := ShowcaseEvents(rollImageCount);
      assert events[0] in events && events[1] in events;
    }
  }
}
