/** The carousel's position state machine as values: one `State` holds every
    piece of state the component keeps (its React state, its two translate
    refs, the track's displayed transform and the timers it has scheduled),
    and each event is a function from the state before to the state after.
    The React effects that depend on `currentIndex` and `isDragging` run at
    the end of every event that changed one of them (`AfterRender`). */
module Position {
  import SlideBuffer

  const CARD_WIDTH: int := 300
  const MIN_DRAG_DISTANCE: int := 50
  /** A click counts as a tap only if the last drag moved at most this far. */
  const CLICK_TOLERANCE: int := 5
  const INITIAL_INDEX: int := SlideBuffer.VISIBLE_SLIDES

  function Abs(x: int): nat
  {
    if x < 0 then -x else x
  }

  /** `getTranslateX`: the track offset, in pixels, that shows `index` first. */
  function TranslateX(index: int): int
  {
    -index * CARD_WIDTH
  }

  /** Offsets and indices are in one-to-one correspondence, one card width apart. */
  lemma TranslateXIsFaithful(i: int, j: int)
    ensures TranslateX(i) == TranslateX(j) <==> i == j
    ensures TranslateX(i + 1) == TranslateX(i) - CARD_WIDTH
    ensures i >= 0 ==> TranslateX(i) <= 0
  {
  }

  datatype State = State(
    total: nat,                 // slides.length
    index: int,                 // currentIndex
    dragging: bool,             // isDragging
    hovered: bool,              // isHovered
    startX: int,                // startX
    dragDistance: nat,          // dragDistance
    prevTranslate: int,         // prevTranslateRef.current
    currentTranslate: int,      // currentTranslateRef.current
    offset: int,                // the transform last written to the track
    mounted: bool,              // carouselRef.current is attached
    pendingResets: seq<int>,    // targets of the scheduled boundary jumps, in firing order
    pendingClears: nat)         // scheduled clears of dragDistance

  /** Both refs and the displayed offset agree with the index. */
  predicate AtRest(s: State)
  {
    s.prevTranslate == TranslateX(s.index) &&
    s.currentTranslate == TranslateX(s.index) &&
    s.offset == TranslateX(s.index)
  }

  /** The component's invariant: outside a drag the track sits exactly at the
      current index. */
  predicate Settled(s: State)
  {
    s.mounted && !s.dragging ==> AtRest(s)
  }

  /** The auto-slide interval exists only while neither hovered nor dragging
      (its effect clears it otherwise), and not after unmounting. */
  predicate AutoSlideActive(s: State)
  {
    s.mounted && !s.hovered && !s.dragging
  }

  /** A click on a card opens its landing page only after (almost) no drag. */
  predicate ClickActivates(s: State)
  {
    s.dragDistance <= CLICK_TOLERANCE
  }

  /** The jumps the boundary effect schedules when the index becomes `index`:
      past the tail copy back to the first real slide, at the head copy
      forward to the same slide among the real ones. */
  function ResetsScheduledAt(total: nat, index: int): (r: seq<int>)
    ensures |r| <= 1
    ensures |r| == 1 <==> index == total + SlideBuffer.VISIBLE_SLIDES || index == 0
    ensures index == total + SlideBuffer.VISIBLE_SLIDES ==> r == [SlideBuffer.VISIBLE_SLIDES]
    ensures index == 0 ==> r == [total]
  {
    var tail := if index == total + SlideBuffer.VISIBLE_SLIDES then [SlideBuffer.VISIBLE_SLIDES as int] else [];
    var head := if index == 0 then [total as int] else [];
    tail + head
  }

  /** The effect on `currentIndex`: schedules the silent jump at a boundary. */
  function BoundaryEffect(s: State): (r: State)
    ensures r.(pendingResets := s.pendingResets) == s
    ensures s.mounted ==> r.pendingResets == s.pendingResets + ResetsScheduledAt(s.total, s.index)
    ensures !s.mounted ==> r == s
  {
    if !s.mounted then s
    else s.(pendingResets := s.pendingResets + ResetsScheduledAt(s.total, s.index))
  }

  /** The effect on `currentIndex` and `isDragging` that, outside a drag,
      snaps both refs and the track to the index. */
  function SyncEffect(s: State): (r: State)
    ensures Settled(r)
    ensures r.index == s.index && r.dragging == s.dragging && r.mounted == s.mounted
    ensures r.(prevTranslate := s.prevTranslate, currentTranslate := s.currentTranslate, offset := s.offset) == s
    ensures s.dragging || !s.mounted ==> r == s
    ensures Settled(s) ==> r == s
  {
    if !s.dragging && s.mounted then
      var translate := TranslateX(s.index);
      s.(offset := translate, prevTranslate := translate, currentTranslate := translate)
    else s
  }

  /** Running the sync twice in a row is the same as running it once. */
  lemma SyncIdempotent(s: State)
    ensures SyncEffect(SyncEffect(s)) == SyncEffect(s)
  {
  }

  /** What React runs after a handler's state updates are rendered: each
      effect only if one of its dependencies changed, in declaration order. */
  function AfterRender(s: State, prevIndex: int, wasDragging: bool): (r: State)
    ensures r.index == s.index && r.dragging == s.dragging && r.hovered == s.hovered
    ensures r.startX == s.startX && r.dragDistance == s.dragDistance
    ensures r.mounted == s.mounted && r.pendingClears == s.pendingClears && r.total == s.total
    ensures r.pendingResets ==
              if s.index != prevIndex && s.mounted
              then s.pendingResets + ResetsScheduledAt(s.total, s.index)
              else s.pendingResets
    ensures s.index != prevIndex || s.dragging != wasDragging ==> Settled(r)
    ensures Settled(s) ==> Settled(r)
    ensures s.index == prevIndex && s.dragging == wasDragging ==> r == s
  {
    var checked := if s.index != prevIndex then BoundaryEffect(s) else s;
    if s.index != prevIndex || s.dragging != wasDragging then SyncEffect(checked) else checked
  }

  /** The component on mount: index 3, both effects run once. */
  function Mount(total: nat): (r: State)
    ensures r.total == total && r.index == INITIAL_INDEX && AtRest(r) && Settled(r)
    ensures r.mounted && AutoSlideActive(r) && r.dragDistance == 0 && r.pendingClears == 0
    ensures r.pendingResets == if total == 0 then [INITIAL_INDEX] else []
  {
    var rendered := State(total, INITIAL_INDEX, false, false, 0, 0, 0, 0, TranslateX(INITIAL_INDEX), true, [], 0);
    SyncEffect(BoundaryEffect(rendered))
  }

  /** One firing of the auto-slide interval. */
  function AutoSlideTick(s: State): (r: State)
    ensures !AutoSlideActive(s) ==> r == s
    ensures AutoSlideActive(s) ==> r.index == s.index + 1 && AtRest(r) && AutoSlideActive(r)
    ensures AutoSlideActive(s) ==>
              r.pendingResets == s.pendingResets + ResetsScheduledAt(s.total, s.index + 1)
    ensures r.(index := s.index, prevTranslate := s.prevTranslate, currentTranslate := s.currentTranslate,
               offset := s.offset, pendingResets := s.pendingResets) == s
    ensures Settled(s) ==> Settled(r)
  {
    if !AutoSlideActive(s) then s
    else AfterRender(s.(index := s.index + 1), s.index, s.dragging)
  }

  /** The pointer enters the viewport: auto-advance pauses. */
  function HoverStart(s: State): (r: State)
    ensures r.hovered && !AutoSlideActive(r)
    ensures r.(hovered := s.hovered) == s
    ensures Settled(s) ==> Settled(r)
  {
    s.(hovered := true)
  }

  /** The pointer leaves the viewport: auto-advance resumes unless a drag is on. */
  function HoverEnd(s: State): (r: State)
    ensures !r.hovered && (AutoSlideActive(r) <==> s.mounted && !s.dragging)
    ensures r.(hovered := s.hovered) == s
    ensures Settled(s) ==> Settled(r)
  {
    s.(hovered := false)
  }

  /** `handleDragStart(x)`: anchors the drag at the index's offset. */
  function DragStart(s: State, x: int): (r: State)
    ensures r.dragging && r.startX == x && r.dragDistance == 0
    ensures r.prevTranslate == TranslateX(s.index) && r.currentTranslate == TranslateX(s.index)
    ensures r.(dragging := s.dragging, startX := s.startX, dragDistance := s.dragDistance,
               prevTranslate := s.prevTranslate, currentTranslate := s.currentTranslate) == s
    ensures Settled(r) && !AutoSlideActive(r)
  {
    var translate := TranslateX(s.index);
    var started := s.(dragging := true, startX := x, prevTranslate := translate,
                      currentTranslate := translate, dragDistance := 0);
    AfterRender(started, s.index, s.dragging)
  }

  /** `handleDragMove(x)`: the track follows the pointer from the anchor. */
  function DragMove(s: State, x: int): (r: State)
    ensures !s.dragging || !s.mounted ==> r == s
    ensures s.dragging && s.mounted ==>
              r.currentTranslate - r.prevTranslate == x - s.startX &&
              r.dragDistance == Abs(r.currentTranslate - r.prevTranslate) &&
              r.offset == r.currentTranslate
    ensures r.(currentTranslate := s.currentTranslate, dragDistance := s.dragDistance, offset := s.offset) == s
    ensures Settled(s) ==> Settled(r)
  {
    if !s.dragging || !s.mounted then s
    else
      var diff := x - s.startX;
      var translate := s.prevTranslate + diff;
      s.(dragDistance := Abs(diff), currentTranslate := translate, offset := translate)
  }

  /** The displacement of the track from its anchor when the drag ends. */
  function MovedBy(s: State): int
  {
    s.currentTranslate - s.prevTranslate
  }

  /** `handleDragEnd()`: commits one step against the drag direction past the
      threshold, otherwise snaps back; always schedules the dragDistance clear. */
  function DragEnd(s: State): (r: State)
    ensures !r.dragging && r.pendingClears == s.pendingClears + 1
    ensures Abs(MovedBy(s)) > MIN_DRAG_DISTANCE && MovedBy(s) < 0 ==> r.index == s.index + 1
    ensures Abs(MovedBy(s)) > MIN_DRAG_DISTANCE && MovedBy(s) > 0 ==> r.index == s.index - 1
    ensures Abs(MovedBy(s)) <= MIN_DRAG_DISTANCE ==> r.index == s.index
    ensures r.pendingResets ==
              if r.index != s.index && s.mounted
              then s.pendingResets + ResetsScheduledAt(s.total, r.index)
              else s.pendingResets
    ensures s.mounted && s.dragging ==> AtRest(r)
    ensures Settled(s) ==> Settled(r)
    ensures r.hovered == s.hovered && r.startX == s.startX && r.dragDistance == s.dragDistance
    ensures r.mounted == s.mounted && r.total == s.total
  {
    var movedBy := MovedBy(s);
    var released := s.(dragging := false, pendingClears := s.pendingClears + 1);
    var next :=
      if Abs(movedBy) > MIN_DRAG_DISTANCE then
        released.(index := if movedBy < 0 then s.index + 1 else s.index - 1)
      else if s.mounted then
        released.(offset := s.prevTranslate)
      else
        released;
    AfterRender(next, s.index, s.dragging)
  }

  /** The pointer leaves the track: ends a drag if one is on. */
  function TrackLeave(s: State): (r: State)
    ensures !r.dragging
    ensures !s.dragging ==> r == s
    ensures s.dragging ==> r == DragEnd(s)
  {
    if s.dragging then DragEnd(s) else s
  }

  /** The first scheduled boundary jump fires: it jumps, without animation,
      to the target computed when it was scheduled, whatever the index is now. */
  function FireReset(s: State): (r: State)
    requires |s.pendingResets| > 0
    ensures |r.pendingResets| >= |s.pendingResets| - 1
    ensures r.pendingResets[..|s.pendingResets| - 1] == s.pendingResets[1..]
    ensures s.mounted ==> r.index == s.pendingResets[0] && AtRest(r)
    ensures s.mounted ==>
              r.pendingResets == s.pendingResets[1..] +
                (if r.index != s.index then ResetsScheduledAt(s.total, r.index) else [])
    ensures !s.mounted ==> r == s.(pendingResets := s.pendingResets[1..])
    ensures r.dragging == s.dragging && r.hovered == s.hovered && r.startX == s.startX
    ensures r.dragDistance == s.dragDistance && r.pendingClears == s.pendingClears
    ensures r.mounted == s.mounted && r.total == s.total
    ensures Settled(r)
  {
    var target := s.pendingResets[0];
    var popped := s.(pendingResets := s.pendingResets[1..]);
    if !s.mounted then popped
    else
      var translate := TranslateX(target);
      var jumped := popped.(index := target, prevTranslate := translate,
                            currentTranslate := translate, offset := translate);
      AfterRender(jumped, s.index, s.dragging)
  }

  /** The scheduled clear of dragDistance fires. */
  function ClearDragDistance(s: State): (r: State)
    requires s.pendingClears > 0
    ensures r.dragDistance == 0 && ClickActivates(r)
    ensures r.pendingClears + 1 == s.pendingClears
    ensures r.(dragDistance := s.dragDistance, pendingClears := s.pendingClears) == s
    ensures Settled(s) ==> Settled(r)
  {
    s.(dragDistance := 0, pendingClears := s.pendingClears - 1)
  }

  /** Unmounting detaches the track; the interval is cleared with it. */
  function Unmount(s: State): (r: State)
    ensures !r.mounted && !AutoSlideActive(r) && Settled(r)
    ensures r.(mounted := s.mounted) == s
  {
    s.(mounted := false)
  }

  /** Everything that can happen to a mounted carousel, one event at a time. */
  datatype Event =
    | Tick
    | Enter
    | Leave
    | Press(x: int)
    | Drag(x: int)
    | Release
    | LeaveTrack
    | ResetDue
    | ClearDue
    | Dismount

  /** One event; a timer event with nothing scheduled cannot happen and changes nothing. */
  function Step(s: State, e: Event): State
  {
    match e
    case Tick => AutoSlideTick(s)
    case Enter => HoverStart(s)
    case Leave => HoverEnd(s)
    case Press(x) => DragStart(s, x)
    case Drag(x) => DragMove(s, x)
    case Release => DragEnd(s)
    case LeaveTrack => TrackLeave(s)
    case ResetDue => if |s.pendingResets| > 0 then FireReset(s) else s
    case ClearDue => if s.pendingClears > 0 then ClearDragDistance(s) else s
    case Dismount => Unmount(s)
  }

  function Run(s: State, events: seq<Event>): State
    decreases |events|
  {
    if events == [] then s else Run(Step(s, events[0]), events[1..])
  }

  /** Every event keeps the invariant. */
  lemma StepKeepsSettled(s: State, e: Event)
    requires Settled(s)
    ensures Settled(Step(s, e))
  {
  }

  /** Whatever events arrive, in whatever order, outside a drag the track
      shows exactly the current index. */
  lemma {:induction false} RunKeepsSettled(s: State, events: seq<Event>)
    requires Settled(s)
    ensures Settled(Run(s, events))
    decreases |events|
  {
    if events != [] {
      StepKeepsSettled(s, events[0]);
      RunKeepsSettled(Step(s, events[0]), events[1..]);
    }
  }

  /** The invariant holds in every state reachable from mounting. */
  lemma ReachableIsSettled(total: nat, events: seq<Event>)
    ensures Settled(Run(Mount(total), events))
  {
    RunKeepsSettled(Mount(total), events);
  }

  /** `k` consecutive firings of the auto-slide interval. */
  function Ticks(s: State, k: nat): State
  {
    if k == 0 then s else AutoSlideTick(Ticks(s, k - 1))
  }

  /** Undisturbed, each tick advances the index by one, and the jump back to
      index 3 is scheduled exactly when the index reaches N+3. */
  lemma {:induction false} TicksAdvance(s: State, k: nat)
    requires AutoSlideActive(s) && s.index >= 0
    ensures Ticks(s, k).index == s.index + k && Ticks(s, k).total == s.total
    ensures k > 0 ==> AtRest(Ticks(s, k))
    ensures AutoSlideActive(Ticks(s, k))
    ensures Ticks(s, k).pendingResets ==
              s.pendingResets +
              (if s.index < s.total + SlideBuffer.VISIBLE_SLIDES <= s.index + k
               then [SlideBuffer.VISIBLE_SLIDES as int] else [])
  {
    if k > 0 {
      TicksAdvance(s, k - 1);
      var before := Ticks(s, k - 1);
      assert Ticks(s, k) == AutoSlideTick(before);
      var after := Ticks(s, k);
      var added := ResetsScheduledAt(s.total, s.index + k);
      assert after.pendingResets == before.pendingResets + added;
      if s.index + k == s.total + SlideBuffer.VISIBLE_SLIDES {
        assert added == [SlideBuffer.VISIBLE_SLIDES as int];
        assert before.pendingResets == s.pendingResets;
      } else {
        assert added == [];
        assert after.pendingResets == before.pendingResets;
      }
    }
  }

  /** Six slides: six ticks from mount run the index 3, 4, ..., 9 = N+3, and
      the jump scheduled there brings it back to 3 with the track at rest. */
  lemma SixSlidesLoopAround()
    ensures Ticks(Mount(6), 6).index == 9
    ensures Ticks(Mount(6), 6).pendingResets == [3]
    ensures FireReset(Ticks(Mount(6), 6)).index == 3
    ensures AtRest(FireReset(Ticks(Mount(6), 6)))
    ensures FireReset(Ticks(Mount(6), 6)).pendingResets == []
  {
    TicksAdvance(Mount(6), 6);
  }

  /** A complete drag gesture from rest: press at `x0`, move to `x1`, release.
      Past the threshold the index moves one step against the drag direction,
      otherwise it stays; either way the track ends at rest on the index, and
      a tap is recognised only if the pointer moved at most five pixels. */
  lemma DragGesture(s: State, x0: int, x1: int)
    requires Settled(s) && s.mounted && !s.dragging
    ensures var r := DragEnd(DragMove(DragStart(s, x0), x1));
      && r.index == s.index + (if x1 - x0 < -MIN_DRAG_DISTANCE then 1
                               else if x1 - x0 > MIN_DRAG_DISTANCE then -1
                               else 0)
      && AtRest(r) && !r.dragging
      && (ClickActivates(r) <==> Abs(x1 - x0) <= CLICK_TOLERANCE)
  {
    var moved := DragMove(DragStart(s, x0), x1);
    assert MovedBy(moved) == x1 - x0;
  }

  /** Press and release with no move in between: nothing visible changes and
      a click still activates. */
  lemma TapRoundTrip(s: State, x: int)
    requires Settled(s) && s.mounted && !s.dragging
    ensures var r := DragEnd(DragStart(s, x));
      && r.index == s.index && r.offset == s.offset
      && r.prevTranslate == s.prevTranslate && r.currentTranslate == s.currentTranslate
      && !r.dragging && ClickActivates(r)
      && r.pendingResets == s.pendingResets
  {
  }

  /** A jump fired at the index that scheduled it lands on a position that
      shows the same three cards, so with at least three slides it cannot be
      seen. */
  lemma ResetIsSeamless<T>(slides: seq<T>, s: State)
    requires |slides| >= SlideBuffer.VISIBLE_SLIDES && s.total == |slides| && s.mounted
    requires |s.pendingResets| > 0
    requires s.pendingResets == ResetsScheduledAt(s.total, s.index) + s.pendingResets[1..]
    requires s.index == s.total + SlideBuffer.VISIBLE_SLIDES || s.index == 0
    ensures var r := FireReset(s);
      && 0 <= r.index && r.index + SlideBuffer.VISIBLE_SLIDES <= |SlideBuffer.ExtendedSlides(slides)|
      && SlideBuffer.Window(SlideBuffer.ExtendedSlides(slides), r.index)
         == SlideBuffer.Window(SlideBuffer.ExtendedSlides(slides), s.index)
      && r.offset == TranslateX(r.index)
  {
    SlideBuffer.BoundaryWindowsAgree(slides);
  }
}
