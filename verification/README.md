# Interactive carousel: position state machine

A model of the `Carousel` React component of `interactive-carousel`. The
component shows an endlessly looping strip of slide cards. It advances on a
timer, pauses while the pointer hovers over it, and can be dragged or swiped.
Three modules:

- `SlideBuffer`: the memoised `extendedSlides` builder. It puts the last
  three slides in front of the list and the first three after it, using
  JavaScript's `slice` semantics, so a list shorter than three is repeated
  whole. The lemmas cover the buffer's length and its three segments, and
  that the buffer is a stretch of the endless repetition of the list. With
  at least three slides, the two boundary jumps land on positions showing
  the same three cards; with one or two, the window at N+3 runs past the
  buffer's end.
- `Position`: the component's state as a value (`State`). This holds the
  React state (`currentIndex`, `isDragging`, `isHovered`, `startX`,
  `dragDistance`), the two translate refs, the transform last written to the
  track, whether the track is attached, and the timers still pending.
  Each event is a function on `State`: interval tick, hover, drag
  start/move/end, track leave, boundary-jump timeout, drag-distance clear
  timeout, unmount. After each handler the two effects run, in declaration
  order, but only when one of their dependencies (`currentIndex`,
  `isDragging`) changed (`AfterRender`). The lemmas prove three things. The
  invariant "outside a drag the refs and the track sit at
  `getTranslateX(currentIndex)`" holds after any sequence of events.
  Undisturbed ticks advance the index one at a time and schedule the jump
  back exactly at N+3. A drag gesture commits one step exactly past the
  50-pixel threshold.
- `CarouselComponent`: the component as a class `Carousel` with one field per
  piece of state. Its methods update the fields step by step, as the
  handlers, effects and timer callbacks do. The ten event methods (`Tick`,
  `MouseEnter`, `MouseLeave`, `DragStart`, `DragMove`, `DragEnd`,
  `TrackLeave`, `ResetFires`, `ClearFires`, `Unmount`) are proved to perform
  exactly their `Position` function and to keep the invariant `Valid()`. The
  three effect methods (`BoundaryEffect`, `SyncEffect`, `AfterRender`) are
  proved only to match their `Position` counterparts. `CardClick` changes
  nothing: it only reads the state.

Timers are explicit events. A 350 ms boundary-jump timeout is a queue entry
holding the target computed when it was scheduled. When it fires it jumps to
that target without re-checking the index, as the code does. A 100 ms clear
is a counter. `carouselRef.current` being attached is the `mounted` flag.

The drag-commit threshold is `MIN_DRAG_DISTANCE = 50` pixels
(`src/components/Carousel/Carousel.tsx:7`). The card width is the constant
`CARD_WIDTH = 300` (`src/components/Carousel/Carousel.tsx:5`). The tail
jump happens at index N+3 and goes to 3; the head jump happens at 0 and goes
to N. Pending jumps are not cancelled on
unmount: their callbacks only check that the track is still attached.

## Model

| member | source | states |
|---|---|---|
| SlideBuffer.Slice | src/components/Carousel/Carousel.tsx:16-17 | `slice(begin, end)` never fails: in-range bounds give `s[begin..end]`, an `end` at or past the length stops at the end, a negative `begin` counts back from the end (the whole list when it reaches past the start), and crossed bounds or a `begin` past the end give the empty list |
| SlideBuffer.LastSlides | src/components/Carousel/Carousel.tsx:16 | `slice(-3)` is the last `min(N,3)` slides |
| SlideBuffer.FirstSlides | src/components/Carousel/Carousel.tsx:17 | `slice(0,3)` is the first `min(N,3)` slides |
| SlideBuffer.ExtendedSlides | src/components/Carousel/Carousel.tsx:15-19 | length `N + 2*min(N,3)`; the head is the list's last `min(N,3)`, the middle, from position `min(N,3)`, is the list itself (for N ≥ 3, `ext[3+i] == slides[i]`), the tail is its first `min(N,3)` |
| SlideBuffer.ExtendedIsPeriodic | src/components/Carousel/Carousel.tsx:15-19 | the buffer repeats with period N: position `i` shows the same slide as position `i+N` whenever both exist, so it is a stretch of the endless loop through the list |
| SlideBuffer.BoundaryWindowsAgree | src/components/Carousel/Carousel.tsx:15-19 | for N ≥ 3 the three cards at index N+3 equal those at 3 and those at 0 equal those at N; `ext[N+3] == ext[3] == slides[0]`, `ext[0] == ext[N] == slides[N-3]` |
| SlideBuffer.ShortListOverrunsWindow | src/components/Carousel/Carousel.tsx:15-19 | with one or two slides the buffer is the list three times; it is too short to show three cards at index N+3, and with one slide the initial index 3 is already past its end |
| Position.TranslateXIsFaithful | src/components/Carousel/Carousel.tsx:44-47 | `getTranslateX` is one-to-one; consecutive indices are one card width (300) apart; non-negative indices give non-positive offsets |
| Position.ResetsScheduledAt | src/components/Carousel/Carousel.tsx:67-95 | a jump is scheduled exactly at index N+3 (to 3) or at 0 (to N), never both |
| Position.BoundaryEffect | src/components/Carousel/Carousel.tsx:64-96 | with the track attached, appends the jump due at the current index to the pending ones; changes nothing else; detached, changes nothing |
| Position.SyncEffect | src/components/Carousel/Carousel.tsx:99-110 | the invariant holds afterwards; outside a drag both refs and the track are put on `getTranslateX(index)`; during a drag or when detached nothing changes; an already settled state is unchanged |
| Position.SyncIdempotent | src/components/Carousel/Carousel.tsx:99-110 | running the sync twice equals running it once |
| Position.AfterRender | src/components/Carousel/Carousel.tsx:64-110 | the effects run only when their dependencies changed; they schedule a jump only on an index change; they establish the invariant when either dependency changed and keep it otherwise |
| Position.Mount | src/components/Carousel/Carousel.tsx:28-42 | the component starts at index 3, at rest, attached, not hovered, auto-advance active; a jump is pending only for an empty list |
| Position.AutoSlideTick | src/components/Carousel/Carousel.tsx:50-60 | fires only when attached, not hovered and not dragging; then the index rises by exactly 1, the track comes to rest on it, only the jump due there is scheduled, and no other field changes |
| Position.HoverStart | src/components/Carousel/Carousel.tsx:171 | entering the viewport pauses auto-advance and changes nothing else |
| Position.HoverEnd | src/components/Carousel/Carousel.tsx:172 | leaving the viewport resumes auto-advance exactly when no drag is on, and changes nothing else |
| Position.DragStart | src/components/Carousel/Carousel.tsx:113-126 | sets dragging, `startX := x`, `dragDistance := 0`, both refs to `getTranslateX(index)`; the index, the track and everything else are unchanged; auto-advance stops |
| Position.DragMove | src/components/Carousel/Carousel.tsx:128-138 | a no-op unless dragging and attached; otherwise the displacement from the anchor equals the pointer's, the drag distance is its absolute value, the track follows; `prevTranslate` and the index are unchanged |
| Position.DragEnd | src/components/Carousel/Carousel.tsx:140-157 | clears dragging and schedules a clear; past 50 px the index rises by 1 for a leftward drag and falls by 1 for a rightward one; otherwise it is unchanged; an ended drag leaves the track at rest; only the jump due at a new index is scheduled |
| Position.TrackLeave | src/components/Carousel/Carousel.tsx:184-186 | leaving the track ends a drag in progress and otherwise changes nothing |
| Position.FireReset | src/components/Carousel/Carousel.tsx:71-94 | the oldest pending jump is consumed; when attached the index becomes its target and both refs and the track sit at the target's offset, even mid-drag; detached, only the queue changes |
| Position.ClearDragDistance | src/components/Carousel/Carousel.tsx:156 | the delayed clear zeroes the drag distance, so clicks activate again, and changes nothing else |
| Position.Unmount | src/components/Carousel/Carousel.tsx:57-59 | after unmounting the track is detached and the interval no longer fires |
| Position.StepKeepsSettled | src/components/Carousel/Carousel.tsx:99-110 | every event keeps the invariant |
| Position.RunKeepsSettled | src/components/Carousel/Carousel.tsx:99-110 | any sequence of events keeps the invariant |
| Position.ReachableIsSettled | src/components/Carousel/Carousel.tsx:99-110 | the invariant holds in every state reachable from mounting |
| Position.TicksAdvance | src/components/Carousel/Carousel.tsx:50-96 | k undisturbed ticks raise the index by exactly k and leave the track at rest; the jump back to 3 is scheduled exactly when the index passes through N+3 |
| Position.SixSlidesLoopAround | src/components/Carousel/Carousel.tsx:50-96 | with six slides, six ticks take the index from 3 to 9 with one jump pending; firing it returns to 3 at rest with nothing pending |
| Position.DragGesture | src/components/Carousel/Carousel.tsx:113-165 | press, move and release from rest: the index changes by +1 past 50 px leftward, by -1 past 50 px rightward, otherwise not; the track ends at rest; a click activates exactly when the pointer moved at most 5 px |
| Position.TapRoundTrip | src/components/Carousel/Carousel.tsx:113-157 | press then release with no move leaves the index, the offset and both refs unchanged, schedules no jump and still lets a click activate |
| Position.ResetIsSeamless | src/components/Carousel/Carousel.tsx:64-96 | for N ≥ 3, a jump fired at the index that scheduled it lands at rest on a position showing the same three cards |
| CarouselComponent.Carousel.constructor | src/components/Carousel/Carousel.tsx:14-42 | the buffer is `ExtendedSlides(slides)` and the state is `Mount(N)` |
| CarouselComponent.Carousel.BoundaryEffect | src/components/Carousel/Carousel.tsx:64-96 | the fields change exactly as `Position.BoundaryEffect` says |
| CarouselComponent.Carousel.SyncEffect | src/components/Carousel/Carousel.tsx:99-110 | the fields change exactly as `Position.SyncEffect` says |
| CarouselComponent.Carousel.AfterRender | src/components/Carousel/Carousel.tsx:64-110 | the fields change exactly as `Position.AfterRender` says |
| CarouselComponent.Carousel.Tick | src/components/Carousel/Carousel.tsx:50-60 | keeps the invariant; the fields change exactly as `Position.AutoSlideTick` says |
| CarouselComponent.Carousel.MouseEnter | src/components/Carousel/Carousel.tsx:171 | keeps the invariant; the fields change exactly as `Position.HoverStart` says |
| CarouselComponent.Carousel.MouseLeave | src/components/Carousel/Carousel.tsx:172 | keeps the invariant; the fields change exactly as `Position.HoverEnd` says |
| CarouselComponent.Carousel.DragStart | src/components/Carousel/Carousel.tsx:113-126 | keeps the invariant; the fields change exactly as `Position.DragStart` says |
| CarouselComponent.Carousel.DragMove | src/components/Carousel/Carousel.tsx:128-138 | keeps the invariant; the fields change exactly as `Position.DragMove` says |
| CarouselComponent.Carousel.DragEnd | src/components/Carousel/Carousel.tsx:140-157 | keeps the invariant; the fields change exactly as `Position.DragEnd` says |
| CarouselComponent.Carousel.TrackLeave | src/components/Carousel/Carousel.tsx:184-186 | keeps the invariant; the fields change exactly as `Position.TrackLeave` says |
| CarouselComponent.Carousel.ResetFires | src/components/Carousel/Carousel.tsx:71-94 | keeps the invariant; the fields change exactly as `Position.FireReset` says |
| CarouselComponent.Carousel.ClearFires | src/components/Carousel/Carousel.tsx:156 | keeps the invariant; the fields change exactly as `Position.ClearDragDistance` says |
| CarouselComponent.Carousel.Unmount | src/components/Carousel/Carousel.tsx:57-59 | keeps the invariant; the fields change exactly as `Position.Unmount` says |
| CarouselComponent.Carousel.CardClick | src/components/Carousel/Carousel.tsx:159-165 | a click opens the clicked card's landing page exactly when the drag distance is at most 5, and opens nothing otherwise |

## Left out

- Rendering, JSX and React's scheduling. Handlers are modelled as seeing the latest committed state. The stale values a handler's closure could capture before a re-render are not modelled.
- The `style.transition` writes (no animation, 0.35 s, 0.3 s) and every duration: the 3000 ms interval, the 350 ms jump delay and the 100 ms clear delay. Timers are explicit events and may interleave with the other events in any order. Jumps fire in the order they were scheduled, since they all use the same delay.
- Image prefetching with `new Image()` (lines 21-26). It is a fire-and-forget browser side effect.
- `window.open` and `preventDefault`. The click returns the landing page it would open instead.
- Fractional pointer coordinates. Pointer positions and offsets are integers.
- A change of the `slides` prop after mounting. The list is fixed for the object's lifetime.
- `src/data/slides.ts` (static records) and `src/App.tsx` (mounting glue) hold no logic.
