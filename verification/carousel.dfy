/** The `Carousel` component as an object: its React state and refs are
    fields that the handlers, the effects and the timer callbacks update in
    place. Each event method is proved to make exactly the transition that
    `Position` specifies and to keep the component's invariant; the effect
    methods are proved to match their `Position` counterparts, and
    `CardClick` only reads the state. */
module CarouselComponent {
  import SlideBuffer
  import Position

  /** One slide record; only `landingPage` matters to the behaviour. */
  datatype Slide = Slide(id: int, title: string, image: string, landingPage: string)

  datatype Option<T> = None | Some(value: T)

  class Carousel {
    const slides: seq<Slide>
    const extended: seq<Slide>

    var currentIndex: int
    var isDragging: bool
    var isHovered: bool
    var startX: int
    var dragDistance: nat
    var prevTranslate: int
    var currentTranslate: int
    /** The transform last written to the track element. */
    var offset: int
    /** Whether the track element is attached (`carouselRef.current`). */
    var mounted: bool
    /** Targets of the 350 ms boundary jumps scheduled and not yet fired. */
    var pendingResets: seq<int>
    /** The 100 ms dragDistance clears scheduled and not yet fired. */
    var pendingClears: nat

    /** The whole state as a value. */
    function Snapshot(): Position.State
      reads this
    {
      Position.State(|slides|, currentIndex, isDragging, isHovered, startX, dragDistance,
                     prevTranslate, currentTranslate, offset, mounted, pendingResets, pendingClears)
    }

    ghost predicate Valid()
      reads this
    {
      extended == SlideBuffer.ExtendedSlides(slides) && Position.Settled(Snapshot())
    }

    /** Mounting: the buffer is built, the index starts at 3 and both effects run. */
    constructor (slides: seq<Slide>)
      ensures Valid() && this.slides == slides
      ensures Snapshot() == Position.Mount(|slides|)
    {
      this.slides := slides;
      extended := SlideBuffer.ExtendedSlides(slides);
      currentIndex := Position.INITIAL_INDEX;
      isDragging, isHovered := false, false;
      startX, dragDistance := 0, 0;
      prevTranslate, currentTranslate := 0, 0;
      offset := Position.TranslateX(Position.INITIAL_INDEX);
      mounted := true;
      pendingResets, pendingClears := [], 0;
      new;
      BoundaryEffect();
      SyncEffect();
    }

    /** The effect at a boundary index: schedules the silent jump. */
    method BoundaryEffect()
      modifies this
      ensures Snapshot() == Position.BoundaryEffect(old(Snapshot()))
    {
      if !mounted {
        return;
      }
      var total := |slides|;
      if currentIndex == total + SlideBuffer.VISIBLE_SLIDES {
        pendingResets := pendingResets + [SlideBuffer.VISIBLE_SLIDES];
      }
      if currentIndex == 0 {
        pendingResets := pendingResets + [total];
      }
    }

    /** The effect that, outside a drag, puts the track and both refs on the index. */
    method SyncEffect()
      modifies this
      ensures Snapshot() == Position.SyncEffect(old(Snapshot()))
    {
      if !isDragging && mounted {
        var translate := Position.TranslateX(currentIndex);
        offset := translate;
        prevTranslate := translate;
        currentTranslate := translate;
      }
    }

    /** Runs the effects whose dependencies changed since the handler began. */
    method AfterRender(prevIndex: int, wasDragging: bool)
      modifies this
      ensures Snapshot() == Position.AfterRender(old(Snapshot()), prevIndex, wasDragging)
    {
      if currentIndex != prevIndex {
        BoundaryEffect();
      }
      if currentIndex != prevIndex || isDragging != wasDragging {
        SyncEffect();
      }
    }

    /** The auto-slide interval fires. */
    method Tick()
      requires Valid()
      modifies this
      ensures Valid()
      ensures Snapshot() == Position.AutoSlideTick(old(Snapshot()))
    {
      if !mounted || isHovered || isDragging {
        return;
      }
      var prevIndex := currentIndex;
      currentIndex := currentIndex + 1;
      AfterRender(prevIndex, isDragging);
    }

    /** `onMouseEnter` on the viewport. */
    method MouseEnter()
      requires Valid()
      modifies this
      ensures Valid()
      ensures Snapshot() == Position.HoverStart(old(Snapshot()))
    {
      isHovered := true;
    }

    /** `onMouseLeave` on the viewport. */
    method MouseLeave()
      requires Valid()
      modifies this
      ensures Valid()
      ensures Snapshot() == Position.HoverEnd(old(Snapshot()))
    {
      isHovered := false;
    }

    /** `handleDragStart(x)`, from a mouse press or a touch start. */
    method DragStart(x: int)
      requires Valid()
      modifies this
      ensures Valid()
      ensures Snapshot() == Position.DragStart(old(Snapshot()), x)
    {
      var prevIndex, wasDragging := currentIndex, isDragging;
      isDragging := true;
      startX := x;
      var startTranslate := Position.TranslateX(currentIndex);
      prevTranslate := startTranslate;
      currentTranslate := startTranslate;
      dragDistance := 0;
      AfterRender(prevIndex, wasDragging);
    }

    /** `handleDragMove(x)`, from a mouse move or a touch move. */
    method DragMove(x: int)
      requires Valid()
      modifies this
      ensures Valid()
      ensures Snapshot() == Position.DragMove(old(Snapshot()), x)
    {
      if !isDragging || !mounted {
        return;
      }
      var diff := x - startX;
      dragDistance := Position.Abs(diff);
      var newTranslate := prevTranslate + diff;
      currentTranslate := newTranslate;
      offset := newTranslate;
    }

    /** `handleDragEnd()`, from a mouse release or a touch end. */
    method DragEnd()
      requires Valid()
      modifies this
      ensures Valid()
      ensures Snapshot() == Position.DragEnd(old(Snapshot()))
    {
      var prevIndex, wasDragging := currentIndex, isDragging;
      isDragging := false;
      var movedBy := currentTranslate - prevTranslate;
      if Position.Abs(movedBy) > Position.MIN_DRAG_DISTANCE {
        currentIndex := if movedBy < 0 then currentIndex + 1 else currentIndex - 1;
      } else if mounted {
        offset := prevTranslate;
      }
      pendingClears := pendingClears + 1;
      AfterRender(prevIndex, wasDragging);
    }

    /** `onMouseLeave` on the track: ends the drag in progress, if any. */
    method TrackLeave()
      requires Valid()
      modifies this
      ensures Valid()
      ensures Snapshot() == Position.TrackLeave(old(Snapshot()))
    {
      if isDragging {
        DragEnd();
      }
    }

    /** The earliest scheduled boundary jump fires. */
    method ResetFires()
      requires Valid() && |pendingResets| > 0
      modifies this
      ensures Valid()
      ensures Snapshot() == Position.FireReset(old(Snapshot()))
    {
      var target := pendingResets[0];
      pendingResets := pendingResets[1..];
      if !mounted {
        return;
      }
      var prevIndex := currentIndex;
      currentIndex := target;
      var newTranslate := Position.TranslateX(target);
      offset := newTranslate;
      prevTranslate := newTranslate;
      currentTranslate := newTranslate;
      AfterRender(prevIndex, isDragging);
    }

    /** The earliest scheduled dragDistance clear fires. */
    method ClearFires()
      requires Valid() && pendingClears > 0
      modifies this
      ensures Valid()
      ensures Snapshot() == Position.ClearDragDistance(old(Snapshot()))
    {
      dragDistance := 0;
      pendingClears := pendingClears - 1;
    }

    /** The component unmounts: the track detaches and the interval is cleared. */
    method Unmount()
      requires Valid()
      modifies this
      ensures Valid()
      ensures Snapshot() == Position.Unmount(old(Snapshot()))
    {
      mounted := false;
    }

    /** `handleCardClick` on the card at buffer position `i`: returns the
        landing page it opens, or nothing when the click ends a drag. */
    method CardClick(i: nat) returns (page: Option<string>)
      requires i < |extended|
      ensures page.Some? <==> dragDistance <= Position.CLICK_TOLERANCE
      ensures page.Some? ==> page.value == extended[i].landingPage
    {
      if dragDistance > Position.CLICK_TOLERANCE {
        return None;
      }
      page := Some(extended[i].landingPage);
    }
  }
}
