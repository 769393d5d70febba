/**
 * The ImageSlider component of src/components/ImageSlider/ImageSlider.tsx as
 * an object whose handlers update its fields in place. Every method is proved
 * to take the object's abstract state exactly as the matching function of
 * SliderSpec does, so the trace lemmas of SliderSpec speak about this class.
 */
module ImageSlider {
  import opened Options
  import SliderSpec

  class Slider {
    // props fixed for the lifetime of the component
    const n: nat
    const circular: bool
    const swipeSupported: bool
    const touchThreshold: int

    // props that a re-render may change
    var autoPlay: bool
    var autoPlayOnHover: bool

    // React state
    var currentIndex: int
    var isTransitioning: bool
    var isHovered: bool

    // refs and DOM state
    var autoSlideTimeout: Option<nat>
    var nextHandle: nat
    var transitionSuppressed: bool
    var pendingFrames: nat
    var touchStartX: int
    var touchEndX: int
    var mounted: bool

    function Config(): SliderSpec.Config
    {
      SliderSpec.Config(n, circular, swipeSupported, touchThreshold)
    }

    /** The abstract state this object stands for. */
    function State(): SliderSpec.State
      reads this
    {
      SliderSpec.State(currentIndex, isTransitioning, isHovered, autoPlay, autoPlayOnHover,
                       autoSlideTimeout, nextHandle, transitionSuppressed, pendingFrames,
                       touchStartX, touchEndX, mounted)
    }

    /**
     * The object invariant: at least one image, timeout handles never reused,
     * and in circular mode the index within the padded array.
     */
    ghost predicate Valid()
      reads this
    {
      n >= 1 && SliderSpec.Wf(State()) && SliderSpec.CircularBounds(Config(), State())
    }

    /** Mounting: initial state, then the auto-slide effect's first run. */
    constructor (n: nat, circular: bool, autoPlay: bool, autoPlayOnHover: bool,
                 swipeSupported: bool, touchThreshold: int)
      requires n >= 1
      ensures Config() == SliderSpec.Config(n, circular, swipeSupported, touchThreshold)
      ensures State() == SliderSpec.Init(Config(), autoPlay, autoPlayOnHover)
      ensures Valid()
    {
      this.n := n;
      this.circular := circular;
      this.swipeSupported := swipeSupported;
      this.touchThreshold := touchThreshold;
      this.autoPlay := autoPlay;
      this.autoPlayOnHover := autoPlayOnHover;
      currentIndex := if circular then 1 else 0;
      isTransitioning := false;
      isHovered := false;
      autoSlideTimeout := None;
      nextHandle := 0;
      transitionSuppressed := false;
      pendingFrames := 0;
      touchStartX := 0;
      touchEndX := 0;
      mounted := true;
      new;
      ResetAutoSlide();
    }

    /** `showPrevButton`. */
    predicate ShowPrevButton()
      reads this
    {
      SliderSpec.ShowPrev(Config(), currentIndex)
    }

    /** `showNextButton`. */
    predicate ShowNextButton()
      reads this
    {
      SliderSpec.ShowNext(Config(), currentIndex)
    }

    // ------------------------------------------------------------ scheduler

    /** `startAutoSlide`: a new timeout, with a handle never used before, takes the slot. */
    method StartAutoSlide()
      modifies this
      ensures autoSlideTimeout == Some(old(nextHandle)) && nextHandle == old(nextHandle) + 1
      ensures State() == old(State()).(timer := autoSlideTimeout, nextHandle := nextHandle)
    {
      autoSlideTimeout := None;  // `clearTimeout` of the handle in the slot
      autoSlideTimeout := Some(nextHandle);
      nextHandle := nextHandle + 1;
    }

    /** `resetAutoSlide`. */
    method ResetAutoSlide()
      modifies this
      ensures State() == SliderSpec.ResetAutoSlide(old(State()))
    {
      autoSlideTimeout := None;
      if autoPlay || (autoPlayOnHover && isHovered) {
        StartAutoSlide();
      }
    }

    /** The auto-slide effect after a re-render: it runs again when a dependency changed. */
    method RunAutoSlideEffect(before: SliderSpec.Deps)
      modifies this
      ensures State() == SliderSpec.Rerender(before, old(State()))
    {
      if SliderSpec.DepsOf(State()) != before {
        ResetAutoSlide();
      }
    }

    // ----------------------------------------------------------- navigation

    /** `goToSlide`: no clamping, dropped while a transition is in flight. */
    method GoToSlide(index: int)
      modifies this
      ensures State() == SliderSpec.GoToSlide(old(State()), index)
    {
      if isTransitioning {
        return;
      }
      var before := SliderSpec.DepsOf(State());
      currentIndex := index;
      isTransitioning := true;
      RunAutoSlideEffect(before);
    }

    /** `goToNextSlide`, as the next button, a left swipe and the timeout call it. */
    method Next()
      requires Valid()
      modifies this
      ensures State() == SliderSpec.Next(old(State()))
      ensures Valid()
    {
      GoToSlide(currentIndex + 1);
    }

    /** `goToPreviousSlide`, as the previous button and a right swipe call it. */
    method Prev()
      requires Valid()
      modifies this
      ensures State() == SliderSpec.Prev(old(State()))
      ensures Valid()
    {
      GoToSlide(currentIndex - 1);
    }

    /** The pending auto-slide timeout fires. */
    method TimerFire()
      requires Valid() && autoSlideTimeout.Some?
      modifies this
      ensures State() == SliderSpec.TimerFire(old(State()))
      ensures Valid()
    {
      autoSlideTimeout := None;
      if mounted {
        Next();
      }
    }

    /** `handleTransitionEnd`. */
    method TransitionEnd()
      requires Valid()
      modifies this
      ensures State() == SliderSpec.TransitionEnd(Config(), old(State()))
      ensures Valid()
    {
      ghost var s := State();
      var before := SliderSpec.DepsOf(State());
      if !circular {
        EndTransition(before);
      } else {
        EndTransitionAndWrap(before);
      }
      SliderSpec.TransitionEndKeepsInvariants(Config(), s);
    }

    /** Non-circular mode: the transition ends and the handler returns at once. */
    method EndTransition(before: SliderSpec.Deps)
      modifies this
      ensures State() == SliderSpec.Rerender(before, old(State()).(transitioning := false))
    {
      isTransitioning := false;
      RunAutoSlideEffect(before);
    }

    /**
     * Circular mode: the transition ends, the boundary wrap runs and an
     * animation frame is requested; the effect re-runs after the handler.
     */
    method EndTransitionAndWrap(before: SliderSpec.Deps)
      modifies this
      ensures State() ==
        SliderSpec.Rerender(before, SliderSpec.WrapAndRequestFrame(Config(), old(State()).(transitioning := false)))
    {
      isTransitioning := false;
      WrapAndRequestFrame();
      RunAutoSlideEffect(before);
    }

    /** The circular part of `handleTransitionEnd`: the boundary wrap and the frame request. */
    method WrapAndRequestFrame()
      modifies this
      ensures State() == SliderSpec.WrapAndRequestFrame(Config(), old(State()))
    {
      var length: int := SliderSpec.SlideCount(Config());
      if currentIndex == 0 {
        transitionSuppressed := true;
        currentIndex := length - 2;
      } else if currentIndex == length - 1 {
        transitionSuppressed := true;
        currentIndex := 1;
      }
      pendingFrames := pendingFrames + 1;
    }

    /** The animation frame requested by `handleTransitionEnd` runs. */
    method AnimationFrame()
      requires Valid() && pendingFrames > 0
      modifies this
      ensures State() == SliderSpec.AnimationFrame(old(State()))
      ensures Valid()
    {
      pendingFrames := pendingFrames - 1;
      transitionSuppressed := false;
      ResetAutoSlide();
    }

    // ---------------------------------------------------------------- touch

    /** `handleTouchStart`. */
    method TouchStart(x: int)
      requires Valid()
      modifies this
      ensures State() == SliderSpec.TouchStart(Config(), old(State()), x)
      ensures Valid()
    {
      if !swipeSupported {
        return;
      }
      touchStartX := x;
    }

    /** `handleTouchMove`. */
    method TouchMove(x: int)
      requires Valid()
      modifies this
      ensures State() == SliderSpec.TouchMove(Config(), old(State()), x)
      ensures Valid()
    {
      if !swipeSupported {
        return;
      }
      touchEndX := x;
    }

    /** `handleTouchEnd`. */
    method TouchEnd()
      requires Valid()
      modifies this
      ensures State() == SliderSpec.TouchEnd(Config(), old(State()))
      ensures Valid()
    {
      if !swipeSupported {
        return;
      }
      var touchDiff := touchStartX - touchEndX;
      if SliderSpec.Abs(touchDiff) > touchThreshold {
        if touchDiff > 0 && ShowNextButton() {
          Next();
        } else if touchDiff < 0 && ShowPrevButton() {
          Prev();
        }
      }
    }

    // ---------------------------------------------------------------- hover

    /** `onMouseEnter`. */
    method MouseEnter()
      requires Valid()
      modifies this
      ensures State() == SliderSpec.MouseEnter(old(State()))
      ensures Valid()
    {
      var before := SliderSpec.DepsOf(State());
      isHovered := true;
      RunAutoSlideEffect(before);
    }

    /** `onMouseLeave`. */
    method MouseLeave()
      requires Valid()
      modifies this
      ensures State() == SliderSpec.MouseLeave(old(State()))
      ensures Valid()
    {
      var before := SliderSpec.DepsOf(State());
      isHovered := false;
      RunAutoSlideEffect(before);
    }

    /** A re-render with new `autoPlay`/`autoPlayOnHover` props. */
    method SetAutoPlay(autoPlay: bool, autoPlayOnHover: bool)
      requires Valid()
      modifies this
      ensures State() == SliderSpec.SetAutoPlay(old(State()), autoPlay, autoPlayOnHover)
      ensures Valid()
    {
      var before := SliderSpec.DepsOf(State());
      this.autoPlay := autoPlay;
      this.autoPlayOnHover := autoPlayOnHover;
      RunAutoSlideEffect(before);
    }

    /** Unmounting: the auto-slide effect's cleanup. */
    method Unmount()
      requires Valid()
      modifies this
      ensures State() == SliderSpec.Unmount(old(State()))
      ensures autoSlideTimeout == None
      ensures Valid()
    {
      autoSlideTimeout := None;
      mounted := false;
    }
  }

  /**
   * Three images, no auto-play, not circular: two clicks on next, each followed
   * by the end of its transition, reach the last image, where the next button
   * disappears.
   */
  method NonCircularButtonsStopAtLastImage()
  {
    var slider := new Slider(3, false, false, false, true, 50);
    assert slider.ShowNextButton() && !slider.ShowPrevButton();
    slider.Next();
    slider.TransitionEnd();
    assert slider.currentIndex == 1 && !slider.isTransitioning;
    slider.Next();
    slider.TransitionEnd();
    assert slider.currentIndex == 2 && !slider.ShowNextButton() && slider.ShowPrevButton();
    assert slider.autoSlideTimeout == None;
  }

  /**
   * Circular, three images: the previous button lands on the leading copy and
   * the transition end jumps to the real last image with the animation off,
   * until the next frame.
   */
  method CircularPreviousWrapsToLastImage()
  {
    var slider := new Slider(3, true, false, false, true, 50);
    slider.Prev();
    assert slider.currentIndex == 0 && slider.isTransitioning;
    slider.TransitionEnd();
    assert slider.currentIndex == 3 && slider.transitionSuppressed && !slider.isTransitioning;
    slider.AnimationFrame();
    assert !slider.transitionSuppressed;
  }
}
