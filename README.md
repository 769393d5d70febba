# Slider, tab view and comment form: a Dafny model

This project models the three stateful components of a React product
catalogue, and proves properties of each:

- the image carousel `ImageSlider` (src/components/ImageSlider/ImageSlider.tsx);
- the tab switcher `TabView` (src/components/TabView/TabView.tsx);
- the review form `CommentForm` (src/components/Comments/CommentForm.tsx).

Each component is a Dafny class whose fields are its React state, refs and
props, and whose methods update those fields in place. How the methods are
specified differs by component:

- `ImageSlider` has two layers. A pure layer (module `SliderSpec`) states
  every handler as a function from the state before an event to the state
  after it. Each handler method of class `Slider` is proved to move the object's
  abstract state exactly as the matching function does, so every lemma about
  the pure layer holds for the objects too. The helper `StartAutoSlide` has no
  such function and states its effect on the fields directly.
- `TabView` has pure functions for the parts that compute: the tab filter,
  the default-tab effect (`SyncEffect`), `currentActiveTabId` and the panel
  lookup. The constructor, `RunEffect` and `Rerender` are proved against
  `SyncEffect`. `HandleTabClick` and `ClickTab` state their effect directly in
  their `ensures`, because no step function stands behind them.
- `CommentForm` has pure functions for the trim, the submit guard and
  `submitDisabled`, with lemmas relating them. The methods `SetComment`,
  `SetRating` and `HandleSubmit` state their new fields and the emitted
  submission directly in their `ensures`, in terms of those functions.

## ImageSlider

Files: `options.dfy`, `slider_spec.dfy` (module `SliderSpec`) and
`image_slider.dfy` (module `ImageSlider`, class `Slider`).

`n` is `images.length`; the model requires `n >= 1`. The state holds:

- `currentIndex`, `isTransitioning` and `isHovered`;
- the two auto-play props;
- the `autoSlideTimeout` slot, holding a handle;
- whether the content's `style.transition` was forced to `none`;
- how many `requestAnimationFrame` callbacks are still pending;
- the two touch refs;
- whether the component is mounted.

Time is a sequence of discrete events. A timeout firing and an animation
frame running are events of their own.

The auto-slide effect depends on `resetAutoSlide`, which changes identity
whenever `currentIndex`, `isTransitioning`, `isHovered`, `autoPlay`,
`autoPlayOnHover` or `autoSlideInterval` changes. The last one reaches it
through `startAutoSlide`, whose dependencies are `autoSlideInterval` and
`goToNextSlide`. The model keeps the interval fixed, so its dependency record
`Deps` holds the other five values. It folds the re-render into each
handler: when one of those five values changed, the effect cancels the
pending timeout and, if `autoPlay || (autoPlayOnHover && isHovered)`, arms a
new one. Timeout handles are never reused (`Wf`), so "re-armed" means "a
different timeout".

The model follows the code as written:

- Nothing clamps the index. The next and previous buttons and swipes are
  gated by `showNextButton` and `showPrevButton`; the timeout path is not. In
  non-circular mode with `autoPlay`, every round of timeout plus transition
  end moves one slide further, past the last image and on without bound
  (`AutoPlayIsUnbounded`, `AutoPlayPassesLastImage`).
- `autoPlayOnHover` widens `autoPlay` and does not override it. With both
  set, leaving the slider keeps auto-advance running
  (`HoverDoesNotOverrideAutoPlay`). The title of the test at
  src/components/ImageSlider/__tests__/ImageSlider.test.tsx:154 says the
  opposite. That test only reads fixed positions of the rendered array,
  whose order never changes (`HoverScenarioIndex` traces the index it
  reaches).
- Only `touchmove` writes `touchEndX`. A tap after a swipe compares with the
  old move and swipes again (`TapAfterSwipeMovesAgain`).
- `handleTransitionEnd` does not check `isTransitioning`.
- The animation frame it requests is never cancelled. It can run after
  unmounting and arm a fresh timeout (`FrameAfterUnmountRearms`). That
  timeout only finds its state updates ignored (`UnmountedStateIsFrozen`).
- Defensive clamping would keep the index within the array. The code does
  not clamp, so the model does not either.

## TabView

File: `tab_view.dfy` (module `TabView`, class `TabView`).

The children are a sequence of `<Tab>` elements, other React elements and
non-elements. The tab list keeps the `<Tab>` elements in order;
`Children.map` drops the `undefined` it returns for the others.

The internal id has three possible values: `null`, `undefined` and a string.
It is `undefined` when the default-tab effect picks an enabled element that
is not a `<Tab>` and has no `id`. That effect looks at all valid elements,
not only `<Tab>`s. A leading non-tab element therefore hides every panel, and
the effect never picks again (`LeadingOtherElementHidesEveryPanel`). The
panel stays hidden until a tab is clicked or an `activeTabId` prop is given:
a click still goes through `handleTabClick`, and a defined prop overrides the
internal id (`LeadingOtherElementScenario`).

A click on a disabled tab does nothing. An enabled one goes through
`handleTabClick`. The value of `onActiveTabChange` it would be called with is
returned as an out-parameter.

## CommentForm

File: `comment_form.dfy` (module `Comments`, class `CommentForm`).

`trim` removes the ECMAScript WhiteSpace and LineTerminator characters from
both ends. The rating is a `real`.

- `handleSubmit` emits the trimmed comment and the rating when the trimmed
  comment is non-empty and the rating is positive. It then resets the state
  to `("", 0)`.
- `submitDisabled` tests `rating === 0`, not `rating <= 0`. The two checks
  agree for ratings of zero or more (`ButtonDisabledIffGuardFails`) and
  differ for negative ones (`NegativeRatingEnablesButtonThatDoesNothing`).

## Model

| member | source | states |
|---|---|---|
| SliderSpec.DisplayArray | src/components/ImageSlider/ImageSlider.tsx:60-68 | in circular mode the rendered array is a "lastcopy" of the last image, the images in order, and a "firstcopy" of the first; otherwise the images themselves |
| SliderSpec.PaddingMirrorsWrapTargets | src/components/ImageSlider/ImageSlider.tsx:60-68 | each padding slide shows the same picture as the real slide the wrap handler jumps to from it |
| SliderSpec.SlideCountIsDisplayLength | src/components/ImageSlider/ImageSlider.tsx:111-112 | the length the wrap handler uses is the length of the rendered array |
| SliderSpec.AutoSlideEnabled | src/components/ImageSlider/ImageSlider.tsx:98 | auto-advance is on when `autoPlay` holds, or when `autoPlayOnHover` holds and the pointer is over the slider |
| SliderSpec.ResetAutoSlide | src/components/ImageSlider/ImageSlider.tsx:91-99 | a timeout is pending afterwards exactly when `autoPlay \|\| (autoPlayOnHover && isHovered)`; a pending one is replaced by a fresh one; nothing else changes |
| SliderSpec.Rerender | src/components/ImageSlider/ImageSlider.tsx:129-134 | the effect re-runs exactly when one of the five values it depends on with the interval fixed changed, then arms a timeout iff auto-advance is enabled; otherwise the state is kept |
| SliderSpec.Init | src/components/ImageSlider/ImageSlider.tsx:52-54 | mount starts at index 1 (circular) or 0, not transitioning or hovered, with a timeout pending iff `autoPlay` |
| SliderSpec.GoToSlide | src/components/ImageSlider/ImageSlider.tsx:74-81 | dropped while a transition is in flight; otherwise moves to the target unclamped, starts a transition and re-arms the timeout; nothing else changes |
| SliderSpec.Next | src/components/ImageSlider/ImageSlider.tsx:83-85 | moves one slide on from rest, and is ignored mid-transition |
| SliderSpec.Prev | src/components/ImageSlider/ImageSlider.tsx:87-89 | moves one slide back from rest, and is ignored mid-transition |
| SliderSpec.ShowPrev | src/components/ImageSlider/ImageSlider.tsx:136 | the previous button is shown, and a right swipe acts, in circular mode or when the index is above 0 |
| SliderSpec.ShowNext | src/components/ImageSlider/ImageSlider.tsx:137 | the next button is shown, and a left swipe acts, in circular mode or when the index is below `images.length - 1` |
| SliderSpec.GatesMatchRange | src/components/ImageSlider/ImageSlider.tsx:136-137 | in non-circular mode each button is shown exactly when its target is a real slide |
| SliderSpec.TimerFire | src/components/ImageSlider/ImageSlider.tsx:93 | the fired timeout leaves the slot; when mounted and at rest it advances one slide and re-arms iff enabled; otherwise only the slot empties |
| SliderSpec.TransitionEnd | src/components/ImageSlider/ImageSlider.tsx:104-121 | ends the transition unconditionally; in circular mode a landing on index 0 or on the last index jumps to the real copy with the animation off and requests a frame; non-circular mode returns early |
| SliderSpec.WrapAndRequestFrame | src/components/ImageSlider/ImageSlider.tsx:109-120 | index 0 goes to `length - 2` and index `length - 1` to 1, both suppressing the animation; any other index and the animation flag are unchanged; one animation frame is requested either way and nothing else changes |
| SliderSpec.AnimationFrame | src/components/ImageSlider/ImageSlider.tsx:117-120 | the frame restores the animation, consumes one pending frame and resets the timeout |
| SliderSpec.SwipeDecision | src/components/ImageSlider/ImageSlider.tsx:156-168 | a swipe advances iff supported, the distance strictly exceeds the threshold, start > end and the next button is shown; it retreats under the mirrored condition |
| SliderSpec.TouchStart | src/components/ImageSlider/ImageSlider.tsx:146-149 | records the start x only when swiping is supported; nothing else changes |
| SliderSpec.TouchMove | src/components/ImageSlider/ImageSlider.tsx:151-154 | records the latest x only when swiping is supported; nothing else changes |
| SliderSpec.TouchEnd | src/components/ImageSlider/ImageSlider.tsx:156-168 | at most one navigation request: next, previous or nothing, as the swipe decision says |
| SliderSpec.MouseEnter | src/components/ImageSlider/ImageSlider.tsx:173 | sets hovered; if it was not hovered before, a timeout is pending afterwards iff `autoPlay \|\| autoPlayOnHover` |
| SliderSpec.MouseLeave | src/components/ImageSlider/ImageSlider.tsx:174 | clears hovered; leaving a hovered slider keeps a timeout iff `autoPlay` |
| SliderSpec.SetAutoPlay | src/components/ImageSlider/ImageSlider.tsx:96-99 | new auto-play props re-arm the timeout by the enable rule when they differ from the old ones |
| SliderSpec.Unmount | src/components/ImageSlider/ImageSlider.tsx:131-133 | cleanup cancels the pending timeout and nothing else |
| SliderSpec.StepKeepsWf | src/components/ImageSlider/ImageSlider.tsx:91-99 | no event leaves a timeout handle that is not older than the next one issued |
| SliderSpec.RunKeepsWf | src/components/ImageSlider/ImageSlider.tsx:91-99 | the same over any admissible event trace |
| SliderSpec.SettleReopensNavigation | src/components/ImageSlider/ImageSlider.tsx:104-105 | after a transition ends a move is accepted again, and with auto-advance enabled a fresh timeout is pending |
| SliderSpec.UnmountLeavesNoTimer | src/components/ImageSlider/ImageSlider.tsx:131-133 | unmounting leaves no timeout pending |
| SliderSpec.FrameAfterUnmountRearms | src/components/ImageSlider/ImageSlider.tsx:117-120 | a frame requested before unmounting still runs afterwards and, with `autoPlay`, arms a new timeout |
| SliderSpec.UnmountedStateIsFrozen | src/components/ImageSlider/ImageSlider.tsx:131-133 | after unmounting no trace changes the index, transition flag, hover flag or auto-play props |
| SliderSpec.TransitionEndKeepsInvariants | src/components/ImageSlider/ImageSlider.tsx:109-115 | the transition end keeps the circular index bounds and fresh timeout handles |
| SliderSpec.StepKeepsCircularBounds | src/components/ImageSlider/ImageSlider.tsx:104-121 | in circular mode every event keeps the index in 1..n at rest and in 0..n+1 in flight |
| SliderSpec.RunKeepsCircularBounds | src/components/ImageSlider/ImageSlider.tsx:104-121 | the same over any admissible event trace |
| SliderSpec.CircularIndexStaysInBounds | src/components/ImageSlider/ImageSlider.tsx:60-68 | from mount, a circular slider's index stays within the rendered array, and at rest it shows a real image |
| SliderSpec.WrapBackwardIsInvisible | src/components/ImageSlider/ImageSlider.tsx:109-111 | previous from the first slide lands on the leading copy, and the transition end jumps unanimated to the last real slide, which shows the same picture |
| SliderSpec.WrapForwardIsInvisible | src/components/ImageSlider/ImageSlider.tsx:112-114 | next from the last slide lands on the trailing copy, and the transition end jumps unanimated to the first slide, which shows the same picture |
| SliderSpec.StepWithoutSettle | src/components/ImageSlider/ImageSlider.tsx:74-81 | an event other than a transition end moves the index by at most one, and only from rest |
| SliderSpec.InFlightMoveIsFrozen | src/components/ImageSlider/ImageSlider.tsx:76 | while a transition is in flight no trace without a transition end changes the index |
| SliderSpec.SingleFlight | src/components/ImageSlider/ImageSlider.tsx:74-81 | between transition ends at most one move is applied, and only if none was in flight |
| SliderSpec.StepKeepsRange | src/components/ImageSlider/ImageSlider.tsx:136-137 | in non-circular mode a gated event keeps the index on a real slide |
| SliderSpec.ManualNavigationStaysInRange | src/components/ImageSlider/ImageSlider.tsx:162-165 | in non-circular mode buttons and swipes alone never leave the real slides |
| SliderSpec.AutoPlayIsUnbounded | src/components/ImageSlider/ImageSlider.tsx:93 | in non-circular mode with `autoPlay`, k rounds of timeout plus transition end move the index k slides on, without bound |
| SliderSpec.AutoPlayPassesLastImage | src/components/ImageSlider/__tests__/ImageSlider.test.tsx:73-84 | three images, non-circular, auto-play: three rounds reach index 3, one past the last image, where the next button is already hidden |
| SliderSpec.SwipeDisabledIgnoresTouches | src/components/ImageSlider/ImageSlider.tsx:146-158 | with swiping off no touch trace changes anything |
| SliderSpec.SwipeThresholdIsStrict | src/components/ImageSlider/ImageSlider.tsx:161 | with threshold 50, drags of 49 and 50 pixels do nothing and one of 51 moves |
| SliderSpec.Enabled | src/components/ImageSlider/ImageSlider.tsx:170-231 | which events can happen: the buttons only while mounted and rendered by their gate, a timeout only while one is pending, a frame only while one is requested, the other listeners only while mounted |
| SliderSpec.Step | src/components/ImageSlider/ImageSlider.tsx:170-231 | each event runs its handler: the prev and next buttons, the timeout, `transitionend`, the animation frame, the three touch listeners, the two hover listeners, an `autoPlay` prop change and unmount |
| SliderSpec.Run | src/components/ImageSlider/ImageSlider.tsx:170-231 | a trace of events applied one after the other from a state, each one enabled when it arrives (`Admissible`) |
| SliderSpec.RunConcat | src/components/ImageSlider/ImageSlider.tsx:74-81 | running two admissible event sequences one after the other is running their concatenation |
| SliderSpec.LeftSwipeAdvances | src/components/ImageSlider/ImageSlider.tsx:146-165 | from rest, a start, a move further left than the threshold and an end advance the index by one, start the transition and leave the end x at the move |
| SliderSpec.MidTransitionSettles | src/components/ImageSlider/ImageSlider.tsx:104-120 | in circular mode, away from the clones, a transition end and the frame keep the index and bring the slider to rest with the animation on |
| SliderSpec.TapReusesLastMove | src/components/ImageSlider/ImageSlider.tsx:151-163 | a start and an end with no move compare against the end x left by an earlier move, and advance when that distance passes the threshold |
| SliderSpec.TapAfterSwipeMovesAgain | src/components/ImageSlider/ImageSlider.tsx:151-159 | a tap with no move after a left swipe reuses the old end x and advances again |
| SliderSpec.HoverDoesNotOverrideAutoPlay | src/components/ImageSlider/ImageSlider.tsx:98 | with both props set, leaving the slider keeps auto-advance enabled and a timeout pending |
| SliderSpec.HoverScenarioIndex | src/components/ImageSlider/__tests__/ImageSlider.test.tsx:154-171 | enter, fire, leave, fire: the index reaches 2 and the second timeout is dropped mid-transition |
| ImageSlider.Slider.constructor | src/components/ImageSlider/ImageSlider.tsx:52-58 | mounting yields the initial state of `Init` and the object invariant |
| ImageSlider.Slider.ShowPrevButton | src/components/ImageSlider/ImageSlider.tsx:136 | `showPrevButton` read from the fields, as `SliderSpec.ShowPrev` says |
| ImageSlider.Slider.ShowNextButton | src/components/ImageSlider/ImageSlider.tsx:137 | `showNextButton` read from the fields, as `SliderSpec.ShowNext` says |
| ImageSlider.Slider.StartAutoSlide | src/components/ImageSlider/ImageSlider.tsx:91-94 | a new timeout with a never-used handle takes the slot; nothing else changes |
| ImageSlider.Slider.ResetAutoSlide | src/components/ImageSlider/ImageSlider.tsx:96-99 | the fields change as `SliderSpec.ResetAutoSlide` says |
| ImageSlider.Slider.RunAutoSlideEffect | src/components/ImageSlider/ImageSlider.tsx:129-134 | the fields change as `SliderSpec.Rerender` says |
| ImageSlider.Slider.GoToSlide | src/components/ImageSlider/ImageSlider.tsx:74-81 | the fields change as `SliderSpec.GoToSlide` says |
| ImageSlider.Slider.Next | src/components/ImageSlider/ImageSlider.tsx:83-85 | the fields change as `SliderSpec.Next` says; the invariant is kept |
| ImageSlider.Slider.Prev | src/components/ImageSlider/ImageSlider.tsx:87-89 | the fields change as `SliderSpec.Prev` says; the invariant is kept |
| ImageSlider.Slider.TimerFire | src/components/ImageSlider/ImageSlider.tsx:93 | the fields change as `SliderSpec.TimerFire` says; the invariant is kept |
| ImageSlider.Slider.TransitionEnd | src/components/ImageSlider/ImageSlider.tsx:104-121 | the fields change as `SliderSpec.TransitionEnd` says; the invariant is kept |
| ImageSlider.Slider.WrapAndRequestFrame | src/components/ImageSlider/ImageSlider.tsx:109-120 | the fields change as `SliderSpec.WrapAndRequestFrame` says |
| ImageSlider.Slider.EndTransition | src/components/ImageSlider/ImageSlider.tsx:104-106 | non-circular mode: the transition flag is cleared and the re-render runs, as `SliderSpec.Rerender` says |
| ImageSlider.Slider.EndTransitionAndWrap | src/components/ImageSlider/ImageSlider.tsx:104-120 | circular mode: the flag is cleared, the wrap jump and the frame request happen, then the re-render runs |
| ImageSlider.Slider.AnimationFrame | src/components/ImageSlider/ImageSlider.tsx:117-120 | the fields change as `SliderSpec.AnimationFrame` says; the invariant is kept |
| ImageSlider.Slider.TouchStart | src/components/ImageSlider/ImageSlider.tsx:146-149 | the fields change as `SliderSpec.TouchStart` says |
| ImageSlider.Slider.TouchMove | src/components/ImageSlider/ImageSlider.tsx:151-154 | the fields change as `SliderSpec.TouchMove` says |
| ImageSlider.Slider.TouchEnd | src/components/ImageSlider/ImageSlider.tsx:156-168 | the fields change as `SliderSpec.TouchEnd` says; the invariant is kept |
| ImageSlider.Slider.MouseEnter | src/components/ImageSlider/ImageSlider.tsx:173 | the fields change as `SliderSpec.MouseEnter` says |
| ImageSlider.Slider.MouseLeave | src/components/ImageSlider/ImageSlider.tsx:174 | the fields change as `SliderSpec.MouseLeave` says |
| ImageSlider.Slider.SetAutoPlay | src/components/ImageSlider/ImageSlider.tsx:96-99 | the fields change as `SliderSpec.SetAutoPlay` says |
| ImageSlider.Slider.Unmount | src/components/ImageSlider/ImageSlider.tsx:131-133 | no timeout is left pending and the component is marked unmounted |
| TabView.CurrentActiveId | src/components/TabView/TabView.tsx:70 | the `activeTabId` prop whenever it is given, otherwise the internal id |
| TabView.InitialInternal | src/components/TabView/TabView.tsx:42 | the initial internal id is `null` exactly when the prop is missing or empty, otherwise the prop |
| TabView.Tabs | src/components/TabView/TabView.tsx:72-76 | the tab list is no longer than the children and holds only `<Tab>` children |
| TabView.TabsOfConcat | src/components/TabView/TabView.tsx:72-76 | filtering keeps the children's order: the tabs of a concatenation are the concatenated tabs |
| TabView.TabsKeepsEveryTab | src/components/TabView/TabView.tsx:72-76 | a tab is in the list exactly when it is a `<Tab>` child |
| TabView.EnabledElement | src/components/TabView/TabView.tsx:49 | the children the default-tab `find` accepts: a valid element, tab or not, whose `disabled` prop is not set; text children never |
| TabView.FirstEnabled | src/components/TabView/TabView.tsx:48-50 | the first valid element with no truthy `disabled`, or none when there is no such element |
| TabView.IdProp | src/components/TabView/TabView.tsx:53 | the `id` prop of the picked child: a tab's id, another element's `id` when it has one, `undefined` otherwise |
| TabView.SyncEffect | src/components/TabView/TabView.tsx:44-56 | copies a given prop; otherwise keeps a non-null internal id; otherwise takes the `id` of the first enabled element, or stays `null` |
| TabView.SyncEffectIsIdempotent | src/components/TabView/TabView.tsx:44-56 | the re-run that the effect's own state update triggers changes nothing |
| TabView.FindTab | src/components/TabView/TabView.tsx:98 | the position of the first tab whose id is the active id, or none when no tab has it |
| TabView.Panel | src/components/TabView/TabView.tsx:98 | no panel exactly when no tab has the active id; otherwise the panel of the first tab with that id |
| TabView.ActiveTabPanelIsShown | src/components/TabView/TabView.tsx:98 | with unique ids, the active tab's own panel is shown |
| TabView.ControlledIgnoresInternal | src/components/TabView/TabView.tsx:70 | when the prop is given the internal id never shows through |
| TabView.LeadingOtherElementHidesEveryPanel | src/components/TabView/TabView.tsx:48-53 | an enabled non-tab element with no `id` placed first becomes the `undefined` active id, so no panel is shown and the effect never picks again |
| TabView.TabView.constructor | src/components/TabView/TabView.tsx:42-56 | mount sets the initial internal id and runs the effect once |
| TabView.TabView.RunEffect | src/components/TabView/TabView.tsx:44-56 | the internal id becomes what `SyncEffect` gives; props unchanged |
| TabView.TabView.Rerender | src/components/TabView/TabView.tsx:44-56 | new props are taken and the effect runs |
| TabView.TabView.ActiveTabId | src/components/TabView/TabView.tsx:70 | `currentActiveTabId` read from the fields, as `CurrentActiveId` says |
| TabView.TabView.DisplayedPanel | src/components/TabView/TabView.tsx:98 | the panel content read from the fields, as `Panel` of the filtered tabs and the active id says |
| TabView.TabView.HandleTabClick | src/components/TabView/TabView.tsx:58-68 | reports the clicked id; sets the internal id to it only in uncontrolled use |
| TabView.TabView.ClickTab | src/components/TabView/TabView.tsx:87 | a disabled tab changes and reports nothing; an enabled one reports its id and, uncontrolled, becomes active |
| Comments.IsWhitespace | src/components/Comments/CommentForm.tsx:16 | the characters `String.prototype.trim` removes: the ECMAScript WhiteSpace and LineTerminator sets |
| Comments.TrimStart | src/components/Comments/CommentForm.tsx:16 | position by position a suffix of the input, not starting with whitespace, every cut-off character being whitespace |
| Comments.TrimEnd | src/components/Comments/CommentForm.tsx:16 | position by position a prefix of the input, not ending with whitespace, every cut-off character being whitespace |
| Comments.Trim | src/components/Comments/CommentForm.tsx:16 | position by position the infix between a run of leading and a run of trailing whitespace, neither starting nor ending with whitespace |
| Comments.TrimEndOfSuffix | src/components/Comments/CommentForm.tsx:16 | a prefix of a suffix of the input, followed by whitespace only, sits at the suffix's offset in the input with whitespace only after it |
| Comments.TrimIsEmptyIffBlank | src/components/Comments/CommentForm.tsx:16 | the trimmed comment is empty exactly when every character is whitespace |
| Comments.TrimKeepsCleanString | src/components/Comments/CommentForm.tsx:18 | a string with no whitespace at either end trims to itself |
| Comments.TrimIsIdempotent | src/components/Comments/CommentForm.tsx:18 | trimming twice is trimming once |
| Comments.SubmitGuard | src/components/Comments/CommentForm.tsx:16 | the guard of `handleSubmit`: the trimmed comment is not empty and the rating is above 0 |
| Comments.ButtonDisabled | src/components/Comments/CommentForm.tsx:26-28 | `submitDisabled`: the trimmed comment is empty or the rating is exactly 0 |
| Comments.ButtonDisabledIffGuardFails | src/components/Comments/CommentForm.tsx:26-28 | for ratings of zero or more, the button is disabled exactly when the submit guard fails |
| Comments.NegativeRatingEnablesButtonThatDoesNothing | src/components/Comments/CommentForm.tsx:16 | a non-blank comment with a negative rating enables the button, yet the guard refuses the submit |
| Comments.SubmittedCommentIsClean | src/components/Comments/CommentForm.tsx:16-20 | a submitted comment is non-empty, already trimmed and without whitespace at either end, with a positive rating |
| Comments.CommentForm.constructor | src/components/Comments/CommentForm.tsx:12-13 | the form starts at `("", 0)` with the button disabled |
| Comments.CommentForm.SubmitDisabled | src/components/Comments/CommentForm.tsx:26-28 | `submitDisabled` read from the fields, as `ButtonDisabled` says |
| Comments.CommentForm.SetComment | src/components/Comments/CommentForm.tsx:47 | the text area sets the comment and keeps the rating |
| Comments.CommentForm.SetRating | src/components/Comments/CommentForm.tsx:41 | the star control sets the rating and keeps the comment |
| Comments.CommentForm.HandleSubmit | src/components/Comments/CommentForm.tsx:15-24 | when the guard holds it emits (trimmed comment, rating) once and resets to `("", 0)`; otherwise it emits nothing and keeps the state |
| Comments.SubmitCleanComment | src/components/Comments/CommentForm.tsx:15-28 | typing a comment with no whitespace at either end and choosing a positive rating sends exactly that comment and rating |

## Left out

- Rendering is not modelled: JSX, CSS classes, `translateX`, `data-*` attributes, `getImageKey` and image attributes other than `copykey`.
- `navigationMode` and the focus blur of `handleButtonFocus` are not modelled. With `navigationMode` set to `"not-visible"`, no buttons are rendered (src/components/ImageSlider/ImageSlider.tsx:202). `SliderSpec.Enabled` still allows button clicks in that mode, so the model admits more traces than the code; every property proved over all admissible traces still holds for the code's traces.
- The timeout interval and real time are not modelled. Each timeout firing and each animation frame is one discrete event.
- Stale closures are not modelled. Every handler and callback reads the component's state as it is when its event arrives. In the code, the `requestAnimationFrame` callback and the timeout it arms close over the render before the transition end. Such a timeout can call a `goToNextSlide` that still sees `isTransitioning` as true, and then does nothing. The model lets that timeout advance. It agrees with the code when the frame runs before React re-renders, as under the synchronous frame mock of src/components/ImageSlider/__tests__/ImageSlider.test.tsx:13-18, because the re-render then arms a fresh timeout.
- Changing `images`, `circular`, `autoSlideInterval`, `touchThreshold` or `swipeSupported` after mount is not modelled; they are fixed at construction. A new `autoSlideInterval` would give `startAutoSlide`, and so `resetAutoSlide`, a new identity (src/components/ImageSlider/ImageSlider.tsx:91-94). The effect would then cancel the pending timeout and arm a new one. Because the interval is fixed, `SliderSpec.Rerender` has no such case.
- An empty `images` array is not modelled, because the circular padding reads `images[0]`. The classes require at least one image.
- Touch coordinates are integers. Fractional pixel coordinates are not modelled.
- Comments.CommentForm.HandleSubmit: the rating is a real number, so JavaScript `NaN` and floating-point rounding are not modelled.
- TabView.TabView.HandleTabClick: `changed` is what `onActiveTabChange` would receive. Whether the optional callback was passed is not modelled.
- The `Rating`, `Star`, `TextArea`, `Button` and `Comment` components are not part of this model. Neither are the authentication code, the services and the pages.
