/** The focus guard of the combobox wrapper. Clicking an option drops DOM
    focus for a moment, and the wrapper then sees focus and blur events that
    look like the user leaving or entering the component. A flag set on
    mouse-down over an option and cleared on the click over it makes the
    wrapper ignore those events; outside a click, a focus or blur event that
    is a genuine transition sets the focus flag and calls the host back. */
module FocusGuard {

  /** The two component-local flags: `hasFocus` and `isClicking`. */
  datatype FocusState = FocusState(hasFocus: bool, isClicking: bool)

  /** What reaches the guard. The flag of a wrapper event is what
      `getIsElementFocused` / `getIsElementBlurred` report for it: whether it
      is a genuine transition into or out of the component. */
  datatype FocusEvent =
    | ItemMouseDown
    | ItemClick
    | WrapperFocus(entering: bool)
    | WrapperBlur(leaving: bool)
  {
    predicate IsWrapperEvent() { WrapperFocus? || WrapperBlur? }

    predicate IsGenuine()
    {
      match this
      case WrapperFocus(entering) => entering
      case WrapperBlur(leaving) => leaving
      case _ => false
    }
  }

  /** The host's `onFocus` and `onBlur` callbacks. */
  datatype HostCall = OnFocus | OnBlur

  /** The state after an event and the host callbacks it fired. */
  datatype Step = Step(state: FocusState, calls: seq<HostCall>)

  /** One event: the item `onMouseDown`/`onClick` handlers, or the wrapper's
      `onFocus`/`onBlur` handlers wrapped in
      `ignoreFocusHandlerWhenClickingItem`. */
  function FocusStep(s: FocusState, e: FocusEvent): (r: Step)
    ensures |r.calls| <= 1
    ensures r.calls != [] <==> !s.isClicking && e.IsGenuine()
    ensures r.calls == [OnFocus] ==> e.WrapperFocus? && r.state.hasFocus
    ensures r.calls == [OnBlur] ==> e.WrapperBlur? && !r.state.hasFocus
    ensures r.state.hasFocus != s.hasFocus ==> r.calls != []
    ensures e.IsWrapperEvent() ==> r.state.isClicking == s.isClicking
    ensures e.IsWrapperEvent() && s.isClicking ==> r == Step(s, [])
    ensures e == ItemMouseDown ==> r.state.isClicking && r.calls == []
    ensures e == ItemClick ==> !r.state.isClicking && r.calls == []
  {
    match e
    case ItemMouseDown => Step(s.(isClicking := true), [])
    case ItemClick => Step(s.(isClicking := false), [])
    case WrapperFocus(entering) =>
      if s.isClicking || !entering then Step(s, [])
      else Step(s.(hasFocus := true), [OnFocus])
    case WrapperBlur(leaving) =>
      if s.isClicking || !leaving then Step(s, [])
      else Step(s.(hasFocus := false), [OnBlur])
  }

  /** A run of events, one after the other, collecting the callbacks. */
  function RunFocus(s: FocusState, events: seq<FocusEvent>): (r: Step)
    ensures |r.calls| <= |events|
    ensures r.calls == [] ==> r.state.hasFocus == s.hasFocus
    decreases |events|
  {
    if events == [] then Step(s, [])
    else
      var first := FocusStep(s, events[0]);
      var rest := RunFocus(first.state, events[1..]);
      Step(rest.state, first.calls + rest.calls)
  }

  /** Running two stretches of events one after the other is running them
      joined. */
  lemma {:induction false} RunFocusAppend(s: FocusState, a: seq<FocusEvent>, b: seq<FocusEvent>)
    ensures RunFocus(s, a + b)
         == var m := RunFocus(s, a);
            var n := RunFocus(m.state, b);
            Step(n.state, m.calls + n.calls)
    decreases |a|
  {
    if a == [] {
      assert a + b == b;
    } else {
      assert (a + b)[1..] == a[1..] + b;
      RunFocusAppend(FocusStep(s, a[0]).state, a[1..], b);
    }
  }

  /** While an option is being clicked, no wrapper focus or blur event changes
      the focus flag or reaches the host, however many of them arrive, until
      the click completes. */
  lemma {:induction false} ClickingSuppressesWrapperEvents(s: FocusState, events: seq<FocusEvent>)
    requires s.isClicking
    requires forall i :: 0 <= i < |events| ==> events[i] != ItemClick
    ensures RunFocus(s, events) == Step(s, [])
    decreases |events|
  {
    if events != [] {
      assert FocusStep(s, events[0]) == Step(s, []);
      ClickingSuppressesWrapperEvents(s, events[1..]);
    }
  }

  /** Whenever the host has been called back at all, the focus flag agrees
      with the last callback: focused after `onFocus`, blurred after `onBlur`. */
  lemma {:induction false} FocusFlagFollowsLastCall(s: FocusState, events: seq<FocusEvent>)
    ensures var r := RunFocus(s, events);
            r.calls != [] ==> (r.state.hasFocus <==> r.calls[|r.calls| - 1] == OnFocus)
    decreases |events|
  {
    if events != [] {
      var first := FocusStep(s, events[0]);
      FocusFlagFollowsLastCall(first.state, events[1..]);
    }
  }

  /** Mouse-down on an option, then a blur and a focus reported as genuine,
      then the click: nothing reaches the host and the focus flag is as it
      was. A genuine blur and focus after the click reach the host as usual. */
  lemma FocusGuardScenario(s: FocusState)
    requires !s.isClicking
    ensures RunFocus(s, [ItemMouseDown, WrapperBlur(true), WrapperFocus(true), ItemClick])
         == Step(s, [])
    ensures RunFocus(s, [ItemMouseDown, WrapperBlur(true), WrapperFocus(true), ItemClick,
                         WrapperBlur(true), WrapperFocus(true)])
         == Step(s.(hasFocus := true), [OnBlur, OnFocus])
  {
    var click := [ItemMouseDown, WrapperBlur(true), WrapperFocus(true), ItemClick];
    var after := [WrapperBlur(true), WrapperFocus(true)];
    var down := FocusStep(s, ItemMouseDown).state;
    ClickingSuppressesWrapperEvents(down, click[1..3]);
    RunFocusAppend(s, click[..1], click[1..3]);
    RunFocusAppend(s, click[..3], click[3..]);
    assert click[..1] + click[1..3] == click[..3];
    assert click[..3] + click[3..] == click;
    assert RunFocus(s, click) == Step(s, []);
    RunFocusAppend(s, click, after);
    assert click + after == [ItemMouseDown, WrapperBlur(true), WrapperFocus(true), ItemClick,
                             WrapperBlur(true), WrapperFocus(true)];
  }
}
