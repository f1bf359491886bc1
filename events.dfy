/**
 * What one window event does to the components: `PWindow.start`'s dispatch
 * of button presses, button releases and keys, stated over values. The
 * window's methods are proved against these functions.
 */
module Events {
  import opened Wrappers
  import opened Geometry
  import opened Widgets
  import opened TextBoxes
  import opened Arenas
  import opened Layout
  import opened Routing

  /** The events the window dispatches: button presses and releases with their position, and key presses and releases. */
  datatype Event = MouseButtonDown(x: int, y: int) | MouseButtonUp(x: int, y: int) | KeyPress(key: int) | KeyRelease(key: int)

  /**
   * What handling an event leaves behind: the components' kinds, the focus,
   * the user callbacks that ran, and whether an exception escaped.
   */
  datatype Outcome = Outcome(kinds: seq<Kind>, focus: Option<Id>, fired: seq<Invocation>, crashed: bool)

  /** The outcome that changes nothing. */
  function Unchanged(ks: seq<Kind>, f: Option<Id>): (o: Outcome)
    ensures o.kinds == ks && o.focus == f && o.fired == [] && !o.crashed
  {
    Outcome(ks, f, [], false)
  }

  /** The focus names a component, or there is none. */
  predicate FocusIn(ks: seq<Kind>, f: Option<Id>)
  {
    f.Some? ==> f.value < |ks|
  }

  /** `mouse_down` delivered to `n` at (x, y) with focus `f`. */
  function Down(a: Arena, ks: seq<Kind>, g: seq<Rect>, f: Option<Id>, n: Id, x: int, y: int): (o: Outcome)
    requires Laid(a, ks, g) && n < |ks|
    ensures Matches(o.kinds, a.shapes) && o.fired == [] && !o.crashed
    ensures FocusIn(ks, f) ==> FocusIn(o.kinds, o.focus)
  {
    var r := Route(a, ks, g, n, x, y);
    ClaimedIsLastClaimant(ks, r, f);
    Outcome(Pressed(ks, g, r), Claimed(ks, r, f), [], false)
  }

  /**
   * `mouse_up` delivered to `n` at (x, y) with focus `f` and the pointer at
   * (px, py). Only the component at the end of the route can react, and only
   * when it holds the focus: its new kind is stored, its callbacks run in
   * order and the focus is released. A bar whose division fails raises.
   */
  function Up(a: Arena, ks: seq<Kind>, g: seq<Rect>, f: Option<Id>, n: Id, x: int, y: int, px: int, py: int): (o: Outcome)
    requires Laid(a, ks, g) && n < |ks|
    ensures Matches(o.kinds, a.shapes)
    ensures o.focus == f || (f.Some? && o.focus == None && Last(Route(a, ks, g, n, x, y)).id == f.value)
    ensures o.crashed ==> o == Unchanged(ks, f).(crashed := true) && f.Some? && f.value < |ks| && ks[f.value].Bar?
    ensures o.focus == f && !o.crashed ==> o == Unchanged(ks, f)
  {
    var r := Route(a, ks, g, n, x, y);
    var h := Last(r);
    match Released(ks, g, f, r, px, py)
    case Ignored => Unchanged(ks, f)
    case Crashed => Outcome(ks, f, [], true)
    case Committed(next, acts) =>
      var ks' := ks[h.id := next];
      FireKeepsShapes(ks', acts, SourceValue(next));
      Outcome(FireKinds(ks', acts, SourceValue(next)), None, FireLog(acts, h.id), false)
  }

  /** `key_down` sent to the focus: only a focused text box takes keys. */
  function Key(ks: seq<Kind>, f: Option<Id>, key: int): (o: Outcome)
    ensures |o.kinds| == |ks| && o.focus == f && o.fired == [] && !o.crashed
    ensures forall i :: 0 <= i < |ks| ==> ShapeOf(o.kinds[i]) == ShapeOf(ks[i])
    ensures forall i :: 0 <= i < |ks| && (f != Some(i) || !ks[i].TextBoxWidget?) ==> o.kinds[i] == ks[i]
    ensures f.Some? && f.value < |ks| && ks[f.value].TextBoxWidget? ==>
      o.kinds[f.value] == TextBoxWidget(KeyDown(ks[f.value].box, key), ks[f.value].fontsize)
  {
    if f.Some? && f.value < |ks| && ks[f.value].TextBoxWidget? then
      Outcome(ks[f.value := TextBoxWidget(KeyDown(ks[f.value].box, key), ks[f.value].fontsize)], f, [], false)
    else Unchanged(ks, f)
  }

  /**
   * One event of `PWindow.start`: a press goes to the main panel; a release
   * goes to the main panel and then, if nothing raised and a focus remains,
   * to the focus with the same window coordinates; a key press goes to the
   * focus; a key release changes nothing.
   */
  function Dispatch(a: Arena, ks: seq<Kind>, g: seq<Rect>, f: Option<Id>, e: Event, px: int, py: int): (o: Outcome)
    requires Laid(a, ks, g) && FocusIn(ks, f)
    ensures Matches(o.kinds, a.shapes) && FocusIn(o.kinds, o.focus)
  {
    match e
    case MouseButtonDown(x, y) => Down(a, ks, g, f, 0, x, y)
    case MouseButtonUp(x, y) =>
      var o1 := Up(a, ks, g, f, 0, x, y, px, py);
      if o1.crashed || o1.focus.None? then o1
      else
        var o2 := Up(a, o1.kinds, g, o1.focus, o1.focus.value, x, y, px, py);
        Outcome(o2.kinds, o2.focus, o1.fired + o2.fired, o2.crashed)
    case KeyPress(key) => Key(ks, f, key)
    case KeyRelease(_) => Unchanged(ks, f)
  }

  /** A route that goes on from `n` to `h` is `n` followed by the route from `h`. */
  lemma RouteStep(a: Arena, ks: seq<Kind>, g: seq<Rect>, n: Id, x: int, y: int, h: Hop)
    requires Laid(a, ks, g) && n < |ks| && Next(a, ks, g, n, x, y) == Some(h)
    ensures Route(a, ks, g, n, x, y) == [Hop(n, x, y)] + Route(a, ks, g, h.id, h.x, h.y)
    ensures Last(Route(a, ks, g, n, x, y)) == Last(Route(a, ks, g, h.id, h.x, h.y))
  {
    var rest := Route(a, ks, g, h.id, h.x, h.y);
    var r := [Hop(n, x, y)] + rest;
    assert Route(a, ks, g, n, x, y) == r;
    assert r[|r| - 1] == rest[|rest| - 1];
  }

  /** Passing `mouse_down` on: `n` takes the focus if it claims it, then the next component handles the event. */
  lemma DownStep(a: Arena, ks: seq<Kind>, g: seq<Rect>, f: Option<Id>, n: Id, x: int, y: int, h: Hop)
    requires Laid(a, ks, g) && n < |ks| && Next(a, ks, g, n, x, y) == Some(h)
    ensures Down(a, ks, g, f, n, x, y) == Down(a, ks, g, if Claims(ks[n]) then Some(n) else f, h.id, h.x, h.y)
  {
    RouteStep(a, ks, g, n, x, y, h);
    var r, rest := Route(a, ks, g, n, x, y), Route(a, ks, g, h.id, h.x, h.y);
    ClaimedCons(ks, Hop(n, x, y), rest, f);
    PressedByLast(ks, g, r, rest);
  }

  /** Where `mouse_down` stops: `n` takes the focus if it claims it, and a text box there takes the click. */
  lemma DownStops(a: Arena, ks: seq<Kind>, g: seq<Rect>, f: Option<Id>, n: Id, x: int, y: int)
    requires Laid(a, ks, g) && n < |ks| && Next(a, ks, g, n, x, y) == None
    ensures Down(a, ks, g, f, n, x, y) == Outcome(Pressed(ks, g, [Hop(n, x, y)]), if Claims(ks[n]) then Some(n) else f, [], false)
  {
    var r := Route(a, ks, g, n, x, y);
    assert r == [Hop(n, x, y)];
    assert r[1..] == [];
    var f' := if Claims(ks[n]) then Some(n) else f;
    assert Claimed(ks, r, f) == Claimed(ks, [], f') == f';
  }

  /** Passing `mouse_up` on: the component at the end of the route is the one that reacts. */
  lemma UpStep(a: Arena, ks: seq<Kind>, g: seq<Rect>, f: Option<Id>, n: Id, x: int, y: int, px: int, py: int, h: Hop)
    requires Laid(a, ks, g) && n < |ks| && Next(a, ks, g, n, x, y) == Some(h)
    ensures Up(a, ks, g, f, n, x, y, px, py) == Up(a, ks, g, f, h.id, h.x, h.y, px, py)
  {
    RouteStep(a, ks, g, n, x, y, h);
  }

  /** The focus after a press is the deepest component on the route that claims it, or the old focus if none does. */
  lemma DownFocusesDeepest(a: Arena, ks: seq<Kind>, g: seq<Rect>, f: Option<Id>, n: Id, x: int, y: int)
    requires Laid(a, ks, g) && n < |ks|
    ensures Down(a, ks, g, f, n, x, y).focus ==
      match LastClaimant(ks, Route(a, ks, g, n, x, y))
      case None => f
      case Some(j) => Some(Route(a, ks, g, n, x, y)[j].id)
  {
    ClaimedIsLastClaimant(ks, Route(a, ks, g, n, x, y), f);
  }

  /** Releasing the button with nothing focused changes nothing. */
  lemma ReleaseWithoutFocus(a: Arena, ks: seq<Kind>, g: seq<Rect>, x: int, y: int, px: int, py: int)
    requires Laid(a, ks, g)
    ensures Dispatch(a, ks, g, None, MouseButtonUp(x, y), px, py) == Unchanged(ks, None)
  {
    var r := Route(a, ks, g, 0, x, y);
    assert Released(ks, g, None, r, px, py) == Ignored;
  }

  /**
   * A release runs the callbacks of the focused component and of no other,
   * each once and in registration order, and then the focus is gone.
   */
  lemma ReleaseFiresFocusOnly(a: Arena, ks: seq<Kind>, g: seq<Rect>, f: Option<Id>, x: int, y: int, px: int, py: int)
    requires Laid(a, ks, g) && FocusIn(ks, f)
    ensures var o := Dispatch(a, ks, g, f, MouseButtonUp(x, y), px, py);
      o.fired != [] ==> f.Some? && HasActions(ks[f.value]) && o.fired == FireLog(ks[f.value].actions, f.value) && o.focus == None
  {
    var o1 := Up(a, ks, g, f, 0, x, y, px, py);
    if !o1.crashed && o1.focus.Some? {
      UpFiresFocus(a, ks, g, f, f.value, x, y, px, py);
    }
    UpFiresFocus(a, ks, g, f, 0, x, y, px, py);
  }

  /** What one `mouse_up` fires is the focused component's callbacks, and then the focus is released. */
  lemma UpFiresFocus(a: Arena, ks: seq<Kind>, g: seq<Rect>, f: Option<Id>, n: Id, x: int, y: int, px: int, py: int)
    requires Laid(a, ks, g) && n < |ks|
    ensures Up(a, ks, g, f, n, x, y, px, py).fired != [] ==>
      f.Some? && f.value < |ks| && HasActions(ks[f.value]) && Up(a, ks, g, f, n, x, y, px, py).fired == FireLog(ks[f.value].actions, f.value)
      && Up(a, ks, g, f, n, x, y, px, py).focus == None
  {
  }

  /**
   * A release with a button focused fires that button's callbacks exactly
   * once and clears the focus, wherever the pointer is: if the release is not
   * routed to the button, the window hands it to the focus directly.
   */
  lemma FocusedButtonFiresOnce(a: Arena, ks: seq<Kind>, g: seq<Rect>, b: Id, x: int, y: int, px: int, py: int)
    requires Laid(a, ks, g) && b < |ks| && ks[b].Button?
    ensures Dispatch(a, ks, g, Some(b), MouseButtonUp(x, y), px, py).fired == FireLog(ks[b].actions, b)
    ensures Dispatch(a, ks, g, Some(b), MouseButtonUp(x, y), px, py).focus == None
    ensures !Dispatch(a, ks, g, Some(b), MouseButtonUp(x, y), px, py).crashed
  {
    var r := Route(a, ks, g, 0, x, y);
    var h := Last(r);
    if h.id != b {
      assert Released(ks, g, Some(b), r, px, py) == Ignored;
      var rb := Route(a, ks, g, b, x, y);
      assert Next(a, ks, g, b, x, y) == None;
      assert rb == [Hop(b, x, y)];
      assert Released(ks, g, Some(b), rb, px, py).Committed?;
    }
  }

  /**
   * A click on a button: the press routed to it gives it the focus, and the
   * release that follows, wherever it happens, fires its callbacks once.
   */
  lemma ClickFiresButton(a: Arena, ks: seq<Kind>, g: seq<Rect>, f: Option<Id>, x: int, y: int, x': int, y': int, px: int, py: int)
    requires Laid(a, ks, g) && FocusIn(ks, f)
    requires Last(Route(a, ks, g, 0, x, y)).id < |ks| && ks[Last(Route(a, ks, g, 0, x, y)).id].Button?
    ensures Down(a, ks, g, f, 0, x, y).focus == Some(Last(Route(a, ks, g, 0, x, y)).id)
    ensures Dispatch(a, Down(a, ks, g, f, 0, x, y).kinds, g, Down(a, ks, g, f, 0, x, y).focus, MouseButtonUp(x', y'), px, py).fired
      == FireLog(ks[Last(Route(a, ks, g, 0, x, y)).id].actions, Last(Route(a, ks, g, 0, x, y)).id)
  {
    var b := Last(Route(a, ks, g, 0, x, y)).id;
    PressFocusesButton(a, ks, g, f, x, y);
    var o := Down(a, ks, g, f, 0, x, y);
    FocusedButtonFiresOnce(a, o.kinds, g, b, x', y', px, py);
  }

  /** A press whose route ends at a button focuses that button and leaves it as it was. */
  lemma PressFocusesButton(a: Arena, ks: seq<Kind>, g: seq<Rect>, f: Option<Id>, x: int, y: int)
    requires Laid(a, ks, g) && FocusIn(ks, f)
    requires Last(Route(a, ks, g, 0, x, y)).id < |ks| && ks[Last(Route(a, ks, g, 0, x, y)).id].Button?
    ensures Down(a, ks, g, f, 0, x, y).focus == Some(Last(Route(a, ks, g, 0, x, y)).id)
    ensures Down(a, ks, g, f, 0, x, y).kinds[Last(Route(a, ks, g, 0, x, y)).id] == ks[Last(Route(a, ks, g, 0, x, y)).id]
    ensures Laid(a, Down(a, ks, g, f, 0, x, y).kinds, g)
  {
    var r := Route(a, ks, g, 0, x, y);
    ClaimedByLast(ks, r, f);
  }
}
