/**
 * The widget kinds of the toolkit as one closed datatype, what a focused leaf
 * does on `mouse_up`, how its callbacks run, the constructors' initial sizes,
 * and the scroll panel's viewport step.
 */
module Widgets {
  import opened Wrappers
  import opened PyMath
  import opened Font
  import opened Geometry
  import opened DrawString
  import opened Paragraph
  import opened TextBoxes
  import opened Values

  /** Identifies a component in the window's arena. */
  type Id = nat

  /** A user callback, known only by an identifier. */
  type Tag = nat

  /** A registered callback: a user function, or a scroll panel's `action_scroll_v` / `action_scroll_h`. */
  datatype Action = User(tag: Tag) | ScrollV(panel: Id) | ScrollH(panel: Id)

  /** One call of a user callback, with the component it was called with. */
  datatype Invocation = Invocation(tag: Tag, source: Id)

  datatype Kind =
    | Panel(orientation: Orientation)
    | Label(text: string)
    | ParagraphWidget(text: string)
    | Strut
    | Button(text: string, actions: seq<Action>)
    | CheckBox(checked: bool, caption: string, actions: seq<Action>)
    | SelectorWidget(selector: Selector, fontsize: FontSize)
    | Wheel(axis: Orientation, value: int, maximum: int, actions: seq<Action>)
    | TextBoxWidget(box: TextBox, fontsize: FontSize)
    | Bar(axis: Orientation, value: int, maximum: int, thumb: int, actions: seq<Action>)
    | ScrollPanel(main: Id, vbar: Id, hbar: Id, maxWidth: int, maxHeight: int,
                  xOffset: int, yOffset: int, scrollVertical: bool, scrollHorizontal: bool)

  /** The part of a kind the component tree is built on; no operation changes it. */
  datatype Shape = PanelShape | ScrollShape(main: Id, vbar: Id, hbar: Id) | BarShape | LeafShape

  function ShapeOf(k: Kind): Shape
  {
    match k
    case Panel(_) => PanelShape
    case ScrollPanel(m, v, h, _, _, _, _, _, _) => ScrollShape(m, v, h)
    case Bar(_, _, _, _, _) => BarShape
    case _ => LeafShape
  }

  /** The kinds that have `add_action`. */
  predicate HasActions(k: Kind)
  {
    k.Button? || k.CheckBox? || k.Wheel? || k.Bar?
  }

  /** `add_action`: the callback is appended and runs after the earlier ones. */
  function WithAction(k: Kind, a: Action): (r: Kind)
    requires HasActions(k)
    ensures HasActions(r) && r.actions == k.actions + [a] && ShapeOf(r) == ShapeOf(k)
    ensures r.(actions := k.actions) == k
  {
    k.(actions := k.actions + [a])
  }

  /** What `get_value` returns to `action_scroll_v` / `action_scroll_h` (only bars register them). */
  function SourceValue(k: Kind): int
  {
    match k
    case Wheel(_, v, _, _) => v
    case Bar(_, v, _, _, _) => v
    case _ => 0
  }

  /** The outcome of `mouse_up` at a leaf: nothing, a commit (new kind, callbacks to run), or the ZeroDivisionError of a bar. */
  datatype UpResult = Ignored | Committed(next: Kind, fired: seq<Action>) | Crashed

  /**
   * `mouse_up` delivered to a leaf of kind `k` with rectangle `r`, at event
   * position (x, y) with the pointer at (px, py). Only a focused button,
   * check box, selector, wheel or bar reacts.
   */
  function LeafUp(k: Kind, r: Rect, focused: bool, x: int, y: int, px: int, py: int): (u: UpResult)
    ensures !focused ==> u == Ignored
    ensures u.Committed? ==> ShapeOf(u.next) == ShapeOf(k) && HasActions(u.next) == HasActions(k)
    ensures u.Committed? && HasActions(k) ==> u.fired == k.actions && u.next.actions == k.actions
    ensures u.Committed? && !HasActions(k) ==> u.fired == []
    ensures u.Crashed? ==> k.Bar? && focused
    ensures focused && (k.Button? || k.CheckBox? || k.SelectorWidget? || k.Wheel?) ==> u.Committed?
    ensures focused && k.CheckBox? ==> u == Committed(k.(checked := !k.checked), k.actions)
    ensures !(k.Button? || k.CheckBox? || k.SelectorWidget? || k.Wheel? || k.Bar?) ==> u == Ignored
  {
    if !focused then Ignored
    else match k
      case Button(_, acts) => Committed(k, acts)
      case CheckBox(c, cap, acts) => Committed(CheckBox(!c, cap, acts), acts)
      case SelectorWidget(s, fs) => Committed(SelectorWidget(Pick(s, y - r.y, fs), fs), [])
      case Wheel(axis, v, m, acts) =>
        var nv := if axis == Vertical then WheelStep(v, m, y - r.y, r.height) else WheelStep(v, m, x - r.x, r.width);
        Committed(Wheel(axis, nv, m, acts), acts)
      case Bar(axis, v, m, t, acts) =>
        var b := if axis == Vertical then BarValue(py, r.y, r.height, t, m) else BarValue(px, r.x, r.width, t, m);
        if b.None? then Crashed else Committed(Bar(axis, b.value, m, t, acts), acts)
      case _ => Ignored
  }

  /** A committed wheel or bar value stays in [0, maximum]. */
  lemma LeafUpKeepsRange(k: Kind, r: Rect, x: int, y: int, px: int, py: int)
    requires (k.Wheel? || k.Bar?) && 0 <= k.value <= k.maximum
    requires LeafUp(k, r, true, x, y, px, py).Committed?
    ensures 0 <= LeafUp(k, r, true, x, y, px, py).next.value <= k.maximum
  {
    if k.Wheel? {
      if k.axis == Vertical {
        WheelStaysInRange(k.value, k.maximum, y - r.y, r.height);
      } else {
        WheelStaysInRange(k.value, k.maximum, x - r.x, r.width);
      }
    }
  }

  /** One callback: a user callback changes no component here, a scroll action sets the panel's offset to `value`. */
  function RunAction(kinds: seq<Kind>, a: Action, value: int): (r: seq<Kind>)
    ensures |r| == |kinds|
    ensures forall i :: 0 <= i < |r| ==> ShapeOf(r[i]) == ShapeOf(kinds[i])
    ensures forall i :: 0 <= i < |r| && (a.User? || i != a.panel) ==> r[i] == kinds[i]
    ensures a.ScrollV? && a.panel < |kinds| && kinds[a.panel].ScrollPanel? ==> r[a.panel] == kinds[a.panel].(yOffset := value)
    ensures a.ScrollH? && a.panel < |kinds| && kinds[a.panel].ScrollPanel? ==> r[a.panel] == kinds[a.panel].(xOffset := value)
  {
    match a
    case User(_) => kinds
    case ScrollV(p) => if p < |kinds| && kinds[p].ScrollPanel? then kinds[p := kinds[p].(yOffset := value)] else kinds
    case ScrollH(p) => if p < |kinds| && kinds[p].ScrollPanel? then kinds[p := kinds[p].(xOffset := value)] else kinds
  }

  /** The components after running the callbacks in order. */
  function FireKinds(kinds: seq<Kind>, acts: seq<Action>, value: int): (r: seq<Kind>)
    ensures |r| == |kinds|
  {
    if acts == [] then kinds else RunAction(FireKinds(kinds, acts[..|acts| - 1], value), acts[|acts| - 1], value)
  }

  /** The user callbacks invoked, in order, when `acts` run with component `source`. */
  function FireLog(acts: seq<Action>, source: Id): (r: seq<Invocation>)
    ensures |r| <= |acts|
    ensures forall k :: 0 <= k < |r| ==> r[k].source == source
  {
    if acts == [] then []
    else FireLog(acts[..|acts| - 1], source) + (if acts[|acts| - 1].User? then [Invocation(acts[|acts| - 1].tag, source)] else [])
  }

  /** Running callbacks never changes a component's shape, and only scroll panels change at all. */
  lemma {:induction false} FireKeepsShapes(kinds: seq<Kind>, acts: seq<Action>, value: int)
    ensures forall i :: 0 <= i < |kinds| ==> ShapeOf(FireKinds(kinds, acts, value)[i]) == ShapeOf(kinds[i])
    ensures forall i :: 0 <= i < |kinds| && !kinds[i].ScrollPanel? ==> FireKinds(kinds, acts, value)[i] == kinds[i]
  {
    if acts != [] {
      FireKeepsShapes(kinds, acts[..|acts| - 1], value);
    }
  }

  /** Every user callback is called exactly once, in registration order, with the source component. */
  lemma {:induction false} FireLogInOrder(acts: seq<Action>, source: Id)
    requires forall i :: 0 <= i < |acts| ==> acts[i].User?
    ensures |FireLog(acts, source)| == |acts|
    ensures forall i :: 0 <= i < |acts| ==> FireLog(acts, source)[i] == Invocation(acts[i].tag, source)
  {
    if acts != [] {
      var p := acts[..|acts| - 1];
      assert forall i :: 0 <= i < |p| ==> p[i] == acts[i];
      FireLogInOrder(p, source);
    }
  }

  /** Scroll actions are not logged: the log is the user callbacks alone. */
  lemma {:induction false} FireLogSkipsScroll(acts: seq<Action>, a: Action, source: Id)
    requires !a.User?
    ensures FireLog(acts + [a], source) == FireLog(acts, source)
  {
    assert (acts + [a])[..|acts|] == acts;
  }

  /** What a constructor is called with. */
  datatype Blueprint =
    | NewPanel(o: Orientation)
    | NewLabel(fs: FontSize, text: string)
    | NewParagraph(fs: FontSize, text: string, maxWidth: int)
    | NewVerticalStrut(height: int)
    | NewHorizontalStrut(width: int)
    | NewButton(fs: FontSize, text: string)
    | NewCheckBox(fs: FontSize, caption: string)
    | NewSelector(fs: FontSize, width: int, rows: int)
    | NewWheel(axis: Orientation, maximum: int)
    | NewTextBox(fs: FontSize, maxWidth: int, maxlength: int)
    | NewBar(axis: Orientation, maximum: int, thumb: int)

  /** The kind and the rectangle a constructor produces: at (0, 0), with no callbacks and its initial value. */
  function Build(b: Blueprint): (r: (Kind, Rect))
    ensures r.1.x == 0 && r.1.y == 0
    ensures !r.0.ScrollPanel?
    ensures HasActions(r.0) ==> r.0.actions == []
    ensures (r.0.Wheel? || r.0.Bar?) ==> r.0.value == 0
  {
    match b
    case NewPanel(o) => (Panel(o), Rect(0, 0, 0, 0))
    case NewLabel(fs, text) => (Label(text), Rect(0, 0, |text| * Advance(fs) - Spacing(fs), fs))
    case NewParagraph(fs, text, maxWidth) =>
      var lines := Wrap(text, MaxChars(fs, maxWidth));
      (ParagraphWidget(text), Rect(0, 0, Widest(lines) * Advance(fs) - Spacing(fs), |lines| * Advance(fs) - Spacing(fs)))
    case NewVerticalStrut(h) => (Strut, Rect(0, 0, 0, h))
    case NewHorizontalStrut(w) => (Strut, Rect(0, 0, w, 0))
    case NewButton(fs, text) =>
      (Button(text, []), Rect(0, 0, |text| * Advance(fs) + Spacing(fs) + 4, fs + 4 + 2 * Spacing(fs)))
    case NewCheckBox(fs, caption) =>
      (CheckBox(false, caption, []), if caption == "" then Rect(0, 0, 20, 20) else Rect(0, 0, fs + |caption| * Advance(fs), fs))
    case NewSelector(fs, width, rows) => (SelectorWidget(Values.NewSelector(rows), fs), Rect(0, 0, width, rows * fs + 4))
    case NewWheel(axis, maximum) => (Wheel(axis, 0, maximum, []), if axis == Vertical then Rect(0, 0, 20, 0) else Rect(0, 0, 0, 20))
    case NewTextBox(fs, maxWidth, maxlength) =>
      var (tb, w, h) := TextBoxes.Create(fs, maxWidth, maxlength);
      (TextBoxWidget(tb, fs), Rect(0, 0, w, h))
    case NewBar(axis, maximum, thumb) =>
      (Bar(axis, 0, maximum, thumb, []), if axis == Vertical then Rect(0, 0, 15, 0) else Rect(0, 0, 0, 15))
  }

  /** A label is exactly as wide as its text: the last glyph, drawn from the label's x, ends on its right edge. */
  /**
   * An empty label is −spacing wide. As a vertical panel's first child it
   * leaves `add_component`'s width at −spacing, while `adjust_parent`
   * recomputes the width from 0 and gets 0.
   */
  lemma EmptyLabelWidth(fs: FontSize)
    ensures var lbl := Build(NewLabel(fs, "")).1;
      lbl.width == -Spacing(fs) && Grown([lbl], Vertical).1 == -Spacing(fs) && MaxCross([lbl], Vertical) == 0
  {
    var lbl := Build(NewLabel(fs, "")).1;
    assert [lbl][..0] == [];
  }

  lemma LabelFitsText(fs: FontSize, text: string, x: int)
    requires |text| > 0
    ensures GlyphX(fs, x, |text| - 1) + fs == x + Build(NewLabel(fs, text)).1.width
  {
    MulPred(|text|, Advance(fs));
    MulLeft(|text| - 1, fs, Spacing(fs));
  }

  /** A button's text, drawn from (x + sp + 2, y + sp + 2), leaves the same margin on the right and at the bottom. */
  lemma ButtonCentresText(fs: FontSize, text: string, x: int, y: int)
    requires |text| > 0
    ensures var r := Build(NewButton(fs, text)).1;
      x + r.width - (GlyphX(fs, x + Spacing(fs) + 2, |text| - 1) + fs) == Spacing(fs) + 2
      && y + r.height - (y + Spacing(fs) + 2 + fs) == Spacing(fs) + 2
  {
    MulPred(|text|, Advance(fs));
    MulLeft(|text| - 1, fs, Spacing(fs));
  }

  /** A labelled check box ends where its label, drawn after the box, ends. */
  lemma CheckBoxFitsLabel(fs: FontSize, caption: string, x: int)
    requires |caption| > 0
    ensures GlyphX(fs, x + fs + Spacing(fs), |caption| - 1) + fs == x + Build(NewCheckBox(fs, caption)).1.width
  {
    MulPred(|caption|, Advance(fs));
    MulLeft(|caption| - 1, fs, Spacing(fs));
  }

  /** Each of a selector's rows, drawn at y + 2 + fs * k, ends at least two pixels above its bottom edge. */
  lemma SelectorRowsFit(fs: FontSize, width: int, rows: int, y: int, k: int)
    requires 0 <= k < rows
    ensures y + 2 + fs * k + fs <= y + Build(NewSelector(fs, width, rows)).1.height - 2
  {
    MulMono(k + 1, rows, fs);
  }

  /** The `maxchars` characters a text box shows, drawn from x + sp + 2, end at least four pixels inside its right edge. */
  lemma TextBoxShowsMaxChars(fs: FontSize, maxWidth: int, maxlength: int, x: int)
    requires Build(NewTextBox(fs, maxWidth, maxlength)).0.box.maxchars >= 1
    ensures var (k, r) := Build(NewTextBox(fs, maxWidth, maxlength));
      GlyphX(fs, x + Spacing(fs) + 2, k.box.maxchars - 1) + fs <= x + r.width - 4
  {
    var (k, r) := Build(NewTextBox(fs, maxWidth, maxlength));
    var n := k.box.maxchars;
    MulPred(n, Advance(fs));
    MulLeft(n - 1, fs, Spacing(fs));
  }

  /** The scroll panel's geometry after `add_component`: its own rectangle, its bars, their maximums and its latches. */
  datatype ScrollParts = ScrollParts(panel: Rect, vbar: Rect, hbar: Rect, vmax: int, hmax: int,
                                     scrollVertical: bool, scrollHorizontal: bool, latchedV: bool, latchedH: bool)

  /**
   * `PScrollPanel.add_component` after the child went into the main panel of
   * size `main`: the viewport takes the smaller of content and maximum, a bar
   * is switched on (and latched, with its scroll action registered) the
   * first time the content overflows that axis, and a bar that is on is
   * placed on the panel's edge and given the overflow as its maximum.
   */
  function ScrollFit(panel: Rect, main: Rect, vbar: Rect, hbar: Rect, maxWidth: int, maxHeight: int,
                     vmax: int, hmax: int, scrollV: bool, scrollH: bool): (r: ScrollParts)
    ensures scrollV ==> r.scrollVertical
    ensures scrollH ==> r.scrollHorizontal
    ensures !r.scrollVertical ==> r.vbar == vbar && r.vmax == vmax
    ensures !r.scrollHorizontal ==> r.hbar == hbar && r.hmax == hmax
  {
    var p1 := panel.(width := Min(main.width, maxWidth), height := Min(main.height, maxHeight));
    var latchV := !scrollV && main.height > maxHeight;
    var sv := scrollV || latchV;
    var v1 := if sv then vbar.(x := p1.x + p1.width - vbar.width, y := p1.y, height := maxHeight - hbar.height, width := 15) else vbar;
    var vm := if sv then main.height - maxHeight + hbar.height else vmax;
    var p2 := if sv then p1.(width := Min(main.width + hbar.width, maxWidth)) else p1;
    var latchH := !scrollH && main.width > maxWidth;
    var sh := scrollH || latchH;
    var h1 := if sh then hbar.(x := p2.x, y := p2.y + p2.height - hbar.height, height := 15, width := maxWidth - v1.width) else hbar;
    var hm := if sh then main.width - maxWidth + v1.width else hmax;
    var p3 := if sh then p2.(height := Min(main.height + h1.height, maxHeight)) else p2;
    ScrollParts(p3, v1, h1, vm, hm, sv, sh, latchV, latchH)
  }

  /** The viewport never exceeds its maximum, and is the content size on an axis that fits. */
  lemma ScrollFitBounds(panel: Rect, main: Rect, vbar: Rect, hbar: Rect, maxWidth: int, maxHeight: int,
                        vmax: int, hmax: int, scrollV: bool, scrollH: bool)
    ensures var r := ScrollFit(panel, main, vbar, hbar, maxWidth, maxHeight, vmax, hmax, scrollV, scrollH);
      r.panel.width <= maxWidth && r.panel.height <= maxHeight && r.panel.x == panel.x && r.panel.y == panel.y
      && (!r.scrollVertical && !r.scrollHorizontal ==> r.panel.width == main.width && r.panel.height == main.height)
  {
  }

  /**
   * A bar is on once the content has overflowed its axis and stays on; it
   * latches (and its action is registered) only on the add that turns it on.
   */
  lemma ScrollFitLatches(panel: Rect, main: Rect, vbar: Rect, hbar: Rect, maxWidth: int, maxHeight: int,
                         vmax: int, hmax: int, scrollV: bool, scrollH: bool)
    ensures var r := ScrollFit(panel, main, vbar, hbar, maxWidth, maxHeight, vmax, hmax, scrollV, scrollH);
      (r.scrollVertical <==> scrollV || main.height > maxHeight)
      && (r.scrollHorizontal <==> scrollH || main.width > maxWidth)
      && (r.latchedV <==> !scrollV && r.scrollVertical)
      && (r.latchedH <==> !scrollH && r.scrollHorizontal)
  {
  }

  /** A bar that is on has the fixed thickness 15, sits on the viewport's edge and has the overflow as its maximum. */
  lemma ScrollFitBars(panel: Rect, main: Rect, vbar: Rect, hbar: Rect, maxWidth: int, maxHeight: int,
                      vmax: int, hmax: int, scrollV: bool, scrollH: bool)
    ensures var r := ScrollFit(panel, main, vbar, hbar, maxWidth, maxHeight, vmax, hmax, scrollV, scrollH);
      (r.scrollVertical ==> r.vbar.width == 15 && r.vbar.y == panel.y && r.vmax == main.height - maxHeight + hbar.height)
      && (r.scrollHorizontal ==> r.hbar.height == 15 && r.hbar.x == panel.x && r.hmax == main.width - maxWidth + r.vbar.width)
      && (!r.scrollVertical ==> r.vbar == vbar && r.vmax == vmax)
      && (!r.scrollHorizontal ==> r.hbar == hbar && r.hmax == hmax)
  {
  }
}
