/**
 * The window and its component tree. The components live in an arena
 * indexed by `Id`: parallel sequences hold each component's rectangle,
 * kind, parent and child list. The window holds the single focus reference
 * and a log of the user callbacks that ran.
 */
module Gui {
  import opened Wrappers
  import opened PyMath
  import opened Geometry
  import opened Widgets
  import opened TextBoxes
  import opened Values
  import opened Arenas
  import opened Layout
  import opened Routing
  import opened Events


  /** The four components `PScrollPanel` creates: itself, its main panel and its two bars. */
  function ScrollKinds(id: Id, maxWidth: int, maxHeight: int, o: Orientation): (ks: seq<Kind>)
    ensures |ks| == 4 && ks[0].ScrollPanel? && ks[0].main == id + 1 && ks[0].vbar == id + 2 && ks[0].hbar == id + 3
    ensures ks[1] == Panel(o) && ks[2].Bar? && ks[2].axis == Vertical && ks[3].Bar? && ks[3].axis == Horizontal
  {
    [ScrollPanel(id + 1, id + 2, id + 3, maxWidth, maxHeight, 0, 0, false, false),
     Panel(o), Bar(Vertical, 0, maxHeight, 30, []), Bar(Horizontal, 0, maxWidth, 30, [])]
  }

  function ScrollRects(): (rs: seq<Rect>)
    ensures |rs| == 4
  {
    [Rect(0, 0, 0, 0), Rect(0, 0, 0, 0), Rect(-50, -50, 0, 0), Rect(-50, -50, 0, 0)]
  }

  /** The four new kinds have the shapes `AppendedScroll` gives the new components. */
  lemma ScrollKindsMatch(a: Arena, kinds: seq<Kind>, maxWidth: int, maxHeight: int, o: Orientation)
    requires Matches(kinds, a.shapes)
    ensures Matches(kinds + ScrollKinds(|kinds|, maxWidth, maxHeight, o), AppendedScroll(a).shapes)
  {
    var ks := ScrollKinds(|kinds|, maxWidth, maxHeight, o);
    var ss := AppendedScroll(a).shapes;
    assert ss == a.shapes + [ScrollShape(|kinds| + 1, |kinds| + 2, |kinds| + 3), PanelShape, BarShape, BarShape];
    forall n | 0 <= n < |kinds| + 4
      ensures ShapeOf((kinds + ks)[n]) == ss[n]
    {
      if n >= |kinds| {
        assert (kinds + ks)[n] == ks[n - |kinds|];
      }
    }
  }

  /** A fresh window's arena: the main panel alone, with no container. */
  lemma InitialArena(o: Orientation)
    ensures Wf(Arena([None], [[]], [None], [0], 1, [0], [PanelShape]), 0)
    ensures Matches([Panel(o)], [PanelShape])
  {
  }

  /** The arena with one more detached component of kind `k` is well formed and its shapes match. */
  lemma Installable(a: Arena, main: Id, kinds: seq<Kind>, k: Kind)
    requires Wf(a, main) && Matches(kinds, a.shapes) && !k.ScrollPanel?
    ensures Wf(Appended(a, ShapeOf(k)), main)
    ensures Matches(kinds + [k], Appended(a, ShapeOf(k)).shapes)
  {
    AppendedWf(a, main, ShapeOf(k));
    MatchesAppend(kinds, a.shapes, [k]);
    assert seq(1, i requires 0 <= i < 1 => ShapeOf([k][i])) == [ShapeOf(k)];
  }

  /** The arena `PScrollPanel` leaves behind is well formed and its shapes match the four new kinds. */
  lemma ScrollInstallable(a: Arena, main: Id, kinds: seq<Kind>, maxWidth: int, maxHeight: int, o: Orientation)
    requires Wf(a, main) && Matches(kinds, a.shapes)
    ensures Wf(AppendedScroll(a), main)
    ensures Matches(kinds + ScrollKinds(|kinds|, maxWidth, maxHeight, o), AppendedScroll(a).shapes)
  {
    AppendedScrollWf(a, main);
    ScrollKindsMatch(a, kinds, maxWidth, maxHeight, o);
  }

  /** Whether `s` is a scroll panel whose main panel and bars are components with the kinds they need. */
  predicate ScrollReady(ks: seq<Kind>, s: Id)
  {
    s < |ks| && ks[s].ScrollPanel? && ks[s].main < |ks| && ks[s].vbar < |ks| && ks[s].hbar < |ks|
    && ks[s].vbar != ks[s].hbar && ks[ks[s].vbar].Bar? && ks[ks[s].hbar].Bar?
    && s != ks[s].vbar && s != ks[s].hbar && ks[s].main != s && ks[s].main != ks[s].vbar && ks[s].main != ks[s].hbar
  }

  /**
   * The second half of `PScrollPanel.add_component` on scroll panel `s`:
   * `ScrollFit` applied to the component rectangles, the bars' maximums and
   * the scroll flags, and a bar that latches gets the scroll action for `s`.
   */
  function ScrollAdded(ks: seq<Kind>, g: seq<Rect>, s: Id): (r: (seq<Kind>, seq<Rect>))
    requires ScrollReady(ks, s) && |g| == |ks|
    ensures |r.0| == |ks| && |r.1| == |g| && forall x :: 0 <= x < |ks| ==> ShapeOf(r.0[x]) == ShapeOf(ks[x])
    ensures forall x :: 0 <= x < |ks| && x != s && x != ks[s].vbar && x != ks[s].hbar ==> r.0[x] == ks[x] && r.1[x] == g[x]
  {
    var k := ks[s];
    var vk := ks[k.vbar];
    var hk := ks[k.hbar];
    var f := ScrollFit(g[s], g[k.main], g[k.vbar], g[k.hbar], k.maxWidth, k.maxHeight, vk.maximum, hk.maximum,
                       k.scrollVertical, k.scrollHorizontal);
    var vk' := Bar(vk.axis, vk.value, f.vmax, vk.thumb, if f.latchedV then vk.actions + [ScrollV(s)] else vk.actions);
    var hk' := Bar(hk.axis, hk.value, f.hmax, hk.thumb, if f.latchedH then hk.actions + [ScrollH(s)] else hk.actions);
    var k' := ScrollPanel(k.main, k.vbar, k.hbar, k.maxWidth, k.maxHeight, k.xOffset, k.yOffset, f.scrollVertical, f.scrollHorizontal);
    (ks[s := k'][k.vbar := vk'][k.hbar := hk'], g[s := f.panel][k.vbar := f.vbar][k.hbar := f.hbar])
  }

  /** `ScrollAdded` changes no component's shape. */
  lemma ScrollAddedMatches(ks: seq<Kind>, g: seq<Rect>, s: Id, shapes: seq<Shape>)
    requires ScrollReady(ks, s) && |g| == |ks| && Matches(ks, shapes)
    ensures Matches(ScrollAdded(ks, g, s).0, shapes)
  {
  }

  class Window {
    var geom: seq<Rect>
    var kind: seq<Kind>
    var parent: seq<Option<Id>>
    var children: seq<seq<Id>>
    var focus: Option<Id>
    /** The user callbacks run so far, in order. */
    var log: seq<Invocation>
    /** The window's own callbacks, run once per frame. */
    var actions: seq<Tag>
    /** The window callbacks run so far, in order. */
    var windowLog: seq<Tag>
    /** The window's main panel. */
    const main: Id := 0

    /** The component's container: its parent, or the scroll panel that owns it as main panel or bar. */
    ghost var up: seq<Option<Id>>
    /** Strictly increases along `up`; bounds every recursion over the tree. */
    ghost var rank: seq<nat>
    ghost var bound: nat
    /** The top of the component's tree. */
    ghost var rootOf: seq<Id>
    /** What each component is structurally; never changes. */
    ghost var shapes: seq<Shape>

    ghost function Tree(): Arena
      reads this`parent, this`children, this`up, this`rank, this`bound, this`rootOf, this`shapes
    {
      Arena(parent, children, up, rank, bound, rootOf, shapes)
    }

    /** The component tree is well formed. */
    ghost predicate Structure()
      reads this`parent, this`children, this`up, this`rank, this`bound, this`rootOf, this`shapes
    {
      Wf(Tree(), main)
    }

    ghost predicate ShapesMatch()
      reads this`kind, this`shapes
    {
      Matches(kind, shapes)
    }

    ghost predicate Valid()
      reads this
    {
      Structure() && ShapesMatch() && |geom| == |shapes| && (focus.Some? ==> focus.value < |shapes|)
    }

    /** `PWindow(width, height, orientation)`: an empty main panel at the origin, no focus. */
    constructor (o: Orientation)
      ensures Valid()
      ensures geom == [Rect(0, 0, 0, 0)] && kind == [Panel(o)] && parent == [None] && children == [[]]
      ensures focus == None && log == [] && actions == [] && windowLog == []
    {
      geom := [Rect(0, 0, 0, 0)];
      kind := [Panel(o)];
      parent := [None];
      children := [[]];
      focus := None;
      log := [];
      actions := [];
      windowLog := [];
      up := [None];
      rank := [0];
      bound := 1;
      rootOf := [0];
      shapes := [PanelShape];
      InitialArena(o);
    }

    /** A constructor other than `PScrollPanel`: a new detached component with its initial kind and rectangle. */
    method Create(b: Blueprint) returns (id: Id)
      requires Valid()
      modifies this`geom, this`kind, this`parent, this`children, this`up, this`rank, this`bound, this`rootOf, this`shapes
      ensures Valid()
      ensures id == old(|kind|)
      ensures kind == old(kind) + [Build(b).0] && geom == old(geom) + [Build(b).1]
      ensures parent == old(parent) + [None] && children == old(children) + [[]]
    {
      var (k, r) := Build(b);
      id := Append(k, r);
    }

    method Append(k: Kind, r: Rect) returns (id: Id)
      requires Valid() && !k.ScrollPanel?
      modifies this`geom, this`kind, this`parent, this`children, this`up, this`rank, this`bound, this`rootOf, this`shapes
      ensures Valid()
      ensures id == old(|kind|)
      ensures kind == old(kind) + [k] && geom == old(geom) + [r]
      ensures parent == old(parent) + [None] && children == old(children) + [[]]
    {
      id := |kind|;
      ghost var a := Tree();
      Installable(a, main, kind, k);
      Install([k], [r], [None], [[]], Appended(a, ShapeOf(k)));
    }

    /**
     * `PScrollPanel(gc, max_width, max_height, orientation)`: the scroll
     * panel with its own main panel and two bars, parked at (-50, -50)
     * with no size; both bars start with a 30-pixel thumb.
     */
    method CreateScrollPanel(maxWidth: int, maxHeight: int, o: Orientation) returns (id: Id)
      requires Valid()
      modifies this`geom, this`kind, this`parent, this`children, this`up, this`rank, this`bound, this`rootOf, this`shapes
      ensures Valid()
      ensures id == old(|kind|)
      ensures kind == old(kind) + ScrollKinds(id, maxWidth, maxHeight, o)
      ensures geom == old(geom) + ScrollRects()
      ensures parent == old(parent) + [None, None, None, None] && children == old(children) + [[], [], [], []]
    {
      id := |kind|;
      ghost var a := Tree();
      ScrollInstallable(a, main, kind, maxWidth, maxHeight, o);
      Install(ScrollKinds(id, maxWidth, maxHeight, o), ScrollRects(), [None, None, None, None], [[], [], [], []], AppendedScroll(a));
    }

    /** Appends components whose structure `t` already describes. */
    method Install(ks: seq<Kind>, rs: seq<Rect>, ps: seq<Option<Id>>, cs: seq<seq<Id>>, ghost t: Arena)
      requires Wf(t, main) && Matches(kind + ks, t.shapes) && |geom| + |rs| == |t.shapes|
      requires t.parent == parent + ps && t.children == children + cs
      requires focus.Some? ==> focus.value < |geom|
      modifies this`geom, this`kind, this`parent, this`children, this`up, this`rank, this`bound, this`rootOf, this`shapes
      ensures Valid() && Tree() == t
      ensures kind == old(kind) + ks && geom == old(geom) + rs && parent == old(parent) + ps && children == old(children) + cs
    {
      geom, kind, parent, children := geom + rs, kind + ks, parent + ps, children + cs;
      up, rank, bound, rootOf, shapes := t.up, t.rank, t.bound, t.rootOf, t.shapes;
      assert Tree() == t;
    }

    /** The rectangles, the tree and the kinds are what the layout functions need. */
    lemma LaidOut()
      requires Valid()
      ensures Laid(Tree(), kind, geom)
    {
    }

    /**
     * `PPanel.adjust_children`: stacks the children of panel `n` from its
     * origin, then lets each child adjust its own children.
     */
    method AdjustChildren(n: Id)
      requires Valid() && n < |kind| && kind[n].Panel?
      modifies this`geom
      ensures Valid() && Laid(Tree(), kind, old(geom))
      ensures geom == Adjusted(Tree(), kind, old(geom), n)
      decreases rank[n], 2, 0
    {
      LaidOut();
      if |children[n]| != 0 {
        ChildrenOf(Tree(), kind, geom, n);
        StackChildren(n, children[n], kind[n].orientation);
        AdjustKids(n);
      }
    }

    /** The second loop of `PPanel.adjust_children`: each child of panel `n` in turn adjusts its own children. */
    method AdjustKids(n: Id)
      requires Valid() && n < |kind| && kind[n].Panel?
      modifies this`geom
      ensures Valid() && Laid(Tree(), kind, old(geom))
      ensures geom == Kids(Tree(), kind, old(geom), n, |children[n]|)
      decreases rank[n], 1, 1
    {
      LaidOut();
      var i := 0;
      ghost var t, g1 := Tree(), geom;
      while i < |children[n]|
        invariant 0 <= i <= |children[n]| && Valid() && Tree() == t
        invariant geom == Kids(t, kind, g1, n, i)
      {
        AdjustChild(n, i);
        i := i + 1;
      }
    }

    /**
     * The first loop of `PPanel.adjust_children` on panel `n` with children
     * `cs` along `o`: each child in turn goes where the sizes before it add up to.
     */
    method StackChildren(n: Id, cs: seq<Id>, o: Orientation)
      requires n < |geom| && n !in cs && forall k :: 0 <= k < |cs| ==> cs[k] < |geom|
      requires forall k, l :: 0 <= k < l < |cs| ==> cs[k] != cs[l]
      modifies this`geom
      ensures geom == Stack(old(geom), cs, o, MainPos(old(geom)[n], o), CrossPos(old(geom)[n], o), |cs|)
    {
      ghost var g0 := geom;
      ghost var origin := MainPos(g0[n], o);
      var cross := CrossPos(geom[n], o);
      var cur := MainPos(geom[n], o);
      var i := 0;
      while i < |cs|
        invariant 0 <= i <= |cs|
        invariant geom == Stack(g0, cs, o, origin, cross, i)
        invariant cur == StackStart(Rects(g0, cs), o, origin, i)
      {
        var c := cs[i];
        StackStep(g0, cs, o, origin, cross, i, n);
        var size := MainSize(geom[c], o);
        geom := geom[c := SetPos(geom[c], o, cur, cross)];
        cur := cur + size;
        i := i + 1;
      }
    }

    /** `adjust_children` of the `i`-th child of panel `n`, as its kind defines it. */
    method AdjustChild(n: Id, i: nat)
      requires Valid() && n < |kind| && kind[n].Panel? && i < |children[n]|
      modifies this`geom
      ensures Valid() && Laid(Tree(), kind, old(geom))
      ensures geom == ChildAdjust(Tree(), kind, old(geom), n, i)
      decreases rank[n], 1, 0
    {
      LaidOut();
      var c := children[n][i];
      ghost var t, g0 := Tree(), geom;
      ChildAdjustByKind(t, kind, g0, n, i, c);
      match kind[c] {
        case Panel(_) =>
          AdjustChildren(c);
        case Wheel(axis, _, _, _) =>
          FitToParent(c, parent[c].value, axis);
        case Bar(axis, _, _, _, _) =>
          FitToParent(c, parent[c].value, axis);
        case ScrollPanel(_, _, _, _, _, _, _, _, _) =>
          AdjustScroll(c);
        case _ =>
      }
    }

    /** `PWheel.adjust_children` and `PBar.adjust_children`: component `c` takes its parent `p`'s height (vertical) or width. */
    method FitToParent(c: Id, p: Id, axis: Orientation)
      requires c < |geom| && p < |geom|
      modifies this`geom
      ensures geom == Fitted(old(geom), c, p, axis)
    {
      if axis == Vertical {
        geom := geom[c := geom[c].(height := geom[p].height)];
      } else {
        geom := geom[c := geom[c].(width := geom[p].width)];
      }
    }

    /** `PScrollPanel.adjust_children`: shown bars go to the right and bottom edges, the main panel to the origin. */
    method AdjustScroll(s: Id)
      requires Valid() && s < |kind| && kind[s].ScrollPanel?
      modifies this`geom
      ensures Valid()
      ensures var k := kind[s];
        k.main < |geom| && k.vbar < |geom| && k.hbar < |geom|
        && k.main != s && k.vbar != s && k.hbar != s && k.main != k.vbar && k.main != k.hbar && k.vbar != k.hbar
        && geom == ScrollAdjusted(old(geom), s, k.main, k.vbar, k.hbar, k.scrollVertical, k.scrollHorizontal)
    {
      var k := kind[s];
      assert ShapeOf(k) == shapes[s] && OwnsParts(Tree(), s);
      PlaceScrollParts(s, k.main, k.vbar, k.hbar, k.scrollVertical, k.scrollHorizontal);
    }

    /** The moves of `PScrollPanel.adjust_children` on scroll panel `s` with main panel `m` and bars `v`, `h`. */
    method PlaceScrollParts(s: Id, m: Id, v: Id, h: Id, sv: bool, sh: bool)
      requires s < |geom| && m < |geom| && v < |geom| && h < |geom|
      requires m != s && v != s && h != s && m != v && m != h && v != h
      modifies this`geom
      ensures geom == ScrollAdjusted(old(geom), s, m, v, h, sv, sh)
    {
      if sv {
        geom := geom[v := geom[v].(y := geom[s].y)];
        geom := geom[v := geom[v].(x := geom[s].width + geom[s].x - geom[v].width)];
      }
      if sh {
        geom := geom[h := geom[h].(y := geom[s].height + geom[s].y - geom[h].height)];
        geom := geom[h := geom[h].(x := geom[s].x)];
      }
      geom := geom[m := geom[m].(x := geom[s].x)];
      geom := geom[m := geom[m].(y := geom[s].y)];
    }

    /**
     * `PPanel.adjust_parent` from panel `n`: resizes the parent to fit its
     * children and carries on upwards; the panel at the top of the parent
     * chain lays out its tree instead.
     */
    method AdjustParent(n: Id)
      requires Valid() && n < |kind| && kind[n].Panel?
      modifies this`geom
      ensures Valid() && Laid(Tree(), kind, old(geom))
      ensures geom == ParentAdjusted(Tree(), kind, old(geom), n)
      decreases bound - rank[n]
    {
      LaidOut();
      match parent[n] {
        case None =>
          AdjustChildren(n);
        case Some(p) =>
          assert up[n] == Some(p) && rank[n] < rank[p] && ShapeOf(kind[p]) == shapes[p];
          ChildrenOf(Tree(), kind, geom, p);
          FitToChildren(p, children[p], kind[p].orientation);
          AdjustParent(p);
      }
    }

    /** The resizing step of `adjust_parent`: panel `p` with children `cs` along `o` takes the size they add up to. */
    method FitToChildren(p: Id, cs: seq<Id>, o: Orientation)
      requires p < |geom| && forall k :: 0 <= k < |cs| ==> cs[k] < |geom|
      modifies this`geom
      ensures geom == old(geom)[p := Resized(old(geom)[p], Rects(old(geom), cs), o)]
    {
      var newMain, newCross := Measure(cs, o);
      if o == Vertical {
        geom := geom[p := geom[p].(height := newMain)];
        geom := geom[p := geom[p].(width := newCross)];
      } else {
        geom := geom[p := geom[p].(height := newCross)];
        geom := geom[p := geom[p].(width := newMain)];
      }
    }

    /** The loop of `adjust_parent`: the children's sizes added up along `o` and their largest size across it. */
    method Measure(cs: seq<Id>, o: Orientation) returns (sum: int, most: int)
      requires forall k :: 0 <= k < |cs| ==> cs[k] < |geom|
      ensures sum == SumMain(Rects(geom, cs), o) && most == MaxCross(Rects(geom, cs), o)
    {
      ghost var rs := Rects(geom, cs);
      sum, most := 0, 0;
      var i := 0;
      while i < |cs|
        invariant 0 <= i <= |cs|
        invariant sum == SumMain(rs[..i], o) && most == MaxCross(rs[..i], o)
      {
        assert rs[..i + 1][..i] == rs[..i];
        sum := sum + MainSize(geom[cs[i]], o);
        most := Max(most, CrossSize(geom[cs[i]], o));
        i := i + 1;
      }
      assert rs[..|cs|] == rs;
    }

    /**
     * `PPanel.add_component(component)`: adding a panel to itself exits the
     * program; otherwise the component goes after the panel's last child,
     * the panel grows by it, it becomes the panel's last child, and the
     * panel adjusts its parents.
     */
    method AddComponent(p: Id, c: Id) returns (exited: bool)
      requires Valid() && p < |kind| && kind[p].Panel? && c < |kind|
      requires c != p ==> up[c].None? && rootOf[p] != c
      modifies this`geom, this`parent, this`children, this`up, this`rank, this`bound, this`rootOf
      ensures Valid()
      ensures exited <==> c == p
      ensures exited ==> geom == old(geom) && parent == old(parent) && children == old(children)
      ensures !exited ==> parent == old(parent)[c := Some(p)] && children == old(children)[p := old(children)[p] + [c]]
      ensures !exited ==> geom == ParentAdjusted(Tree(), kind, Joined(old(geom), old(children)[p], p, c, kind[p].orientation), p)
    {
      if c == p {
        return true;
      }
      exited := false;
      LaidOut();
      ChildrenOf(Tree(), kind, geom, p);
      PlaceAfter(p, c, children[p], kind[p].orientation);
      Attach(p, c);
      AdjustParent(p);
    }

    /** The placement step of `add_component`: `c` goes after `p`'s last child `cs` and `p` grows to hold it. */
    method PlaceAfter(p: Id, c: Id, cs: seq<Id>, o: Orientation)
      requires p < |geom| && c < |geom| && p != c && forall k :: 0 <= k < |cs| ==> cs[k] < |geom|
      modifies this`geom
      ensures geom == Joined(old(geom), cs, p, c, o)
    {
      var last := if |cs| == 0 then None else Some(geom[cs[|cs| - 1]]);
      var placed := Place(geom[p], last, geom[c], o);
      geom := geom[c := placed.1][p := placed.0];
    }

    /** The bookkeeping step of `add_component`: `c` gets `p` as parent and becomes its last child. */
    method Attach(p: Id, c: Id)
      requires CanAttach(Tree(), main, p, c) && Matches(kind, shapes) && |geom| == |shapes|
      requires focus.Some? ==> focus.value < |geom|
      modifies this`parent, this`children, this`up, this`rank, this`bound, this`rootOf
      ensures Valid() && Tree() == Attached(old(Tree()), p, c)
      ensures parent == old(parent)[c := Some(p)] && children == old(children)[p := old(children)[p] + [c]]
    {
      ghost var t := Attached(Tree(), p, c);
      AttachedWf(Tree(), main, p, c);
      parent := parent[c := Some(p)];
      children := children[p := children[p] + [c]];
      up := t.up;
      rank := t.rank;
      bound := t.bound;
      rootOf := t.rootOf;
      assert Tree() == t;
    }

    /** The parts of a scroll panel are distinct components of the kinds they are made with. */
    lemma PartsReady(s: Id)
      requires Valid() && s < |kind| && kind[s].ScrollPanel?
      ensures ScrollReady(kind, s) && kind[kind[s].main].Panel?
    {
      assert ShapeOf(kind[s]) == shapes[s] && OwnsParts(Tree(), s);
      var k := kind[s];
      assert ShapeOf(kind[k.main]) == PanelShape && ShapeOf(kind[k.vbar]) == BarShape && ShapeOf(kind[k.hbar]) == BarShape;
      assert rank[k.main] < rank[s] && rank[k.vbar] < rank[s] && rank[k.hbar] < rank[s];
    }

    /**
     * `PScrollPanel.add_component(component)`: the component goes into the
     * main panel, then the viewport, bars and scroll flags follow the new
     * content size. The scroll panel's own parent is not adjusted.
     */
    method ScrollAdd(s: Id, c: Id) returns (exited: bool)
      requires Valid() && s < |kind| && kind[s].ScrollPanel? && c < |kind|
      requires c != kind[s].main ==> up[c].None? && rootOf[kind[s].main] != c
      modifies this`geom, this`kind, this`parent, this`children, this`up, this`rank, this`bound, this`rootOf
      ensures Valid()
      ensures exited <==> c == old(kind[s]).main
      ensures exited ==> geom == old(geom) && kind == old(kind) && parent == old(parent) && children == old(children)
      ensures !exited ==> var m := old(kind[s]).main;
        parent == old(parent)[c := Some(m)] && children == old(children)[m := old(children)[m] + [c]]
        && ScrollReady(old(kind), s) && old(kind)[m].Panel? && kind[m].Panel? && m != s && m != c
        && (kind, geom) == ScrollAdded(old(kind),
             ParentAdjusted(Tree(), old(kind), Joined(old(geom), old(children)[m], m, c, old(kind)[m].orientation), m), s)
    {
      PartsReady(s);
      var m := kind[s].main;
      exited := AddComponent(m, c);
      if !exited {
        FitScroll(s);
      }
    }

    /** Applies `ScrollAdded` to scroll panel `s` in place. */
    method FitScroll(s: Id)
      requires Valid() && s < |kind| && kind[s].ScrollPanel?
      modifies this`geom, this`kind
      ensures Valid() && Tree() == old(Tree()) && ScrollReady(old(kind), s)
      ensures (kind, geom) == ScrollAdded(old(kind), old(geom), s)
    {
      PartsReady(s);
      ghost var t := Tree();
      var r := ScrollAdded(kind, geom, s);
      ScrollAddedMatches(kind, geom, s, shapes);
      kind, geom := r.0, r.1;
      assert Tree() == t;
    }

    /**
     * The dispatch `PPanel` and `PScrollPanel` share between `mouse_down`
     * and `mouse_up`: the component the event at (x, y) on `n` goes to next,
     * and the point it gets there.
     */
    method NextHop(n: Id, x: int, y: int) returns (h: Option<Hop>)
      requires Valid() && n < |kind|
      ensures h == Next(Tree(), kind, geom, n, x, y)
    {
      LaidOut();
      match kind[n] {
        case Panel(_) =>
          ChildrenOf(Tree(), kind, geom, n);
          var cs := children[n];
          var i := FindHit(Rects(geom, cs), x, y);
          if i.Some? {
            h := Some(Hop(cs[i.value], x, y));
          } else {
            h := None;
          }
        case ScrollPanel(m, v, hb, _, _, xo, yo, _, _) =>
          PartsReady(n);
          if Contains(geom[v], x, y) {
            h := Some(Hop(v, x, y));
          } else if Contains(geom[hb], x, y) {
            h := Some(Hop(hb, x, y));
          } else if Contains(geom[m], x, y) {
            h := Some(Hop(m, x + xo - geom[n].x, y + yo - geom[n].y));
          } else {
            h := None;
          }
        case _ =>
          h := None;
      }
    }

    /**
     * `mouse_down` on `n` at (x, y): every component but a label, paragraph,
     * strut or scroll panel takes the focus, a container passes the event on,
     * and a text box moves its cursor to the click.
     */
    method MouseDown(n: Id, x: int, y: int)
      requires Valid() && n < |kind|
      modifies this`focus, this`kind
      ensures Valid() && Tree() == old(Tree()) && geom == old(geom)
      ensures kind == Down(Tree(), old(kind), geom, old(focus), n, x, y).kinds
      ensures focus == Down(Tree(), old(kind), geom, old(focus), n, x, y).focus
      decreases rank[n]
    {
      LaidOut();
      if Claims(kind[n]) {
        focus := Some(n);
      }
      var h := NextHop(n, x, y);
      match h {
        case Some(c) =>
          DownStep(Tree(), kind, geom, old(focus), n, x, y, c);
          MouseDown(c.id, c.x, c.y);
        case None =>
          DownStops(Tree(), old(kind), geom, old(focus), n, x, y);
          match kind[n] {
            case TextBoxWidget(tb, fs) =>
              kind := kind[n := TextBoxWidget(Click(tb, fs, geom[n].x, x), fs)];
            case _ =>
          }
      }
    }

    /**
     * The loop `for action in self.actions: action(self)` of a leaf's
     * `mouse_up`, for callbacks `acts` of component `src` whose value is now
     * `value`: a user callback is logged, a scroll action sets its panel's offset.
     */
    method Fire(src: Id, acts: seq<Action>, value: int)
      modifies this`kind, this`log
      ensures kind == FireKinds(old(kind), acts, value) && log == old(log) + FireLog(acts, src)
    {
      var i := 0;
      while i < |acts|
        invariant 0 <= i <= |acts|
        invariant kind == FireKinds(old(kind), acts[..i], value)
        invariant log == old(log) + FireLog(acts[..i], src)
      {
        assert acts[..i + 1][..i] == acts[..i];
        match acts[i] {
          case User(t) =>
            log := log + [Invocation(t, src)];
          case ScrollV(p) =>
            if p < |kind| && kind[p].ScrollPanel? {
              kind := kind[p := kind[p].(yOffset := value)];
            }
          case ScrollH(p) =>
            if p < |kind| && kind[p].ScrollPanel? {
              kind := kind[p := kind[p].(xOffset := value)];
            }
        }
        i := i + 1;
      }
      assert acts[..|acts|] == acts;
    }

    /**
     * `mouse_up` on `n` at (x, y) with the pointer at (px, py): a container
     * passes the event on; a focused button, check box, selector, wheel or
     * bar stores its new state, runs its callbacks and releases the focus.
     * Returns whether the handler raised.
     */
    method MouseUp(n: Id, x: int, y: int, px: int, py: int) returns (crashed: bool)
      requires Valid() && n < |kind|
      modifies this`focus, this`kind, this`log
      ensures Valid() && Tree() == old(Tree()) && geom == old(geom)
      ensures kind == Up(Tree(), old(kind), geom, old(focus), n, x, y, px, py).kinds
      ensures focus == Up(Tree(), old(kind), geom, old(focus), n, x, y, px, py).focus
      ensures log == old(log) + Up(Tree(), old(kind), geom, old(focus), n, x, y, px, py).fired
      ensures crashed == Up(Tree(), old(kind), geom, old(focus), n, x, y, px, py).crashed
      decreases rank[n]
    {
      LaidOut();
      var h := NextHop(n, x, y);
      match h {
        case Some(c) =>
          UpStep(Tree(), kind, geom, focus, n, x, y, px, py, c);
          crashed := MouseUp(c.id, c.x, c.y, px, py);
        case None =>
          assert Route(Tree(), kind, geom, n, x, y) == [Hop(n, x, y)];
          var u := LeafUp(kind[n], geom[n], focus == Some(n), x, y, px, py);
          match u {
            case Committed(next, acts) =>
              kind := kind[n := next];
              FireKeepsShapes(kind, acts, SourceValue(next));
              Fire(n, acts, SourceValue(next));
              focus := None;
              crashed := false;
            case Crashed =>
              crashed := true;
            case Ignored =>
              crashed := false;
          }
      }
    }

    /**
     * One event taken from the queue in `PWindow.start`, with the pointer at
     * (px, py): presses and releases go to the main panel, and a release
     * then goes to the focus as well when nothing raised and a focus is
     * left; key presses go to the focus. Returns whether a handler raised.
     */
    method Step(e: Event, px: int, py: int) returns (crashed: bool)
      requires Valid()
      modifies this`focus, this`kind, this`log
      ensures Valid()
      ensures kind == Dispatch(Tree(), old(kind), geom, old(focus), e, px, py).kinds
      ensures focus == Dispatch(Tree(), old(kind), geom, old(focus), e, px, py).focus
      ensures log == old(log) + Dispatch(Tree(), old(kind), geom, old(focus), e, px, py).fired
      ensures crashed == Dispatch(Tree(), old(kind), geom, old(focus), e, px, py).crashed
    {
      LaidOut();
      match e {
        case MouseButtonDown(x, y) =>
          MouseDown(main, x, y);
          crashed := false;
        case MouseButtonUp(x, y) =>
          crashed := Release(x, y, px, py);
        case KeyPress(key) =>
          KeyToFocus(key);
          crashed := false;
        case KeyRelease(_) =>
          crashed := false;
      }
    }

    /** A button release: to the main panel, then to the focus if nothing raised and a focus is left. */
    method Release(x: int, y: int, px: int, py: int) returns (crashed: bool)
      requires Valid()
      modifies this`focus, this`kind, this`log
      ensures Valid() && Tree() == old(Tree()) && geom == old(geom)
      ensures kind == Dispatch(Tree(), old(kind), geom, old(focus), MouseButtonUp(x, y), px, py).kinds
      ensures focus == Dispatch(Tree(), old(kind), geom, old(focus), MouseButtonUp(x, y), px, py).focus
      ensures log == old(log) + Dispatch(Tree(), old(kind), geom, old(focus), MouseButtonUp(x, y), px, py).fired
      ensures crashed == Dispatch(Tree(), old(kind), geom, old(focus), MouseButtonUp(x, y), px, py).crashed
    {
      ghost var t, k0, f0, l0 := Tree(), kind, focus, log;
      LaidOut();
      ghost var o1 := Up(t, k0, geom, f0, main, x, y, px, py);
      crashed := MouseUp(main, x, y, px, py);
      assert kind == o1.kinds && focus == o1.focus && log == l0 + o1.fired && crashed == o1.crashed;
      if !crashed && focus.Some? {
        ghost var o2 := Up(t, o1.kinds, geom, o1.focus, o1.focus.value, x, y, px, py);
        crashed := MouseUp(focus.value, x, y, px, py);
        assert kind == o2.kinds && focus == o2.focus && crashed == o2.crashed;
        assert log == (l0 + o1.fired) + o2.fired;
        assert log == l0 + (o1.fired + o2.fired);
        assert Dispatch(t, k0, geom, f0, MouseButtonUp(x, y), px, py) == Outcome(o2.kinds, o2.focus, o1.fired + o2.fired, o2.crashed);
      } else {
        assert Dispatch(t, k0, geom, f0, MouseButtonUp(x, y), px, py) == o1;
      }
    }

    /** A key press: a focused text box takes the key. */
    method KeyToFocus(key: int)
      requires Valid()
      modifies this`kind
      ensures Valid() && kind == Key(old(kind), focus, key).kinds
    {
      if focus.Some? && kind[focus.value].TextBoxWidget? {
        var t := kind[focus.value];
        kind := kind[focus.value := TextBoxWidget(KeyDown(t.box, key), t.fontsize)];
      }
    }

    /** `add_action` of a button, check box, wheel or bar: the user callback `tag` runs after those it already has. */
    method AddAction(n: Id, tag: Tag)
      requires Valid() && n < |kind| && HasActions(kind[n])
      modifies this`kind
      ensures Valid() && kind == old(kind)[n := WithAction(old(kind)[n], User(tag))]
    {
      kind := kind[n := WithAction(kind[n], User(tag))];
    }

    /** `PWindow.add_component`: the component goes into the main panel. */
    method AddToWindow(c: Id) returns (exited: bool)
      requires Valid() && c < |kind|
      requires c != main ==> up[c].None? && rootOf[main] != c
      modifies this`geom, this`parent, this`children, this`up, this`rank, this`bound, this`rootOf
      ensures Valid()
      ensures exited <==> c == main
      ensures !exited ==> parent == old(parent)[c := Some(main)] && children == old(children)[main := old(children)[main] + [c]]
      ensures !exited ==> geom == ParentAdjusted(Tree(), kind, Joined(old(geom), old(children)[main], main, c, kind[main].orientation), main)
    {
      assert ShapeOf(kind[main]) == shapes[main];
      exited := AddComponent(main, c);
    }

    /** `PWindow.add_action`: a window callback, run once at the end of every frame. */
    method AddWindowAction(tag: Tag)
      modifies this`actions
      ensures actions == old(actions) + [tag]
    {
      actions := actions + [tag];
    }

    /** The end of one pass of the loop in `PWindow.start`: the window callbacks run in the order they were added. */
    method EndFrame()
      modifies this`windowLog
      ensures windowLog == old(windowLog) + actions
    {
      var i := 0;
      while i < |actions|
        invariant 0 <= i <= |actions| && windowLog == old(windowLog) + actions[..i]
      {
        assert actions[..i + 1] == actions[..i] + [actions[i]];
        windowLog := windowLog + [actions[i]];
        i := i + 1;
      }
      assert actions[..|actions|] == actions;
    }

    /** `PCheckBox.toggle(value)`: flips the check box, or sets it when a value is given. */
    method ToggleCheckBox(n: Id, value: Option<bool>)
      requires Valid() && n < |kind| && kind[n].CheckBox?
      modifies this`kind
      ensures Valid() && kind == old(kind)[n := old(kind)[n].(checked := Toggle(old(kind)[n].checked, value))]
    {
      kind := kind[n := kind[n].(checked := Toggle(kind[n].checked, value))];
    }

    /** `PSelector.scroll_up`, `scroll_down`, `scroll_to` and `add_option` on selector `n`, applied in place. */
    method ScrollSelectorUp(n: Id)
      requires Valid() && n < |kind| && kind[n].SelectorWidget?
      modifies this`kind
      ensures Valid() && kind == old(kind)[n := old(kind)[n].(selector := ScrollUp(old(kind)[n].selector))]
    {
      kind := kind[n := kind[n].(selector := ScrollUp(kind[n].selector))];
    }

    method ScrollSelectorDown(n: Id)
      requires Valid() && n < |kind| && kind[n].SelectorWidget?
      modifies this`kind
      ensures Valid() && kind == old(kind)[n := old(kind)[n].(selector := ScrollDown(old(kind)[n].selector))]
    {
      kind := kind[n := kind[n].(selector := ScrollDown(kind[n].selector))];
    }

    method ScrollSelectorTo(n: Id, option: int)
      requires Valid() && n < |kind| && kind[n].SelectorWidget?
      modifies this`kind
      ensures Valid() && kind == old(kind)[n := old(kind)[n].(selector := ScrollTo(old(kind)[n].selector, option))]
    {
      kind := kind[n := kind[n].(selector := ScrollTo(kind[n].selector, option))];
    }

    method AddSelectorOption(n: Id, value: string)
      requires Valid() && n < |kind| && kind[n].SelectorWidget?
      modifies this`kind
      ensures Valid() && kind == old(kind)[n := old(kind)[n].(selector := AddOption(old(kind)[n].selector, value))]
    {
      kind := kind[n := kind[n].(selector := AddOption(kind[n].selector, value))];
    }

    /** `set_thumb` of bar `n`: the thumb is clamped to the bar's length along its axis. */
    method SetBarThumb(n: Id, value: int)
      requires Valid() && n < |kind| && kind[n].Bar?
      modifies this`kind
      ensures Valid()
      ensures kind == old(kind)[n := old(kind)[n].(thumb := SetThumb(value, MainSize(geom[n], old(kind)[n].axis)))]
    {
      kind := kind[n := kind[n].(thumb := SetThumb(value, MainSize(geom[n], kind[n].axis)))];
    }
  }
}
