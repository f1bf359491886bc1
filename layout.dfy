/** The geometry of `adjust_children` and `adjust_parent`: stacking a panel's children and resizing it to fit them. */
module Layout {
  import opened Wrappers
  import opened Geometry
  import opened Widgets
  import opened Arenas

  /** The rectangles of the listed components, in list order. */
  function Rects(g: seq<Rect>, cs: seq<Id>): (rs: seq<Rect>)
    requires forall i :: 0 <= i < |cs| ==> cs[i] < |g|
    ensures |rs| == |cs| && forall i :: 0 <= i < |cs| ==> rs[i] == g[cs[i]]
  {
    seq(|cs|, i requires 0 <= i < |cs| => g[cs[i]])
  }

  /** A rectangle moved to `main` along the axis and `cross` across it, keeping its size. */
  function SetPos(r: Rect, o: Orientation, main: int, cross: int): (s: Rect)
    ensures MainPos(s, o) == main && CrossPos(s, o) == cross && s.width == r.width && s.height == r.height
  {
    if o == Vertical then r.(y := main, x := cross) else r.(x := main, y := cross)
  }

  /** A panel's rectangle resized to the sum of its children's main sizes and the largest cross size. */
  function Resized(r: Rect, rs: seq<Rect>, o: Orientation): (s: Rect)
    ensures s.x == r.x && s.y == r.y && MainSize(s, o) == SumMain(rs, o) && CrossSize(s, o) == MaxCross(rs, o)
  {
    if o == Vertical then r.(height := SumMain(rs, o), width := MaxCross(rs, o)) else r.(width := SumMain(rs, o), height := MaxCross(rs, o))
  }

  /**
   * The first `i` children moved to their stacked positions from `origin`,
   * computed from the sizes in `g`.
   */
  function Stack(g: seq<Rect>, cs: seq<Id>, o: Orientation, origin: int, cross: int, i: nat): (r: seq<Rect>)
    requires i <= |cs| && forall k :: 0 <= k < |cs| ==> cs[k] < |g|
    ensures |r| == |g|
  {
    if i == 0 then g
    else Stack(g, cs, o, origin, cross, i - 1)[cs[i - 1] := SetPos(g[cs[i - 1]], o, StackStart(Rects(g, cs), o, origin, i - 1), cross)]
  }

  /** What the layout functions need: a well-formed tree, kinds that match it and one rectangle per component. */
  ghost predicate Laid(a: Arena, ks: seq<Kind>, g: seq<Rect>)
  {
    Wf(a, 0) && Matches(ks, a.shapes) && |g| == |a.shapes|
  }

  /** `x` lies strictly inside `y`'s tree: following containers up from `x` reaches `y`. */
  ghost predicate Below(a: Arena, x: Id, y: Id)
    requires Wf(a, 0) && x < |a.shapes|
    decreases a.bound - a.rank[x]
  {
    a.up[x].Some? && (a.up[x].value == y || Below(a, a.up[x].value, y))
  }

  lemma {:induction false} BelowRank(a: Arena, x: Id, y: Id)
    requires Wf(a, 0) && x < |a.shapes| && Below(a, x, y)
    ensures y < |a.shapes| && a.rank[x] < a.rank[y]
    decreases a.bound - a.rank[x]
  {
    var u := a.up[x].value;
    assert u < |a.shapes| && a.rank[x] < a.rank[u];
    if u != y {
      BelowRank(a, u, y);
    }
  }

  /** Everything inside a child's tree is inside its container's tree. */
  lemma {:induction false} BelowUp(a: Arena, x: Id, c: Id, n: Id)
    requires Wf(a, 0) && x < |a.shapes| && c < |a.shapes| && a.up[c] == Some(n) && Below(a, x, c)
    ensures Below(a, x, n)
    decreases a.bound - a.rank[x]
  {
    var u := a.up[x].value;
    assert u < |a.shapes| && a.rank[x] < a.rank[u];
    if u != c {
      BelowUp(a, u, c, n);
    }
  }

  /** A wheel or bar stretched to its panel's height (vertical) or width (horizontal), as its `adjust_children` does. */
  function Fitted(g: seq<Rect>, c: Id, p: Id, axis: Orientation): (r: seq<Rect>)
    requires c < |g| && p < |g|
    ensures |r| == |g| && forall x :: 0 <= x < |g| && x != c ==> r[x] == g[x]
    ensures r[c].x == g[c].x && r[c].y == g[c].y
    ensures if axis == Vertical then r[c].height == g[p].height && r[c].width == g[c].width
            else r[c].width == g[p].width && r[c].height == g[c].height
  {
    if axis == Vertical then g[c := g[c].(height := g[p].height)] else g[c := g[c].(width := g[p].width)]
  }

  /**
   * `PScrollPanel.adjust_children` for scroll panel `s` with main panel `m`
   * and bars `v`, `h`: a shown vertical bar goes to the right edge, a shown
   * horizontal bar to the bottom edge, and the main panel to the scroll
   * panel's origin. The main panel's own children are not moved.
   */
  function ScrollAdjusted(g: seq<Rect>, s: Id, m: Id, v: Id, h: Id, sv: bool, sh: bool): (r: seq<Rect>)
    requires s < |g| && m < |g| && v < |g| && h < |g|
    requires m != s && v != s && h != s && m != v && m != h && v != h
    ensures |r| == |g| && forall x :: 0 <= x < |g| && x != m && x != v && x != h ==> r[x] == g[x]
    ensures r[m] == g[m].(x := g[s].x, y := g[s].y)
    ensures r[v] == if sv then g[v].(y := g[s].y, x := g[s].x + g[s].width - g[v].width) else g[v]
    ensures r[h] == if sh then g[h].(y := g[s].y + g[s].height - g[h].height, x := g[s].x) else g[h]
  {
    var g1 := if sv then g[v := g[v].(y := g[s].y, x := g[s].width + g[s].x - g[v].width)] else g;
    var g2 := if sh then g1[h := g1[h].(y := g1[s].height + g1[s].y - g1[h].height, x := g1[s].x)] else g1;
    g2[m := g2[m].(x := g2[s].x, y := g2[s].y)]
  }

  /**
   * `PPanel.adjust_children` on panel `n`: its children are stacked from
   * its origin in list order (sizes as they were before the call), then
   * each child adjusts its own children in turn.
   */
  function Adjusted(a: Arena, ks: seq<Kind>, g: seq<Rect>, n: Id): (r: seq<Rect>)
    requires Laid(a, ks, g) && n < |ks| && ks[n].Panel?
    ensures |r| == |g|
    decreases a.rank[n], 2, 0
  {
    var cs := a.children[n];
    if cs == [] then g
    else
      var o := ks[n].orientation;
      Kids(a, ks, Stack(g, cs, o, MainPos(g[n], o), CrossPos(g[n], o), |cs|), n, |cs|)
  }

  /** The second loop of `PPanel.adjust_children`: the first `i` children of `n` adjust their own children. */
  function Kids(a: Arena, ks: seq<Kind>, g: seq<Rect>, n: Id, i: nat): (r: seq<Rect>)
    requires Laid(a, ks, g) && n < |ks| && ks[n].Panel? && i <= |a.children[n]|
    ensures |r| == |g|
    decreases a.rank[n], 1, i
  {
    if i == 0 then g else ChildAdjust(a, ks, Kids(a, ks, g, n, i - 1), n, i - 1)
  }

  /** `adjust_children` of the `i`-th child of panel `n`, dispatched on the child's kind. */
  function ChildAdjust(a: Arena, ks: seq<Kind>, g: seq<Rect>, n: Id, i: nat): (r: seq<Rect>)
    requires Laid(a, ks, g) && n < |ks| && ks[n].Panel? && i < |a.children[n]|
    ensures |r| == |g|
    decreases a.rank[n], 0, 0
  {
    var c := a.children[n][i];
    assert c < |ks| && a.parent[c] == Some(n);
    assert a.up[c] == Some(n) && a.rank[c] < a.rank[n];
    match ks[c]
    case Panel(_) => Adjusted(a, ks, g, c)
    case Wheel(axis, _, _, _) => Fitted(g, c, n, axis)
    case Bar(axis, _, _, _, _) => Fitted(g, c, n, axis)
    case ScrollPanel(m, v, h, _, _, _, _, sv, sh) =>
      assert ShapeOf(ks[c]) == a.shapes[c] && OwnsParts(a, c);
      assert a.rank[m] < a.rank[c] && a.rank[v] < a.rank[c] && a.rank[h] < a.rank[c];
      ScrollAdjusted(g, c, m, v, h, sv, sh)
    case _ => g
  }

  /** Which adjustment the `i`-th child `c` of panel `n` gets, by its kind. */
  lemma ChildAdjustByKind(a: Arena, ks: seq<Kind>, g: seq<Rect>, n: Id, i: nat, c: Id)
    requires Laid(a, ks, g) && n < |ks| && ks[n].Panel? && i < |a.children[n]| && c == a.children[n][i]
    ensures c < |ks| && a.parent[c] == Some(n) && a.up[c] == Some(n) && a.rank[c] < a.rank[n]
    ensures ks[c].Panel? ==> ChildAdjust(a, ks, g, n, i) == Adjusted(a, ks, g, c)
    ensures ks[c].Wheel? || ks[c].Bar? ==> ChildAdjust(a, ks, g, n, i) == Fitted(g, c, n, ks[c].axis)
    ensures ks[c].ScrollPanel? ==>
      (a.shapes[c] == ShapeOf(ks[c]) && OwnsParts(a, c)
       && ChildAdjust(a, ks, g, n, i) == ScrollAdjusted(g, c, ks[c].main, ks[c].vbar, ks[c].hbar, ks[c].scrollVertical, ks[c].scrollHorizontal))
    ensures !ks[c].Panel? && !ks[c].Wheel? && !ks[c].Bar? && !ks[c].ScrollPanel? ==> ChildAdjust(a, ks, g, n, i) == g
  {
    assert c < |ks| && a.parent[c] == Some(n);
    if ks[c].ScrollPanel? {
      assert ShapeOf(ks[c]) == a.shapes[c] && OwnsParts(a, c);
    }
  }

  /**
   * Stacking the first `i` of a list of distinct children moves exactly
   * those, each to its stacked start along the axis and to `cross` across it.
   */
  lemma {:induction false} StackAt(g: seq<Rect>, cs: seq<Id>, o: Orientation, origin: int, cross: int, i: nat)
    requires i <= |cs| && forall k :: 0 <= k < |cs| ==> cs[k] < |g|
    requires forall k, l :: 0 <= k < l < |cs| ==> cs[k] != cs[l]
    ensures forall k :: 0 <= k < i ==>
      Stack(g, cs, o, origin, cross, i)[cs[k]] == SetPos(g[cs[k]], o, StackStart(Rects(g, cs), o, origin, k), cross)
    ensures forall x :: 0 <= x < |g| && x !in cs[..i] ==> Stack(g, cs, o, origin, cross, i)[x] == g[x]
  {
    if i > 0 {
      StackAt(g, cs, o, origin, cross, i - 1);
      assert cs[..i] == cs[..i - 1] + [cs[i - 1]];
      forall k | 0 <= k < i - 1
        ensures cs[k] != cs[i - 1]
      {
      }
    }
  }

  /** `ChildAdjust`, `Kids` and `Adjusted` change nothing outside the adjusted child's, or panel's, tree. */
  lemma {:induction false} AdjustedFrame(a: Arena, ks: seq<Kind>, g: seq<Rect>, n: Id, x: Id)
    requires Laid(a, ks, g) && n < |ks| && ks[n].Panel? && x < |g| && !Below(a, x, n)
    ensures Adjusted(a, ks, g, n)[x] == g[x]
    decreases a.rank[n], 2, 0
  {
    var cs := a.children[n];
    if cs != [] {
      var o := ks[n].orientation;
      var s := Stack(g, cs, o, MainPos(g[n], o), CrossPos(g[n], o), |cs|);
      StackAt(g, cs, o, MainPos(g[n], o), CrossPos(g[n], o), |cs|);
      assert cs[..|cs|] == cs;
      assert x !in cs;
      KidsFrame(a, ks, s, n, |cs|, x);
    }
  }

  lemma {:induction false} KidsFrame(a: Arena, ks: seq<Kind>, g: seq<Rect>, n: Id, i: nat, x: Id)
    requires Laid(a, ks, g) && n < |ks| && ks[n].Panel? && i <= |a.children[n]| && x < |g| && !Below(a, x, n)
    ensures Kids(a, ks, g, n, i)[x] == g[x]
    decreases a.rank[n], 1, i
  {
    if i > 0 {
      var c := a.children[n][i - 1];
      assert a.parent[c] == Some(n) && a.up[c] == Some(n);
      assert x != c && !Below(a, x, c) by {
        if Below(a, x, c) {
          BelowUp(a, x, c, n);
        }
      }
      KidsFrame(a, ks, g, n, i - 1, x);
      ChildFrame(a, ks, Kids(a, ks, g, n, i - 1), n, i - 1, x);
    }
  }

  lemma {:induction false} ChildFrame(a: Arena, ks: seq<Kind>, g: seq<Rect>, n: Id, i: nat, x: Id)
    requires Laid(a, ks, g) && n < |ks| && ks[n].Panel? && i < |a.children[n]| && x < |g|
    requires x != a.children[n][i] && !Below(a, x, a.children[n][i])
    ensures ChildAdjust(a, ks, g, n, i)[x] == g[x]
    decreases a.rank[n], 0, 0
  {
    var c := a.children[n][i];
    assert c < |ks| && a.parent[c] == Some(n);
    assert a.up[c] == Some(n) && a.rank[c] < a.rank[n];
    match ks[c]
    case Panel(_) =>
      AdjustedFrame(a, ks, g, c, x);
    case ScrollPanel(m, v, h, _, _, _, _, sv, sh) =>
      assert ShapeOf(ks[c]) == a.shapes[c] && OwnsParts(a, c);
      assert x != m && x != v && x != h by {
        assert Below(a, m, c) && Below(a, v, c) && Below(a, h, c);
      }
    case _ =>
  }

  /** Two different components in the same container: neither lies inside the other's tree, nor does the container. */
  lemma Apart(a: Arena, y: Id, c: Id, n: Id)
    requires Wf(a, 0) && y < |a.shapes| && c < |a.shapes| && a.up[y] == Some(n) && a.up[c] == Some(n) && y != c
    ensures !Below(a, y, c) && n != c && !Below(a, n, c)
  {
    assert a.rank[c] < a.rank[n];
    if Below(a, n, c) {
      BelowRank(a, n, c);
    }
    assert !Below(a, n, c);
    assert !Below(a, y, c);
  }

  /**
   * A direct child after its panel's `adjust_children`: placed at `r`,
   * then stretched across the panel if it is a wheel or a bar.
   */
  function Stretched(k: Kind, r: Rect, panel: Rect): (s: Rect)
    ensures s.x == r.x && s.y == r.y
    ensures (k.Wheel? || k.Bar?) && k.axis == Vertical ==> s.height == panel.height && s.width == r.width
    ensures (k.Wheel? || k.Bar?) && k.axis == Horizontal ==> s.width == panel.width && s.height == r.height
    ensures !(k.Wheel? || k.Bar?) ==> s == r
  {
    if (k.Wheel? || k.Bar?) then (if k.axis == Vertical then r.(height := panel.height) else r.(width := panel.width)) else r
  }

  /** What one child's `adjust_children` does to the child itself. */
  lemma ChildSettles(a: Arena, ks: seq<Kind>, g: seq<Rect>, n: Id, i: nat)
    requires Laid(a, ks, g) && n < |ks| && ks[n].Panel? && i < |a.children[n]|
    ensures a.children[n][i] < |g|
      && ChildAdjust(a, ks, g, n, i)[a.children[n][i]] == Stretched(ks[a.children[n][i]], g[a.children[n][i]], g[n])
  {
    var c := a.children[n][i];
    assert c < |ks| && a.parent[c] == Some(n);
    assert a.up[c] == Some(n) && a.rank[c] < a.rank[n];
    match ks[c]
    case Panel(_) =>
      assert !Below(a, c, c) by {
        if Below(a, c, c) {
          BelowRank(a, c, c);
        }
      }
      AdjustedFrame(a, ks, g, c, c);
    case ScrollPanel(m, v, h, _, _, _, _, sv, sh) =>
      assert ShapeOf(ks[c]) == a.shapes[c] && OwnsParts(a, c);
      assert a.rank[m] < a.rank[c] && a.rank[v] < a.rank[c] && a.rank[h] < a.rank[c];
    case _ =>
  }

  /** The container is not inside the tree of its child. */
  lemma AboveChild(a: Arena, c: Id, n: Id)
    requires Wf(a, 0) && c < |a.shapes| && a.up[c] == Some(n)
    ensures n < |a.shapes| && n != c && !Below(a, n, c)
  {
    if Below(a, n, c) {
      BelowRank(a, n, c);
    }
  }

  /** One child's `adjust_children` leaves the panel and the child's siblings alone. */
  lemma StepKeepsSiblings(a: Arena, ks: seq<Kind>, g: seq<Rect>, n: Id, j: nat)
    requires Laid(a, ks, g) && n < |ks| && ks[n].Panel? && j < |a.children[n]|
    ensures var r := ChildAdjust(a, ks, g, n, j); var cs := a.children[n];
      r[n] == g[n] && forall k :: 0 <= k < |cs| && k != j ==> r[cs[k]] == g[cs[k]]
  {
    var cs := a.children[n];
    var c := cs[j];
    assert a.parent[c] == Some(n) && a.up[c] == Some(n);
    AboveChild(a, c, n);
    ChildFrame(a, ks, g, n, j, n);
    forall k | 0 <= k < |cs| && k != j
      ensures ChildAdjust(a, ks, g, n, j)[cs[k]] == g[cs[k]]
    {
      assert a.parent[cs[k]] == Some(n) && a.up[cs[k]] == Some(n);
      Apart(a, cs[k], c, n);
      ChildFrame(a, ks, g, n, j, cs[k]);
    }
  }

  /** After the first `i` children adjusted their trees: those are stretched, the rest and the panel are as they were. */
  lemma {:induction false} KidsSettle(a: Arena, ks: seq<Kind>, g: seq<Rect>, n: Id, i: nat)
    requires Laid(a, ks, g) && n < |ks| && ks[n].Panel? && i <= |a.children[n]|
    ensures var r := Kids(a, ks, g, n, i); var cs := a.children[n];
      r[n] == g[n]
      && (forall k :: 0 <= k < i ==> r[cs[k]] == Stretched(ks[cs[k]], g[cs[k]], g[n]))
      && (forall k :: i <= k < |cs| ==> r[cs[k]] == g[cs[k]])
    decreases i
  {
    if i > 0 {
      KidsSettle(a, ks, g, n, i - 1);
      var g' := Kids(a, ks, g, n, i - 1);
      ChildSettles(a, ks, g', n, i - 1);
      StepKeepsSiblings(a, ks, g', n, i - 1);
    }
  }

  /**
   * `PPanel.adjust_children`: the panel keeps its rectangle; its `k`-th
   * child starts where the sizes of the children before it, as they were
   * before the call, add up to along the axis, is aligned with the panel
   * across it, and is stretched across the panel if it is a wheel or a bar.
   */
  lemma AdjustedPlaces(a: Arena, ks: seq<Kind>, g: seq<Rect>, n: Id)
    requires Laid(a, ks, g) && n < |ks| && ks[n].Panel?
    ensures var r := Adjusted(a, ks, g, n); var cs := a.children[n]; var o := ks[n].orientation;
      r[n] == g[n]
      && forall k :: 0 <= k < |cs| ==>
        r[cs[k]] == Stretched(ks[cs[k]], SetPos(g[cs[k]], o, StackStart(Rects(g, cs), o, MainPos(g[n], o), k), CrossPos(g[n], o)), g[n])
  {
    var cs := a.children[n];
    if cs != [] {
      var o := ks[n].orientation;
      var st := Stack(g, cs, o, MainPos(g[n], o), CrossPos(g[n], o), |cs|);
      StackAt(g, cs, o, MainPos(g[n], o), CrossPos(g[n], o), |cs|);
      assert cs[..|cs|] == cs;
      assert n !in cs;
      KidsSettle(a, ks, st, n, |cs|);
    }
  }

  /** Laying out moves components; it resizes only wheels and bars. */
  lemma {:induction false} AdjustedSizes(a: Arena, ks: seq<Kind>, g: seq<Rect>, n: Id, x: Id)
    requires Laid(a, ks, g) && n < |ks| && ks[n].Panel? && x < |g| && !(ks[x].Wheel? || ks[x].Bar?)
    ensures Adjusted(a, ks, g, n)[x].width == g[x].width && Adjusted(a, ks, g, n)[x].height == g[x].height
    decreases a.rank[n], 2, 0
  {
    var cs := a.children[n];
    if cs != [] {
      var o := ks[n].orientation;
      StackSizes(g, cs, o, MainPos(g[n], o), CrossPos(g[n], o), |cs|, x);
      KidsSizes(a, ks, Stack(g, cs, o, MainPos(g[n], o), CrossPos(g[n], o), |cs|), n, |cs|, x);
    }
  }

  /** Stacking moves rectangles without resizing them. */
  lemma {:induction false} StackSizes(g: seq<Rect>, cs: seq<Id>, o: Orientation, origin: int, cross: int, i: nat, x: Id)
    requires i <= |cs| && (forall k :: 0 <= k < |cs| ==> cs[k] < |g|) && x < |g|
    ensures Stack(g, cs, o, origin, cross, i)[x].width == g[x].width
    ensures Stack(g, cs, o, origin, cross, i)[x].height == g[x].height
  {
    if i > 0 {
      StackSizes(g, cs, o, origin, cross, i - 1, x);
    }
  }

  lemma {:induction false} KidsSizes(a: Arena, ks: seq<Kind>, g: seq<Rect>, n: Id, i: nat, x: Id)
    requires Laid(a, ks, g) && n < |ks| && ks[n].Panel? && i <= |a.children[n]| && x < |g| && !(ks[x].Wheel? || ks[x].Bar?)
    ensures Kids(a, ks, g, n, i)[x].width == g[x].width && Kids(a, ks, g, n, i)[x].height == g[x].height
    decreases a.rank[n], 1, i
  {
    if i > 0 {
      KidsSizes(a, ks, g, n, i - 1, x);
      ChildSizes(a, ks, Kids(a, ks, g, n, i - 1), n, i - 1, x);
    }
  }

  lemma {:induction false} ChildSizes(a: Arena, ks: seq<Kind>, g: seq<Rect>, n: Id, i: nat, x: Id)
    requires Laid(a, ks, g) && n < |ks| && ks[n].Panel? && i < |a.children[n]| && x < |g| && !(ks[x].Wheel? || ks[x].Bar?)
    ensures ChildAdjust(a, ks, g, n, i)[x].width == g[x].width && ChildAdjust(a, ks, g, n, i)[x].height == g[x].height
    decreases a.rank[n], 0, 0
  {
    var c := a.children[n][i];
    ChildAdjustByKind(a, ks, g, n, i, c);
    if ks[c].Panel? {
      AdjustedSizes(a, ks, g, c, x);
    }
  }

  /**
   * `PPanel.adjust_parent` from panel `n`: each container up the parent
   * chain is resized to fit its children, in turn, and the panel at the top
   * (which has no parent) lays out its whole tree.
   */
  function ParentAdjusted(a: Arena, ks: seq<Kind>, g: seq<Rect>, n: Id): (r: seq<Rect>)
    requires Laid(a, ks, g) && n < |ks| && ks[n].Panel?
    ensures |r| == |g|
    decreases a.bound - a.rank[n]
  {
    match a.parent[n]
    case None => Adjusted(a, ks, g, n)
    case Some(p) =>
      assert a.up[n] == Some(p) && a.rank[n] < a.rank[p] && ShapeOf(ks[p]) == a.shapes[p];
      ParentAdjusted(a, ks, g[p := Resized(g[p], Rects(g, a.children[p]), ks[p].orientation)], p)
  }

  /** A panel's size survives `adjust_parent` started from it: only containers above it are resized. */
  lemma {:induction false} ParentAdjustedKeepsSize(a: Arena, ks: seq<Kind>, g: seq<Rect>, n: Id)
    requires Laid(a, ks, g) && n < |ks| && ks[n].Panel?
    ensures ParentAdjusted(a, ks, g, n)[n].width == g[n].width && ParentAdjusted(a, ks, g, n)[n].height == g[n].height
  {
    AboveKeepsSize(a, ks, g, n, n);
  }

  lemma {:induction false} AboveKeepsSize(a: Arena, ks: seq<Kind>, g: seq<Rect>, n: Id, x: Id)
    requires Laid(a, ks, g) && n < |ks| && ks[n].Panel? && x < |g| && ks[x].Panel? && a.rank[x] <= a.rank[n]
    ensures ParentAdjusted(a, ks, g, n)[x].width == g[x].width && ParentAdjusted(a, ks, g, n)[x].height == g[x].height
    decreases a.bound - a.rank[n]
  {
    match a.parent[n]
    case None =>
      AdjustedSizes(a, ks, g, n, x);
    case Some(p) =>
      assert a.up[n] == Some(p) && a.rank[n] < a.rank[p] && ShapeOf(ks[p]) == a.shapes[p];
      AboveKeepsSize(a, ks, g[p := Resized(g[p], Rects(g, a.children[p]), ks[p].orientation)], p, x);
  }

  /**
   * `PPanel.adjust_parent` from a child panel: its parent ends up as long as
   * its children's sizes along its axis add up to, and as wide across it as
   * the widest of them (or 0), their sizes taken when the call starts.
   */
  lemma ParentFitsChildren(a: Arena, ks: seq<Kind>, g: seq<Rect>, n: Id)
    requires Laid(a, ks, g) && n < |ks| && ks[n].Panel? && a.parent[n].Some?
    ensures var p := a.parent[n].value; var r := ParentAdjusted(a, ks, g, n);
      p < |g| && ks[p].Panel?
      && MainSize(r[p], ks[p].orientation) == SumMain(Rects(g, a.children[p]), ks[p].orientation)
      && CrossSize(r[p], ks[p].orientation) == MaxCross(Rects(g, a.children[p]), ks[p].orientation)
  {
    var p := a.parent[n].value;
    assert a.up[n] == Some(p) && a.rank[n] < a.rank[p] && ShapeOf(ks[p]) == a.shapes[p];
    ParentAdjustedKeepsSize(a, ks, g[p := Resized(g[p], Rects(g, a.children[p]), ks[p].orientation)], p);
  }

  /** One step of the stacking loop: the next child still has its old rectangle and goes to the next start. */
  lemma StackStep(g: seq<Rect>, cs: seq<Id>, o: Orientation, origin: int, cross: int, i: nat, n: Id)
    requires i < |cs| && forall k :: 0 <= k < |cs| ==> cs[k] < |g|
    requires forall k, l :: 0 <= k < l < |cs| ==> cs[k] != cs[l]
    requires n < |g| && n !in cs
    ensures var s := Stack(g, cs, o, origin, cross, i);
      s[cs[i]] == g[cs[i]] && s[n] == g[n]
      && Stack(g, cs, o, origin, cross, i + 1) == s[cs[i] := SetPos(s[cs[i]], o, StackStart(Rects(g, cs), o, origin, i), cross)]
      && StackStart(Rects(g, cs), o, origin, i + 1) == StackStart(Rects(g, cs), o, origin, i) + MainSize(g[cs[i]], o)
  {
    StackAt(g, cs, o, origin, cross, i);
    assert cs[i] !in cs[..i];
    StackContiguous(Rects(g, cs), o, origin, i);
  }

  /** A panel's children are distinct components other than the panel. */
  lemma ChildrenOf(a: Arena, ks: seq<Kind>, g: seq<Rect>, n: Id)
    requires Laid(a, ks, g) && n < |ks|
    ensures var cs := a.children[n];
      (forall k :: 0 <= k < |cs| ==> cs[k] < |g|)
      && (forall k, l :: 0 <= k < l < |cs| ==> cs[k] != cs[l]) && n !in cs
  {
    var cs := a.children[n];
    assert forall k :: 0 <= k < |cs| ==> a.parent[cs[k]] == Some(n) && a.up[cs[k]] == Some(n);
  }

  /** The placement step of `add_component`: `c` placed after the last of `p`'s children `cs`, and `p` grown by it. */
  function Joined(g: seq<Rect>, cs: seq<Id>, p: Id, c: Id, o: Orientation): (r: seq<Rect>)
    requires p < |g| && c < |g| && p != c && forall k :: 0 <= k < |cs| ==> cs[k] < |g|
    ensures |r| == |g| && forall x :: 0 <= x < |g| && x != p && x != c ==> r[x] == g[x]
    ensures (r[p], r[c]) == Place(g[p], if cs == [] then None else Some(g[cs[|cs| - 1]]), g[c], o)
  {
    var placed := Place(g[p], if cs == [] then None else Some(g[cs[|cs| - 1]]), g[c], o);
    g[c := placed.1][p := placed.0]
  }
}
