/**
 * Component geometry: rectangles, the inclusive hit test, first-match routing
 * over a child list, and the sums and maxima the linear layout is built from.
 */
module Geometry {
  import opened Wrappers
  import opened PyMath

  datatype Rect = Rect(x: int, y: int, width: int, height: int)

  /** The two fixed stacking directions of a panel. */
  datatype Orientation = Vertical | Horizontal

  /** `contains_point`: both edges of both axes count as inside. */
  predicate Contains(r: Rect, px: int, py: int)
    ensures Contains(r, px, py) ==> r.width >= 0 && r.height >= 0
  {
    r.x <= px <= r.x + r.width && r.y <= py <= r.y + r.height
  }

  /** The four corners of a rectangle with non-negative size are hits, the points one pixel beyond are not. */
  lemma ContainsIsInclusive(r: Rect)
    requires r.width >= 0 && r.height >= 0
    ensures Contains(r, r.x, r.y) && Contains(r, r.x + r.width, r.y + r.height)
    ensures Contains(r, r.x + r.width, r.y) && Contains(r, r.x, r.y + r.height)
    ensures !Contains(r, r.x - 1, r.y) && !Contains(r, r.x + r.width + 1, r.y)
    ensures !Contains(r, r.x, r.y - 1) && !Contains(r, r.x, r.y + r.height + 1)
  {
  }

  /** Index of the first rectangle in list order that contains the point. */
  function FirstHit(rs: seq<Rect>, px: int, py: int): (k: Option<nat>)
    ensures k.Some? ==> k.value < |rs| && Contains(rs[k.value], px, py)
    ensures k.Some? ==> forall j :: 0 <= j < k.value ==> !Contains(rs[j], px, py)
    ensures k.None? <==> forall j :: 0 <= j < |rs| ==> !Contains(rs[j], px, py)
  {
    if rs == [] then None
    else if Contains(rs[0], px, py) then Some(0)
    else match FirstHit(rs[1..], px, py)
      case None => None
      case Some(k) => Some(k + 1)
  }

  /** Size of a rectangle along a panel's main axis. */
  function MainSize(r: Rect, o: Orientation): int
  {
    if o == Vertical then r.height else r.width
  }

  /** Size of a rectangle across a panel's main axis. */
  function CrossSize(r: Rect, o: Orientation): int
  {
    if o == Vertical then r.width else r.height
  }

  /** Sum of the main-axis sizes. */
  function SumMain(rs: seq<Rect>, o: Orientation): int
  {
    if rs == [] then 0 else SumMain(rs[..|rs| - 1], o) + MainSize(rs[|rs| - 1], o)
  }

  /** Largest cross-axis size, starting from 0 as `adjust_parent` does. */
  function MaxCross(rs: seq<Rect>, o: Orientation): int
  {
    if rs == [] then 0 else Max(MaxCross(rs[..|rs| - 1], o), CrossSize(rs[|rs| - 1], o))
  }

  /** Where the i-th child starts along the main axis when children are stacked from `origin`. */
  function StackStart(rs: seq<Rect>, o: Orientation, origin: int, i: nat): int
    requires i <= |rs|
  {
    origin + SumMain(rs[..i], o)
  }

  /** The panel's size after its children were added one by one, as `add_component` grows it: (main, cross). */
  function Grown(rs: seq<Rect>, o: Orientation): (g: (int, int))
    ensures forall k :: 0 <= k < |rs| ==> CrossSize(rs[k], o) <= g.1
    decreases |rs|
  {
    if rs == [] then (0, 0)
    else if |rs| == 1 then (MainSize(rs[0], o), CrossSize(rs[0], o))
    else
      var p := rs[..|rs| - 1];
      var prev := Grown(p, o);
      assert forall k :: 0 <= k < |p| ==> p[k] == rs[k];
      (prev.0 + MainSize(rs[|rs| - 1], o), Max(prev.1, CrossSize(rs[|rs| - 1], o)))
  }

  /** The cross-axis maximum bounds every child's cross size and is one of them (or 0). */
  lemma {:induction false} MaxCrossBounds(rs: seq<Rect>, o: Orientation)
    ensures MaxCross(rs, o) >= 0
    ensures forall i :: 0 <= i < |rs| ==> CrossSize(rs[i], o) <= MaxCross(rs, o)
    ensures MaxCross(rs, o) == 0 || exists i :: 0 <= i < |rs| && CrossSize(rs[i], o) == MaxCross(rs, o)
  {
    if rs != [] {
      var p := rs[..|rs| - 1];
      MaxCrossBounds(p, o);
      assert forall i :: 0 <= i < |p| ==> p[i] == rs[i];
    }
  }

  /** Children stacked by the layout follow each other with no gap and no overlap. */
  lemma StackContiguous(rs: seq<Rect>, o: Orientation, origin: int, i: nat)
    requires i < |rs|
    ensures StackStart(rs, o, origin, i + 1) == StackStart(rs, o, origin, i) + MainSize(rs[i], o)
    ensures StackStart(rs, o, origin, 0) == origin
  {
    assert rs[..i + 1][..i] == rs[..i];
  }

  /** With non-negative sizes, a later child never starts before an earlier one ends. */
  lemma {:induction false} StackOrdered(rs: seq<Rect>, o: Orientation, origin: int, i: nat, j: nat)
    requires i < j <= |rs|
    requires forall k :: 0 <= k < |rs| ==> MainSize(rs[k], o) >= 0
    ensures StackStart(rs, o, origin, i) + MainSize(rs[i], o) <= StackStart(rs, o, origin, j)
    decreases j - i
  {
    StackContiguous(rs, o, origin, i);
    if j > i + 1 {
      StackOrdered(rs, o, origin, i + 1, j);
      StackContiguous(rs, o, origin, i + 1);
    }
  }

  /** The stack ends at the origin plus the summed sizes. */
  lemma StackEnd(rs: seq<Rect>, o: Orientation, origin: int)
    ensures StackStart(rs, o, origin, |rs|) == origin + SumMain(rs, o)
  {
    assert rs[..|rs|] == rs;
  }

  /**
   * Growing a panel child by child (sum along the main axis, max across it)
   * gives the same size as recomputing it from all children, provided no
   * child has a negative cross size.
   */
  lemma {:induction false} GrownIsRecomputed(rs: seq<Rect>, o: Orientation)
    requires forall k :: 0 <= k < |rs| ==> CrossSize(rs[k], o) >= 0
    ensures Grown(rs, o) == (SumMain(rs, o), MaxCross(rs, o))
  {
    if |rs| == 1 {
      assert rs[..0] == [];
    } else if |rs| > 1 {
      var p := rs[..|rs| - 1];
      assert forall k :: 0 <= k < |p| ==> p[k] == rs[k];
      GrownIsRecomputed(p, o);
    }
  }

  /** Position of a rectangle along a panel's main axis. */
  function MainPos(r: Rect, o: Orientation): int
  {
    if o == Vertical then r.y else r.x
  }

  /** Position of a rectangle across a panel's main axis. */
  function CrossPos(r: Rect, o: Orientation): int
  {
    if o == Vertical then r.x else r.y
  }

  /** The rectangles lie one after another from the panel's origin, all aligned on its cross-axis edge. */
  predicate Stacked(rs: seq<Rect>, o: Orientation, panel: Rect)
  {
    forall i :: 0 <= i < |rs| ==>
      MainPos(rs[i], o) == StackStart(rs, o, MainPos(panel, o), i) && CrossPos(rs[i], o) == CrossPos(panel, o)
  }

  /**
   * `add_component`'s placement step: the new child goes to the panel's
   * origin when it is the first, otherwise right after the last child (`last`);
   * the panel grows by the child along its main axis and takes the larger
   * cross size (the child's own when it is the first). Result: (panel, child).
   */
  function Place(panel: Rect, last: Option<Rect>, child: Rect, o: Orientation): (r: (Rect, Rect))
    ensures r.1.width == child.width && r.1.height == child.height
    ensures r.0.x == panel.x && r.0.y == panel.y
  {
    match last
    case None =>
      if o == Vertical then (panel.(height := panel.height + child.height, width := child.width), child.(x := panel.x, y := panel.y))
      else (panel.(width := panel.width + child.width, height := child.height), child.(x := panel.x, y := panel.y))
    case Some(l) =>
      if o == Vertical then (panel.(height := panel.height + child.height, width := Max(panel.width, child.width)), child.(x := l.x, y := l.y + l.height))
      else (panel.(width := panel.width + child.width, height := Max(panel.height, child.height)), child.(x := l.x + l.width, y := l.y))
  }

  /** What placement does, axis by axis: the child keeps its size, the panel its origin. */
  lemma PlaceMoves(panel: Rect, last: Option<Rect>, child: Rect, o: Orientation)
    ensures var (p, c) := Place(panel, last, child, o);
      c.width == child.width && c.height == child.height && p.x == panel.x && p.y == panel.y
      && (last.None? ==> c.x == panel.x && c.y == panel.y && CrossSize(p, o) == CrossSize(child, o))
      && (last.Some? ==> MainPos(c, o) == MainPos(last.value, o) + MainSize(last.value, o)
                         && CrossPos(c, o) == CrossPos(last.value, o)
                         && CrossSize(p, o) == Max(CrossSize(panel, o), CrossSize(child, o)))
      && MainSize(p, o) == MainSize(panel, o) + MainSize(child, o)
  {
  }

  /**
   * Placing a child on a panel whose children are stacked and whose size is
   * what growing gave it keeps both: the child lands where stacking puts it
   * and the panel has the grown size of the longer list.
   */
  lemma PlaceExtendsStack(panel: Rect, rs: seq<Rect>, child: Rect, o: Orientation)
    requires Stacked(rs, o, panel) && (MainSize(panel, o), CrossSize(panel, o)) == Grown(rs, o)
    ensures var (p, c) := Place(panel, if rs == [] then None else Some(rs[|rs| - 1]), child, o);
      Stacked(rs + [c], o, p) && (MainSize(p, o), CrossSize(p, o)) == Grown(rs + [c], o)
      && MainPos(p, o) == MainPos(panel, o) && CrossPos(p, o) == CrossPos(panel, o)
  {
    PlaceGrows(panel, rs, child, o);
    PlaceStacks(panel, rs, child, o);
  }

  lemma PlaceGrows(panel: Rect, rs: seq<Rect>, child: Rect, o: Orientation)
    requires (MainSize(panel, o), CrossSize(panel, o)) == Grown(rs, o)
    ensures var (p, c) := Place(panel, if rs == [] then None else Some(rs[|rs| - 1]), child, o);
      (MainSize(p, o), CrossSize(p, o)) == Grown(rs + [c], o)
  {
    var last := if rs == [] then None else Some(rs[|rs| - 1]);
    var (p, c) := Place(panel, last, child, o);
    PlaceMoves(panel, last, child, o);
    var rs' := rs + [c];
    assert rs'[..|rs|] == rs && rs'[|rs|] == c;
    if rs == [] {
      assert Grown(rs', o) == (MainSize(c, o), CrossSize(c, o));
    } else {
      assert Grown(rs', o) == (Grown(rs, o).0 + MainSize(c, o), Max(Grown(rs, o).1, CrossSize(c, o)));
    }
  }

  lemma PlaceStacks(panel: Rect, rs: seq<Rect>, child: Rect, o: Orientation)
    requires Stacked(rs, o, panel)
    ensures var (p, c) := Place(panel, if rs == [] then None else Some(rs[|rs| - 1]), child, o);
      Stacked(rs + [c], o, p) && MainPos(p, o) == MainPos(panel, o) && CrossPos(p, o) == CrossPos(panel, o)
  {
    var last := if rs == [] then None else Some(rs[|rs| - 1]);
    var (p, c) := Place(panel, last, child, o);
    PlaceMoves(panel, last, child, o);
    var rs' := rs + [c];
    var origin := MainPos(panel, o);
    assert MainPos(c, o) == StackStart(rs', o, origin, |rs|) by {
      assert rs'[..|rs|] == rs;
      if rs != [] {
        StackContiguous(rs, o, origin, |rs| - 1);
        StackEnd(rs, o, origin);
      }
    }
    forall i | 0 <= i < |rs|
      ensures MainPos(rs'[i], o) == StackStart(rs', o, origin, i)
    {
      assert rs'[..i] == rs[..i];
    }
  }
}
