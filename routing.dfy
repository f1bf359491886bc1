/**
 * How a mouse event travels down the component tree: panels pass it to
 * their first child under the pointer, scroll panels to a bar or, with the
 * scroll offset applied, to their main panel; every other component ends
 * the route.
 */
module Routing {
  import opened Wrappers
  import opened Geometry
  import opened Widgets
  import opened TextBoxes
  import opened Arenas
  import opened Layout

  /** One step of an event's route: the component it reaches and the coordinates it is delivered with. */
  datatype Hop = Hop(id: Id, x: int, y: int)

  /**
   * Where `mouse_down` or `mouse_up` delivered to `n` at (x, y) goes next:
   * a panel's first child under the point; a scroll panel's vertical bar,
   * horizontal bar or main panel, in that order, the main panel getting the
   * point shifted by the scroll offset; nowhere from any other component.
   */
  function Next(a: Arena, ks: seq<Kind>, g: seq<Rect>, n: Id, x: int, y: int): (h: Option<Hop>)
    requires Laid(a, ks, g) && n < |ks|
    ensures h.Some? ==> h.value.id < |ks| && a.up[h.value.id] == Some(n) && a.rank[h.value.id] < a.rank[n]
    ensures h.Some? ==> Contains(g[h.value.id], x, y) && (ks[n].Panel? || ks[n].ScrollPanel?)
    ensures ks[n].ScrollPanel? && Contains(g[ks[n].vbar], x, y) ==> h == Some(Hop(ks[n].vbar, x, y))
    ensures ks[n].ScrollPanel? && !Contains(g[ks[n].vbar], x, y) && Contains(g[ks[n].hbar], x, y) ==> h == Some(Hop(ks[n].hbar, x, y))
    ensures ks[n].ScrollPanel? && h.Some? && h.value.id == ks[n].main ==>
      !Contains(g[ks[n].vbar], x, y) && !Contains(g[ks[n].hbar], x, y)
      && h.value.x == x + ks[n].xOffset - g[n].x && h.value.y == y + ks[n].yOffset - g[n].y
    ensures ks[n].ScrollPanel? && Contains(g[ks[n].main], x, y) ==> h.Some?
  {
    match ks[n]
    case Panel(_) =>
      var cs := a.children[n];
      assert forall k :: 0 <= k < |cs| ==> a.parent[cs[k]] == Some(n) && a.up[cs[k]] == Some(n);
      (match FirstHit(Rects(g, cs), x, y)
       case None => None
       case Some(i) => Some(Hop(cs[i], x, y)))
    case ScrollPanel(m, v, h, _, _, xo, yo, _, _) =>
      assert ShapeOf(ks[n]) == a.shapes[n] && OwnsParts(a, n);
      assert a.rank[m] < a.rank[n] && a.rank[v] < a.rank[n] && a.rank[h] < a.rank[n];
      if Contains(g[v], x, y) then Some(Hop(v, x, y))
      else if Contains(g[h], x, y) then Some(Hop(h, x, y))
      else if Contains(g[m], x, y) then Some(Hop(m, x + xo - g[n].x, y + yo - g[n].y))
      else None
    case _ => None
  }

  /** The components of a route, from the one the event was delivered to down to the last. */
  function Route(a: Arena, ks: seq<Kind>, g: seq<Rect>, n: Id, x: int, y: int): (r: seq<Hop>)
    requires Laid(a, ks, g) && n < |ks|
    ensures |r| >= 1 && r[0] == Hop(n, x, y) && forall k :: 0 <= k < |r| ==> r[k].id < |ks|
    ensures forall k :: 0 <= k < |r| - 1 ==> ks[r[k].id].Panel? || ks[r[k].id].ScrollPanel?
    decreases a.rank[n]
  {
    match Next(a, ks, g, n, x, y)
    case None => [Hop(n, x, y)]
    case Some(h) => [Hop(n, x, y)] + Route(a, ks, g, h.id, h.x, h.y)
  }

  /** Hop `c` is a child of hop `p`, and `c` contains the point at which `p` received the event. */
  predicate Descent(a: Arena, g: seq<Rect>, p: Hop, c: Hop)
    requires c.id < |a.up| && c.id < |g|
  {
    a.up[c.id] == Some(p.id) && Contains(g[c.id], p.x, p.y)
  }

  /**
   * A route goes down the tree one container at a time, and each step's
   * component contains the point at which the step before it was delivered.
   */
  lemma {:induction false} RouteDescends(a: Arena, ks: seq<Kind>, g: seq<Rect>, n: Id, x: int, y: int)
    requires Laid(a, ks, g) && n < |ks|
    ensures forall k :: 0 < k < |Route(a, ks, g, n, x, y)| ==>
      Descent(a, g, Route(a, ks, g, n, x, y)[k - 1], Route(a, ks, g, n, x, y)[k])
    decreases a.rank[n]
  {
    var r := Route(a, ks, g, n, x, y);
    match Next(a, ks, g, n, x, y)
    case None =>
    case Some(h) =>
      RouteDescends(a, ks, g, h.id, h.x, h.y);
      var rest := Route(a, ks, g, h.id, h.x, h.y);
      assert r == [Hop(n, x, y)] + rest;
      assert r[1] == h;
      assert forall j :: 0 < j < |rest| ==> Descent(a, g, rest[j - 1], rest[j]);
      forall k | 1 < k < |r|
        ensures Descent(a, g, r[k - 1], r[k])
      {
        var j := k - 1;
        assert 0 < j < |rest| && r[k] == rest[j] && r[k - 1] == rest[j - 1];
        assert Descent(a, g, rest[j - 1], rest[j]);
      }
  }

  /** On a panel the route takes the first child, in list order, under the point. */
  lemma RouteTakesFirstChild(a: Arena, ks: seq<Kind>, g: seq<Rect>, n: Id, x: int, y: int)
    requires Laid(a, ks, g) && n < |ks| && ks[n].Panel?
    ensures var r := Route(a, ks, g, n, x, y); var cs := a.children[n];
      (forall k :: 0 <= k < |cs| ==> cs[k] < |g|)
      && (|r| == 1 <==> forall k :: 0 <= k < |cs| ==> !Contains(g[cs[k]], x, y))
      && (|r| > 1 ==> exists i :: 0 <= i < |cs| && r[1] == Hop(cs[i], x, y) && Contains(g[cs[i]], x, y)
                        && forall k :: 0 <= k < i ==> !Contains(g[cs[k]], x, y))
  {
    var cs := a.children[n];
    assert forall k :: 0 <= k < |cs| ==> a.parent[cs[k]] == Some(n) && a.up[cs[k]] == Some(n);
    var rs := Rects(g, cs);
    match FirstHit(rs, x, y)
    case None =>
    case Some(i) =>
      assert Next(a, ks, g, n, x, y) == Some(Hop(cs[i], x, y));
  }

  /** The focus after `mouse_down` along route `r`, starting from `f`: each component on the way that claims it takes it. */
  function Claimed(ks: seq<Kind>, r: seq<Hop>, f: Option<Id>): (c: Option<Id>)
    requires forall k :: 0 <= k < |r| ==> r[k].id < |ks|
    ensures c == f || exists k :: 0 <= k < |r| && c == Some(r[k].id) && Claims(ks[r[k].id])
  {
    if r == [] then f else Claimed(ks, r[1..], if Claims(ks[r[0].id]) then Some(r[0].id) else f)
  }

  /** The first hop of a route takes the focus before the rest of the route is walked. */
  lemma ClaimedCons(ks: seq<Kind>, h: Hop, rest: seq<Hop>, f: Option<Id>)
    requires h.id < |ks| && forall k :: 0 <= k < |rest| ==> rest[k].id < |ks|
    ensures Claimed(ks, [h] + rest, f) == Claimed(ks, rest, if Claims(ks[h.id]) then Some(h.id) else f)
  {
    assert ([h] + rest)[1..] == rest;
  }

  /** Whether `mouse_down` on a component of this kind makes it the focus. */
  predicate Claims(k: Kind)
  {
    !(k.Label? || k.ParagraphWidget? || k.Strut? || k.ScrollPanel?)
  }

  /** The position on route `r` of the last component that claims the focus, if any. */
  function LastClaimant(ks: seq<Kind>, r: seq<Hop>): (j: Option<nat>)
    requires forall k :: 0 <= k < |r| ==> r[k].id < |ks|
    ensures j.Some? ==> j.value < |r| && Claims(ks[r[j.value].id]) && forall k :: j.value < k < |r| ==> !Claims(ks[r[k].id])
    ensures j.None? ==> forall k :: 0 <= k < |r| ==> !Claims(ks[r[k].id])
  {
    if r == [] then None
    else if Claims(ks[r[|r| - 1].id]) then Some(|r| - 1)
    else LastClaimant(ks, r[..|r| - 1])
  }

  /** The focus after `mouse_down` is the deepest claimant on the route, or the old focus when nothing on it claims. */
  lemma {:induction false} ClaimedIsLastClaimant(ks: seq<Kind>, r: seq<Hop>, f: Option<Id>)
    requires forall k :: 0 <= k < |r| ==> r[k].id < |ks|
    ensures Claimed(ks, r, f) == match LastClaimant(ks, r) case None => f case Some(j) => Some(r[j].id)
  {
    if r != [] {
      var f' := if Claims(ks[r[0].id]) then Some(r[0].id) else f;
      ClaimedIsLastClaimant(ks, r[1..], f');
      match LastClaimant(ks, r[1..])
      case None =>
        if Claims(ks[r[0].id]) {
          LastClaimantIs(ks, r, 0);
        } else {
          LastClaimantNone(ks, r);
        }
      case Some(j) =>
        LastClaimantIs(ks, r, j + 1);
    }
  }

  lemma LastClaimantIs(ks: seq<Kind>, r: seq<Hop>, j: nat)
    requires forall k :: 0 <= k < |r| ==> r[k].id < |ks|
    requires j < |r| && Claims(ks[r[j].id]) && forall k :: j < k < |r| ==> !Claims(ks[r[k].id])
    ensures LastClaimant(ks, r) == Some(j)
  {
  }

  lemma LastClaimantNone(ks: seq<Kind>, r: seq<Hop>)
    requires forall k :: 0 <= k < |r| ==> r[k].id < |ks|
    requires forall k :: 0 <= k < |r| ==> !Claims(ks[r[k].id])
    ensures LastClaimant(ks, r) == None
  {
  }

  /** The last component on a route. */
  function Last(r: seq<Hop>): Hop
    requires |r| >= 1
  {
    r[|r| - 1]
  }

  /** The kinds after `mouse_down` along route `r`: a text box at its end moves its cursor to the click. */
  function Pressed(ks: seq<Kind>, g: seq<Rect>, r: seq<Hop>): (ks': seq<Kind>)
    requires |r| >= 1 && Last(r).id < |ks| && |g| == |ks|
    ensures |ks'| == |ks| && forall i :: 0 <= i < |ks| ==> ShapeOf(ks'[i]) == ShapeOf(ks[i])
    ensures forall i :: 0 <= i < |ks| && (i != Last(r).id || !ks[i].TextBoxWidget?) ==> ks'[i] == ks[i]
  {
    var t := Last(r).id;
    match ks[t]
    case TextBoxWidget(tb, fs) => ks[t := TextBoxWidget(Click(tb, fs, g[t].x, Last(r).x), fs)]
    case _ => ks
  }

  /** A route whose last component claims the focus leaves the focus on that component. */
  lemma ClaimedByLast(ks: seq<Kind>, r: seq<Hop>, f: Option<Id>)
    requires |r| >= 1 && (forall k :: 0 <= k < |r| ==> r[k].id < |ks|) && Claims(ks[Last(r).id])
    ensures Claimed(ks, r, f) == Some(Last(r).id)
  {
    assert LastClaimant(ks, r) == Some(|r| - 1);
    ClaimedIsLastClaimant(ks, r, f);
  }

  /** `mouse_down` changes only what the component at the end of the route does. */
  lemma PressedByLast(ks: seq<Kind>, g: seq<Rect>, r: seq<Hop>, r': seq<Hop>)
    requires |r| >= 1 && |r'| >= 1 && Last(r) == Last(r') && Last(r).id < |ks| && |g| == |ks|
    ensures Pressed(ks, g, r) == Pressed(ks, g, r')
  {
  }

  /** What `mouse_up` along route `r` does at the component at its end, with focus `f` and the pointer at (px, py). */
  function Released(ks: seq<Kind>, g: seq<Rect>, f: Option<Id>, r: seq<Hop>, px: int, py: int): (u: UpResult)
    requires |r| >= 1 && Last(r).id < |ks| && |g| == |ks|
    ensures f != Some(Last(r).id) ==> u == Ignored
    ensures u.Crashed? ==> ks[Last(r).id].Bar?
  {
    var h := Last(r);
    LeafUp(ks[h.id], g[h.id], f == Some(h.id), h.x, h.y, px, py)
  }

  /** The loop of `PPanel.mouse_down` and `mouse_up`: the first rectangle in list order under the point. */
  method FindHit(rs: seq<Rect>, x: int, y: int) returns (k: Option<nat>)
    ensures k == FirstHit(rs, x, y)
  {
    var i := 0;
    while i < |rs|
      invariant 0 <= i <= |rs| && forall j :: 0 <= j < i ==> !Contains(rs[j], x, y)
    {
      if Contains(rs[i], x, y) {
        var f := FirstHit(rs, x, y);
        assert f.Some? && f.value == i;
        return Some(i);
      }
      i := i + 1;
    }
    return None;
  }
}
