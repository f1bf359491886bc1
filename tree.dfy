/**
 * The structure of the component tree, as plain values: who contains whom,
 * and the ghost bookkeeping that makes the tree finite and acyclic.
 */
module Arenas {
  import opened Wrappers
  import opened Widgets

  /**
   * The structural part of the window's arena. `up` is a component's
   * container: its parent, or the scroll panel that owns it as main panel or
   * bar. `rank` strictly increases along `up` (and stays below `bound`), so
   * the tree has no cycles; `rootOf` is the top of each component's tree.
   */
  datatype Arena = Arena(parent: seq<Option<Id>>, children: seq<seq<Id>>, up: seq<Option<Id>>,
                         rank: seq<nat>, bound: nat, rootOf: seq<Id>, shapes: seq<Shape>)

  ghost predicate Lengths(a: Arena, main: Id)
  {
    |a.parent| == |a.shapes| && |a.children| == |a.shapes| && |a.up| == |a.shapes| && |a.rank| == |a.shapes|
    && |a.rootOf| == |a.shapes| && main < |a.shapes| && a.shapes[main] == PanelShape
  }

  ghost predicate Ranked(a: Arena)
    requires |a.up| == |a.shapes| && |a.rank| == |a.shapes|
  {
    (forall n :: 0 <= n < |a.shapes| ==> a.rank[n] < a.bound)
    && (forall n {:trigger a.up[n]} :: 0 <= n < |a.shapes| && a.up[n].Some? ==>
      a.up[n].value < |a.shapes| && a.rank[n] < a.rank[a.up[n].value])
  }

  ghost predicate ParentsListed(a: Arena)
    requires |a.parent| == |a.shapes| && |a.children| == |a.shapes| && |a.up| == |a.shapes|
  {
    forall n :: 0 <= n < |a.shapes| && a.parent[n].Some? ==>
      a.up[n] == a.parent[n] && a.parent[n].value < |a.shapes| && a.shapes[a.parent[n].value] == PanelShape
      && n in a.children[a.parent[n].value]
  }

  ghost predicate ChildrenLinked(a: Arena)
    requires |a.parent| == |a.shapes| && |a.children| == |a.shapes|
  {
    (forall p, i :: 0 <= p < |a.shapes| && 0 <= i < |a.children[p]| ==>
      a.children[p][i] < |a.shapes| && a.parent[a.children[p][i]] == Some(p))
    && (forall p, i, j :: 0 <= p < |a.shapes| && 0 <= i < j < |a.children[p]| ==> a.children[p][i] != a.children[p][j])
  }

  /** The main panel and bars of scroll panel `s` exist, are distinct, have no parent and are owned by `s`. */
  ghost predicate OwnsParts(a: Arena, s: Id)
    requires |a.parent| == |a.shapes| && |a.up| == |a.shapes| && s < |a.shapes| && a.shapes[s].ScrollShape?
  {
    var sh := a.shapes[s];
    sh.main < |a.shapes| && sh.vbar < |a.shapes| && sh.hbar < |a.shapes|
    && sh.main != sh.vbar && sh.main != sh.hbar && sh.vbar != sh.hbar
    && a.up[sh.main] == Some(s) && a.up[sh.vbar] == Some(s) && a.up[sh.hbar] == Some(s)
    && a.parent[sh.main].None? && a.parent[sh.vbar].None? && a.parent[sh.hbar].None?
    && a.shapes[sh.main] == PanelShape && a.shapes[sh.vbar] == BarShape && a.shapes[sh.hbar] == BarShape
  }

  ghost predicate Owned(a: Arena)
    requires |a.parent| == |a.shapes| && |a.up| == |a.shapes|
  {
    (forall n :: 0 <= n < |a.shapes| && a.parent[n].None? && a.up[n].Some? ==>
      a.up[n].value < |a.shapes| && a.shapes[a.up[n].value].ScrollShape?
      && (n == a.shapes[a.up[n].value].main || n == a.shapes[a.up[n].value].vbar || n == a.shapes[a.up[n].value].hbar))
    && (forall s :: 0 <= s < |a.shapes| && a.shapes[s].ScrollShape? ==> OwnsParts(a, s))
  }

  ghost predicate Rooted(a: Arena)
    requires |a.up| == |a.shapes| && |a.rootOf| == |a.shapes|
  {
    forall n {:trigger a.up[n]} :: 0 <= n < |a.shapes| ==>
      a.rootOf[n] < |a.shapes| && (a.up[n].None? ==> a.rootOf[n] == n)
      && (a.up[n].Some? && a.up[n].value < |a.shapes| ==> a.rootOf[n] == a.rootOf[a.up[n].value])
  }

  /** The component tree: acyclic, parents and child lists agree, scroll panels own their parts. */
  ghost predicate Wf(a: Arena, main: Id)
  {
    Lengths(a, main) && Ranked(a) && ParentsListed(a) && ChildrenLinked(a) && Owned(a) && Rooted(a)
  }

  /** The arena with one more detached component of shape `sh` (not a scroll panel). */
  ghost function Appended(a: Arena, sh: Shape): Arena
  {
    Arena(a.parent + [None], a.children + [[]], a.up + [None], a.rank + [0], a.bound, a.rootOf + [|a.shapes|], a.shapes + [sh])
  }

  lemma AppendedWf(a: Arena, main: Id, sh: Shape)
    requires Wf(a, main) && !sh.ScrollShape?
    ensures Wf(Appended(a, sh), main)
  {
    AppendedRanked(a, main, sh);
    AppendedLinked(a, main, sh);
    AppendedOwned(a, main, sh);
    AppendedRooted(a, main, sh);
  }

  lemma AppendedRanked(a: Arena, main: Id, sh: Shape)
    requires Wf(a, main)
    ensures Ranked(Appended(a, sh))
  {
    var b := Appended(a, sh);
    var id := |a.shapes|;
    assert a.rank[main] < a.bound;
    forall n | 0 <= n < |b.shapes| && b.up[n].Some?
      ensures b.up[n].value < |b.shapes| && b.rank[n] < b.rank[b.up[n].value]
    {
      if n < id {
        assert b.up[n] == a.up[n] && b.rank[n] == a.rank[n];
      }
    }
  }

  lemma AppendedLinked(a: Arena, main: Id, sh: Shape)
    requires Wf(a, main)
    ensures ParentsListed(Appended(a, sh)) && ChildrenLinked(Appended(a, sh))
  {
    var b := Appended(a, sh);
    var id := |a.shapes|;
    forall n | 0 <= n < |b.shapes| && b.parent[n].Some?
      ensures b.up[n] == b.parent[n] && b.parent[n].value < |b.shapes| && b.shapes[b.parent[n].value] == PanelShape
        && n in b.children[b.parent[n].value]
    {
      assert n < id && b.parent[n] == a.parent[n];
      assert b.children[b.parent[n].value] == a.children[a.parent[n].value];
    }
    forall p, i | 0 <= p < |b.shapes| && 0 <= i < |b.children[p]|
      ensures b.children[p][i] < |b.shapes| && b.parent[b.children[p][i]] == Some(p)
    {
      assert p < id && b.children[p] == a.children[p];
    }
  }

  lemma AppendedOwned(a: Arena, main: Id, sh: Shape)
    requires Wf(a, main) && !sh.ScrollShape?
    ensures Owned(Appended(a, sh))
  {
    var b := Appended(a, sh);
    var id := |a.shapes|;
    forall s | 0 <= s < |b.shapes| && b.shapes[s].ScrollShape?
      ensures OwnsParts(b, s)
    {
      assert s < id && OwnsParts(a, s);
    }
  }

  lemma AppendedRooted(a: Arena, main: Id, sh: Shape)
    requires Wf(a, main)
    ensures Rooted(Appended(a, sh))
  {
    var b := Appended(a, sh);
    var id := |a.shapes|;
    forall n | 0 <= n < |b.shapes|
      ensures b.rootOf[n] < |b.shapes| && (b.up[n].None? ==> b.rootOf[n] == n)
        && (b.up[n].Some? && b.up[n].value < |b.shapes| ==> b.rootOf[n] == b.rootOf[b.up[n].value])
    {
      if n < id {
        assert b.up[n] == a.up[n] && b.rootOf[n] == a.rootOf[n];
      }
    }
  }

  /** The arena with a new scroll panel `s` followed by its main panel, vertical bar and horizontal bar. */
  ghost function AppendedScroll(a: Arena): Arena
  {
    var s := |a.shapes|;
    Arena(a.parent + [None, None, None, None], a.children + [[], [], [], []], a.up + [None, Some(s), Some(s), Some(s)],
          a.rank + [1, 0, 0, 0], if a.bound < 2 then 2 else a.bound, a.rootOf + [s, s, s, s],
          a.shapes + [ScrollShape(s + 1, s + 2, s + 3), PanelShape, BarShape, BarShape])
  }

  lemma AppendedScrollWf(a: Arena, main: Id)
    requires Wf(a, main)
    ensures Wf(AppendedScroll(a), main)
  {
    AppendedScrollRanked(a, main);
    AppendedScrollLinked(a, main);
    AppendedScrollOwned(a, main);
    AppendedScrollRooted(a, main);
  }

  lemma AppendedScrollRanked(a: Arena, main: Id)
    requires Wf(a, main)
    ensures Ranked(AppendedScroll(a))
  {
    var b := AppendedScroll(a);
    var id := |a.shapes|;
    forall n | 0 <= n < |b.shapes| && b.up[n].Some?
      ensures b.up[n].value < |b.shapes| && b.rank[n] < b.rank[b.up[n].value]
    {
      if n < id {
        assert b.up[n] == a.up[n] && b.rank[n] == a.rank[n];
      }
    }
  }

  lemma AppendedScrollLinked(a: Arena, main: Id)
    requires Wf(a, main)
    ensures ParentsListed(AppendedScroll(a)) && ChildrenLinked(AppendedScroll(a))
  {
    var b := AppendedScroll(a);
    var id := |a.shapes|;
    forall n | 0 <= n < |b.shapes| && b.parent[n].Some?
      ensures b.up[n] == b.parent[n] && b.parent[n].value < |b.shapes| && b.shapes[b.parent[n].value] == PanelShape
        && n in b.children[b.parent[n].value]
    {
      assert n < id && b.parent[n] == a.parent[n];
      assert b.children[b.parent[n].value] == a.children[a.parent[n].value];
    }
    forall p, i | 0 <= p < |b.shapes| && 0 <= i < |b.children[p]|
      ensures b.children[p][i] < |b.shapes| && b.parent[b.children[p][i]] == Some(p)
    {
      assert p < id && b.children[p] == a.children[p];
    }
  }

  lemma AppendedScrollOwned(a: Arena, main: Id)
    requires Wf(a, main)
    ensures Owned(AppendedScroll(a))
  {
    var b := AppendedScroll(a);
    var id := |a.shapes|;
    forall n | 0 <= n < |b.shapes| && b.parent[n].None? && b.up[n].Some?
      ensures b.up[n].value < |b.shapes| && b.shapes[b.up[n].value].ScrollShape?
        && (n == b.shapes[b.up[n].value].main || n == b.shapes[b.up[n].value].vbar || n == b.shapes[b.up[n].value].hbar)
    {
      if n < id {
        assert b.up[n] == a.up[n] && b.parent[n] == a.parent[n];
      }
    }
    forall s | 0 <= s < |b.shapes| && b.shapes[s].ScrollShape?
      ensures OwnsParts(b, s)
    {
      if s < id {
        assert OwnsParts(a, s);
      }
    }
  }

  lemma AppendedScrollRooted(a: Arena, main: Id)
    requires Wf(a, main)
    ensures Rooted(AppendedScroll(a))
  {
    var b := AppendedScroll(a);
    var id := |a.shapes|;
    forall n | 0 <= n < |b.shapes|
      ensures b.rootOf[n] < |b.shapes| && (b.up[n].None? ==> b.rootOf[n] == n)
        && (b.up[n].Some? && b.up[n].value < |b.shapes| ==> b.rootOf[n] == b.rootOf[b.up[n].value])
    {
      if n < id {
        assert b.up[n] == a.up[n] && b.rootOf[n] == a.rootOf[n];
      }
    }
  }

  /** What `add_component` needs: `p` is a panel, `c` another component that sits in no container and does not contain `p`. */
  ghost predicate CanAttach(a: Arena, main: Id, p: Id, c: Id)
  {
    Wf(a, main) && p < |a.shapes| && a.shapes[p] == PanelShape && c < |a.shapes| && c != p
    && a.up[c].None? && a.rootOf[p] != c
  }

  /**
   * The arena after `add_component` makes `c` the last child of `p`. The
   * ranks of `p`'s whole tree rise by a common amount so that `p` ranks
   * above `c`, and `c`'s tree now has `p`'s top.
   */
  ghost function Attached(a: Arena, p: Id, c: Id): (b: Arena)
    requires |a.rank| == |a.shapes| && |a.rootOf| == |a.shapes| && |a.parent| == |a.shapes|
    requires |a.children| == |a.shapes| && |a.up| == |a.shapes| && p < |a.shapes| && c < |a.shapes|
    ensures |b.rank| == |a.shapes| && |b.rootOf| == |a.shapes|
  {
    var n := |a.shapes|;
    var d := if a.rank[c] + 1 > a.rank[p] then a.rank[c] + 1 - a.rank[p] else 0;
    var r := a.rootOf[p];
    Arena(a.parent[c := Some(p)], a.children[p := a.children[p] + [c]], a.up[c := Some(p)],
          seq(n, x requires 0 <= x < n => if a.rootOf[x] == r then a.rank[x] + d else a.rank[x]), a.bound + d,
          seq(n, x requires 0 <= x < n => if a.rootOf[x] == c then r else a.rootOf[x]), a.shapes)
  }

  lemma AttachedWf(a: Arena, main: Id, p: Id, c: Id)
    requires CanAttach(a, main, p, c)
    ensures Wf(Attached(a, p, c), main)
  {
    AttachedRanked(a, main, p, c);
    AttachedLinked(a, main, p, c);
    AttachedOwned(a, main, p, c);
    AttachedRooted(a, main, p, c);
  }

  lemma AttachedRanked(a: Arena, main: Id, p: Id, c: Id)
    requires CanAttach(a, main, p, c)
    ensures Ranked(Attached(a, p, c))
  {
    var b := Attached(a, p, c);
    assert a.rootOf[c] == c;
    forall x | 0 <= x < |b.shapes|
      ensures b.rank[x] < b.bound
    {
      assert a.rank[x] < a.bound;
    }
    forall x | 0 <= x < |b.shapes| && b.up[x].Some?
      ensures b.up[x].value < |b.shapes| && b.rank[x] < b.rank[b.up[x].value]
    {
      if x != c {
        assert b.up[x] == a.up[x];
        var y := a.up[x].value;
        assert a.rootOf[x] == a.rootOf[y] && a.rank[x] < a.rank[y];
      }
    }
  }

  lemma AttachedLinked(a: Arena, main: Id, p: Id, c: Id)
    requires CanAttach(a, main, p, c)
    ensures ParentsListed(Attached(a, p, c)) && ChildrenLinked(Attached(a, p, c))
  {
    AttachedParentsListed(a, main, p, c);
    AttachedChildrenLinked(a, main, p, c);
  }

  lemma AttachedParentsListed(a: Arena, main: Id, p: Id, c: Id)
    requires CanAttach(a, main, p, c)
    ensures ParentsListed(Attached(a, p, c))
  {
    var b := Attached(a, p, c);
    assert a.parent[c].None?;
    forall x | 0 <= x < |b.shapes| && b.parent[x].Some?
      ensures b.up[x] == b.parent[x] && b.parent[x].value < |b.shapes| && b.shapes[b.parent[x].value] == PanelShape
        && x in b.children[b.parent[x].value]
    {
      if x != c {
        var y := a.parent[x].value;
        assert x in a.children[y];
        assert y == p ==> b.children[y] == a.children[y] + [c];
      }
    }
  }

  lemma AttachedChildrenLinked(a: Arena, main: Id, p: Id, c: Id)
    requires CanAttach(a, main, p, c)
    ensures ChildrenLinked(Attached(a, p, c))
  {
    var b := Attached(a, p, c);
    assert a.parent[c].None?;
    assert c !in a.children[p];
    forall q, i | 0 <= q < |b.shapes| && 0 <= i < |b.children[q]|
      ensures b.children[q][i] < |b.shapes| && b.parent[b.children[q][i]] == Some(q)
    {
      if q != p || i < |a.children[p]| {
        assert b.children[q][i] == a.children[q][i];
      }
    }
  }

  lemma AttachedOwned(a: Arena, main: Id, p: Id, c: Id)
    requires CanAttach(a, main, p, c)
    ensures Owned(Attached(a, p, c))
  {
    var b := Attached(a, p, c);
    forall s | 0 <= s < |b.shapes| && b.shapes[s].ScrollShape?
      ensures OwnsParts(b, s)
    {
      assert OwnsParts(a, s);
    }
  }

  lemma AttachedRooted(a: Arena, main: Id, p: Id, c: Id)
    requires CanAttach(a, main, p, c)
    ensures Rooted(Attached(a, p, c))
  {
    var b := Attached(a, p, c);
    assert a.rootOf[c] == c;
    assert a.up[p].None? ==> a.rootOf[p] < |a.shapes|;
    forall x | 0 <= x < |b.shapes|
      ensures b.rootOf[x] < |b.shapes| && (b.up[x].None? ==> b.rootOf[x] == x)
        && (b.up[x].Some? && b.up[x].value < |b.shapes| ==> b.rootOf[x] == b.rootOf[b.up[x].value])
    {
      if x == c {
        assert b.rootOf[c] == a.rootOf[p] && b.rootOf[p] == a.rootOf[p];
      } else if a.up[x].Some? {
        var y := a.up[x].value;
        assert a.rootOf[x] == a.rootOf[y];
      } else {
        assert a.rootOf[x] == x;
      }
    }
  }

  /** Every kind has the shape recorded for it. */
  ghost predicate Matches(kinds: seq<Kind>, shapes: seq<Shape>)
  {
    |kinds| == |shapes| && forall n :: 0 <= n < |kinds| ==> ShapeOf(kinds[n]) == shapes[n]
  }

  lemma MatchesAppend(kinds: seq<Kind>, shapes: seq<Shape>, ks: seq<Kind>)
    requires Matches(kinds, shapes)
    ensures Matches(kinds + ks, shapes + seq(|ks|, i requires 0 <= i < |ks| => ShapeOf(ks[i])))
  {
  }

}
