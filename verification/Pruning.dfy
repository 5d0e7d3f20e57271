/** k_destroy (src/x_node.c) keeps one node of a pair fixed and walks down from the other, stopping at the first pair
    that is not tracked. What it removes is stated on the set `t` of nodes that are tracked with the fixed one. */
module Pruning {
  import opened XNodes
  import opened Hierarchy
  import opened FlowTable
  import opened Counting
  import opened Reachable

  /** y is x or lies below it. */
  ghost predicate Under(n: Nodes, y: XNode, x: XNode)
    requires Forest(n) && y in n
  {
    x in Chain(n, y)
  }

  /** y and all nodes on the way up to x are tracked. */
  ghost predicate Open(n: Nodes, t: set<XNode>, y: XNode, x: XNode)
    requires Forest(n) && y in n
    decreases 3 - Level(n[y].kind)
  {
    y in t && (y == x || (n[y].parent != null && (assert Linked(n, y); Open(n, t, n[y].parent, x))))
  }

  /** What k_destroy removes, going down from x. */
  ghost function Gone(n: Nodes, t: set<XNode>, x: XNode): set<XNode>
    requires Forest(n)
  {
    set y | y in t && y in n && Open(n, t, y, x)
  }

  /** What is gone once x and the subtrees of `cs` are done. */
  ghost function GoneVia(n: Nodes, t: set<XNode>, x: XNode, cs: seq<XNode>): set<XNode>
    requires Forest(n)
  {
    set y | y in t && y in n && (y == x || exists i :: 0 <= i < |cs| && Open(n, t, y, cs[i]))
  }

  lemma UnderParent(n: Nodes, y: XNode, x: XNode)
    requires Forest(n) && y in n
    ensures Under(n, y, x) <==> y == x || (n[y].parent != null && n[y].parent in n && Under(n, n[y].parent, x))
  {
    assert Linked(n, y);
  }

  lemma OpenParent(n: Nodes, t: set<XNode>, y: XNode, x: XNode)
    requires Forest(n) && y in n
    ensures Open(n, t, y, x) <==>
      y in t && (y == x || (n[y].parent != null && n[y].parent in n && Open(n, t, n[y].parent, x)))
  {
    assert Linked(n, y);
  }

  lemma {:induction false} OpenUnder(n: Nodes, t: set<XNode>, y: XNode, x: XNode)
    requires Forest(n) && y in n && Open(n, t, y, x)
    ensures Under(n, y, x) && x in t
    decreases 3 - Level(n[y].kind)
  {
    UnderParent(n, y, x);
    OpenParent(n, t, y, x);
    if y != x {
      assert Linked(n, y);
      OpenUnder(n, t, n[y].parent, x);
    }
  }

  lemma NoneGone(n: Nodes, t: set<XNode>, x: XNode)
    requires Forest(n) && x !in t
    ensures Gone(n, t, x) == {}
  {
    forall y | y in Gone(n, t, x) ensures false {
      OpenUnder(n, t, y, x);
    }
  }

  /** Below a tracked node, the way goes through one of its children. */
  lemma {:induction false} OpenChild(n: Nodes, t: set<XNode>, y: XNode, x: XNode)
    requires Forest(n) && y in n && x in n && x in t
    ensures Open(n, t, y, x) <==> y == x || exists i :: 0 <= i < |n[x].children| && Open(n, t, y, n[x].children[i])
    decreases 3 - Level(n[y].kind)
  {
    var cs := n[x].children;
    assert Linked(n, y) && Linked(n, x);
    OpenParent(n, t, y, x);
    forall i | 0 <= i < |cs|
      ensures Open(n, t, y, cs[i]) <==>
        y in t && (y == cs[i] || (n[y].parent != null && Open(n, t, n[y].parent, cs[i])))
    {
      OpenParent(n, t, y, cs[i]);
    }
    if n[y].parent != null {
      var p := n[y].parent;
      OpenChild(n, t, p, x);
      if p == x {
        var i :| 0 <= i < |cs| && cs[i] == y;
        assert Open(n, t, y, cs[i]) <==> y in t;
      }
      if y in t && p != x && Open(n, t, p, x) {
        var i :| 0 <= i < |cs| && Open(n, t, p, cs[i]);
        assert Open(n, t, y, cs[i]);
      }
      forall i | 0 <= i < |cs| && Open(n, t, y, cs[i]) ensures Open(n, t, p, x) {
        if y != cs[i] {
          assert Open(n, t, p, cs[i]);
        } else {
          assert Linked(n, cs[i]);
        }
      }
    }
  }

  lemma GoneSplits(n: Nodes, t: set<XNode>, x: XNode)
    requires Forest(n) && x in n && x in t
    ensures Gone(n, t, x) == GoneVia(n, t, x, n[x].children)
  {
    forall y | y in t && y in n ensures y in Gone(n, t, x) <==> y in GoneVia(n, t, x, n[x].children) {
      OpenChild(n, t, y, x);
    }
  }

  lemma GoneFirst(n: Nodes, t: set<XNode>, x: XNode)
    requires Forest(n) && x in n && x in t
    ensures GoneVia(n, t, x, n[x].children[..0]) == {x}
  {
  }

  /** A node below one child is below no other, nor above them. */
  lemma {:induction false} Apart(n: Nodes, y: XNode, x: XNode, c: XNode, d: XNode)
    requires Forest(n) && y in n && x in n && c in n && d in n && n[c].parent == x && n[d].parent == x && c != d
    requires Under(n, y, c)
    ensures y != x && !Under(n, y, d)
    decreases 3 - Level(n[y].kind)
  {
    assert Linked(n, y) && Linked(n, c) && Linked(n, d);
    UnderParent(n, y, c);
    UnderParent(n, y, d);
    if y != c {
      Apart(n, n[y].parent, x, c, d);
      if y == x || y == d {
        LevelUnder(n, y, c);
      }
    } else {
      NotUnder(n, x, d);
    }
  }

  lemma LevelUnder(n: Nodes, y: XNode, x: XNode)
    requires Forest(n) && y in n && x in n && Under(n, y, x)
    ensures Level(n[y].kind) <= Level(n[x].kind) && (Level(n[y].kind) == Level(n[x].kind) ==> y == x)
  {
    ChainLinks(n, y);
    var c := Chain(n, y);
    var i :| 0 <= i < |c| && c[i] == x;
  }

  lemma NotUnder(n: Nodes, x: XNode, c: XNode)
    requires Forest(n) && x in n && c in n && n[c].parent == x
    ensures !Under(n, x, c)
  {
    assert Linked(n, c);
    if Under(n, x, c) {
      LevelUnder(n, x, c);
    }
  }

  /** What has gone with x and earlier siblings does not lie on the way from y up to c. */
  lemma {:induction false} OpenStays(n: Nodes, t: set<XNode>, gone: set<XNode>, y: XNode, c: XNode)
    requires Forest(n) && y in n && gone <= t && forall z :: z in gone ==> z in n && !Under(n, z, c)
    ensures Open(n, t - gone, y, c) <==> Open(n, t, y, c)
    decreases 3 - Level(n[y].kind)
  {
    assert Linked(n, y);
    OpenParent(n, t, y, c);
    OpenParent(n, t - gone, y, c);
    if y != c && n[y].parent != null {
      OpenStays(n, t, gone, n[y].parent, c);
    }
    if Open(n, t, y, c) {
      OpenUnder(n, t, y, c);
    }
  }

  lemma SiblingsApart(n: Nodes, t: set<XNode>, x: XNode, i: nat, z: XNode)
    requires Forest(n) && x in n && i < |n[x].children| && z in GoneVia(n, t, x, n[x].children[..i])
    ensures n[x].children[i] in n && z in n && !Under(n, z, n[x].children[i])
  {
    var cs := n[x].children;
    assert Linked(n, x) && Linked(n, cs[i]);
    if z == x {
      NotUnder(n, x, cs[i]);
    } else {
      var j :| 0 <= j < i && Open(n, t, z, cs[..i][j]);
      assert cs[..i][j] == cs[j] && Linked(n, cs[j]) && cs[j] != cs[i];
      OpenUnder(n, t, z, cs[j]);
      Apart(n, z, x, cs[j], cs[i]);
    }
  }

  lemma GoneStep(n: Nodes, t: set<XNode>, x: XNode, i: nat)
    requires Forest(n) && x in n && i < |n[x].children|
    ensures var cs := n[x].children;
      var gone := GoneVia(n, t, x, cs[..i]);
      GoneVia(n, t, x, cs[..i + 1]) == gone + Gone(n, t - gone, cs[i])
  {
    var cs := n[x].children;
    var gone := GoneVia(n, t, x, cs[..i]);
    forall z | z in gone ensures z in n && !Under(n, z, cs[i]) {
      SiblingsApart(n, t, x, i, z);
    }
    forall y | y in t && y in n ensures y in GoneVia(n, t, x, cs[..i + 1]) <==> y in gone || Open(n, t, y, cs[i]) {
      assert cs[..i + 1][i] == cs[i];
      forall j | 0 <= j < i ensures cs[..i + 1][j] == cs[..i][j] {
      }
    }
    forall y | y in t && y in n ensures y in gone + Gone(n, t - gone, cs[i]) <==> y in gone || Open(n, t, y, cs[i]) {
      OpenStays(n, t, gone, y, cs[i]);
      if Open(n, t, y, cs[i]) {
        OpenUnder(n, t, y, cs[i]);
      }
    }
  }

  lemma ChildBelow(n: Nodes, x: XNode, i: nat)
    requires Forest(n) && x in n && i < |n[x].children|
    ensures var c := n[x].children[i];
      c in n && n[c].parent == x && Level(n[c].kind) < Level(n[x].kind) && Which(n[c].kind) == Which(n[x].kind)
  {
    assert Linked(n, x);
    assert Linked(n, n[x].children[i]);
  }

  // ---------- in reachable states ----------

  /** The nodes tracked with x, where x is a consumer (which is 0) or a provider (which is 1). */
  ghost function With(flows: set<Pair>, x: XNode, which: nat): set<XNode> {
    if which == 0 then set k | k in flows && k.0 == x :: k.1 else set k | k in flows && k.1 == x :: k.0
  }

  lemma {:induction false} ProviderOpen(s: Sys, x: XNode, y: XNode)
    requires Inv(s) && (x, y) in s.flows
    ensures y in s.h.nodes && Open(s.h.nodes, With(s.flows.Keys, x, 0), y, s.h.v)
    decreases 3 - if y in s.h.nodes then Level(s.h.nodes[y].kind) else 0
  {
    var n := s.h.nodes;
    assert (x, y).1 == y && (x, y).0 == x && Side(n, y, 1);
    assert Linked(n, y) && OneTop(s.h, y);
    OpenParent(n, With(s.flows.Keys, x, 0), y, s.h.v);
    if y != s.h.v {
      TrackedAbove1(s, x, y);
      ProviderOpen(s, x, n[y].parent);
    }
  }

  /** Reaping leaves nothing dangling: in every reachable state, starting from the top provider, k_destroy prunes at no
      pair it should have gone past, and removes all pairs of the consumer. */
  lemma DestroyGetsAll(s: Sys, x: XNode)
    requires Inv(s)
    ensures Gone(s.h.nodes, With(s.flows.Keys, x, 0), s.h.v) == With(s.flows.Keys, x, 0)
  {
    forall y | y in With(s.flows.Keys, x, 0)
      ensures y in s.h.nodes && Open(s.h.nodes, With(s.flows.Keys, x, 0), y, s.h.v)
    {
      assert (x, y) in s.flows;
      ProviderOpen(s, x, y);
    }
  }

  lemma {:induction false} ConsumerOpen(s: Sys, y: XNode, x: XNode)
    requires Inv(s) && (y, x) in s.flows && y in s.h.nodes && s.h.nodes[y].kind != Host
    ensures Open(s.h.nodes, With(s.flows.Keys, x, 1), y, s.h.u)
    decreases 3 - if y in s.h.nodes then Level(s.h.nodes[y].kind) else 0
  {
    var n := s.h.nodes;
    assert (y, x).1 == x && (y, x).0 == y && Side(n, y, 0);
    assert Linked(n, y) && OneTop(s.h, y);
    OpenParent(n, With(s.flows.Keys, x, 1), y, s.h.u);
    if y != s.h.u {
      TrackedAbove0(s, y, x);
      assert Linked(n, n[y].parent);
      ConsumerOpen(s, n[y].parent, x);
    }
  }

  /** On the other side it would not do: from (U, x) for a provider x, k_destroy leaves exactly the pairs of hosts whose
      present job is not tracked with x. Nothing in the program destroys providers. */
  lemma DestroyLeaves(s: Sys, x: XNode, y: XNode)
    requires Inv(s) && (y, x) in s.flows
    ensures y in s.h.nodes
    ensures y in Gone(s.h.nodes, With(s.flows.Keys, x, 1), s.h.u) <==>
      s.h.nodes[y].kind != Host || (s.h.nodes[y].parent, x) in s.flows
  {
    var n, t := s.h.nodes, With(s.flows.Keys, x, 1);
    assert (y, x).1 == x && (y, x).0 == y && Side(n, y, 0) && y in t;
    assert Linked(n, y);
    if n[y].kind != Host {
      ConsumerOpen(s, y, x);
    } else {
      var j := n[y].parent;
      OpenParent(n, t, y, s.h.u);
      assert j in t <==> (j, x) in s.flows;
      assert IsKind(n, s.h.u, U);
      if (j, x) in s.flows {
        ConsumerOpen(s, j, x);
      } else {
        OpenParent(n, t, j, s.h.u);
      }
    }
  }
}
