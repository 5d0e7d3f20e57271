/** The walk of a top query over the product of the two trees (k_heap_top, src/k_heap.c), with the owner filter
    (src/top.c): which pairs it reaches, in which order. */
module Walks {
  import opened Basics
  import opened Ewma
  import opened XNodes
  import opened Hierarchy
  import opened FlowTable
  import opened Machine
  import opened Reachable

  /** No filter, or k_heap_filt_owner for this owner. */
  datatype Filter = All | Owner(name: string)

  /** k_heap_filt_owner is not negative. */
  predicate Admits(n: Nodes, f: Filter, x: XNode)
    requires x in n
  {
    f.Owner? && n[x].kind == Job ==> n[x].owner == f.name
  }

  /** The filter in force further down: none once a job has passed. */
  function Below(n: Nodes, f: Filter, x: XNode): Filter
    requires x in n
  {
    if n[x].kind == Job then All else f
  }

  /** The pairs the walk ends at. */
  function Visit(n: Nodes, keys: set<Pair>, x0: XNode, d0: nat, x1: XNode, d1: nat, f: Filter): seq<Pair>
    decreases d0 + d1, 0, 0
  {
    if (x0, x1) !in keys || x0 !in n || x1 !in n || !Admits(n, f, x0) then []
    else if d0 > 0 then Visit0(n, keys, n[x0].children, d0 - 1, x1, d1, Below(n, f, x0))
    else if d1 > 0 then Visit1(n, keys, x0, n[x1].children, d1 - 1, Below(n, f, x0))
    else [(x0, x1)]
  }

  function Visit0(n: Nodes, keys: set<Pair>, cs: seq<XNode>, d0: nat, x1: XNode, d1: nat, f: Filter): seq<Pair>
    decreases d0 + d1, 1, |cs|
  {
    if cs == [] then []
    else Visit0(n, keys, cs[..|cs| - 1], d0, x1, d1, f) + Visit(n, keys, cs[|cs| - 1], d0, x1, d1, f)
  }

  function Visit1(n: Nodes, keys: set<Pair>, x0: XNode, cs: seq<XNode>, d1: nat, f: Filter): seq<Pair>
    decreases d1, 1, |cs|
  {
    if cs == [] then []
    else Visit1(n, keys, x0, cs[..|cs| - 1], d1, f) + Visit(n, keys, x0, 0, cs[|cs| - 1], d1, f)
  }

  // ---------- what the walk reaches ----------

  /** The d-th ancestor. */
  function Up(n: Nodes, a: XNode, d: nat): XNode? {
    if d == 0 then a
    else
      var b := Up(n, a, d - 1);
      if b in n then n[b].parent else null
  }

  /** Every pair on the way from (x0, x1) down to (a, x1) is tracked, and passes the filter. */
  ghost predicate OpenTo0(n: Nodes, keys: set<Pair>, f: Filter, a: XNode, d: nat, x1: XNode) {
    forall i {:trigger Up(n, a, i)} :: 0 <= i <= d ==>
      Up(n, a, i) in n && (Up(n, a, i), x1) in keys && Admits(n, f, Up(n, a, i))
  }

  /** Every pair on the way from (a, x1) down to (a, b) is tracked. */
  ghost predicate OpenTo1(n: Nodes, keys: set<Pair>, a: XNode, b: XNode, d: nat) {
    forall i {:trigger Up(n, b, i)} :: 0 <= i <= d ==> Up(n, b, i) in n && (a, Up(n, b, i)) in keys
  }

  ghost predicate Reaches(n: Nodes, keys: set<Pair>, x0: XNode, d0: nat, x1: XNode, d1: nat, f: Filter, k: Pair) {
    && Up(n, k.0, d0) == x0 && Up(n, k.1, d1) == x1
    && OpenTo0(n, keys, f, k.0, d0, x1) && OpenTo1(n, keys, k.0, k.1, d1)
  }

  lemma {:induction false} UpLevels(n: Nodes, a: XNode, d: nat)
    requires Forest(n) && a in n && Up(n, a, d) in n
    ensures Level(n[Up(n, a, d)].kind) == Level(n[a].kind) + d && Which(n[Up(n, a, d)].kind) == Which(n[a].kind)
    ensures forall i {:trigger Up(n, a, i)} :: 0 <= i <= d ==> Up(n, a, i) in n
  {
    if d > 0 {
      var b := Up(n, a, d - 1);
      assert Linked(n, b);
      UpLevels(n, a, d - 1);
    }
  }

  lemma {:induction false} SeveralVisited0(n: Nodes, keys: set<Pair>, cs: seq<XNode>, d0: nat, x1: XNode, d1: nat,
                                           f: Filter, k: Pair)
    ensures k in Visit0(n, keys, cs, d0, x1, d1, f) <==>
      exists i :: 0 <= i < |cs| && k in Visit(n, keys, cs[i], d0, x1, d1, f)
  {
    if cs != [] {
      var m := |cs| - 1;
      SeveralVisited0(n, keys, cs[..m], d0, x1, d1, f, k);
      hide Visit;
      if i :| 0 <= i < |cs| && k in Visit(n, keys, cs[i], d0, x1, d1, f) {
        if i < m {
          assert cs[..m][i] == cs[i];
        }
      }
      if k in Visit0(n, keys, cs[..m], d0, x1, d1, f) {
        var i :| 0 <= i < m && k in Visit(n, keys, cs[..m][i], d0, x1, d1, f);
        assert cs[..m][i] == cs[i];
      }
    }
  }

  lemma {:induction false} SeveralVisited1(n: Nodes, keys: set<Pair>, x0: XNode, cs: seq<XNode>, d1: nat, f: Filter,
                                           k: Pair)
    ensures k in Visit1(n, keys, x0, cs, d1, f) <==>
      exists i :: 0 <= i < |cs| && k in Visit(n, keys, x0, 0, cs[i], d1, f)
  {
    if cs != [] {
      var m := |cs| - 1;
      SeveralVisited1(n, keys, x0, cs[..m], d1, f, k);
      hide Visit;
      if i :| 0 <= i < |cs| && k in Visit(n, keys, x0, 0, cs[i], d1, f) {
        if i < m {
          assert cs[..m][i] == cs[i];
        }
      }
      if k in Visit1(n, keys, x0, cs[..m], d1, f) {
        var i :| 0 <= i < m && k in Visit(n, keys, x0, 0, cs[..m][i], d1, f);
        assert cs[..m][i] == cs[i];
      }
    }
  }

  /** Only hosts lie below a job, so dropping the filter there changes nothing. */
  lemma FilterBelow(n: Nodes, f: Filter, a: XNode, d: nat, i: nat)
    requires Forest(n) && a in n && Up(n, a, d) in n && i < d && Up(n, a, i) in n
    ensures Admits(n, Below(n, f, Up(n, a, d)), Up(n, a, i)) <==> Admits(n, f, Up(n, a, i))
  {
    UpLevels(n, a, d);
    UpLevels(n, a, i);
  }

  lemma OpenStep0(n: Nodes, keys: set<Pair>, f: Filter, a: XNode, d: nat, x1: XNode)
    requires Forest(n) && d > 0 && a in n && Up(n, a, d) in n
    ensures OpenTo0(n, keys, f, a, d, x1) <==>
      && (Up(n, a, d), x1) in keys && Admits(n, f, Up(n, a, d))
      && OpenTo0(n, keys, Below(n, f, Up(n, a, d)), a, d - 1, x1)
  {
    UpLevels(n, a, d);
    forall i | 0 <= i < d
      ensures Admits(n, Below(n, f, Up(n, a, d)), Up(n, a, i)) <==> Admits(n, f, Up(n, a, i))
    {
      FilterBelow(n, f, a, d, i);
    }
  }

  lemma OpenStep1(n: Nodes, keys: set<Pair>, a: XNode, b: XNode, d: nat)
    requires d > 0
    ensures OpenTo1(n, keys, a, b, d) <==> Up(n, b, d) in n && (a, Up(n, b, d)) in keys && OpenTo1(n, keys, a, b, d - 1)
  {
  }

  /** A node's d-th ancestor is x exactly if its (d - 1)-th is a child of x. */
  lemma UpViaChild(n: Nodes, a: XNode, d: nat, x: XNode)
    requires Forest(n) && d > 0 && x in n
    ensures Up(n, a, d) == x <==> exists i :: 0 <= i < |n[x].children| && Up(n, a, d - 1) == n[x].children[i]
  {
    assert Linked(n, x);
    var b := Up(n, a, d - 1);
    if Up(n, a, d) == x {
      assert Linked(n, b);
      var i :| 0 <= i < |n[x].children| && n[x].children[i] == b;
    }
  }

  lemma {:induction false} UpInside(n: Nodes, a: XNode, d: nat)
    requires Up(n, a, d) in n
    ensures a in n
  {
    if d > 0 {
      UpInside(n, a, d - 1);
    }
  }

  /** The walk ends at (a, b) exactly if a lies d0 below x0, b lies d1 below x1, every pair on the way is tracked, and
      every consumer on the way passes the filter. */
  lemma {:induction false} WalkReaches(n: Nodes, keys: set<Pair>, x0: XNode, d0: nat, x1: XNode, d1: nat, f: Filter,
                                       k: Pair)
    requires Forest(n)
    ensures k in Visit(n, keys, x0, d0, x1, d1, f) <==> Reaches(n, keys, x0, d0, x1, d1, f, k)
    decreases d0 + d1
  {
    if Reaches(n, keys, x0, d0, x1, d1, f, k) {
      assert Up(n, k.0, d0) in n && Up(n, k.1, d1) in n;
      assert (Up(n, k.0, 0), x1) in keys;
    }
    if (x0, x1) in keys && x0 in n && x1 in n && Admits(n, f, x0) {
      if d0 > 0 {
        Down0(n, keys, x0, d0, x1, d1, f, k);
      } else if d1 > 0 {
        Down1(n, keys, x0, x1, d1, f, k);
      }
    }
  }

  lemma Down0(n: Nodes, keys: set<Pair>, x0: XNode, d0: nat, x1: XNode, d1: nat, f: Filter, k: Pair)
    requires Forest(n) && d0 > 0 && (x0, x1) in keys && x0 in n && x1 in n && Admits(n, f, x0)
    ensures k in Visit(n, keys, x0, d0, x1, d1, f) <==> Reaches(n, keys, x0, d0, x1, d1, f, k)
    decreases d0 + d1, 0
  {
    var cs, g := n[x0].children, Below(n, f, x0);
    SeveralVisited0(n, keys, cs, d0 - 1, x1, d1, g, k);
    UpViaChild(n, k.0, d0, x0);
    forall i | 0 <= i < |cs|
      ensures k in Visit(n, keys, cs[i], d0 - 1, x1, d1, g) <==> Reaches(n, keys, cs[i], d0 - 1, x1, d1, g, k)
    {
      WalkReaches(n, keys, cs[i], d0 - 1, x1, d1, g, k);
    }
    if Up(n, k.0, d0) == x0 {
      UpInside(n, k.0, d0);
      OpenStep0(n, keys, f, k.0, d0, x1);
    }
  }

  lemma Down1(n: Nodes, keys: set<Pair>, x0: XNode, x1: XNode, d1: nat, f: Filter, k: Pair)
    requires Forest(n) && d1 > 0 && (x0, x1) in keys && x0 in n && x1 in n && Admits(n, f, x0)
    ensures k in Visit(n, keys, x0, 0, x1, d1, f) <==> Reaches(n, keys, x0, 0, x1, d1, f, k)
    decreases d1, 0
  {
    var cs, g := n[x1].children, Below(n, f, x0);
    SeveralVisited1(n, keys, x0, cs, d1 - 1, g, k);
    UpViaChild(n, k.1, d1, x1);
    forall i | 0 <= i < |cs|
      ensures k in Visit(n, keys, x0, 0, cs[i], d1 - 1, g) <==> Reaches(n, keys, x0, 0, cs[i], d1 - 1, g, k)
    {
      WalkReaches(n, keys, x0, 0, cs[i], d1 - 1, g, k);
    }
    OpenStep1(n, keys, k.0, k.1, d1);
  }

  // ---------- no pair twice ----------

  lemma Separate(a: seq<Pair>, b: seq<Pair>)
    requires NoDups(a) && NoDups(b) && forall k :: k in a ==> k !in b
    ensures NoDups(a + b)
  {
    forall i, j | 0 <= i < j < |a + b| ensures (a + b)[i] != (a + b)[j] {
      if i < |a| <= j {
        assert a[i] in a && b[j - |a|] in b;
      }
    }
  }

  lemma {:induction false} VisitDistinct(n: Nodes, keys: set<Pair>, x0: XNode, d0: nat, x1: XNode, d1: nat, f: Filter)
    requires Forest(n)
    ensures NoDups(Visit(n, keys, x0, d0, x1, d1, f))
    decreases d0 + d1, 0, 0
  {
    if (x0, x1) in keys && x0 in n && x1 in n && Admits(n, f, x0) {
      assert Linked(n, x0) && Linked(n, x1);
      if d0 > 0 {
        Distinct0(n, keys, n[x0].children, d0 - 1, x1, d1, Below(n, f, x0));
      } else if d1 > 0 {
        Distinct1(n, keys, x0, n[x1].children, d1 - 1, Below(n, f, x0));
      }
    }
  }

  lemma {:induction false} Distinct0(n: Nodes, keys: set<Pair>, cs: seq<XNode>, d0: nat, x1: XNode, d1: nat, f: Filter)
    requires Forest(n) && NoDups(cs)
    ensures NoDups(Visit0(n, keys, cs, d0, x1, d1, f))
    decreases d0 + d1, 1, |cs|
  {
    if cs != [] {
      var m := |cs| - 1;
      Distinct0(n, keys, cs[..m], d0, x1, d1, f);
      VisitDistinct(n, keys, cs[m], d0, x1, d1, f);
      var v, w := Visit0(n, keys, cs[..m], d0, x1, d1, f), Visit(n, keys, cs[m], d0, x1, d1, f);
      forall k | k in v ensures k !in w {
        SeveralVisited0(n, keys, cs[..m], d0, x1, d1, f, k);
        var i :| 0 <= i < m && k in Visit(n, keys, cs[..m][i], d0, x1, d1, f);
        WalkReaches(n, keys, cs[i], d0, x1, d1, f, k);
        WalkReaches(n, keys, cs[m], d0, x1, d1, f, k);
      }
      Separate(v, w);
    }
  }

  lemma {:induction false} Distinct1(n: Nodes, keys: set<Pair>, x0: XNode, cs: seq<XNode>, d1: nat, f: Filter)
    requires Forest(n) && NoDups(cs)
    ensures NoDups(Visit1(n, keys, x0, cs, d1, f))
    decreases d1, 1, |cs|
  {
    if cs != [] {
      var m := |cs| - 1;
      Distinct1(n, keys, x0, cs[..m], d1, f);
      VisitDistinct(n, keys, x0, 0, cs[m], d1, f);
      var v, w := Visit1(n, keys, x0, cs[..m], d1, f), Visit(n, keys, x0, 0, cs[m], d1, f);
      forall k | k in v ensures k !in w {
        SeveralVisited1(n, keys, x0, cs[..m], d1, f, k);
        var i :| 0 <= i < m && k in Visit(n, keys, x0, 0, cs[..m][i], d1, f);
        WalkReaches(n, keys, x0, 0, cs[i], d1, f, k);
        WalkReaches(n, keys, x0, 0, cs[m], d1, f, k);
      }
      Separate(v, w);
    }
  }

  // ---------- in reachable states ----------

  /** The pair k lies d0 and d1 below (x0, x1). */
  ghost predicate LiesBelow(n: Nodes, x0: XNode, d0: nat, x1: XNode, d1: nat, k: Pair) {
    x0 in n && x1 in n && Up(n, k.0, d0) == x0 && Up(n, k.1, d1) == x1
  }

  lemma {:induction false} ProvidersOpen(s: Sys, a: XNode, b: XNode, d: nat)
    requires Inv(s) && (a, b) in s.flows && Up(s.h.nodes, b, d) in s.h.nodes
    ensures OpenTo1(s.h.nodes, s.flows.Keys, a, b, d)
  {
    var n := s.h.nodes;
    if d > 0 {
      var c := Up(n, b, d - 1);
      ProvidersOpen(s, a, b, d - 1);
      assert Linked(n, c);
      assert (a, c) in s.flows.Keys;
      TrackedAbove1(s, a, c);
    }
  }

  lemma {:induction false} ConsumersOpen(s: Sys, a: XNode, b: XNode, d: nat)
    requires Inv(s) && (a, b) in s.flows && a in s.h.nodes && s.h.nodes[a].kind != Host
    requires Up(s.h.nodes, a, d) in s.h.nodes
    ensures OpenTo0(s.h.nodes, s.flows.Keys, All, a, d, b)
  {
    var n := s.h.nodes;
    if d > 0 {
      var c := Up(n, a, d - 1);
      ConsumersOpen(s, a, b, d - 1);
      UpLevels(n, a, d - 1);
      assert Linked(n, c);
      assert (c, b) in s.flows.Keys;
      TrackedAbove0(s, c, b);
    }
  }

  lemma {:induction false} TrackedAt(s: Sys, a: XNode, b: XNode, d: nat)
    requires Inv(s) && (a, b) in s.flows && Up(s.h.nodes, b, d) in s.h.nodes
    ensures (a, Up(s.h.nodes, b, d)) in s.flows
  {
    ProvidersOpen(s, a, b, d);
  }

  /** In every reachable state a walk without filter that ends at job level or above misses no tracked pair. */
  lemma NothingMissed(s: Sys, x0: XNode, d0: nat, x1: XNode, d1: nat, k: Pair)
    requires Inv(s) && LiesBelow(s.h.nodes, x0, d0, x1, d1, k) && k.0 in s.h.nodes && s.h.nodes[k.0].kind != Host
    ensures k in Visit(s.h.nodes, s.flows.Keys, x0, d0, x1, d1, All) <==> k in s.flows
  {
    var n, keys := s.h.nodes, s.flows.Keys;
    WalkReaches(n, keys, x0, d0, x1, d1, All, k);
    assert k == (k.0, k.1);
    if k in s.flows {
      ProvidersOpen(s, k.0, k.1, d1);
      TrackedAt(s, k.0, k.1, d1);
      ConsumersOpen(s, k.0, x1, d0);
    } else {
      assert Up(n, k.1, 0) == k.1;
    }
  }

  /** Every consumer from x's parent up to its d-th ancestor is tracked with x1. */
  ghost predicate TrackedAboveWith(s: Sys, x: XNode, d: nat, x1: XNode) {
    forall i {:trigger Up(s.h.nodes, x, i)} :: 0 < i <= d ==> (Up(s.h.nodes, x, i), x1) in s.flows
  }

  /** Ending at hosts, it finds a tracked pair exactly if the host's present ancestors up to x0 are tracked
      with x1... */
  lemma HostsFoundAbove(s: Sys, x0: XNode, d0: nat, x1: XNode, d1: nat, k: Pair)
    requires Inv(s) && LiesBelow(s.h.nodes, x0, d0, x1, d1, k) && k in s.flows
    ensures k in Visit(s.h.nodes, s.flows.Keys, x0, d0, x1, d1, All) <==> TrackedAboveWith(s, k.0, d0, x1)
  {
    var n, keys := s.h.nodes, s.flows.Keys;
    assert k == (k.0, k.1);
    WalkReaches(n, keys, x0, d0, x1, d1, All, k);
    ProvidersOpen(s, k.0, k.1, d1);
    TrackedAt(s, k.0, k.1, d1);
    UpLevels(n, k.0, d0);
    if TrackedAboveWith(s, k.0, d0, x1) {
      forall i {:trigger Up(n, k.0, i)} | 0 <= i <= d0
        ensures Up(n, k.0, i) in n && (Up(n, k.0, i), x1) in keys && Admits(n, All, Up(n, k.0, i))
      {
        assert i == 0 ==> Up(n, k.0, i) == k.0;
      }
    }
  }

  lemma {:induction false} UpShift(n: Nodes, a: XNode, p: XNode, d: nat)
    requires a in n && n[a].parent == p && d > 0
    ensures Up(n, a, d) == Up(n, p, d - 1)
  {
    if d > 1 {
      UpShift(n, a, p, d - 1);
    } else {
      assert Up(n, a, 0) == a && Up(n, p, 0) == p;
    }
  }

  /** ... and for that one of them is enough: the host's present job. Only a walk that starts at the host
      needs nothing. */
  lemma HostsFound(s: Sys, x0: XNode, d0: nat, x1: XNode, d1: nat, k: Pair)
    requires Inv(s) && LiesBelow(s.h.nodes, x0, d0, x1, d1, k) && k in s.flows && IsKind(s.h.nodes, k.0, Host)
    ensures s.h.nodes[k.0].parent in s.h.nodes
    ensures k in Visit(s.h.nodes, s.flows.Keys, x0, d0, x1, d1, All) <==>
      d0 == 0 || (s.h.nodes[k.0].parent, x1) in s.flows
  {
    var n := s.h.nodes;
    assert Linked(n, k.0);
    var j := n[k.0].parent;
    HostsFoundAbove(s, x0, d0, x1, d1, k);
    if d0 > 0 {
      assert Up(n, k.0, 0) == k.0 && Up(n, k.0, 1) == j;
      if (j, x1) in s.flows {
        UpShift(n, k.0, j, d0);
        ConsumersOpen(s, j, x1, d0 - 1);
        forall i {:trigger Up(n, k.0, i)} | 0 < i <= d0 ensures (Up(n, k.0, i), x1) in s.flows {
          UpShift(n, k.0, j, i);
        }
      }
    }
  }

  /** So a host that has just moved to a new job is missed by every walk that starts above that job, however many of its
      pairs are tracked. */
  lemma MovedHostMissed(s: Sys, e: Step, x0: XNode, d0: nat, x1: XNode, d1: nat, b: XNode)
    requires Inv(s) && e.ClusLine? && Enabled(s, e) && (Job, e.job) !in s.h.names && d0 > 0
    ensures var s' := Next(s, e);
      (Host, e.host) in s'.h.names
      && (s'.h.names[(Host, e.host)], b) !in Visit(s'.h.nodes, s'.flows.Keys, x0, d0, x1, d1, All)
  {
    var s' := Next(s, e);
    MovedHostUntrackedAbove(s, e, x1);
    StepKeepsInv(s, e);
    var x, n := s'.h.names[(Host, e.host)], s'.h.nodes;
    assert Up(n, x, 0) == x && Up(n, x, 1) == e.nj;
    WalkReaches(n, s'.flows.Keys, x0, d0, x1, d1, All, (x, b));
  }

  lemma UpThree(n: Nodes, h: XNode, j: XNode, c: XNode, u: XNode)
    requires h in n && j in n && c in n && n[h].parent == j && n[j].parent == c && n[c].parent == u
    ensures Up(n, h, 1) == j && Up(n, h, 2) == c && Up(n, h, 3) == u
  {
    assert Up(n, h, 0) == h;
  }

  /** The host reports under a name not seen before. */
  lemma HostReports(s: Sys, v: XNode, h: XNode, d: Stats)
    requires Inv(s) && IsKind(s.h.nodes, v, Serv) && h !in s.h.ever && (Host, "host") !in s.h.names && s.now <= 1.0
    ensures var e := ServLine(v, "host", Numbers(d), 1.0, h);
      && Enabled(s, e) && Inv(Next(s, e)) && (h, v) in Next(s, e).flows && Next(s, e).h == HostLookup(s.h, "host", h).0
  {
    StepKeepsInv(s, ServLine(v, "host", Numbers(d), 1.0, h));
    HostArrives(s, "host", h);
    var (h', x0) := HostLookup(s.h, "host", h);
    HostChain(h', h);
    ServChain(h', v);
    hide Inv, Tree, HostLookup, Lookup;
    var c0, c1 := Chain(h'.nodes, h), Chain(h'.nodes, v);
    assert c0[0] in c0 && c1[0] in c1;
    assert (h, v) in Pairs(c0, c1);
  }

  lemma HostArrives(s: Sys, host: string, h: XNode)
    requires Inv(s) && h !in s.h.ever && (Host, host) !in s.h.names
    ensures var (h', x) := HostLookup(s.h, host, h);
      && Tree(h') && x == h && IsKind(h'.nodes, h, Host) && h'.u == s.h.u
      && h'.names == s.h.names[(Host, host) := h] && h'.ever == s.h.ever + {h}
      && forall y :: y in s.h.nodes ==> IsKind(h'.nodes, y, s.h.nodes[y].kind)
  {
    HostLookupTree(s.h, host, h);
    NewHostPlaced(s.h, host);
  }

  lemma LiesBelowTop(s: Sys, h: XNode, v: XNode)
    requires Inv(s) && IsKind(s.h.nodes, h, Host) && v in s.h.nodes
    ensures LiesBelow(s.h.nodes, s.h.u, 3, v, 0, (h, v))
  {
    HostChain(s.h, h);
    var n := s.h.nodes;
    UpThree(n, h, n[h].parent, n[n[h].parent].parent, s.h.u);
    assert Up(n, v, 0) == v;
  }

  lemma HostKept(h: Hier, c: XNode, host: string, job: string, owner: string, nj: XNode, nh: XNode, junk: bool)
    requires Tree(h) && IsKind(h.nodes, c, Clus) && SpareLine(h, host, job, nj, nh) && (Host, host) in h.names
    ensures var h' := ClusMessage(h, c, host, job, owner, nj, nh, junk);
      (Host, host) in h'.names && h'.names[(Host, host)] == h.names[(Host, host)]
  {
    var (h1, j) := Lookup(h, nj, NewNode(Job, job, c, owner, junk));
    LineNodesTree(h, c, host, job, owner, nj, nh, junk);
    LookupNamed(h, nj, NewNode(Job, job, c, owner, junk));
    LookupNamed(h1, nh, NewNode(Host, host, j, "", false));
  }

  lemma OneStep(s: Sys, e: Step, es: seq<Step>)
    requires Inv(s) && Enabled(s, e) && Inv(Next(s, e)) && Legal(Next(s, e), es)
    ensures Legal(s, [e] + es) && After(s, [e] + es) == After(Next(s, e), es)
  {
    assert ([e] + es)[0] == e && ([e] + es)[1..] == es;
  }

  /** The host moves to a job not seen before. */
  lemma MovesAway(s: Sys, c: XNode, v: XNode, h: XNode, j: XNode, spare: XNode)
    requires Inv(s) && IsKind(s.h.nodes, c, Clus) && (h, v) in s.flows && IsKind(s.h.nodes, h, Host) && v in s.h.nodes
    requires (Host, "host") in s.h.names && s.h.names[(Host, "host")] == h
    requires (Job, "job") !in s.h.names && j !in s.h.ever && j != spare
    ensures var e := ClusLine(c, "host", "job", "owner", j, spare, false);
      && Enabled(s, e) && Inv(Next(s, e))
      && var t := Next(s, e);
      && (h, v) in t.flows && LiesBelow(t.h.nodes, t.h.u, 3, v, 0, (h, v))
      && (h, v) !in Visit(t.h.nodes, t.flows.Keys, t.h.u, 3, v, 0, All)
  {
    var e := ClusLine(c, "host", "job", "owner", j, spare, false);
    StepKeepsInv(s, e);
    ClusMessageGrows(s.h, c, "host", "job", "owner", j, spare, false);
    HostKept(s.h, c, "host", "job", "owner", j, spare, false);
    var t := Next(s, e);
    MovedHostMissed(s, e, t.h.u, 3, v, 0, v);
    assert Kept(s.h.nodes, t.h.nodes, h) && Kept(s.h.nodes, t.h.nodes, v);
    LiesBelowTop(t, h, v);
  }

  lemma InvParts(s: Sys)
    requires Inv(s)
    ensures Tree(s.h) && IdleJobs(s.h.nodes)
  {
  }

  lemma NoStep(s: Sys)
    requires Inv(s)
    ensures Legal(s, []) && After(s, []) == s
  {
  }

  lemma TwoSteps(s: Sys, e1: Step, e2: Step)
    requires Inv(s) && Enabled(s, e1) && Inv(Next(s, e1)) && Enabled(Next(s, e1), e2) && Inv(Next(Next(s, e1), e2))
    ensures Legal(s, [e1, e2]) && After(s, [e1, e2]) == Next(Next(s, e1), e2)
  {
    hide *;
    InvParts(s);
    var s1 := Next(s, e1);
    InvParts(s1);
    var s2 := Next(s1, e2);
    NoStep(s2);
    OneStep(s1, e2, []);
    OneStep(s, e1, [e2] + []);
    assert [e1] + ([e2] + []) == [e1, e2];
  }

  /** A run in which that happens: a report makes a host's pair tracked, and a line moves the host to a job not seen
      before. Then the pair is tracked and lies below (U, server), and the walk from there does not visit it. */
  lemma MovedHostExample(s: Sys, c: XNode, v: XNode, h: XNode, j: XNode, spare: XNode, d: Stats)
    requires Inv(s) && s.now <= 1.0 && IsKind(s.h.nodes, c, Clus) && IsKind(s.h.nodes, v, Serv)
    requires h !in s.h.ever && j !in s.h.ever && h != j && j != spare
    requires (Host, "host") !in s.h.names && (Job, "job") !in s.h.names
    ensures var es := [ServLine(v, "host", Numbers(d), 1.0, h), ClusLine(c, "host", "job", "owner", j, spare, false)];
      && Legal(s, es)
      && var t := After(s, es);
      && (h, v) in t.flows && LiesBelow(t.h.nodes, t.h.u, 3, v, 0, (h, v))
      && (h, v) !in Visit(t.h.nodes, t.flows.Keys, t.h.u, 3, v, 0, All)
  {
    var e1, e2 := ServLine(v, "host", Numbers(d), 1.0, h), ClusLine(c, "host", "job", "owner", j, spare, false);
    hide *;
    InvParts(s);
    HostArrives(s, "host", h);
    KindIs(s.h.nodes, c, Clus);
    KindIs(s.h.nodes, v, Serv);
    HostReports(s, v, h, d);
    var s1 := Next(s, e1);
    InvParts(s1);
    KindIs(s1.h.nodes, v, Serv);
    MovesAway(s1, c, v, h, j, spare);
    TwoSteps(s, e1, e2);
  }

  lemma KindIs(n: Nodes, x: XNode, k: Kind)
    ensures IsKind(n, x, k) <==> x in n && n[x].kind == k
  {
  }

  /** Starting at or above job level and ending at or below it, the owner filter keeps exactly the pairs whose job is
      the owner's. */
  lemma OwnerFilter(n: Nodes, keys: set<Pair>, x0: XNode, d0: nat, x1: XNode, d1: nat, owner: string, k: Pair)
    requires Forest(n) && x0 in n && Which(n[x0].kind) == 0 && Level(n[x0].kind) >= 1
    requires k.0 in n && Level(n[k.0].kind) <= 1
    ensures k in Visit(n, keys, x0, d0, x1, d1, Owner(owner)) <==>
      && k in Visit(n, keys, x0, d0, x1, d1, All)
      && var j := Up(n, k.0, 1 - Level(n[k.0].kind)); j in n && n[j].kind == Job && n[j].owner == owner
  {
    WalkReaches(n, keys, x0, d0, x1, d1, All, k);
    WalkReaches(n, keys, x0, d0, x1, d1, Owner(owner), k);
    if Up(n, k.0, d0) == x0 {
      UpLevels(n, k.0, d0);
      var m := 1 - Level(n[k.0].kind);
      assert Up(n, k.0, m) in n;
      UpLevels(n, k.0, m);
      forall i {:trigger Up(n, k.0, i)} | 0 <= i <= d0 && n[Up(n, k.0, i)].kind == Job ensures i == m {
        UpLevels(n, k.0, i);
      }
    }
  }

  // ---------- what a query selects, without filters ----------

  /** The pair lies d0 and d1 below (x0, x1), every pair on the way is tracked, and with an owner given every job on the
      way is the owner's. */
  ghost predicate Selected(n: Nodes, keys: set<Pair>, x0: XNode, d0: nat, x1: XNode, d1: nat, owner: Option<string>,
                           k: Pair) {
    && Up(n, k.0, d0) == x0 && Up(n, k.1, d1) == x1
    && (forall i {:trigger Up(n, k.0, i)} :: 0 <= i <= d0 ==> Up(n, k.0, i) in n && (Up(n, k.0, i), x1) in keys)
    && (forall i {:trigger Up(n, k.1, i)} :: 0 <= i <= d1 ==> Up(n, k.1, i) in n && (k.0, Up(n, k.1, i)) in keys)
    && (owner.Some? ==>
          forall i {:trigger Up(n, k.0, i)} :: 0 <= i <= d0 && n[Up(n, k.0, i)].kind == Job ==>
            n[Up(n, k.0, i)].owner == owner.value)
  }

  lemma SelectedByFilter(n: Nodes, keys: set<Pair>, x0: XNode, d0: nat, x1: XNode, d1: nat, owner: Option<string>,
                         f: Filter, k: Pair)
    requires Forest(n) && (owner == None ==> f == All) && (owner.Some? ==> f == Owner(owner.value))
    ensures k in Visit(n, keys, x0, d0, x1, d1, f) <==> Selected(n, keys, x0, d0, x1, d1, owner, k)
  {
    WalkReaches(n, keys, x0, d0, x1, d1, f, k);
    hide Visit, Forest;
  }

  /** From job level or above to job level or below there is one job on the way: the job of the consumer found. */
  lemma SelectedJobs(n: Nodes, keys: set<Pair>, x0: XNode, d0: nat, x1: XNode, d1: nat, owner: string, k: Pair)
    requires Forest(n) && x0 in n && Which(n[x0].kind) == 0 && Level(n[x0].kind) >= 1
    requires k.0 in n && Level(n[k.0].kind) <= 1
    ensures Selected(n, keys, x0, d0, x1, d1, Some(owner), k) <==>
      && Selected(n, keys, x0, d0, x1, d1, None, k)
      && var j := if n[k.0].kind == Job then k.0 else n[k.0].parent; j in n && n[j].kind == Job && n[j].owner == owner
  {
    OwnerFilter(n, keys, x0, d0, x1, d1, owner, k);
    SelectedByFilter(n, keys, x0, d0, x1, d1, Some(owner), Owner(owner), k);
    SelectedByFilter(n, keys, x0, d0, x1, d1, None, All, k);
    assert Up(n, k.0, 0) == k.0 && Up(n, k.0, 1) == n[k.0].parent;
    if k in Visit(n, keys, x0, d0, x1, d1, All) {
      UpLevels(n, k.0, d0);
    }
    hide Visit, Forest, Selected;
  }

  /** ps are the pairs selected, each once. */
  ghost predicate AreSelected(n: Nodes, keys: set<Pair>, x0: XNode, d0: nat, x1: XNode, d1: nat,
                              owner: Option<string>, ps: seq<Pair>) {
    && NoDups(ps)
    && (forall k :: k in ps ==> Selected(n, keys, x0, d0, x1, d1, owner, k))
    && forall a, b :: a in n && b in n && Selected(n, keys, x0, d0, x1, d1, owner, (a, b)) ==> (a, b) in ps
  }

  lemma VisitSelects(n: Nodes, keys: set<Pair>, x0: XNode, d0: nat, x1: XNode, d1: nat, owner: Option<string>,
                     f: Filter)
    requires Forest(n) && (owner == None ==> f == All) && (owner.Some? ==> f == Owner(owner.value))
    ensures AreSelected(n, keys, x0, d0, x1, d1, owner, Visit(n, keys, x0, d0, x1, d1, f))
  {
    VisitDistinct(n, keys, x0, d0, x1, d1, f);
    var ps := Visit(n, keys, x0, d0, x1, d1, f);
    forall k | k in ps ensures Selected(n, keys, x0, d0, x1, d1, owner, k) {
      SelectedByFilter(n, keys, x0, d0, x1, d1, owner, f, k);
    }
    forall a, b | a in n && b in n && Selected(n, keys, x0, d0, x1, d1, owner, (a, b)) ensures (a, b) in ps {
      SelectedByFilter(n, keys, x0, d0, x1, d1, owner, f, (a, b));
    }
    hide Visit, Selected, Forest;
  }
}
