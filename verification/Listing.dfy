/** A server's own listing (serv_get_r in src/serv.c): every host it has traffic with, freshened. It is the walk of a
    top query from the universe down to the hosts, without a heap. */
module Listings {
  import opened Basics
  import opened Ewma
  import opened XNodes
  import opened Hierarchy
  import opened FlowTable
  import Machine
  import opened Walks
  import opened Masters
  import opened Tops

  /** What serv_get_r lists below x0. */
  function Listed(n: Nodes, keys: set<Pair>, x0: XNode, sx: XNode): seq<Pair> {
    if x0 in n then Visit(n, keys, x0, Level(n[x0].kind), sx, 0, All) else []
  }

  /** In every reachable state the listing shows a host exactly if the host and its present job are both tracked with
      the server: a host that has moved to a job new to the server is left out until it reports again. */
  lemma ListingShows(s: Sys, h: XNode, sx: XNode)
    requires Inv(s) && IsKind(s.h.nodes, h, Host) && IsKind(s.h.nodes, sx, Serv)
    ensures s.h.nodes[h].parent in s.h.nodes
    ensures (h, sx) in Listed(s.h.nodes, s.flows.Keys, s.h.u, sx) <==>
      (h, sx) in s.flows && (s.h.nodes[h].parent, sx) in s.flows
  {
    var n, keys, k := s.h.nodes, s.flows.Keys, (h, sx);
    HostChain(s.h, h);
    var j := n[h].parent;
    UpThree(n, h, j, n[j].parent, s.h.u);
    assert Up(n, sx, 0) == sx && Up(n, h, 0) == h;
    WalkReaches(n, keys, s.h.u, 3, sx, 0, All, k);
    if k in s.flows {
      HostsFound(s, s.h.u, 3, sx, 0, k);
    }
  }

  /** The pairs `ps` are listed and freshened; the objects show the hierarchy as it was at the start. */
  ghost predicate Listing(m: Master, n: Nodes, t: Table, f: map<Pair, Flow>, ps: seq<Pair>, now: real)
    reads *
  {
    && m.Keyed() && Forest(n) && m.table == t && Tracked(t, f, ps) && AllKnown(t, n)
    && m.Flows() == Freshened(m.p, f, ps, now)
    && forall y {:trigger n[y]} :: y in n ==> y.children == n[y].children && y.kind == n[y].kind
  }

  lemma ListingStarts(m: Master)
    requires m.Valid()
    ensures Listing(m, m.Nodes(), m.table, m.Flows(), [], 0.0) && m.u in m.Nodes() && m.u.kind == U
    ensures m.Nodes()[m.u].kind == U
    ensures m.Flows().Keys == m.table.Keys
  {
    m.Parts();
    assert m.Flows() == Freshened(m.p, m.Flows(), [], 0.0);
  }

  lemma ListingNow(m: Master, n: Nodes, t: Table, f: map<Pair, Flow>, now: real)
    requires Listing(m, n, t, f, [], 0.0)
    ensures Listing(m, n, t, f, [], now)
  {
    assert Freshened(m.p, f, [], now) == Freshened(m.p, f, [], 0.0);
  }

  lemma ListingAt(m: Master, n: Nodes, t: Table, f: map<Pair, Flow>, ps: seq<Pair>, now: real, q: Pair)
    requires Listing(m, n, t, f, ps, now)
    ensures m.table == t && m.Keyed()
    ensures q in t ==>
      q.0 in n && q.1 in n && q == (t[q].x0, t[q].x1) && t[q] in m.pool && q.0.children == n[q.0].children
    ensures q in t && q !in ps ==> t[q].flow == f[q]
    ensures q in t ==> forall i :: 0 <= i < |q.0.children| ==>
      q.0.children[i] in n && Level(q.0.children[i].kind) == Level(q.0.kind) - 1 &&
      Which(q.0.children[i].kind) == Which(q.0.kind)
  {
    if q in t {
      m.KeyedAt(q);
      assert Linked(n, q.0);
      forall i | 0 <= i < |q.0.children| ensures
        q.0.children[i] in n && Level(q.0.children[i].kind) == Level(q.0.kind) - 1 &&
        Which(q.0.children[i].kind) == Which(q.0.kind)
      {
        assert Linked(n, q.0.children[i]);
      }
      if q !in ps {
        FreshenedExtend(m.p, f, ps, q, now);
      }
    }
  }

  lemma ListedOne(m: Master, n: Nodes, t: Table, f: map<Pair, Flow>, ps: seq<Pair>, now: real, q: Pair,
                  was: map<Pair, Flow>)
    requires m.Keyed() && Forest(n) && m.table == t && Tracked(t, f, ps) && AllKnown(t, n) && q in t && q !in ps
    requires forall y {:trigger n[y]} :: y in n ==> y.children == n[y].children && y.kind == n[y].kind
    requires was == Freshened(m.p, f, ps, now) && m.Flows() == was[q := Freshen(m.p, f[q], now)]
    ensures Listing(m, n, t, f, ps + [q], now)
  {
    FreshenedExtend(m.p, f, ps, q, now);
    CandidatesExtend(m.p, t, f, ps, q, now);
  }

  lemma ListedUnfolds(n: Nodes, t: Table, x0: XNode, d: nat, sx: XNode)
    ensures InTable(t, []) && NamesOf([]) == []
    ensures (x0, sx) !in t ==> Visit(n, t.Keys, x0, d, sx, 0, All) == []
    ensures (x0, sx) in t && x0 in n && sx in n ==>
      var v := Visit(n, t.Keys, x0, d, sx, 0, All);
      v == if d > 0 then Visit0(n, t.Keys, n[x0].children, d - 1, sx, 0, All) else [(x0, sx)]
    ensures (x0, sx) in t && t[(x0, sx)].x0 == x0 && t[(x0, sx)].x1 == sx ==>
      InTable(t, [t[(x0, sx)]]) && NamesOf([t[(x0, sx)]]) == [(x0, sx)]
  {
  }

  /** serv_get_r: stop at an untracked pair, list a host, and go on below anything else. */
  method ServGetR(m: Master, x0: XNode, sx: XNode, now: real,
                  ghost n: Nodes, ghost t: Table, ghost f: map<Pair, Flow>, ghost ps: seq<Pair>, ghost d: nat)
    returns (out: seq<KNode>)
    requires Listing(m, n, t, f, ps, now) && Which(x0.kind) == 0 && d == Level(x0.kind)
    requires NoDups(ps + Visit(n, t.Keys, x0, d, sx, 0, All))
    modifies m.pool`flow
    ensures Listing(m, n, t, f, ps + Visit(n, t.Keys, x0, d, sx, 0, All), now)
    ensures InTable(t, out) && NamesOf(out) == Visit(n, t.Keys, x0, d, sx, 0, All)
    decreases d, 1
  {
    assert ps + [] == ps;
    ListingAt(m, n, t, f, ps, now, (x0, sx));
    ListedUnfolds(n, t, x0, d, sx);
    hide Listing, NoDups, Visit, Visit0, InTable, NamesOf;
    var k := m.KFind(x0, sx);
    if k == null {
      return [];
    }
    if x0.kind == Host {
      LastIsNew(ps, (x0, sx));
      ListOne(m, k, now, n, t, f, ps, (x0, sx));
      return [k];
    }
    out := ServGetBelow(m, x0, sx, now, n, t, f, ps, d);
  }

  /** Freshen and print one pair. */
  method ListOne(m: Master, k: KNode, now: real,
                 ghost n: Nodes, ghost t: Table, ghost f: map<Pair, Flow>, ghost ps: seq<Pair>, ghost q: Pair)
    requires Listing(m, n, t, f, ps, now) && q in t && t[q] == k && q !in ps
    modifies m.pool`flow
    ensures Listing(m, n, t, f, ps + [q], now)
  {
    ListingAt(m, n, t, f, ps, now, q);
    ghost var was := m.Flows();
    m.KFreshen(k, now);
    ListedOne(m, n, t, f, ps, now, q, was);
  }

  lemma ListNone(n: Nodes, t: Table, d: nat, sx: XNode)
    ensures InTable(t, []) && NamesOf([]) == [] && Visit0(n, t.Keys, [], d, sx, 0, All) == []
  {
  }

  lemma ListMore(n: Nodes, t: Table, out: seq<KNode>, more: seq<KNode>, cs: seq<XNode>, i: nat, d: nat, sx: XNode)
    requires InTable(t, out) && InTable(t, more) && i < |cs|
    requires NamesOf(out) == Visit0(n, t.Keys, cs[..i], d, sx, 0, All)
    requires NamesOf(more) == Visit(n, t.Keys, cs[i], d, sx, 0, All)
    ensures InTable(t, out + more) && NamesOf(out + more) == Visit0(n, t.Keys, cs[..i + 1], d, sx, 0, All)
  {
    assert cs[..i + 1][..i] == cs[..i];
    assert NamesOf(out + more) == NamesOf(out) + NamesOf(more);
    hide Visit;
  }

  /** The loop of serv_get_r. */
  method ServGetBelow(m: Master, x0: XNode, sx: XNode, now: real,
                      ghost n: Nodes, ghost t: Table, ghost f: map<Pair, Flow>, ghost ps: seq<Pair>, ghost d: nat)
    returns (out: seq<KNode>)
    requires Listing(m, n, t, f, ps, now) && (x0, sx) in t && Which(x0.kind) == 0 && d == Level(x0.kind) > 0 && x0 in n
    requires NoDups(ps + Visit0(n, t.Keys, n[x0].children, d - 1, sx, 0, All))
    modifies m.pool`flow
    ensures Listing(m, n, t, f, ps + Visit0(n, t.Keys, n[x0].children, d - 1, sx, 0, All), now)
    ensures InTable(t, out) && NamesOf(out) == Visit0(n, t.Keys, n[x0].children, d - 1, sx, 0, All)
    decreases d, 0
  {
    ghost var cs := n[x0].children;
    assert ps + [] == ps;
    ListingAt(m, n, t, f, ps, now, (x0, sx));
    hide Listing, NoDups, InTable, NamesOf, Visit0, Visit;
    out := [];
    ListNone(n, t, d - 1, sx);
    for i := 0 to |x0.children|
      invariant Listing(m, n, t, f, ps + Visit0(n, t.Keys, cs[..i], d - 1, sx, 0, All), now)
      invariant InTable(t, out) && NamesOf(out) == Visit0(n, t.Keys, cs[..i], d - 1, sx, 0, All)
    {
      var c := x0.children[i];
      ghost var seen := ps + Visit0(n, t.Keys, cs[..i], d - 1, sx, 0, All);
      Next0(n, t.Keys, cs, i, d - 1, sx, 0, All, ps);
      var more := ServGetR(m, c, sx, now, n, t, f, seen, d - 1);
      ListMore(n, t, out, more, cs, i, d - 1, sx);
      out := out + more;
    }
    assert cs[..|cs|] == cs;
  }

  /** serv_get_r from the universe down. */
  method ListAll(m: Master, sx: XNode, at: real, ghost n: Nodes, ghost t: Table, ghost f: map<Pair, Flow>)
    returns (out: seq<KNode>)
    requires Listing(m, n, t, f, [], at) && m.u in n && m.u.kind == U && n[m.u].kind == U
    modifies m.pool`flow
    ensures Listing(m, n, t, f, NamesOf(out), at)
    ensures InTable(t, out) && NamesOf(out) == Listed(n, t.Keys, m.u, sx)
  {
    ghost var ps := Visit(n, t.Keys, m.u, 3, sx, 0, All);
    VisitDistinct(n, t.Keys, m.u, 3, sx, 0, All);
    assert [] + ps == ps;
    hide Listing, NoDups, Visit, Tracked;
    out := ServGetR(m, m.u, sx, at, n, t, f, [], 3);
  }

  lemma ListingEnds(m: Master, s: Sys, n: Nodes, ps: seq<Pair>, at: real)
    requires Listing(m, n, m.table, s.flows, ps, at) && m.p == s.p
    ensures m.Keyed() && m.Flows() == Freshened(s.p, s.flows, ps, at)
    ensures forall k :: k in ps ==> k in s.flows && k in m.Flows() && m.Flows()[k] == Freshen(m.p, s.flows[k], at)
  {
  }

  /** serv_get_cb: one step of the machine, listing each visited pair once. */
  method ServGet(m: Master, sx: XNode, at: real) returns (out: seq<KNode>)
    requires m.Valid() && 0.0 < at && m.now <= at
    modifies m.pool`flow, m`now
    ensures InTable(m.table, out) && m.table == old(m.table)
    ensures NamesOf(out) == Listed(old(m.Nodes()), old(m.table).Keys, m.u, sx)
    ensures m.Stepped(old(m.S()), Machine.Query(SetOf(NamesOf(out)), at))
    ensures forall k :: k in NamesOf(out) ==>
      k in old(m.Flows()) && k in m.Flows() && m.Flows()[k] == Freshen(m.p, old(m.Flows())[k], at)
  {
    hide *;
    m.Ready(Host, "");
    m.Parts();
    ghost var s, n, t, f := m.S(), m.Nodes(), m.table, m.Flows();
    ListingStarts(m);
    ListingNow(m, n, t, f, at);
    out := ListAll(m, sx, at, n, t, f);
    ListingEnds(m, s, n, NamesOf(out), at);
    m.Parts();
    QueryEnds(m, s, NamesOf(out), at);
  }
}
