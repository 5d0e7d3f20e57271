/** The top query of xltop-master (k_heap_top in src/k_heap.c, top_query_cb in src/top.c): a walk of the trees freshens
    the pairs it ends at and offers them to the heap. */
module Tops {
  import opened Basics
  import opened Ewma
  import opened XNodes
  import opened Hierarchy
  import opened FlowTable
  import Machine
  import opened Ordering
  import opened Heaps
  import opened Walks
  import opened Masters

  type Table = map<Pair, KNode>

  ghost predicate Tracked(t: Table, f: map<Pair, Flow>, ps: seq<Pair>) {
    f.Keys == t.Keys && forall i :: 0 <= i < |ps| ==> ps[i] in t
  }

  /** The candidates a walk offers: the nodes of `ps`, freshened. */
  ghost function Candidates(p: Params, t: Table, f: map<Pair, Flow>, ps: seq<Pair>, now: real): seq<Item>
    requires Tracked(t, f, ps)
  {
    seq(|ps|, i requires 0 <= i < |ps| => Item(t[ps[i]], Freshen(p, f[ps[i]], now)))
  }

  /** The flows once the pairs of `ps` are freshened. */
  ghost function Freshened(p: Params, f: map<Pair, Flow>, ps: seq<Pair>, now: real): map<Pair, Flow> {
    map k | k in f :: if k in ps then Freshen(p, f[k], now) else f[k]
  }

  lemma CandidatesExtend(p: Params, t: Table, f: map<Pair, Flow>, ps: seq<Pair>, k: Pair, now: real)
    requires Tracked(t, f, ps) && k in t
    ensures Tracked(t, f, ps + [k])
    ensures Candidates(p, t, f, ps + [k], now) == Candidates(p, t, f, ps, now) + [Item(t[k], Freshen(p, f[k], now))]
  {
  }

  lemma FreshenedExtend(p: Params, f: map<Pair, Flow>, ps: seq<Pair>, k: Pair, now: real)
    requires k in f && k !in ps
    ensures Freshened(p, f, ps, now)[k] == f[k]
    ensures Freshened(p, f, ps + [k], now) == Freshened(p, f, ps, now)[k := Freshen(p, f[k], now)]
  {
  }

  /** The kept items' nodes are nodes of visited pairs. */
  lemma KeptVisited(spec: Spec, limit: nat, items: seq<Item>, p: Params, t: Table, f: map<Pair, Flow>, ps: seq<Pair>,
                    now: real, k: Pair)
    requires Tracked(t, f, ps) && TopOf(spec, limit, items, Candidates(p, t, f, ps, now))
    requires k in t && k !in ps && forall q, r :: q in t && r in t && t[q] == t[r] ==> q == r
    ensures forall i :: 0 <= i < |items| ==> items[i].node != t[k]
  {
    var cands := Candidates(p, t, f, ps, now);
    forall i | 0 <= i < |items| ensures items[i].node != t[k] {
      assert items[i] in multiset(items);
      assert items[i] in multiset(cands);
      var j :| 0 <= j < |cands| && cands[j] == items[i];
      assert ps[j] in ps;
    }
  }

  lemma {:induction false} Prefix0(n: Nodes, keys: set<Pair>, cs: seq<XNode>, i: nat, d0: nat, x1: XNode, d1: nat,
                                   g: Filter)
    requires i <= |cs|
    ensures Visit0(n, keys, cs[..i], d0, x1, d1, g) <= Visit0(n, keys, cs, d0, x1, d1, g)
    decreases |cs|
  {
    if i < |cs| {
      Prefix0(n, keys, cs[..|cs| - 1], i, d0, x1, d1, g);
      assert cs[..|cs| - 1][..i] == cs[..i];
    } else {
      assert cs[..i] == cs;
    }
  }

  lemma {:induction false} Prefix1(n: Nodes, keys: set<Pair>, x0: XNode, cs: seq<XNode>, i: nat, d1: nat, g: Filter)
    requires i <= |cs|
    ensures Visit1(n, keys, x0, cs[..i], d1, g) <= Visit1(n, keys, x0, cs, d1, g)
    decreases |cs|
  {
    if i < |cs| {
      Prefix1(n, keys, x0, cs[..|cs| - 1], i, d1, g);
      assert cs[..|cs| - 1][..i] == cs[..i];
    } else {
      assert cs[..i] == cs;
    }
  }

  lemma DistinctPrefix(ps: seq<Pair>, v: seq<Pair>, w: seq<Pair>)
    requires v <= w && NoDups(ps + w)
    ensures NoDups(ps + v)
  {
    assert ps + v <= ps + w;
  }

  lemma Assoc(a: seq<Pair>, b: seq<Pair>, c: seq<Pair>)
    ensures a + b + c == a + (b + c)
  {
  }

  lemma Next0(n: Nodes, keys: set<Pair>, cs: seq<XNode>, i: nat, d0: nat, x1: XNode, d1: nat, g: Filter, ps: seq<Pair>)
    requires i < |cs| && NoDups(ps + Visit0(n, keys, cs, d0, x1, d1, g))
    ensures var seen, v := ps + Visit0(n, keys, cs[..i], d0, x1, d1, g), Visit(n, keys, cs[i], d0, x1, d1, g);
      NoDups(seen + v) && seen + v == ps + Visit0(n, keys, cs[..i + 1], d0, x1, d1, g)
  {
    hide NoDups;
    assert cs[..i + 1][..i] == cs[..i];
    Assoc(ps, Visit0(n, keys, cs[..i], d0, x1, d1, g), Visit(n, keys, cs[i], d0, x1, d1, g));
    Prefix0(n, keys, cs, i + 1, d0, x1, d1, g);
    DistinctPrefix(ps, Visit0(n, keys, cs[..i + 1], d0, x1, d1, g), Visit0(n, keys, cs, d0, x1, d1, g));
  }

  lemma Next1(n: Nodes, keys: set<Pair>, x0: XNode, cs: seq<XNode>, i: nat, d1: nat, g: Filter, ps: seq<Pair>)
    requires i < |cs| && NoDups(ps + Visit1(n, keys, x0, cs, d1, g))
    ensures var seen, v := ps + Visit1(n, keys, x0, cs[..i], d1, g), Visit(n, keys, x0, 0, cs[i], d1, g);
      NoDups(seen + v) && seen + v == ps + Visit1(n, keys, x0, cs[..i + 1], d1, g)
  {
    hide NoDups;
    assert cs[..i + 1][..i] == cs[..i];
    Assoc(ps, Visit1(n, keys, x0, cs[..i], d1, g), Visit(n, keys, x0, 0, cs[i], d1, g));
    Prefix1(n, keys, x0, cs, i + 1, d1, g);
    DistinctPrefix(ps, Visit1(n, keys, x0, cs[..i + 1], d1, g), Visit1(n, keys, x0, cs, d1, g));
  }

  lemma LastIsNew(ps: seq<Pair>, q: Pair)
    requires NoDups(ps + [q])
    ensures q !in ps
  {
    forall i | 0 <= i < |ps| ensures ps[i] != q {
      assert (ps + [q])[i] != (ps + [q])[|ps|];
    }
  }

  // ---------- what a top query answers ----------

  const TOP_LIMIT_MAX: nat := 4096

  function Limit(limit: nat): (r: nat)
    ensures 1 <= r <= 4096 && (1 <= limit <= 4096 ==> r == limit) && (limit == 0 || limit > 4096 ==> r == 4096)
  {
    if limit == 0 then TOP_LIMIT_MAX else if limit < TOP_LIMIT_MAX then limit else TOP_LIMIT_MAX
  }

  /** `out` lists the greatest `limit` of the pairs `ps`, each once, greatest first; `f` are the flows shown. */
  ghost predicate Answers(spec: Spec, limit: nat, f: map<Pair, Flow>, ps: seq<Pair>, out: seq<Pair>) {
    && (forall i :: 0 <= i < |ps| ==> ps[i] in f)
    && |out| == (if |ps| <= limit then |ps| else limit)
    && (forall i :: 0 <= i < |out| ==> out[i] in ps)
    && NoDups(out)
    && (forall i, j :: 0 <= i < j < |out| ==> Cmp(spec, f[out[j]], f[out[i]]) <= 0)
    && (forall k, e :: k in ps && k !in out && e in out ==> Cmp(spec, f[k], f[e]) <= 0)
  }

  lemma {:induction false} DistinctCounts(cands: seq<Item>, x: Item)
    requires forall i, j :: 0 <= i < j < |cands| ==> cands[i] != cands[j]
    ensures multiset(cands)[x] <= 1
  {
    if cands != [] {
      var n := |cands| - 1;
      DistinctCounts(cands[..n], x);
      assert cands == cands[..n] + [cands[n]];
      if cands[n] == x {
        assert x !in cands[..n];
      }
    }
  }

  lemma TwiceCounts(v: seq<Item>, i: nat, j: nat)
    requires i < j < |v| && v[i] == v[j]
    ensures multiset(v)[v[i]] >= 2
  {
    assert v == v[..j] + [v[j]] + v[j + 1..];
    assert v[i] in v[..j];
  }

  /** The pairs of the kept nodes. */
  ghost function PairsOf(items: seq<Item>): (out: seq<Pair>)
    ensures |out| == |items| && forall i :: 0 <= i < |out| ==> out[i] == (items[i].node.x0, items[i].node.x1)
  {
    seq(|items|, i requires 0 <= i < |items| => (items[i].node.x0, items[i].node.x1))
  }

  ghost predicate KeyedBy(t: Table) {
    forall k :: k in t ==> t[k].x0 == k.0 && t[k].x1 == k.1
  }

  lemma KeptIsCandidate(p: Params, t: Table, f: map<Pair, Flow>, ps: seq<Pair>, now: real, items: seq<Item>, i: nat)
    requires Tracked(t, f, ps) && KeyedBy(t) && multiset(items) <= multiset(Candidates(p, t, f, ps, now)) && i < |items|
    ensures var k := (items[i].node.x0, items[i].node.x1);
      k in ps && t[k] == items[i].node && items[i].key == Freshen(p, f[k], now)
  {
    var cands := Candidates(p, t, f, ps, now);
    assert items[i] in multiset(items);
    assert items[i] in multiset(cands);
    var j :| 0 <= j < |cands| && cands[j] == items[i];
    assert ps[j] in t && ps[j] in ps;
  }

  lemma KeptDistinct(p: Params, t: Table, f: map<Pair, Flow>, ps: seq<Pair>, now: real, items: seq<Item>)
    requires Tracked(t, f, ps) && KeyedBy(t) && NoDups(ps) && multiset(items) <= multiset(Candidates(p, t, f, ps, now))
    ensures NoDups(PairsOf(items))
  {
    var cands := Candidates(p, t, f, ps, now);
    forall i, j | 0 <= i < j < |items| ensures PairsOf(items)[i] != PairsOf(items)[j] {
      KeptIsCandidate(p, t, f, ps, now, items, i);
      KeptIsCandidate(p, t, f, ps, now, items, j);
      if PairsOf(items)[i] == PairsOf(items)[j] {
        assert items[i] == items[j];
        TwiceCounts(items, i, j);
        forall a, b | 0 <= a < b < |cands| ensures cands[a] != cands[b] {
          assert ps[a] != ps[b];
        }
        DistinctCounts(cands, items[i]);
      }
    }
  }

  lemma DroppedIsLess(spec: Spec, limit: nat, p: Params, t: Table, f: map<Pair, Flow>, ps: seq<Pair>, now: real,
                      items: seq<Item>, k: Pair, i: nat)
    requires Tracked(t, f, ps) && KeyedBy(t) && TopOf(spec, limit, items, Candidates(p, t, f, ps, now))
    requires k in ps && k !in PairsOf(items) && i < |items|
    ensures Cmp(spec, Freshen(p, f[k], now), items[i].key) <= 0
  {
    var cands := Candidates(p, t, f, ps, now);
    var j :| 0 <= j < |ps| && ps[j] == k;
    var c := cands[j];
    assert c in multiset(cands);
    forall l | 0 <= l < |items| ensures items[l] != c {
      assert PairsOf(items)[l] in PairsOf(items);
    }
    assert c in multiset(cands) - multiset(items);
    assert Le(spec, c, items[i]);
  }

  /** A sorted heap of the greatest candidates answers the query. */
  lemma SortedHeapAnswers(spec: Spec, limit: nat, p: Params, t: Table, f: map<Pair, Flow>, ps: seq<Pair>, now: real,
                          items: seq<Item>)
    requires Tracked(t, f, ps) && KeyedBy(t) && NoDups(ps)
    requires TopOf(spec, limit, items, Candidates(p, t, f, ps, now)) && NonIncreasing(spec, items)
    ensures Answers(spec, limit, Freshened(p, f, ps, now), ps, PairsOf(items))
  {
    var out, g := PairsOf(items), Freshened(p, f, ps, now);
    KeptDistinct(p, t, f, ps, now, items);
    forall i | 0 <= i < |items| ensures out[i] in ps && g[out[i]] == items[i].key {
      KeptIsCandidate(p, t, f, ps, now, items, i);
    }
    forall i, j | 0 <= i < j < |out| ensures Cmp(spec, g[out[j]], g[out[i]]) <= 0 {
      assert Le(spec, items[j], items[i]);
    }
    forall k, e | k in ps && k !in out && e in out ensures Cmp(spec, g[k], g[e]) <= 0 {
      var i :| 0 <= i < |out| && out[i] == e;
      DroppedIsLess(spec, limit, p, t, f, ps, now, items, k, i);
    }
  }

  /** The pairs the nodes of an answer belong to. */
  function NamesOf(out: seq<KNode>): seq<Pair> {
    seq(|out|, i requires 0 <= i < |out| => (out[i].x0, out[i].x1))
  }

  ghost predicate InTable(t: Table, out: seq<KNode>) {
    forall i :: 0 <= i < |out| ==> (out[i].x0, out[i].x1) in t && t[(out[i].x0, out[i].x1)] == out[i]
  }

  lemma ListAnswers(spec: Spec, limit: nat, p: Params, t: Table, f: map<Pair, Flow>, ps: seq<Pair>, now: real,
                    heap: seq<Item>, items: seq<Item>, out: seq<KNode>)
    requires Tracked(t, f, ps) && KeyedBy(t) && NoDups(ps)
    requires TopOf(spec, limit, heap, Candidates(p, t, f, ps, now)) && multiset(items) == multiset(heap)
    requires NonIncreasing(spec, items)
    requires |out| == |items| && forall i :: 0 <= i < |out| ==> out[i] == items[i].node
    ensures InTable(t, out) && Answers(spec, limit, Freshened(p, f, ps, now), ps, NamesOf(out))
  {
    TopOfReorder(spec, limit, heap, items, Candidates(p, t, f, ps, now));
    SortedHeapAnswers(spec, limit, p, t, f, ps, now, items);
    assert NamesOf(out) == PairsOf(items);
    forall i | 0 <= i < |out| ensures (out[i].x0, out[i].x1) in t && t[(out[i].x0, out[i].x1)] == out[i] {
      KeptIsCandidate(p, t, f, ps, now, items, i);
    }
  }

  ghost predicate AllKnown(t: Table, n: Nodes) {
    forall k :: k in t ==> k.0 in n && k.1 in n
  }

  lemma Starting(m: Master)
    requires m.Valid()
    ensures m.Keyed() && Forest(m.Nodes()) && AllKnown(m.table, m.Nodes()) && m.Flows().Keys == m.table.Keys
  {
    m.Parts();
    assert m.Flows().Keys == m.table.Keys;
  }

  /** The walk and the heap it feeds. */
  class Query {
    const m: Master
    const h: KHeap
    const spec: Spec
    const now: real

    // What the query found when it began: the hierarchy, the table, the flows.
    ghost const n: Nodes
    ghost const t: Table
    ghost const f: map<Pair, Flow>

    constructor (m: Master, limit: nat, spec: Spec, now: real)
      requires m.Valid()
      ensures this.m == m && fresh(h) && fresh(h.k) && h.limit == limit && this.spec == spec && this.now == now
      ensures n == m.Nodes() && t == m.table && f == m.Flows() && During([])
    {
      hide *;
      Starting(m);
      this.m, this.spec, this.now := m, spec, now;
      n, t, f := m.Nodes(), m.table, m.Flows();
      h := new KHeap(limit);
      new;
      KnownWithin();
      Begins();
    }

    /** After the pairs `ps`: they are freshened, and the heap holds the greatest of them. */
    ghost predicate During(ps: seq<Pair>)
      reads *
    {
      && m.Keyed() && Forest(n) && m.table == t && Tracked(t, f, ps) && Shown() && Within()
      && m.Flows() == Freshened(m.p, f, ps, now)
      && h.Valid() && h.Current() && IsHeap(spec, h.items, h.count)
      && TopOf(spec, h.limit, h.items, Candidates(m.p, t, f, ps, now))
    }

    /** Tracked pairs are pairs of known nodes. */
    ghost predicate Within() {
      AllKnown(t, n)
    }

    /** The objects show what the walk reads of `n`. */
    ghost predicate Shown()
      reads n.Keys`children, n.Keys`owner
    {
      forall y {:trigger n[y]} :: y in n ==> y.children == n[y].children && y.owner == n[y].owner && y.kind == n[y].kind
    }

    lemma KnownWithin()
      requires AllKnown(t, n)
      ensures Within()
    {
    }

    lemma Begins()
      requires m.Keyed() && Forest(n) && n == m.Nodes() && t == m.table && f == m.Flows() && f.Keys == t.Keys
      requires Within()
      requires h.Valid() && h.items == [] && h.Current()
      ensures During([])
    {
      m.Parts();
      assert m.Flows() == Freshened(m.p, f, [], now);
    }

    lemma Offering(ps: seq<Pair>, q: Pair)
      requires During(ps) && q in t && q !in ps
      ensures h.Valid() && h.Current() && IsHeap(spec, h.items, h.count) && Tracked(t, f, ps) && t[q] in m.pool
      ensures TopOf(spec, h.limit, h.items, Candidates(m.p, t, f, ps, now))
      ensures forall i :: 0 <= i < |h.items| ==> h.items[i].node != t[q]
      ensures t[q].flow == f[q] && q == (t[q].x0, t[q].x1) && m.Keyed() && m.table == t && Forest(n) && Shown()
      ensures Within()
      ensures m.Flows() == Freshened(m.p, f, ps, now)
    {
      KeptVisited(spec, h.limit, h.items, m.p, t, f, ps, now, q);
      FreshenedExtend(m.p, f, ps, q, now);
      m.KeyedAt(q);
    }

    lemma Offered(ps: seq<Pair>, q: Pair)
      requires m.Keyed() && Forest(n) && m.table == t && Tracked(t, f, ps) && Shown() && Within() && q in t && q !in ps
      requires h.Valid() && h.Current() && IsHeap(spec, h.items, h.count)
      requires TopOf(spec, h.limit, h.items, Candidates(m.p, t, f, ps, now) + [Item(t[q], t[q].flow)])
      requires t[q].flow == Freshen(m.p, f[q], now) && m.Flows() == Freshened(m.p, f, ps, now)[q := t[q].flow]
      ensures During(ps + [q])
    {
      CandidatesExtend(m.p, t, f, ps, q, now);
      FreshenedExtend(m.p, f, ps, q, now);
    }

    /** The end of a walk branch: freshen the node and offer it to the heap. */
    method Offer(k: KNode, ghost ps: seq<Pair>, ghost q: Pair)
      requires During(ps) && q in t && t[q] == k && q !in ps
      modifies m.pool`flow, h, h.k
      ensures During(ps + [q])
    {
      hide *;
      Offering(ps, q);
      m.KFreshen(k, now);
      h.Add(spec, k, Candidates(m.p, t, f, ps, now));
      Offered(ps, q);
    }

    lemma ShownAt(ps: seq<Pair>, x: XNode)
      requires During(ps) && x in n
      ensures x.children == n[x].children
    {
    }

    lemma TrackedIn(ps: seq<Pair>, q: Pair)
      requires During(ps)
      ensures m.table == t
      ensures q in t ==> q.0 in n && q.1 in n && t[q].x0 == q.0 && q.0.owner == n[q.0].owner && q.0.kind == n[q.0].kind
    {
      if q in t {
        m.KeyedAt(q);
      }
    }

    /** k_heap_filt_owner */
    method FiltOwner(k: KNode, owner: string) returns (c: int)
      ensures c == if k.x0.kind != Job then 0 else if k.x0.owner == owner then 1 else -1
    {
      var x := k.x0;
      if x.kind == Job {
        return if x.owner == owner then 1 else -1;
      }
      return 0;
    }

    /** k_heap_top */
    method Walk(x0: XNode, d0: nat, x1: XNode, d1: nat, filter: Filter, ghost ps: seq<Pair>)
      requires During(ps) && NoDups(ps + Visit(n, t.Keys, x0, d0, x1, d1, filter))
      modifies m.pool`flow, h, h.k
      ensures During(ps + Visit(n, t.Keys, x0, d0, x1, d1, filter))
      decreases d0 + d1, 0
    {
      assert ps + [] == ps;
      TrackedIn(ps, (x0, x1));
      hide During, NoDups;
      var k := m.KFind(x0, x1);
      if k == null {
        return;
      }
      var g := filter;
      if filter.Owner? {
        var c := FiltOwner(k, filter.name);
        if c < 0 {
          return;
        } else if c > 0 {
          g := All;
        }
      }
      if d0 > 0 {
        Walk0(x0, d0, x1, d1, g, ps);
      } else if d1 > 0 {
        Walk1(x0, x1, d1, g, ps);
      } else {
        LastIsNew(ps, (x0, x1));
        Offer(k, ps, (x0, x1));
      }
    }

    /** The loop over the children of x0. */
    method Walk0(x0: XNode, d0: nat, x1: XNode, d1: nat, g: Filter, ghost ps: seq<Pair>)
      requires d0 > 0 && During(ps) && x0 in n && NoDups(ps + Visit0(n, t.Keys, n[x0].children, d0 - 1, x1, d1, g))
      modifies m.pool`flow, h, h.k
      ensures During(ps + Visit0(n, t.Keys, n[x0].children, d0 - 1, x1, d1, g))
      decreases d0 + d1 - 1, 1
    {
      hide During, NoDups;
      ghost var cs := n[x0].children;
      assert ps + [] == ps;
      ShownAt(ps, x0);
      for i := 0 to |x0.children|
        invariant During(ps + Visit0(n, t.Keys, cs[..i], d0 - 1, x1, d1, g))
      {
        var c := x0.children[i];
        ghost var seen := ps + Visit0(n, t.Keys, cs[..i], d0 - 1, x1, d1, g);
        Next0(n, t.Keys, cs, i, d0 - 1, x1, d1, g, ps);
        Walk(c, d0 - 1, x1, d1, g, seen);
      }
      assert cs[..|cs|] == cs;
    }

    /** The loop over the children of x1. */
    method Walk1(x0: XNode, x1: XNode, d1: nat, g: Filter, ghost ps: seq<Pair>)
      requires d1 > 0 && During(ps) && x1 in n && NoDups(ps + Visit1(n, t.Keys, x0, n[x1].children, d1 - 1, g))
      modifies m.pool`flow, h, h.k
      ensures During(ps + Visit1(n, t.Keys, x0, n[x1].children, d1 - 1, g))
      decreases d1 - 1, 1
    {
      hide During, NoDups;
      ghost var cs := n[x1].children;
      assert ps + [] == ps;
      ShownAt(ps, x1);
      for i := 0 to |x1.children|
        invariant During(ps + Visit1(n, t.Keys, x0, cs[..i], d1 - 1, g))
      {
        var c := x1.children[i];
        ghost var seen := ps + Visit1(n, t.Keys, x0, cs[..i], d1 - 1, g);
        Next1(n, t.Keys, x0, cs, i, d1 - 1, g, ps);
        Walk(x0, 0, c, d1 - 1, g, seen);
      }
      assert cs[..|cs|] == cs;
    }

    lemma KeyedTable()
      requires m.Keyed() && m.table == t
      ensures KeyedBy(t)
    {
      forall k | k in t ensures t[k].x0 == k.0 && t[k].x1 == k.1 {
        m.KeyedAt(k);
      }
    }

    /** What sorting starts from. */
    lemma Walked(ps: seq<Pair>)
      requires During(ps)
      ensures h.Valid() && h.Current() && IsHeap(spec, h.items, h.count) && m.table == t && m.Keyed() && KeyedBy(t)
      ensures Tracked(t, f, ps) && TopOf(spec, h.limit, h.items, Candidates(m.p, t, f, ps, now))
      ensures m.Flows() == Freshened(m.p, f, ps, now) && Forest(n)
    {
      KeyedTable();
    }

    /** The loop that prints the answer. */
    method List() returns (out: seq<KNode>)
      requires h.Valid()
      ensures |out| == |h.items| && forall i :: 0 <= i < |out| ==> out[i] == h.items[i].node
    {
      out := [];
      for i := 0 to h.count
        invariant |out| == i && forall j :: 0 <= j < i ==> out[j] == h.items[j].node
      {
        out := out + [h.k[i]];
      }
    }

    /** The heap after the walk, sorted and listed. */
    method Answer(ghost ps: seq<Pair>) returns (out: seq<KNode>)
      requires During(ps) && NoDups(ps)
      modifies h, h.k
      ensures m.table == t && m.Keyed() && m.Flows() == Freshened(m.p, f, ps, now)
      ensures InTable(t, out) && Answers(spec, h.limit, m.Flows(), ps, NamesOf(out))
    {
      hide *;
      Walked(ps);
      ghost var heap := h.items;
      h.Order(spec);
      out := List();
      ListAnswers(spec, h.limit, m.p, t, f, ps, now, heap, h.items, out);
    }

    /** The whole query: walk, sort, list. */
    method Run(x0: XNode, d0: nat, x1: XNode, d1: nat, filter: Filter) returns (out: seq<KNode>, ghost ps: seq<Pair>)
      requires During([])
      modifies m.pool`flow, h, h.k
      ensures ps == Visit(n, t.Keys, x0, d0, x1, d1, filter)
      ensures m.table == t && m.Keyed() && m.Flows() == Freshened(m.p, f, ps, now)
      ensures InTable(t, out) && Answers(spec, h.limit, m.Flows(), ps, NamesOf(out))
    {
      hide *;
      ps := Visit(n, t.Keys, x0, d0, x1, d1, filter);
      Walked([]);
      VisitDistinct(n, t.Keys, x0, d0, x1, d1, filter);
      assert [] + ps == ps;
      Walk(x0, d0, x1, d1, filter, []);
      out := Answer(ps);
    }
  }

  datatype Status = OK | NotFound

  ghost function SetOf(ps: seq<Pair>): set<Pair> {
    set k | k in ps
  }

  lemma FreshenedIsTouch(s: Sys, ps: seq<Pair>, at: real)
    ensures Touch(s, SetOf(ps), at) == s.(flows := Freshened(s.p, s.flows, ps, at), now := at)
  {
    assert Touch(s, SetOf(ps), at).flows == Freshened(s.p, s.flows, ps, at);
  }

  lemma NoAnswer(spec: Spec, limit: nat, p: Params, t: Table, f: map<Pair, Flow>, at: real)
    ensures Answers(spec, limit, f, [], NamesOf([])) && Freshened(p, f, [], at) == f && InTable(t, [])
  {
    assert Freshened(p, f, [], at) == f;
  }

  ghost method QueryEnds(m: Master, s: Sys, ps: seq<Pair>, at: real)
    requires Inv(s) && 0.0 < at && s.now <= at && m.Keyed()
    requires m.S() == s.(flows := Freshened(s.p, s.flows, ps, at))
    modifies m`now
    ensures m.Stepped(s, Machine.Query(SetOf(ps), at)) && m.Flows() == old(m.Flows())
  {
    FreshenedIsTouch(s, ps, at);
    m.Elapse(at);
    m.Arrive(s, Machine.Query(SetOf(ps), at));
  }

  /** The query itself: only flows change, and no matter what the walk freshens, the rest of the state is as before. */
  method Ask(m: Master, x0: XNode, x1: XNode, d0: nat, d1: nat, limit: nat, spec: Spec, filter: Filter, at: real)
    returns (out: seq<KNode>, ghost ps: seq<Pair>)
    requires m.Valid()
    modifies m.pool`flow
    ensures ps == Visit(old(m.Nodes()), m.table.Keys, x0, d0, x1, d1, filter)
    ensures InTable(m.table, out) && Answers(spec, limit, m.Flows(), ps, NamesOf(out))
    ensures m.H() == old(m.H()) && m.Flows() == Freshened(m.p, old(m.Flows()), ps, at) && m.Keyed()
  {
    hide *;
    var q := new Query(m, limit, spec, at);
    out, ps := q.Run(x0, d0, x1, d1, filter);
  }

  /** top_query_cb for nodes that exist: the greatest of the pairs the walk reaches, as k_top_cmp orders them now. */
  method TopOfNodes(m: Master, x0: XNode, x1: XNode, d0: nat, d1: nat, limit: nat, spec: Spec, filter: Filter, at: real)
    returns (out: seq<KNode>, ghost ps: seq<Pair>)
    requires m.Valid() && 0.0 < at && m.now <= at
    modifies m.pool`flow, m`now
    ensures ps == Visit(old(m.Nodes()), old(m.table).Keys, x0, d0, x1, d1, filter)
    ensures m.table == old(m.table) && InTable(m.table, out)
    ensures Answers(spec, Limit(limit), m.Flows(), ps, NamesOf(out))
    ensures m.Stepped(old(m.S()), Machine.Query(SetOf(ps), at))
  {
    hide *;
    m.Ready(Host, "");
    m.Parts();
    ghost var s := m.S();
    out, ps := Ask(m, x0, x1, d0, d1, Limit(limit), spec, filter, at);
    m.Parts();
    QueryEnds(m, s, ps, at);
  }

  /** top_query_cb */
  method TopQuery(m: Master, x0: XNode?, x1: XNode?, d0: nat, d1: nat, limit: nat, spec: Spec, filter: Filter, at: real)
    returns (status: Status, out: seq<KNode>, ghost ps: seq<Pair>)
    requires m.Valid() && 0.0 < at && m.now <= at
    modifies m.pool`flow, m`now
    ensures status == NotFound <==> x0 == null || x1 == null
    ensures ps == if x0 == null || x1 == null then []
      else Visit(old(m.Nodes()), old(m.table).Keys, x0, d0, x1, d1, filter)
    ensures m.table == old(m.table) && InTable(m.table, out)
    ensures Answers(spec, Limit(limit), m.Flows(), ps, NamesOf(out))
    ensures m.Stepped(old(m.S()), Machine.Query(SetOf(ps), at))
  {
    hide *;
    if x0 == null || x1 == null {
      status, out, ps := NotFound, [], [];
      m.Ready(Host, "");
      m.Parts();
      NoAnswer(spec, Limit(limit), m.p, m.table, m.Flows(), at);
      QueryEnds(m, m.S(), ps, at);
      return;
    }
    status := OK;
    out, ps := TopOfNodes(m, x0, x1, d0, d1, limit, spec, filter, at);
  }
}
