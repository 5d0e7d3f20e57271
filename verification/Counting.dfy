/** x_update (src/x_node.c) visits pairs one after the other, following parent pointers: the order does not matter, and
    what the loops do in sequence is what FlowTable.Count does at once. */
module Counting {
  import opened Basics
  import opened Ewma
  import opened XNodes
  import opened Hierarchy
  import opened FlowTable

  /** k_update on the pairs `ks` one after the other. */
  function CountAll(p: Params, f: map<Pair, Flow>, ks: seq<Pair>, at: real, d: Stats): map<Pair, Flow> {
    if ks == [] then f
    else
      var g, k := CountAll(p, f, ks[..|ks| - 1], at, d), ks[|ks| - 1];
      g[k := Update(p, Get(g, k), at, d)]
  }

  function Row(a: XNode, c1: seq<XNode>): seq<Pair> {
    if c1 == [] then [] else Row(a, c1[..|c1| - 1]) + [(a, c1[|c1| - 1])]
  }

  /** The pairs x_update visits, in its order. */
  function Grid(c0: seq<XNode>, c1: seq<XNode>): seq<Pair> {
    if c0 == [] then [] else Grid(c0[..|c0| - 1], c1) + Row(c0[|c0| - 1], c1)
  }

  lemma CountOneMore(p: Params, f: map<Pair, Flow>, ks: set<Pair>, k: Pair, at: real, d: Stats)
    requires k !in ks
    ensures Count(p, f, ks + {k}, at, d) ==
      Count(p, f, ks, at, d)[k := Update(p, Get(Count(p, f, ks, at, d), k), at, d)]
  {
    var g, g' := Count(p, f, ks, at, d), Count(p, f, ks + {k}, at, d);
    assert Get(g, k) == Get(f, k);
    assert g'.Keys == g.Keys + {k};
    forall q | q in g' ensures g'[q] == g[k := Update(p, Get(g, k), at, d)][q] {
    }
  }

  /** As long as no pair comes twice, the order of the visits does not matter. */
  lemma {:induction false} CountAllIsCount(p: Params, f: map<Pair, Flow>, ks: seq<Pair>, at: real, d: Stats)
    requires NoDups(ks)
    ensures CountAll(p, f, ks, at, d) == Count(p, f, (set k | k in ks), at, d)
  {
    if ks == [] {
      assert Count(p, f, (set k | k in ks), at, d).Keys == f.Keys;
    } else {
      var n := |ks| - 1;
      CountAllIsCount(p, f, ks[..n], at, d);
      CountOneMore(p, f, (set k | k in ks[..n]), ks[n], at, d);
      assert ks == ks[..n] + [ks[n]];
      assert (set k | k in ks) == (set k | k in ks[..n]) + {ks[n]};
    }
  }

  lemma {:induction false} RowFacts(a: XNode, c1: seq<XNode>)
    ensures |Row(a, c1)| == |c1| && forall i :: 0 <= i < |c1| ==> Row(a, c1)[i] == (a, c1[i])
  {
    if c1 != [] {
      RowFacts(a, c1[..|c1| - 1]);
    }
  }

  ghost predicate Within(g: seq<Pair>, c0: seq<XNode>, c1: seq<XNode>) {
    forall i :: 0 <= i < |g| ==> g[i].0 in c0 && g[i].1 in c1
  }

  lemma {:induction false} GridWithin(c0: seq<XNode>, c1: seq<XNode>)
    ensures Within(Grid(c0, c1), c0, c1)
  {
    if c0 != [] {
      var n := |c0| - 1;
      GridWithin(c0[..n], c1);
      RowFacts(c0[n], c1);
    }
  }

  lemma {:induction false} GridHas(c0: seq<XNode>, c1: seq<XNode>, i: nat, j: nat)
    requires i < |c0| && j < |c1|
    ensures (c0[i], c1[j]) in Grid(c0, c1)
  {
    var n := |c0| - 1;
    RowFacts(c0[n], c1);
    if i < n {
      GridHas(c0[..n], c1, i, j);
    } else {
      assert Row(c0[n], c1)[j] in Row(c0[n], c1);
    }
  }

  lemma {:induction false} GridDistinct(c0: seq<XNode>, c1: seq<XNode>)
    requires NoDups(c0) && NoDups(c1)
    ensures NoDups(Grid(c0, c1))
  {
    if c0 != [] {
      var n := |c0| - 1;
      var g, r := Grid(c0[..n], c1), Row(c0[n], c1);
      GridDistinct(c0[..n], c1);
      RowFacts(c0[n], c1);
      GridWithin(c0[..n], c1);
      assert forall i :: 0 <= i < |g| ==> g[i].0 in c0[..n];
    }
  }

  lemma GridSet(c0: seq<XNode>, c1: seq<XNode>)
    ensures (set k | k in Grid(c0, c1)) == Pairs(c0, c1)
  {
    var g, ps := Grid(c0, c1), Pairs(c0, c1);
    forall k | k in ps ensures k in g {
      var i :| 0 <= i < |c0| && c0[i] == k.0;
      var j :| 0 <= j < |c1| && c1[j] == k.1;
      GridHas(c0, c1, i, j);
    }
    GridWithin(c0, c1);
    forall k | k in g ensures k in ps {
      var i :| 0 <= i < |g| && g[i] == k;
    }
  }

  lemma {:induction false} GridSize(c0: seq<XNode>, c1: seq<XNode>)
    ensures |Grid(c0, c1)| == |c0| * |c1|
  {
    if c0 != [] {
      var n := |c0| - 1;
      GridSize(c0[..n], c1);
      RowFacts(c0[n], c1);
      assert (n + 1) * |c1| == n * |c1| + |c1|;
    }
  }

  lemma {:induction false} DistinctSize(ks: seq<Pair>)
    requires NoDups(ks)
    ensures |set k | k in ks| == |ks|
  {
    if ks != [] {
      var n := |ks| - 1;
      DistinctSize(ks[..n]);
      assert ks == ks[..n] + [ks[n]];
      assert (set k | k in ks) == (set k | k in ks[..n]) + {ks[n]};
    }
  }

  /** A report for a host and a server counts for exactly four times three pairs. */
  lemma ReportCountsTwelve(h: Hier, x0: XNode, x1: XNode)
    requires Tree(h) && IsKind(h.nodes, x0, Host) && IsKind(h.nodes, x1, Serv)
    ensures |Pairs(Chain(h.nodes, x0), Chain(h.nodes, x1))| == 12
  {
    var c0, c1 := Chain(h.nodes, x0), Chain(h.nodes, x1);
    HostChain(h, x0);
    ServChain(h, x1);
    ChainLinks(h.nodes, x0);
    ChainLinks(h.nodes, x1);
    GridDistinct(c0, c1);
    GridSet(c0, c1);
    GridSize(c0, c1);
    DistinctSize(Grid(c0, c1));
  }

  /** x_update's nested loops count every pair of ancestors exactly once. */
  lemma GridCounts(p: Params, f: map<Pair, Flow>, c0: seq<XNode>, c1: seq<XNode>, at: real, d: Stats)
    requires NoDups(c0) && NoDups(c1)
    ensures CountAll(p, f, Grid(c0, c1), at, d) == Count(p, f, Pairs(c0, c1), at, d)
  {
    GridDistinct(c0, c1);
    CountAllIsCount(p, f, Grid(c0, c1), at, d);
    GridSet(c0, c1);
  }

  /** Each node of a chain points to the next, and none comes back. */
  lemma {:induction false} ChainLinks(n: Nodes, x: XNode)
    requires Forest(n) && x in n
    ensures var c := Chain(n, x);
      && |c| > 0 && c[0] == x
      && (forall i :: 0 <= i < |c| ==> c[i] in n && Which(n[c[i]].kind) == Which(n[x].kind))
      && (forall i :: 0 <= i < |c| ==> Level(n[c[i]].kind) == Level(n[x].kind) + i)
      && (forall i :: 0 <= i < |c| - 1 ==> n[c[i]].parent == c[i + 1])
      && n[c[|c| - 1]].parent == null
    decreases 3 - Level(n[x].kind)
  {
    assert Linked(n, x);
    if n[x].parent != null {
      ChainLinks(n, n[x].parent);
    }
  }

  lemma {:induction false} CountAllAppend(p: Params, f: map<Pair, Flow>, ks: seq<Pair>, ks': seq<Pair>, at: real,
                                          d: Stats)
    ensures CountAll(p, CountAll(p, f, ks, at, d), ks', at, d) == CountAll(p, f, ks + ks', at, d)
  {
    if ks' == [] {
      assert ks + ks' == ks;
    } else {
      var n := |ks'| - 1;
      CountAllAppend(p, f, ks, ks'[..n], at, d);
      assert (ks + ks')[..|ks| + n] == ks + ks'[..n];
    }
  }

  lemma RowStep(p: Params, f: map<Pair, Flow>, a: XNode, c1: seq<XNode>, l: nat, at: real, d: Stats)
    requires l < |c1|
    ensures CountAll(p, f, Row(a, c1[..l + 1]), at, d)
         == CountAll(p, CountAll(p, f, Row(a, c1[..l]), at, d), [(a, c1[l])], at, d)
  {
    assert c1[..l + 1][..l] == c1[..l];
    CountAllAppend(p, f, Row(a, c1[..l]), [(a, c1[l])], at, d);
  }

  lemma CountAllOne(p: Params, f: map<Pair, Flow>, k: Pair, at: real, d: Stats)
    ensures CountAll(p, f, [k], at, d) == f[k := Update(p, Get(f, k), at, d)]
    ensures |CountAll(p, f, [k], at, d)| == |f| + (if k in f then 0 else 1)
  {
    assert [k][..0] == [];
    assert CountAll(p, f, [k][..0], at, d) == f;
  }

  lemma GridStep(p: Params, f: map<Pair, Flow>, c0: seq<XNode>, c1: seq<XNode>, m: nat, at: real, d: Stats)
    requires m < |c0|
    ensures CountAll(p, f, Grid(c0[..m + 1], c1), at, d)
         == CountAll(p, CountAll(p, f, Grid(c0[..m], c1), at, d), Row(c0[m], c1), at, d)
  {
    assert c0[..m + 1][..m] == c0[..m];
    CountAllAppend(p, f, Grid(c0[..m], c1), Row(c0[m], c1), at, d);
  }

  /** `c` is what following parent pointers from x runs through. */
  ghost predicate IsChain(c: seq<XNode>, x: XNode, w: nat)
    reads c`parent
  {
    && |c| > 0 && c[0] == x
    && (forall i {:trigger c[i]} :: 0 <= i < |c| ==>
      Which(c[i].kind) == w && c[i].parent == if i == |c| - 1 then null else c[i + 1])
  }
}
