/** xltop-master's global state and the C functions that update it in place, each proved to do what its step in
    Hierarchy, FlowTable and Machine says. Allocation is assumed to succeed. */
module Masters {
  import opened Basics
  import opened Ewma
  import opened XNodes
  import opened Hierarchy
  import opened FlowTable
  import opened Machine
  import opened Counting
  import opened Pruning

  lemma SameNodes(n: Nodes, n': Nodes)
    requires n.Keys == n'.Keys && forall x :: x in n ==> n[x] == n'[x]
    ensures n == n'
  {
  }

  lemma StartsWith(p: Params, u: XNode, v: XNode, c: XNode, j: XNode, s: Sys)
    requires u != v && u != c && u != j && v != c && v != j && c != j
    requires s == Sys(p, Hier(u, v, c, s.h.nodes, s.h.names, map[], {u, v, c, j}), map[], 0, 0.0, [])
    requires s.h.nodes.Keys == {u, v, c, j}
    requires s.h.nodes[u] == Node(U, "ALL", null, [c], 1, "", false, false, null)
    requires s.h.nodes[v] == Node(V, "ALL", null, [], 0, "", false, false, null)
    requires s.h.nodes[c] == Node(Clus, "NONE", u, [j], 1, "", false, false, j)
    requires s.h.nodes[j] == Node(Job, IDLE + "NONE", c, [], 0, "NONE", true, false, null)
    requires s.h.names == map[(U, "ALL") := u, (V, "ALL") := v, (Clus, "NONE") := c, (Job, IDLE + "NONE") := j]
    ensures s == Start(p, u, v, c, j) && Inv(s)
  {
    SameNodes(s.h.nodes, Start(p, u, v, c, j).h.nodes);
    StartInv(p, u, v, c, j);
  }

  lemma TakeOne(m: map<Pair, KNode>, k: Pair)
    requires k in m
    ensures |m - {k}| == |m| - 1
  {
    assert (m - {k}).Keys == m.Keys - {k};
    assert |m| == |m.Keys| && |m - {k}| == |(m - {k}).Keys|;
  }

  /** The pair of a node that k_destroy walks over and the node it keeps fixed: a consumer (which is 0) or
      a provider. */
  function PairOf(y: XNode, x: XNode, which: nat): Pair {
    if which == 0 then (x, y) else (y, x)
  }

  lemma PairOfIs(y: XNode, x: XNode, which: nat)
    ensures PairOf(y, x, which) == if which == 0 then (x, y) else (y, x)
  {
  }

  function PairsWith(t: set<XNode>, x: XNode, which: nat): set<Pair> {
    set y | y in t :: PairOf(y, x, which)
  }

  lemma WithMeans(keys: set<Pair>, y: XNode, x: XNode, which: nat)
    ensures y in With(keys, x, which) <==> PairOf(y, x, which) in keys
  {
    if which == 0 {
      assert (x, y).1 == y && (x, y).0 == x;
    } else {
      assert (y, x).0 == y && (y, x).1 == x;
    }
  }

  lemma PairsMean(t: set<XNode>, y: XNode, x: XNode, which: nat)
    ensures PairOf(y, x, which) in PairsWith(t, x, which) <==> y in t
  {
  }

  /** Dropping the pairs of some nodes. */
  lemma TakeWith(m: map<Pair, KNode>, a: set<XNode>, x: XNode, which: nat)
    ensures With((m - PairsWith(a, x, which)).Keys, x, which) == With(m.Keys, x, which) - a
  {
    forall y ensures y in With((m - PairsWith(a, x, which)).Keys, x, which) <==> y in With(m.Keys, x, which) - a {
      WithMeans((m - PairsWith(a, x, which)).Keys, y, x, which);
      WithMeans(m.Keys, y, x, which);
      PairsMean(a, y, x, which);
    }
  }

  lemma TakeMore(m: map<Pair, KNode>, a: set<XNode>, b: set<XNode>, x: XNode, which: nat)
    ensures m - PairsWith(a, x, which) - PairsWith(b, x, which) == m - PairsWith(a + b, x, which)
  {
    assert PairsWith(a + b, x, which) == PairsWith(a, x, which) + PairsWith(b, x, which);
  }

  lemma TakeNone(m: map<Pair, KNode>, x: XNode, which: nat)
    ensures m - PairsWith({}, x, which) == m
  {
  }

  lemma TakeFirst(m: map<Pair, KNode>, y: XNode, x: XNode, which: nat)
    ensures m - {PairOf(y, x, which)} == m - PairsWith({y}, x, which)
  {
    assert PairsWith({y}, x, which) == {PairOf(y, x, which)};
  }

  lemma TakeAbsent(m: map<Pair, KNode>, y: XNode, x: XNode, which: nat)
    requires y !in With(m.Keys, x, which)
    ensures m - PairsWith({y}, x, which) == m
  {
    WithMeans(m.Keys, y, x, which);
  }

  lemma GoneHas(n: Nodes, t: set<XNode>, y: XNode)
    requires Forest(n) && y in n && y in t
    ensures {y} + Gone(n, t, y) == Gone(n, t, y)
  {
    OpenParent(n, t, y, y);
  }

  lemma NoneHanded(n: Nodes, cs: seq<XNode>, top: XNode)
    ensures SetAll(n, cs[..0], top) == n
  {
  }

  lemma OneHanded(n: Nodes, cs: seq<XNode>, i: nat, top: XNode)
    requires i < |cs|
    ensures SetAll(n, cs[..i + 1], top) == SetParent(SetAll(n, cs[..i], top), cs[i], top)
  {
    assert cs[..i + 1][..i] == cs[..i];
  }

  lemma HostLookupIs(h: Hier, host: string, x: XNode)
    requires ClusForHost(h, host) in h.nodes
    ensures HostLookup(h, host, x) == Lookup(h, x, NewNode(Host, host, h.nodes[ClusForHost(h, host)].idle, "", false))
  {
  }

  lemma DestroyedIs(h: Hier, x: XNode)
    requires x in h.nodes
    ensures var node := h.nodes[x];
      Destroyed(h, x) == h.(nodes := SetAll(Orphaned(h.nodes, x), node.children, Universe(h, node.kind)) - {x},
                            names := h.names - {(node.kind, node.name)})
  {
  }

  lemma NewIs(kind: Kind, name: string, parent: XNode?, owner: string, fake: bool)
    ensures NewNode(kind, name, parent, owner, fake) == Node(kind, name, parent, [], 0, owner, fake, false, null)
  {
  }

  lemma AddNodeIs(h: Hier, x: XNode, node: Node, nodes: Nodes, names: Names, ever: set<XNode>)
    requires nodes == Linking(h.nodes, x, node.parent)[x := node]
    requires names == h.names[(node.kind, node.name) := x] && ever == h.ever + {x}
    ensures Hier(h.u, h.v, h.clus0, nodes, names, h.domains, ever) == AddNode(h, x, node)
  {
  }

  /** The table `m` without the pairs of `gone`. */
  ghost predicate Left(m: map<Pair, KNode>, gone: set<XNode>, x: XNode, which: nat, t: set<XNode>,
                       now: map<Pair, KNode>) {
    now == m - PairsWith(gone, x, which) && With(now.Keys, x, which) == t - gone
  }

  lemma LeftMeans(m: map<Pair, KNode>, gone: set<XNode>, x: XNode, which: nat, t: set<XNode>, now: map<Pair, KNode>)
    ensures Left(m, gone, x, which, t, now) <==>
      now == m - PairsWith(gone, x, which) && With(now.Keys, x, which) == t - gone
  {
  }

  lemma LeftMore(m: map<Pair, KNode>, gone: set<XNode>, more: set<XNode>, x: XNode, which: nat, t: set<XNode>,
                 before: map<Pair, KNode>, now: map<Pair, KNode>)
    requires Left(m, gone, x, which, t, before) && now == before - PairsWith(more, x, which)
    ensures Left(m, gone + more, x, which, t, now)
  {
    TakeMore(m, gone, more, x, which);
    TakeWith(before, more, x, which);
    hide PairsWith, With;
    assert t - gone - more == t - (gone + more);
  }

  lemma AllOfConsumer(keys: set<Pair>, x: XNode)
    ensures PairsWith(With(keys, x, 0), x, 0) == set k | k in keys && k.0 == x
  {
    forall k: Pair ensures k in PairsWith(With(keys, x, 0), x, 0) <==> k in keys && k.0 == x {
      WithMeans(keys, k.1, x, 0);
      PairsMean(With(keys, x, 0), k.1, x, 0);
      assert k.0 == x ==> k == PairOf(k.1, x, 0);
    }
  }

  lemma SpareAfterLookup(h: Hier, y: XNode, node: Node, kind: Kind, name: string, x: XNode)
    requires kind != node.kind && Spare(Lookup(h, y, node).0, x, kind, name)
    ensures Spare(h, x, kind, name)
  {
  }

  /** strchr: the first place of `c` in `s`, or the end. */
  method StrChr(s: string, c: char) returns (i: nat)
    ensures i <= |s| && c !in s[..i] && (i < |s| ==> s[i] == c)
  {
    i := 0;
    while i < |s| && s[i] != c
      invariant i <= |s| && c !in s[..i]
    {
      i := i + 1;
    }
  }

  lemma {:induction false} SkipToDot(h: Hier, name: string, i: nat)
    requires i <= |name| && '.' !in name[..i]
    ensures ClusForHost(h, name) == ClusForHost(h, name[i..])
  {
    if i == 0 {
      assert name[0..] == name;
    } else {
      assert name[..i][0] == name[0];
      assert name[1..][..i - 1] == name[..i][1..];
      assert forall k :: 0 <= k < i - 1 ==> name[..i][1..][k] == name[..i][k + 1];
      SkipToDot(h, name[1..], i - 1);
      assert name[1..][i - 1..] == name[i..];
    }
  }

  lemma Recording(s: Sys, x: XNode, serv: XNode, e: Entry, s': Sys)
    requires s.nrK == |s.flows| && s'.nrK == |s'.flows|
    requires Forest(s.h.nodes) && x in s.h.nodes && serv in s.h.nodes
    requires e == Entry(Chain(s.h.nodes, x), Chain(s.h.nodes, serv), e.at, e.d)
    requires s' == s.(flows := Count(s.p, s.flows, Pairs(e.chain0, e.chain1), e.at, e.d), log := s.log + [e],
                      nrK := s'.nrK, now := e.at)
    ensures s' == RecordReport(s, x, serv, e.at, e.d)
  {
    CountSize(s, e);
  }

  lemma ServMessageUnfolds(s: Sys, serv: XNode, host: string, reading: Reading, at: real, x: XNode)
    requires Tree(s.h) && IdleJobs(s.h.nodes) && Spare(s.h, x, Host, host) && serv in s.h.nodes
    requires HostLookup(s.h, host, x).1 == x
    ensures var h' := HostLookup(s.h, host, x).0;
      && Tree(h') && x in h'.nodes && serv in h'.nodes
      && var s1, s' := s.(h := h'), ServMessage(s, serv, host, reading, at, x);
      s' == if reading.Numbers? then RecordReport(s1, x, serv, at, reading.d) else s1.(now := at)
  {
    hide Tree, HostLookup, Spare;
    HostLookupTree(s.h, host, x);
  }

  lemma AddClusUnfolds(s: Hier, name: string, c: XNode, j: XNode, junk: bool)
    ensures (Clus, name) in s.names ==> SpareClus(s, name, c, j) && AddClus(s, name, c, j, junk) == s
    ensures (Clus, name) !in s.names ==>
      var s1 := AddNode(s, c, NewNode(Clus, name, s.u, "", false));
      var (s2, idle) := Lookup(s1, j, NewNode(Job, IDLE + name, c, "NONE", junk));
      && (c !in s.ever && c != j && Spare(s1, j, Job, IDLE + name) ==> SpareClus(s, name, c, j))
      && (idle == j ==> AddClus(s, name, c, j, junk) == s2.(nodes := MarkIdle(s2.nodes, c, j)))
  {
  }

  function Marked(s: Hier, j: XNode, armed: bool): Hier
    requires j in s.nodes
  {
    s.(nodes := s.nodes[j := s.nodes[j].(zombie := armed)])
  }

  lemma RemoveIgnoresTimer(h: Hier, j: XNode)
    requires Tree(h) && IsKind(h.nodes, j, Job)
    ensures Remove(Marked(h, j, false), j) == Remove(h, j)
    ensures h.nodes[j].parent != j
  {
    assert Linked(h.nodes, j);
    var p, m := h.nodes[j].parent, Marked(h, j, false);
    hide Tree, Forest, Linked;
    assert Unlinking(m.nodes, j, p) - {j} == Unlinking(h.nodes, j, p) - {j};
  }

  lemma RemoveDrops(h: Hier, j: XNode)
    requires j in h.nodes
    ensures j !in Remove(h, j).nodes && Remove(h, j).nodes.Keys <= h.nodes.Keys
  {
  }

  lemma ZombieUnfolds(s: Sys, j: XNode)
    requires Tree(s.h) && IsKind(s.h.nodes, j, Job)
    ensures s.h.nodes[j].fake ==> ZombieFires(s, j) == s.(h := Marked(s.h, j, false))
    ensures !s.h.nodes[j].fake && s.h.nodes[j].nrChild > 0 ==>
      ZombieFires(s, j) == s.(h := Marked(Marked(s.h, j, false), j, true))
    ensures !s.h.nodes[j].fake && s.h.nodes[j].nrChild <= 0 ==>
      var s1 := s.(h := Marked(s.h, j, false)); ZombieFires(s, j) == Forget(s1, j).(h := Remove(s1.h, j))
  {
    RemoveIgnoresTimer(s.h, j);
    hide Tree, Forest, Remove;
    assert j !in Remove(s.h, j).nodes by { RemoveDrops(s.h, j); }
  }

  /** Enabled and Next, spelled out. */
  ghost predicate Leads(s: Sys, e: Step, s': Sys)
    requires Inv(s)
  {
    match e
    case AddCluster(name, c, nj, junk) => SpareClus(s.h, name, c, nj) && s' == s.(h := AddClus(s.h, name, c, nj, junk))
    case AddDomain(domain, clus) =>
      clus in s.h.nodes && s.h.nodes[clus].kind == Clus && s' == s.(h := s.h.(domains := s.h.domains[domain := clus]))
    case AddFs(name, x) =>
      Spare(s.h, x, Fs, name) && s' == s.(h := Lookup(s.h, x, NewNode(Fs, name, s.h.v, "", false)).0)
    case AddServ(name, fs, x) =>
      && fs in s.h.nodes && s.h.nodes[fs].kind == Fs && Spare(s.h, x, Serv, name)
      && s' == s.(h := Lookup(s.h, x, NewNode(Serv, name, fs, "", false)).0)
    case AddHost(name, x) => Spare(s.h, x, Host, name) && s' == s.(h := HostLookup(s.h, name, x).0)
    case ServLine(serv, host, reading, at, x) =>
      && serv in s.h.nodes && s.h.nodes[serv].kind == Serv && Spare(s.h, x, Host, host) && 0.0 < at && s.now <= at
      && s' == ServMessage(s, serv, host, reading, at, x)
    case ClusLine(clus, host, job, owner, nj, nh, junk) =>
      && clus in s.h.nodes && s.h.nodes[clus].kind == Clus && SpareLine(s.h, host, job, nj, nh)
      && s' == s.(h := ClusMessage(s.h, clus, host, job, owner, nj, nh, junk))
    case Zombie(j) => j in s.h.nodes && s.h.nodes[j].kind == Job && s.h.nodes[j].zombie && s' == ZombieFires(s, j)
    case Query(ks, at) => 0.0 < at && s.now <= at && s' == Touch(s, ks, at)
  }

  lemma FlowCount(f: map<Pair, Flow>, k: Pair, v: Flow)
    ensures |f[k := v]| == |f| + if k in f then 0 else 1
  {
    assert f[k := v].Keys == f.Keys + {k} && |f| == |f.Keys| && |f[k := v]| == |f[k := v].Keys|;
  }

  lemma GetIs(f: map<Pair, Flow>, k: Pair)
    ensures Get(f, k) == if k in f then f[k] else EMPTY
  {
  }

  lemma SetTwice(f: map<Pair, Flow>, k: Pair, v: Flow, w: Flow)
    ensures f[k := v][k := w] == f[k := w] && |f[k := v]| == |f[k := w]|
  {
    FlowCount(f, k, v);
    FlowCount(f, k, w);
  }

  class Master {
    const p: Params
    const u: XNode
    const v: XNode
    const clus0: XNode
    var names: Names
    var domains: map<string, XNode>
    var table: map<Pair, KNode>
    var nrK: int

    // History and bookkeeping: the nodes in the trees, all nodes ever, the time of the last event, the log.
    ghost var live: set<XNode>
    ghost var ever: set<XNode>
    ghost var now: real
    ghost var log: seq<Entry>
    ghost var pool: set<KNode>

    ghost function Nodes(): Nodes
      reads `live, live`parent, live`children, live`nrChild, live`owner, live`fake, live`zombie, live`idle
    {
      map x | x in live :: x.Contents()
    }

    ghost function H(): Hier
      reads `live, `names, `domains, `ever
      reads live`parent, live`children, live`nrChild, live`owner, live`fake, live`zombie, live`idle
    {
      Hier(u, v, clus0, Nodes(), names, domains, ever)
    }

    ghost function Flows(): map<Pair, Flow>
      reads `table, table.Values`flow
    {
      map k | k in table :: table[k].flow
    }

    ghost function S(): Sys
      reads *
    {
      Sys(p, H(), Flows(), nrK, now, log)
    }

    /** Every k_node carries its own pair, so no two pairs share one. */
    ghost predicate Keyed()
      reads `table, `pool
    {
      forall k :: k in table ==> table[k] in pool && table[k].x0 == k.0 && table[k].x1 == k.1
    }

    ghost predicate Valid()
      reads *
    {
      Inv(S()) && Keyed()
    }

    // ---------- unfolding the abstraction ----------

    lemma Parts()
      ensures S() == Sys(p, H(), Flows(), nrK, now, log) && |Flows()| == |table|
      ensures H() == Hier(u, v, clus0, Nodes(), names, domains, ever) && Nodes().Keys == live
    {
      assert Flows().Keys == table.Keys;
      assert |Flows()| == |Flows().Keys| && |table| == |table.Keys|;
    }

    lemma At(x: XNode)
      ensures x in Nodes() <==> x in live
      ensures x in live ==>
        Nodes()[x] == Node(x.kind, x.name, x.parent, x.children, x.nrChild, x.owner, x.fake, x.zombie, x.idle)
    {
    }

    twostate lemma TableKept()
      requires table == old(table) && pool == old(pool) && nrK == old(nrK)
      requires forall k :: k in table ==> table[k].flow == old(table[k].flow)
      ensures Flows() == old(Flows()) && (old(Keyed()) ==> Keyed())
    {
    }

    // ---------- start ----------

    /** x_types_init and clus_type_init */
    constructor (p: Params)
      ensures this.p == p && clus0.idle != null && live == {u, v, clus0, clus0.idle}
      ensures S() == Start(p, u, v, clus0, clus0.idle) && Valid()
      ensures fresh(live) && pool == {}
    {
      hide *;
      var top0 := new XNode(U, "ALL", null, "", false);
      var top1 := new XNode(V, "ALL", null, "", false);
      var none := new XNode(Clus, "NONE", top0, "", false);
      var idle := new XNode(Job, IDLE + "NONE", none, "NONE", true);
      top0.children, top0.nrChild := [none], 1;
      none.children, none.nrChild, none.idle := [idle], 1, idle;
      this.p, u, v, clus0 := p, top0, top1, none;
      names := map[(U, "ALL") := top0, (V, "ALL") := top1, (Clus, "NONE") := none, (Job, IDLE + "NONE") := idle];
      domains, table, nrK := map[], map[], 0;
      live, ever, now, log := {top0, top1, none, idle}, {top0, top1, none, idle}, 0.0, [];
      pool := {};
      new;
      StartsRight(idle);
    }

    lemma StartsRight(j: XNode)
      requires live == {u, v, clus0, j} && ever == live && u != v && u != clus0 && u != j && v != clus0
      requires v != j && clus0 != j
      requires u.kind == U && u.name == "ALL" && u.parent == null && u.children == [clus0] && u.nrChild == 1
      requires v.kind == V && v.name == "ALL" && v.parent == null && v.children == [] && v.nrChild == 0
      requires clus0.kind == Clus && clus0.name == "NONE" && clus0.parent == u && clus0.children == [j]
      requires clus0.nrChild == 1
      requires j.kind == Job && j.name == IDLE + "NONE" && j.parent == clus0 && j.children == [] && j.nrChild == 0
      requires u.owner == v.owner == clus0.owner == "" && !u.fake && !v.fake && !clus0.fake && j.owner == "NONE"
      requires j.fake
      requires !u.zombie && !v.zombie && !clus0.zombie && !j.zombie && u.idle == v.idle == j.idle == null
      requires clus0.idle == j
      requires names == map[(U, "ALL") := u, (V, "ALL") := v, (Clus, "NONE") := clus0, (Job, IDLE + "NONE") := j]
      requires domains == map[] && table == map[] && nrK == 0 && now == 0.0 && log == []
      ensures S() == Start(p, u, v, clus0, j) && Valid()
    {
      Parts();
      StartsWith(p, u, v, clus0, j, S());
    }

    // ---------- src/x_node.c: nodes ----------

    /** x enters p's child list, if there is a p. */
    method Join(x: XNode, p: XNode?)
      requires p == null || p in live
      modifies live`children, live`nrChild
      ensures Nodes() == Linking(old(Nodes()), x, p)
    {
      if p != null {
        p.nrChild := p.nrChild + 1;
        p.children := p.children + [x];
      }
      SameNodes(Nodes(), Linking(old(Nodes()), x, p));
    }

    /** x leaves p's child list, if there is a p. */
    method Leave(x: XNode, p: XNode?)
      requires p == null || p in live
      modifies live`children, live`nrChild
      ensures Nodes() == Unlinking(old(Nodes()), x, p)
    {
      if p != null {
        p.nrChild := p.nrChild - 1;
        p.children := Without(p.children, x);
      }
      SameNodes(Nodes(), Unlinking(old(Nodes()), x, p));
    }

    method PutParent(x: XNode, p: XNode?)
      requires x in live
      modifies x`parent
      ensures Nodes() == old(Nodes())[x := old(Nodes())[x].(parent := p)] && x.parent == p
    {
      x.parent := p;
      SameNodes(Nodes(), old(Nodes())[x := old(Nodes())[x].(parent := p)]);
    }

    /** A new node enters the name table. */
    method List(x: XNode, kind: Kind, name: string, ghost node: Node)
      requires x !in live && x.Contents() == node
      modifies `names, `live, `ever
      ensures live == old(live) + {x} && ever == old(ever) + {x} && names == old(names)[(kind, name) := x]
      ensures Nodes() == old(Nodes())[x := node]
    {
      names := names[(kind, name) := x];
      live, ever := live + {x}, ever + {x};
      SameNodes(Nodes(), old(Nodes())[x := node]);
    }

    /** x_init; only U and V have no parent. */
    method XInit(kind: Kind, name: string, parent: XNode?, owner: string, fake: bool) returns (x: XNode)
      requires parent == null || parent in live
      modifies `names, `live, `ever, live`children, live`nrChild
      ensures fresh(x) && live == old(live) + {x} && ever == old(ever) + {x}
      ensures names == old(names)[(kind, name) := x] && x.kind == kind && x.parent == parent
      ensures x !in old(ever) && H() == AddNode(old(H()), x, NewNode(kind, name, parent, owner, fake))
    {
      hide *;
      NewIs(kind, name, parent, owner, fake);
      x := new XNode(kind, name, parent, owner, fake);
      Enter(x, kind, name, parent, NewNode(kind, name, parent, owner, fake));
    }

    /** A new node enters its parent's list and the name table. */
    method Enter(x: XNode, kind: Kind, name: string, parent: XNode?, ghost node: Node)
      requires (parent == null || parent in live) && x !in live && x.Contents() == node
      requires node.kind == kind && node.name == name && node.parent == parent
      modifies `names, `live, `ever, live`children, live`nrChild
      ensures live == old(live) + {x} && ever == old(ever) + {x} && names == old(names)[(kind, name) := x]
      ensures H() == AddNode(old(H()), x, node)
    {
      hide *;
      Parts();
      ghost var h := H();
      Join(x, parent);
      List(x, kind, name, node);
      Parts();
      AddNodeIs(h, x, node, Nodes(), names, ever);
    }

    /** x_set_parent */
    method XSetParent(x: XNode, parent: XNode?)
      requires x in live && (parent == null || parent in live) && (x.parent == null || x.parent in live)
      modifies x`parent, live`children, live`nrChild
      ensures Nodes() == SetParent(old(Nodes()), x, parent)
    {
      hide H, Nodes, Linking, Unlinking;
      Parts();
      At(x);
      if x.parent == parent {
        return;
      }
      Leave(x, x.parent);
      Join(x, parent);
      PutParent(x, parent);
    }

    /** The name table leads to live nodes of the right type. */
    ghost predicate Found(kind: Kind, name: string)
      reads *
    {
      (kind, name) in names ==> names[(kind, name)] in live && names[(kind, name)].kind == kind
    }

    /** A known host hangs under some other live node. */
    ghost predicate Hangs(host: string)
      reads *
    {
      (Host, host) in names ==> var x := names[(Host, host)]; x in live && x.parent in live && x.parent != x
    }

    lemma HostHangs(host: string)
      requires Tree(H())
      ensures Hangs(host)
    {
      if (Host, host) in names {
        assert NameOk(H(), (Host, host));
        assert Linked(Nodes(), names[(Host, host)]);
      }
    }

    lemma FoundAll(kind: Kind, name: string)
      requires Tree(H())
      ensures Found(kind, name)
    {
      if (kind, name) in names {
        assert NameOk(H(), (kind, name));
      }
    }

    /** x_lookup without L_CREATE, and the first part of all other look-ups. */
    method XFind(kind: Kind, name: string) returns (x: XNode?)
      ensures x == if (kind, name) in names then names[(kind, name)] else null
    {
      if (kind, name) in names {
        return names[(kind, name)];
      }
      return null;
    }

    /** x_lookup with L_CREATE; job_lookup and serv_create differ only in the struct around the node. */
    method XLookup(kind: Kind, name: string, parent: XNode, owner: string, fake: bool) returns (x: XNode)
      requires parent in live && Found(kind, name)
      modifies `names, `live, `ever, live`children, live`nrChild
      ensures live == old(live) + {x} && (x !in old(live) ==> fresh(x)) && x.kind == kind
      ensures Spare(old(H()), x, kind, name)
      ensures (H(), x) == Lookup(old(H()), x, NewNode(kind, name, parent, owner, fake))
      ensures names == old(names)[(kind, name) := x] && (x in old(live) <==> (kind, name) in old(names))
      ensures (kind, name) in old(names) ==> x == old(names)[(kind, name)] && names == old(names)
      ensures x.parent == if (kind, name) in old(names) then old(names[(kind, name)].parent) else parent
    {
      var known := XFind(kind, name);
      if known != null {
        return known;
      }
      x := XInit(kind, name, parent, owner, fake);
    }

    // ---------- src/x_node.c: pairs ----------

    /** k_lookup without L_CREATE */
    method KFind(x0: XNode, x1: XNode) returns (k: KNode?)
      ensures k == if (x0, x1) in table then table[(x0, x1)] else null
    {
      if (x0, x1) in table {
        return table[(x0, x1)];
      }
      return null;
    }

    /** k_lookup with L_CREATE */
    method KLookup(x0: XNode, x1: XNode) returns (k: KNode?)
      requires Keyed()
      modifies `table, `nrK, `pool
      ensures Keyed() && fresh(pool - old(pool))
      ensures k == null <==> (x0, x1) !in old(table) && (Which(x0.kind) != 0 || Which(x1.kind) != 1)
      ensures k == null ==> table == old(table) && nrK == old(nrK) && pool == old(pool)
      ensures (x0, x1) in old(table) ==>
        k == old(table)[(x0, x1)] && table == old(table) && nrK == old(nrK) && pool == old(pool)
      ensures (x0, x1) !in old(table) && k != null ==>
        fresh(k) && k.x0 == x0 && k.x1 == x1 && k.flow == EMPTY
        && table == old(table)[(x0, x1) := k] && nrK == old(nrK) + 1
    {
      k := KFind(x0, x1);
      if k != null || Which(x0.kind) != 0 || Which(x1.kind) != 1 {
        return;
      }
      k := new KNode(x0, x1);
      table := table[(x0, x1) := k];
      nrK := nrK + 1;
      pool := pool + {k};
    }

    twostate lemma TableGrew(k: Pair, new l: KNode)
      requires table == old(table)[k := l]
      requires forall q :: q in old(table) ==> old(table)[q].flow == old(table[q].flow)
      ensures Flows() == old(Flows())[k := l.flow]
    {
    }

    /** k_lookup with L_CREATE on a consumer and a provider: an untracked pair starts from zero. */
    method KCreate(x0: XNode, x1: XNode) returns (k: KNode)
      requires Keyed() && Which(x0.kind) == 0 && Which(x1.kind) == 1
      modifies `table, `nrK, `pool
      ensures Keyed() && fresh(pool - old(pool)) && (x0, x1) in table && k == table[(x0, x1)]
      ensures k in old(pool) || fresh(k)
      ensures Flows() == old(Flows())[(x0, x1) := Get(old(Flows()), (x0, x1))]
      ensures nrK - |Flows()| == old(nrK - |Flows()|)
    {
      hide Get;
      ghost var f := Flows();
      var l := KLookup(x0, x1);
      assert l != null && table == old(table)[(x0, x1) := l];
      TableGrew((x0, x1), l);
      FlowCount(f, (x0, x1), l.flow);
      GetIs(f, (x0, x1));
      k := l;
    }

    /** k_update */
    method KUpdate(k: KNode, at: real, d: Stats)
      requires Keyed() && (k.x0, k.x1) in table && table[(k.x0, k.x1)] == k
      modifies k`flow
      ensures Flows() == old(Flows())[(k.x0, k.x1) := Update(p, old(k.flow), at, d)] && Keyed()
    {
      hide Update;
      k.Update(p, at, d);
    }

    /** k_freshen on a tracked pair. */
    method KFreshen(k: KNode, at: real)
      requires Keyed() && (k.x0, k.x1) in table && table[(k.x0, k.x1)] == k
      modifies k`flow
      ensures k.flow == Freshen(p, old(k.flow), at)
      ensures Flows() == old(Flows())[(k.x0, k.x1) := k.flow] && Keyed()
    {
      hide Freshen;
      k.Freshen(p, at);
    }

    /** The body of x_update's loops. */
    method CountPair(x0: XNode, x1: XNode, at: real, d: Stats)
      requires Keyed() && Which(x0.kind) == 0 && Which(x1.kind) == 1
      modifies `table, `nrK, `pool, pool`flow
      ensures Keyed() && fresh(pool - old(pool))
      ensures Flows() == CountAll(p, old(Flows()), [(x0, x1)], at, d)
      ensures nrK - |Flows()| == old(nrK - |Flows()|)
    {
      hide CountAll, Update, Get, Keyed;
      ghost var f := Flows();
      CountAllOne(p, f, (x0, x1), at, d);
      var k := KCreate(x0, x1);
      KeyedAt((x0, x1));
      ghost var g := Flows();
      KUpdate(k, at, d);
      SetTwice(f, (x0, x1), Get(f, (x0, x1)), Update(p, Get(f, (x0, x1)), at, d));
    }

    lemma KeyedAt(k: Pair)
      requires Keyed() && k in table
      ensures table[k].x0 == k.0 && table[k].x1 == k.1 && Flows()[k] == table[k].flow
    {
    }

    /** The inner loop of x_update: one consumer, every provider ancestor. */
    method UpdateRow(i0: XNode, x1: XNode, at: real, d: Stats, ghost c1: seq<XNode>)
      requires Keyed() && Which(i0.kind) == 0 && IsChain(c1, x1, 1)
      modifies `table, `nrK, `pool, pool`flow
      ensures Keyed() && fresh(pool - old(pool))
      ensures Flows() == CountAll(p, old(Flows()), Row(i0, c1), at, d)
      ensures nrK - |Flows()| == old(nrK - |Flows()|)
    {
      ghost var f := Flows();
      ghost var l: nat := 0;
      var i1: XNode? := x1;
      while i1 != null
        invariant l <= |c1| && i1 == if l == |c1| then null else c1[l]
        invariant Keyed() && fresh(pool - old(pool))
        invariant Flows() == CountAll(p, f, Row(i0, c1[..l]), at, d)
        invariant nrK - |Flows()| == old(nrK - |Flows()|)
        decreases |c1| - l
      {
        CountPair(i0, i1, at, d);
        RowStep(p, f, i0, c1, l, at, d);
        i1 := i1.parent;
        l := l + 1;
      }
      assert c1[..l] == c1;
    }

    /** x_update: count one report for every pair of ancestors. */
    method XUpdate(x0: XNode, x1: XNode, at: real, d: Stats, ghost c0: seq<XNode>, ghost c1: seq<XNode>)
      requires Keyed() && IsChain(c0, x0, 0) && IsChain(c1, x1, 1)
      modifies `table, `nrK, `pool, pool`flow
      ensures Keyed() && fresh(pool - old(pool))
      ensures Flows() == CountAll(p, old(Flows()), Grid(c0, c1), at, d)
      ensures nrK - |Flows()| == old(nrK - |Flows()|)
    {
      ghost var f := Flows();
      ghost var m: nat := 0;
      var i0: XNode? := x0;
      while i0 != null
        invariant m <= |c0| && i0 == if m == |c0| then null else c0[m]
        invariant Keyed() && fresh(pool - old(pool))
        invariant Flows() == CountAll(p, f, Grid(c0[..m], c1), at, d)
        invariant nrK - |Flows()| == old(nrK - |Flows()|)
        decreases |c0| - m
      {
        UpdateRow(i0, x1, at, d, c1);
        GridStep(p, f, c0, c1, m, at, d);
        i0 := i0.parent;
        m := m + 1;
      }
      assert c0[..m] == c0;
    }

    /** Unlink and free one k_node. */
    method KFree(x0: XNode, x1: XNode)
      requires Keyed() && (x0, x1) in table && nrK == |table|
      modifies `table, `nrK
      ensures Keyed() && table == old(table) - {(x0, x1)} && table.Keys == old(table).Keys - {(x0, x1)}
      ensures nrK == |table|
    {
      TakeOne(table, (x0, x1));
      table := table - {(x0, x1)};
      nrK := nrK - 1;
    }

    /** k_destroy: x stays fixed, and the walk goes down from y. It stops at the first pair that is not tracked. */
    method KDestroy(x0: XNode, x1: XNode, which: nat, ghost n: Nodes, ghost x: XNode, ghost y: XNode)
      requires Keyed() && Forest(n) && y in n && Shows(n) && nrK == |table|
      requires (x0, x1) == PairOf(y, x, which)
      modifies `table, `nrK
      ensures Keyed() && nrK == |table|
      ensures table == old(table) - PairsWith(Gone(n, With(old(table).Keys, x, which), y), x, which)
      decreases Level(y.kind), 1
    {
      hide *;
      ghost var t := With(table.Keys, x, which);
      var k := KFind(x0, x1);
      WithMeans(table.Keys, y, x, which);
      if k == null {
        NoneGone(n, t, y);
        TakeNone(table, x, which);
        return;
      }
      TakeFirst(table, y, x, which);
      TakeWith(table, {y}, x, which);
      KFree(x0, x1);
      KDestroyBelow(x0, x1, which, n, x, y, t);
      TakeMore(old(table), {y}, Gone(n, t, y), x, which);
      GoneHas(n, t, y);
    }

    /** The loop of k_destroy, after the pair itself is gone. */
    method KDestroyBelow(x0: XNode, x1: XNode, which: nat, ghost n: Nodes, ghost x: XNode, ghost y: XNode,
                         ghost t: set<XNode>)
      requires Keyed() && Forest(n) && y in n && Shows(n) && nrK == |table|
      requires (x0, x1) == PairOf(y, x, which) && y in t && With(table.Keys, x, which) == t - {y}
      modifies `table, `nrK
      ensures Keyed() && nrK == |table|
      ensures table == old(table) - PairsWith(Gone(n, t, y), x, which)
      decreases Level(y.kind), 0
    {
      hide *;
      PairOfIs(y, x, which);
      ChildrenShown(n, y);
      var cs := if which == 0 then x1.children else x0.children;
      ghost var m := table;
      GoneFirst(n, t, y);
      TakeAbsent(m, y, x, which);
      LeftMeans(m, {y}, x, which, t, m);
      for i := 0 to |cs|
        invariant Keyed() && nrK == |table| && Left(m, GoneVia(n, t, y, cs[..i]), x, which, t, table)
      {
        ghost var gone, more := GoneVia(n, t, y, cs[..i]), Gone(n, t - GoneVia(n, t, y, cs[..i]), cs[i]);
        ghost var before := table;
        ChildShown(n, y, i);
        GoneStep(n, t, y, i);
        LeftMeans(m, gone, x, which, t, before);
        var c := cs[i];
        PairOfIs(c, x, which);
        KDestroy(if which == 0 then x0 else c, if which == 0 then c else x1, which, n, x, c);
        LeftMore(m, gone, more, x, which, t, before, table);
      }
      assert cs[..|cs|] == cs;
      LeftMeans(m, GoneVia(n, t, y, cs), x, which, t, table);
      GoneSplits(n, t, y);
    }

    lemma ChildrenShown(n: Nodes, y: XNode)
      requires y in n && Shows(n)
      ensures y.children == n[y].children
    {
    }

    lemma ChildShown(n: Nodes, y: XNode, i: nat)
      requires Forest(n) && y in n && Shows(n) && i < |n[y].children|
      ensures n[y].children[i] in n && Level(n[y].children[i].kind) < Level(y.kind)
    {
      ChildBelow(n, y, i);
    }

    /** The objects hold what `n` says about kinds and children. */
    ghost predicate Shows(n: Nodes)
      reads n.Keys`children
    {
      forall y {:trigger n[y]} :: y in n ==> y.children == n[y].children && y.kind == n[y].kind
    }

    // ---------- src/job.c, src/clus.c ----------

    /** job_end */
    method EndJob(j: XNode)
      requires j in live
      modifies j`zombie
      ensures Nodes() == JobEnd(old(Nodes()), j)
    {
      if !j.fake {
        j.zombie := true;
      }
      SameNodes(Nodes(), JobEnd(old(Nodes()), j));
    }

    /** The tail of clus_msg_cb. */
    method MoveToJob(x: XNode, j: XNode)
      requires x in live && j in live && x.parent in live && x != j && x != x.parent
      modifies x`parent, live`children, live`nrChild, live`zombie
      ensures Nodes() == MoveHost(old(Nodes()), x, j)
    {
      var before := x.parent;
      if before == j {
        return;
      }
      XSetParent(x, j);
      if before != null && before.kind == Job && before.nrChild == 0 {
        EndJob(before);
      }
    }

    /** The head of clus_msg_cb: find or create the job and the host a line names. */
    method FindLineNodes(c: XNode, host: string, job: string, owner: string, junk: bool) returns (j: XNode, x: XNode)
      requires c in live && Found(Job, job) && Found(Host, host) && Hangs(host)
      modifies `names, `live, `ever, live`children, live`nrChild
      ensures live == old(live) + {j, x} && (j !in old(live) ==> fresh(j)) && (x !in old(live) ==> fresh(x))
      ensures SpareLine(old(H()), host, job, j, x)
      ensures (H(), j, x) == LineNodes(old(H()), c, host, job, owner, j, x, junk)
      ensures x != j && x != x.parent && (x.parent == j || x.parent in old(live))
    {
      hide Lookup, H, Nodes, Spare;
      ghost var h := H();
      j := XLookup(Job, job, c, owner, junk);
      assert Hangs(host);
      x := XLookup(Host, host, j, "", false);
      SpareAfterLookup(h, j, NewNode(Job, job, c, owner, junk), Host, host, x);
    }

    /** clus_msg_cb, on the fields of a line with at least two words. */
    method ClusMsg(c: XNode, host: string, job: string, owner: string,
                   junk: bool) returns (ghost nj: XNode, ghost nh: XNode)
      requires c in live && Found(Job, job) && Found(Host, host) && Hangs(host) && Keyed()
      modifies `names, `live, `ever, live`parent, live`children, live`nrChild, live`zombie
      ensures SpareLine(old(H()), host, job, nj, nh)
      ensures H() == ClusMessage(old(H()), c, host, job, owner, nj, nh, junk)
      ensures Flows() == old(Flows()) && Keyed()
      ensures fresh(live - old(live))
    {
      hide MoveHost, LineNodes;
      var j, x := FindLineNodes(c, host, job, owner, junk);
      ghost var h2 := H();
      MoveToJob(x, j);
      nj, nh := j, x;
      TableKept();
      assert H() == h2.(nodes := MoveHost(h2.nodes, x, j));
    }

    method SetIdle(c: XNode, j: XNode)
      requires c in live && j in live
      modifies c`idle, j`fake
      ensures H() == old(H()).(nodes := MarkIdle(old(H()).nodes, c, j))
    {
      c.idle := j;
      j.fake := true;
      SameNodes(Nodes(), MarkIdle(old(Nodes()), c, j));
    }

    lemma FoundMeans(kind: Kind, name: string)
      ensures Found(kind, name) <==>
        ((kind, name) in names ==> names[(kind, name)] in live && names[(kind, name)].kind == kind)
    {
    }

    /** The nodes of a new cluster. */
    method ClusNodes(name: string, junk: bool) returns (c: XNode, j: XNode)
      requires u in live && (Clus, name) !in names && Found(Job, IDLE + name)
      modifies `names, `live, `ever, live`children, live`nrChild
      ensures live == old(live) + {c, j} && fresh(c) && (j !in old(live) ==> fresh(j)) && c !in old(ever) && c != j
      ensures var s1 := AddNode(old(H()), c, NewNode(Clus, name, u, "", false));
        Spare(s1, j, Job, IDLE + name) && (H(), j) == Lookup(s1, j, NewNode(Job, IDLE + name, c, "NONE", junk))
    {
      hide *;
      FoundMeans(Job, IDLE + name);
      c := XInit(Clus, name, u, "", false);
      FoundMeans(Job, IDLE + name);
      j := XLookup(Job, IDLE + name, c, "NONE", junk);
    }

    /** clus_lookup for an unknown name: a new cluster gets its idle job. */
    method NewClus(name: string, junk: bool) returns (c: XNode, ghost nj: XNode)
      requires u in live && (Clus, name) !in names && Found(Job, IDLE + name)
      modifies `names, `live, `ever, live`children, live`nrChild, live`idle, live`fake
      ensures SpareClus(old(H()), name, c, nj) && H() == AddClus(old(H()), name, c, nj, junk)
      ensures fresh(live - old(live))
    {
      hide *;
      Parts();
      ghost var s := H();
      var j;
      c, j := ClusNodes(name, junk);
      SetIdle(c, j);
      nj := j;
      AddClusUnfolds(s, name, c, j, junk);
    }

    /** clus_lookup without L_CREATE, and its first part. */
    method ClusFind(name: string) returns (c: XNode?)
      ensures c == if (Clus, name) in names then names[(Clus, name)] else null
    {
      c := XFind(Clus, name);
    }

    /** clus_lookup with L_CREATE */
    method ClusLookup(name: string, junk: bool) returns (c: XNode, ghost nj: XNode)
      requires u in live && Found(Job, IDLE + name) && Keyed()
      modifies `names, `live, `ever, live`children, live`nrChild, live`idle, live`fake
      ensures SpareClus(old(H()), name, c, nj) && H() == AddClus(old(H()), name, c, nj, junk)
      ensures Flows() == old(Flows()) && Keyed()
      ensures fresh(live - old(live))
    {
      hide *;
      Parts();
      var known := ClusFind(name);
      if known != null {
        c, nj := known, known;
        AddClusUnfolds(H(), name, c, c, junk);
        return;
      }
      c, nj := NewClus(name, junk);
      TableKept();
    }

    /** clus_add_domain */
    method ClusAddDomain(c: XNode, domain: string)
      modifies `domains
      ensures domains == old(domains)[domain := c]
    {
      domains := domains[domain := c];
    }

    /** clus_lookup_for_host: drop one dotted label after the other until a domain is known. */
    method ClusLookupForHost(host: string) returns (c: XNode)
      ensures c == ClusForHost(H(), host) && ClusOf(domains, clus0, host, c)
    {
      ClusForHostIs(H(), host);
      hide ClusOf;
      var rest := host;
      while true
        invariant ClusForHost(H(), rest) == ClusForHost(H(), host)
        decreases |rest|
      {
        var i := StrChr(rest, '.');
        SkipToDot(H(), rest, i);
        if i == |rest| {
          return clus0;
        }
        rest := rest[i + 1..];
        if rest in domains {
          return domains[rest];
        }
      }
    }

    /** x_host_lookup: a new host goes below the parent given, or else below the idle job of its cluster, if it
        has one. */
    method XHostLookup(host: string, p: XNode?, create: bool) returns (x: XNode?)
      requires Found(Host, host) && ClusForHost(H(), host) in live
      requires p == null ==> ClusForHost(H(), host).idle == null || ClusForHost(H(), host).idle in live
      requires p != null ==> p in live
      modifies `names, `live, `ever, live`children, live`nrChild
      ensures var known, to := (Host, host) in old(names), if p == null then old(ClusForHost(H(), host).idle) else p;
        && (x == null <==> !known && (!create || to == null))
        && (x == null ==> H() == old(H()))
        && (x != null ==>
              && live == old(live) + {x} && (x !in old(live) ==> fresh(x)) && x.kind == Host
              && Spare(old(H()), x, Host, host) && (H(), x) == Lookup(old(H()), x, NewNode(Host, host, to, "", false)))
    {
      hide Lookup, H, Nodes, Spare, NewNode, ClusForHost;
      x := XFind(Host, host);
      if x != null {
        FoundIs(Host, host, x, p, "", false);
        return;
      }
      if !create {
        return null;
      }
      var to := p;
      if to == null {
        var c := ClusLookupForHost(host);
        to := c.idle;
        if to == null {
          return null;
        }
      }
      x := XLookup(Host, host, to, "", false);
    }

    /** What is known already is found whatever the node asked for would be. */
    lemma FoundIs(kind: Kind, name: string, x: XNode, p: XNode?, owner: string, fake: bool)
      requires Found(kind, name) && (kind, name) in names && x == names[(kind, name)]
      ensures live == live + {x} && x.kind == kind && Spare(H(), x, kind, name)
      ensures forall to: XNode? {:trigger NewNode(kind, name, to, owner, fake)} ::
        (H(), x) == Lookup(H(), x, NewNode(kind, name, to, owner, fake))
    {
    }

    // ---------- src/serv.c ----------

    lemma HostReady(host: string)
      requires Valid()
      ensures Found(Host, host) && ClusForHost(H(), host) in live && ClusForHost(H(), host).idle in live
      ensures Tree(H()) && IdleJobs(H().nodes) && Keyed() && nrK == |table|
    {
      Parts();
      FoundAll(Host, host);
      NewHostPlaced(H(), host);
    }

    lemma ChainIsChain(x: XNode)
      requires Tree(H()) && x in live
      ensures IsChain(Chain(Nodes(), x), x, Which(x.kind)) && NoDups(Chain(Nodes(), x))
    {
      ChainLinks(Nodes(), x);
    }

    /** x_update, seen from outside: the report counts once for every pair of ancestors. */
    method CountReport(x: XNode, serv: XNode, at: real, d: Stats, ghost e: Entry)
      requires Keyed() && IsChain(e.chain0, x, 0) && IsChain(e.chain1, serv, 1) && e.at == at && e.d == d
      requires NoDups(e.chain0) && NoDups(e.chain1) && nrK == |Flows()|
      modifies `table, `nrK, `pool, pool`flow, `now, `log
      ensures H() == old(H()) && Flows() == Count(p, old(Flows()), Pairs(e.chain0, e.chain1), at, d)
      ensures Keyed() && nrK == |Flows()| && log == old(log) + [e] && now == at
      ensures fresh(pool - old(pool))
    {
      hide H, Nodes, Flows, Keyed, IsChain, CountAll, Count, Grid, Pairs, NoDups;
      ghost var f := Flows();
      XUpdate(x, serv, at, d, e.chain0, e.chain1);
      GridCounts(p, f, e.chain0, e.chain1, at, d);
      log := log + [e];
      now := at;
    }

    /** The same as one step of the machine. */
    method RecordAt(x: XNode, serv: XNode, at: real, d: Stats)
      requires Keyed() && Tree(H()) && x in live && serv in live && x.kind == Host && serv.kind == Serv
      requires nrK == |table|
      modifies `table, `nrK, `pool, pool`flow, `now, `log
      ensures Keyed() && S() == RecordReport(old(S()), x, serv, at, d)
      ensures fresh(pool - old(pool))
    {
      ChainIsChain(x);
      ChainIsChain(serv);
      ghost var e := Entry(Chain(Nodes(), x), Chain(Nodes(), serv), at, d);
      ghost var s := S();
      hide *;
      Parts();
      CountReport(x, serv, at, d, e);
      Parts();
      Recording(s, x, serv, e, S());
    }

    ghost method Elapse(at: real)
      requires Keyed()
      modifies `now
      ensures S() == old(S()).(now := at) && Keyed()
    {
      now := at;
    }

    /** The head of serv_msg_cb: find or create the host. */
    method ServHost(host: string) returns (x: XNode)
      requires Found(Host, host) && ClusForHost(H(), host) in live && ClusForHost(H(), host).idle in live && Keyed()
      modifies `names, `live, `ever, live`children, live`nrChild
      ensures live == old(live) + {x} && (x in old(live) || fresh(x)) && x.kind == Host && Keyed()
      ensures Spare(old(H()), x, Host, host) && HostLookup(old(H()), host, x).1 == x
      ensures S() == old(S()).(h := HostLookup(old(H()), host, x).0)
    {
      hide *;
      Parts();
      At(ClusForHost(H(), host));
      ghost var h := H();
      x := XHostLookup(host, null, true);
      Parts();
      HostLookupIs(h, host, x);
    }

    /** The end of serv_msg_cb. */
    method TakeReading(x: XNode, serv: XNode, reading: Reading, at: real)
      requires Keyed() && Tree(H()) && x in live && serv in live && x.kind == Host && serv.kind == Serv
      requires nrK == |table|
      modifies `table, `nrK, `pool, pool`flow, `now, `log
      ensures Keyed() && fresh(pool - old(pool))
      ensures S() == if reading.Numbers? then RecordReport(old(S()), x, serv, at, reading.d) else old(S()).(now := at)
    {
      hide *;
      match reading {
        case Garbled => Elapse(at);
        case Numbers(d) => RecordAt(x, serv, at, d);
      }
    }

    /** serv_msg_cb, on a line with a host and something that sscanf reads as `reading`. */
    method ServMsg(serv: XNode, host: string, reading: Reading, at: real) returns (ghost nh: XNode)
      requires Valid() && serv in live && serv.kind == Serv
      modifies `names, `live, `ever, live`children, live`nrChild, `table, `nrK, `pool, pool`flow, `now, `log
      ensures Spare(old(H()), nh, Host, host)
      ensures Keyed() && S() == ServMessage(old(S()), serv, host, reading, at, nh)
      ensures live == old(live) + {nh} && (nh in old(live) || fresh(nh)) && fresh(pool - old(pool))
    {
      hide *;
      HostReady(host);
      Parts();
      ghost var s := S();
      var x := ServHost(host);
      nh := x;
      ServMessageUnfolds(s, serv, host, reading, at, x);
      Parts();
      TakeReading(x, serv, reading, at);
    }

    // ---------- src/job.c ----------

    /** The pairs' part of x_destroy. */
    method DropPairs(x: XNode, ghost n: Nodes)
      requires Keyed() && Forest(n) && u in n && v in n && Shows(n) && nrK == |table|
      modifies `table, `nrK
      ensures Keyed() && nrK == |table| && table == old(table) - Dropped(n, old(table).Keys, x)
    {
      hide *;
      DroppedIs(n, table.Keys, x);
      if Which(x.kind) == 0 {
        KDestroy(x, v, 0, n, x, v);
      } else {
        KDestroy(u, x, 1, n, x, u);
      }
    }

    /** The pairs x_destroy drops. */
    ghost function Dropped(n: Nodes, keys: set<Pair>, x: XNode): set<Pair>
      requires Forest(n)
    {
      if Which(x.kind) == 0 then PairsWith(Gone(n, With(keys, x, 0), v), x, 0)
      else PairsWith(Gone(n, With(keys, x, 1), u), x, 1)
    }

    lemma DroppedIs(n: Nodes, keys: set<Pair>, x: XNode)
      requires Forest(n)
      ensures Which(x.kind) == 0 ==>
        Dropped(n, keys, x) == PairsWith(Gone(n, With(keys, x, 0), v), x, 0) && (x, v) == PairOf(v, x, 0)
      ensures Which(x.kind) != 0 ==>
        Dropped(n, keys, x) == PairsWith(Gone(n, With(keys, x, 1), u), x, 1) && (u, x) == PairOf(u, x, 1)
    {
    }

    /** x leaves its parent's list; its children still point to it. */
    method LeaveParent(x: XNode)
      requires x in live && (x.parent == null || x.parent in live)
      modifies x`parent, live`children, live`nrChild
      ensures Nodes() == Orphaned(old(Nodes()), x)
    {
      hide H, Nodes, Unlinking;
      Parts();
      At(x);
      Leave(x, x.parent);
      PutParent(x, null);
    }

    /** The children of x go to the top, one after the other. */
    method HandChildren(x: XNode, top: XNode)
      requires x in live && top in live && Family(Nodes(), x, top)
      modifies live`parent, live`children, live`nrChild
      ensures Nodes() == SetAll(old(Nodes()), old(x.children), top)
    {
      hide *;
      ghost var n, cs, i := Nodes(), x.children, 0;
      At(x);
      NoneHanded(n, cs, top);
      HandedSoFar(n, x, 0, top);
      while x.children != []
        invariant i <= |cs| && Nodes() == SetAll(n, cs[..i], top) && x.children == cs[i..] && cs == n[x].children
        invariant Family(n, x, top) && live == old(live)
        decreases |x.children|
      {
        var c := x.children[0];
        HandedSoFar(n, x, i, top);
        At(c);
        At(top);
        XSetParent(c, top);
        OneHanded(n, cs, i, top);
        i := i + 1;
        HandedSoFar(n, x, i, top);
        At(x);
      }
      assert cs[..i] == cs;
    }

    lemma DetachReady(x: XNode)
      requires Tree(H()) && x in live && !IsTop(x.kind)
      ensures x.parent in live && x.parent != x && u in live && v in live
      ensures var n, top := Nodes(), if Which(x.kind) == 0 then u else v;
        x in n && n[x].children == x.children && n[x].kind == x.kind && n[x].name == x.name &&
        Universe(H(), x.kind) == top
        && Family(Orphaned(n, x), x, top) && Orphaned(n, x)[x].children == x.children
    {
      OrphanFamily(H(), x);
      assert Linked(Nodes(), x);
    }

    /** x is no longer found, and no longer there. */
    method Unlist(x: XNode)
      requires x in live
      modifies `names, `live
      ensures H() == old(H()).(nodes := old(Nodes()) - {x}, names := old(names) - {(x.kind, x.name)})
    {
      names := names - {(x.kind, x.name)};
      live := live - {x};
      SameNodes(Nodes(), old(Nodes()) - {x});
    }

    /** The trees' part of x_destroy. */
    method Detach(x: XNode)
      requires Tree(H()) && x in live && !IsTop(x.kind)
      modifies `names, `live, live`parent, live`children, live`nrChild
      ensures H() == Destroyed(old(H()), x)
    {
      hide *;
      DetachReady(x);
      Parts();
      At(x);
      DestroyedIs(H(), x);
      LeaveParent(x);
      At(x);
      HandChildren(x, if Which(x.kind) == 0 then u else v);
      Unlist(x);
      Parts();
    }

    /** x_destroy of a node below the top. */
    method XDestroy(x: XNode, ghost n: Nodes)
      requires Keyed() && Forest(n) && u in n && v in n && Shows(n) && nrK == |table|
      requires Tree(H()) && x in live && !IsTop(x.kind)
      modifies `names, `live, `table, `nrK, live`parent, live`children, live`nrChild
      ensures Keyed() && nrK == |table| && table == old(table) - Dropped(n, old(table).Keys, x)
      ensures H() == Destroyed(old(H()), x)
    {
      hide *;
      DropPairs(x, n);
      Detach(x);
    }

    /** Dropping pairs from the table leaves the flows of the others alone. */
    twostate lemma FlowsLeft(j: XNode)
      requires old(nrK) == |old(table)| && nrK == |table|
      requires table == old(table) - set k | k in old(table).Keys && k.0 == j
      requires forall k :: k in table ==> table[k].flow == old(table[k].flow)
      ensures Forget(old(S()), j) == old(S()).(flows := Flows(), nrK := nrK)
    {
      ghost var f := old(Flows());
      assert f.Keys == old(table).Keys && |f| == |f.Keys| && |old(table)| == |old(table).Keys|;
      ForgetSize(old(S()), j);
      Parts();
      assert Flows() == Forget(old(S()), j).flows;
    }

    /** x_destroy of an empty job: its pairs, its place and its name go. */
    method ReapJob(j: XNode, ghost n: Nodes)
      requires Keyed() && Forest(n) && u in n && v in n && Shows(n) && nrK == |table|
      requires Gone(n, With(table.Keys, j, 0), v) == With(table.Keys, j, 0)
      requires Tree(H()) && j in live && j.kind == Job && j.children == [] && j.parent != j
      modifies `names, `live, `table, `nrK, live`parent, live`children, live`nrChild
      ensures S() == Forget(old(S()), j).(h := Remove(old(H()), j)) && Keyed() && live <= old(live)
    {
      KindOfJob();
      hide *;
      Parts();
      At(j);
      AllOfConsumer(table.Keys, j);
      DroppedIs(n, table.Keys, j);
      DestroyedChildless(H(), j);
      RemoveDrops(H(), j);
      XDestroy(j, n);
      FlowsLeft(j);
      Parts();
    }

    lemma KindOfJob()
      ensures !IsTop(Job) && Which(Job) == 0
    {
    }

    method SetZombie(j: XNode, armed: bool)
      requires j in live && Keyed()
      modifies j`zombie
      ensures S() == old(S()).(h := Marked(old(H()), j, armed)) && Keyed()
    {
      j.zombie := armed;
      SameNodes(Nodes(), Marked(old(H()), j, armed).nodes);
      TableKept();
    }

    lemma ZombieReady(j: XNode)
      requires Valid() && j in live && j.kind == Job
      ensures Tree(H()) && IsKind(H().nodes, j, Job) && Keyed() && nrK == |table| && Flows().Keys == table.Keys
      ensures Forest(Nodes()) && Nodes().Keys == live && Shows(Nodes()) && u in live && v in live
      ensures Gone(Nodes(), With(table.Keys, j, 0), v) == With(table.Keys, j, 0)
      ensures j.parent in live && j.parent != j && j.nrChild == |j.children|
      ensures Tree(Marked(H(), j, false))
    {
      Parts();
      assert Flows().Keys == table.Keys;
      assert Linked(Nodes(), j);
      DestroyGetsAll(S(), j);
      MarksKeepTree(H(), j, H().nodes[j].(zombie := false));
    }

    /** job_zombie_cb; libev has stopped the one-shot timer when it calls back. */
    method JobZombie(j: XNode)
      requires Valid() && j in live && j.kind == Job && j.zombie
      modifies `names, `live, `table, `nrK, j`zombie, live`parent, live`children, live`nrChild
      ensures Keyed() && S() == ZombieFires(old(S()), j)
      ensures live <= old(live)
    {
      hide *;
      ZombieReady(j);
      Parts();
      At(j);
      ghost var s := S();
      SetZombie(j, false);
      ZombieUnfolds(s, j);
      Parts();
      if j.fake {
        return;
      }
      if j.nrChild > 0 {
        SetZombie(j, true);
        Parts();
        return;
      }
      ReapJob(j, s.h.nodes);
      Parts();
    }

    // ---------- the callbacks, as steps of the machine ----------

    ghost predicate Stepped(s: Sys, e: Step)
      reads *
    {
      Inv(s) && Enabled(s, e) && S() == Next(s, e) && Valid()
    }

    lemma SteppedMeans(s: Sys, e: Step)
      ensures Stepped(s, e) ==> Inv(s) && Enabled(s, e) && S() == Next(s, e) && Keyed()
      ensures Inv(s) && Enabled(s, e) && S() == Next(s, e) && Keyed() ==> Stepped(s, e)
      ensures Stepped(s, e) ==> Valid()
    {
      if Inv(s) && Enabled(s, e) {
        StepKeepsInv(s, e);
      }
      hide Inv, Enabled, Next, Keyed;
    }

    lemma Arrive(s: Sys, e: Step)
      requires Inv(s) && Leads(s, e, S()) && Keyed()
      ensures Stepped(s, e)
    {
      StepKeepsInv(s, e);
    }

    lemma Ready(kind: Kind, name: string)
      requires Valid()
      ensures Inv(S()) && Keyed() && Found(kind, name) && Hangs(name)
      ensures u in live && v in live && v.kind == V && v != u
    {
      FoundAll(kind, name);
      HostHangs(name);
    }

    method AddCluster(name: string, junk: bool) returns (c: XNode, ghost nj: XNode)
      requires Valid()
      modifies `names, `live, `ever, live`children, live`nrChild, live`idle, live`fake
      ensures Stepped(old(S()), Step.AddCluster(name, c, nj, junk))
      ensures fresh(live - old(live))
    {
      hide *;
      Ready(Job, IDLE + name);
      Parts();
      ghost var s := S();
      c, nj := ClusLookup(name, junk);
      Parts();
      Arrive(s, Step.AddCluster(name, c, nj, junk));
    }

    method OnClusLine(c: XNode, host: string, job: string, owner: string, junk: bool)
      returns (ghost nj: XNode, ghost nh: XNode)
      requires Valid() && c in live && c.kind == Clus
      modifies `names, `live, `ever, live`parent, live`children, live`nrChild, live`zombie
      ensures Stepped(old(S()), ClusLine(c, host, job, owner, nj, nh, junk))
      ensures fresh(live - old(live))
    {
      hide *;
      Ready(Job, job);
      Ready(Host, host);
      Parts();
      At(c);
      ghost var s := S();
      nj, nh := ClusMsg(c, host, job, owner, junk);
      Parts();
      Arrive(s, ClusLine(c, host, job, owner, nj, nh, junk));
    }

    method OnServLine(serv: XNode, host: string, reading: Reading, at: real) returns (ghost nh: XNode)
      requires Valid() && serv in live && serv.kind == Serv && 0.0 < at && now <= at
      modifies `names, `live, `ever, live`children, live`nrChild, `table, `nrK, `pool, pool`flow, `now, `log
      ensures Stepped(old(S()), ServLine(serv, host, reading, at, nh))
      ensures fresh(live - old(live)) && fresh(pool - old(pool))
    {
      hide *;
      Ready(Host, host);
      Parts();
      At(serv);
      ghost var s := S();
      nh := ServMsg(serv, host, reading, at);
      Arrive(s, ServLine(serv, host, reading, at, nh));
    }

    method OnZombie(j: XNode)
      requires Valid() && j in live && j.kind == Job && j.zombie
      modifies `names, `live, `table, `nrK, j`zombie, live`parent, live`children, live`nrChild
      ensures Stepped(old(S()), Zombie(j))
      ensures live <= old(live)
    {
      hide *;
      Ready(Job, "");
      Parts();
      At(j);
      ghost var s := S();
      JobZombie(j);
      Arrive(s, Zombie(j));
    }

    method AddDomain(domain: string, c: XNode)
      requires Valid() && c in live && c.kind == Clus
      modifies `domains
      ensures Stepped(old(S()), Step.AddDomain(domain, c))
    {
      hide *;
      Ready(Clus, "");
      Parts();
      At(c);
      ghost var s := S();
      ClusAddDomain(c, domain);
      TableKept();
      Parts();
      Arrive(s, Step.AddDomain(domain, c));
    }

    method AddFs(name: string) returns (x: XNode)
      requires Valid()
      modifies `names, `live, `ever, live`children, live`nrChild
      ensures Stepped(old(S()), Step.AddFs(name, x))
      ensures fresh(live - old(live))
    {
      hide *;
      Ready(Fs, name);
      Parts();
      ghost var s := S();
      x := XLookup(Fs, name, v, "", false);
      TableKept();
      Parts();
      Arrive(s, Step.AddFs(name, x));
    }

    /** x_host_lookup with L_CREATE and no parent, as lnet_read calls it. */
    method AddHost(name: string) returns (x: XNode)
      requires Valid()
      modifies `names, `live, `ever, live`children, live`nrChild
      ensures Stepped(old(S()), Step.AddHost(name, x))
      ensures x in live && x.kind == Host && fresh(live - old(live)) && old(live) <= live
      ensures HostLookup(old(S()).h, name, x).1 == x
    {
      hide *;
      Ready(Host, name);
      HostReady(name);
      Parts();
      ghost var s := S();
      x := ServHost(name);
      Arrive(s, Step.AddHost(name, x));
    }

    /** serv_create */
    method AddServ(name: string, fs: XNode) returns (x: XNode)
      requires Valid() && fs in live && fs.kind == Fs
      modifies `names, `live, `ever, live`children, live`nrChild
      ensures Stepped(old(S()), Step.AddServ(name, fs, x))
      ensures fresh(live - old(live))
    {
      hide *;
      Ready(Serv, name);
      Parts();
      At(fs);
      ghost var s := S();
      x := XLookup(Serv, name, fs, "", false);
      TableKept();
      Parts();
      Arrive(s, Step.AddServ(name, fs, x));
    }
  }
}
