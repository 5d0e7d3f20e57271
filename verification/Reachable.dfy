/** What holds in every state xltop-master can reach. `Inv` is kept by every step (Machine.StepKeepsInv) and holds at
    the start, so each lemma about a state with `Inv` is a statement about all runs. */
module Reachable {
  import opened Basics
  import opened Ewma
  import opened Accounting
  import opened XNodes
  import opened Hierarchy
  import opened FlowTable
  import opened Machine

  // ---------- the table is an index over the log ----------

  ghost predicate Covered(log: seq<Entry>, a: XNode, b: XNode) {
    exists i :: 0 <= i < |log| && Covers(log[i], a, b)
  }

  /** The sum of statistic `i` over the reports that cover (a, b). */
  ghost function LogSum(log: seq<Entry>, a: XNode, b: XNode, i: nat): real
    requires i < NR_STATS
  {
    if log == [] then 0.0
    else
      var e := log[|log| - 1];
      LogSum(log[..|log| - 1], a, b, i) + if Covers(e, a, b) then e.d[i] else 0.0
  }

  lemma {:induction false} SubMeaning(log: seq<Entry>, a: XNode, b: XNode)
    ensures Sub(log, a, b) != [] <==> Covered(log, a, b)
    ensures forall i: nat :: i < NR_STATS ==> Total(Sub(log, a, b), i) == LogSum(log, a, b, i)
  {
    if log != [] {
      var n := |log| - 1;
      SubMeaning(log[..n], a, b);
      forall i: nat | i < NR_STATS ensures Total(Sub(log, a, b), i) == LogSum(log, a, b, i) {
        if Covers(log[n], a, b) {
          TotalExtends(Sub(log[..n], a, b), Event.Report(log[n].at, log[n].d), i);
        }
      }
      if Covered(log[..n], a, b) {
        var i :| 0 <= i < n && Covers(log[..n][i], a, b);
        assert Covers(log[i], a, b);
      }
      if Covered(log, a, b) && !Covers(log[n], a, b) {
        var i :| 0 <= i < |log| && Covers(log[i], a, b);
        assert log[..n][i] == log[i];
      }
    }
  }

  /** After any run, moves and reapings included: a live pair is tracked iff some report covered it, and its sums are
      exactly the sums of those reports. */
  lemma IndexOverLog(p: Params, u: XNode, v: XNode, c: XNode, j: XNode, es: seq<Step>, a: XNode, b: XNode)
    requires u != v && u != c && u != j && v != c && v != j && c != j
    requires Inv(Start(p, u, v, c, j)) && Legal(Start(p, u, v, c, j), es)
    requires var s := After(Start(p, u, v, c, j), es); Side(s.h.nodes, a, 0) && Side(s.h.nodes, b, 1)
    ensures var s := After(Start(p, u, v, c, j), es);
      && ((a, b) in s.flows <==> Covered(s.log, a, b))
      && forall i: nat :: i < NR_STATS ==> Get(s.flows, (a, b)).sum[i] == LogSum(s.log, a, b, i)
  {
    TrackedSum(After(Start(p, u, v, c, j), es), a, b);
  }

  lemma TrackedSum(s: Sys, a: XNode, b: XNode)
    requires Inv(s) && Side(s.h.nodes, a, 0) && Side(s.h.nodes, b, 1)
    ensures (a, b) in s.flows <==> Covered(s.log, a, b)
    ensures forall i: nat :: i < NR_STATS ==> Get(s.flows, (a, b)).sum[i] == LogSum(s.log, a, b, i)
  {
    assert Indexed(s, a, b);
    SubMeaning(s.log, a, b);
    if Sub(s.log, a, b) == [] {
      assert forall i: nat :: i < NR_STATS ==> Total([], i) == 0.0;
    }
  }

  /** With non-negative reports, a tracked pair freshened at any later time shows the eager accountant's books for
      the reports that cover it, whatever reads, moves and reapings happened in between. */
  lemma FlowIsEager(s: Sys, a: XNode, b: XNode, now: real)
    requires Inv(s) && LogNonNegative(s.log) && (a, b) in s.flows && s.now <= now
    ensures var es := Sub(s.log, a, b);
      && es != [] && Ticks(s.p, es[0].at, now) >= 0
      && Freshen(s.p, s.flows[(a, b)], now) == Eager(s.p, es, now)
  {
    assert Indexed(s, a, b);
    var es := Sub(s.log, a, b);
    SubOrdered(s.log, a, b, s.now);
    LazyIsEager(s.p, es, now);
  }

  /** In every reachable state the rate a tracked pair shows at any later time lies between zero and the largest
      per-tick rate `top` that the reports covering it ever gave. */
  lemma FlowRateBounds(s: Sys, a: XNode, b: XNode, now: real, i: nat, top: real)
    requires Inv(s) && LogNonNegative(s.log) && (a, b) in s.flows && s.now <= now && i < NR_STATS && 0.0 <= top
    requires var es := Sub(s.log, a, b);
      es != [] ==>
        forall j :: 0 <= j < Ticks(s.p, es[0].at, now) ==> Bucket(s.p, es[0].at, es, i, j) <= top * s.p.tick
    ensures 0.0 <= Freshen(s.p, s.flows[(a, b)], now).rate[i] <= top
  {
    var es := Sub(s.log, a, b);
    hide *;
    FlowIsEager(s, a, b, now);
    SubTimely(s, a, b);
    LazyIsEager(s.p, es, now);
    RateBounds(s.p, es, now, i, top);
  }

  lemma SubTimely(s: Sys, a: XNode, b: XNode)
    requires Inv(s) && LogNonNegative(s.log)
    ensures var es := Sub(s.log, a, b);
      Timely(es) && AllNonNegative(es) && (es != [] ==> es[|es| - 1].at <= s.now)
  {
    SubOrdered(s.log, a, b, s.now);
    hide Indexed;
  }

  lemma {:induction false} SubOrdered(log: seq<Entry>, a: XNode, b: XNode, now: real)
    requires forall i :: 0 <= i < |log| ==> 0.0 < log[i].at <= now
    requires forall i, j :: 0 <= i < j < |log| ==> log[i].at <= log[j].at
    requires LogNonNegative(log)
    ensures Timely(Sub(log, a, b)) && AllNonNegative(Sub(log, a, b))
    ensures forall k :: 0 <= k < |Sub(log, a, b)| ==> 0.0 < Sub(log, a, b)[k].at <= now
  {
    if log != [] {
      var n := |log| - 1;
      SubOrdered(log[..n], a, b, log[n].at);
    }
  }

  // ---------- nothing dangles ----------

  lemma CoveringEntry(s: Sys, a: XNode, b: XNode) returns (i: nat)
    requires Inv(s) && (a, b) in s.flows
    ensures i < |s.log| && Covers(s.log[i], a, b) && EntryOk(s.h, s.log[i])
  {
    TrackedSum(s, a, b);
    i :| 0 <= i < |s.log| && Covers(s.log[i], a, b);
  }

  /** A tracked pair's provider ancestors are tracked with the same consumer. */
  lemma TrackedAbove1(s: Sys, a: XNode, b: XNode)
    requires Inv(s) && (a, b) in s.flows && s.h.nodes[b].kind != V
    ensures (a, s.h.nodes[b].parent) in s.flows
  {
    var i := CoveringEntry(s, a, b);
    var e := s.log[i];
    assert Linked(s.h.nodes, b);
    assert Covers(e, a, s.h.nodes[b].parent) by {
      assert Linked(s.h.nodes, e.chain1[1]);
      assert OneTop(s.h, s.h.nodes[e.chain1[1]].parent);
      assert b == e.chain1[0] || b == e.chain1[1];
    }
    TrackedSum(s, a, s.h.nodes[b].parent);
  }

  /** Jobs and clusters never move, so from job level up the same holds on the consumer side. */
  lemma TrackedAbove0(s: Sys, a: XNode, b: XNode)
    requires Inv(s) && (a, b) in s.flows && s.h.nodes[a].kind != Host && s.h.nodes[a].kind != U
    ensures (s.h.nodes[a].parent, b) in s.flows
  {
    var i := CoveringEntry(s, a, b);
    var e := s.log[i];
    assert Linked(s.h.nodes, a);
    assert Covers(e, s.h.nodes[a].parent, b) by {
      assert Linked(s.h.nodes, e.chain0[2]);
      assert OneTop(s.h, s.h.nodes[e.chain0[2]].parent);
      assert a == e.chain0[1] || a == e.chain0[2];
    }
    TrackedSum(s, s.h.nodes[a].parent, b);
  }

  lemma LookupNamed(h: Hier, x: XNode, node: Node)
    requires Tree(h) && CanLookup(h, x, node)
    ensures var (h', y) := Lookup(h, x, node);
      && (forall k :: k in h.names ==> k in h'.names && h'.names[k] == h.names[k])
      && (node.kind, node.name) in h'.names && h'.names[(node.kind, node.name)] == y
      && ((node.kind, node.name) !in h.names ==> y == x)
  {
  }

  lemma MoveHostParent(n: Nodes, x: XNode, j: XNode)
    requires Forest(n) && IsKind(n, x, Host) && IsKind(n, j, Job)
    ensures n[x].parent in n && x in MoveHost(n, x, j) && MoveHost(n, x, j)[x].parent == j
  {
    assert Linked(n, x);
  }

  lemma ParentAfterMove(h: Hier, c: XNode, host: string, job: string, owner: string, nj: XNode, nh: XNode, junk: bool)
    requires Tree(h) && IsKind(h.nodes, c, Clus) && SpareLine(h, host, job, nj, nh)
    ensures var h' := ClusMessage(h, c, host, job, owner, nj, nh, junk);
      && (Host, host) in h'.names && (Job, job) in h'.names && h'.names[(Host, host)] in h'.nodes
      && h'.nodes[h'.names[(Host, host)]].parent == h'.names[(Job, job)]
      && ((Job, job) !in h.names ==> h'.names[(Job, job)] == nj)
  {
    var node := NewNode(Job, job, c, owner, junk);
    LineNodesTree(h, c, host, job, owner, nj, nh, junk);
    var (h1, j) := Lookup(h, nj, node);
    LookupNamed(h, nj, node);
    var (h2, x) := Lookup(h1, nh, NewNode(Host, host, j, "", false));
    LookupNamed(h1, nh, NewNode(Host, host, j, "", false));
    MoveHostParent(h2.nodes, x, j);
  }

  /** A host, however, does: right after it moves to a job that did not exist, the job has no tracked pairs at all,
      although the host keeps all of its own. */
  lemma MovedHostUntrackedAbove(s: Sys, e: Step, b: XNode)
    requires Inv(s) && e.ClusLine? && Enabled(s, e) && (Job, e.job) !in s.h.names
    ensures var s' := Next(s, e);
      && (Host, e.host) in s'.h.names && s'.h.names[(Host, e.host)] in s'.h.nodes
      && s'.h.nodes[s'.h.names[(Host, e.host)]].parent == e.nj
      && (e.nj, b) !in s'.flows && s'.flows == s.flows
  {
    ParentAfterMove(s.h, e.clus, e.host, e.job, e.owner, e.nj, e.nh, e.junk);
  }

  // ---------- what is freed ----------

  lemma GoneWithoutGrowth(h: Hier, h': Hier, x: XNode)
    requires Grows(h, h') && x in h.nodes
    ensures x in h'.nodes
  {
    assert Kept(h.nodes, h'.nodes, x);
  }

  /** The only nodes a run ever frees are jobs whose timer fires while they have no hosts; a cluster's idle job is never
      among them. */
  lemma OnlyEmptyJobsGo(s: Sys, e: Step, x: XNode)
    requires Inv(s) && Enabled(s, e) && x in s.h.nodes
    ensures x !in Next(s, e).h.nodes <==>
      e == Zombie(x) && s.h.nodes[x].kind == Job && s.h.nodes[x].children == [] && !s.h.nodes[x].fake
    ensures x !in Next(s, e).h.nodes ==>
      forall c :: c in s.h.nodes && s.h.nodes[c].kind == Clus ==> s.h.nodes[c].idle != x
  {
    var h, h' := s.h, Next(s, e).h;
    match e
    case AddCluster(name, c, nj, junk) =>
      AddClusGrows(h, name, c, nj, junk);
      GoneWithoutGrowth(h, h', x);
    case AddDomain(_, _) =>
    case AddFs(_, _) =>
    case AddServ(_, _, _) =>
    case AddHost(host, nh) =>
      HostLookupGrows(h, host, nh);
      GoneWithoutGrowth(h, h', x);
    case ServLine(_, host, _, _, nh) =>
      HostLookupGrows(h, host, nh);
      GoneWithoutGrowth(h, HostLookup(h, host, nh).0, x);
    case ClusLine(clus, host, job, owner, nj, nh, junk) =>
      ClusMessageGrows(h, clus, host, job, owner, nj, nh, junk);
      GoneWithoutGrowth(h, h', x);
    case Zombie(j) =>
      ZombieLifecycle(h, j);
      if x != j {
        ZombieOthersStay(h, j, x);
      }
      assert forall c :: c in h.nodes && h.nodes[c].kind == Clus ==> HasIdle(h.nodes, c);
    case Query(_, _) =>
  }

  lemma ZombieOthersStay(h: Hier, j: XNode, x: XNode)
    requires Tree(h) && IsKind(h.nodes, j, Job) && x in h.nodes && x != j
    ensures x in ZombieHier(h, j).nodes
  {
    assert Linked(h.nodes, j);
    if !h.nodes[j].fake && h.nodes[j].nrChild == 0 {
      RemoveTree(h, j);
    }
  }

  /** Names of anything but jobs go on leading where they led. */
  ghost predicate NamesKept(h: Hier, h': Hier) {
    forall k :: k in h.names && k.0 != Job ==> k in h'.names && h'.names[k] == h.names[k]
  }

  lemma LookupNames(h: Hier, x: XNode, node: Node)
    ensures NamesKept(h, Lookup(h, x, node).0)
  {
    hide Linking;
  }

  lemma HostLookupNames(h: Hier, name: string, x: XNode)
    ensures NamesKept(h, HostLookup(h, name, x).0)
  {
    LookupNames(h, x, NewNode(Host, name, IdleOf(h, ClusForHost(h, name)), "", false));
  }

  lemma AddClusNames(h: Hier, name: string, c: XNode, nj: XNode, junk: bool)
    ensures NamesKept(h, AddClus(h, name, c, nj, junk))
  {
    if (Clus, name) !in h.names {
      var s1 := AddNode(h, c, NewNode(Clus, name, h.u, "", false));
      LookupNames(h, c, NewNode(Clus, name, h.u, "", false));
      LookupNames(s1, nj, NewNode(Job, IDLE + name, c, "NONE", junk));
      hide NewNode, Lookup, AddNode, MarkIdle;
    }
  }

  lemma ClusMessageNames(h: Hier, c: XNode, host: string, job: string, owner: string, nj: XNode, nh: XNode, junk: bool)
    ensures NamesKept(h, ClusMessage(h, c, host, job, owner, nj, nh, junk))
  {
    var (s1, j) := Lookup(h, nj, NewNode(Job, job, c, owner, junk));
    LookupNames(h, nj, NewNode(Job, job, c, owner, junk));
    LookupNames(s1, nh, NewNode(Host, host, j, "", false));
    hide NewNode, Lookup, MoveHost;
  }

  lemma ServMessageNames(s: Sys, serv: XNode, host: string, reading: Reading, at: real, x: XNode)
    requires Tree(s.h) && IdleJobs(s.h.nodes) && Spare(s.h, x, Host, host) && serv in s.h.nodes
    ensures NamesKept(s.h, ServMessage(s, serv, host, reading, at, x).h)
  {
    HostLookupTree(s.h, host, x);
    LookupNames(s.h, x, NewNode(Host, host, IdleOf(s.h, ClusForHost(s.h, host)), "", false));
    hide NewNode, Lookup, IdleOf, ClusForHost, Tree, IdleJobs, Chain, Count;
  }

  /** No step makes the name of a host, server, cluster or file system lead elsewhere. */
  lemma NamesStay(s: Sys, e: Step)
    requires Inv(s) && Enabled(s, e)
    ensures NamesKept(s.h, Next(s, e).h)
  {
    hide Tree, IdleJobs, Table, LogOk, Lookup, AddClus, ClusMessage, ServMessage, HostLookup;
    match e
    case AddCluster(name, c, nj, junk) => AddClusNames(s.h, name, c, nj, junk);
    case AddDomain(_, _) =>
    case AddFs(name, x) => LookupNames(s.h, x, NewNode(Fs, name, s.h.v, "", false));
    case AddServ(name, fs, x) => LookupNames(s.h, x, NewNode(Serv, name, fs, "", false));
    case AddHost(name, x) => HostLookupNames(s.h, name, x);
    case ServLine(serv, host, reading, at, x) => ServMessageNames(s, serv, host, reading, at, x);
    case ClusLine(clus, host, job, owner, nj, nh, junk) => ClusMessageNames(s.h, clus, host, job, owner, nj, nh, junk);
    case Zombie(j) =>
    case Query(_, _) =>
  }

  // ---------- conservation ----------

  /** The sum of statistic `i` over all reports to provider `b`. */
  ghost function ProviderSum(log: seq<Entry>, b: XNode, i: nat): real
    requires i < NR_STATS
  {
    if log == [] then 0.0
    else
      var e := log[|log| - 1];
      ProviderSum(log[..|log| - 1], b, i) + if b in e.chain1 then e.d[i] else 0.0
  }

  ghost function SumOver(s: Sys, xs: seq<XNode>, b: XNode, i: nat): real
    requires i < NR_STATS
  {
    if xs == [] then 0.0 else Get(s.flows, (xs[0], b)).sum[i] + SumOver(s, xs[1..], b, i)
  }

  ghost function LogSumOver(log: seq<Entry>, xs: seq<XNode>, b: XNode, i: nat): real
    requires i < NR_STATS
  {
    if xs == [] then 0.0 else LogSum(log, xs[0], b, i) + LogSumOver(log, xs[1..], b, i)
  }

  /** How many of `xs` the chain `c` contains. */
  ghost function Hits(xs: seq<XNode>, c: seq<XNode>): nat {
    if xs == [] then 0 else (if xs[0] in c then 1 else 0) + Hits(xs[1..], c)
  }

  lemma {:induction false} LogSumOverEmpty(xs: seq<XNode>, b: XNode, i: nat)
    requires i < NR_STATS
    ensures LogSumOver([], xs, b, i) == 0.0
  {
    if xs != [] {
      LogSumOverEmpty(xs[1..], b, i);
    }
  }

  lemma OneMoreHit(n: nat, d: real)
    ensures (n + 1) as real * d == n as real * d + d
  {
  }

  lemma LogSumLast(log: seq<Entry>, a: XNode, b: XNode, i: nat)
    requires i < NR_STATS && log != []
    ensures var e := log[|log| - 1];
      LogSum(log, a, b, i) == LogSum(log[..|log| - 1], a, b, i) + if a in e.chain0 && b in e.chain1 then e.d[i] else 0.0
  {
  }

  lemma LogSumOverHead(log: seq<Entry>, xs: seq<XNode>, b: XNode, i: nat)
    requires i < NR_STATS && xs != []
    ensures LogSumOver(log, xs, b, i) == LogSum(log, xs[0], b, i) + LogSumOver(log, xs[1..], b, i)
  {
  }

  lemma HitsHead(xs: seq<XNode>, c: seq<XNode>)
    ensures xs == [] ==> Hits(xs, c) == 0
    ensures xs != [] ==> Hits(xs, c) == (if xs[0] in c then 1 else 0) + Hits(xs[1..], c)
  {
  }

  lemma LogSumOverNone(log: seq<Entry>, b: XNode, i: nat)
    requires i < NR_STATS
    ensures LogSumOver(log, [], b, i) == 0.0
  {
  }

  lemma {:induction false} LogSumOverExtends(log: seq<Entry>, xs: seq<XNode>, b: XNode, i: nat)
    requires i < NR_STATS && log != []
    ensures var e := log[|log| - 1];
      LogSumOver(log, xs, b, i) == LogSumOver(log[..|log| - 1], xs, b, i)
                                   + if b in e.chain1 then Hits(xs, e.chain0) as real * e.d[i] else 0.0
  {
    hide *;
    var e, before := log[|log| - 1], log[..|log| - 1];
    HitsHead(xs, e.chain0);
    if xs == [] {
      LogSumOverNone(log, b, i);
      LogSumOverNone(before, b, i);
    } else {
      LogSumOverExtends(log, xs[1..], b, i);
      OneMoreHit(Hits(xs[1..], e.chain0), e.d[i]);
      LogSumOverHead(log, xs, b, i);
      LogSumOverHead(before, xs, b, i);
      LogSumLast(log, xs[0], b, i);
    }
  }

  /** If every chain meets `xs` exactly once, the pairs (x, b) with x in `xs` share out the provider's total. */
  lemma {:induction false} CutSum(log: seq<Entry>, xs: seq<XNode>, b: XNode, i: nat)
    requires i < NR_STATS
    requires forall k :: 0 <= k < |log| ==> Hits(xs, log[k].chain0) == 1
    ensures LogSumOver(log, xs, b, i) == ProviderSum(log, b, i)
  {
    if log == [] {
      LogSumOverEmpty(xs, b, i);
    } else {
      CutSum(log[..|log| - 1], xs, b, i);
      LogSumOverExtends(log, xs, b, i);
    }
  }

  lemma {:induction false} SumOverIsLogSumOver(s: Sys, xs: seq<XNode>, b: XNode, i: nat)
    requires Inv(s) && i < NR_STATS && Side(s.h.nodes, b, 1)
    requires forall k :: 0 <= k < |xs| ==> Side(s.h.nodes, xs[k], 0)
    ensures SumOver(s, xs, b, i) == LogSumOver(s.log, xs, b, i)
  {
    if xs != [] {
      TrackedSum(s, xs[0], b);
      SumOverIsLogSumOver(s, xs[1..], b, i);
    }
  }

  /** `xs` lists the live nodes of kind `k`, each once. */
  ghost predicate Lists(h: Hier, xs: seq<XNode>, k: Kind) {
    && NoDups(xs)
    && (forall i :: 0 <= i < |xs| ==> IsKind(h.nodes, xs[i], k))
    && (forall x :: x in h.nodes && h.nodes[x].kind == k ==> x in xs)
  }

  lemma UniverseListed(h: Hier)
    requires Tree(h)
    ensures Lists(h, [h.u], U)
  {
    forall x | x in h.nodes && h.nodes[x].kind == U ensures x in [h.u] {
      assert OneTop(h, x);
    }
  }

  lemma {:induction false} HitsNone(xs: seq<XNode>, c: seq<XNode>)
    requires forall i :: 0 <= i < |xs| ==> xs[i] !in c
    ensures Hits(xs, c) == 0
  {
    if xs != [] {
      HitsNone(xs[1..], c);
    }
  }

  lemma {:induction false} HitsOnce(xs: seq<XNode>, c: seq<XNode>, j: nat)
    requires NoDups(xs) && j < |xs| && xs[j] in c
    requires forall i :: 0 <= i < |xs| && xs[i] in c ==> xs[i] == xs[j]
    ensures Hits(xs, c) == 1
  {
    if j == 0 {
      HitsNone(xs[1..], c);
    } else {
      HitsOnce(xs[1..], c, j - 1);
    }
  }

  /** A logged chain meets the live hosts, the live clusters and the universe exactly once each. */
  lemma ChainMeetsOnce(h: Hier, e: Entry, xs: seq<XNode>, k: Kind)
    requires Tree(h) && EntryOk(h, e) && Lists(h, xs, k) && k in {Host, Clus, U}
    ensures Hits(xs, e.chain0) == 1
  {
    var at := match k case Host => 0 case Clus => 2 case _ => 3;
    var y := e.chain0[at];
    assert IsKind(h.nodes, y, k);
    var j :| 0 <= j < |xs| && xs[j] == y;
    forall i | 0 <= i < |xs| && xs[i] in e.chain0 ensures xs[i] == y {
      var m :| 0 <= m < 4 && e.chain0[m] == xs[i];
    }
    HitsOnce(xs, e.chain0, j);
  }

  /** In every reachable state, for every provider: all hosts together, all clusters together and the universe have
      the same sum, the total of all reports to that provider. */
  lemma Conservation(s: Sys, xs: seq<XNode>, k: Kind, b: XNode, i: nat)
    requires Inv(s) && i < NR_STATS && Side(s.h.nodes, b, 1)
    requires Lists(s.h, xs, k) && k in {Host, Clus, U}
    ensures SumOver(s, xs, b, i) == ProviderSum(s.log, b, i) == Get(s.flows, (s.h.u, b)).sum[i]
  {
    ListedSum(s, xs, k, b, i);
    UniverseListed(s.h);
    ListedSum(s, [s.h.u], U, b, i);
    assert SumOver(s, [s.h.u][1..], b, i) == 0.0;
  }

  lemma ListedSum(s: Sys, xs: seq<XNode>, k: Kind, b: XNode, i: nat)
    requires Inv(s) && i < NR_STATS && Side(s.h.nodes, b, 1)
    requires Lists(s.h, xs, k) && k in {Host, Clus, U}
    ensures SumOver(s, xs, b, i) == ProviderSum(s.log, b, i)
  {
    forall j | 0 <= j < |s.log| ensures Hits(xs, s.log[j].chain0) == 1 {
      ChainMeetsOnce(s.h, s.log[j], xs, k);
    }
    CutSum(s.log, xs, b, i);
    SumOverIsLogSumOver(s, xs, b, i);
  }

  ghost function GrandTotal(log: seq<Entry>, i: nat): real
    requires i < NR_STATS
  {
    if log == [] then 0.0 else GrandTotal(log[..|log| - 1], i) + log[|log| - 1].d[i]
  }

  lemma {:induction false} ProviderSumAtTop(h: Hier, log: seq<Entry>, i: nat)
    requires i < NR_STATS && forall k :: 0 <= k < |log| ==> EntryOk(h, log[k])
    ensures ProviderSum(log, h.v, i) == GrandTotal(log, i)
  {
    if log != [] {
      ProviderSumAtTop(h, log[..|log| - 1], i);
      assert EntryOk(h, log[|log| - 1]);
    }
  }

  /** The pair of the two universes has counted every report. */
  lemma UniverseCountsAll(s: Sys, i: nat)
    requires Inv(s) && i < NR_STATS
    ensures Get(s.flows, (s.h.u, s.h.v)).sum[i] == GrandTotal(s.log, i)
  {
    UniverseListed(s.h);
    Conservation(s, [s.h.u], U, s.h.v, i);
    ProviderSumAtTop(s.h, s.log, i);
  }

  // ---------- reads are invisible ----------

  function Erase(es: seq<Step>): seq<Step> {
    if es == [] then [] else (if es[0].Query? then [] else [es[0]]) + Erase(es[1..])
  }

  /** The two states differ at most in how fresh their flows are. */
  ghost predicate Alike(s: Sys, t: Sys) {
    && s.p == t.p && s.h == t.h && s.log == t.log && s.nrK == t.nrK
    && s.flows.Keys == t.flows.Keys && t.now <= s.now
  }

  lemma AlikeReport(s: Sys, t: Sys, x0: XNode, x1: XNode, now: real, d: Stats)
    requires Alike(s, t) && Forest(s.h.nodes) && x0 in s.h.nodes && x1 in s.h.nodes
    ensures Alike(RecordReport(s, x0, x1, now, d), RecordReport(t, x0, x1, now, d))
  {
    var c0, c1 := Chain(s.h.nodes, x0), Chain(s.h.nodes, x1);
    assert Count(s.p, s.flows, Pairs(c0, c1), now, d).Keys == s.flows.Keys + Pairs(c0, c1);
    assert Count(t.p, t.flows, Pairs(c0, c1), now, d).Keys == t.flows.Keys + Pairs(c0, c1);
  }

  lemma AlikeServMessage(s: Sys, t: Sys, e: Step)
    requires Alike(s, t) && e.ServLine? && Enabled(s, e) && Tree(s.h) && IdleJobs(s.h.nodes)
    ensures Alike(ServMessage(s, e.serv, e.host, e.reading, e.at, e.x),
                  ServMessage(t, e.serv, e.host, e.reading, e.at, e.x))
  {
    if e.reading.Numbers? {
      HostLookupTree(s.h, e.host, e.x);
      var (h', x0) := HostLookup(s.h, e.host, e.x);
      AlikeReport(s.(h := h', now := e.at), t.(h := h', now := e.at), x0, e.serv, e.at, e.reading.d);
    }
  }

  lemma AlikeForget(s: Sys, t: Sys, j: XNode)
    requires Alike(s, t)
    ensures Alike(Forget(s, j), Forget(t, j))
  {
    assert Forget(s, j).flows.Keys == set k | k in s.flows.Keys && k.0 != j;
    assert Forget(t, j).flows.Keys == set k | k in s.flows.Keys && k.0 != j;
    assert (set k | k in s.flows && k.0 == j) == (set k | k in t.flows && k.0 == j);
  }

  lemma AlikeHier(s: Sys, t: Sys, h: Hier)
    requires Alike(s, t)
    ensures Alike(s.(h := h), t.(h := h))
  {
  }

  lemma AlikeQuery(s: Sys, t: Sys, ks: set<Pair>, at: real)
    requires Alike(s, t) && s.now <= at
    ensures Alike(Touch(s, ks, at), t)
  {
    assert Touch(s, ks, at).flows.Keys == s.flows.Keys;
  }

  lemma AlikeZombie(s: Sys, t: Sys, j: XNode)
    requires Alike(s, t) && j in s.h.nodes
    ensures Alike(ZombieFires(s, j), ZombieFires(t, j))
  {
    AlikeForget(s, t, j);
  }

  lemma AlikeStep(s: Sys, t: Sys, e: Step)
    requires Inv(s) && Inv(t) && Alike(s, t) && Enabled(s, e)
    ensures e.Query? ==> Alike(Next(s, e), t)
    ensures !e.Query? ==> Enabled(t, e) && Alike(Next(s, e), Next(t, e))
  {
    assert Tree(s.h) && IdleJobs(s.h.nodes) && s.h == t.h && t.now <= s.now;
    hide Inv, Tree, IdleJobs, AddClus, Lookup, ClusMessage, ServMessage, ZombieFires, Touch, Alike;
    match e
    case AddCluster(_, _, _, _) => AlikeHier(s, t, Next(s, e).h);
    case AddDomain(_, _) => AlikeHier(s, t, Next(s, e).h);
    case AddFs(_, _) => AlikeHier(s, t, Next(s, e).h);
    case AddServ(_, _, _) => AlikeHier(s, t, Next(s, e).h);
    case AddHost(_, _) => AlikeHier(s, t, Next(s, e).h);
    case ServLine(_, _, _, _, _) => AlikeServMessage(s, t, e);
    case ClusLine(_, _, _, _, _, _, _) => AlikeHier(s, t, Next(s, e).h);
    case Zombie(j) => AlikeZombie(s, t, j);
    case Query(ks, at) => AlikeQuery(s, t, ks, at);
  }

  lemma {:induction false} AlikeRuns(s: Sys, t: Sys, es: seq<Step>)
    requires Inv(s) && Inv(t) && Alike(s, t) && Legal(s, es)
    ensures Legal(t, Erase(es)) && Alike(After(s, es), After(t, Erase(es)))
    decreases |es|
  {
    if es != [] {
      var e := es[0];
      AlikeStep(s, t, e);
      StepKeepsInv(s, e);
      if e.Query? {
        AlikeRuns(Next(s, e), t, es[1..]);
        assert Erase(es) == Erase(es[1..]);
      } else {
        StepKeepsInv(t, e);
        AlikeRuns(Next(s, e), Next(t, e), es[1..]);
        assert Erase(es)[1..] == Erase(es[1..]);
      }
    }
  }

  lemma AlikeFlows(s: Sys, t: Sys, k: Pair)
    requires Inv(s) && Inv(t) && Alike(s, t) && k in s.flows
    ensures s.flows[k].sum == t.flows[k].sum
    ensures LogNonNegative(s.log) ==>
      forall at :: s.now <= at ==> Freshen(s.p, s.flows[k], at) == Freshen(t.p, t.flows[k], at)
  {
    assert k == (k.0, k.1) && Indexed(s, k.0, k.1) && Indexed(t, k.0, k.1);
  }

  /** Erase every query from a run: the run is still possible, hierarchy, table keys, nr_k and every sum are the same,
      and with non-negative reports so is every flow once both are freshened at the same later time. */
  lemma QueriesInvisible(s: Sys, es: seq<Step>)
    requires Inv(s) && Legal(s, es)
    ensures Legal(s, Erase(es))
    ensures var s1, s2 := After(s, es), After(s, Erase(es));
      && s1.h == s2.h && s1.nrK == s2.nrK && s1.flows.Keys == s2.flows.Keys
      && (forall k :: k in s1.flows ==> s1.flows[k].sum == s2.flows[k].sum)
      && (LogNonNegative(s1.log) ==>
            forall k, t :: k in s1.flows && s1.now <= t ==>
              Freshen(s1.p, s1.flows[k], t) == Freshen(s2.p, s2.flows[k], t))
  {
    AlikeRuns(s, s, es);
    var s1, s2 := After(s, es), After(s, Erase(es));
    forall k | k in s1.flows ensures s1.flows[k].sum == s2.flows[k].sum {
      AlikeFlows(s1, s2, k);
    }
    forall k, t | LogNonNegative(s1.log) && k in s1.flows && s1.now <= t
      ensures Freshen(s1.p, s1.flows[k], t) == Freshen(s2.p, s2.flows[k], t)
    {
      AlikeFlows(s1, s2, k);
    }
  }
}
