/** The flow table of xltop-master (k_hash_table, src/x_node.c) and the whole machine around it.

    `log` is history that no step reads: every report together with the ancestor chains in force when it came in. */
module FlowTable {
  import opened Ewma
  import opened Accounting
  import opened XNodes
  import opened Hierarchy

  type Pair = (XNode, XNode)

  datatype Entry = Entry(chain0: seq<XNode>, chain1: seq<XNode>, at: real, d: Stats)

  /** The hierarchy, k_hash_table with nr_k, and the time of the last event. */
  datatype Sys = Sys(p: Params, h: Hier, flows: map<Pair, Flow>, nrK: int, now: real, log: seq<Entry>)

  // ---------- steps on the flow table ----------

  function Pairs(c0: seq<XNode>, c1: seq<XNode>): set<Pair> {
    set a, b | a in c0 && b in c1 :: (a, b)
  }

  function Get(flows: map<Pair, Flow>, k: Pair): Flow {
    if k in flows then flows[k] else EMPTY
  }

  /** k_update on each pair in `ks`, created first if need be. */
  function Count(p: Params, flows: map<Pair, Flow>, ks: set<Pair>, now: real, d: Stats): map<Pair, Flow> {
    map k | k in flows.Keys + ks :: if k in ks then Update(p, Get(flows, k), now, d) else flows[k]
  }

  /** Every pair of a node of one chain and a node of the other takes the report. */
  function Recorded(s: Sys, e: Entry): Sys {
    s.(flows := Count(s.p, s.flows, Pairs(e.chain0, e.chain1), e.at, e.d),
       nrK := s.nrK + |Pairs(e.chain0, e.chain1) - s.flows.Keys|,
       now := e.at,
       log := s.log + [e])
  }

  /** x_update: the report counts for x0, x1 and all their ancestors. */
  ghost function RecordReport(s: Sys, x0: XNode, x1: XNode, now: real, d: Stats): Sys
    requires Forest(s.h.nodes) && x0 in s.h.nodes && x1 in s.h.nodes
  {
    Recorded(s, Entry(Chain(s.h.nodes, x0), Chain(s.h.nodes, x1), now, d))
  }

  /** A query freshens some tracked pairs and changes nothing else. */
  function Touch(s: Sys, ks: set<Pair>, now: real): Sys {
    s.(flows := map k | k in s.flows :: if k in ks then Freshen(s.p, s.flows[k], now) else s.flows[k], now := now)
  }

  /** The flow table's part of x_destroy: exactly the pairs of `j` go. */
  function Forget(s: Sys, j: XNode): Sys {
    s.(flows := map k | k in s.flows && k.0 != j :: s.flows[k],
       nrK := s.nrK - |set k | k in s.flows && k.0 == j|)
  }

  // ---------- the log ----------

  predicate Covers(e: Entry, a: XNode, b: XNode) {
    a in e.chain0 && b in e.chain1
  }

  /** The reports counted for (a, b). */
  function Sub(log: seq<Entry>, a: XNode, b: XNode): seq<Event> {
    if log == [] then []
    else
      var es, e := Sub(log[..|log| - 1], a, b), log[|log| - 1];
      if Covers(e, a, b) then es + [Event.Report(e.at, e.d)] else es
  }

  ghost predicate LogNonNegative(log: seq<Entry>) {
    forall i :: 0 <= i < |log| ==> NonNegative(log[i].d)
  }

  // ---------- the invariant ----------

  /** What stays true of a logged report: its chains name a host, a job, a cluster and U, and a server, a file system
      and V; all but the job are still there, and a surviving node still has the logged parent unless it is the host. */
  ghost predicate EntryOk(h: Hier, e: Entry) {
    && |e.chain0| == 4 && |e.chain1| == 3
    && e.chain0[1] in h.ever
    && IsKind(h.nodes, e.chain0[0], Host) && IsKind(h.nodes, e.chain0[2], Clus) && e.chain0[3] == h.u
    && (e.chain0[1] in h.nodes ==> IsKind(h.nodes, e.chain0[1], Job) && h.nodes[e.chain0[1]].parent == e.chain0[2])
    && IsKind(h.nodes, e.chain1[0], Serv) && IsKind(h.nodes, e.chain1[1], Fs) && e.chain1[2] == h.v
    && h.nodes[e.chain1[0]].parent == e.chain1[1]
  }

  ghost predicate LogOk(s: Sys) {
    && (forall i :: 0 <= i < |s.log| ==> EntryOk(s.h, s.log[i]))
    && (forall i :: 0 <= i < |s.log| ==> 0.0 < s.log[i].at <= s.now)
    && (forall i, j :: 0 <= i < j < |s.log| ==> s.log[i].at <= s.log[j].at)
  }

  ghost predicate Healthy(f: Flow) {
    0.0 < f.t && NonNegative(f.pending) && NonNegative(f.rate)
  }

  /** From `now` on, `f` cannot be told from the state that the reports `es` alone produce. */
  ghost predicate Tracks(p: Params, f: Flow, es: seq<Event>, now: real) {
    forall t :: now <= t ==> Freshen(p, f, t) == Freshen(p, Replay(p, es), t)
  }

  /** The flow of a pair is what its reports make it. */
  ghost predicate Accounts(p: Params, f: Flow, es: seq<Event>, now: real, nonNegative: bool) {
    && (forall i: nat :: i < NR_STATS ==> f.sum[i] == Total(es, i))
    && (nonNegative ==> Healthy(f) && Tracks(p, f, es, now))
  }

  /** The flow table is an index over the log. */
  ghost predicate Indexed(s: Sys, a: XNode, b: XNode) {
    var es := Sub(s.log, a, b);
    && ((a, b) in s.flows <==> es != [])
    && ((a, b) in s.flows ==> Accounts(s.p, s.flows[(a, b)], es, s.now, LogNonNegative(s.log)))
  }

  ghost predicate Side(n: Nodes, x: XNode, w: nat) {
    x in n && Which(n[x].kind) == w
  }

  ghost predicate Table(s: Sys) {
    && (forall k :: k in s.flows ==> Side(s.h.nodes, k.0, 0) && Side(s.h.nodes, k.1, 1))
    && (forall a, b {:trigger Indexed(s, a, b)} ::
          a in s.h.nodes && b in s.h.nodes && Side(s.h.nodes, a, 0) && Side(s.h.nodes, b, 1) ==> Indexed(s, a, b))
    && s.nrK == |s.flows|
  }

  ghost predicate Inv(s: Sys) {
    Tree(s.h) && Lifecycle(s.h.nodes) && LogOk(s) && Table(s)
  }

  // ---------- chains ----------

  /** x_update visits exactly four consumers for a host... */
  lemma HostChain(h: Hier, x: XNode)
    requires Tree(h) && IsKind(h.nodes, x, Host)
    ensures var c := Chain(h.nodes, x);
      && |c| == 4 && c[0] == x && c[3] == h.u
      && IsKind(h.nodes, c[1], Job) && IsKind(h.nodes, c[2], Clus)
      && h.nodes[x].parent == c[1] && h.nodes[c[1]].parent == c[2] && h.nodes[c[2]].parent == h.u
  {
    var n := h.nodes;
    assert Linked(n, x);
    var j := n[x].parent;
    assert Linked(n, j);
    var c := n[j].parent;
    assert Linked(n, c);
    assert Linked(n, h.u);
    assert OneTop(h, n[c].parent);
    assert Chain(n, h.u) == [h.u];
    assert Chain(n, c) == [c, h.u];
    assert Chain(n, j) == [j, c, h.u];
  }

  /** ... and exactly three providers for a server. */
  lemma ServChain(h: Hier, x: XNode)
    requires Tree(h) && IsKind(h.nodes, x, Serv)
    ensures var c := Chain(h.nodes, x);
      && |c| == 3 && c[0] == x && c[2] == h.v
      && IsKind(h.nodes, c[1], Fs) && h.nodes[x].parent == c[1] && h.nodes[c[1]].parent == h.v
  {
    var n := h.nodes;
    assert Linked(n, x);
    var f := n[x].parent;
    assert Linked(n, f);
    assert Linked(n, h.v);
    assert OneTop(h, n[f].parent);
    assert Chain(n, h.v) == [h.v];
    assert Chain(n, f) == [f, h.v];
  }

  // ---------- steps that only reshape the hierarchy ----------

  lemma {:induction false} SubOfStranger(h: Hier, log: seq<Entry>, a: XNode, b: XNode)
    requires h.nodes.Keys <= h.ever && h.u in h.ever && h.v in h.ever
    requires forall i :: 0 <= i < |log| ==> EntryOk(h, log[i])
    requires a !in h.ever || b !in h.ever
    ensures Sub(log, a, b) == []
  {
    if log != [] {
      SubOfStranger(h, log[..|log| - 1], a, b);
      assert EntryOk(h, log[|log| - 1]);
    }
  }

  lemma GrowthKeepsEntry(h: Hier, h': Hier, e: Entry)
    requires Grows(h, h') && EntryOk(h, e)
    ensures EntryOk(h', e)
  {
    assert Kept(h.nodes, h'.nodes, e.chain0[0]) && Kept(h.nodes, h'.nodes, e.chain0[2]);
    assert Kept(h.nodes, h'.nodes, e.chain1[0]) && Kept(h.nodes, h'.nodes, e.chain1[1]);
    if e.chain0[1] in h.nodes {
      assert Kept(h.nodes, h'.nodes, e.chain0[1]);
    }
  }

  lemma GrowthKeepsTable(s: Sys, h': Hier)
    requires Tree(s.h) && LogOk(s) && Table(s) && Grows(s.h, h')
    ensures LogOk(s.(h := h')) && Table(s.(h := h'))
  {
    var s' := s.(h := h');
    forall i | 0 <= i < |s.log| ensures EntryOk(h', s.log[i]) {
      GrowthKeepsEntry(s.h, h', s.log[i]);
    }
    forall k | k in s.flows ensures Side(h'.nodes, k.0, 0) && Side(h'.nodes, k.1, 1) {
      assert Kept(s.h.nodes, h'.nodes, k.0) && Kept(s.h.nodes, h'.nodes, k.1);
    }
    forall a, b {:trigger Indexed(s', a, b)} |
      a in h'.nodes && b in h'.nodes && Side(h'.nodes, a, 0) && Side(h'.nodes, b, 1)
      ensures Indexed(s', a, b)
    {
      if a in s.h.nodes && b in s.h.nodes {
        assert Kept(s.h.nodes, h'.nodes, a) && Kept(s.h.nodes, h'.nodes, b);
        assert Indexed(s, a, b);
      } else {
        SubOfStranger(s.h, s.log, a, b);
      }
    }
  }

  // ---------- one report ----------

  lemma FreshenHealthy(p: Params, f: Flow, now: real)
    requires 0.0 < now && NonNegative(f.pending) && NonNegative(f.rate)
    ensures Healthy(Freshen(p, f, now))
  {
    var n := Ticks(p, StartedAt(f.t, now), now);
    assert (if n > 0 then n else 0) as real * p.tick >= 0.0;
    forall i | 0 <= i < NR_STATS ensures 0.0 <= Freshen(p, f, now).rate[i] {
      FreshenParts(p, f, now, i);
      FreshRateNonNegative(p, n, f.pending[i], f.rate[i]);
    }
  }

  lemma FlushNonNegative(p: Params, pending: real, rate: real)
    requires 0.0 <= pending && 0.0 <= rate
    ensures 0.0 <= Flush(p, rate, pending / p.tick)
  {
    DivideByTick(p, pending, pending);
    var r := pending / p.tick;
    FlushBounds(p, rate, r, if rate < r then r else rate);
  }

  lemma TimesPower(q: real, x: real, n: nat)
    requires 0.0 <= x && 0.0 < q < 1.0
    ensures 0.0 <= x * Pow(q, n)
  {
    PowPositive(q, n);
  }

  lemma FreshRateNonNegative(p: Params, n: int, pending: real, rate: real)
    requires 0.0 <= pending && 0.0 <= rate
    ensures 0.0 <= FreshRate(p, n, pending, rate)
  {
    FlushNonNegative(p, pending, rate);
    if n > 1 {
      TimesPower(p.q, Flush(p, rate, pending / p.tick), n - 1);
    }
  }

  lemma HealthyFlushesUp(p: Params, f: Flow)
    requires Healthy(f)
    ensures FlushesUp(p, f)
  {
    forall i | 0 <= i < NR_STATS ensures 0.0 <= Flush(p, f.rate[i], f.pending[i] / p.tick) {
      FlushNonNegative(p, f.pending[i], f.rate[i]);
    }
  }

  lemma UpdateHealthy(p: Params, f: Flow, now: real, d: Stats)
    requires 0.0 < now && NonNegative(f.pending) && NonNegative(f.rate) && NonNegative(d)
    ensures Healthy(Update(p, f, now, d))
  {
    FreshenHealthy(p, f, now);
  }

  lemma TotalExtends(es: seq<Event>, e: Event, i: nat)
    requires i < NR_STATS
    ensures Total(es + [e], i) == Total(es, i) + if e.Report? then e.d[i] else 0.0
  {
    assert (es + [e])[..|es|] == es;
  }

  /** Counting one more report for a pair. */
  lemma UpdateAccounts(p: Params, f: Flow, es: seq<Event>, before: real, now: real, d: Stats, nn: bool)
    requires 0.0 < now && before <= now
    requires Accounts(p, f, es, before, nn) || (f == EMPTY && es == [])
    ensures Accounts(p, Update(p, f, now, d), es + [Event.Report(now, d)], now, nn && NonNegative(d))
  {
    var e := Event.Report(now, d);
    var g := Update(p, f, now, d);
    forall i: nat | i < NR_STATS ensures g.sum[i] == Total(es + [e], i) {
      TotalExtends(es, e, i);
    }
    if nn && NonNegative(d) {
      UpdateHealthy(p, f, now, d);
      assert (es + [e])[..|es|] == es;
      assert Freshen(p, f, now) == Freshen(p, Replay(p, es), now);
      assert Replay(p, es + [e]) == g;
    }
  }

  lemma AccountsLater(p: Params, f: Flow, es: seq<Event>, now: real, later: real, nn: bool, nn': bool)
    requires Accounts(p, f, es, now, nn) && now <= later && (nn' ==> nn)
    ensures Accounts(p, f, es, later, nn')
  {
  }

  lemma FreshenAccounts(p: Params, f: Flow, es: seq<Event>, before: real, now: real, nn: bool)
    requires 0.0 < now && before <= now && Accounts(p, f, es, before, nn)
    ensures Accounts(p, Freshen(p, f, now), es, now, nn)
  {
    if nn {
      FreshenHealthy(p, f, now);
      HealthyFlushesUp(p, f);
      forall t | now <= t ensures Freshen(p, Freshen(p, f, now), t) == Freshen(p, Replay(p, es), t) {
        FreshenCompose(p, f, now, t);
      }
    }
  }

  lemma SubExtends(log: seq<Entry>, e: Entry, a: XNode, b: XNode)
    ensures Sub(log + [e], a, b) ==
      if Covers(e, a, b) then Sub(log, a, b) + [Event.Report(e.at, e.d)] else Sub(log, a, b)
  {
    assert (log + [e])[..|log|] == log;
  }

  lemma CountAt(p: Params, flows: map<Pair, Flow>, e: Entry, a: XNode, b: XNode)
    ensures var flows' := Count(p, flows, Pairs(e.chain0, e.chain1), e.at, e.d);
      && ((a, b) in flows' <==> (a, b) in flows || Covers(e, a, b))
      && (Covers(e, a, b) ==> flows'[(a, b)] == Update(p, Get(flows, (a, b)), e.at, e.d))
      && (!Covers(e, a, b) && (a, b) in flows ==> flows'[(a, b)] == flows[(a, b)])
  {
    assert (a, b) in Pairs(e.chain0, e.chain1) <==> Covers(e, a, b);
  }

  lemma LogNonNegativeExtends(log: seq<Entry>, e: Entry)
    ensures LogNonNegative(log + [e]) <==> LogNonNegative(log) && NonNegative(e.d)
  {
    if LogNonNegative(log + [e]) {
      assert forall i :: 0 <= i < |log| ==> (log + [e])[i] == log[i];
      assert (log + [e])[|log|] == e;
    }
  }

  lemma CountIndexed(s: Sys, s': Sys, e: Entry, a: XNode, b: XNode)
    requires 0.0 < e.at && s.now <= e.at == s'.now && Indexed(s, a, b)
    requires s'.p == s.p && s'.log == s.log + [e]
    requires s'.flows == Count(s.p, s.flows, Pairs(e.chain0, e.chain1), e.at, e.d)
    ensures Indexed(s', a, b)
  {
    var es := Sub(s.log, a, b);
    SubExtends(s.log, e, a, b);
    CountAt(s.p, s.flows, e, a, b);
    LogNonNegativeExtends(s.log, e);
    if Covers(e, a, b) {
      UpdateAccounts(s.p, Get(s.flows, (a, b)), es, s.now, e.at, e.d, LogNonNegative(s.log));
    } else if (a, b) in s.flows {
      AccountsLater(s.p, s.flows[(a, b)], es, s.now, e.at, LogNonNegative(s.log), LogNonNegative(s'.log));
    }
  }

  lemma CountSize(s: Sys, e: Entry)
    requires s.nrK == |s.flows|
    ensures s.nrK + |Pairs(e.chain0, e.chain1) - s.flows.Keys| ==
      |Count(s.p, s.flows, Pairs(e.chain0, e.chain1), e.at, e.d)|
  {
    var flows' := Count(s.p, s.flows, Pairs(e.chain0, e.chain1), e.at, e.d);
    var added := Pairs(e.chain0, e.chain1) - s.flows.Keys;
    assert flows'.Keys == s.flows.Keys + added;
    assert |flows'| == |flows'.Keys| && |s.flows| == |s.flows.Keys|;
  }

  lemma CountKeepsTable(s: Sys, s': Sys, e: Entry)
    requires Table(s) && EntryOk(s.h, e) && 0.0 < e.at && s.now <= e.at
    requires s' == Recorded(s, e)
    requires forall a :: a in e.chain0 ==> Side(s.h.nodes, a, 0)
    requires forall b :: b in e.chain1 ==> Side(s.h.nodes, b, 1)
    ensures Table(s')
  {
    CountSize(s, e);
    forall k | k in s'.flows ensures Side(s'.h.nodes, k.0, 0) && Side(s'.h.nodes, k.1, 1) {
      CountAt(s.p, s.flows, e, k.0, k.1);
    }
    forall a, b {:trigger Indexed(s', a, b)} |
      a in s.h.nodes && b in s.h.nodes && Side(s.h.nodes, a, 0) && Side(s.h.nodes, b, 1)
      ensures Indexed(s', a, b)
    {
      assert Indexed(s, a, b);
      CountIndexed(s, s', e, a, b);
    }
  }

  lemma CountKeepsLog(s: Sys, s': Sys, e: Entry)
    requires LogOk(s) && EntryOk(s.h, e) && 0.0 < e.at && s.now <= e.at == s'.now
    requires s'.h == s.h && s'.log == s.log + [e]
    ensures LogOk(s')
  {
    forall i | 0 <= i < |s'.log| ensures EntryOk(s.h, s'.log[i]) {
      if i < |s.log| {
        assert EntryOk(s.h, s.log[i]);
      }
    }
  }

  lemma ReportEntry(h: Hier, x0: XNode, x1: XNode, now: real, d: Stats)
    requires Tree(h) && IsKind(h.nodes, x0, Host) && IsKind(h.nodes, x1, Serv)
    ensures EntryOk(h, Entry(Chain(h.nodes, x0), Chain(h.nodes, x1), now, d))
    ensures forall a :: a in Chain(h.nodes, x0) ==> Side(h.nodes, a, 0)
    ensures forall b :: b in Chain(h.nodes, x1) ==> Side(h.nodes, b, 1)
  {
    HostChain(h, x0);
    ServChain(h, x1);
    var c0, c1 := Chain(h.nodes, x0), Chain(h.nodes, x1);
    assert c0 == [c0[0], c0[1], c0[2], c0[3]];
    assert c1 == [c1[0], c1[1], c1[2]];
  }

  lemma ReportKeepsInv(s: Sys, x0: XNode, x1: XNode, now: real, d: Stats)
    requires Inv(s) && IsKind(s.h.nodes, x0, Host) && IsKind(s.h.nodes, x1, Serv) && 0.0 < now && s.now <= now
    ensures Inv(RecordReport(s, x0, x1, now, d))
  {
    var e := Entry(Chain(s.h.nodes, x0), Chain(s.h.nodes, x1), now, d);
    ReportEntry(s.h, x0, x1, now, d);
    CountKeepsTable(s, Recorded(s, e), e);
    CountKeepsLog(s, Recorded(s, e), e);
    SameHier(s, Recorded(s, e));
  }

  lemma SameHier(s: Sys, s': Sys)
    requires Inv(s) && s'.h == s.h && LogOk(s') && Table(s')
    ensures Inv(s')
  {
  }

  // ---------- one query ----------

  lemma TouchKeepsInv(s: Sys, ks: set<Pair>, now: real)
    requires Inv(s) && 0.0 < now && s.now <= now
    ensures Inv(Touch(s, ks, now))
  {
    var s' := Touch(s, ks, now);
    forall a, b {:trigger Indexed(s', a, b)} |
      a in s.h.nodes && b in s.h.nodes && Side(s.h.nodes, a, 0) && Side(s.h.nodes, b, 1)
      ensures Indexed(s', a, b)
    {
      assert Indexed(s, a, b);
      if (a, b) in s.flows {
        var f, es, nn := s.flows[(a, b)], Sub(s.log, a, b), LogNonNegative(s.log);
        if (a, b) in ks {
          FreshenAccounts(s.p, f, es, s.now, now, nn);
        } else {
          AccountsLater(s.p, f, es, s.now, now, nn, nn);
        }
      }
    }
    assert s'.flows.Keys == s.flows.Keys;
    assert |s'.flows| == |s'.flows.Keys| && |s.flows| == |s.flows.Keys|;
  }

  // ---------- reaping a job ----------

  /** Every other node survives with its kind and, unless it is a host, its place. */
  lemma RemoveKeeps(h: Hier, j: XNode, x: XNode)
    requires Tree(h) && IsKind(h.nodes, j, Job) && h.nodes[j].nrChild == 0 && x in h.nodes && x != j
    ensures Kept(h.nodes, Remove(h, j).nodes, x)
  {
    RemoveTree(h, j);
  }

  lemma RemoveKeepsEntry(h: Hier, j: XNode, e: Entry)
    requires Tree(h) && IsKind(h.nodes, j, Job) && h.nodes[j].nrChild == 0 && EntryOk(h, e)
    ensures EntryOk(Remove(h, j), e)
  {
    RemoveKeeps(h, j, e.chain0[0]);
    RemoveKeeps(h, j, e.chain0[2]);
    RemoveKeeps(h, j, e.chain1[0]);
    RemoveKeeps(h, j, e.chain1[1]);
    if e.chain0[1] in h.nodes && e.chain0[1] != j {
      RemoveKeeps(h, j, e.chain0[1]);
    }
  }

  lemma ForgetSize(s: Sys, j: XNode)
    requires s.nrK == |s.flows|
    ensures Forget(s, j).nrK == |Forget(s, j).flows|
  {
    var gone := set k | k in s.flows && k.0 == j;
    var s' := Forget(s, j);
    assert s'.flows.Keys == s.flows.Keys - gone;
    assert |s'.flows| == |s'.flows.Keys| && |s.flows| == |s.flows.Keys|;
  }

  lemma ForgetKeepsTable(s: Sys, j: XNode, h': Hier)
    requires Table(s) && j !in h'.nodes && h'.nodes.Keys <= s.h.nodes.Keys
    requires forall x {:trigger Kept(s.h.nodes, h'.nodes, x)} :: x in s.h.nodes && x != j ==>
      Kept(s.h.nodes, h'.nodes, x)
    requires Side(s.h.nodes, j, 0)
    ensures Table(Forget(s, j).(h := h'))
  {
    var s' := Forget(s, j).(h := h');
    ForgetSize(s, j);
    forall k | k in s'.flows ensures Side(h'.nodes, k.0, 0) && Side(h'.nodes, k.1, 1) {
      assert Kept(s.h.nodes, h'.nodes, k.0) && Kept(s.h.nodes, h'.nodes, k.1);
    }
    forall a, b {:trigger Indexed(s', a, b)} |
      a in h'.nodes && b in h'.nodes && Side(h'.nodes, a, 0) && Side(h'.nodes, b, 1)
      ensures Indexed(s', a, b)
    {
      assert Kept(s.h.nodes, h'.nodes, a) && Kept(s.h.nodes, h'.nodes, b);
      assert Indexed(s, a, b);
    }
  }

  /** x_destroy of an empty job, on the hierarchy and the flow table. */
  lemma RemoveKeepsTable(s: Sys, j: XNode)
    requires Tree(s.h) && LogOk(s) && Table(s) && IsKind(s.h.nodes, j, Job) && s.h.nodes[j].nrChild == 0
    ensures LogOk(Forget(s, j).(h := Remove(s.h, j))) && Table(Forget(s, j).(h := Remove(s.h, j)))
  {
    var h' := Remove(s.h, j);
    RemoveTree(s.h, j);
    forall i | 0 <= i < |s.log| ensures EntryOk(h', s.log[i]) {
      RemoveKeepsEntry(s.h, j, s.log[i]);
    }
    forall x | x in s.h.nodes && x != j ensures Kept(s.h.nodes, h'.nodes, x) {
      RemoveKeeps(s.h, j, x);
    }
    ForgetKeepsTable(s, j, h');
  }
}
