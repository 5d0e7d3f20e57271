/** Whole runs of xltop-master: the steps its event loop can take, the invariant every step keeps, and what follows
    for every reachable state. */
module Machine {
  import opened Ewma
  import opened XNodes
  import opened Hierarchy
  import opened FlowTable

  /** What sscanf makes of the numbers of a server's line. */
  datatype Reading = Numbers(d: Stats) | Garbled

  /** One callback of the event loop. Nodes `x`, `c`, `nh`, `nj` stand for the memory the step may allocate, and `junk`
      for j_fake, which job_lookup leaves uninitialised. */
  datatype Step =
    | AddCluster(name: string, c: XNode, nj: XNode, junk: bool)
    | AddDomain(domain: string, clus: XNode)
    | AddFs(name: string, x: XNode)
    | AddServ(name: string, fs: XNode, x: XNode)
    | AddHost(name: string, x: XNode)
    | ServLine(serv: XNode, host: string, reading: Reading, at: real, x: XNode)
    | ClusLine(clus: XNode, host: string, job: string, owner: string, nj: XNode, nh: XNode, junk: bool)
    | Zombie(j: XNode)
    | Query(ks: set<Pair>, at: real)

  ghost predicate Enabled(s: Sys, e: Step) {
    match e
    case AddCluster(name, c, nj, _) => SpareClus(s.h, name, c, nj)
    case AddDomain(_, clus) => IsKind(s.h.nodes, clus, Clus)
    case AddFs(name, x) => Spare(s.h, x, Fs, name)
    case AddServ(name, fs, x) => IsKind(s.h.nodes, fs, Fs) && Spare(s.h, x, Serv, name)
    case AddHost(name, x) => Spare(s.h, x, Host, name)
    case ServLine(serv, host, _, at, x) =>
      IsKind(s.h.nodes, serv, Serv) && Spare(s.h, x, Host, host) && 0.0 < at && s.now <= at
    case ClusLine(clus, host, job, _, nj, nh, _) =>
      IsKind(s.h.nodes, clus, Clus) && SpareLine(s.h, host, job, nj, nh)
    case Zombie(j) => IsKind(s.h.nodes, j, Job) && s.h.nodes[j].zombie
    case Query(_, at) => 0.0 < at && s.now <= at
  }

  /** job_zombie_cb */
  function ZombieFires(s: Sys, j: XNode): Sys
    requires j in s.h.nodes
  {
    var h' := ZombieHier(s.h, j);
    if j in h'.nodes then s.(h := h') else Forget(s, j).(h := h')
  }

  /** serv_msg_cb: the host is created even when the numbers turn out garbled. */
  ghost function ServMessage(s: Sys, serv: XNode, host: string, reading: Reading, at: real, x: XNode): Sys
    requires Tree(s.h) && IdleJobs(s.h.nodes) && Spare(s.h, x, Host, host) && serv in s.h.nodes
  {
    HostLookupTree(s.h, host, x);
    var (h', x0) := HostLookup(s.h, host, x);
    var s1 := s.(h := h', now := at);
    if reading.Numbers? then RecordReport(s1, x0, serv, at, reading.d) else s1
  }

  ghost function Next(s: Sys, e: Step): Sys
    requires Tree(s.h) && IdleJobs(s.h.nodes) && Enabled(s, e)
  {
    match e
    case AddCluster(name, c, nj, junk) => s.(h := AddClus(s.h, name, c, nj, junk))
    case AddDomain(domain, clus) => s.(h := s.h.(domains := s.h.domains[domain := clus]))
    case AddFs(name, x) => s.(h := Lookup(s.h, x, NewNode(Fs, name, s.h.v, "", false)).0)
    case AddServ(name, fs, x) => s.(h := Lookup(s.h, x, NewNode(Serv, name, fs, "", false)).0)
    case AddHost(name, x) => s.(h := HostLookup(s.h, name, x).0)
    case ServLine(serv, host, reading, at, x) => ServMessage(s, serv, host, reading, at, x)
    case ClusLine(clus, host, job, owner, nj, nh, junk) =>
      s.(h := ClusMessage(s.h, clus, host, job, owner, nj, nh, junk))
    case Zombie(j) => ZombieFires(s, j)
    case Query(ks, at) => Touch(s, ks, at)
  }

  lemma HostLookupGrows(h: Hier, name: string, x: XNode)
    requires Tree(h) && IdleJobs(h.nodes) && Spare(h, x, Host, name)
    ensures Grows(h, HostLookup(h, name, x).0)
  {
    NewHostPlaced(h, name);
    LookupGrows(h, x, NewNode(Host, name, IdleOf(h, ClusForHost(h, name)), "", false));
  }

  lemma HostLookupLifecycle(h: Hier, name: string, x: XNode)
    requires Tree(h) && Lifecycle(h.nodes) && Spare(h, x, Host, name)
    ensures Lifecycle(HostLookup(h, name, x).0.nodes)
  {
    NewHostPlaced(h, name);
    LookupLifecycle(h, x, NewNode(Host, name, IdleOf(h, ClusForHost(h, name)), "", false), {}, {});
  }

  // ---------- every step keeps the invariant ----------

  lemma GrowthKeepsInv(s: Sys, h': Hier)
    requires Inv(s) && Grows(s.h, h') && Tree(h') && Lifecycle(h'.nodes)
    ensures Inv(s.(h := h'))
  {
    GrowthKeepsTable(s, h');
  }

  lemma HostLookupKeepsInv(s: Sys, name: string, x: XNode)
    requires Inv(s) && Spare(s.h, x, Host, name)
    ensures Inv(s.(h := HostLookup(s.h, name, x).0))
  {
    HostLookupTree(s.h, name, x);
    HostLookupGrows(s.h, name, x);
    HostLookupLifecycle(s.h, name, x);
    GrowthKeepsInv(s, HostLookup(s.h, name, x).0);
  }

  lemma LaterKeepsInv(s: Sys, now: real)
    requires Inv(s) && 0.0 < now && s.now <= now
    ensures Inv(s.(now := now))
  {
    TouchKeepsInv(s, {}, now);
    assert Touch(s, {}, now).flows == s.flows;
  }

  lemma ServLineKeepsInv(s: Sys, e: Step)
    requires Inv(s) && e.ServLine? && Enabled(s, e)
    ensures Inv(Next(s, e))
  {
    var (h', x0) := HostLookup(s.h, e.host, e.x);
    HostLookupTree(s.h, e.host, e.x);
    HostLookupKeepsInv(s, e.host, e.x);
    LaterKeepsInv(s.(h := h'), e.at);
    if e.reading.Numbers? {
      HostLookupGrows(s.h, e.host, e.x);
      assert Kept(s.h.nodes, h'.nodes, e.serv);
      ReportKeepsInv(s.(h := h', now := e.at), x0, e.serv, e.at, e.reading.d);
    }
  }

  lemma ZombieKeepsInv(s: Sys, j: XNode)
    requires Inv(s) && IsKind(s.h.nodes, j, Job)
    ensures Inv(ZombieFires(s, j))
  {
    var h' := ZombieHier(s.h, j);
    ZombieTree(s.h, j);
    ZombieLifecycle(s.h, j);
    assert Linked(s.h.nodes, j);
    if j in h'.nodes {
      GrowthKeepsInv(s, h');
    } else {
      RemoveKeepsTable(s, j);
    }
  }

  /** The main invariant: hierarchy well-formed, jobs alive, flow table an index over the log. */
  lemma StepKeepsInv(s: Sys, e: Step)
    requires Inv(s) && Enabled(s, e)
    ensures Inv(Next(s, e))
  {
    match e
    case AddCluster(name, c, nj, junk) =>
      AddClusTree(s.h, name, c, nj, junk);
      AddClusGrows(s.h, name, c, nj, junk);
      AddClusLifecycle(s.h, name, c, nj, junk);
      GrowthKeepsInv(s, Next(s, e).h);
    case AddDomain(domain, clus) =>
      AddDomainTree(s.h, domain, clus);
      GrowthKeepsInv(s, Next(s, e).h);
    case AddFs(name, x) =>
      AddProvider(s, x, NewNode(Fs, name, s.h.v, "", false));
    case AddServ(name, fs, x) =>
      AddProvider(s, x, NewNode(Serv, name, fs, "", false));
    case AddHost(name, x) =>
      HostLookupKeepsInv(s, name, x);
    case ServLine(_, _, _, _, _) =>
      ServLineKeepsInv(s, e);
    case ClusLine(clus, host, job, owner, nj, nh, junk) =>
      ClusMessageTree(s.h, clus, host, job, owner, nj, nh, junk);
      ClusMessageGrows(s.h, clus, host, job, owner, nj, nh, junk);
      ClusMessageLifecycle(s.h, clus, host, job, owner, nj, nh, junk);
      GrowthKeepsInv(s, Next(s, e).h);
    case Zombie(j) =>
      ZombieKeepsInv(s, j);
    case Query(ks, at) =>
      TouchKeepsInv(s, ks, at);
  }

  lemma AddProvider(s: Sys, x: XNode, node: Node)
    requires Inv(s) && CanLookup(s.h, x, node) && node.kind != Job && node.kind != Clus
    ensures Inv(s.(h := Lookup(s.h, x, node).0))
  {
    LookupTree(s.h, x, node);
    LookupGrows(s.h, x, node);
    LookupLifecycle(s.h, x, node, {}, {});
    GrowthKeepsInv(s, Lookup(s.h, x, node).0);
  }

  lemma AddDomainTree(h: Hier, domain: string, clus: XNode)
    requires Tree(h) && IsKind(h.nodes, clus, Clus)
    ensures Tree(h.(domains := h.domains[domain := clus]))
  {
    var h' := h.(domains := h.domains[domain := clus]);
    forall x | x in h'.nodes ensures Named(h', x) && OneTop(h', x) {
      assert Named(h, x) && OneTop(h, x);
    }
    forall k | k in h'.names ensures NameOk(h', k) {
      assert NameOk(h, k);
    }
  }

  // ---------- start and runs ----------

  /** After x_types_init and clus_type_init: the two universes, the default cluster NONE and its idle job. */
  ghost function Start(p: Params, u: XNode, v: XNode, c: XNode, j: XNode): Sys {
    Sys(p,
        Hier(u, v, c,
             map[u := NewNode(U, "ALL", null, "", false).(children := [c], nrChild := 1),
                 v := NewNode(V, "ALL", null, "", false),
                 c := NewNode(Clus, "NONE", u, "", false).(children := [j], nrChild := 1, idle := j),
                 j := NewNode(Job, IDLE + "NONE", c, "NONE", true)],
             map[(U, "ALL") := u, (V, "ALL") := v, (Clus, "NONE") := c, (Job, IDLE + "NONE") := j],
             map[], {u, v, c, j}),
        map[], 0, 0.0, [])
  }

  lemma StartForest(p: Params, u: XNode, v: XNode, c: XNode, j: XNode)
    requires u != v && u != c && u != j && v != c && v != j && c != j
    ensures Forest(Start(p, u, v, c, j).h.nodes)
  {
    var n := Start(p, u, v, c, j).h.nodes;
    assert Linked(n, u) && Linked(n, v) && Linked(n, c) && Linked(n, j);
    forall x {:trigger Linked(n, x)} | x in n ensures Linked(n, x) {
      assert x == u || x == v || x == c || x == j;
    }
  }

  lemma StartNames(p: Params, u: XNode, v: XNode, c: XNode, j: XNode)
    requires u != v && u != c && u != j && v != c && v != j && c != j
    ensures NamesAgree(Start(p, u, v, c, j).h)
  {
    var h := Start(p, u, v, c, j).h;
    assert Named(h, u) && Named(h, v) && Named(h, c) && Named(h, j);
    forall x {:trigger Named(h, x)} | x in h.nodes ensures Named(h, x) {
      assert x == u || x == v || x == c || x == j;
    }
  }

  lemma StartInv(p: Params, u: XNode, v: XNode, c: XNode, j: XNode)
    requires u != v && u != c && u != j && v != c && v != j && c != j
    ensures Inv(Start(p, u, v, c, j))
  {
    var s := Start(p, u, v, c, j);
    StartForest(p, u, v, c, j);
    StartNames(p, u, v, c, j);
    assert HasIdle(s.h.nodes, c) && JobAlive(s.h.nodes, j);
    forall a, b {:trigger Indexed(s, a, b)} |
      a in s.h.nodes && b in s.h.nodes && Side(s.h.nodes, a, 0) && Side(s.h.nodes, b, 1)
      ensures Indexed(s, a, b)
    {
      assert Sub(s.log, a, b) == [];
    }
  }

  ghost predicate Legal(s: Sys, es: seq<Step>)
    requires Inv(s)
    decreases |es|
  {
    es == [] || (Enabled(s, es[0]) && (StepKeepsInv(s, es[0]); Legal(Next(s, es[0]), es[1..])))
  }

  /** The state after a run; the invariant holds in it. */
  ghost function After(s: Sys, es: seq<Step>): (r: Sys)
    requires Inv(s) && Legal(s, es)
    ensures Inv(r)
    decreases |es|
  {
    if es == [] then s else (StepKeepsInv(s, es[0]); After(Next(s, es[0]), es[1..]))
  }
}
