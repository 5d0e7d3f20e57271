/** What each step of the event loop leaves behind, said of the nodes themselves: which node has which name, parent,
    owner and marks afterwards, and that all others are as before. Child lists follow, since parent pointers and child
    lists agree in every reachable state (Machine.StepKeepsInv). */
module Results {
  import opened Basics
  import opened Ewma
  import opened XNodes
  import opened Hierarchy
  import opened FlowTable
  import opened Machine
  import opened Reachable

  /** y is as before, but for its children. */
  ghost predicate Same(n: Nodes, n': Nodes, y: XNode) {
    y in n && y in n' && n'[y] == n[y].(children := n'[y].children, nrChild := n'[y].nrChild)
  }

  ghost predicate SameBut(n: Nodes, n': Nodes, but: set<XNode?>) {
    forall y {:trigger Same(n, n', y)} :: y in n && y !in but ==> Same(n, n', y)
  }

  /** y is a new node without children. */
  ghost predicate IsNew(n: Nodes, y: XNode, kind: Kind, name: string, parent: XNode?, owner: string, fake: bool) {
    y in n && n[y] == Node(kind, name, parent, [], 0, owner, fake, false, null)
  }

  /** The node of that type and name, or x if there is none. */
  function Or(h: Hier, kind: Kind, name: string, x: XNode): XNode {
    if (kind, name) in h.names then h.names[(kind, name)] else x
  }

  // ---------- finding or creating one node ----------

  lemma LookupMeans(h: Hier, x: XNode, node: Node)
    requires Tree(h) && CanLookup(h, x, node)
    requires node == NewNode(node.kind, node.name, node.parent, node.owner, node.fake)
    ensures var (h', y) := Lookup(h, x, node);
      && y == Or(h, node.kind, node.name, x) && h'.names == h.names[(node.kind, node.name) := y]
      && h' == h.(nodes := h'.nodes, names := h'.names, ever := h'.ever)
      && SameBut(h.nodes, h'.nodes, {}) && h'.nodes.Keys == h.nodes.Keys + {y}
      && ((node.kind, node.name) in h.names ==> h' == h)
      && ((node.kind, node.name) !in h.names ==>
            y !in h.nodes && IsNew(h'.nodes, y, node.kind, node.name, node.parent, node.owner, node.fake))
  {
    if (node.kind, node.name) in h.names {
      assert NameOk(h, (node.kind, node.name));
      assert h.names[(node.kind, node.name) := h.names[(node.kind, node.name)]] == h.names;
    } else {
      assert x !in h.nodes;
    }
  }

  /** The host of that name is there; if it was not known, it is x, and hangs below the idle job of cluster c. Nothing
      else has changed. */
  ghost predicate HostAdded(h: Hier, h': Hier, name: string, x: XNode, c: XNode) {
    var y := Or(h, Host, name, x);
    && h'.names == h.names[(Host, name) := y] && h' == h.(nodes := h'.nodes, names := h'.names, ever := h'.ever)
    && SameBut(h.nodes, h'.nodes, {}) && h'.nodes.Keys == h.nodes.Keys + {y}
    && ((Host, name) in h.names ==> h' == h)
    && ((Host, name) !in h.names ==> c in h.nodes && IsNew(h'.nodes, y, Host, name, h.nodes[c].idle, "", false))
  }

  lemma HostPlaced(h: Hier, name: string, x: XNode, c: XNode)
    requires Tree(h) && IdleJobs(h.nodes) && Spare(h, x, Host, name) && ClusOf(h.domains, h.clus0, name, c)
    ensures IsKind(h.nodes, c, Clus) && HasIdle(h.nodes, c)
    ensures HostAdded(h, HostLookup(h, name, x).0, name, x, c)
  {
    ClusForHostIs(h, name);
    ClusOfOne(h.domains, h.clus0, name, c, ClusForHost(h, name));
    ClusForHostIsClus(h, name);
    NewHostPlaced(h, name);
    assert HasIdle(h.nodes, c);
    LookupMeans(h, x, NewNode(Host, name, h.nodes[c].idle, "", false));
    hide Tree, IdleJobs, Lookup, ClusOf, SameBut;
  }

  /** The step may create a host of that name, as x. */
  predicate Hosts(e: Step, name: string, x: XNode) {
    (e.AddHost? && e.name == name && e.x == x) || (e.ServLine? && e.host == name && e.x == x)
  }

  lemma ServMessageHosts(s: Sys, serv: XNode, host: string, reading: Reading, at: real, x: XNode)
    requires Tree(s.h) && IdleJobs(s.h.nodes) && Spare(s.h, x, Host, host) && serv in s.h.nodes
    ensures ServMessage(s, serv, host, reading, at, x).h == HostLookup(s.h, host, x).0
  {
    HostLookupTree(s.h, host, x);
    hide Tree, IdleJobs, HostLookup, Chain, Count;
  }

  lemma HostsIs(s: Sys, e: Step, name: string, x: XNode)
    requires Inv(s) && Enabled(s, e) && Hosts(e, name, x)
    ensures Tree(s.h) && IdleJobs(s.h.nodes) && Spare(s.h, x, Host, name) && Next(s, e).h == HostLookup(s.h, name, x).0
  {
    if e.ServLine? {
      ServMessageHosts(s, e.serv, e.host, e.reading, e.at, e.x);
    }
    hide Tree, IdleJobs, HostLookup, ServMessage, Table, LogOk;
  }

  /** A line of a server or of a network's file: a host not known before goes below the idle job of the cluster of the
      longest suffix of its name that is a known domain, or of the default cluster. */
  lemma NewHostHangs(s: Sys, e: Step, name: string, x: XNode, c: XNode)
    requires Inv(s) && Enabled(s, e) && Hosts(e, name, x) && ClusOf(s.h.domains, s.h.clus0, name, c)
    ensures IsKind(s.h.nodes, c, Clus) && HasIdle(s.h.nodes, c) && HostAdded(s.h, Next(s, e).h, name, x, c)
  {
    hide *;
    HostsIs(s, e, name, x);
    HostPlaced(s.h, name, x, c);
  }

  lemma DomainBehind(domains: map<string, XNode>, clus0: XNode, pre: string, domain: string)
    requires domain in domains
    requires forall i: nat :: i < |pre| ==> !DomainAt(domains, pre + "." + domain, i)
    ensures ClusOf(domains, clus0, pre + "." + domain, domains[domain])
  {
    var name := pre + "." + domain;
    assert name[|pre|] == '.' && name[|pre| + 1..] == domain;
    assert FirstDomain(domains, name, |pre|);
  }

  /** So after a domain has been set, the next new host of that domain goes below the idle job of the cluster it was set
      to, if no longer suffix of its name is a domain too. */
  lemma DomainTakesEffect(s: Sys, domain: string, c: XNode, e: Step, pre: string, x: XNode)
    requires Inv(s) && Enabled(s, AddDomain(domain, c))
    requires var s1, name := Next(s, AddDomain(domain, c)), pre + "." + domain;
      && Inv(s1) && Enabled(s1, e) && Hosts(e, name, x) && (Host, name) !in s1.h.names
      && forall i: nat :: i < |pre| ==> !DomainAt(s1.h.domains, name, i)
    ensures var s1, name := Next(s, AddDomain(domain, c)), pre + "." + domain;
      && s1 == s.(h := s.h.(domains := s.h.domains[domain := c]))
      && c in s1.h.nodes && IsNew(Next(s1, e).h.nodes, x, Host, name, s1.h.nodes[c].idle, "", false)
  {
    var s1, name := Next(s, AddDomain(domain, c)), pre + "." + domain;
    DomainBehind(s1.h.domains, s1.h.clus0, pre, domain);
    hide Inv, Enabled, DomainAt, ClusOf, IsNew, SameBut;
    NewHostHangs(s1, e, name, x, c);
  }

  // ---------- a line of a cluster ----------

  /** y is as before, but for its children and, if it has just lost its last one and is not fake, its timer. */
  ghost predicate LeftAt(n: Nodes, n': Nodes, y: XNode?) {
    && y in n && y in n'
    && n'[y] == n[y].(children := n'[y].children, nrChild := n'[y].nrChild,
                      zombie := n[y].zombie || (!n[y].fake && n'[y].children == []))
  }

  /** y is as before, but for its children and that its parent is j. */
  ghost predicate Moved(n: Nodes, n': Nodes, y: XNode, j: XNode) {
    y in n && y in n' && n'[y] == n[y].(parent := j, children := n'[y].children, nrChild := n'[y].nrChild)
  }

  lemma MoveHostMeans(n: Nodes, x: XNode, j: XNode)
    requires Forest(n) && IsKind(n, x, Host) && IsKind(n, j, Job)
    ensures var n', p := MoveHost(n, x, j), n[x].parent;
      && n'.Keys == n.Keys && IsKind(n, p, Job) && Moved(n, n', x, j)
      && SameBut(n, n', {x, p}) && (if p == j then Same(n, n', p) else LeftAt(n, n', p))
  {
    var n', p := MoveHost(n, x, j), n[x].parent;
    assert Linked(n, x);
    assert Linked(n, p);
    if p != j {
      SetParentAt(n, x, j);
      SetParentForest(n, x, j);
      var n1 := SetParent(n, x, j);
      assert Linked(n1, p);
      hide SetParent, Forest;
      forall y | y in n && y !in {x, p} ensures Same(n, n', y) {
      }
    }
  }

  /** What a line of a cluster does: the job it names is found, or created below the cluster with the owner it names;
      the host it names is found or created, and hangs below that job afterwards; and the timer of the job the host has
      left is armed if that is empty now and not fake. */
  ghost predicate LineTaken(h: Hier, h': Hier, clus: XNode, host: string, job: string, owner: string, nj: XNode,
                            nh: XNode, junk: bool) {
    var j, x := Or(h, Job, job, nj), Or(h, Host, host, nh);
    && h'.names == h.names[(Job, job) := j][(Host, host) := x]
    && h' == h.(nodes := h'.nodes, names := h'.names, ever := h'.ever) && h'.nodes.Keys == h.nodes.Keys + {j, x}
    && x in h'.nodes && h'.nodes[x].parent == j
    && ((Job, job) !in h.names ==> j in h'.nodes && JobBegun(h'.nodes[j], job, clus, owner, junk))
    && ((Job, job) in h.names ==> Same(h.nodes, h'.nodes, j))
    && ((Host, host) !in h.names ==> IsNew(h'.nodes, x, Host, host, j, "", false) && SameBut(h.nodes, h'.nodes, {}))
    && ((Host, host) in h.names ==>
          && x in h.nodes && Moved(h.nodes, h'.nodes, x, j)
          && SameBut(h.nodes, h'.nodes, {x, h.nodes[x].parent})
          && (h.nodes[x].parent != j ==> LeftAt(h.nodes, h'.nodes, h.nodes[x].parent)))
  }

  /** A new job, whatever hosts it has. */
  ghost predicate JobBegun(node: Node, name: string, clus: XNode, owner: string, junk: bool) {
    node == Node(Job, name, clus, node.children, node.nrChild, owner, junk, false, null)
  }

  lemma SameTwice(n: Nodes, n1: Nodes, n2: Nodes, y: XNode)
    requires Same(n, n1, y)
    ensures Same(n1, n2, y) ==> Same(n, n2, y)
    ensures LeftAt(n1, n2, y) ==> LeftAt(n, n2, y)
    ensures forall j :: Moved(n1, n2, y, j) ==> Moved(n, n2, y, j)
  {
  }

  /** The job `j` has been found or created. */
  ghost predicate JobFound(h: Hier, h1: Hier, j: XNode, clus: XNode, job: string, owner: string, nj: XNode,
                           junk: bool) {
    && j == Or(h, Job, job, nj) && h1.names == h.names[(Job, job) := j]
    && h1 == h.(nodes := h1.nodes, names := h1.names, ever := h1.ever)
    && h1.nodes.Keys == h.nodes.Keys + {j} && SameBut(h.nodes, h1.nodes, {})
    && if (Job, job) in h.names then h1 == h && j in h.nodes
       else j !in h.nodes && IsNew(h1.nodes, j, Job, job, clus, owner, junk)
  }

  /** A host that is not known yet begins below the job. */
  lemma HostJoins(h: Hier, h1: Hier, j: XNode, clus: XNode, host: string, job: string, owner: string, nj: XNode,
                  nh: XNode, junk: bool, h2: Hier)
    requires JobFound(h, h1, j, clus, job, owner, nj, junk) && j in h2.nodes
    requires (Host, host) !in h1.names && h2.names == h1.names[(Host, host) := nh] && nh !in h1.nodes
    requires h2 == h1.(nodes := h2.nodes, names := h2.names, ever := h2.ever)
    requires h2.nodes.Keys == h1.nodes.Keys + {nh} && SameBut(h1.nodes, h2.nodes, {})
    requires IsNew(h2.nodes, nh, Host, host, j, "", false)
    ensures LineTaken(h, h2, clus, host, job, owner, nj, nh, junk)
  {
    forall y | y in h.nodes ensures Same(h.nodes, h2.nodes, y) {
      assert Same(h.nodes, h1.nodes, y) && Same(h1.nodes, h2.nodes, y);
      SameTwice(h.nodes, h1.nodes, h2.nodes, y);
    }
    assert Same(h1.nodes, h2.nodes, j);
  }

  /** A known one moves there. */
  lemma HostMoves(h: Hier, h1: Hier, j: XNode, clus: XNode, host: string, job: string, owner: string, nj: XNode,
                  nh: XNode, junk: bool, x: XNode, n': Nodes)
    requires JobFound(h, h1, j, clus, job, owner, nj, junk) && j in h1.nodes
    requires (Host, host) in h.names && x == h.names[(Host, host)] && x in h.nodes && h.nodes[x].parent in h.nodes
    requires n'.Keys == h1.nodes.Keys && x != j && h.nodes[x].parent == h1.nodes[x].parent != x
    requires Moved(h1.nodes, n', x, j) && SameBut(h1.nodes, n', {x, h.nodes[x].parent})
    requires var p := h.nodes[x].parent; if p == j then Same(h1.nodes, n', p) else LeftAt(h1.nodes, n', p)
    ensures LineTaken(h, h1.(nodes := n'), clus, host, job, owner, nj, nh, junk)
  {
    var p := h.nodes[x].parent;
    assert Same(h.nodes, h1.nodes, x) && Same(h.nodes, h1.nodes, p);
    SameTwice(h.nodes, h1.nodes, n', x);
    SameTwice(h.nodes, h1.nodes, n', p);
    forall y | y in h.nodes && y !in {x, p} ensures Same(h.nodes, n', y) {
      assert Same(h.nodes, h1.nodes, y) && Same(h1.nodes, n', y);
      SameTwice(h.nodes, h1.nodes, n', y);
    }
    assert (Host, host) in h1.names && h1.names[(Host, host) := x] == h1.names;
    assert j != p ==> Same(h1.nodes, n', j);
    hide Moved, LeftAt;
  }

  lemma ClusMessageMeans(h: Hier, clus: XNode, host: string, job: string, owner: string, nj: XNode, nh: XNode,
                         junk: bool)
    requires Tree(h) && IsKind(h.nodes, clus, Clus) && SpareLine(h, host, job, nj, nh)
    ensures LineTaken(h, ClusMessage(h, clus, host, job, owner, nj, nh, junk), clus, host, job, owner, nj, nh, junk)
  {
    var (h1, j) := Lookup(h, nj, NewNode(Job, job, clus, owner, junk));
    var (h2, x) := Lookup(h1, nh, NewNode(Host, host, j, "", false));
    assert ClusMessage(h, clus, host, job, owner, nj, nh, junk) == h2.(nodes := MoveHost(h2.nodes, x, j));
    LineNodesTree(h, clus, host, job, owner, nj, nh, junk);
    LookupMeans(h, nj, NewNode(Job, job, clus, owner, junk));
    LookupMeans(h1, nh, NewNode(Host, host, j, "", false));
    assert JobFound(h, h1, j, clus, job, owner, nj, junk);
    if (Host, host) in h.names {
      HostIs(h, host, x);
      assert Same(h.nodes, h1.nodes, x);
      MoveHostMeans(h1.nodes, x, j);
      hide Tree, IsKind, SpareLine, Lookup, MoveHost, JobFound, LineTaken, SameBut, LeftAt, Moved, ClusMessage,
        CanLookup;
      HostMoves(h, h1, j, clus, host, job, owner, nj, nh, junk, x, MoveHost(h1.nodes, x, j));
    } else {
      NewStays(h2.nodes, x, j);
      hide Tree, IsKind, SpareLine, Lookup, MoveHost, JobFound, LineTaken, SameBut, ClusMessage, CanLookup, IsNew;
      HostJoins(h, h1, j, clus, host, job, owner, nj, nh, junk, h2);
    }
  }

  lemma HostIs(h: Hier, host: string, x: XNode)
    requires Tree(h) && (Host, host) in h.names && x == h.names[(Host, host)]
    ensures IsKind(h.nodes, x, Host) && h.nodes[x].parent in h.nodes && h.nodes[x].parent != x
  {
    assert NameOk(h, (Host, host));
    assert Linked(h.nodes, x);
  }

  lemma NewStays(n: Nodes, x: XNode, j: XNode)
    requires x in n && n[x].parent == j
    ensures MoveHost(n, x, j) == n
  {
  }

  /** A line of a cluster, as a step of the machine: nothing but the trees changes, and they change so. */
  lemma ClusLineMeans(s: Sys, e: Step)
    requires Inv(s) && e.ClusLine? && Enabled(s, e)
    ensures var s1 := Next(s, e);
      && s1 == s.(h := s1.h)
      && LineTaken(s.h, s1.h, e.clus, e.host, e.job, e.owner, e.nj, e.nh, e.junk)
  {
    ClusMessageMeans(s.h, e.clus, e.host, e.job, e.owner, e.nj, e.nh, e.junk);
    hide Tree, IdleJobs, Table, LogOk, ClusMessage, LineTaken;
  }

  // ---------- a job's timer ----------

  lemma ZombieHierMeans(h: Hier, j: XNode)
    requires Tree(h) && IsKind(h.nodes, j, Job)
    ensures var h1, job := ZombieHier(h, j), h.nodes[j];
      if job.fake || job.children != [] then h1 == h.(nodes := h.nodes[j := job.(zombie := !job.fake)])
      else
        && h1 == h.(nodes := h1.nodes, names := h.names - {(Job, job.name)})
        && h1.nodes.Keys == h.nodes.Keys - {j} && SameBut(h.nodes, h1.nodes, {j})
        && job.parent in h1.nodes && h1.nodes[job.parent].children == Without(h.nodes[job.parent].children, j)
  {
    assert Linked(h.nodes, j);
    hide Forest, NamesAgree, Roots, Without, NoDups;
  }

  /** The timer of job j: of a fake job nothing comes; with hosts it is started again; otherwise the job, its name and
      all its pairs go, and it leaves its cluster's list. */
  lemma ZombieMeans(s: Sys, j: XNode)
    requires Inv(s) && Enabled(s, Zombie(j))
    ensures var s1, job := Next(s, Zombie(j)), s.h.nodes[j];
      if job.fake || job.children != [] then
        s1 == s.(h := s.h.(nodes := s.h.nodes[j := job.(zombie := !job.fake)]))
      else
        && s1.h == s.h.(nodes := s1.h.nodes, names := s.h.names - {(Job, job.name)})
        && s1.h.nodes.Keys == s.h.nodes.Keys - {j} && SameBut(s.h.nodes, s1.h.nodes, {j})
        && job.parent in s1.h.nodes
        && s1.h.nodes[job.parent].children == Without(s.h.nodes[job.parent].children, j)
        && s1 == s.(h := s1.h, flows := s1.flows, nrK := s1.nrK)
        && s1.flows == (map k | k in s.flows && k.0 != j :: s.flows[k]) && s1.nrK == |s1.flows|
  {
    ZombieHierMeans(s.h, j);
    StepKeepsInv(s, Zombie(j));
    InvSize(Next(s, Zombie(j)));
    hide Tree, IdleJobs, Table, LogOk, Lifecycle, ZombieHier, SameBut, Without, Inv;
  }

  lemma InvSize(s: Sys)
    requires Inv(s)
    ensures s.nrK == |s.flows|
  {
    hide Tree, LogOk, Lifecycle;
  }

  // ---------- configuration ----------

  /** A new cluster comes with a job for idle hosts, named after it, which is marked fake even if it exists already. */
  lemma AddClusterMeans(s: Sys, e: Step)
    requires Inv(s) && e.AddCluster? && Enabled(s, e)
    ensures var h, h1, idle := s.h, Next(s, e).h, "IDLE@" + e.name;
      var j := Or(h, Job, idle, e.nj);
      && Next(s, e) == s.(h := h1) && ((Clus, e.name) in h.names ==> h1 == h)
      && ((Clus, e.name) !in h.names ==>
            && h1 == h.(nodes := h1.nodes, names := h.names[(Clus, e.name) := e.c][(Job, idle) := j], ever := h1.ever)
            && e.c in h1.nodes && h1.nodes[e.c].parent == h.u && h1.nodes[e.c].name == e.name
            && h1.nodes[e.c].kind == Clus && h1.nodes[e.c].idle == j
            && j in h1.nodes && h1.nodes[j].fake
            && ((Job, idle) !in h.names ==> JobBegun(h1.nodes[j], idle, e.c, "NONE", true))
            && ((Job, idle) in h.names ==>
                  j in h.nodes && h1.nodes[j] == h.nodes[j].(fake := true, children := h1.nodes[j].children,
                                                             nrChild := h1.nodes[j].nrChild))
            && SameBut(h.nodes, h1.nodes, {j}))
  {
    AddClusMeans(s.h, e.name, e.c, e.nj, e.junk);
    hide Tree, IdleJobs, Table, LogOk, AddClus, SameBut;
  }

  lemma AddClusMeans(h: Hier, name: string, c: XNode, nj: XNode, junk: bool)
    requires Tree(h) && SpareClus(h, name, c, nj)
    ensures var h1, idle := AddClus(h, name, c, nj, junk), "IDLE@" + name;
      var j := Or(h, Job, idle, nj);
      && ((Clus, name) in h.names ==> h1 == h)
      && ((Clus, name) !in h.names ==>
            && h1 == h.(nodes := h1.nodes, names := h.names[(Clus, name) := c][(Job, idle) := j], ever := h1.ever)
            && c in h1.nodes && h1.nodes[c].parent == h.u && h1.nodes[c].name == name
            && h1.nodes[c].kind == Clus && h1.nodes[c].idle == j
            && j in h1.nodes && h1.nodes[j].fake
            && ((Job, idle) !in h.names ==> JobBegun(h1.nodes[j], idle, c, "NONE", true))
            && ((Job, idle) in h.names ==>
                  j in h.nodes && h1.nodes[j] == h.nodes[j].(fake := true, children := h1.nodes[j].children,
                                                             nrChild := h1.nodes[j].nrChild))
            && SameBut(h.nodes, h1.nodes, {j}))
  {
    if (Clus, name) !in h.names {
      var s1 := AddNode(h, c, NewNode(Clus, name, h.u, "", false));
      assert CanLookup(h, c, NewNode(Clus, name, h.u, "", false));
      LookupTree(h, c, NewNode(Clus, name, h.u, "", false));
      LookupMeans(h, c, NewNode(Clus, name, h.u, "", false));
      LookupMeans(s1, nj, NewNode(Job, IDLE + name, c, "NONE", junk));
      var (s2, j) := Lookup(s1, nj, NewNode(Job, IDLE + name, c, "NONE", junk));
      assert Same(s1.nodes, s2.nodes, c);
      if (Job, IDLE + name) in h.names {
        assert NameOk(h, (Job, IDLE + name));
      }
      assert j in s2.nodes && c in s2.nodes && j != c;
      hide Tree, Lookup, CanLookup, Linking, SpareClus;
      forall y | y in h.nodes && y != j ensures Same(h.nodes, MarkIdle(s2.nodes, c, j), y) {
        assert Same(h.nodes, s1.nodes, y) && Same(s1.nodes, s2.nodes, y);
      }
      if (Job, IDLE + name) in h.names {
        assert Same(h.nodes, s1.nodes, j) && Same(s1.nodes, s2.nodes, j);
      }
    }
  }

  /** A file system below V... */
  lemma AddFsMeans(s: Sys, e: Step)
    requires Inv(s) && e.AddFs? && Enabled(s, e)
    ensures ProviderAdded(s, Next(s, e), Fs, e.name, e.x, s.h.v)
  {
    ProviderPlaced(s, e.x, NewNode(Fs, e.name, s.h.v, "", false));
    LookupMeans(s.h, e.x, NewNode(Fs, e.name, s.h.v, "", false));
    hide Tree, IdleJobs, Table, LogOk, Lookup, SameBut;
  }

  /** ... and a server below its file system. */
  lemma AddServMeans(s: Sys, e: Step)
    requires Inv(s) && e.AddServ? && Enabled(s, e)
    ensures ProviderAdded(s, Next(s, e), Serv, e.name, e.x, e.fs)
  {
    ProviderPlaced(s, e.x, NewNode(Serv, e.name, e.fs, "", false));
    LookupMeans(s.h, e.x, NewNode(Serv, e.name, e.fs, "", false));
    hide Tree, IdleJobs, Table, LogOk, Lookup, SameBut;
  }

  ghost predicate ProviderAdded(s: Sys, s1: Sys, kind: Kind, name: string, x: XNode, parent: XNode) {
    var y := Or(s.h, kind, name, x);
    && s1 == s.(h := s.h.(nodes := s1.h.nodes, names := s.h.names[(kind, name) := y], ever := s1.h.ever))
    && ((kind, name) in s.h.names ==> s1 == s) && SameBut(s.h.nodes, s1.h.nodes, {})
    && ((kind, name) !in s.h.names ==> IsNew(s1.h.nodes, y, kind, name, parent, "", false))
  }

  lemma ProviderPlaced(s: Sys, x: XNode, node: Node)
    requires Inv(s) && node == NewNode(node.kind, node.name, node.parent, "", false)
    requires (node.kind == Fs && node.parent == s.h.v) || (node.kind == Serv && IsKind(s.h.nodes, node.parent, Fs))
    requires Spare(s.h, x, node.kind, node.name)
    ensures CanLookup(s.h, x, node)
  {
  }

  // ---------- queries ----------

  /** A query catches up exactly the pairs it names, and changes nothing else but the clock. */
  lemma QueryMeans(s: Sys, ks: set<Pair>, at: real)
    requires Inv(s) && Enabled(s, Query(ks, at))
    ensures var s1 := Next(s, Query(ks, at));
      && s1 == s.(flows := s1.flows, now := at) && s1.flows.Keys == s.flows.Keys
      && forall k :: k in s.flows ==>
           s1.flows[k] == if k in ks then Freshen(s.p, s.flows[k], at) else s.flows[k]
  {
    hide Tree, IdleJobs, Table, LogOk, Freshen;
  }
}
