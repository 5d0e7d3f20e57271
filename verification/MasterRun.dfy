/** Whole runs of xltop-master: the event loop of src/master.c calls back for configuration, lines from servers and
    clusters, timers and queries, in any order. Whatever it calls is a run of the machine, so what is proved about the
    machine's reachable states holds of the nodes and tables in memory. */
module MasterRuns {
  import opened Basics
  import opened Strings
  import opened XNodes
  import opened Ewma
  import opened Hierarchy
  import opened FlowTable
  import opened Machine
  import opened Reachable
  import opened Masters
  import opened Ordering
  import opened Walks
  import opened Lnets
  import Tops
  import Listings

  /** What happens, with nodes by name as they come from configuration files, URLs and lines. */
  datatype Event =
    | Cluster(name: string, junk: bool)
    | Domain(domain: string, clus: string)
    | FileSystem(name: string)
    | Server(name: string, fs: string)
    | NidFile(line: string)
    | ServPut(serv: string, msg: string, at: real)
    | ClusPut(clus: string, msg: string, junk: bool)
    | Timer(job: string)
    | Top(x0: (Kind, string), x1: (Kind, string), d0: nat, d1: nat, limit: nat, spec: Spec, filter: Filter, at: real)
    | List(serv: string, at: real)

  predicate Timed(e: Event) {
    e.ServPut? || e.Top? || e.List?
  }

  /** The clock starts after zero and never goes back. */
  ghost predicate Ordered(events: seq<Event>) {
    && (forall i :: 0 <= i < |events| && Timed(events[i]) ==> 0.0 < events[i].at)
    && forall i, j :: 0 <= i < j < |events| && Timed(events[i]) && Timed(events[j]) ==> events[i].at <= events[j].at
  }

  // ---------- runs of the machine ----------

  lemma FirstStep(s: Sys, es: seq<Step>)
    requires Inv(s) && Legal(s, es) && es != []
    ensures Enabled(s, es[0]) && Inv(Next(s, es[0])) && Legal(Next(s, es[0]), es[1..])
    ensures After(s, es) == After(Next(s, es[0]), es[1..])
  {
    StepKeepsInv(s, es[0]);
  }

  /** A run goes on. */
  lemma {:induction false} RunOn(s: Sys, es: seq<Step>, e: Step)
    requires Inv(s) && Legal(s, es) && Enabled(After(s, es), e)
    ensures Legal(s, es + [e]) && After(s, es + [e]) == Next(After(s, es), e)
    decreases |es|
  {
    hide *;
    InvParts(s);
    if es == [] {
      NoStep(s);
      StepKeepsInv(s, e);
      NoStep(Next(s, e));
      OneStep(s, e, []);
      assert [] + [e] == [e] + [];
    } else {
      FirstStep(s, es);
      RunOn(Next(s, es[0]), es[1..], e);
      OneStep(s, es[0], es[1..] + [e]);
      assert es + [e] == [es[0]] + (es[1..] + [e]);
    }
  }

  lemma NextNow(s: Sys, e: Step)
    requires Inv(s) && Enabled(s, e)
    ensures Next(s, e).now == if e.ServLine? || e.Query? then e.at else s.now
  {
  }

  // ---------- what an event asks for ----------

  /** clus_msg_cb splits its line: host, job and owner, who is NONE if there is no third word; nothing if there are not
      two. */
  function ClusWords(msg: string): Option<(string, string, string)> {
    var ws := Words(CString(msg));
    if |ws| < 2 then None else Some((ws[0], ws[1], if |ws| > 2 then ws[2] else "NONE"))
  }

  lemma SolidLine(a: string, b: string)
    requires '\0' !in a && Solid(b)
    ensures '\0' !in a + [' '] + b && (Solid(a) ==> '\0' !in a)
  {
  }

  lemma ClusWordsMeans(host: string, job: string, owner: string)
    requires Solid(host) && host != "" && Solid(job) && job != "" && Solid(owner) && owner != ""
    ensures ClusWords(host) == None && ClusWords(host + [' '] + job) == Some((host, job, "NONE"))
    ensures ClusWords(host + [' '] + job + [' '] + owner) == Some((host, job, owner))
  {
    SolidLine(host, job);
    SolidLine(host + [' '] + job, owner);
    hide Words, CString, Solid;
    CStringAll(host);
    CStringAll(host + [' '] + job);
    CStringAll(host + [' '] + job + [' '] + owner);
    WordsLast(host);
    WordsTwo(host, job);
    WordsThree(host, job, owner);
  }

  /** All the master has in memory: the machine's state and the network's table. */
  datatype State = State(s: Sys, t: map<string, XNode>)

  ghost function Known(a: State, kind: Kind, name: string): Option<XNode> {
    if (kind, name) in a.s.h.names then Some(a.s.h.names[(kind, name)]) else None
  }

  /** The host's name that a server's line stands for. */
  function NameIn(t: map<string, XNode>, nid: string): string {
    if nid in t then t[nid].name else nid
  }

  /** x is the host of that name, or the node for a new one. */
  ghost predicate IsHost(a: State, name: string, x: XNode) {
    HostLookup(a.s.h, name, x).1 == x
  }

  lemma IsHostIs(a: State, name: string, x: XNode)
    ensures IsHost(a, name, x) <==> HostLookup(a.s.h, name, x).1 == x
  {
  }

  /** The pairs a top query freshens. */
  ghost function Reached(a: State, e: Event): set<Pair>
    requires e.Top?
  {
    match (Known(a, e.x0.0, e.x0.1), Known(a, e.x1.0, e.x1.1))
    case (Some(x0), Some(x1)) => Tops.SetOf(Visit(a.s.h.nodes, a.s.flows.Keys, x0, e.d0, x1, e.d1, e.filter))
    case _ => {}
  }

  ghost function Shown(a: State, sx: XNode): set<Pair> {
    Tops.SetOf(Listings.Listed(a.s.h.nodes, a.s.flows.Keys, a.s.h.u, sx))
  }

  /** The step `e` asks for. None if a node it names is not there, a timer is not armed, or a line has no two words. */
  ghost predicate Asked(a: State, e: Event, scan: string -> Reading, x: Option<Step>) {
    match e
    case Cluster(name, junk) => x.Some? && x.value.AddCluster? && x.value.name == name && x.value.junk == junk
    case Domain(domain, clus) =>
      (match Known(a, Clus, clus) case None => x == None case Some(c) => x == Some(AddDomain(domain, c)))
    case FileSystem(name) => x.Some? && x.value.AddFs? && x.value.name == name
    case Server(name, fs) =>
      (match Known(a, Fs, fs)
       case None => x == None
       case Some(f) => x.Some? && x.value.AddServ? && x.value.name == name && x.value.fs == f)
    case NidFile(line) =>
      (match NidLine(line)
       case None => x == None
       case Some((_, name)) => x.Some? && x.value.AddHost? && x.value.name == name && IsHost(a, name, x.value.x))
    case ServPut(serv, msg, at) =>
      (match (Known(a, Serv, serv), Wsep(msg))
       case (Some(v), (Some(nid), Some(rest))) =>
         && x.Some? && x.value.ServLine? && x.value == ServLine(v, NameIn(a.t, nid), scan(rest), at, x.value.x)
         && IsHost(a, NameIn(a.t, nid), x.value.x)
       case _ => x == None)
    case ClusPut(clus, msg, junk) =>
      (match (Known(a, Clus, clus), ClusWords(msg))
       case (Some(c), Some((host, job, owner))) =>
         x.Some? && x.value.ClusLine? && x.value == ClusLine(c, host, job, owner, x.value.nj, x.value.nh, junk)
       case _ => x == None)
    case Timer(job) =>
      (match Known(a, Job, job)
       case None => x == None
       case Some(j) => j in a.s.h.nodes && x == if a.s.h.nodes[j].zombie then Some(Zombie(j)) else None)
    case Top(_, _, _, _, _, _, _, at) => x == Some(Query(Reached(a, e), at))
    case List(serv, at) =>
      (match Known(a, Serv, serv) case None => x == None case Some(sx) => x == Some(Query(Shown(a, sx), at)))
  }

  /** What the network's table learns from it. */
  ghost function Learned(t: map<string, XNode>, e: Event, x: Option<Step>): map<string, XNode> {
    if e.ServPut? && x.Some? && x.value.ServLine? && Wsep(e.msg).0.Some? then t[Wsep(e.msg).0.value := x.value.x]
    else if e.NidFile? && x.Some? && x.value.AddHost? && NidLine(e.line).Some? then
      t[NidLine(e.line).value.0 := x.value.x]
    else t
  }

  /** The NIDs lead to hosts. */
  ghost predicate Wired(a: State) {
    forall nid :: nid in a.t ==>
      && IsKind(a.s.h.nodes, a.t[nid], Host) && a.t[nid].kind == Host
      && a.s.h.nodes[a.t[nid]].name == a.t[nid].name
  }

  /** What an event does: the step it asks for, and nothing else. */
  ghost predicate Turns(a: State, e: Event, scan: string -> Reading, x: Option<Step>, b: State) {
    && Inv(a.s) && Wired(a) && Asked(a, e, scan, x) && b.t == Learned(a.t, e, x)
    && match x
       case None => b.s == a.s
       case Some(step) => Enabled(a.s, step) && b.s == Next(a.s, step)
  }

  // ---------- one callback ----------

  ghost predicate Ready(m: Master, l: Lnet, e: Event)
    reads *
  {
    m.Valid() && l.Knows(m) && (Timed(e) ==> 0.0 < e.at && m.now <= e.at)
  }

  lemma ReadyIs(m: Master, l: Lnet, e: Event)
    requires Ready(m, l, e)
    ensures m.Valid() && l.Knows(m) && (e.ServPut? || e.Top? || e.List? ==> 0.0 < e.at && m.now <= e.at)
    ensures Wired(State(m.S(), l.table)) && Inv(m.S()) && m.S().h.names == m.names && m.S().h.u == m.u
    ensures m.S().h.nodes == m.Nodes() && m.S().flows.Keys == m.table.Keys
  {
    WiredIs(m, l);
    m.Parts();
    assert m.Flows().Keys == m.table.Keys;
    hide Lnet.Knows, Wired;
  }

  lemma WiredIs(m: Master, l: Lnet)
    requires m.Valid() && l.Knows(m)
    ensures Wired(State(m.S(), l.table))
  {
    hide Master.Valid;
    m.Parts();
    forall nid | nid in l.table
      ensures IsKind(m.Nodes(), l.table[nid], Host) && m.Nodes()[l.table[nid]].name == l.table[nid].name
    {
      m.At(l.table[nid]);
    }
  }

  /** The callback for `e` has done what the event asks for, and the state is good. */
  ghost predicate Handled(m: Master, l: Lnet, a: State, e: Event, scan: string -> Reading, x: Option<Step>)
    reads *
  {
    m.Valid() && l.Knows(m) && Turns(a, e, scan, x, State(m.S(), l.table))
  }

  /** Any step of the master that leaves the network's table alone. */
  lemma Steps(m: Master, l: Lnet, a: State, e: Event, scan: string -> Reading, x: Step)
    requires a.t == l.table && Wired(a) && m.Stepped(a.s, x) && Asked(a, e, scan, Some(x))
    requires !e.ServPut? && !e.NidFile?
    ensures Handled(m, l, a, e, scan, Some(x))
  {
    l.HostsStay(m, a.s, x);
  }

  lemma Nothing(m: Master, l: Lnet, e: Event, scan: string -> Reading)
    requires Ready(m, l, e) && Asked(State(m.S(), l.table), e, scan, None)
    ensures Handled(m, l, State(m.S(), l.table), e, scan, None)
  {
    WiredIs(m, l);
    hide Wired, Lnet.Knows, Inv;
  }

  lemma KnownIs(a: State, kind: Kind, name: string)
    ensures Known(a, kind, name) == if (kind, name) in a.s.h.names then Some(a.s.h.names[(kind, name)]) else None
  {
  }

  /** x_lookup without L_CREATE */
  method Node(m: Master, kind: Kind, name: string) returns (x: XNode?)
    requires m.Valid()
    ensures x == (if (kind, name) in m.names then m.names[(kind, name)] else null)
    ensures x != null ==> x in m.live && x.kind == kind
  {
    hide Master.Valid;
    m.Ready(kind, name);
    x := m.XFind(kind, name);
  }

  lemma AsksCluster(a: State, e: Event, scan: string -> Reading, c: XNode, nj: XNode)
    requires e.Cluster?
    ensures Asked(a, e, scan, Some(Step.AddCluster(e.name, c, nj, e.junk)))
  {
  }

  /** A cluster of the configuration. */
  method OnCluster(m: Master, l: Lnet, e: Event, scan: string -> Reading) returns (ghost x: Option<Step>)
    requires e.Cluster? && Ready(m, l, e)
    modifies m, l, m.live, m.pool
    ensures Handled(m, l, old(State(m.S(), l.table)), e, scan, x)
    ensures fresh(m.live - old(m.live)) && fresh(m.pool - old(m.pool))
  {
    hide *;
    ReadyIs(m, l, e);
    ghost var a := State(m.S(), l.table);
    var c, nj := m.AddCluster(e.name, e.junk);
    x := Some(Step.AddCluster(e.name, c, nj, e.junk));
    AsksCluster(a, e, scan, c, nj);
    Steps(m, l, a, e, scan, x.value);
  }

  lemma AsksDomain(a: State, e: Event, scan: string -> Reading)
    requires e.Domain?
    ensures Known(a, Clus, e.clus) == None ==> Asked(a, e, scan, None)
    ensures Known(a, Clus, e.clus).Some? ==>
      Asked(a, e, scan, Some(Step.AddDomain(e.domain, Known(a, Clus, e.clus).value)))
  {
  }

  method OnDomain(m: Master, l: Lnet, e: Event, scan: string -> Reading) returns (ghost x: Option<Step>)
    requires e.Domain? && Ready(m, l, e)
    modifies m, l, m.live, m.pool
    ensures Handled(m, l, old(State(m.S(), l.table)), e, scan, x)
    ensures fresh(m.live - old(m.live)) && fresh(m.pool - old(m.pool))
  {
    hide *;
    ReadyIs(m, l, e);
    ghost var a := State(m.S(), l.table);
    KnownIs(a, Clus, e.clus);
    AsksDomain(a, e, scan);
    var c := Node(m, Clus, e.clus);
    if c == null {
      Nothing(m, l, e, scan);
      return None;
    }
    m.AddDomain(e.domain, c);
    x := Some(Step.AddDomain(e.domain, c));
    Steps(m, l, a, e, scan, x.value);
  }

  lemma AsksFileSystem(a: State, e: Event, scan: string -> Reading, x: XNode)
    requires e.FileSystem?
    ensures Asked(a, e, scan, Some(Step.AddFs(e.name, x)))
  {
  }

  method OnFileSystem(m: Master, l: Lnet, e: Event, scan: string -> Reading) returns (ghost x: Option<Step>)
    requires e.FileSystem? && Ready(m, l, e)
    modifies m, l, m.live, m.pool
    ensures Handled(m, l, old(State(m.S(), l.table)), e, scan, x)
    ensures fresh(m.live - old(m.live)) && fresh(m.pool - old(m.pool))
  {
    hide *;
    ReadyIs(m, l, e);
    ghost var a := State(m.S(), l.table);
    var fs := m.AddFs(e.name);
    x := Some(Step.AddFs(e.name, fs));
    AsksFileSystem(a, e, scan, fs);
    Steps(m, l, a, e, scan, x.value);
  }

  lemma AsksServer(a: State, e: Event, scan: string -> Reading)
    requires e.Server?
    ensures Known(a, Fs, e.fs) == None ==> Asked(a, e, scan, None)
    ensures Known(a, Fs, e.fs).Some? ==>
      forall x :: Asked(a, e, scan, Some(Step.AddServ(e.name, Known(a, Fs, e.fs).value, x)))
  {
  }

  method OnServer(m: Master, l: Lnet, e: Event, scan: string -> Reading) returns (ghost x: Option<Step>)
    requires e.Server? && Ready(m, l, e)
    modifies m, l, m.live, m.pool
    ensures Handled(m, l, old(State(m.S(), l.table)), e, scan, x)
    ensures fresh(m.live - old(m.live)) && fresh(m.pool - old(m.pool))
  {
    hide *;
    ReadyIs(m, l, e);
    ghost var a := State(m.S(), l.table);
    KnownIs(a, Fs, e.fs);
    AsksServer(a, e, scan);
    var fs := Node(m, Fs, e.fs);
    if fs == null {
      Nothing(m, l, e, scan);
      return None;
    }
    var v := m.AddServ(e.name, fs);
    x := Some(Step.AddServ(e.name, fs, v));
    Steps(m, l, a, e, scan, x.value);
  }

  lemma AsksNidFile(a: State, e: Event, scan: string -> Reading, nid: string, name: string, nh: XNode)
    requires e.NidFile?
    ensures NidLine(e.line) == None ==> Asked(a, e, scan, None) && Learned(a.t, e, None) == a.t
    ensures NidLine(e.line) == Some((nid, name)) && IsHost(a, name, nh) ==>
      Asked(a, e, scan, Some(AddHost(name, nh))) && Learned(a.t, e, Some(AddHost(name, nh))) == a.t[nid := nh]
  {
    hide NidLine, IsHost;
  }

  lemma TookNothing(m: Master, l: Lnet, a: State, e: Event, scan: string -> Reading)
    requires m.Valid() && l.Knows(m) && m.S() == a.s && l.table == a.t && Inv(a.s) && Wired(a)
    requires Asked(a, e, scan, None) && Learned(a.t, e, None) == a.t
    ensures Handled(m, l, a, e, scan, None)
  {
    hide Asked, Learned, Wired, Inv, Master.Valid, Lnet.Knows;
  }

  lemma Took(m: Master, l: Lnet, a: State, e: Event, scan: string -> Reading, x: Step)
    requires m.Valid() && l.Knows(m) && m.Stepped(a.s, x) && Asked(a, e, scan, Some(x)) && Wired(a)
    requires l.table == Learned(a.t, e, Some(x))
    ensures Handled(m, l, a, e, scan, Some(x))
  {
    m.SteppedMeans(a.s, x);
    hide Asked, Learned, Wired, Inv, Enabled, Next, Master.Valid, Lnet.Knows, Master.Stepped;
  }

  lemma NidFileDone(m: Master, l: Lnet, a: State, e: Event, scan: string -> Reading, nh: XNode?,
                    words: Option<(string, string)>) returns (x: Option<Step>)
    requires e.NidFile? && Inv(a.s) && Wired(a) && m.Valid() && l.Knows(m) && NidLine(e.line) == words
    requires words == None ==> nh == null && m.S() == a.s && l.table == a.t
    requires words.Some? ==>
      && nh != null && l.table == a.t[words.value.0 := nh] && m.Stepped(a.s, AddHost(words.value.1, nh))
      && HostLookup(a.s.h, words.value.1, nh).1 == nh
    ensures Handled(m, l, a, e, scan, x)
  {
    hide *;
    x := None;
    match words {
      case None =>
        AsksNidFile(a, e, scan, "", "", a.s.h.u);
        TookNothing(m, l, a, e, scan);
      case Some((nid, name)) =>
        IsHostIs(a, name, nh);
        AsksNidFile(a, e, scan, nid, name, nh);
        x := Some(AddHost(name, nh));
        Took(m, l, a, e, scan, x.value);
    }
  }

  /** A line of a network's file. */
  method OnNidFile(m: Master, l: Lnet, e: Event, scan: string -> Reading) returns (ghost x: Option<Step>)
    requires e.NidFile? && Ready(m, l, e)
    modifies m, l, m.live, m.pool
    ensures Handled(m, l, old(State(m.S(), l.table)), e, scan, x)
    ensures fresh(m.live - old(m.live)) && fresh(m.pool - old(m.pool))
  {
    hide *;
    ReadyIs(m, l, e);
    ghost var a := State(m.S(), l.table);
    ghost var nh := l.ReadLine(m, e.line);
    x := NidFileDone(m, l, a, e, scan, nh, NidLine(e.line));
  }

  lemma AsksServPut(a: State, e: Event, scan: string -> Reading, nid: Option<string>, rest: Option<string>, nh: XNode)
    requires e.ServPut? && Wsep(e.msg) == (nid, rest)
    ensures Known(a, Serv, e.serv) == None || nid == None || rest == None ==>
      Asked(a, e, scan, None) && Learned(a.t, e, None) == a.t
    ensures Known(a, Serv, e.serv).Some? && nid.Some? && rest.Some? && IsHost(a, NameIn(a.t, nid.value), nh) ==>
      var x := ServLine(Known(a, Serv, e.serv).value, NameIn(a.t, nid.value), scan(rest.value), e.at, nh);
      Asked(a, e, scan, Some(x)) && Learned(a.t, e, Some(x)) == a.t[nid.value := nh]
  {
    hide Wsep, NameIn, IsHost;
  }

  lemma ServPutDone(m: Master, l: Lnet, a: State, e: Event, scan: string -> Reading, v: XNode, nh: XNode?,
                    nid: Option<string>, rest: Option<string>) returns (x: Option<Step>)
    requires e.ServPut? && Inv(a.s) && Wired(a) && m.Valid() && l.Knows(m)
    requires Known(a, Serv, e.serv) == Some(v)
    requires Wsep(e.msg) == (nid, rest)
    requires nid == None || rest == None ==> nh == null && m.S() == a.s && l.table == a.t
    requires nid.Some? && rest.Some? ==>
      && nh != null && l.table == a.t[nid.value := nh]
      && m.Stepped(a.s, ServLine(v, NameIn(a.t, nid.value), scan(rest.value), e.at, nh))
      && HostLookup(a.s.h, NameIn(a.t, nid.value), nh).1 == nh
    ensures Handled(m, l, a, e, scan, x)
  {
    hide *;
    x := None;
    if nh == null {
      AsksServPut(a, e, scan, nid, rest, v);
      TookNothing(m, l, a, e, scan);
    } else {
      IsHostIs(a, NameIn(a.t, nid.value), nh);
      AsksServPut(a, e, scan, nid, rest, nh);
      x := Some(ServLine(v, NameIn(a.t, nid.value), scan(rest.value), e.at, nh));
      Took(m, l, a, e, scan, x.value);
    }
  }

  lemma NameInIs(l: Lnet, nid: string)
    ensures l.NameOf(nid) == NameIn(l.table, nid)
  {
  }

  /** A line of a server's PUT. */
  method OnServPut(m: Master, l: Lnet, e: Event, scan: string -> Reading) returns (ghost x: Option<Step>)
    requires e.ServPut? && Ready(m, l, e)
    modifies m, l, m.live, m.pool
    ensures Handled(m, l, old(State(m.S(), l.table)), e, scan, x)
    ensures fresh(m.live - old(m.live)) && fresh(m.pool - old(m.pool))
  {
    hide *;
    ReadyIs(m, l, e);
    ghost var a := State(m.S(), l.table);
    KnownIs(a, Serv, e.serv);
    var serv := Node(m, Serv, e.serv);
    if serv == null {
      AsksServPut(a, e, scan, Wsep(e.msg).0, Wsep(e.msg).1, a.s.h.u);
      Nothing(m, l, e, scan);
      return None;
    }
    ghost var (nid, rest) := Wsep(e.msg);
    if nid.Some? {
      NameInIs(l, nid.value);
    }
    ghost var nh := l.ServMsgCb(m, serv, e.msg, scan, e.at);
    x := ServPutDone(m, l, a, e, scan, serv, nh, nid, rest);
  }

  lemma AsksClusPut(a: State, e: Event, scan: string -> Reading)
    requires e.ClusPut?
    ensures Known(a, Clus, e.clus) == None || ClusWords(e.msg) == None ==> Asked(a, e, scan, None)
    ensures Known(a, Clus, e.clus).Some? && ClusWords(e.msg).Some? ==>
      var (host, job, owner) := ClusWords(e.msg).value;
      forall nj, nh ::
        Asked(a, e, scan, Some(ClusLine(Known(a, Clus, e.clus).value, host, job, owner, nj, nh, e.junk)))
  {
    hide ClusWords;
  }

  /** A line of a cluster's PUT. */
  method OnClusPut(m: Master, l: Lnet, e: Event, scan: string -> Reading) returns (ghost x: Option<Step>)
    requires e.ClusPut? && Ready(m, l, e)
    modifies m, l, m.live, m.pool
    ensures Handled(m, l, old(State(m.S(), l.table)), e, scan, x)
    ensures fresh(m.live - old(m.live)) && fresh(m.pool - old(m.pool))
  {
    hide *;
    ReadyIs(m, l, e);
    ghost var a := State(m.S(), l.table);
    KnownIs(a, Clus, e.clus);
    AsksClusPut(a, e, scan);
    var c := Node(m, Clus, e.clus);
    var words := ClusWords(e.msg);
    if c == null || words == None {
      Nothing(m, l, e, scan);
      return None;
    }
    var (host, job, owner) := words.value;
    ghost var nj, nh := m.OnClusLine(c, host, job, owner, e.junk);
    x := Some(ClusLine(c, host, job, owner, nj, nh, e.junk));
    Steps(m, l, a, e, scan, x.value);
  }

  lemma AsksTimer(a: State, e: Event, scan: string -> Reading)
    requires e.Timer?
    ensures Known(a, Job, e.job) == None ==> Asked(a, e, scan, None)
    ensures Known(a, Job, e.job).Some? && Known(a, Job, e.job).value in a.s.h.nodes ==>
      var j := Known(a, Job, e.job).value;
      Asked(a, e, scan, if a.s.h.nodes[j].zombie then Some(Zombie(j)) else None)
  {
  }

  /** A job's timer, if it is armed. */
  method OnTimer(m: Master, l: Lnet, e: Event, scan: string -> Reading) returns (ghost x: Option<Step>)
    requires e.Timer? && Ready(m, l, e)
    modifies m, l, m.live, m.pool
    ensures Handled(m, l, old(State(m.S(), l.table)), e, scan, x)
    ensures fresh(m.live - old(m.live)) && fresh(m.pool - old(m.pool))
  {
    hide *;
    ReadyIs(m, l, e);
    ghost var a := State(m.S(), l.table);
    KnownIs(a, Job, e.job);
    AsksTimer(a, e, scan);
    var j := Node(m, Job, e.job);
    if j == null {
      Nothing(m, l, e, scan);
      return None;
    }
    m.At(j);
    if !j.zombie {
      Nothing(m, l, e, scan);
      return None;
    }
    m.OnZombie(j);
    x := Some(Zombie(j));
    Steps(m, l, a, e, scan, x.value);
  }

  lemma AsksTop(a: State, e: Event, scan: string -> Reading, x0: XNode?, x1: XNode?, ps: seq<Pair>)
    requires e.Top?
    requires x0 == (if (e.x0.0, e.x0.1) in a.s.h.names then a.s.h.names[(e.x0.0, e.x0.1)] else null)
    requires x1 == (if (e.x1.0, e.x1.1) in a.s.h.names then a.s.h.names[(e.x1.0, e.x1.1)] else null)
    requires ps == if x0 == null || x1 == null then []
                   else Visit(a.s.h.nodes, a.s.flows.Keys, x0, e.d0, x1, e.d1, e.filter)
    ensures Asked(a, e, scan, Some(Query(Tops.SetOf(ps), e.at)))
  {
    assert Tops.SetOf([]) == {};
    hide Visit;
  }

  /** A top query. */
  method OnTop(m: Master, l: Lnet, e: Event, scan: string -> Reading) returns (ghost x: Option<Step>)
    requires e.Top? && Ready(m, l, e)
    modifies m, l, m.live, m.pool
    ensures Handled(m, l, old(State(m.S(), l.table)), e, scan, x)
    ensures fresh(m.live - old(m.live)) && fresh(m.pool - old(m.pool))
  {
    hide *;
    ReadyIs(m, l, e);
    ghost var a := State(m.S(), l.table);
    var x0 := Node(m, e.x0.0, e.x0.1);
    var x1 := Node(m, e.x1.0, e.x1.1);
    var status, out, ps := Tops.TopQuery(m, x0, x1, e.d0, e.d1, e.limit, e.spec, e.filter, e.at);
    x := Some(Query(Tops.SetOf(ps), e.at));
    AsksTop(a, e, scan, x0, x1, ps);
    Steps(m, l, a, e, scan, x.value);
  }

  lemma AsksList(a: State, e: Event, scan: string -> Reading)
    requires e.List?
    ensures Known(a, Serv, e.serv) == None ==> Asked(a, e, scan, None)
    ensures Known(a, Serv, e.serv).Some? ==>
      var ps := Listings.Listed(a.s.h.nodes, a.s.flows.Keys, a.s.h.u, Known(a, Serv, e.serv).value);
      Asked(a, e, scan, Some(Query(Tops.SetOf(ps), e.at)))
  {
  }

  /** A server's own listing. */
  method OnList(m: Master, l: Lnet, e: Event, scan: string -> Reading) returns (ghost x: Option<Step>)
    requires e.List? && Ready(m, l, e)
    modifies m, l, m.live, m.pool
    ensures Handled(m, l, old(State(m.S(), l.table)), e, scan, x)
    ensures fresh(m.live - old(m.live)) && fresh(m.pool - old(m.pool))
  {
    hide *;
    ReadyIs(m, l, e);
    ghost var a := State(m.S(), l.table);
    KnownIs(a, Serv, e.serv);
    AsksList(a, e, scan);
    var sx := Node(m, Serv, e.serv);
    if sx == null {
      Nothing(m, l, e, scan);
      return None;
    }
    var out := Listings.ServGet(m, sx, e.at);
    x := Some(Query(Tops.SetOf(Tops.NamesOf(out)), e.at));
    Steps(m, l, a, e, scan, x.value);
  }

  /** The event loop calls back for `e`. */
  method Dispatch(m: Master, l: Lnet, e: Event, scan: string -> Reading) returns (ghost x: Option<Step>)
    requires Ready(m, l, e)
    modifies m, l, m.live, m.pool
    ensures Handled(m, l, old(State(m.S(), l.table)), e, scan, x)
    ensures fresh(m.live - old(m.live)) && fresh(m.pool - old(m.pool))
  {
    hide *;
    match e
    case Cluster(_, _) => x := OnCluster(m, l, e, scan);
    case Domain(_, _) => x := OnDomain(m, l, e, scan);
    case FileSystem(_) => x := OnFileSystem(m, l, e, scan);
    case Server(_, _) => x := OnServer(m, l, e, scan);
    case NidFile(_) => x := OnNidFile(m, l, e, scan);
    case ServPut(_, _, _) => x := OnServPut(m, l, e, scan);
    case ClusPut(_, _, _) => x := OnClusPut(m, l, e, scan);
    case Timer(_) => x := OnTimer(m, l, e, scan);
    case Top(_, _, _, _, _, _, _, _) => x := OnTop(m, l, e, scan);
    case List(_, _) => x := OnList(m, l, e, scan);
  }

  // ---------- the event loop ----------

  /** A run: the states in between, and each event doing what it asks for. */
  ghost predicate History(hist: seq<State>, events: seq<Event>, scan: string -> Reading, steps: seq<Option<Step>>) {
    && |hist| == |events| + 1 && |steps| == |events| && Inv(hist[0].s)
    && forall k :: 0 <= k < |events| ==> Turns(hist[k], events[k], scan, steps[k], hist[k + 1])
  }

  lemma TurnsKeepInv(a: State, e: Event, scan: string -> Reading, x: Option<Step>, b: State)
    requires Turns(a, e, scan, x, b)
    ensures Inv(b.s) && Inv(a.s) && (x.Some? ==> Enabled(a.s, x.value) && b.s == Next(a.s, x.value))
    ensures x == None ==> b.s == a.s
  {
    if x.Some? {
      StepKeepsInv(a.s, x.value);
    }
    hide Inv, Wired, Enabled, Next, Asked, Learned;
  }

  lemma TurnsAsks(a: State, e: Event, scan: string -> Reading, x: Option<Step>, b: State)
    requires Turns(a, e, scan, x, b)
    ensures Asked(a, e, scan, x) && b.t == Learned(a.t, e, x)
  {
    hide Inv, Wired, Asked, Learned, Enabled, Next;
  }

  lemma AsksTimed(a: State, e: Event, scan: string -> Reading, x: Step)
    requires Asked(a, e, scan, Some(x))
    ensures x.ServLine? || x.Query? ==> Timed(e) && e.at == x.at
  {
    hide Reached, Shown, Known, Wsep, NidLine, IsHost, NameIn;
  }

  lemma TurnsNow(a: State, e: Event, scan: string -> Reading, x: Option<Step>, b: State)
    requires Turns(a, e, scan, x, b)
    ensures b.s.now == a.s.now || (Timed(e) && b.s.now == e.at)
  {
    hide *;
    TurnsKeepInv(a, e, scan, x, b);
    TurnsAsks(a, e, scan, x, b);
    if x.Some? {
      AsksTimed(a, e, scan, x.value);
      NextNow(a.s, x.value);
    }
  }

  lemma HistoryOn(hist: seq<State>, events: seq<Event>, scan: string -> Reading, steps: seq<Option<Step>>, e: Event,
                  x: Option<Step>, b: State)
    requires History(hist, events, scan, steps) && Turns(hist[|events|], e, scan, x, b)
    ensures History(hist + [b], events + [e], scan, steps + [x])
  {
    hide Turns, Inv;
  }

  ghost function StepsOf(steps: seq<Option<Step>>): seq<Step> {
    if steps == [] then []
    else
      StepsOf(steps[..|steps| - 1]) + match steps[|steps| - 1] case None => [] case Some(x) => [x]
  }

  ghost predicate RunsTo(s0: Sys, es: seq<Step>, s: Sys) {
    Inv(s0) && Legal(s0, es) && After(s0, es) == s
  }

  lemma RunsToOn(s0: Sys, es: seq<Step>, s: Sys, x: Step)
    requires RunsTo(s0, es, s) && Enabled(s, x)
    ensures RunsTo(s0, es + [x], Next(s, x)) && Inv(s)
  {
    RunOn(s0, es, x);
    hide Inv, Legal, Enabled, Next;
  }

  lemma Prefix(hist: seq<State>, events: seq<Event>, scan: string -> Reading, steps: seq<Option<Step>>, n: nat)
    requires History(hist, events, scan, steps) && n <= |events|
    ensures History(hist[..n + 1], events[..n], scan, steps[..n])
  {
    hide Turns, Inv;
  }

  /** So it is a run of the machine: what is proved of reachable states holds in the end. */
  lemma {:induction false} HistoryRuns(hist: seq<State>, events: seq<Event>, scan: string -> Reading,
                                       steps: seq<Option<Step>>)
    requires History(hist, events, scan, steps)
    ensures RunsTo(hist[0].s, StepsOf(steps), hist[|events|].s)
    decreases |events|
  {
    if events == [] {
      NoStep(hist[0].s);
    } else {
      var n := |events| - 1;
      Prefix(hist, events, scan, steps, n);
      assert Turns(hist[n], events[n], scan, steps[n], hist[n + 1]);
      assert StepsOf(steps) == StepsOf(steps[..n]) + match steps[n] case None => [] case Some(x) => [x];
      hide *;
      HistoryRuns(hist[..n + 1], events[..n], scan, steps[..n]);
      TurnsKeepInv(hist[n], events[n], scan, steps[n], hist[n + 1]);
      match steps[n] {
        case None => assert StepsOf(steps[..n]) + [] == StepsOf(steps[..n]);
        case Some(x) => RunsToOn(hist[0].s, StepsOf(steps[..n]), hist[n].s, x);
      }
    }
  }

  /** The clock at the i-th event has not passed it. */
  ghost predicate OnTime(now: real, events: seq<Event>, i: nat) {
    forall j :: i <= j < |events| && Timed(events[j]) ==> 0.0 < events[j].at && now <= events[j].at
  }

  lemma OnTimeStill(now: real, now': real, events: seq<Event>, i: nat)
    requires Ordered(events) && i < |events| && OnTime(now, events, i)
    requires now' == now || (Timed(events[i]) && now' == events[i].at)
    ensures OnTime(now', events, i + 1)
  {
  }

  lemma OnTimeNow(m: Master, l: Lnet, events: seq<Event>, i: nat)
    requires m.Valid() && l.Knows(m) && i < |events| && OnTime(m.now, events, i)
    ensures Ready(m, l, events[i])
  {
  }

  lemma Begins(m: Master, l: Lnet, events: seq<Event>)
    requires m.Valid() && l.table == map[] && Ordered(events) && m.now == 0.0
    ensures l.Knows(m) && OnTime(m.now, events, 0)
  {
    hide Master.Valid;
  }

  lemma NoHistory(a: State, scan: string -> Reading)
    requires Inv(a.s)
    ensures History([a], [], scan, [])
  {
    hide Inv, Turns;
  }

  lemma StartNow(p: Params, u: XNode, v: XNode, c: XNode, j: XNode)
    ensures Start(p, u, v, c, j).now == 0.0 && Start(p, u, v, c, j).log == []
  {
  }

  lemma HandledMeans(m: Master, l: Lnet, a: State, e: Event, scan: string -> Reading, x: Option<Step>)
    requires Handled(m, l, a, e, scan, x)
    ensures m.Valid() && l.Knows(m) && Turns(a, e, scan, x, State(m.S(), l.table))
  {
  }

  lemma LastOne(hist: seq<State>, events: seq<Event>, scan: string -> Reading, steps: seq<Option<Step>>)
    requires History(hist, events, scan, steps)
    ensures |hist| == |events| + 1 && |steps| == |events|
  {
  }

  /** The first i events are handled. */
  ghost predicate Ran(m: Master, l: Lnet, events: seq<Event>, i: nat, scan: string -> Reading, hist: seq<State>,
                      steps: seq<Option<Step>>)
    reads *
  {
    && i <= |events| && m.Valid() && l.Knows(m) && OnTime(m.now, events, i)
    && History(hist, events[..i], scan, steps) && hist[i] == State(m.S(), l.table)
  }

  lemma RanOn(m: Master, l: Lnet, events: seq<Event>, i: nat, scan: string -> Reading, hist: seq<State>,
              steps: seq<Option<Step>>, x: Option<Step>)
    requires Ordered(events) && i < |events| && History(hist, events[..i], scan, steps)
    requires |hist| == i + 1 && OnTime(hist[i].s.now, events, i) && Handled(m, l, hist[i], events[i], scan, x)
    ensures Ran(m, l, events, i + 1, scan, hist + [State(m.S(), l.table)], steps + [x])
  {
    hide *;
    var b := State(m.S(), l.table);
    LastOne(hist, events[..i], scan, steps);
    HandledMeans(m, l, hist[i], events[i], scan, x);
    m.Parts();
    TurnsNow(hist[i], events[i], scan, x, b);
    OnTimeStill(hist[i].s.now, m.now, events, i);
    assert events[..i] + [events[i]] == events[..i + 1];
    HistoryOn(hist, events[..i], scan, steps, events[i], x, b);
    RanIs(m, l, events, i + 1, scan, hist + [b], steps + [x]);
  }

  lemma RanIs(m: Master, l: Lnet, events: seq<Event>, i: nat, scan: string -> Reading, hist: seq<State>,
              steps: seq<Option<Step>>)
    requires i <= |events| && |hist| == i + 1 && m.Valid() && l.Knows(m) && OnTime(m.now, events, i)
    requires History(hist, events[..i], scan, steps) && hist[i] == State(m.S(), l.table)
    ensures Ran(m, l, events, i, scan, hist, steps)
  {
    hide Master.Valid, Lnet.Knows, OnTime, History;
  }

  lemma RanMeans(m: Master, l: Lnet, events: seq<Event>, i: nat, scan: string -> Reading, hist: seq<State>,
                 steps: seq<Option<Step>>)
    requires Ran(m, l, events, i, scan, hist, steps)
    ensures i <= |events| && |hist| == i + 1 && hist[i] == State(m.S(), l.table) && hist[i].s.now == m.now
    ensures m.Valid() && l.Knows(m) && OnTime(m.now, events, i) && History(hist, events[..i], scan, steps)
    ensures i < |events| ==> Ready(m, l, events[i])
    ensures i == |events| ==> events[..i] == events
  {
    m.Parts();
    if i < |events| {
      OnTimeNow(m, l, events, i);
    }
    hide Master.Valid, Lnet.Knows, Inv, Turns;
  }

  /** One event more. */
  method Turn(m: Master, l: Lnet, events: seq<Event>, i: nat, scan: string -> Reading, ghost hist: seq<State>,
              ghost steps: seq<Option<Step>>) returns (ghost b: State, ghost x: Option<Step>)
    requires Ordered(events) && i < |events| && Ran(m, l, events, i, scan, hist, steps)
    modifies m, l, m.live, m.pool
    ensures Ran(m, l, events, i + 1, scan, hist + [b], steps + [x])
    ensures fresh(m.live - old(m.live)) && fresh(m.pool - old(m.pool))
  {
    hide *;
    RanMeans(m, l, events, i, scan, hist, steps);
    x := Dispatch(m, l, events[i], scan);
    b := State(m.S(), l.table);
    RanOn(m, l, events, i, scan, hist, steps, x);
  }

  lemma RanFirst(m: Master, l: Lnet, events: seq<Event>, scan: string -> Reading)
    requires m.Valid() && l.Knows(m) && OnTime(m.now, events, 0)
    ensures Ran(m, l, events, 0, scan, [State(m.S(), l.table)], [])
  {
    assert events[..0] == [];
    assert Inv(m.S());
    hide *;
    NoHistory(State(m.S(), l.table), scan);
    RanIs(m, l, events, 0, scan, [State(m.S(), l.table)], []);
  }

  /** From initialisation on: each event in its turn does what it asks for, and nothing else. */
  method Run(p: Params, events: seq<Event>, scan: string -> Reading)
    returns (m: Master, l: Lnet, ghost idle: XNode, ghost hist: seq<State>, ghost steps: seq<Option<Step>>)
    requires Ordered(events)
    ensures fresh(m) && fresh(l) && fresh(m.live) && fresh(m.pool) && m.p == p && m.Valid() && l.Knows(m)
    ensures History(hist, events, scan, steps)
    ensures hist[0] == State(Start(p, m.u, m.v, m.clus0, idle), map[]) && hist[|events|] == State(m.S(), l.table)
  {
    m := new Master(p);
    l := new Lnet();
    hide *;
    idle := m.clus0.idle;
    StartNow(p, m.u, m.v, m.clus0, idle);
    m.Parts();
    Begins(m, l, events);
    RanFirst(m, l, events, scan);
    ghost var first := State(m.S(), l.table);
    hist, steps := [first], [];
    for i := 0 to |events|
      invariant fresh(m) && fresh(l) && fresh(m.live) && fresh(m.pool)
      invariant Ran(m, l, events, i, scan, hist, steps) && |hist| > 0 && hist[0] == first
    {
      ghost var b, x := Turn(m, l, events, i, scan, hist, steps);
      hist, steps := hist + [b], steps + [x];
    }
    RanMeans(m, l, events, |events|, scan, hist, steps);
  }

  // ---------- where NIDs lead ----------

  /** A NID that is known is found again under its host's name. */
  lemma NameAgain(a: State, nid: string, x: XNode)
    requires Inv(a.s) && Wired(a) && nid in a.t && IsHost(a, NameIn(a.t, nid), x)
    ensures x == a.t[nid]
  {
    assert Named(a.s.h, a.t[nid]);
    hide Forest, Lifecycle, Table, LogOk, Roots, AddNode;
  }

  lemma AsksHost(a: State, e: Event, scan: string -> Reading, x: Option<Step>)
    requires Asked(a, e, scan, x) && !e.NidFile?
    ensures Learned(a.t, e, x) == a.t ||
      (e.ServPut? && Wsep(e.msg).0.Some? && x.Some? && x.value.ServLine? &&
       Learned(a.t, e, x) == a.t[Wsep(e.msg).0.value := x.value.x] &&
       IsHost(a, NameIn(a.t, Wsep(e.msg).0.value), x.value.x))
  {
    hide Wsep, NidLine, NameIn, IsHost, Reached, Shown, Known;
  }

  /** Only a network's file makes a known NID lead elsewhere. */
  lemma NidStays(a: State, e: Event, scan: string -> Reading, x: Option<Step>, b: State, nid: string)
    requires Turns(a, e, scan, x, b) && nid in a.t && !e.NidFile?
    ensures nid in b.t && b.t[nid] == a.t[nid]
  {
    assert Wired(a) && Asked(a, e, scan, x) && b.t == Learned(a.t, e, x) && Inv(a.s);
    hide *;
    AsksHost(a, e, scan, x);
    if b.t != a.t && Wsep(e.msg).0.value == nid {
      NameAgain(a, nid, x.value.x);
    }
  }

  // ---------- the reports among the events ----------

  /** A line that counts: of a known server, with two words, and all numbers read. */
  ghost predicate Counts(a: State, e: Event, scan: string -> Reading) {
    e.ServPut? && Known(a, Serv, e.serv).Some? && Wsep(e.msg).0.Some? && Wsep(e.msg).1.Some? &&
    scan(Wsep(e.msg).1.value).Numbers?
  }

  /** Host and server of the line are in the trees after it. */
  ghost predicate Arrived(a: State, e: Event, scan: string -> Reading, b: State) {
    && Counts(a, e, scan) && Forest(b.s.h.nodes) && Wsep(e.msg).0.value in b.t
    && b.t[Wsep(e.msg).0.value] in b.s.h.nodes && Known(a, Serv, e.serv).value in b.s.h.nodes
  }

  /** What such a line reports: its numbers, for the ancestors that host and server have then. */
  ghost function ReportOf(a: State, e: Event, scan: string -> Reading, b: State): Entry
    requires Arrived(a, e, scan, b)
  {
    var (nid, rest) := Wsep(e.msg);
    Entry(Chain(b.s.h.nodes, b.t[nid.value]), Chain(b.s.h.nodes, Known(a, Serv, e.serv).value), e.at,
          scan(rest.value).d)
  }

  /** Only a line whose numbers were read is logged. */
  lemma NextQuiet(s: Sys, x: Step)
    requires Inv(s) && Enabled(s, x) && !(x.ServLine? && x.reading.Numbers?)
    ensures Next(s, x).log == s.log
  {
    hide Tree, Lifecycle, Table, LogOk, AddClus, Lookup, HostLookup, ClusMessage, ZombieHier, SpareClus, Spare,
      SpareLine;
  }

  lemma RecordLogs(s: Sys, x: XNode, v: XNode, at: real, d: Stats)
    requires Tree(s.h) && x in s.h.nodes && v in s.h.nodes
    ensures Forest(s.h.nodes)
    ensures RecordReport(s, x, v, at, d).log == s.log + [Entry(Chain(s.h.nodes, x), Chain(s.h.nodes, v), at, d)]
    ensures RecordReport(s, x, v, at, d).h == s.h
  {
    hide Chain, Forest, NamesAgree, Roots, Count;
  }

  lemma ServLineReady(s: Sys, x: Step)
    requires Inv(s) && x.ServLine? && Enabled(s, x)
    ensures Tree(s.h) && IdleJobs(s.h.nodes) && Spare(s.h, x.x, Host, x.host) && IsKind(s.h.nodes, x.serv, Serv)
    ensures x.serv in s.h.nodes && Next(s, x) == ServMessage(s, x.serv, x.host, x.reading, x.at, x.x)
  {
    hide Tree, IdleJobs, Spare, Table, LogOk, ServMessage;
  }

  lemma ServStays(s: Hier, name: string, x: XNode, v: XNode)
    requires Tree(s) && IdleJobs(s.nodes) && Spare(s, x, Host, name) && IsKind(s.nodes, v, Serv)
    ensures var (h', y) := HostLookup(s, name, x);
      Tree(h') && IsKind(h'.nodes, y, Host) && IsKind(h'.nodes, v, Serv)
  {
    HostLookupTree(s, name, x);
    HostLookupGrows(s, name, x);
    hide Tree, IdleJobs, Spare, HostLookup;
    assert Kept(s.nodes, HostLookup(s, name, x).0.nodes, v);
  }

  /** And it is logged with the ancestors that host and server have then. */
  lemma NextLog(s: Sys, x: Step)
    requires Inv(s) && Enabled(s, x) && x.ServLine? && x.reading.Numbers? && HostLookup(s.h, x.host, x.x).1 == x.x
    ensures var n := Next(s, x).h.nodes;
      && Forest(n) && IsKind(n, x.x, Host) && IsKind(n, x.serv, Serv)
      && Next(s, x).log == s.log + [Entry(Chain(n, x.x), Chain(n, x.serv), x.at, x.reading.d)]
  {
    hide *;
    ServLineReady(s, x);
    ServStays(s.h, x.host, x.x, x.serv);
    ServMessageUnfolds(s, x.serv, x.host, x.reading, x.at, x.x);
    RecordLogs(s.(h := HostLookup(s.h, x.host, x.x).0), x.x, x.serv, x.at, x.reading.d);
  }

  /** A line that counts is taken as what it says. */
  lemma CountsMeans(a: State, e: Event, scan: string -> Reading, x: Option<Step>)
    requires Asked(a, e, scan, x)
    ensures Counts(a, e, scan) <==> x.Some? && x.value.ServLine? && x.value.reading.Numbers?
    ensures Counts(a, e, scan) ==>
      && HostLookup(a.s.h, x.value.host, x.value.x).1 == x.value.x
      && Learned(a.t, e, x) == a.t[Wsep(e.msg).0.value := x.value.x]
      && x.value.serv == Known(a, Serv, e.serv).value && x.value.at == e.at
      && x.value.reading == scan(Wsep(e.msg).1.value)
  {
    hide Wsep, NidLine, HostLookup, Reached, Shown, NameIn, Known;
  }

  lemma ArrivedIs(a: State, e: Event, scan: string -> Reading, b: State, x: XNode, v: XNode, nid: string, d: Stats)
    requires Counts(a, e, scan) && Forest(b.s.h.nodes) && b.t == a.t[nid := x] && IsKind(b.s.h.nodes, x, Host)
    requires Wsep(e.msg).0.value == nid && IsKind(b.s.h.nodes, v, Serv) && Known(a, Serv, e.serv).value == v
    requires scan(Wsep(e.msg).1.value) == Numbers(d)
    ensures Arrived(a, e, scan, b)
    ensures ReportOf(a, e, scan, b) == Entry(Chain(b.s.h.nodes, x), Chain(b.s.h.nodes, v), e.at, d)
  {
    hide Wsep, Known, Forest, Chain;
  }

  lemma CountsParts(a: State, e: Event, scan: string -> Reading)
    requires Counts(a, e, scan)
    ensures e.ServPut? && Known(a, Serv, e.serv).Some? && Wsep(e.msg).0.Some? && Wsep(e.msg).1.Some?
    ensures scan(Wsep(e.msg).1.value).Numbers?
  {
  }

  /** The log grows by the reports, and by nothing else. */
  lemma TurnsLog(a: State, e: Event, scan: string -> Reading, x: Option<Step>, b: State)
    requires Turns(a, e, scan, x, b)
    ensures !Counts(a, e, scan) ==> b.s.log == a.s.log
    ensures Counts(a, e, scan) ==> Arrived(a, e, scan, b) && b.s.log == a.s.log + [ReportOf(a, e, scan, b)]
  {
    hide *;
    TurnsKeepInv(a, e, scan, x, b);
    TurnsAsks(a, e, scan, x, b);
    CountsMeans(a, e, scan, x);
    if x.Some? {
      if !Counts(a, e, scan) {
        NextQuiet(a.s, x.value);
      } else {
        NextLog(a.s, x.value);
        CountsParts(a, e, scan);
        ArrivedIs(a, e, scan, b, x.value.x, x.value.serv, Wsep(e.msg).0.value, x.value.reading.d);
      }
    }
  }

  lemma TurnAt(hist: seq<State>, events: seq<Event>, scan: string -> Reading, steps: seq<Option<Step>>, k: nat)
    requires History(hist, events, scan, steps) && k < |events|
    ensures |hist| == |events| + 1 && |steps| == |events| && Turns(hist[k], events[k], scan, steps[k], hist[k + 1])
  {
    hide Turns, Inv;
  }

  /** Whatever counts has arrived afterwards. */
  ghost predicate Coherent(hist: seq<State>, events: seq<Event>, scan: string -> Reading) {
    && |hist| == |events| + 1
    && forall k :: 0 <= k < |events| && Counts(hist[k], events[k], scan) ==>
      Arrived(hist[k], events[k], scan, hist[k + 1])
  }

  lemma HistoryCoheres(hist: seq<State>, events: seq<Event>, scan: string -> Reading, steps: seq<Option<Step>>)
    requires History(hist, events, scan, steps)
    ensures Coherent(hist, events, scan)
  {
    LastOne(hist, events, scan, steps);
    forall k | 0 <= k < |events| && Counts(hist[k], events[k], scan)
      ensures Arrived(hist[k], events[k], scan, hist[k + 1])
    {
      TurnAt(hist, events, scan, steps, k);
      TurnsLog(hist[k], events[k], scan, steps[k], hist[k + 1]);
    }
    hide Counts, Arrived, History, Turns;
  }

  /** The reports that the first n events give, in order. */
  ghost function Reports(hist: seq<State>, events: seq<Event>, scan: string -> Reading, n: nat): seq<Entry>
    requires Coherent(hist, events, scan) && n <= |events|
  {
    if n == 0 then []
    else
      Reports(hist, events, scan, n - 1) +
      if Counts(hist[n - 1], events[n - 1], scan) then [ReportOf(hist[n - 1], events[n - 1], scan, hist[n])] else []
  }

  lemma {:induction false} LogIsReports(hist: seq<State>, events: seq<Event>, scan: string -> Reading,
                                        steps: seq<Option<Step>>, n: nat)
    requires History(hist, events, scan, steps) && n <= |events|
    ensures Coherent(hist, events, scan) && hist[n].s.log == hist[0].s.log + Reports(hist, events, scan, n)
  {
    hide *;
    HistoryCoheres(hist, events, scan, steps);
    LastOne(hist, events, scan, steps);
    if n == 0 {
      ReportsNext(hist, events, scan, 0);
      assert hist[0].s.log + [] == hist[0].s.log;
    } else {
      LogIsReports(hist, events, scan, steps, n - 1);
      LogTurns(hist, events, scan, steps, n - 1);
    }
  }

  lemma LogTurns(hist: seq<State>, events: seq<Event>, scan: string -> Reading, steps: seq<Option<Step>>, n: nat)
    requires History(hist, events, scan, steps) && n < |events| && Coherent(hist, events, scan)
    requires |hist| == |events| + 1 && hist[n].s.log == hist[0].s.log + Reports(hist, events, scan, n)
    ensures hist[n + 1].s.log == hist[0].s.log + Reports(hist, events, scan, n + 1)
  {
    hide *;
    TurnAt(hist, events, scan, steps, n);
    TurnsLog(hist[n], events[n], scan, steps[n], hist[n + 1]);
    ReportsNext(hist, events, scan, n + 1);
    var log0, log1, log2 := hist[0].s.log, hist[n].s.log, hist[n + 1].s.log;
    var r1, r2 := Reports(hist, events, scan, n), Reports(hist, events, scan, n + 1);
    if Counts(hist[n], events[n], scan) {
      OneLonger(log0, log1, log2, r1, r2, [ReportOf(hist[n], events[n], scan, hist[n + 1])]);
    } else {
      OneLonger(log0, log1, log2, r1, r2, []);
    }
  }

  lemma OneLonger(log0: seq<Entry>, log1: seq<Entry>, log2: seq<Entry>, r1: seq<Entry>, r2: seq<Entry>,
                  more: seq<Entry>)
    requires log1 == log0 + r1 && r2 == r1 + more && (log2 == log1 + more || (more == [] && log2 == log1))
    ensures log2 == log0 + r2
  {
  }

  lemma ReportsNext(hist: seq<State>, events: seq<Event>, scan: string -> Reading, n: nat)
    requires Coherent(hist, events, scan) && n <= |events|
    ensures |hist| == |events| + 1 && (n == 0 ==> Reports(hist, events, scan, n) == [])
    ensures n > 0 && !Counts(hist[n - 1], events[n - 1], scan) ==>
      Reports(hist, events, scan, n) == Reports(hist, events, scan, n - 1) + []
    ensures n > 0 && Counts(hist[n - 1], events[n - 1], scan) ==>
      && Arrived(hist[n - 1], events[n - 1], scan, hist[n])
      && Reports(hist, events, scan, n) ==
         Reports(hist, events, scan, n - 1) + [ReportOf(hist[n - 1], events[n - 1], scan, hist[n])]
  {
    hide Counts, Arrived, ReportOf;
  }

  /** So after any events a pair has a k_node if and only if one of their reports covered it, and the node's sums are
      exactly the sums of those reports. */
  lemma TableIsIndex(m: Master, l: Lnet, hist: seq<State>, events: seq<Event>, scan: string -> Reading,
                     steps: seq<Option<Step>>, a: XNode, b: XNode)
    requires m.Valid() && a in m.live && b in m.live && Which(a.kind) == 0 && Which(b.kind) == 1
    requires History(hist, events, scan, steps) && hist[0].s.log == [] && hist[|events|] == State(m.S(), l.table)
    ensures Coherent(hist, events, scan)
    ensures var log := Reports(hist, events, scan, |events|);
      && ((a, b) in m.table <==> Covered(log, a, b))
      && ((a, b) in m.table ==> forall i: nat :: i < NR_STATS ==> m.table[(a, b)].flow.sum[i] == LogSum(log, a, b, i))
  {
    LogIsReports(hist, events, scan, steps, |events|);
    assert [] + Reports(hist, events, scan, |events|) == Reports(hist, events, scan, |events|);
    MasterIsIndex(m, a, b);
    hide *;
    m.Parts();
  }

  lemma MasterIsIndex(m: Master, a: XNode, b: XNode)
    requires m.Valid() && a in m.live && b in m.live && Which(a.kind) == 0 && Which(b.kind) == 1
    ensures (a, b) in m.table <==> Covered(m.log, a, b)
    ensures (a, b) in m.table ==>
      forall i: nat :: i < NR_STATS ==> m.table[(a, b)].flow.sum[i] == LogSum(m.log, a, b, i)
  {
    m.Parts();
    m.At(a);
    m.At(b);
    TrackedSum(m.S(), a, b);
    hide Master.Valid, LogSum, Covered;
    assert m.Flows().Keys == m.table.Keys;
  }
}
