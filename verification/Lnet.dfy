/** A server's lines name hosts by NID (src/lnet.c); serv_msg_cb (src/serv.c) takes such a line apart. */
module Lnets {
  import opened Basics
  import opened Strings
  import opened XNodes
  import opened Hierarchy
  import opened FlowTable
  import opened Machine
  import opened Reachable
  import opened Masters

  const SPACES := " \t\n\U{0B}\U{0C}\r"

  /** wsep: the first word, and what follows the white space character after it, if there is one. */
  function Wsep(s: string): (Option<string>, Option<string>)
    decreases |s|
  {
    CutShrinks(s, SPACES);
    var (a, b) := Cut(s, SPACES);
    if a != "" then (Some(a), b)
    else match b
      case None => (None, None)
      case Some(t) => Wsep(t)
  }

  /** What a line of a NID file says, before any comment: a NID and the name of its host, if it has two words. */
  function NidLine(line: string): Option<(string, string)> {
    match Wsep(Cut(line, "#").0)
    case (Some(nid), Some(rest)) => (match Wsep(rest).0 case None => None case Some(name) => Some((nid, name)))
    case _ => None
  }

  lemma {:induction false} WsepMeans(blanks: string, w: string, c: char, rest: string)
    requires (forall i :: 0 <= i < |blanks| ==> blanks[i] in SPACES) && w != "" && Free(w, SPACES) && c in SPACES
    ensures Wsep(blanks + w + [c] + rest) == (Some(w), Some(rest))
    decreases |blanks|
  {
    var s := blanks + w + [c] + rest;
    if blanks == "" {
      assert s == w + [c] + rest;
      CutAt(w, c, rest, SPACES);
    } else {
      assert s[0] in SPACES && s[1..] == blanks[1..] + w + [c] + rest;
      WsepMeans(blanks[1..], w, c, rest);
    }
  }

  /** The last word of a line. */
  lemma {:induction false} WsepLast(blanks: string, w: string)
    requires (forall i :: 0 <= i < |blanks| ==> blanks[i] in SPACES) && w != "" && Free(w, SPACES)
    ensures Wsep(blanks + w) == (Some(w), None)
    decreases |blanks|
  {
    var s := blanks + w;
    if blanks == "" {
      assert s == w;
      CutNot(w, SPACES);
    } else {
      assert s[0] in SPACES && s[1..] == blanks[1..] + w;
      WsepLast(blanks[1..], w);
    }
  }

  /** A line of a NID file says the NID first and the host's name second, up to a comment. */
  lemma NidLineMeans(nid: string, c: char, blanks: string, name: string, comment: string)
    requires nid != "" && Free(nid, SPACES) && name != "" && Free(name, SPACES) && c in SPACES
    requires (forall i :: 0 <= i < |blanks| ==> blanks[i] in SPACES) && Free(nid, "#") && Free(name, "#")
    ensures NidLine(nid + [c] + blanks + name) == Some((nid, name))
    ensures NidLine(nid + [c] + blanks + name + "#" + comment) == Some((nid, name))
  {
    var line := nid + [c] + blanks + name;
    assert "" + nid + [c] + (blanks + name) == line;
    WsepMeans("", nid, c, blanks + name);
    WsepLast(blanks, name);
    assert "#"[0] == '#' && |"#"| == 1 && '#' !in SPACES;
    forall i | 0 <= i < |line| ensures line[i] !in "#" {
      assert line[i] in nid || line[i] == c || line[i] in blanks || line[i] in name;
    }
    CutNot(line, "#");
    CutAt(line, '#', comment, "#");
    assert line + ['#'] + comment == line + "#" + comment;
    hide Wsep, Cut;
  }

  /** A host is found under its own name. */
  lemma HostByName(h: Hier, x: XNode)
    requires Tree(h) && IsKind(h.nodes, x, Host)
    ensures HostLookup(h, h.nodes[x].name, x) == (h, x) && Spare(h, x, Host, h.nodes[x].name)
  {
    assert Named(h, x);
  }

  lemma SameEntry(t: map<string, XNode>, nid: string, live: set<XNode>)
    requires nid in t && t[nid] in live
    ensures t == t[nid := t[nid]] && live == live + {t[nid]}
  {
  }

  lemma Unchanged(s: Sys)
    ensures s == s.(h := s.h)
  {
  }

  class Lnet {
    var table: map<string, XNode>

    /** lnet_lookup for a new network: no NIDs yet. */
    constructor ()
      ensures table == map[]
    {
      table := map[];
    }

    /** The NIDs lead to hosts in the trees. */
    ghost predicate Knows(m: Master)
      reads this, m`live
    {
      forall nid :: nid in table ==> table[nid] in m.live && table[nid].kind == Host
    }

    lemma KnowsIs(m: Master)
      requires m.Valid()
      ensures Knows(m) <==> forall nid :: nid in table ==> IsKind(m.S().h.nodes, table[nid], Host)
    {
      m.Parts();
      forall nid | nid in table ensures IsKind(m.Nodes(), table[nid], Host) <==>
        table[nid] in m.live && table[nid].kind == Host
      {
        m.At(table[nid]);
      }
    }

    /** Hosts are never freed: whatever the master does next, the NIDs go on leading to hosts. */
    lemma HostsStay(m: Master, s: Sys, e: Step)
      requires m.Stepped(s, e)
      requires forall nid :: nid in table ==> IsKind(s.h.nodes, table[nid], Host) && table[nid].kind == Host
      ensures Knows(m)
    {
      m.Parts();
      forall nid | nid in table ensures table[nid] in m.live {
        OnlyEmptyJobsGo(s, e, table[nid]);
      }
    }

    /** The name a NID stands for. */
    function NameOf(nid: string): string
      reads this
    {
      if nid in table then table[nid].name else nid
    }

    lemma KnownHost(m: Master, nid: string)
      requires m.Valid() && Knows(m) && nid in table
      ensures var x := table[nid];
        && x in m.live && x.kind == Host && m.Keyed() && m.nrK == |m.table| && Tree(m.H()) && m.H().nodes.Keys == m.live
        && HostLookup(m.H(), x.name, x) == (m.H(), x) && Spare(m.H(), x, Host, x.name)
    {
      m.Parts();
      m.At(table[nid]);
      HostByName(m.H(), table[nid]);
    }

    /** lnet_lookup_nid with L_CREATE: an unknown NID becomes the name of a host. */
    method LookupNid(m: Master, nid: string) returns (x: XNode)
      requires m.Valid() && Knows(m)
      modifies this, m`names, m`live, m`ever, m.live`children, m.live`nrChild
      ensures table == old(table)[nid := x] && m.live == old(m.live) + {x} && x.kind == Host && m.Keyed()
      ensures Spare(old(m.H()), x, Host, old(NameOf(nid))) && HostLookup(old(m.H()), old(NameOf(nid)), x).1 == x
      ensures m.S() == old(m.S()).(h := HostLookup(old(m.H()), old(NameOf(nid)), x).0)
      ensures fresh(m.live - old(m.live))
    {
      hide *;
      NameIs(nid);
      if nid in table {
        x := Known(m, nid);
        return;
      }
      x := Create(m, nid);
    }

    /** A NID that has been seen. */
    method Known(m: Master, nid: string) returns (x: XNode)
      requires m.Valid() && Knows(m) && nid in table
      ensures x == table[nid] && table == table[nid := x] && m.live == m.live + {x} && x.kind == Host && m.Keyed()
      ensures Spare(m.H(), x, Host, x.name) && HostLookup(m.H(), x.name, x).1 == x
      ensures m.S() == m.S().(h := HostLookup(m.H(), x.name, x).0)
    {
      hide *;
      KnownHost(m, nid);
      m.Parts();
      x := table[nid];
      SameEntry(table, nid, m.live);
      Unchanged(m.S());
    }

    /** A NID that has not. */
    method Create(m: Master, nid: string) returns (x: XNode)
      requires m.Valid()
      modifies this, m`names, m`live, m`ever, m.live`children, m.live`nrChild
      ensures table == old(table)[nid := x] && m.live == old(m.live) + {x} && x.kind == Host && m.Keyed()
      ensures Spare(old(m.H()), x, Host, nid) && HostLookup(old(m.H()), nid, x).1 == x
      ensures m.S() == old(m.S()).(h := HostLookup(old(m.H()), nid, x).0)
      ensures fresh(m.live - old(m.live))
    {
      hide *;
      m.HostReady(nid);
      x := m.ServHost(nid);
      Learn(m, nid, x);
    }

    method Learn(m: Master, nid: string, x: XNode)
      modifies this
      ensures table == old(table)[nid := x] && m.S() == old(m.S())
    {
      hide *;
      m.Parts();
      table := table[nid := x];
      m.Parts();
    }

    lemma NameIs(nid: string)
      ensures NameOf(nid) == if nid in table then table[nid].name else nid
    {
    }

    /** serv_msg_cb: a line without two words is dropped; otherwise the host is found or created, and if sscanf reads
        all numbers the report counts. */
    method ServMsgCb(m: Master, serv: XNode, msg: string, scan: string -> Reading, at: real) returns (ghost nh: XNode?)
      requires m.Valid() && Knows(m) && serv in m.live && serv.kind == Serv && 0.0 < at && m.now <= at
      modifies this, m`names, m`live, m`ever, m.live`children, m.live`nrChild
      modifies m`table, m`nrK, m`pool, m.pool`flow, m`now, m`log
      ensures Knows(m) && m.Valid()
      ensures var (nid, rest) := Wsep(msg);
        if nid == None || rest == None then nh == null && m.S() == old(m.S()) && table == old(table)
        else nh != null && table == old(table)[nid.value := nh]
             && m.Stepped(old(m.S()), ServLine(serv, old(NameOf(nid.value)), scan(rest.value), at, nh))
             && HostLookup(old(m.S()).h, old(NameOf(nid.value)), nh).1 == nh
      ensures fresh(m.live - old(m.live)) && fresh(m.pool - old(m.pool))
    {
      var (nid, rest) := Wsep(msg);
      if nid == None || rest == None {
        return null;
      }
      nh := Take(m, serv, nid.value, scan(rest.value), at);
    }

    /** The line of one host. */
    method Take(m: Master, serv: XNode, nid: string, reading: Reading, at: real) returns (ghost nh: XNode)
      requires m.Valid() && Knows(m) && serv in m.live && serv.kind == Serv && 0.0 < at && m.now <= at
      modifies this, m`names, m`live, m`ever, m.live`children, m.live`nrChild
      modifies m`table, m`nrK, m`pool, m.pool`flow, m`now, m`log
      ensures Knows(m) && table == old(table)[nid := nh]
      ensures m.Stepped(old(m.S()), ServLine(serv, old(NameOf(nid)), reading, at, nh))
      ensures HostLookup(old(m.S()).h, old(NameOf(nid)), nh).1 == nh
      ensures fresh(m.live - old(m.live)) && fresh(m.pool - old(m.pool))
    {
      hide *;
      ghost var s, name := m.S(), NameOf(nid);
      TakeReady(m, serv, name);
      var x := LookupNid(m, nid);
      nh := x;
      ServMessageUnfolds(s, serv, name, reading, at, x);
      m.Parts();
      m.TakeReading(x, serv, reading, at);
      m.Arrive(s, ServLine(serv, name, reading, at, x));
      StillKnows(m);
    }

    /** A line of lnet_read: the host is found or created under its own name, and the NID leads to it. */
    method ReadLine(m: Master, line: string) returns (ghost nh: XNode?)
      requires m.Valid() && Knows(m)
      modifies this, m`names, m`live, m`ever, m.live`children, m.live`nrChild
      ensures Knows(m) && m.Valid() && fresh(m.live - old(m.live))
      ensures match NidLine(line)
        case None => nh == null && m.S() == old(m.S()) && table == old(table)
        case Some((nid, name)) =>
          && nh != null && table == old(table)[nid := nh] && m.Stepped(old(m.S()), AddHost(name, nh))
          && HostLookup(old(m.S()).h, name, nh).1 == nh
    {
      var words := NidLine(line);
      if words == None {
        return null;
      }
      nh := SetNid(m, words.value.0, words.value.1);
    }

    /** x_host_lookup and lnet_set_nid */
    method SetNid(m: Master, nid: string, name: string) returns (ghost nh: XNode)
      requires m.Valid() && Knows(m)
      modifies this, m`names, m`live, m`ever, m.live`children, m.live`nrChild
      ensures Knows(m) && fresh(m.live - old(m.live)) && table == old(table)[nid := nh]
      ensures m.Stepped(old(m.S()), AddHost(name, nh)) && HostLookup(old(m.S()).h, name, nh).1 == nh
    {
      hide *;
      ghost var s := m.S();
      var x := m.AddHost(name);
      nh := x;
      m.SteppedMeans(s, AddHost(name, x));
      Learn(m, nid, x);
      m.SteppedMeans(s, AddHost(name, x));
      StillKnows(m);
    }

    lemma TakeReady(m: Master, serv: XNode, name: string)
      requires m.Valid() && serv in m.live
      ensures Inv(m.S()) && Tree(m.S().h) && IdleJobs(m.S().h.nodes) && m.S().h == m.H() && m.S().now == m.now
      ensures serv in m.S().h.nodes && m.S().h.nodes[serv].kind == serv.kind && m.nrK == |m.table|
    {
      m.HostReady(name);
      m.At(serv);
    }

    twostate lemma StillKnows(m: Master)
      requires old(Knows(m))
      requires old(m.live) <= m.live
      requires forall nid :: nid in table ==>
        (nid in old(table) && table[nid] == old(table[nid])) || (table[nid] in m.live && table[nid].kind == Host)
      ensures Knows(m)
    {
    }
  }
}
