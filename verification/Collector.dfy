/** xltop-servd's collector (src/servd.c): it reads absolute per-client counters of the targets a server exports, turns
    them into per-client deltas, and forgets targets and clients it no longer sees. What /proc holds is an input. */
module Collectors {

  import opened Basics
  import opened Ewma
  import opened Readings
  import opened Places

  /** struct nid_stats: the last counters seen, or the deltas of a cycle, and when. */
  datatype Rec = Rec(stats: Counters, time: real)

  const TYPE_MDS: nat := 0
  const TYPE_MDT: nat := 1

  /** struct lxt. Its type field has one bit, so that the value 2 for an OST is stored as 0. */
  class Lxt {
    const name: string
    const kind: bv1
    var recs: map<string, Rec>

    constructor (name: string, kind: bv1)
      ensures this.name == name && this.kind == kind && recs == map[]
    {
      this.name, this.kind, recs := name, kind, map[];
    }
  }

  function Bit(t: nat): bv1
    requires t < 3
  {
    if (if t == TYPE_MDS then TYPE_MDT else t) % 2 == 1 then 1 else 0
  }

  // ---------- the collector ----------

  /** What the client table holds for a client in the cycle at `now`. */
  function Held(nids: map<string, Rec>, now: real, nid: string, j: nat): int
    requires j < NR_STATS
  {
    if nid in nids && nids[nid].time == now then nids[nid].stats[j] else 0
  }

  ghost function OfKind(ls: set<Lxt>, b: bv1): set<Lxt> {
    set l | l in ls && l.kind == b
  }

  type Recs = map<Lxt, map<string, Rec>>

  /** The hash table and the two lists hold the same targets, each once, under its own name. */
  ghost predicate Tables(hash: map<string, Lxt>, list: seq<Lxt>, tmp: seq<Lxt>, live: set<Lxt>) {
    && NoDups(list) && NoDups(tmp) && (forall l :: l in list ==> l !in tmp)
    && (forall l :: l in live ==> l in list || l in tmp) && (forall i :: 0 <= i < |list| ==> list[i] in live)
    && (forall i :: 0 <= i < |tmp| ==> tmp[i] in live)
    && (forall l :: l in live ==> l.name in hash && hash[l.name] == l)
    && (forall n :: n in hash ==> hash[n] in live && hash[n].name == n)
  }

  /** A live target's record of a client is its latest reading. */
  ghost predicate Recorded(log: seq<Reading<Lxt>>, recs: map<string, Rec>, l: Lxt, nid: string) {
    match Last(log, l, nid)
    case None => nid !in recs
    case Some(c) => nid in recs && recs[nid].stats == c && 0.0 < recs[nid].time
  }

  ghost predicate AllRecorded(log: seq<Reading<Lxt>>, recs: map<string, Rec>, l: Lxt) {
    forall nid {:trigger Recorded(log, recs, l, nid)} :: Recorded(log, recs, l, nid)
  }

  ghost predicate Records(log: seq<Reading<Lxt>>, recs: Recs, ever: set<Lxt>) {
    && recs.Keys <= ever
    && (forall l {:trigger AllRecorded(log, recs[l], l)} :: l in recs ==> AllRecorded(log, recs[l], l))
    && (forall i :: 0 <= i < |log| ==> log[i].l in ever)
  }

  /** History, and the live targets' records at a glance: what no step reads. recs: the records of the live targets;
      ever: all targets there ever were; log: all readings; printed, lost: the lines of all prints that succeeded, that
      failed; clock, open: the time of the latest cycle, and whether it is still to be printed; times: those of all
      cycles. */
  datatype Past = Past(recs: Recs, ever: set<Lxt>, log: seq<Reading<Lxt>>, printed: seq<Line>, lost: seq<Line>,
                       clock: real, open: bool, times: set<real>)

  /** Every difference between readings is printed, lost with a failed print, or held for this cycle's print. */
  ghost predicate Balanced(g: Past, nids: map<string, Rec>, nid: string, j: nat)
    requires j < NR_STATS
  {
    LinesSum(g.printed, nid, j) + LinesSum(g.lost, nid, j) + (if g.open then Held(nids, g.clock, nid, j) else 0) ==
      Grown(g.log, nid, j)
  }

  ghost predicate Books(g: Past, nids: map<string, Rec>) {
    && (forall nid, j: nat {:trigger Balanced(g, nids, nid, j)} :: j < NR_STATS ==> Balanced(g, nids, nid, j))
    && (forall nid :: nid in nids ==> nids[nid].time in g.times)
    && (forall t :: t in g.times ==> 0.0 < t) && (g.open ==> g.clock in g.times)
  }

  /** The part of serv_status that counts: clients, MDTs, OSTs. */
  datatype Status = Status(nrNid: int, nrMdt: int, nrOst: int)

  /** The counts agree with the tables. */
  ghost predicate Counts(st: Status, live: set<Lxt>, nids: map<string, Rec>) {
    st.nrNid == |nids| && st.nrMdt == |OfKind(live, 1)| && st.nrOst == |OfKind(live, 0)|
  }

  function CountTarget(st: Status, l: Lxt, d: int): Status {
    if l.kind == 1 then st.(nrMdt := st.nrMdt + d) else st.(nrOst := st.nrOst + d)
  }

  lemma OneMoreKind(ls: set<Lxt>, l: Lxt)
    requires l !in ls
    ensures |OfKind(ls + {l}, l.kind)| == |OfKind(ls, l.kind)| + 1
    ensures |OfKind(ls + {l}, 1 - l.kind)| == |OfKind(ls, 1 - l.kind)|
  {
    assert OfKind(ls + {l}, l.kind) == OfKind(ls, l.kind) + {l};
    assert OfKind(ls + {l}, 1 - l.kind) == OfKind(ls, 1 - l.kind);
  }

  ghost predicate Good(hash: map<string, Lxt>, list: seq<Lxt>, tmp: seq<Lxt>, nids: map<string, Rec>, st: Status,
                       g: Past) {
    Tables(hash, list, tmp, g.recs.Keys) && Records(g.log, g.recs, g.ever) && Counts(st, g.recs.Keys, nids) &&
    Books(g, nids)
  }

  /** A new target has no records yet. */
  lemma TargetRecorded(log: seq<Reading<Lxt>>, recs: Recs, ever: set<Lxt>, l: Lxt)
    requires Records(log, recs, ever) && l !in ever
    ensures Records(log, recs[l := map[]], ever + {l})
  {
    forall nid ensures Recorded(log, map[], l, nid) {
      LastOfStranger(log, l, nid);
    }
    assert AllRecorded(log, map[], l);
  }

  function Added(g: Past, l: Lxt): Past {
    g.(recs := g.recs[l := map[]], ever := g.ever + {l})
  }

  lemma TargetAdded(hash: map<string, Lxt>, list: seq<Lxt>, tmp: seq<Lxt>, nids: map<string, Rec>, st: Status, g: Past,
                    l: Lxt)
    requires Good(hash, list, tmp, nids, st, g) && l.name !in hash && l !in g.ever
    ensures Good(hash[l.name := l], [l] + list, tmp, nids, CountTarget(st, l, 1), Added(g, l))
    ensures Kept(hash[l.name := l], [l] + list) == Kept(hash, list) + {l.name}
  {
    var g' := Added(g, l);
    NotYet(g, l);
    assert g'.recs.Keys == g.recs.Keys + {l};
    KeptAdded(hash, list, tmp, g.recs.Keys, l);
    hide Tables, Records, Counts, Books, Kept;
    TargetRecorded(g.log, g.recs, g.ever, l);
    TargetCounted(st, g.recs.Keys, nids, l);
    TargetListed(hash, list, tmp, g.recs.Keys, l);
    BooksIgnoreTargets(g, g', nids);
  }

  lemma NotYet(g: Past, l: Lxt)
    requires Records(g.log, g.recs, g.ever) && l !in g.ever
    ensures l !in g.recs
  {
  }

  lemma TargetCounted(st: Status, live: set<Lxt>, nids: map<string, Rec>, l: Lxt)
    requires Counts(st, live, nids) && l !in live
    ensures Counts(CountTarget(st, l, 1), live + {l}, nids)
  {
    OneMoreKind(live, l);
  }

  lemma TargetListed(hash: map<string, Lxt>, list: seq<Lxt>, tmp: seq<Lxt>, live: set<Lxt>, l: Lxt)
    requires Tables(hash, list, tmp, live) && l.name !in hash
    ensures Tables(hash[l.name := l], [l] + list, tmp, live + {l})
  {
    forall i, j | 0 <= i < j < |[l] + list| ensures ([l] + list)[i] != ([l] + list)[j] {
      if i == 0 {
        assert list[j - 1] in live;
      }
    }
  }

  lemma BooksIgnoreTargets(g: Past, g': Past, nids: map<string, Rec>)
    requires Books(g, nids) && g' == g.(recs := g'.recs, ever := g'.ever)
    ensures Books(g', nids)
  {
    forall nid, j: nat | j < NR_STATS ensures Balanced(g', nids, nid, j) {
      assert Balanced(g, nids, nid, j);
    }
  }

  /** A reading becomes the record of its target and client, and touches no other. */
  lemma ReadingRecorded(log: seq<Reading<Lxt>>, recs: Recs, ever: set<Lxt>, r: Reading<Lxt>, now: real)
    requires Records(log, recs, ever) && r.l in recs && 0.0 < now
    ensures Records(log + [r], recs[r.l := recs[r.l][r.nid := Rec(r.stats, now)]], ever)
  {
    var recs' := recs[r.l := recs[r.l][r.nid := Rec(r.stats, now)]];
    assert (log + [r])[..|log|] == log;
    forall l | l in recs' ensures AllRecorded(log + [r], recs'[l], l) {
      assert AllRecorded(log, recs[l], l);
      forall nid ensures Recorded(log + [r], recs'[l], l, nid) {
        assert Recorded(log, recs[l], l, nid);
      }
    }
  }

  function Noted(g: Past, r: Reading<Lxt>): Past
    requires r.l in g.recs
  {
    g.(recs := g.recs[r.l := g.recs[r.l][r.nid := Rec(r.stats, g.clock)]], log := g.log + [r])
  }

  /** The client table after a reading: unchanged by a target's first, else up by the difference to the one before. */
  ghost predicate Credited(g: Past, nids: map<string, Rec>, r: Reading<Lxt>, nids': map<string, Rec>) {
    match Last(g.log, r.l, r.nid)
    case None => nids' == nids
    case Some(c) =>
      && r.nid in nids' && nids' == nids[r.nid := nids'[r.nid]] && nids'[r.nid].time == g.clock
      && forall j :: 0 <= j < NR_STATS ==> nids'[r.nid].stats[j] == Held(nids, g.clock, r.nid, j) + r.stats[j] - c[j]
  }

  lemma ReadingBooked(g: Past, nids: map<string, Rec>, r: Reading<Lxt>, nids': map<string, Rec>)
    requires Books(g, nids) && g.open && r.l in g.recs && Credited(g, nids, r, nids')
    ensures Books(Noted(g, r), nids')
  {
    var g' := Noted(g, r);
    assert g'.log[..|g.log|] == g.log;
    forall nid, j: nat | j < NR_STATS ensures Balanced(g', nids', nid, j) {
      assert Balanced(g, nids, nid, j);
    }
  }

  lemma ReadingTaken(hash: map<string, Lxt>, list: seq<Lxt>, tmp: seq<Lxt>, nids: map<string, Rec>, st: Status, g: Past,
                     r: Reading<Lxt>, nids': map<string, Rec>, st': Status)
    requires Good(hash, list, tmp, nids, st, g) && g.open && r.l in g.recs && Credited(g, nids, r, nids')
    requires st' == st.(nrNid := st.nrNid + if r.nid in nids' && r.nid !in nids then 1 else 0)
    ensures Good(hash, list, tmp, nids', st', Noted(g, r))
  {
    assert Noted(g, r).recs.Keys == g.recs.Keys;
    assert |nids'| == |nids| + if r.nid in nids' && r.nid !in nids then 1 else 0;
    ReadingRecorded(g.log, g.recs, g.ever, r, g.clock);
    ReadingBooked(g, nids, r, nids');
  }

  /** What the tables say about a client: the target's record is its last reading, and the client's deltas have
      a time. */
  lemma TablesSay(hash: map<string, Lxt>, list: seq<Lxt>, tmp: seq<Lxt>, nids: map<string, Rec>, st: Status, g: Past,
                  l: Lxt, nid: string)
    requires Good(hash, list, tmp, nids, st, g) && l in g.recs
    ensures match Last(g.log, l, nid)
            case None => nid !in g.recs[l]
            case Some(c) => nid in g.recs[l] && g.recs[l][nid].stats == c && 0.0 < g.recs[l][nid].time
    ensures nid in nids ==> 0.0 < nids[nid].time
  {
    assert AllRecorded(g.log, g.recs[l], l);
    assert Recorded(g.log, g.recs[l], l, nid);
  }

  function Begun(g: Past, now: real): Past {
    g.(clock := now, open := true, times := g.times + {now})
  }

  /** A cycle begins: no client is held for printing yet. */
  lemma CycleOpened(g: Past, nids: map<string, Rec>, now: real)
    requires Books(g, nids) && !g.open && 0.0 < now && now !in g.times
    ensures Books(Begun(g, now), nids)
  {
    forall nid, j: nat | j < NR_STATS ensures Balanced(Begun(g, now), nids, nid, j) {
      assert Balanced(g, nids, nid, j);
    }
  }

  /** A client's deltas start from zero in each cycle. */
  method Credit(ns: Rec, last: Counters, stats: Counters, now: real) returns (r: Rec)
    ensures r.time == now
    ensures forall j :: 0 <= j < NR_STATS ==>
      r.stats[j] == (if ns.time == now then ns.stats[j] else 0) + stats[j] - last[j]
  {
    r := ns;
    if r.time != now {
      r := Rec(NONE, now);
    }
    ghost var start := r.stats;
    for i := 0 to NR_STATS
      invariant r.time == now
      invariant forall j :: 0 <= j < i ==> r.stats[j] == start[j] + stats[j] - last[j]
      invariant forall j :: i <= j < NR_STATS ==> r.stats[j] == start[j]
    {
      r := r.(stats := r.stats[i := r.stats[i] + (stats[i] - last[i])]);
    }
  }

  lemma TargetMoved(hash: map<string, Lxt>, list: seq<Lxt>, tmp: seq<Lxt>, nids: map<string, Rec>, st: Status, g: Past,
                    l: Lxt)
    requires Good(hash, list, tmp, nids, st, g) && l in g.recs
    ensures Good(hash, [l] + Without(list, l), Without(tmp, l), nids, st, g)
    ensures Kept(hash, [l] + Without(list, l)) == Kept(hash, list) + {l.name} && l.name in hash
  {
    KeptMoved(hash, list, tmp, g.recs.Keys, l);
    hide Kept;
    WithoutFacts(list, l);
    WithoutFacts(tmp, l);
    hide Records, Counts, Books;
    var list', tmp' := [l] + Without(list, l), Without(tmp, l);
    forall i, j | 0 <= i < j < |list'| ensures list'[i] != list'[j] {
      assert list'[j] in Without(list, l);
    }
    forall i | 0 <= i < |list'| ensures list'[i] in g.recs.Keys && list'[i] !in tmp' {
      if i > 0 {
        assert list'[i] in Without(list, l);
      }
    }
    forall i | 0 <= i < |tmp'| ensures tmp'[i] in g.recs.Keys {
      assert tmp'[i] in tmp;
    }
  }

  function Dropped(g: Past, l: Lxt): Past {
    g.(recs := g.recs - {l})
  }

  lemma OneLessKind(ls: set<Lxt>, l: Lxt)
    requires l in ls
    ensures |OfKind(ls - {l}, l.kind)| == |OfKind(ls, l.kind)| - 1
    ensures |OfKind(ls - {l}, 1 - l.kind)| == |OfKind(ls, 1 - l.kind)|
  {
    assert OfKind(ls - {l}, l.kind) == OfKind(ls, l.kind) - {l};
    assert OfKind(ls - {l}, 1 - l.kind) == OfKind(ls, 1 - l.kind);
  }

  lemma TargetUncounted(st: Status, live: set<Lxt>, nids: map<string, Rec>, l: Lxt)
    requires Counts(st, live, nids) && l in live
    ensures Counts(CountTarget(st, l, -1), live - {l}, nids)
  {
    OneLessKind(live, l);
  }

  lemma RecordsLeft(log: seq<Reading<Lxt>>, recs: Recs, ever: set<Lxt>, l: Lxt)
    requires Records(log, recs, ever)
    ensures Records(log, recs - {l}, ever)
  {
  }

  lemma TargetUnlisted(hash: map<string, Lxt>, list: seq<Lxt>, tmp: seq<Lxt>, live: set<Lxt>, l: Lxt)
    requires Tables(hash, list, tmp, live) && l in live && l !in list
    ensures Tables(hash - {l.name}, list, Without(tmp, l), live - {l})
  {
    WithoutFacts(tmp, l);
    forall i | 0 <= i < |Without(tmp, l)| ensures Without(tmp, l)[i] in live - {l} {
      assert Without(tmp, l)[i] in tmp;
    }
  }

  lemma TargetDropped(hash: map<string, Lxt>, list: seq<Lxt>, tmp: seq<Lxt>, nids: map<string, Rec>, st: Status,
                      g: Past, l: Lxt)
    requires Good(hash, list, tmp, nids, st, g) && l in g.recs && l !in list
    ensures Good(hash - {l.name}, list, Without(tmp, l), nids, CountTarget(st, l, -1), Dropped(g, l))
  {
    assert Dropped(g, l).recs.Keys == g.recs.Keys - {l};
    hide Books, Tables, Records, Counts;
    TargetUnlisted(hash, list, tmp, g.recs.Keys, l);
    TargetUncounted(st, g.recs.Keys, nids, l);
    RecordsLeft(g.log, g.recs, g.ever, l);
    BooksIgnoreTargets(g, Dropped(g, l), nids);
  }

  /** Targets may come and readings happen; nothing is printed. */
  ghost predicate Collecting(g: Past, g': Past) {
    g' == g.(recs := g'.recs, ever := g'.ever, log := g'.log) && g.log <= g'.log
  }

  /** The names of the targets on lxt_list: those collect_all will keep. */
  ghost function Kept(hash: map<string, Lxt>, list: seq<Lxt>): set<string> {
    set n | n in hash && hash[n] in list
  }

  lemma KeptAdded(hash: map<string, Lxt>, list: seq<Lxt>, tmp: seq<Lxt>, live: set<Lxt>, l: Lxt)
    requires Tables(hash, list, tmp, live) && l !in live
    ensures Kept(hash[l.name := l], [l] + list) == Kept(hash, list) + {l.name}
  {
    forall n | n in hash && n != l.name ensures hash[n] != l {
    }
  }

  lemma KeptMoved(hash: map<string, Lxt>, list: seq<Lxt>, tmp: seq<Lxt>, live: set<Lxt>, l: Lxt)
    requires Tables(hash, list, tmp, live) && l in live
    ensures Kept(hash, [l] + Without(list, l)) == Kept(hash, list) + {l.name}
  {
    WithoutFacts(list, l);
    var list' := [l] + Without(list, l);
    forall n | n in hash ensures hash[n] in list' <==> hash[n] in list || n == l.name {
      if hash[n] in list' && hash[n] != l {
        assert hash[n] in Without(list, l);
      }
    }
  }

  /** Readings change records and extend the log; nothing else. */
  ghost predicate Reads(g: Past, g': Past) {
    g' == g.(recs := g'.recs, log := g'.log) && g'.recs.Keys == g.recs.Keys && g.log <= g'.log
  }

  lemma NoReadings(g: Past, l: Lxt, cs: seq<Client>)
    ensures ReadingsOf(l, cs[..0]) == [] && Reads(g, g)
  {
  }

  /** One more client is done. */
  lemma OneMoreRead(g: Past, g1: Past, g2: Past, l: Lxt, cs: seq<Client>, i: nat)
    requires i < |cs| && l in g1.recs && Reads(g, g1) && g1.log == g.log + ReadingsOf(l, cs[..i])
    requires g2 == if cs[i].reading == None then g1 else Noted(g1, Reading(l, cs[i].nid, cs[i].reading.value))
    ensures Reads(g, g2) && g2.log == g.log + ReadingsOf(l, cs[..i + 1])
    ensures g2.open == g1.open && g2.clock == g1.clock && l in g2.recs
  {
    OneMoreReading(l, cs, i);
  }

  /** The first of the top directories below i that has a target of that name. */
  ghost function DirOf(w: World, i: nat, name: string): (k: nat)
    requires i <= 3
    ensures k < 3
  {
    if i == 0 then 0
    else if name in Names(EntriesUpTo(w, i - 1)) then DirOf(w, i - 1, name)
    else i - 1
  }

  lemma Behind<T>(a: seq<T>, b: seq<T>)
    ensures (a + b)[|a|..] == b
  {
  }

  lemma {:induction false} DirIsFirst(w: World, i: nat, name: string, k: nat)
    requires i <= 3 && k < i && FirstIn(w, name, k)
    ensures DirOf(w, i, name) == k
  {
    EntriesNamed(w, i - 1, name);
    if k < i - 1 {
      DirIsFirst(w, i - 1, name, k);
    }
  }

  lemma EntriesNamed(w: World, n: nat, name: string)
    requires n <= 3
    ensures name in Names(EntriesUpTo(w, n)) <==> exists k: nat, i: nat :: k < n && TargetAt(w, k, i, name)
  {
    var es := EntriesUpTo(w, n);
    forall e ensures e in es <==> exists k: nat, i: nat :: k < n && TargetAt(w, k, i, e.name) && w[k].value[i] == e {
      EntryAt(w, n, e);
    }
    hide EntriesUpTo;
    if name in Names(es) {
      var i :| 0 <= i < |es| && es[i].name == name;
      assert es[i] in es;
    }
    if k: nat, i: nat :| k < n && TargetAt(w, k, i, name) {
      assert w[k].value[i] in es;
    }
  }

  /** Of the three types only that of the third directory is stored as 0. */
  lemma KindsFirst(w: World)
    ensures forall name, k: nat :: FirstIn(w, name, k) ==> Bit(DirOf(w, 3, name)) == if k == 2 then 0 else 1
  {
    forall name, k: nat | FirstIn(w, name, k) ensures Bit(DirOf(w, 3, name)) == if k == 2 then 0 else 1 {
      assert k < 3;
      DirIsFirst(w, 3, name, k);
    }
  }

  lemma CycleOpens(hash: map<string, Lxt>, list: seq<Lxt>, tmp: seq<Lxt>, nids: map<string, Rec>, st: Status, g: Past,
                   now: real)
    requires Good(hash, list, tmp, nids, st, g) && !g.open && 0.0 < now && now !in g.times && tmp == []
    ensures Good(hash, [], list, nids, st, Begun(g, now))
    ensures Kept(hash, []) == {} && Names([]) == {} && Survivors(hash.Keys, []) == {}
  {
    CycleOpened(g, nids, now);
  }

  lemma UnseenIsListed(hash: map<string, Lxt>, list: seq<Lxt>, tmp: seq<Lxt>, nids: map<string, Rec>, st: Status,
                       g: Past)
    requires Good(hash, list, tmp, nids, st, g) && tmp != []
    ensures tmp[0] in g.recs && tmp[0] !in list && Kept(hash - {tmp[0].name}, list) == Kept(hash, list)
    ensures |Without(tmp, tmp[0])| < |tmp|
  {
    assert tmp[0] in tmp;
  }

  lemma NoneUnseen(hash: map<string, Lxt>, list: seq<Lxt>, tmp: seq<Lxt>, nids: map<string, Rec>, st: Status, g: Past)
    requires Good(hash, list, tmp, nids, st, g) && tmp == []
    ensures hash.Keys == Kept(hash, list)
  {
  }

  // ---------- printing ----------

  /** How print_stats goes: well, without a stream to print to, or with an error found once everything is written. */
  datatype Fate = Printed | NoStream | WriteError

  /** The clients seen in this cycle. */
  function Current(nids: map<string, Rec>, now: real): map<string, Rec> {
    map nid | nid in nids && nids[nid].time == now :: nids[nid]
  }

  /** The lines report the deltas of the clients in `done`, leaving out clients without any. */
  ghost predicate SaysSome(lines: seq<Line>, nids: map<string, Rec>, now: real, done: set<string>) {
    && (forall i :: 0 <= i < |lines| ==>
          lines[i].nid in done && lines[i].nid in nids && lines[i].stats == nids[lines[i].nid].stats != NONE)
    && (forall nid, j: nat {:trigger LinesSum(lines, nid, j)} :: j < NR_STATS ==>
          LinesSum(lines, nid, j) == if nid in done then Held(nids, now, nid, j) else 0)
  }

  ghost predicate SaysAll(lines: seq<Line>, nids: map<string, Rec>, now: real) {
    SaysSome(lines, nids, now, nids.Keys)
  }

  /** The clients in `done` are checked, and those among them not seen in this cycle are gone. */
  ghost predicate Swept(nids: map<string, Rec>, nids': map<string, Rec>, now: real, done: set<string>) {
    nids' == map nid | nid in nids && (nid !in done || nids[nid].time == now) :: nids[nid]
  }

  lemma SayOneMore(lines: seq<Line>, nids: map<string, Rec>, now: real, done: set<string>, nid: string)
    requires SaysSome(lines, nids, now, done) && nid in nids && nid !in done
    ensures SaysSome(
      if nids[nid].time == now && nids[nid].stats != NONE then lines + [Line(nid, nids[nid].stats)] else lines,
                     nids, now, done + {nid})
  {
    var more := lines + [Line(nid, nids[nid].stats)];
    assert more[..|lines|] == lines;
    assert forall j: nat :: j < NR_STATS ==> NONE[j] == 0;
    var lines' := if nids[nid].time == now && nids[nid].stats != NONE then more else lines;
    forall n, j: nat | j < NR_STATS
      ensures LinesSum(lines', n, j) == if n in done + {nid} then Held(nids, now, n, j) else 0
    {
      assert LinesSum(lines, n, j) == if n in done then Held(nids, now, n, j) else 0;
    }
  }

  lemma {:induction false} SomeLines(nids: map<string, Rec>, now: real, todo: set<string>) returns (lines: seq<Line>)
    requires todo <= nids.Keys
    ensures SaysSome(lines, nids, now, todo)
  {
    if todo == {} {
      lines := [];
    } else {
      var nid :| nid in todo;
      lines := SomeLines(nids, now, todo - {nid});
      SayOneMore(lines, nids, now, todo - {nid}, nid);
      lines := if nids[nid].time == now && nids[nid].stats != NONE then lines + [Line(nid, nids[nid].stats)] else lines;
      assert todo - {nid} + {nid} == todo;
    }
  }

  lemma SweepOneMore(nids: map<string, Rec>, nids': map<string, Rec>, now: real, done: set<string>, nid: string)
    requires Swept(nids, nids', now, done) && nid in nids && nid !in done
    ensures nid in nids' && nids'[nid] == nids[nid]
    ensures Swept(nids, if nids[nid].time != now then nids' - {nid} else nids', now, done + {nid})
  {
  }

  lemma NothingSwept(nids: map<string, Rec>, now: real)
    ensures Swept(nids, nids, now, {}) && SaysSome([], nids, now, {})
  {
  }

  lemma AllSwept(nids: map<string, Rec>, nids': map<string, Rec>, now: real)
    requires Swept(nids, nids', now, nids.Keys)
    ensures nids' == Current(nids, now)
  {
  }

  lemma OneLess(nids: map<string, Rec>, nid: string)
    requires nid in nids
    ensures |nids - {nid}| == |nids| - 1
  {
    assert (nids - {nid}).Keys == nids.Keys - {nid};
    assert |nids| == |nids.Keys| && |nids - {nid}| == |(nids - {nid}).Keys|;
  }

  function Ended(g: Past, lines: seq<Line>, ok: bool): Past {
    if ok then g.(open := false, printed := g.printed + lines) else g.(open := false, lost := g.lost + lines)
  }

  /** Printing settles the cycle's deltas, one way or the other. */
  lemma CycleEnds(hash: map<string, Lxt>, list: seq<Lxt>, tmp: seq<Lxt>, nids: map<string, Rec>, st: Status, g: Past,
                  nids': map<string, Rec>, lines: seq<Line>, ok: bool)
    requires Good(hash, list, tmp, nids, st, g) && g.open && SaysAll(lines, nids, g.clock)
    requires nids' == nids || nids' == Current(nids, g.clock)
    ensures Good(hash, list, tmp, nids', st.(nrNid := st.nrNid - |nids| + |nids'|), Ended(g, lines, ok))
  {
    var g' := Ended(g, lines, ok);
    forall nid, j: nat | j < NR_STATS ensures Balanced(g', nids', nid, j) {
      assert Balanced(g, nids, nid, j);
      LinesSumAppend(g.printed, lines, nid, j);
      LinesSumAppend(g.lost, lines, nid, j);
    }
  }

  // ---------- what holds after every step ----------

  lemma {:induction false} CountedOnce(list: seq<Lxt>, live: set<Lxt>)
    requires NoDups(list) && (forall i :: 0 <= i < |list| ==> list[i] in live) && (forall l :: l in live ==> l in list)
    ensures |list| == |live|
  {
    if list == [] {
      assert live == {};
    } else {
      var n := |list| - 1;
      forall l | l in live - {list[n]} ensures l in list[..n] {
        var i :| 0 <= i < |list| && list[i] == l;
        assert list[..n][i] == l;
      }
      CountedOnce(list[..n], live - {list[n]});
    }
  }

  lemma {:induction false} NamesInjective(hash: map<string, Lxt>, live: set<Lxt>)
    requires (forall l :: l in live ==> l.name in hash && hash[l.name] == l)
    requires (forall n :: n in hash ==> hash[n] in live && hash[n].name == n)
    ensures |hash| == |live|
    decreases live
  {
    if live == {} {
      assert hash.Keys == {};
    } else {
      var l :| l in live;
      NamesInjective(hash - {l.name}, live - {l});
      assert (hash - {l.name}).Keys == hash.Keys - {l.name};
      assert |hash| == |hash.Keys| && |hash - {l.name}| == |(hash - {l.name}).Keys|;
    }
  }

  lemma KindsAreAll(live: set<Lxt>)
    ensures |OfKind(live, 1)| + |OfKind(live, 0)| == |live|
  {
    assert OfKind(live, 1) + OfKind(live, 0) == live && OfKind(live, 1) * OfKind(live, 0) == {};
  }

  /** The counts agree with the tables after every step; after a cycle the list and the hash table hold the same
      targets. */
  lemma CountsAgree(hash: map<string, Lxt>, list: seq<Lxt>, tmp: seq<Lxt>, nids: map<string, Rec>, st: Status, g: Past)
    requires Good(hash, list, tmp, nids, st, g)
    ensures st.nrNid == |nids| && st.nrMdt + st.nrOst == |hash|
    ensures tmp == [] ==> |list| == |hash| && forall n :: n in hash ==> hash[n] in list
  {
    KindsAreAll(g.recs.Keys);
    NamesInjective(hash, g.recs.Keys);
    if tmp == [] {
      CountedOnce(list, g.recs.Keys);
    }
  }

  /** Telescoping deltas: between cycles, what was printed for a client, plus what failed prints lost, is last counter
      minus first counter, summed over all target records that ever were, even when clients skip cycles or targets
      disappear and come back. Exactly if nothing was lost on balance, the printed deltas alone add up to that. */
  lemma TelescopingDeltas(hash: map<string, Lxt>, list: seq<Lxt>, tmp: seq<Lxt>, nids: map<string, Rec>, st: Status,
                          g: Past, ls: seq<Lxt>, nid: string, j: nat)
    requires Good(hash, list, tmp, nids, st, g) && !g.open && j < NR_STATS
    requires NoDups(ls) && forall i :: 0 <= i < |g.log| ==> g.log[i].l in ls
    ensures LinesSum(g.printed, nid, j) + LinesSum(g.lost, nid, j) == Gains(g.log, ls, nid, j)
    ensures LinesSum(g.printed, nid, j) == Gains(g.log, ls, nid, j) <==> LinesSum(g.lost, nid, j) == 0
  {
    assert Balanced(g, nids, nid, j);
    Telescopes(g.log, ls, nid, j);
  }

  /** Between cycles every difference between readings is printed or lost. */
  ghost predicate Closed(g: Past) {
    forall nid, j: nat {:trigger Grown(g.log, nid, j)} :: j < NR_STATS ==>
      LinesSum(g.printed, nid, j) + LinesSum(g.lost, nid, j) == Grown(g.log, nid, j)
  }

  /** The new lines report exactly what the new readings add. */
  ghost predicate Settles(lines: seq<Line>, lines': seq<Line>, log: seq<Reading<Lxt>>, log': seq<Reading<Lxt>>) {
    forall nid, j: nat {:trigger LinesSum(lines', nid, j)} :: j < NR_STATS ==>
      LinesSum(lines', nid, j) - LinesSum(lines, nid, j) == Grown(log', nid, j) - Grown(log, nid, j)
  }

  lemma CycleSettles(g: Past, g': Past)
    requires Closed(g) && Closed(g')
    ensures g'.lost == g.lost ==> Settles(g.printed, g'.printed, g.log, g'.log)
    ensures g'.printed == g.printed ==> Settles(g.lost, g'.lost, g.log, g'.log)
  {
    forall nid, j: nat | j < NR_STATS
      ensures LinesSum(g'.printed, nid, j) - LinesSum(g.printed, nid, j)
           == Grown(g'.log, nid, j) - Grown(g.log, nid, j) - (LinesSum(g'.lost, nid, j) - LinesSum(g.lost, nid, j))
    {
      assert LinesSum(g.printed, nid, j) + LinesSum(g.lost, nid, j) == Grown(g.log, nid, j);
      assert LinesSum(g'.printed, nid, j) + LinesSum(g'.lost, nid, j) == Grown(g'.log, nid, j);
    }
  }

  /** Printed lines are sent to the master or lost on the way. */
  ghost predicate Shipped(printed: seq<Line>, sent: seq<Line>, unsent: seq<Line>) {
    forall nid, j: nat {:trigger LinesSum(printed, nid, j)} :: j < NR_STATS ==>
      LinesSum(printed, nid, j) == LinesSum(sent, nid, j) + LinesSum(unsent, nid, j)
  }

  lemma ShipMore(printed: seq<Line>, sent: seq<Line>, unsent: seq<Line>, lines: seq<Line>)
    requires Shipped(printed, sent, unsent)
    ensures Shipped(printed + lines, sent + lines, unsent) && Shipped(printed + lines, sent, unsent + lines)
  {
    forall nid, j: nat | j < NR_STATS
      ensures LinesSum(printed + lines, nid, j) == LinesSum(sent + lines, nid, j) + LinesSum(unsent, nid, j)
      ensures LinesSum(printed + lines, nid, j) == LinesSum(sent, nid, j) + LinesSum(unsent + lines, nid, j)
    {
      LinesSumAppend(printed, lines, nid, j);
      LinesSumAppend(sent, lines, nid, j);
      LinesSumAppend(unsent, lines, nid, j);
    }
  }

  /** The same for what the master gets: the deltas sent for a client are last counter minus first counter, over all
      target records, if and only if those of failed prints and failed PUTs add up to zero. */
  lemma SentDeltas(hash: map<string, Lxt>, list: seq<Lxt>, tmp: seq<Lxt>, nids: map<string, Rec>, st: Status, g: Past,
                   sent: seq<Line>, unsent: seq<Line>, ls: seq<Lxt>, nid: string, j: nat)
    requires Good(hash, list, tmp, nids, st, g) && !g.open && j < NR_STATS && Shipped(g.printed, sent, unsent)
    requires NoDups(ls) && forall i :: 0 <= i < |g.log| ==> g.log[i].l in ls
    ensures LinesSum(sent, nid, j) == Gains(g.log, ls, nid, j) <==>
      LinesSum(unsent, nid, j) + LinesSum(g.lost, nid, j) == 0
  {
    TelescopingDeltas(hash, list, tmp, nids, st, g, ls, nid, j);
    hide Good;
    assert LinesSum(g.printed, nid, j) == LinesSum(sent, nid, j) + LinesSum(unsent, nid, j);
  }

  class Collector {
    var hash: map<string, Lxt>      // lxt_hash_table
    var list: seq<Lxt>              // lxt_list
    var tmp: seq<Lxt>               // collect_all's list of targets not yet seen
    var nids: map<string, Rec>      // nid_hash_table
    var status: Status              // serv_status
    var interval: real              // of the cycles, and their offset
    var offset: real
    ghost var g: Past
    // The lines that reached the master, and those of failed PUTs.
    ghost var sent: seq<Line>
    ghost var unsent: seq<Line>

    /** The targets' own tables are what history says. */
    static ghost predicate Shown(recs: Recs)
      reads recs.Keys`recs
    {
      forall l {:trigger recs[l]} :: l in recs ==> l.recs == recs[l]
    }

    ghost predicate Valid()
      reads `hash, `list, `tmp, `nids, `status, `g, g.recs.Keys`recs
    {
      Good(hash, list, tmp, nids, status, g) && Shown(g.recs)
    }

    lemma TargetsNamed()
      requires Valid()
      ensures forall n :: n in hash ==> hash[n].name == n && hash[n] in g.recs
      ensures forall l :: l in g.recs ==> l.name in hash && hash[l.name] == l
    {
    }

    lemma AllClosed()
      requires Valid() && !g.open
      ensures Closed(g)
    {
      forall nid, j: nat | j < NR_STATS
        ensures LinesSum(g.printed, nid, j) + LinesSum(g.lost, nid, j) == Grown(g.log, nid, j)
      {
        assert Balanced(g, nids, nid, j);
      }
    }

    constructor (interval: real, offset: real)
      ensures Shipped(g.printed, sent, unsent) && sent == [] && this.interval == interval && this.offset == offset
      ensures Valid() && g == Past(map[], {}, [], [], [], 0.0, false, {})
      ensures hash == map[] && list == [] && tmp == [] && nids == map[] && status == Status(0, 0, 0)
    {
      hash, list, tmp, nids, status := map[], [], [], map[], Status(0, 0, 0);
      this.interval, this.offset := interval, offset;
      g, sent, unsent := Past(map[], {}, [], [], [], 0.0, false, {}), [], [];
    }

    /** lxt_lookup: find the target or create it at the head of the list. */
    method Lookup(name: string, kind: nat) returns (l: Lxt)
      requires Valid() && kind < 3
      modifies `hash, `list, `status, `g
      ensures Valid() && l.name == name && l in g.recs
      ensures name in old(hash) ==> l == old(hash)[name] && hash == old(hash) && list == old(list) && g == old(g)
      ensures name !in old(hash) ==>
        fresh(l) && l.kind == Bit(kind) && hash == old(hash)[name := l] && list == [l] + old(list) &&
        g == Added(old(g), l)
      ensures Kept(hash, list) == Kept(old(hash), old(list)) + if name in old(hash) then {} else {name}
    {
      if name in hash {
        return hash[name];
      }
      l := Create(name, Bit(kind));
    }

    /** The second half of lxt_lookup. */
    method Create(name: string, kind: bv1) returns (l: Lxt)
      requires Valid() && name !in hash
      modifies `hash, `list, `status, `g
      ensures Valid() && fresh(l) && l.name == name && l.kind == kind
      ensures hash == old(hash)[name := l] && list == [l] + old(list) && g == Added(old(g), l)
      ensures Kept(hash, list) == Kept(old(hash), old(list)) + {name}
    {
      hide Good, Kept;
      l := new Lxt(name, kind);
      TargetAdded(hash, list, tmp, nids, status, g, l);
      hash := hash[name := l];
      list := [l] + list;
      g := Added(g, l);
      if l.kind == 1 {
        status := status.(nrMdt := status.nrMdt + 1);
      } else {
        status := status.(nrOst := status.nrOst + 1);
      }
    }

    /** The middle of lxt_collect_nid: find or create the client, and add to its deltas of this cycle. */
    method CreditClient(nid: string, last: Counters, stats: Counters, now: real)
      requires nid in nids ==> 0.0 < nids[nid].time
      modifies `nids, `status
      ensures nid in nids && nids == old(nids)[nid := nids[nid]] && nids[nid].time == now
      ensures forall j :: 0 <= j < NR_STATS ==> nids[nid].stats[j] == Held(old(nids), now, nid, j) + stats[j] - last[j]
      ensures status == old(status).(nrNid := old(status).nrNid + if nid in old(nids) then 0 else 1)
    {
      var ns := if nid in nids then nids[nid] else Rec(NONE, 0.0);
      if ns.time == 0.0 {
        status := status.(nrNid := status.nrNid + 1);
      }
      ns := Credit(ns, last, stats, now);
      nids := nids[nid := ns];
    }

    /** lxt_collect_nid */
    method CollectNid(l: Lxt, nid: string, reading: Option<Counters>, now: real)
      requires Valid() && g.open && g.clock == now && l in g.recs
      modifies `nids, `status, `g, l`recs
      ensures Valid() && g == if reading == None then old(g) else Noted(old(g), Reading(l, nid, reading.value))
    {
      hide *;
      if reading == None {
        return;
      }
      var stats := reading.value;
      var r := Reading(l, nid, stats);
      ValidParts();
      Difference(l, nid, stats, now);
      ReadingTaken(hash, list, tmp, old(nids), old(status), g, r, nids, status);
      Note(l, r, now);
      ValidParts();
    }

    lemma ValidParts()
      ensures Valid() <==> Good(hash, list, tmp, nids, status, g) && Shown(g.recs)
    {
    }

    /** The end of lxt_collect_nid: the reading becomes the record. */
    method Note(l: Lxt, r: Reading<Lxt>, now: real)
      requires Shown(g.recs) && l in g.recs && r.l == l && g.clock == now
      modifies l`recs, `g
      ensures g == Noted(old(g), r) && Shown(g.recs)
    {
      l.recs := l.recs[r.nid := Rec(r.stats, now)];
      g := Noted(g, r);
    }

    /** The first half of lxt_collect_nid: if the target has a record of the client, credit the difference to it. */
    method Difference(l: Lxt, nid: string, stats: Counters, now: real)
      requires Valid() && g.open && g.clock == now && l in g.recs
      modifies `nids, `status
      ensures Credited(g, old(nids), Reading(l, nid, stats), nids)
      ensures status == old(status).(nrNid := old(status).nrNid + if nid in nids && nid !in old(nids) then 1 else 0)
    {
      hide Good;
      TablesSay(hash, list, tmp, nids, status, g, l, nid);
      var ts := if nid in l.recs then l.recs[nid] else Rec(NONE, 0.0);
      if ts.time != 0.0 {
        CreditClient(nid, ts.stats, stats, now);
      }
    }

    /** lxt_collect: take a reading of every client, unless exports/ cannot be opened. */
    method Collect(l: Lxt, exports: Option<seq<Client>>, now: real) returns (ok: bool)
      requires Valid() && g.open && g.clock == now && l in g.recs
      modifies `nids, `status, `g, l`recs
      ensures Valid() && Reads(old(g), g) && ok == exports.Some?
      ensures g.log == old(g).log + if exports.Some? then ReadingsOf(l, exports.value) else []
    {
      if exports == None {
        return false;
      }
      hide Good, ReadingsOf, Shown, Reads, Noted;
      var cs := exports.value;
      NoReadings(g, l, cs);
      for i := 0 to |cs|
        invariant Valid() && Reads(old(g), g) && g.log == old(g).log + ReadingsOf(l, cs[..i])
        invariant g.open && g.clock == now && l in g.recs
      {
        ghost var mid := g;
        CollectNid(l, cs[i].nid, cs[i].reading, now);
        OneMoreRead(old(g), mid, g, l, cs, i);
      }
      assert cs[..|cs|] == cs;
      return true;
    }

    /** list_move to lxt_list */
    method ListMove(l: Lxt)
      requires Valid() && l in g.recs
      modifies `list, `tmp
      ensures Valid() && list == [l] + Without(old(list), l) && tmp == Without(old(tmp), l)
      ensures Kept(hash, list) == Kept(hash, old(list)) + {l.name}
    {
      hide Good, Kept;
      TargetMoved(hash, list, tmp, nids, status, g, l);
      list := [l] + Without(list, l);
      tmp := Without(tmp, l);
    }

    /** lxt_delete */
    method Delete(l: Lxt)
      requires Valid() && l in g.recs && l in tmp && l !in list
      modifies `hash, `tmp, `status, `g, l`recs
      ensures Valid() && hash == old(hash) - {l.name} && tmp == Without(old(tmp), l) && g == Dropped(old(g), l)
    {
      hide Good;
      TargetDropped(hash, list, tmp, nids, status, g, l);
      if l.kind == 1 {
        status := status.(nrMdt := status.nrMdt - 1);
      } else {
        status := status.(nrOst := status.nrOst - 1);
      }
      l.recs := map[];
      hash := hash - {l.name};
      tmp := Without(tmp, l);
      g := Dropped(g, l);
    }

    /** The body of collect_all's loops: one directory entry. */
    method CollectEntry(e: Entry, kind: nat, now: real)
      requires Valid() && g.open && g.clock == now && kind < 3
      modifies `hash, `list, `tmp, `nids, `status, `g, g.recs.Keys`recs
      ensures Valid() && Collecting(old(g), g)
      ensures forall l :: l in g.recs ==> l in old(g.recs) || fresh(l)
      ensures hash.Keys == old(hash).Keys + {e.name} && forall n :: n in old(hash) ==> hash[n] == old(hash)[n]
      ensures Kept(hash, list) ==
        Kept(old(hash), old(list)) + if e.exports.Some? || e.name !in old(hash) then {e.name} else {}
      ensures g.log == old(g).log + ReadingsIn(hash, e)
      ensures e.name !in old(hash) ==> hash[e.name].kind == Bit(kind)
    {
      hide Good, Kept, Shown, ReadingsOf, Bit;
      var l := Lookup(e.name, kind);
      var ok := Collect(l, e.exports, now);
      if ok {
        ListMove(l);
      }
    }

    /** One top directory. */
    method CollectDir(es: seq<Entry>, kind: nat, now: real, ghost known: set<string>, ghost done: seq<Entry>)
      requires Valid() && g.open && g.clock == now && kind < 3
      requires hash.Keys == known + Names(done) && Kept(hash, list) == Survivors(known, done)
      modifies `hash, `list, `tmp, `nids, `status, `g, g.recs.Keys`recs
      ensures Valid() && Collecting(old(g), g)
      ensures forall l :: l in g.recs ==> l in old(g.recs) || fresh(l)
      ensures forall n :: n in old(hash) ==> n in hash && hash[n] == old(hash)[n]
      ensures hash.Keys == known + Names(done + es) && Kept(hash, list) == Survivors(known, done + es)
      ensures g.log == old(g).log + Heard(hash, es) && Heard(hash, done) == Heard(old(hash), done)
      ensures forall n :: n in hash && n !in old(hash) ==> hash[n].kind == Bit(kind)
    {
      hide Good, Kept, Shown, Names, Survivors, Heard, ReadingsIn, Bit;
      assert done + es[..0] == done;
      NothingHeard(hash, es);
      for i := 0 to |es|
        invariant Valid() && Collecting(old(g), g)
        invariant forall l :: l in g.recs ==> l in old(g.recs) || fresh(l)
        invariant forall n :: n in old(hash) ==> n in hash && hash[n] == old(hash)[n]
        invariant hash.Keys == known + Names(done + es[..i]) && Kept(hash, list) == Survivors(known, done + es[..i])
        invariant g.log == old(g).log + Heard(hash, es[..i]) && Heard(hash, done) == Heard(old(hash), done)
        invariant forall n :: n in hash && n !in old(hash) ==> hash[n].kind == Bit(kind)
      {
        ghost var before := hash;
        OneMoreEntry(known, done + es[..i], es[i]);
        assert done + es[..i] + [es[i]] == done + es[..i + 1];
        CollectEntry(es[i], kind, now);
        HeardBefore(before, hash, known, done, es[..i]);
        HeardOneMore(hash, es, i);
      }
      assert es[..|es|] == es;
    }

    /** The start of collect_all: every target is unseen. */
    method Unsee(now: real)
      requires Valid() && !g.open && 0.0 < now && now !in g.times && tmp == []
      modifies `list, `tmp, `g
      ensures Valid() && g == Begun(old(g), now)
      ensures Kept(hash, list) == Survivors(hash.Keys, []) && Names([]) == {}
    {
      hide Good, Kept, Shown, Names, Survivors;
      CycleOpens(hash, list, tmp, nids, status, g, now);
      tmp := list;
      list := [];
      g := Begun(g, now);
    }

    /** The loops of collect_all: one top directory after the other. */
    method See(world: World, now: real, ghost known: set<string>)
      requires Valid() && g.open && g.clock == now && hash.Keys == known + Names([])
      requires Kept(hash, list) == Survivors(known, [])
      modifies `hash, `list, `tmp, `nids, `status, `g, g.recs.Keys`recs
      ensures Valid() && Collecting(old(g), g)
      ensures forall l :: l in g.recs ==> l in old(g.recs) || fresh(l)
      ensures forall n :: n in old(hash) ==> n in hash && hash[n] == old(hash)[n]
      ensures Kept(hash, list) == Survivors(known, Entries(world))
      ensures g.log == old(g).log + Heard(hash, Entries(world))
      ensures forall n :: n in hash && n !in known ==> hash[n].kind == Bit(DirOf(world, 3, n))
    {
      hide Good, Kept, Shown, Names, Survivors, Heard, Bit;
      ghost var done: seq<Entry> := [];
      NothingHeard(hash, []);
      NoNames();
      for i := 0 to 3
        invariant Valid() && Collecting(old(g), g)
        invariant forall l :: l in g.recs ==> l in old(g.recs) || fresh(l)
        invariant forall n :: n in old(hash) ==> n in hash && hash[n] == old(hash)[n]
        invariant done == EntriesUpTo(world, i)
        invariant hash.Keys == known + Names(done) && Kept(hash, list) == Survivors(known, done)
        invariant g.log == old(g).log + Heard(hash, done)
        invariant forall n :: n in hash && n !in known ==> hash[n].kind == Bit(DirOf(world, i, n))
      {
        if world[i].Some? {
          CollectDir(world[i].value, i, now, known, done);
          HeardAppend(hash, done, world[i].value);
          done := done + world[i].value;
        }
      }
    }

    /** collect_all: read everything there is, and forget the targets not seen. */
    method CollectAll(world: World, now: real)
      requires Valid() && !g.open && 0.0 < now && now !in g.times && tmp == []
      modifies `hash, `list, `tmp, `nids, `status, `g, g.recs.Keys`recs
      ensures Valid() && tmp == [] && g.open && g.clock == now && g.times == old(g).times + {now}
      ensures forall l :: l in g.recs ==> l in old(g.recs) || fresh(l)
      ensures g.printed == old(g).printed && g.lost == old(g).lost
      ensures hash.Keys == Survivors(old(hash).Keys, Entries(world))
      ensures forall n :: n in hash && n in old(hash) ==> hash[n] == old(hash)[n]
      ensures g.log == old(g).log + Heard(hash, Entries(world))
      ensures forall n :: n in hash && n !in old(hash) ==> hash[n].kind == Bit(DirOf(world, 3, n))
      ensures Keeps(world, old(hash).Keys, hash.Keys) && AllRead(world, hash, g.log[|old(g).log|..])
      ensures forall n, k: nat :: n in hash && n !in old(hash) && FirstIn(world, n, k) ==>
        hash[n].kind == if k == 2 then 0 else 1
    {
      hide Good, Kept, Shown, Names, Survivors, EntriesUpTo, Heard, DirOf, Bit, Keeps, AllRead, FirstIn;
      ghost var known := hash.Keys;
      Unsee(now);
      See(world, now, known);
      ghost var seen := hash;
      DeleteUnseen();
      HeardSurvives(seen, hash, known, Entries(world));
      CycleMeans(world, known, hash);
      Behind(old(g).log, Heard(hash, Entries(world)));
      KindsFirst(world);
    }

    /** The end of collect_all: kill all targets that were not just seen. */
    method DeleteUnseen()
      requires Valid()
      modifies `hash, `tmp, `status, `g, g.recs.Keys`recs
      ensures Valid() && tmp == [] && g == old(g).(recs := g.recs) && g.recs.Keys <= old(g.recs.Keys)
      ensures hash.Keys == Kept(old(hash), list) && forall n :: n in hash ==> n in old(hash) && hash[n] == old(hash)[n]
    {
      hide Good, Kept, Shown;
      while tmp != []
        invariant Valid() && g == old(g).(recs := g.recs) && g.recs.Keys <= old(g.recs.Keys)
        invariant Kept(hash, list) == Kept(old(hash), list)
        invariant forall n :: n in hash ==> n in old(hash) && hash[n] == old(hash)[n]
        decreases |tmp|
      {
        var l := tmp[0];
        UnseenIsListed(hash, list, tmp, nids, status, g);
        Delete(l);
      }
      NoneUnseen(hash, list, tmp, nids, status, g);
    }

    /** print_stats: one line for each client with a delta this cycle; clients not seen this cycle are forgotten. */
    method PrintStats(now: real, fate: Fate) returns (ok: bool, lines: seq<Line>)
      requires Valid() && g.open && g.clock == now
      modifies `nids, `status, `g
      ensures Valid() && !g.open && g.clock == now && ok == (fate == Printed)
      ensures fate != NoStream ==> nids == Current(old(nids), now) && SaysAll(lines, old(nids), now)
      ensures fate == NoStream ==> nids == old(nids)
      ensures g == old(g).(open := false, printed := g.printed, lost := g.lost)
      ensures if ok then g.printed == old(g).printed + lines && g.lost == old(g).lost
              else g.printed == old(g).printed && old(g).lost <= g.lost
      ensures !ok ==> SaysAll(g.lost[|old(g).lost|..], old(nids), now)
    {
      hide Good, SaysSome;
      lines := [];
      if fate == NoStream {
        ghost var held := SomeLines(nids, now, nids.Keys);
        CycleEnds(hash, list, tmp, nids, status, g, nids, held, false);
        g := Ended(g, held, false);
        return false, [];
      }
      ghost var was := nids;
      lines := Sweep(now);
      ok := fate == Printed;
      CycleEnds(hash, list, tmp, was, old(status), g, nids, lines, ok);
      g := Ended(g, lines, ok);
    }

    /** The loop of print_stats, over the clients in whatever order the hash table has them. */
    method Sweep(now: real) returns (lines: seq<Line>)
      modifies `nids, `status
      ensures nids == Current(old(nids), now) && SaysSome(lines, old(nids), now, old(nids).Keys)
      ensures status == old(status).(nrNid := old(status).nrNid - |old(nids)| + |nids|)
    {
      hide SaysSome, Swept;
      lines := [];
      var todo := nids.Keys;
      NothingSwept(nids, now);
      assert nids.Keys - todo == {};
      while todo != {}
        invariant todo <= old(nids).Keys && Swept(old(nids), nids, now, old(nids).Keys - todo)
        invariant SaysSome(lines, old(nids), now, old(nids).Keys - todo)
        invariant status == old(status).(nrNid := old(status).nrNid - |old(nids)| + |nids|)
      {
        var nid :| nid in todo;
        SayOneMore(lines, old(nids), now, old(nids).Keys - todo, nid);
        SweepOneMore(old(nids), nids, now, old(nids).Keys - todo, nid);
        var ns := nids[nid];
        if ns.time != now {
          OneLess(nids, nid);
          nids := nids - {nid};
          status := status.(nrNid := status.nrNid - 1);
        } else if ns.stats != NONE {
          lines := lines + [Line(nid, ns.stats)];
        }
        assert old(nids).Keys - todo + {nid} == old(nids).Keys - (todo - {nid});
        todo := todo - {nid};
      }
      assert old(nids).Keys - todo == old(nids).Keys;
      AllSwept(old(nids), nids, now);
    }

    /** send_stats: print, and PUT what is printed. */
    method SendStats(now: real, fate: Fate, put: bool) returns (ok: bool, lines: seq<Line>)
      requires Valid() && g.open && g.clock == now && Shipped(g.printed, sent, unsent)
      modifies `nids, `status, `g, `sent, `unsent
      ensures Valid() && !g.open && g.clock == now && Shipped(g.printed, sent, unsent)
      ensures g == old(g).(open := false, printed := g.printed, lost := g.lost)
      ensures g.printed == old(g).printed + (if fate == Printed then lines else [])
      ensures fate == Printed ==> g.lost == old(g).lost
      ensures ok == (fate == Printed && put)
      ensures sent == old(sent) + if ok then lines else []
      ensures unsent == old(unsent) + if fate == Printed && !put then lines else []
    {
      hide *;
      ok, lines := PrintStats(now, fate);
      if !ok {
        return;
      }
      ShipMore(old(g).printed, sent, unsent, lines);
      ok := put;
      if put {
        sent := sent + lines;
      } else {
        unsent := unsent + lines;
      }
    }

    /** send_serv_status and the end of clock_cb: the master's reply, if there is one, sets the clock; `again` if that
        is a change. */
    method SetClock(reply: Option<(real, real)>) returns (again: bool)
      modifies `interval, `offset
      ensures (interval, offset) == if reply.Some? then reply.value else (old(interval), old(offset))
      ensures again <==> interval != old(interval) || offset != old(offset)
    {
      if reply == None {
        return false;
      }
      var (i, o) := reply.value;
      again := interval != i || offset != o;
      if again {
        interval, offset := i, o;
      }
    }

    /** clock_cb: one cycle. */
    method Clock(world: World, now: real, fate: Fate, put: bool, reply: Option<(real, real)>)
      returns (ok: bool, lines: seq<Line>, again: bool)
      requires Valid() && !g.open && 0.0 < now && now !in g.times && tmp == [] && Shipped(g.printed, sent, unsent)
      modifies `hash, `list, `tmp, `nids, `status, `g, `sent, `unsent, `interval, `offset, g.recs.Keys`recs
      ensures Valid() && !g.open && g.clock == now && tmp == [] && g.times == old(g).times + {now}
      ensures Shipped(g.printed, sent, unsent)
      ensures forall l :: l in g.recs ==> l in old(g.recs) || fresh(l)
      ensures hash.Keys == Survivors(old(hash).Keys, Entries(world))
      ensures forall n :: n in hash && n in old(hash) ==> hash[n] == old(hash)[n]
      ensures forall n :: n in hash && n !in old(hash) ==> hash[n].kind == Bit(DirOf(world, 3, n))
      ensures g.log == old(g).log + Heard(hash, Entries(world))
      ensures g.printed == old(g).printed + (if fate == Printed then lines else [])
      ensures fate == Printed ==> g.lost == old(g).lost && Settles(old(g).printed, g.printed, old(g).log, g.log)
      ensures fate != Printed ==> Settles(old(g).lost, g.lost, old(g).log, g.log)
      ensures ok == (fate == Printed && put) && sent == old(sent) + if ok then lines else []
      ensures (interval, offset) == if reply.Some? then reply.value else (old(interval), old(offset))
      ensures again <==> interval != old(interval) || offset != old(offset)
    {
      hide *;
      AllClosed();
      CollectAll(world, now);
      ok, lines := SendStats(now, fate, put);
      again := SetClock(reply);
      AllClosed();
      CycleSettles(old(g), g);
    }
  }
}
