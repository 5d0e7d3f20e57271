/** What xltop-servd reads (src/servd.c), without its tables: absolute counters that a target's directory shows for a
    client, and what the differences between them add up to. Targets may be anything that can be told apart. */
module Readings {
  import opened Basics
  import opened Ewma

  type Counters = v: seq<int> | |v| == NR_STATS witness [0, 0, 0]

  const NONE: Counters := [0, 0, 0]

  /** A client's directory below exports/; reading its stats file may fail. */
  datatype Client = Client(nid: string, reading: Option<Counters>)

  /** A target's directory and the clients below its exports/, unless that cannot be opened. Only directories whose
      names do not start with a dot count, here and for clients. */
  datatype Entry = Entry(name: string, exports: Option<seq<Client>>)

  /** What /proc shows below the three top directories (mds, mdt, obdfilter), each of which may be missing. */
  type World = w: seq<Option<seq<Entry>>> | |w| == 3 witness [None, None, None]

  // ---------- history: readings and what they add up to ----------

  datatype Reading<T> = Reading(l: T, nid: string, stats: Counters)

  predicate About<T(==)>(r: Reading<T>, l: T, nid: string) {
    r.l == l && r.nid == nid
  }

  /** The latest counters a target's record of a client has seen. */
  function Last<T(==)>(log: seq<Reading<T>>, l: T, nid: string): Option<Counters> {
    if log == [] then None
    else
      var r := log[|log| - 1];
      if About(r, l, nid) then Some(r.stats) else Last(log[..|log| - 1], l, nid)
  }

  function First<T(==)>(log: seq<Reading<T>>, l: T, nid: string): Option<Counters> {
    if log == [] then None
    else if About(log[0], l, nid) then Some(log[0].stats)
    else First(log[1..], l, nid)
  }

  /** Last counter minus first counter over the record's lifetime. */
  function Gain<T(==)>(log: seq<Reading<T>>, l: T, nid: string, j: nat): int
    requires j < NR_STATS
  {
    match (First(log, l, nid), Last(log, l, nid))
    case (Some(a), Some(b)) => b[j] - a[j]
    case _ => 0
  }

  function Gains<T(==)>(log: seq<Reading<T>>, ls: seq<T>, nid: string, j: nat): int
    requires j < NR_STATS
  {
    if ls == [] then 0 else Gain(log, ls[0], nid, j) + Gains(log, ls[1..], nid, j)
  }

  /** What one reading adds for a client: its difference to the target's previous reading, if there is one. */
  function Step<T(==)>(log: seq<Reading<T>>, r: Reading<T>, nid: string, j: nat): int
    requires j < NR_STATS
  {
    if r.nid != nid then 0
    else match Last(log, r.l, nid)
      case None => 0
      case Some(c) => r.stats[j] - c[j]
  }

  function Grown<T(==)>(log: seq<Reading<T>>, nid: string, j: nat): int
    requires j < NR_STATS
  {
    if log == [] then 0
    else Grown(log[..|log| - 1], nid, j) + Step(log[..|log| - 1], log[|log| - 1], nid, j)
  }

  lemma {:induction false} FirstExtends<T>(log: seq<Reading<T>>, r: Reading<T>, l: T, nid: string)
    ensures First(log + [r], l, nid) == (match First(log, l, nid)
                                         case Some(c) => Some(c)
                                         case None => if About(r, l, nid) then Some(r.stats) else None)
    ensures First(log, l, nid).None? <==> Last(log, l, nid).None?
  {
    if log != [] {
      FirstExtends(log[1..], r, l, nid);
      assert (log + [r])[1..] == log[1..] + [r];
      LastFromFront(log, l, nid);
    }
  }

  lemma {:induction false} LastFromFront<T>(log: seq<Reading<T>>, l: T, nid: string)
    requires log != []
    ensures Last(log, l, nid) == (match Last(log[1..], l, nid)
                                  case Some(c) => Some(c)
                                  case None => if About(log[0], l, nid) then Some(log[0].stats) else None)
  {
    if |log| > 1 {
      LastFromFront(log[..|log| - 1], l, nid);
      assert log[..|log| - 1][1..] == log[1..][..|log| - 2];
    }
  }

  lemma GainStep<T>(log: seq<Reading<T>>, r: Reading<T>, l: T, nid: string, j: nat)
    requires j < NR_STATS
    ensures Gain(log + [r], l, nid, j) == Gain(log, l, nid, j) + if r.l == l then Step(log, r, nid, j) else 0
  {
    FirstExtends(log, r, l, nid);
    assert (log + [r])[..|log|] == log;
  }

  lemma {:induction false} GainsStep<T>(log: seq<Reading<T>>, r: Reading<T>, ls: seq<T>, nid: string, j: nat)
    requires j < NR_STATS && NoDups(ls)
    ensures Gains(log + [r], ls, nid, j) == Gains(log, ls, nid, j) + if r.l in ls then Step(log, r, nid, j) else 0
  {
    if ls != [] {
      GainsStep(log, r, ls[1..], nid, j);
      GainStep(log, r, ls[0], nid, j);
    }
  }

  lemma {:induction false} NoGains<T>(ls: seq<T>, nid: string, j: nat)
    requires j < NR_STATS
    ensures Gains([], ls, nid, j) == 0
  {
    if ls != [] {
      NoGains(ls[1..], nid, j);
    }
  }

  /** The differences of consecutive readings telescope, per target record: over all records that ever were, they add up
      to last counter minus first counter. */
  lemma {:induction false} Telescopes<T>(log: seq<Reading<T>>, ls: seq<T>, nid: string, j: nat)
    requires j < NR_STATS && NoDups(ls)
    requires forall i :: 0 <= i < |log| ==> log[i].l in ls
    ensures Grown(log, nid, j) == Gains(log, ls, nid, j)
  {
    if log == [] {
      NoGains(ls, nid, j);
    } else {
      var n := |log| - 1;
      Telescopes(log[..n], ls, nid, j);
      GainsStep(log[..n], log[n], ls, nid, j);
      assert log == log[..n] + [log[n]];
    }
  }

  lemma {:induction false} LastOfStranger<T>(log: seq<Reading<T>>, l: T, nid: string)
    requires forall i :: 0 <= i < |log| ==> log[i].l != l
    ensures Last(log, l, nid).None?
  {
    if log != [] {
      LastOfStranger(log[..|log| - 1], l, nid);
    }
  }

  // ---------- printed lines ----------

  datatype Line = Line(nid: string, stats: Counters)

  function LinesSum(lines: seq<Line>, nid: string, j: nat): int
    requires j < NR_STATS
  {
    if lines == [] then 0
    else
      var e := lines[|lines| - 1];
      LinesSum(lines[..|lines| - 1], nid, j) + if e.nid == nid then e.stats[j] else 0
  }

  lemma {:induction false} LinesSumAppend(a: seq<Line>, b: seq<Line>, nid: string, j: nat)
    requires j < NR_STATS
    ensures LinesSum(a + b, nid, j) == LinesSum(a, nid, j) + LinesSum(b, nid, j)
  {
    if b == [] {
      assert a + b == a;
    } else {
      var n := |b| - 1;
      LinesSumAppend(a, b[..n], nid, j);
      assert (a + b)[..|a| + n] == a + b[..n];
    }
  }

  // ---------- what a cycle keeps ----------

  function EntriesUpTo(w: World, i: nat): seq<Entry>
    requires i <= 3
  {
    if i == 0 then [] else EntriesUpTo(w, i - 1) + if w[i - 1].Some? then w[i - 1].value else []
  }

  /** All target directories in the order collect_all sees them. */
  function Entries(w: World): seq<Entry> {
    EntriesUpTo(w, 3)
  }

  ghost function Names(es: seq<Entry>): set<string> {
    set i | 0 <= i < |es| :: es[i].name
  }

  /** The targets a cycle keeps: those whose exports/ could be read, and those seen for the first time even if not. */
  ghost function Survivors(known: set<string>, es: seq<Entry>): set<string> {
    (set i | 0 <= i < |es| && es[i].exports.Some? :: es[i].name) + (Names(es) - known)
  }

  lemma OneMoreEntry(known: set<string>, es: seq<Entry>, e: Entry)
    ensures Names(es + [e]) == Names(es) + {e.name}
    ensures Survivors(known, es + [e])
         == Survivors(known, es) + if e.exports.Some? || e.name !in known + Names(es) then {e.name} else {}
  {
    var fs := es + [e];
    forall i | 0 <= i < |es| ensures es[i] == fs[i] {
    }
    assert fs[|es|] == e;
    assert Names(fs) == Names(es) + {e.name};
    var a := set i | 0 <= i < |es| && es[i].exports.Some? :: es[i].name;
    var b := set i | 0 <= i < |fs| && fs[i].exports.Some? :: fs[i].name;
    assert b == a + if e.exports.Some? then {e.name} else {};
  }

  /** The readings one target's clients give, in order. */
  function ReadingsOf<T>(l: T, cs: seq<Client>): seq<Reading<T>> {
    if cs == [] then []
    else
      var c := cs[|cs| - 1];
      ReadingsOf(l, cs[..|cs| - 1]) + if c.reading.Some? then [Reading(l, c.nid, c.reading.value)] else []
  }

  lemma OneMoreReading<T>(l: T, cs: seq<Client>, i: nat)
    requires i < |cs|
    ensures ReadingsOf(l, cs[..i + 1])
         == ReadingsOf(l, cs[..i]) + if cs[i].reading.Some? then [Reading(l, cs[i].nid, cs[i].reading.value)] else []
  {
    assert cs[..i + 1][..i] == cs[..i];
  }

  /** The readings of a directory: none if exports/ cannot be opened. */
  function ReadingsIn<T>(hash: map<string, T>, e: Entry): seq<Reading<T>> {
    if e.exports.Some? && e.name in hash then ReadingsOf(hash[e.name], e.exports.value) else []
  }

  /** All readings the directories `es` give, in order. */
  function Heard<T>(hash: map<string, T>, es: seq<Entry>): seq<Reading<T>> {
    if es == [] then [] else Heard(hash, es[..|es| - 1]) + ReadingsIn(hash, es[|es| - 1])
  }

  lemma {:induction false} HeardSame<T>(hash: map<string, T>, hash': map<string, T>, es: seq<Entry>)
    requires forall i :: 0 <= i < |es| && es[i].exports.Some? ==>
      es[i].name in hash && es[i].name in hash' && hash[es[i].name] == hash'[es[i].name]
    ensures Heard(hash, es) == Heard(hash', es)
  {
    if es != [] {
      HeardSame(hash, hash', es[..|es| - 1]);
    }
  }

  /** New targets do not change what was heard before. */
  lemma HeardBefore<T>(hash: map<string, T>, hash': map<string, T>, known: set<string>, done: seq<Entry>,
                       es: seq<Entry>)
    requires hash.Keys == known + Names(done + es) && forall n :: n in hash ==> n in hash' && hash'[n] == hash[n]
    ensures Heard(hash', done) == Heard(hash, done) && Heard(hash', es) == Heard(hash, es)
  {
    forall i | 0 <= i < |es| ensures es[i].name in hash {
      assert (done + es)[|done| + i] == es[i];
    }
    forall i | 0 <= i < |done| ensures done[i].name in hash {
      assert (done + es)[i] == done[i];
    }
    HeardSame(hash, hash', done);
    HeardSame(hash, hash', es);
  }

  /** Nor does forgetting the targets that gave no readings. */
  lemma HeardSurvives<T>(hash: map<string, T>, hash': map<string, T>, known: set<string>, es: seq<Entry>)
    requires hash'.Keys == Survivors(known, es) && forall n :: n in hash' ==> n in hash && hash'[n] == hash[n]
    ensures Heard(hash', es) == Heard(hash, es)
  {
    forall i | 0 <= i < |es| && es[i].exports.Some? ensures es[i].name in Survivors(known, es) {
    }
    HeardSame(hash, hash', es);
  }

  lemma HeardLast<T>(hash: map<string, T>, es: seq<Entry>, e: Entry)
    ensures Heard(hash, es + [e]) == Heard(hash, es) + ReadingsIn(hash, e)
  {
    assert (es + [e])[..|es|] == es;
  }

  lemma Assoc<T>(a: seq<Reading<T>>, b: seq<Reading<T>>, c: seq<Reading<T>>)
    ensures a + b + c == a + (b + c)
  {
  }

  lemma HeardAppendLast<T>(hash: map<string, T>, done: seq<Entry>, es: seq<Entry>, e: Entry)
    requires Heard(hash, done + es) == Heard(hash, done) + Heard(hash, es)
    ensures Heard(hash, done + (es + [e])) == Heard(hash, done) + Heard(hash, es + [e])
  {
    hide *;
    HeardLast(hash, done + es, e);
    HeardLast(hash, es, e);
    Assoc(Heard(hash, done), Heard(hash, es), ReadingsIn(hash, e));
    assert done + es + [e] == done + (es + [e]);
  }

  lemma {:induction false} HeardAppend<T>(hash: map<string, T>, done: seq<Entry>, es: seq<Entry>)
    ensures Heard(hash, done + es) == Heard(hash, done) + Heard(hash, es)
  {
    if es == [] {
      assert done + es == done;
    } else {
      hide *;
      var n := |es| - 1;
      HeardAppend(hash, done, es[..n]);
      HeardAppendLast(hash, done, es[..n], es[n]);
      assert es[..n] + [es[n]] == es;
    }
  }

  lemma NothingHeard<T>(hash: map<string, T>, es: seq<Entry>)
    ensures Heard(hash, []) == [] && Heard(hash, es[..0]) == []
  {
  }

  lemma HeardOneMore<T>(hash: map<string, T>, es: seq<Entry>, i: nat)
    requires i < |es|
    ensures Heard(hash, es[..i + 1]) == Heard(hash, es[..i]) + ReadingsIn(hash, es[i])
  {
    assert es[..i + 1][..i] == es[..i];
  }

  lemma NoNames()
    ensures Names([]) == {}
  {
  }
}
