/** Whole runs of the collector (clock_cb as the event loop of src/servd.c calls it): what a new collector prints and
    sends over any sequence of cycles, as a function of what /proc shows in them. */
module CollectorRuns {
  import opened Basics
  import opened Ewma
  import opened Readings
  import opened Places
  import opened Collectors

  /** One call of clock_cb: when, what /proc shows, and how printing, the PUT and the status request go. */
  datatype Cycle = Cycle(now: real, world: World, fate: Fate, put: bool, reply: Option<(real, real)>)

  /** Cycles have times of their own. */
  ghost predicate Apart(cs: seq<Cycle>) {
    && (forall i :: 0 <= i < |cs| ==> 0.0 < cs[i].now)
    && forall i, j :: 0 <= i < j < |cs| ==> cs[i].now != cs[j].now
  }

  // ---------- the reference ----------

  /** A target's lifetime: its name, and the number of the cycle that saw it first. */
  type Life = (string, nat)

  /** The lifetimes that go on, by name, and all readings so far. */
  datatype Book = Book(lives: map<string, Life>, log: seq<Reading<Life>>)

  /** Cycle number k: targets not read and not new end, and the others are heard. */
  ghost function Turned(b: Book, k: nat, w: World): Book {
    var lives := map n | n in Survivors(b.lives.Keys, Entries(w)) :: if n in b.lives then b.lives[n] else (n, k);
    Book(lives, b.log + Heard(lives, Entries(w)))
  }

  /** What a sequence of cycles shows. */
  ghost function BookOf(cs: seq<Cycle>): Book {
    if cs == [] then Book(map[], []) else Turned(BookOf(cs[..|cs| - 1]), |cs| - 1, cs[|cs| - 1].world)
  }

  /** What the readings of the last cycle add for a client. */
  ghost function Growth(cs: seq<Cycle>, nid: string, j: nat): int
    requires cs != [] && j < NR_STATS
  {
    Grown(BookOf(cs).log, nid, j) - Grown(BookOf(cs[..|cs| - 1]).log, nid, j)
  }

  predicate Prints(c: Cycle) {
    c.fate == Printed
  }

  predicate Sends(c: Cycle) {
    c.fate == Printed && c.put
  }

  /** What the cycles that go well add for a client. */
  ghost function Reported(cs: seq<Cycle>, well: Cycle -> bool, nid: string, j: nat): int
    requires j < NR_STATS
  {
    if cs == [] then 0
    else Reported(cs[..|cs| - 1], well, nid, j) + if well(cs[|cs| - 1]) then Growth(cs, nid, j) else 0
  }

  /** What the cycles that do not go well would have added. */
  ghost function Missed(cs: seq<Cycle>, well: Cycle -> bool, nid: string, j: nat): int
    requires j < NR_STATS
  {
    if cs == [] then 0
    else Missed(cs[..|cs| - 1], well, nid, j) + if well(cs[|cs| - 1]) then 0 else Growth(cs, nid, j)
  }

  /** Everything is reported or missed, and together that is last counter minus first counter over all lifetimes `ls`.
      So what is reported is right if and only if what is missed adds up to zero. */
  lemma {:induction false} ReportedIsGain(cs: seq<Cycle>, well: Cycle -> bool, ls: seq<Life>, nid: string, j: nat)
    requires j < NR_STATS && NoDups(ls)
    requires forall i :: 0 <= i < |BookOf(cs).log| ==> BookOf(cs).log[i].l in ls
    ensures Reported(cs, well, nid, j) + Missed(cs, well, nid, j) == Gains(BookOf(cs).log, ls, nid, j)
    ensures Reported(cs, well, nid, j) == Gains(BookOf(cs).log, ls, nid, j) <==> Missed(cs, well, nid, j) == 0
    ensures (forall i :: 0 <= i < |cs| ==> well(cs[i])) ==> Missed(cs, well, nid, j) == 0
  {
    Telescopes(BookOf(cs).log, ls, nid, j);
    AllAccounted(cs, well, nid, j);
  }

  lemma {:induction false} AllAccounted(cs: seq<Cycle>, well: Cycle -> bool, nid: string, j: nat)
    requires j < NR_STATS
    ensures Reported(cs, well, nid, j) + Missed(cs, well, nid, j) == Grown(BookOf(cs).log, nid, j)
    ensures (forall i :: 0 <= i < |cs| ==> well(cs[i])) ==> Missed(cs, well, nid, j) == 0
  {
    if cs != [] {
      AllAccounted(cs[..|cs| - 1], well, nid, j);
    }
  }

  // ---------- renaming targets ----------

  ghost predicate Injective<S, T>(f: map<S, T>) {
    forall a, b :: a in f && b in f && f[a] == f[b] ==> a == b
  }

  ghost predicate Named<S, T>(log: seq<Reading<S>>, f: map<S, T>) {
    forall i :: 0 <= i < |log| ==> log[i].l in f
  }

  ghost function Renamed<S, T>(log: seq<Reading<S>>, f: map<S, T>): seq<Reading<T>>
    requires Named(log, f)
  {
    seq(|log|, i requires 0 <= i < |log| => Reading(f[log[i].l], log[i].nid, log[i].stats))
  }

  lemma RenamedLast<S, T>(log: seq<Reading<S>>, f: map<S, T>)
    requires Named(log, f) && log != []
    ensures var n, r := |log| - 1, Renamed(log, f);
      Named(log[..n], f) && |r| == |log| && r[..n] == Renamed(log[..n], f)
      && r[n] == Reading(f[log[n].l], log[n].nid, log[n].stats)
  {
  }

  lemma {:induction false} LastRenamed<S, T>(log: seq<Reading<S>>, f: map<S, T>, l: S, nid: string)
    requires Named(log, f) && Injective(f) && l in f
    ensures Last(Renamed(log, f), f[l], nid) == Last(log, l, nid)
  {
    if log != [] {
      RenamedLast(log, f);
      LastRenamed(log[..|log| - 1], f, l, nid);
    }
  }

  /** What readings add up to does not depend on what targets are called. */
  lemma {:induction false} GrownRenamed<S, T>(log: seq<Reading<S>>, f: map<S, T>, nid: string, j: nat)
    requires Named(log, f) && Injective(f) && j < NR_STATS
    ensures Grown(Renamed(log, f), nid, j) == Grown(log, nid, j)
  {
    if log != [] {
      var n := |log| - 1;
      RenamedLast(log, f);
      GrownRenamed(log[..n], f, nid, j);
      LastRenamed(log[..n], f, log[n].l, nid);
      hide Renamed, Last;
    }
  }

  lemma RenamedAppend<S, T>(a: seq<Reading<S>>, b: seq<Reading<S>>, f: map<S, T>)
    requires Named(a, f) && Named(b, f)
    ensures Named(a + b, f) && Renamed(a + b, f) == Renamed(a, f) + Renamed(b, f)
  {
  }

  lemma RenamedSame<S, T>(log: seq<Reading<S>>, f: map<S, T>, g: map<S, T>)
    requires Named(log, f) && forall l :: l in f ==> l in g && g[l] == f[l]
    ensures Named(log, g) && Renamed(log, g) == Renamed(log, f)
  {
  }

  lemma {:induction false} ReadingsRenamed<S, T>(l: S, cs: seq<Client>, f: map<S, T>)
    requires l in f
    ensures Named(ReadingsOf(l, cs), f) && Renamed(ReadingsOf(l, cs), f) == ReadingsOf(f[l], cs)
  {
    if cs != [] {
      var n := |cs| - 1;
      ReadingsRenamed(l, cs[..n], f);
      if cs[n].reading.Some? {
        RenamedAppend(ReadingsOf(l, cs[..n]), [Reading(l, cs[n].nid, cs[n].reading.value)], f);
      }
    }
  }

  lemma {:induction false} HeardRenamed<S, T>(hash: map<string, S>, es: seq<Entry>, f: map<S, T>, lives: map<string, T>)
    requires hash.Keys == lives.Keys && forall n :: n in hash ==> hash[n] in f && f[hash[n]] == lives[n]
    ensures Named(Heard(hash, es), f) && Renamed(Heard(hash, es), f) == Heard(lives, es)
  {
    if es != [] {
      var n := |es| - 1;
      HeardRenamed(hash, es[..n], f, lives);
      if es[n].exports.Some? && es[n].name in hash {
        ReadingsRenamed(hash[es[n].name], es[n].exports.value, f);
        RenamedAppend(Heard(hash, es[..n]), ReadingsIn(hash, es[n]), f);
      }
    }
  }

  // ---------- the collector's targets and their lifetimes ----------

  /** The targets are lifetimes under other names. */
  ghost predicate Lived(hash: map<string, Lxt>, ids: map<Lxt, Life>, lives: map<string, Life>, k: nat) {
    && Injective(ids) && (forall l :: l in ids ==> ids[l].1 < k)
    && hash.Keys == lives.Keys && forall n :: n in hash ==> hash[n] in ids && ids[hash[n]] == lives[n]
  }

  ghost predicate Told(log: seq<Reading<Lxt>>, ids: map<Lxt, Life>, told: seq<Reading<Life>>) {
    Named(log, ids) && Renamed(log, ids) == told
  }

  ghost predicate Coupled(hash: map<string, Lxt>, log: seq<Reading<Lxt>>, ids: map<Lxt, Life>, b: Book, k: nat) {
    Lived(hash, ids, b.lives, k) && Told(log, ids, b.log)
  }

  /** The lifetimes that begin in cycle number k. */
  ghost function Begun(hash: map<string, Lxt>, k: nat, hash': map<string, Lxt>): map<Lxt, Life> {
    map l | l in (set n | n in hash' && n !in hash :: hash'[n]) :: (l.name, k)
  }

  lemma BegunLives(hash: map<string, Lxt>, ids: map<Lxt, Life>, k: nat, hash': map<string, Lxt>)
    requires Injective(ids) && forall l :: l in ids ==> ids[l].1 < k
    requires forall n :: n in hash' && n !in hash ==> hash'[n] !in ids && hash'[n].name == n
    ensures var ids' := ids + Begun(hash, k, hash');
      && Injective(ids') && (forall l :: l in ids' ==> ids'[l].1 < k + 1)
      && (forall l :: l in ids ==> l in ids' && ids'[l] == ids[l])
      && (forall n :: n in hash' && n !in hash ==> hash'[n] in ids' && ids'[hash'[n]] == (n, k))
  {
    var ids' := ids + Begun(hash, k, hash');
    forall n | n in hash' && n !in hash ensures hash'[n] in Begun(hash, k, hash') {
    }
    forall a, b | a in ids' && b in ids' && ids'[a] == ids'[b] ensures a == b {
      if a !in ids && b !in ids {
        assert a == hash'[a.name] && b == hash'[b.name];
      }
    }
  }

  lemma TurnedLives(b: Book, k: nat, w: World)
    ensures var b' := Turned(b, k, w);
      && b'.lives.Keys == Survivors(b.lives.Keys, Entries(w)) && b'.log == b.log + Heard(b'.lives, Entries(w))
      && forall n :: n in b'.lives ==> b'.lives[n] == if n in b.lives then b.lives[n] else (n, k)
  {
  }

  lemma LivesOn(hash: map<string, Lxt>, ids: map<Lxt, Life>, b: Book, k: nat, w: World, hash': map<string, Lxt>,
                ids': map<Lxt, Life>)
    requires Lived(hash, ids, b.lives, k) && hash'.Keys == Survivors(hash.Keys, Entries(w))
    requires forall n :: n in hash' && n in hash ==> hash'[n] == hash[n]
    requires Injective(ids') && (forall l :: l in ids' ==> ids'[l].1 < k + 1)
    requires forall l :: l in ids ==> l in ids' && ids'[l] == ids[l]
    requires forall n :: n in hash' && n !in hash ==> hash'[n] in ids' && ids'[hash'[n]] == (n, k)
    ensures Lived(hash', ids', Turned(b, k, w).lives, k + 1)
  {
    TurnedLives(b, k, w);
    hide Survivors, Entries, Injective, Turned;
  }

  lemma TellsOn(hash: map<string, Lxt>, log: seq<Reading<Lxt>>, ids: map<Lxt, Life>, ids': map<Lxt, Life>, b: Book,
                lives: map<string, Life>, k: nat, es: seq<Entry>)
    requires Lived(hash, ids', lives, k) && Told(log, ids, b.log)
    requires forall l :: l in ids ==> l in ids' && ids'[l] == ids[l]
    ensures Told(log + Heard(hash, es), ids', b.log + Heard(lives, es))
  {
    RenamedSame(log, ids, ids');
    HeardRenamed(hash, es, ids', lives);
    RenamedAppend(log, Heard(hash, es), ids');
  }

  /** A cycle keeps it so: new targets get new lifetimes. */
  lemma CoupledOn(hash: map<string, Lxt>, log: seq<Reading<Lxt>>, ids: map<Lxt, Life>, b: Book, k: nat, w: World,
                  hash': map<string, Lxt>)
    requires Coupled(hash, log, ids, b, k) && hash'.Keys == Survivors(hash.Keys, Entries(w))
    requires forall n :: n in hash' && n in hash ==> hash'[n] == hash[n]
    requires forall n :: n in hash' && n !in hash ==> hash'[n] !in ids && hash'[n].name == n
    ensures Coupled(hash', log + Heard(hash', Entries(w)), ids + Begun(hash, k, hash'), Turned(b, k, w), k + 1)
  {
    var ids' := ids + Begun(hash, k, hash');
    BegunLives(hash, ids, k, hash');
    TurnedLives(b, k, w);
    hide Lived, Told, Heard, Begun, Survivors, Entries, Turned, Injective;
    LivesOn(hash, ids, b, k, w, hash', ids');
    TellsOn(hash', log, ids, ids', b, Turned(b, k, w).lives, k + 1, Entries(w));
  }

  // ---------- the run ----------

  ghost predicate Tally(lines: seq<Line>, cs: seq<Cycle>, well: Cycle -> bool) {
    forall nid, j: nat {:trigger LinesSum(lines, nid, j)} :: j < NR_STATS ==>
      LinesSum(lines, nid, j) == Reported(cs, well, nid, j)
  }

  /** The collector's books and the reference add up to the same. */
  lemma SameGrowth(hash: map<string, Lxt>, log: seq<Reading<Lxt>>, ids: map<Lxt, Life>, cs: seq<Cycle>, nid: string,
                   j: nat)
    requires Coupled(hash, log, ids, BookOf(cs), |cs|) && j < NR_STATS
    ensures Grown(log, nid, j) == Grown(BookOf(cs).log, nid, j)
  {
    GrownRenamed(log, ids, nid, j);
  }

  lemma ReportedOn(cs: seq<Cycle>, x: Cycle, well: Cycle -> bool, nid: string, j: nat)
    requires j < NR_STATS
    ensures Reported(cs + [x], well, nid, j) == Reported(cs, well, nid, j)
      + if well(x) then Grown(BookOf(cs + [x]).log, nid, j) - Grown(BookOf(cs).log, nid, j) else 0
  {
    hide BookOf, Grown;
    assert (cs + [x])[..|cs|] == cs;
  }

  lemma BookOn(cs: seq<Cycle>, x: Cycle)
    ensures BookOf(cs + [x]) == Turned(BookOf(cs), |cs|, x.world)
  {
    hide Turned;
    assert (cs + [x])[..|cs|] == cs;
  }

  /** What one cycle prints or sends is what its readings add. */
  ghost predicate Adds(more: seq<Line>, cs: seq<Cycle>, x: Cycle) {
    forall nid, j: nat {:trigger LinesSum(more, nid, j)} :: j < NR_STATS ==>
      LinesSum(more, nid, j) == Grown(BookOf(cs + [x]).log, nid, j) - Grown(BookOf(cs).log, nid, j)
  }

  lemma TallyOn(lines: seq<Line>, more: seq<Line>, cs: seq<Cycle>, x: Cycle, well: Cycle -> bool)
    requires Tally(lines, cs, well) && (well(x) ==> Adds(more, cs, x))
    ensures Tally(if well(x) then lines + more else lines, cs + [x], well)
  {
    var lines' := if well(x) then lines + more else lines;
    forall nid, j: nat | j < NR_STATS ensures LinesSum(lines', nid, j) == Reported(cs + [x], well, nid, j) {
      ReportedOn(cs, x, well, nid, j);
      LinesSumAppend(lines, more, nid, j);
      assert LinesSum(lines, nid, j) == Reported(cs, well, nid, j);
    }
  }

  lemma CycleAdds(hash: map<string, Lxt>, log: seq<Reading<Lxt>>, ids: map<Lxt, Life>, cs: seq<Cycle>, x: Cycle,
                  hash': map<string, Lxt>, log': seq<Reading<Lxt>>, ids': map<Lxt, Life>,
                  printed: seq<Line>, more: seq<Line>)
    requires Coupled(hash, log, ids, BookOf(cs), |cs|) && Coupled(hash', log', ids', BookOf(cs + [x]), |cs| + 1)
    requires Settles(printed, printed + more, log, log')
    ensures Adds(more, cs, x)
  {
    forall nid, j: nat | j < NR_STATS
      ensures LinesSum(more, nid, j) == Grown(BookOf(cs + [x]).log, nid, j) - Grown(BookOf(cs).log, nid, j)
    {
      SameGrowth(hash, log, ids, cs, nid, j);
      SameGrowth(hash', log', ids', cs + [x], nid, j);
      LinesSumAppend(printed, more, nid, j);
      assert LinesSum(printed + more, nid, j) - LinesSum(printed, nid, j) == Grown(log', nid, j) - Grown(log, nid, j);
    }
  }

  ghost function Times(cs: seq<Cycle>): set<real> {
    set i | 0 <= i < |cs| :: cs[i].now
  }

  ghost predicate All(cs: seq<Cycle>, well: Cycle -> bool) {
    forall i :: 0 <= i < |cs| ==> well(cs[i])
  }

  /** The collector after the cycles `cs`. */
  ghost predicate Ran(c: Collector, cs: seq<Cycle>, ids: map<Lxt, Life>)
    reads c, c.g.recs.Keys`recs
  {
    && c.Valid() && !c.g.open && c.tmp == [] && c.g.times == Times(cs) && Shipped(c.g.printed, c.sent, c.unsent)
    && Coupled(c.hash, c.g.log, ids, BookOf(cs), |cs|)
    && Tally(c.g.printed, cs, Prints) && Tally(c.sent, cs, Sends)
    && (All(cs, Prints) ==> c.g.lost == [])
  }

  lemma RanIs(c: Collector, cs: seq<Cycle>, ids: map<Lxt, Life>)
    ensures Ran(c, cs, ids) <==>
      && c.Valid() && !c.g.open && c.tmp == [] && c.g.times == Times(cs) && Shipped(c.g.printed, c.sent, c.unsent)
      && Coupled(c.hash, c.g.log, ids, BookOf(cs), |cs|)
      && Tally(c.g.printed, cs, Prints) && Tally(c.sent, cs, Sends) && (All(cs, Prints) ==> c.g.lost == [])
  {
  }

  lemma OneMore(cs: seq<Cycle>, x: Cycle)
    requires Apart(cs + [x])
    ensures 0.0 < x.now && x.now !in Times(cs) && Times(cs + [x]) == Times(cs) + {x.now}
    ensures All(cs + [x], Prints) <==> All(cs, Prints) && Prints(x)
    ensures Prints(x) == (x.fate == Printed) && Sends(x) == (x.fate == Printed && x.put)
  {
    var all := cs + [x];
    assert all[|cs|] == x && forall i :: 0 <= i < |cs| ==> all[i] == cs[i];
  }

  /** One cycle more. */
  method Turn(c: Collector, x: Cycle, ghost cs: seq<Cycle>, ghost ids: map<Lxt, Life>)
    returns (ghost ids': map<Lxt, Life>)
    requires Ran(c, cs, ids) && Apart(cs + [x])
    modifies c, c.g.recs.Keys`recs
    ensures Ran(c, cs + [x], ids') && forall l :: l in c.g.recs ==> l in old(c.g.recs) || fresh(l)
  {
    hide *;
    RanIs(c, cs, ids);
    OneMore(cs, x);
    c.TargetsNamed();
    ghost var hash, g, sent := c.hash, c.g, c.sent;
    var ok, lines, again := c.Clock(x.world, x.now, x.fate, x.put, x.reply);
    c.TargetsNamed();
    ids' := ids + Begun(hash, |cs|, c.hash);
    CoupledOn(hash, g.log, ids, BookOf(cs), |cs|, x.world, c.hash);
    BookOn(cs, x);
    if Prints(x) {
      CycleAdds(hash, g.log, ids, cs, x, c.hash, c.g.log, ids', g.printed, lines);
    }
    TallyOn(g.printed, lines, cs, x, Prints);
    TallyOn(sent, lines, cs, x, Sends);
    Plus(g.printed);
    Plus(sent);
    RanIs(c, cs + [x], ids');
  }

  lemma Plus(lines: seq<Line>)
    ensures lines + [] == lines
  {
  }

  lemma Begins(c: Collector, ids: map<Lxt, Life>, cs: seq<Cycle>)
    requires c.Valid() && c.g == Past(map[], {}, [], [], [], 0.0, false, {}) && c.hash == map[] && c.tmp == []
    requires c.sent == [] && Shipped(c.g.printed, c.sent, c.unsent) && ids == map[]
    ensures Ran(c, cs[..0], ids)
  {
    assert cs[..0] == [];
    hide Collector.Valid, Shipped;
  }

  lemma ApartUpTo(cs: seq<Cycle>, i: nat)
    requires Apart(cs) && i < |cs|
    ensures cs[..i] + [cs[i]] == cs[..i + 1] && Apart(cs[..i] + [cs[i]])
  {
    assert cs[..i] + [cs[i]] == cs[..i + 1];
  }

  /** A new collector, and one cycle after the other. */
  method Run(cs: seq<Cycle>, interval: real, offset: real) returns (c: Collector, ghost ids: map<Lxt, Life>)
    requires Apart(cs)
    ensures Ran(c, cs, ids) && fresh(c) && fresh(c.g.recs.Keys)
  {
    c := new Collector(interval, offset);
    ids := map[];
    Begins(c, ids, cs);
    hide *;
    for i := 0 to |cs|
      invariant Ran(c, cs[..i], ids) && fresh(c) && fresh(c.g.recs.Keys)
    {
      ApartUpTo(cs, i);
      ids := Turn(c, cs[i], cs[..i], ids);
    }
    assert cs[..|cs|] == cs;
  }

  /** Telescoping over whole runs: what a client's printed lines add up to, and those sent, is last counter minus first
      counter over all lifetimes of targets, but for the cycles that failed. */
  lemma RunTelescopes(c: Collector, cs: seq<Cycle>, ids: map<Lxt, Life>, ls: seq<Life>, nid: string, j: nat)
    requires Ran(c, cs, ids) && j < NR_STATS && NoDups(ls)
    requires forall i :: 0 <= i < |BookOf(cs).log| ==> BookOf(cs).log[i].l in ls
    ensures var gains := Gains(BookOf(cs).log, ls, nid, j);
      && LinesSum(c.g.printed, nid, j) + Missed(cs, Prints, nid, j) == gains
      && LinesSum(c.sent, nid, j) + Missed(cs, Sends, nid, j) == gains
      && (All(cs, Prints) ==> LinesSum(c.g.printed, nid, j) == gains)
      && (All(cs, Sends) ==> LinesSum(c.sent, nid, j) == gains)
  {
    RanIs(c, cs, ids);
    hide Ran, BookOf;
    ReportedIsGain(cs, Prints, ls, nid, j);
    ReportedIsGain(cs, Sends, ls, nid, j);
    assert LinesSum(c.g.printed, nid, j) == Reported(cs, Prints, nid, j);
    assert LinesSum(c.sent, nid, j) == Reported(cs, Sends, nid, j);
  }

  /** The same in terms of the collector's own log and targets, if every print succeeds. */
  lemma RunPrints(c: Collector, cs: seq<Cycle>, ids: map<Lxt, Life>, ls: seq<Lxt>, nid: string, j: nat)
    requires Ran(c, cs, ids) && All(cs, Prints) && j < NR_STATS && NoDups(ls)
    requires forall i :: 0 <= i < |c.g.log| ==> c.g.log[i].l in ls
    ensures LinesSum(c.g.printed, nid, j) == Gains(c.g.log, ls, nid, j)
  {
    RanIs(c, cs, ids);
    hide Ran, Good, Coupled, Tally;
    TelescopingDeltas(c.hash, c.list, c.tmp, c.nids, c.status, c.g, ls, nid, j);
  }

  /** One target "t" below obdfilter, with one client "a". */
  function Shows(stats: Counters): World {
    [None, None, Some([Entry("t", Some([Client("a", Some(stats))]))])]
  }

  lemma ShowsOne(lives: map<string, Life>, stats: Counters, known: set<string>)
    requires "t" in lives
    ensures Heard(lives, Entries(Shows(stats))) == [Reading(lives["t"], "a", stats)]
    ensures Survivors(known, Entries(Shows(stats))) == {"t"}
  {
    var e := Entry("t", Some([Client("a", Some(stats))]));
    assert EntriesUpTo(Shows(stats), 0) == EntriesUpTo(Shows(stats), 1) == EntriesUpTo(Shows(stats), 2) == [];
    assert Entries(Shows(stats)) == [] + [e] == [e];
    assert [e][..0] == [] && e.exports.value[..0] == [];
    assert ReadingsOf(lives["t"], e.exports.value) == [] + [Reading(lives["t"], "a", stats)];
  }

  /** The first reading adds nothing, and the second the difference. */
  lemma GrownTwice(l: Life, a: Counters, b: Counters, j: nat)
    requires j < NR_STATS
    ensures Grown<Life>([], "a", j) == 0 && Grown([Reading(l, "a", a)], "a", j) == 0
    ensures Grown([Reading(l, "a", a), Reading(l, "a", b)], "a", j) == b[j] - a[j]
  {
    var r1, r2 := Reading(l, "a", a), Reading(l, "a", b);
    assert [r1, r2][..1] == [r1] && [r1][..0] == [];
  }

  lemma TurnShows(b: Book, k: nat, stats: Counters, t: Life)
    requires t == if "t" in b.lives then b.lives["t"] else ("t", k)
    ensures Turned(b, k, Shows(stats)) == Book(map["t" := t], b.log + [Reading(t, "a", stats)])
  {
    var b' := Turned(b, k, Shows(stats));
    hide *;
    ShowsOne(map["t" := t], stats, b.lives.Keys);
    TurnedLives(b, k, Shows(stats));
    OneName(b'.lives, t);
  }

  lemma OneName(lives: map<string, Life>, t: Life)
    requires lives.Keys == {"t"} && lives["t"] == t
    ensures lives == map["t" := t]
  {
  }

  lemma OneAndTwo<T>(x: T, y: T)
    ensures [] + [x] == [x] && [x] + [y] == [x, y]
  {
  }

  lemma BooksOfTwo(c1: Cycle, c2: Cycle, a: Counters, b: Counters)
    requires c1.world == Shows(a) && c2.world == Shows(b)
    ensures BookOf([]).log == [] && BookOf([c1]).log == [Reading(("t", 0), "a", a)]
    ensures BookOf([c1, c2]).log == [Reading(("t", 0), "a", a), Reading(("t", 0), "a", b)]
  {
    var t: Life := ("t", 0);
    var none := Book(map[], []);
    assert BookOf([]) == none;
    hide *;
    OneAndTwo(c1, c2);
    OneAndTwo(Reading(t, "a", a), Reading(t, "a", b));
    BookOn([], c1);
    TurnShows(none, 0, a, t);
    BookOn([c1], c2);
    TurnShows(Book(map["t" := t], [Reading(t, "a", a)]), 1, b, t);
  }

  lemma GrowthOfTwo(c1: Cycle, c2: Cycle, a: Counters, b: Counters, j: nat)
    requires c1.world == Shows(a) && c2.world == Shows(b) && j < NR_STATS
    ensures Grown(BookOf([]).log, "a", j) == 0 && Grown(BookOf([c1]).log, "a", j) == 0
    ensures Grown(BookOf([c1, c2]).log, "a", j) == b[j] - a[j]
    ensures Gains(BookOf([c1, c2]).log, [("t", 0)], "a", j) == b[j] - a[j]
  {
    BooksOfTwo(c1, c2, a, b);
    hide BookOf, Grown, Gains;
    GrownTwice(("t", 0), a, b, j);
    Telescopes(BookOf([c1, c2]).log, [("t", 0)], "a", j);
  }

  /** A run in which deltas are lost: of two cycles that show a counter, the second fails to print. */
  lemma LossExample(c1: Cycle, c2: Cycle, a: Counters, b: Counters, j: nat)
    requires c1.world == Shows(a) && c2.world == Shows(b) && Prints(c1) && !Prints(c2) && j < NR_STATS
    ensures Reported([c1, c2], Prints, "a", j) == 0 && Missed([c1, c2], Prints, "a", j) == b[j] - a[j]
    ensures Gains(BookOf([c1, c2]).log, [("t", 0)], "a", j) == b[j] - a[j]
  {
    assert Reported([], Prints, "a", j) == 0;
    hide *;
    GrowthOfTwo(c1, c2, a, b, j);
    ReportedOn([], c1, Prints, "a", j);
    ReportedOn([c1], c2, Prints, "a", j);
    assert [] + [c1] == [c1] && [c1] + [c2] == [c1, c2];
    AllAccounted([c1, c2], Prints, "a", j);
  }

  /** The reference, cycle by cycle, in terms of what the directories show: which lifetimes go on, and what is read. */
  lemma TurnedMeans(b: Book, k: nat, w: World)
    ensures var b' := Turned(b, k, w);
      && Keeps(w, b.lives.Keys, b'.lives.Keys)
      && (forall n :: n in b'.lives ==> b'.lives[n] == if n in b.lives then b.lives[n] else (n, k))
      && b.log <= b'.log && AllRead(w, b'.lives, b'.log[|b.log|..])
  {
    TurnedLives(b, k, w);
    var b' := Turned(b, k, w);
    hide Turned, Entries, Survivors, Heard, AllRead, Keeps;
    CycleMeans(w, b.lives.Keys, b'.lives);
    Behind(b.log, Heard(b'.lives, Entries(w)));
  }

  /** One target in each of the three directories, with one client "x". */
  function ShowsThree(a: Counters, b: Counters, d: Counters): World {
    [Some([Entry("mds", Some([Client("x", Some(a))]))]), Some([Entry("mdt", Some([Client("x", Some(b))]))]),
     Some([Entry("ost", Some([Client("x", Some(d))]))])]
  }

  const THREE: map<string, Life> := map["mds" := ("mds", 0), "mdt" := ("mdt", 0), "ost" := ("ost", 0)]

  function ThreeRead(a: Counters, b: Counters, d: Counters): seq<Reading<Life>> {
    [Reading(("mds", 0), "x", a), Reading(("mdt", 0), "x", b), Reading(("ost", 0), "x", d)]
  }

  lemma OneClient(l: Life, stats: Counters)
    ensures ReadingsOf(l, [Client("x", Some(stats))]) == [Reading(l, "x", stats)]
  {
    var cs := [Client("x", Some(stats))];
    assert cs[..0] == [];
    assert ReadingsOf(l, cs) == [] + [Reading(l, "x", stats)];
  }

  lemma ThreeEntries(a: Counters, b: Counters, d: Counters)
    ensures var w := ShowsThree(a, b, d); Entries(w) == [w[0].value[0], w[1].value[0], w[2].value[0]]
  {
    var w := ShowsThree(a, b, d);
    assert EntriesUpTo(w, 0) == [];
    assert EntriesUpTo(w, 1) == [] + w[0].value == [w[0].value[0]];
    assert EntriesUpTo(w, 2) == EntriesUpTo(w, 1) + w[1].value == [w[0].value[0], w[1].value[0]];
  }

  lemma ThreeHeard(lives: map<string, Life>, a: Counters, b: Counters, d: Counters)
    requires lives == THREE
    ensures Heard(lives, Entries(ShowsThree(a, b, d))) == ThreeRead(a, b, d)
  {
    var w := ShowsThree(a, b, d);
    var e1, e2, e3 := w[0].value[0], w[1].value[0], w[2].value[0];
    ThreeEntries(a, b, d);
    OneClient(lives["mds"], a);
    OneClient(lives["mdt"], b);
    OneClient(lives["ost"], d);
    hide Entries, EntriesUpTo, ReadingsOf;
    HeardLast(lives, [], e1);
    HeardLast(lives, [e1], e2);
    HeardLast(lives, [e1, e2], e3);
    assert [] + [e1] == [e1] && [e1] + [e2] == [e1, e2] && [e1, e2] + [e3] == [e1, e2, e3];
  }

  lemma ThreeKept(known: set<string>, a: Counters, b: Counters, d: Counters)
    ensures Survivors(known, Entries(ShowsThree(a, b, d))) == {"mds", "mdt", "ost"}
  {
    var es := Entries(ShowsThree(a, b, d));
    ThreeEntries(a, b, d);
    hide Entries, EntriesUpTo;
    assert es[0].name == "mds" && es[1].name == "mdt" && es[2].name == "ost";
    assert |es| == 3;
  }

  lemma TurnThree(bk: Book, k: nat, a: Counters, b: Counters, d: Counters)
    requires bk.lives == THREE || (k == 0 && bk.lives == map[])
    ensures Turned(bk, k, ShowsThree(a, b, d)) == Book(THREE, bk.log + ThreeRead(a, b, d))
  {
    var b' := Turned(bk, k, ShowsThree(a, b, d));
    TurnedLives(bk, k, ShowsThree(a, b, d));
    ThreeKept(bk.lives.Keys, a, b, d);
    hide Turned, Entries, Survivors, Heard, ShowsThree;
    assert b'.lives == THREE;
    ThreeHeard(b'.lives, a, b, d);
  }

  lemma ThreeBooks(c1: Cycle, c2: Cycle, a: seq<Counters>, b: seq<Counters>)
    requires |a| == |b| == 3 && c1.world == ShowsThree(a[0], a[1], a[2]) && c2.world == ShowsThree(b[0], b[1], b[2])
    ensures BookOf([]).log == [] && BookOf([c1]).log == ThreeRead(a[0], a[1], a[2])
    ensures BookOf([c1, c2]).log == ThreeRead(a[0], a[1], a[2]) + ThreeRead(b[0], b[1], b[2])
  {
    var none, one := Book(map[], []), Book(THREE, ThreeRead(a[0], a[1], a[2]));
    assert BookOf([]) == none;
    hide *;
    OneAndTwo(c1, c2);
    BookOn([], c1);
    TurnThree(none, 0, a[0], a[1], a[2]);
    assert none.log + ThreeRead(a[0], a[1], a[2]) == ThreeRead(a[0], a[1], a[2]);
    BookOn([c1], c2);
    TurnThree(one, 1, b[0], b[1], b[2]);
  }

  /** In a log without repetitions the first and the last reading of a target are the only one. */
  lemma ThreeEnds(a: Counters, b: Counters, d: Counters)
    ensures var log := ThreeRead(a, b, d);
      && First(log, ("mds", 0), "x") == Last(log, ("mds", 0), "x") == Some(a)
      && First(log, ("mdt", 0), "x") == Last(log, ("mdt", 0), "x") == Some(b)
      && First(log, ("ost", 0), "x") == Last(log, ("ost", 0), "x") == Some(d)
  {
    var log := ThreeRead(a, b, d);
    assert "mds"[2] != "mdt"[2] && "mds"[0] != "ost"[0];
    EndsOfThree(log[0], log[1], log[2], "x");
  }

  lemma EndsOfThree<T>(r1: Reading<T>, r2: Reading<T>, r3: Reading<T>, nid: string)
    requires r1.l != r2.l && r1.l != r3.l && r2.l != r3.l && r1.nid == r2.nid == r3.nid == nid
    ensures var log := [r1, r2, r3];
      && First(log, r1.l, nid) == Last(log, r1.l, nid) == Some(r1.stats)
      && First(log, r2.l, nid) == Last(log, r2.l, nid) == Some(r2.stats)
      && First(log, r3.l, nid) == Last(log, r3.l, nid) == Some(r3.stats)
  {
    var log := [r1, r2, r3];
    assert log[..2] == [r1, r2] && [r1, r2][..1] == [r1];
    assert log[1..] == [r2, r3] && [r2, r3][1..] == [r3];
    assert Last([r1, r2], r1.l, nid) == Last([r1], r1.l, nid) == Some(r1.stats);
    assert Last([r1, r2], r2.l, nid) == Some(r2.stats);
    assert First([r2, r3], r3.l, nid) == First([r3], r3.l, nid) == Some(r3.stats);
    assert First([r2, r3], r2.l, nid) == Some(r2.stats);
  }

  lemma GainsOfThree<T>(log: seq<Reading<T>>, l1: T, l2: T, l3: T, nid: string, j: nat)
    requires j < NR_STATS
    ensures Gains(log, [l1, l2, l3], nid, j) == Gain(log, l1, nid, j) + Gain(log, l2, nid, j) + Gain(log, l3, nid, j)
  {
    var ls := [l1, l2, l3];
    assert ls[1..] == [l2, l3] && [l2, l3][1..] == [l3] && [l3][1..] == [];
    assert Gains(log, [l3], nid, j) == Gain(log, l3, nid, j) + Gains(log, [], nid, j);
    hide Gain;
  }

  lemma {:induction false} EndsAppend<T>(log: seq<Reading<T>>, more: seq<Reading<T>>, l: T, nid: string)
    requires First(log, l, nid).Some? && Last(more, l, nid).Some?
    ensures First(log + more, l, nid) == First(log, l, nid) && Last(log + more, l, nid) == Last(more, l, nid)
  {
    if more != [] {
      var n := |more| - 1;
      assert (log + more)[..|log| + n] == log + more[..n];
      if !About(more[n], l, nid) {
        EndsAppend(log, more[..n], l, nid);
      }
    }
    FirstAppend(log, more, l, nid);
  }

  lemma {:induction false} FirstAppend<T>(log: seq<Reading<T>>, more: seq<Reading<T>>, l: T, nid: string)
    requires First(log, l, nid).Some?
    ensures First(log + more, l, nid) == First(log, l, nid)
  {
    if !About(log[0], l, nid) {
      assert (log + more)[1..] == log[1..] + more;
      FirstAppend(log[1..], more, l, nid);
    }
  }

  lemma ThreeGains(a: seq<Counters>, b: seq<Counters>, j: nat)
    requires |a| == |b| == 3 && j < NR_STATS
    ensures var one := ThreeRead(a[0], a[1], a[2]);
      && Grown(one, "x", j) == 0
      && Grown(one + ThreeRead(b[0], b[1], b[2]), "x", j) ==
         (b[0][j] - a[0][j]) + (b[1][j] - a[1][j]) + (b[2][j] - a[2][j])
  {
    var one, two := ThreeRead(a[0], a[1], a[2]), ThreeRead(b[0], b[1], b[2]);
    var ls: seq<Life> := [("mds", 0), ("mdt", 0), ("ost", 0)];
    assert "mds"[2] != "mdt"[2] && "mds"[0] != "ost"[0];
    ThreeEnds(a[0], a[1], a[2]);
    ThreeEnds(b[0], b[1], b[2]);
    assert NoDups(ls) && forall i :: 0 <= i < 3 ==> one[i].l == two[i].l == ls[i];
    forall i | 0 <= i < 3 ensures First(one + two, ls[i], "x") == First(one, ls[i], "x") {
      EndsAppend(one, two, ls[i], "x");
    }
    forall i | 0 <= i < 3 ensures Last(one + two, ls[i], "x") == Last(two, ls[i], "x") {
      EndsAppend(one, two, ls[i], "x");
    }
    hide First, Last, ThreeRead, Grown, Gains;
    GainsOfThree(one, ls[0], ls[1], ls[2], "x", j);
    GainsOfThree(one + two, ls[0], ls[1], ls[2], "x", j);
    Telescopes(one, ls, "x", j);
    Telescopes(one + two, ls, "x", j);
  }

  /** A run in which each of the three directories contributes: two cycles that print, and a client of one target in
      each. */
  lemma ThreeExample(c1: Cycle, c2: Cycle, a: seq<Counters>, b: seq<Counters>, j: nat)
    requires |a| == |b| == 3 && c1.world == ShowsThree(a[0], a[1], a[2]) && c2.world == ShowsThree(b[0], b[1], b[2])
    requires Prints(c1) && Prints(c2) && j < NR_STATS
    ensures Reported([c1, c2], Prints, "x", j) ==
      (b[0][j] - a[0][j]) + (b[1][j] - a[1][j]) + (b[2][j] - a[2][j])
  {
    assert Grown<Life>([], "x", j) == 0 && Reported([], Prints, "x", j) == 0;
    hide *;
    ThreeBooks(c1, c2, a, b);
    ThreeGains(a, b, j);
    ReportedOn([], c1, Prints, "x", j);
    ReportedOn([c1], c2, Prints, "x", j);
    OneAndTwo(c1, c2);
  }
}
