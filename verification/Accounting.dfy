/** What the lazily maintained counters mean: a run of reports and reads on one pair leaves exactly the state that
    an eager accountant would reach, who adds every report to the bucket of its tick and folds the buckets in order. */
module Accounting {
  import opened Ewma

  datatype Event = Report(at: real, d: Stats) | Read(at: real)

  function Apply(p: Params, f: Flow, e: Event): Flow {
    match e
    case Report(at, d) => Update(p, f, at, d)
    case Read(at) => Freshen(p, f, at)
  }

  /** The state of a new pair (k_init zeroes it) after `es`. */
  function Replay(p: Params, es: seq<Event>): Flow {
    if es == [] then EMPTY else Apply(p, Replay(p, es[..|es| - 1]), es[|es| - 1])
  }

  ghost predicate Timely(es: seq<Event>) {
    && (es != [] ==> 0.0 < es[0].at)
    && forall a, b :: 0 <= a < b < |es| ==> es[a].at <= es[b].at
  }

  ghost predicate AllNonNegative(es: seq<Event>) {
    forall a :: 0 <= a < |es| && es[a].Report? ==> NonNegative(es[a].d)
  }

  // ---------- the eager accountant ----------

  /** The amount of statistic `i` reported in the `j`-th tick after `t0`. */
  ghost function Bucket(p: Params, t0: real, es: seq<Event>, i: nat, j: int): real
    requires i < NR_STATS
  {
    if es == [] then 0.0
    else
      var e := es[|es| - 1];
      Bucket(p, t0, es[..|es| - 1], i, j)
      + if e.Report? && Ticks(p, t0, e.at) == j then e.d[i] else 0.0
  }

  /** The amounts of the first `m` ticks. */
  ghost function Buckets(p: Params, t0: real, es: seq<Event>, i: nat, m: nat): seq<real>
    requires i < NR_STATS
  {
    seq(m, j requires 0 <= j < m => Bucket(p, t0, es, i, j))
  }

  ghost function Fold(step: (real, real) -> real, bs: seq<real>): real {
    if bs == [] then 0.0 else step(Fold(step, bs[..|bs| - 1]), bs[|bs| - 1])
  }

  ghost function FlushTick(p: Params): (real, real) -> real {
    (rate, amount) => Flush(p, rate, amount / p.tick)
  }

  /** The average after folding in one amount per tick. */
  ghost function Average(p: Params, bs: seq<real>): real {
    Fold(FlushTick(p), bs)
  }

  ghost function Total(es: seq<Event>, i: nat): real
    requires i < NR_STATS
  {
    if es == [] then 0.0
    else
      var e := es[|es| - 1];
      Total(es[..|es| - 1], i) + if e.Report? then e.d[i] else 0.0
  }

  /** The accountant's books at time `now`. */
  ghost function Eager(p: Params, es: seq<Event>, now: real): Flow
    requires es != [] && Ticks(p, es[0].at, now) >= 0
  {
    var t0 := es[0].at;
    var m := Ticks(p, t0, now);
    Flow(t0 + m as real * p.tick,
         seq(NR_STATS, i requires 0 <= i < NR_STATS => Bucket(p, t0, es, i, m)),
         seq(NR_STATS, i requires 0 <= i < NR_STATS => Average(p, Buckets(p, t0, es, i, m))),
         seq(NR_STATS, i requires 0 <= i < NR_STATS => Total(es, i)))
  }

  // ---------- buckets ----------

  lemma {:induction false} BucketFuture(p: Params, t0: real, es: seq<Event>, i: nat, j: int)
    requires i < NR_STATS
    requires forall a :: 0 <= a < |es| ==> Ticks(p, t0, es[a].at) < j
    ensures Bucket(p, t0, es, i, j) == 0.0
  {
    if es != [] {
      BucketFuture(p, t0, es[..|es| - 1], i, j);
    }
  }

  lemma {:induction false} BucketNonNegative(p: Params, t0: real, es: seq<Event>, i: nat, j: int)
    requires i < NR_STATS && AllNonNegative(es)
    ensures 0.0 <= Bucket(p, t0, es, i, j)
  {
    if es != [] {
      BucketNonNegative(p, t0, es[..|es| - 1], i, j);
    }
  }

  lemma TimesPositive(x: real, y: real)
    requires 0.0 <= x && 0.0 < y
    ensures 0.0 <= x * y && (0.0 < x ==> 0.0 < x * y)
  {
  }

  lemma MixBounds(a: real, b: real, w: real, top: real)
    requires 0.0 <= a <= top && 0.0 <= b <= top && 0.0 < w < 1.0
    ensures 0.0 <= a * (1.0 - w) + b * w <= top
    ensures 0.0 < b ==> 0.0 < a * (1.0 - w) + b * w
  {
    var v := 1.0 - w;
    TimesPositive(a, v);
    TimesPositive(b, w);
    TimesPositive(top - a, v);
    TimesPositive(top - b, w);
    assert (top - a) * v == top * v - a * v;
    assert (top - b) * w == top * w - b * w;
    assert top * v + top * w == top;
  }

  lemma FlushBounds(p: Params, rate: real, r: real, top: real)
    requires 0.0 <= rate <= top && 0.0 <= r <= top
    ensures 0.0 <= Flush(p, rate, r) <= top
    ensures 0.0 < r ==> 0.0 < Flush(p, rate, r)
  {
    var w := 1.0 - p.q;
    if rate > 0.0 {
      assert (rate - r) * (p.q - 1.0) == r * w - rate * w;
      assert rate * (1.0 - w) == rate - rate * w;
      MixBounds(rate, r, w, top);
    }
  }

  lemma DivideByTick(p: Params, a: real, b: real)
    requires 0.0 <= a <= b
    ensures 0.0 <= a / p.tick <= b / p.tick
  {
    var x, y := a / p.tick, b / p.tick;
    assert x * p.tick == a && y * p.tick == b;
    assert (y - x) * p.tick == b - a;
  }

  lemma {:induction false} FoldBounds(step: (real, real) -> real, bs: seq<real>, cap: real, top: real)
    requires 0.0 <= top && forall j :: 0 <= j < |bs| ==> 0.0 <= bs[j] <= cap
    requires forall x, b :: 0.0 <= x <= top && 0.0 <= b <= cap ==> 0.0 <= step(x, b) <= top
    ensures 0.0 <= Fold(step, bs) <= top
  {
    if bs != [] {
      FoldBounds(step, bs[..|bs| - 1], cap, top);
    }
  }

  lemma TimesTick(p: Params, x: real)
    ensures x * p.tick / p.tick == x
  {
    var y := x * p.tick / p.tick;
    assert y * p.tick == x * p.tick;
    assert (y - x) * p.tick == 0.0;
  }

  /** The average lies between zero and the largest per-tick rate `top` flushed into it. */
  lemma AverageBounds(p: Params, bs: seq<real>, top: real)
    requires 0.0 <= top && forall j :: 0 <= j < |bs| ==> 0.0 <= bs[j] <= top * p.tick
    ensures 0.0 <= Average(p, bs) <= top
  {
    forall x, b | 0.0 <= x <= top && 0.0 <= b <= top * p.tick ensures 0.0 <= FlushTick(p)(x, b) <= top {
      DivideByTick(p, b, top * p.tick);
      TimesTick(p, top);
      FlushBounds(p, x, b / p.tick, top);
    }
    FoldBounds(FlushTick(p), bs, top * p.tick, top);
  }

  ghost function Zeros(n: nat): seq<real> {
    seq(n, _ => 0.0)
  }

  ghost function Decayed(x: real, q: real, n: nat): real {
    if n == 0 then x else Decayed(x, q, n - 1) * q
  }

  lemma {:induction false} DecayedIsPower(x: real, q: real, n: nat)
    ensures Decayed(x, q, n) == x * Pow(q, n)
  {
    if n != 0 {
      var y := Pow(q, n - 1);
      DecayedIsPower(x, q, n - 1);
      assert x * y * q == x * (q * y);
    }
  }

  lemma {:induction false} FoldDecays(step: (real, real) -> real, q: real, bs: seq<real>, n: nat)
    requires 0.0 < q && 0.0 <= Fold(step, bs)
    requires forall x :: 0.0 <= x ==> step(x, 0.0) == x * q
    ensures Fold(step, bs + Zeros(n)) == Decayed(Fold(step, bs), q, n) >= 0.0
  {
    if n == 0 {
      assert bs + Zeros(0) == bs;
    } else {
      var cs := bs + Zeros(n);
      assert cs[..|cs| - 1] == bs + Zeros(n - 1);
      FoldDecays(step, q, bs, n - 1);
    }
  }

  lemma FlushTickNothing(p: Params)
    ensures forall x :: 0.0 <= x ==> FlushTick(p)(x, 0.0) == x * p.q
  {
    forall x | 0.0 <= x ensures FlushTick(p)(x, 0.0) == x * p.q {
      assert 0.0 / p.tick == 0.0;
      FlushNothing(p, x);
    }
  }

  lemma AverageFolds(p: Params, bs: seq<real>)
    ensures Average(p, bs) == Fold(FlushTick(p), bs)
  {
  }

  /** Empty ticks multiply a non-negative average by q each. */
  lemma AverageDecays(p: Params, bs: seq<real>, n: nat)
    requires 0.0 <= Average(p, bs)
    ensures Average(p, bs + Zeros(n)) == Average(p, bs) * Pow(p.q, n)
  {
    hide *;
    AverageFolds(p, bs);
    AverageFolds(p, bs + Zeros(n));
    FlushTickNothing(p);
    FoldDecays(FlushTick(p), p.q, bs, n);
    DecayedIsPower(Average(p, bs), p.q, n);
  }

  /** The lazy catch-up over `n` ticks, the first of which collected `b`, gives the eager average. */
  lemma FreshRateIsAverage(p: Params, bs: seq<real>, b: real, n: nat)
    requires n > 0 && 0.0 <= Average(p, bs + [b])
    ensures FreshRate(p, n, b, Average(p, bs)) == Average(p, bs + [b] + Zeros(n - 1))
  {
    var cs := bs + [b];
    assert cs[..|bs|] == bs;
    assert Average(p, cs) == FlushTick(p)(Average(p, bs), b);
    AverageDecays(p, cs, n - 1);
    assert Pow(p.q, 0) == 1.0;
  }

  lemma {:induction false} FoldNonNegative(step: (real, real) -> real, bs: seq<real>)
    requires forall j :: 0 <= j < |bs| ==> 0.0 <= bs[j]
    requires forall x, b :: 0.0 <= x && 0.0 <= b ==> 0.0 <= step(x, b)
    ensures 0.0 <= Fold(step, bs)
  {
    if bs != [] {
      FoldNonNegative(step, bs[..|bs| - 1]);
    }
  }

  lemma AverageNonNegative(p: Params, bs: seq<real>)
    requires forall j :: 0 <= j < |bs| ==> 0.0 <= bs[j]
    ensures 0.0 <= Average(p, bs)
  {
    forall x, b | 0.0 <= x && 0.0 <= b ensures 0.0 <= FlushTick(p)(x, b) {
      DivideByTick(p, b, b);
      FlushBounds(p, x, b / p.tick, if x < b / p.tick then b / p.tick else x);
    }
    FoldNonNegative(FlushTick(p), bs);
  }

  // ---------- the main theorem ----------

  lemma TickOfStart(p: Params, es: seq<Event>, now: real)
    requires es != [] && es[0].at <= now
    ensures Ticks(p, es[0].at, es[0].at) == 0 <= Ticks(p, es[0].at, now)
  {
    TicksMonotone(p, es[0].at, es[0].at, now);
    assert (es[0].at - es[0].at) / p.tick == 0.0;
  }

  lemma BucketsAhead(p: Params, t0: real, es: seq<Event>, i: nat, now: real)
    requires i < NR_STATS && Timely(es) && es != [] && es[|es| - 1].at <= now
    ensures forall j :: Ticks(p, t0, now) < j ==> Bucket(p, t0, es, i, j) == 0.0
  {
    forall j | Ticks(p, t0, now) < j ensures Bucket(p, t0, es, i, j) == 0.0 {
      forall a | 0 <= a < |es| ensures Ticks(p, t0, es[a].at) < j {
        TicksMonotone(p, t0, es[a].at, now);
      }
      BucketFuture(p, t0, es, i, j);
    }
  }

  lemma EagerAdvancesAt(p: Params, es: seq<Event>, now: real, m: nat, m': nat, i: nat)
    requires es != [] && Timely(es) && AllNonNegative(es) && i < NR_STATS
    requires es[|es| - 1].at <= now && m == Ticks(p, es[0].at, now) <= m'
    ensures FreshRate(p, m' - m, Bucket(p, es[0].at, es, i, m), Average(p, Buckets(p, es[0].at, es, i, m)))
         == Average(p, Buckets(p, es[0].at, es, i, m'))
    ensures m < m' ==> Bucket(p, es[0].at, es, i, m') == 0.0
  {
    if m < m' {
      var bs, b := Buckets(p, es[0].at, es, i, m), Bucket(p, es[0].at, es, i, m);
      forall j | 0 <= j <= m ensures 0.0 <= Bucket(p, es[0].at, es, i, j) {
        BucketNonNegative(p, es[0].at, es, i, j);
      }
      BucketsAhead(p, es[0].at, es, i, now);
      AverageNonNegative(p, bs + [b]);
      FreshRateIsAverage(p, bs, b, m' - m);
      assert Buckets(p, es[0].at, es, i, m') == bs + [b] + Zeros(m' - m - 1);
    }
  }

  lemma EagerClock(p: Params, t0: real, m: nat, later: real, t: real)
    requires t == t0 + m as real * p.tick
    ensures t >= t0 && Ticks(p, t, later) == Ticks(p, t0, later) - m
  {
    TicksShift(p, t0, m, later);
    assert m as real * p.tick >= 0.0;
  }

  lemma TickTimesAdd(p: Params, t0: real, m: int, m': int)
    ensures t0 + m as real * p.tick + (m' - m) as real * p.tick == t0 + m' as real * p.tick
  {
    assert m as real * p.tick + (m' - m) as real * p.tick == m' as real * p.tick;
  }

  /** Eager books are carried forward by a freshen. */
  lemma EagerAdvances(p: Params, es: seq<Event>, now: real, later: real)
    requires es != [] && Timely(es) && AllNonNegative(es)
    requires es[|es| - 1].at <= now <= later
    ensures Ticks(p, es[0].at, now) >= 0 && Ticks(p, es[0].at, later) >= 0
    ensures Freshen(p, Eager(p, es, now), later) == Eager(p, es, later)
  {
    var t0 := es[0].at;
    TickOfStart(p, es, now);
    TickOfStart(p, es, later);
    var m, m' := Ticks(p, t0, now), Ticks(p, t0, later);
    TicksMonotone(p, t0, now, later);
    var f, g := Eager(p, es, now), Eager(p, es, later);
    EagerClock(p, t0, m, later, f.t);
    TickTimesAdd(p, t0, m, m');
    forall i: nat | i < NR_STATS
      ensures g.rate[i] == FreshRate(p, m' - m, f.pending[i], f.rate[i])
      ensures g.pending[i] == if m' - m > 0 then 0.0 else f.pending[i]
    {
      EagerAdvancesAt(p, es, now, m, m', i);
    }
    FreshenTo(p, f, later, m' - m, g);
  }

  /** An event at its own time only enters the current bucket and the totals. */
  lemma EagerRecords(p: Params, es: seq<Event>, e: Event)
    requires es != [] && Ticks(p, es[0].at, e.at) >= 0
    ensures Eager(p, es + [e], e.at) ==
      if e.Report? then Eager(p, es, e.at).(sum := Plus(Eager(p, es, e.at).sum, e.d),
                                            pending := Plus(Eager(p, es, e.at).pending, e.d))
      else Eager(p, es, e.at)
  {
    var t0, es' := es[0].at, es + [e];
    var m := Ticks(p, t0, e.at);
    assert es'[..|es|] == es && es'[0] == es[0];
    forall i | 0 <= i < NR_STATS
      ensures Buckets(p, t0, es', i, m) == Buckets(p, t0, es, i, m)
    {
      assert forall j :: 0 <= j < m ==> Bucket(p, t0, es', i, j) == Bucket(p, t0, es, i, j);
    }
    var f, g := Eager(p, es', e.at), Eager(p, es, e.at);
    FlowEquality(f, if e.Report? then g.(sum := Plus(g.sum, e.d), pending := Plus(g.pending, e.d)) else g);
  }

  lemma ReplayOne(p: Params, e: Event)
    requires 0.0 < e.at
    ensures Ticks(p, e.at, e.at) == 0
    ensures Replay(p, [e]) == Eager(p, [e], e.at)
  {
    assert (e.at - e.at) / p.tick == 0.0;
    var es := [e];
    assert es[..0] == [];
    assert Replay(p, es) == Apply(p, EMPTY, e);
    assert StartedAt(EMPTY.t, e.at) == e.at;
    forall i | 0 <= i < NR_STATS
      ensures Bucket(p, e.at, es, i, 0) == Total(es, i) == if e.Report? then e.d[i] else 0.0
    {
      assert Bucket(p, e.at, es[..0], i, 0) == 0.0 == Total(es[..0], i);
    }
    FlowEquality(Replay(p, es), Eager(p, es, e.at));
  }

  lemma PrefixWellFormed(es: seq<Event>)
    requires es != [] && Timely(es) && AllNonNegative(es)
    ensures Timely(es[..|es| - 1]) && AllNonNegative(es[..|es| - 1])
  {
    var before := es[..|es| - 1];
    assert forall a :: 0 <= a < |before| ==> before[a] == es[a];
  }

  lemma ReplayExtends(p: Params, es: seq<Event>, e: Event)
    requires es != [] && Timely(es) && AllNonNegative(es) && es[|es| - 1].at <= e.at
    requires Ticks(p, es[0].at, es[|es| - 1].at) >= 0
    requires Replay(p, es) == Eager(p, es, es[|es| - 1].at)
    ensures Ticks(p, es[0].at, e.at) >= 0
    ensures Replay(p, es + [e]) == Eager(p, es + [e], e.at)
  {
    EagerAdvances(p, es, es[|es| - 1].at, e.at);
    EagerRecords(p, es, e);
    assert (es + [e])[..|es|] == es;
  }

  lemma {:induction false} ReplayIsEager(p: Params, es: seq<Event>)
    requires es != [] && Timely(es) && AllNonNegative(es)
    ensures Ticks(p, es[0].at, es[|es| - 1].at) >= 0
    ensures Replay(p, es) == Eager(p, es, es[|es| - 1].at)
  {
    var n := |es| - 1;
    var before, e := es[..n], es[n];
    if n == 0 {
      assert es == [e];
      ReplayOne(p, e);
    } else {
      PrefixWellFormed(es);
      ReplayIsEager(p, before);
      ReplayExtends(p, before, e);
      assert before + [e] == es;
    }
  }

  /** The lazy state of a pair, freshened at any later time, is exactly the eager accountant's books: timestamp on the
      last tick boundary, pending = this tick's reports, rate = the fold of all earlier ticks, sum = everything. */
  lemma LazyIsEager(p: Params, es: seq<Event>, now: real)
    requires es != [] && Timely(es) && AllNonNegative(es)
    requires es[|es| - 1].at <= now
    ensures Ticks(p, es[0].at, now) >= 0
    ensures Freshen(p, Replay(p, es), now) == Eager(p, es, now)
  {
    ReplayIsEager(p, es);
    EagerAdvances(p, es, es[|es| - 1].at, now);
  }

  /** Over any run of a pair, the rate it shows lies between zero and the largest per-tick rate `top` reported. */
  lemma RateBounds(p: Params, es: seq<Event>, now: real, i: nat, top: real)
    requires es != [] && Timely(es) && AllNonNegative(es) && es[|es| - 1].at <= now && i < NR_STATS && 0.0 <= top
    requires forall j :: 0 <= j < Ticks(p, es[0].at, now) ==> Bucket(p, es[0].at, es, i, j) <= top * p.tick
    ensures 0.0 <= Freshen(p, Replay(p, es), now).rate[i] <= top
  {
    LazyIsEager(p, es, now);
    var bs := Buckets(p, es[0].at, es, i, Ticks(p, es[0].at, now));
    forall j | 0 <= j < |bs| ensures 0.0 <= bs[j] <= top * p.tick {
      BucketNonNegative(p, es[0].at, es, i, j);
    }
    AverageBounds(p, bs, top);
  }

  // ---------- reads are invisible ----------

  function Reports(es: seq<Event>): seq<Event> {
    if es == [] then []
    else
      var rs, e := Reports(es[..|es| - 1]), es[|es| - 1];
      if e.Report? then rs + [e] else rs
  }

  lemma {:induction false} ReportsKeep(es: seq<Event>)
    ensures forall e :: e in Reports(es) <==> e in es && e.Report?
  {
    if es != [] {
      var n := |es| - 1;
      assert es == es[..n] + [es[n]];
      ReportsKeep(es[..n]);
    }
  }

  lemma {:induction false} ReportsOrdered(es: seq<Event>)
    requires Timely(es)
    ensures forall a, b :: 0 <= a < b < |Reports(es)| ==> Reports(es)[a].at <= Reports(es)[b].at
  {
    if es != [] {
      var n := |es| - 1;
      ReportsOrdered(es[..n]);
      ReportsKeep(es[..n]);
      forall a | 0 <= a < |Reports(es[..n])| ensures Reports(es[..n])[a].at <= es[n].at {
        assert Reports(es[..n])[a] in es[..n];
      }
    }
  }

  lemma {:induction false} ReportsStart(es: seq<Event>)
    requires es != [] && es[0].Report?
    ensures Reports(es) != [] && Reports(es)[0] == es[0]
  {
    var n := |es| - 1;
    if n == 0 {
      assert Reports(es[..0]) == [];
    } else {
      ReportsStart(es[..n]);
    }
  }

  lemma {:induction false} ReportsFill(p: Params, t0: real, es: seq<Event>, i: nat)
    requires i < NR_STATS
    ensures forall j :: Bucket(p, t0, Reports(es), i, j) == Bucket(p, t0, es, i, j)
    ensures Total(Reports(es), i) == Total(es, i)
  {
    if es != [] {
      var n := |es| - 1;
      var rs := Reports(es[..n]);
      ReportsFill(p, t0, es[..n], i);
      if es[n].Report? {
        assert (rs + [es[n]])[..|rs|] == rs;
        assert Reports(es) == rs + [es[n]];
      }
    }
  }

  lemma SameBooks(p: Params, es: seq<Event>, es': seq<Event>, now: real)
    requires es != [] && es' != [] && es[0].at == es'[0].at && Ticks(p, es[0].at, now) >= 0
    requires forall i: nat, j :: i < NR_STATS ==> Bucket(p, es[0].at, es, i, j) == Bucket(p, es[0].at, es', i, j)
    requires forall i: nat :: i < NR_STATS ==> Total(es, i) == Total(es', i)
    ensures Eager(p, es, now) == Eager(p, es', now)
  {
    var t0, m := es[0].at, Ticks(p, es[0].at, now);
    forall i: nat | i < NR_STATS ensures Buckets(p, t0, es, i, m) == Buckets(p, t0, es', i, m) {
    }
    FlowEquality(Eager(p, es, now), Eager(p, es', now));
  }

  lemma ReportsWellFormed(es: seq<Event>)
    requires es != [] && es[0].Report? && Timely(es) && AllNonNegative(es)
    ensures var rs := Reports(es);
      rs != [] && rs[0] == es[0] && Timely(rs) && AllNonNegative(rs) && rs[|rs| - 1].at <= es[|es| - 1].at
  {
    var rs := Reports(es);
    ReportsKeep(es);
    ReportsOrdered(es);
    ReportsStart(es);
    assert rs[|rs| - 1] in es;
    forall a | 0 <= a < |rs| ensures NonNegative(rs[a].d) { assert rs[a] in es; }
  }

  /** Erasing every read from a run changes no total and, after a final freshen, nothing at all. */
  lemma ReadsInvisible(p: Params, es: seq<Event>, now: real)
    requires es != [] && es[0].Report? && Timely(es) && AllNonNegative(es)
    requires es[|es| - 1].at <= now
    ensures Freshen(p, Replay(p, Reports(es)), now) == Freshen(p, Replay(p, es), now)
  {
    var rs := Reports(es);
    ReportsWellFormed(es);
    LazyIsEager(p, es, now);
    LazyIsEager(p, rs, now);
    forall i: nat, j | i < NR_STATS
      ensures Bucket(p, es[0].at, es, i, j) == Bucket(p, es[0].at, rs, i, j)
    {
      ReportsFill(p, es[0].at, es, i);
    }
    forall i: nat | i < NR_STATS ensures Total(es, i) == Total(rs, i) {
      ReportsFill(p, es[0].at, es, i);
    }
    SameBooks(p, es, rs, now);
  }
}
