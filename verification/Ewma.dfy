/** The per-pair counters of xltop-master and their lazily decayed rate (src/x_node.c, k_freshen and k_update).

    A `Flow` is the numeric part of a struct k_node. Doubles are modelled as reals, and exp(-k_tick / k_window) as
    a constant q strictly between 0 and 1, so that expm1(..) is q - 1 and exp((n - 1) * ..) is q^(n - 1). */
module Ewma {

  const NR_STATS: nat := 3

  type Stats = v: seq<real> | |v| == NR_STATS witness [0.0, 0.0, 0.0]

  const ZERO: Stats := [0.0, 0.0, 0.0]

  datatype Decay = Decay(tick: real, q: real)

  // k_tick and k_window are both checked to be positive at start-up (src/master.c).
  type Params = p: Decay | p.tick > 0.0 && 0.0 < p.q < 1.0 witness Decay(10.0, 0.5)

  datatype Flow = Flow(t: real, pending: Stats, rate: Stats, sum: Stats)

  const EMPTY := Flow(0.0, ZERO, ZERO, ZERO)

  function Pow(q: real, n: nat): real {
    if n == 0 then 1.0 else q * Pow(q, n - 1)
  }

  /** Whole ticks from `t` to `now`; negative when `now` lies before `t`. */
  function Ticks(p: Params, t: real, now: real): int {
    ((now - t) / p.tick).Floor
  }

  /** Folds one tick's flushed rate `r` into the average. */
  function Flush(p: Params, rate: real, r: real): real {
    if rate <= 0.0 then r else rate + (rate - r) * (p.q - 1.0)
  }

  function FreshRate(p: Params, n: int, pending: real, rate: real): real {
    var flushed := if n > 0 then Flush(p, rate, pending / p.tick) else rate;
    if n > 1 then flushed * Pow(p.q, n - 1) else flushed
  }

  function StartedAt(t: real, now: real): real {
    if t <= 0.0 then now else t
  }

  function Freshen(p: Params, f: Flow, now: real): Flow {
    var t0 := StartedAt(f.t, now);
    var n := Ticks(p, t0, now);
    Flow(t0 + (if n > 0 then n else 0) as real * p.tick,
         if n > 0 then ZERO else f.pending,
         seq(NR_STATS, i requires 0 <= i < NR_STATS => FreshRate(p, n, f.pending[i], f.rate[i])),
         f.sum)
  }

  function Plus(a: Stats, b: Stats): Stats {
    seq(NR_STATS, i requires 0 <= i < NR_STATS => a[i] + b[i])
  }

  function Update(p: Params, f: Flow, now: real, d: Stats): Flow {
    var g := Freshen(p, f, now);
    g.(sum := Plus(g.sum, d), pending := Plus(g.pending, d))
  }

  /** One statistic caught up from (pending, rate) over n ticks: what was pending is one tick's rate, which replaces a
      rate that is not positive and is otherwise mixed in with weight 1 - q; each further tick multiplies by q. */
  ghost predicate CaughtUp(p: Params, n: int, pending: real, rate: real, pending': real, rate': real) {
    if n <= 0 then pending' == pending && rate' == rate
    else
      var r := pending / p.tick;
      pending' == 0.0 && rate' == (if rate <= 0.0 then r else p.q * rate + (1.0 - p.q) * r) * Pow(p.q, n - 1)
  }

  lemma FreshRateMeans(p: Params, n: int, pending: real, rate: real)
    ensures CaughtUp(p, n, pending, rate, if n > 0 then 0.0 else pending, FreshRate(p, n, pending, rate))
  {
    var r := pending / p.tick;
    assert rate + (rate - r) * (p.q - 1.0) == p.q * rate + (1.0 - p.q) * r;
    assert Pow(p.q, 0) == 1.0;
  }

  /** k_freshen in terms of the clock and the old numbers. */
  lemma FreshenMeans(p: Params, f: Flow, now: real)
    ensures var g, t0 := Freshen(p, f, now), if f.t <= 0.0 then now else f.t;
      var n := ((now - t0) / p.tick).Floor;
      && g.t == t0 + (if n > 0 then n else 0) as real * p.tick && g.sum == f.sum
      && forall i :: 0 <= i < NR_STATS ==> CaughtUp(p, n, f.pending[i], f.rate[i], g.pending[i], g.rate[i])
  {
    var n := Ticks(p, StartedAt(f.t, now), now);
    forall i | 0 <= i < NR_STATS
      ensures CaughtUp(p, n, f.pending[i], f.rate[i], Freshen(p, f, now).pending[i], Freshen(p, f, now).rate[i])
    {
      FreshRateMeans(p, n, f.pending[i], f.rate[i]);
    }
    hide CaughtUp, FreshRate;
  }

  ghost predicate NonNegative(v: Stats) {
    forall i :: 0 <= i < NR_STATS ==> 0.0 <= v[i]
  }

  // ---------- arithmetic ----------

  lemma TicksShift(p: Params, t: real, n: int, now: real)
    ensures Ticks(p, t + n as real * p.tick, now) == Ticks(p, t, now) - n
  {
    var y := (now - t) / p.tick;
    assert y * p.tick == now - t;
    assert now - (t + n as real * p.tick) == (y - n as real) * p.tick;
    assert (now - (t + n as real * p.tick)) / p.tick == y - n as real;
  }

  lemma TicksBounds(p: Params, t: real, now: real)
    ensures Ticks(p, t, now) as real * p.tick <= now - t < Ticks(p, t, now) as real * p.tick + p.tick
  {
    var y := (now - t) / p.tick;
    assert y * p.tick == now - t;
    var n := y.Floor as real;
    assert (y - n) * p.tick == now - t - n * p.tick;
    assert 0.0 <= y - n < 1.0;
    assert 0.0 <= (y - n) * p.tick;
    var r := 1.0 - (y - n);
    assert 0.0 < r * p.tick;
    assert r * p.tick == p.tick - (y - n) * p.tick;
  }

  lemma TicksMonotone(p: Params, t: real, t1: real, t2: real)
    requires t1 <= t2
    ensures Ticks(p, t, t1) <= Ticks(p, t, t2)
  {
    var y1, y2 := (t1 - t) / p.tick, (t2 - t) / p.tick;
    assert y1 * p.tick == t1 - t && y2 * p.tick == t2 - t;
    assert (y2 - y1) * p.tick == t2 - t1;
    assert y1 <= y2;
  }

  lemma {:induction false} PowAdd(q: real, m: nat, n: nat)
    ensures Pow(q, m + n) == Pow(q, m) * Pow(q, n)
  {
    if m != 0 {
      PowAdd(q, m - 1, n);
    }
  }

  lemma PowStep(q: real, n: nat)
    requires 1 <= n
    ensures Pow(q, n) == q * Pow(q, n - 1)
  {
  }

  lemma {:induction false} PowPositive(q: real, n: nat)
    requires 0.0 < q < 1.0
    ensures 0.0 < Pow(q, n) <= 1.0
  {
    if n != 0 {
      PowPositive(q, n - 1);
    }
  }

  /** After a tick without reports the average is multiplied by q, and a non-positive one is forgotten. */
  lemma FlushNothing(p: Params, rate: real)
    ensures Flush(p, rate, 0.0) == if rate <= 0.0 then 0.0 else rate * p.q
  {
  }

  // ---------- one freshen against several ----------

  /** No statistic of `f` flushes to a negative rate: what reports of non-negative amounts guarantee. */
  ghost predicate FlushesUp(p: Params, f: Flow) {
    forall i :: 0 <= i < NR_STATS ==> 0.0 <= Flush(p, f.rate[i], f.pending[i] / p.tick)
  }

  lemma TimesSign(x: real, y: real)
    requires 0.0 < y
    ensures 0.0 < x * y <==> 0.0 < x
    ensures x * y == 0.0 <==> x == 0.0
  {
  }

  /** Flushing nothing at r * a and decaying by b, against decaying r by a, q and b together. */
  lemma FlushedDecay(r: real, a: real, q: real, b: real)
    requires 0.0 < a && 0.0 < q && 0.0 < b
    ensures (if r * a <= 0.0 then 0.0 else r * a * q) * b == r * (a * (q * b)) <==> 0.0 <= r
  {
    TimesSign(r, a);
    TimesSign(a, q * b);
    TimesSign(q, b);
    TimesSign(r, a * (q * b));
    if 0.0 < r {
      assert r * a * q * b == r * (a * (q * b));
    }
  }

  lemma FreshRateIs(p: Params, n: int, pending: real, rate: real)
    requires 1 <= n
    ensures FreshRate(p, n, pending, rate) == Flush(p, rate, pending / p.tick) * Pow(p.q, n - 1)
  {
  }

  lemma FreshRateCompose(p: Params, n1: int, n2: int, pending: real, rate: real)
    requires 1 <= n1 < n2
    ensures FreshRate(p, n2 - n1, 0.0, FreshRate(p, n1, pending, rate)) == FreshRate(p, n2, pending, rate)
       <==> 0.0 <= Flush(p, rate, pending / p.tick)
  {
    hide *;
    var r, mid := Flush(p, rate, pending / p.tick), FreshRate(p, n1, pending, rate);
    var a, b := Pow(p.q, n1 - 1), Pow(p.q, n2 - n1 - 1);
    PowPositive(p.q, n1 - 1);
    PowPositive(p.q, n2 - n1 - 1);
    PowAdd(p.q, n1 - 1, n2 - n1);
    PowStep(p.q, n2 - n1);
    FreshRateIs(p, n1, pending, rate);
    FreshRateIs(p, n2, pending, rate);
    FreshRateIs(p, n2 - n1, 0.0, mid);
    FlushNothing(p, mid);
    FlushedDecay(r, a, p.q, b);
    assert 0.0 / p.tick == 0.0;
  }

  lemma FreshenParts(p: Params, f: Flow, now: real, i: nat)
    requires i < NR_STATS
    ensures var n := Ticks(p, StartedAt(f.t, now), now);
      && Freshen(p, f, now).rate[i] == FreshRate(p, n, f.pending[i], f.rate[i])
      && Freshen(p, f, now).pending[i] == if n > 0 then 0.0 else f.pending[i]
  {
  }

  lemma FreshenAt(p: Params, f: Flow, now: real, i: nat)
    requires f.t > 0.0 && i < NR_STATS
    ensures Freshen(p, f, now).rate[i] == FreshRate(p, Ticks(p, f.t, now), f.pending[i], f.rate[i])
    ensures Freshen(p, f, now).pending[i] == if Ticks(p, f.t, now) > 0 then 0.0 else f.pending[i]
    ensures Freshen(p, f, now).t == f.t + (if Ticks(p, f.t, now) > 0 then Ticks(p, f.t, now) else 0) as real * p.tick
  {
  }

  lemma FlowEquality(f: Flow, g: Flow)
    requires f.t == g.t
    requires forall i :: 0 <= i < NR_STATS ==>
      f.pending[i] == g.pending[i] && f.rate[i] == g.rate[i] && f.sum[i] == g.sum[i]
    ensures f == g
  {
    assert f.pending == g.pending && f.rate == g.rate && f.sum == g.sum;
  }

  lemma FreshenTo(p: Params, f: Flow, now: real, n: nat, g: Flow)
    requires f.t > 0.0 && n == Ticks(p, f.t, now) && g.t == f.t + n as real * p.tick && g.sum == f.sum
    requires forall i: nat :: i < NR_STATS ==>
      && g.rate[i] == FreshRate(p, n, f.pending[i], f.rate[i])
      && g.pending[i] == if n > 0 then 0.0 else f.pending[i]
    ensures Freshen(p, f, now) == g
  {
    forall i: nat | i < NR_STATS ensures Freshen(p, f, now).rate[i] == g.rate[i] {
      FreshenAt(p, f, now, i);
    }
    FlowEquality(Freshen(p, f, now), g);
  }

  lemma FreshenIdle(p: Params, f: Flow, now: real)
    requires f.t > 0.0 && Ticks(p, f.t, now) <= 0
    ensures Freshen(p, f, now) == f
  {
    FlowEquality(Freshen(p, f, now), f);
  }

  /** A read-side freshen at `t1` is invisible to any later freshen at `t2`, unless it separates a tick that
      flushed to a negative rate from a later one: exactly then the two runs differ. */
  lemma FreshenCompose(p: Params, f: Flow, t1: real, t2: real)
    requires f.t > 0.0 && t1 <= t2
    ensures Freshen(p, Freshen(p, f, t1), t2) == Freshen(p, f, t2)
       <==> Ticks(p, f.t, t1) <= 0 || Ticks(p, f.t, t1) == Ticks(p, f.t, t2) || FlushesUp(p, f)
  {
    var n1, n2 := Ticks(p, f.t, t1), Ticks(p, f.t, t2);
    TicksMonotone(p, f.t, t1, t2);
    var g := Freshen(p, f, t1);
    if n1 <= 0 {
      FreshenIdle(p, f, t1);
    } else {
      assert g.t == f.t + n1 as real * p.tick;
      TicksShift(p, f.t, n1, t2);
      assert g.t > 0.0 by { assert n1 as real * p.tick > 0.0; }
      if n1 == n2 {
        FreshenIdle(p, g, t2);
        FlowEquality(g, Freshen(p, f, t2));
      } else {
        var h, k := Freshen(p, g, t2), Freshen(p, f, t2);
        assert h.t == k.t by {
          assert n1 as real * p.tick + (n2 - n1) as real * p.tick == n2 as real * p.tick;
        }
        forall i | 0 <= i < NR_STATS
          ensures h.pending[i] == k.pending[i] && h.sum[i] == k.sum[i]
          ensures h.rate[i] == k.rate[i] <==> 0.0 <= Flush(p, f.rate[i], f.pending[i] / p.tick)
        {
          FreshRateCompose(p, n1, n2, f.pending[i], f.rate[i]);
          FreshenAt(p, f, t1, i);
          FreshenAt(p, f, t2, i);
          FreshenAt(p, g, t2, i);
        }
        if FlushesUp(p, f) {
          FlowEquality(h, k);
        }
      }
    }
  }

  /** A concrete case: a correction of -10 in the first tick, read after one tick or only after two. */
  lemma ReadShowsExample()
    ensures var p: Params, f := Decay(10.0, 0.5), Flow(10.0, [-10.0, 0.0, 0.0], ZERO, ZERO);
      && Freshen(p, Freshen(p, f, 20.0), 30.0).rate[0] == 0.0
      && Freshen(p, f, 30.0).rate[0] == -0.5
  {
    var p: Params, f := Decay(10.0, 0.5), Flow(10.0, [-10.0, 0.0, 0.0], ZERO, ZERO);
    var g := Freshen(p, f, 20.0);
    assert (20.0 - 10.0) / 10.0 == 1.0 && (30.0 - 10.0) / 10.0 == 2.0 && -10.0 / 10.0 == -1.0;
    assert Ticks(p, 10.0, 20.0) == 1 && Ticks(p, 10.0, 30.0) == 2;
    assert g.t == 20.0 && g.rate[0] == -1.0 && g.pending[0] == 0.0;
    assert (30.0 - 20.0) / 10.0 == 1.0 && Ticks(p, 20.0, 30.0) == 1;
    assert Pow(0.5, 1) == 0.5 * Pow(0.5, 0);
  }

  /** The reference for a late freshen: wake up at every tick boundary instead. */
  ghost function TickTimes(p: Params, f: Flow, n: nat): Flow
    decreases n
  {
    if n == 0 then f else TickTimes(p, Freshen(p, f, f.t + p.tick), n - 1)
  }

  lemma OneTick(p: Params, f: Flow)
    requires f.t > 0.0
    ensures Ticks(p, f.t, f.t + p.tick) == 1
    ensures Freshen(p, f, f.t + p.tick).t == f.t + p.tick
    ensures FlushesUp(p, Freshen(p, f, f.t + p.tick))
  {
    assert (f.t + p.tick - f.t) / p.tick == 1.0;
    var g := Freshen(p, f, f.t + p.tick);
    forall i | 0 <= i < NR_STATS ensures 0.0 <= Flush(p, g.rate[i], g.pending[i] / p.tick) {
      assert g.pending[i] == 0.0 && 0.0 / p.tick == 0.0;
      FlushNothing(p, g.rate[i]);
    }
  }

  /** Batched decay refines tick-by-tick decay: one freshen over `n` missed ticks ends where `n` single ticks end,
      if and only if it covers at most one tick or flushes no statistic to a negative rate. */
  lemma {:induction false} BatchedIsTickByTick(p: Params, f: Flow, now: real)
    requires f.t > 0.0 && Ticks(p, f.t, now) >= 0
    ensures Freshen(p, f, now) == TickTimes(p, f, Ticks(p, f.t, now))
       <==> Ticks(p, f.t, now) <= 1 || FlushesUp(p, f)
    decreases Ticks(p, f.t, now)
  {
    var n := Ticks(p, f.t, now);
    if n == 0 {
      FreshenIdle(p, f, now);
    } else {
      var t1 := f.t + p.tick;
      var g := Freshen(p, f, t1);
      OneTick(p, f);
      assert t1 <= now by {
        TicksBounds(p, f.t, now);
        assert n as real * p.tick >= p.tick by { assert (n - 1) as real * p.tick >= 0.0; }
      }
      assert Ticks(p, g.t, now) == n - 1 by {
        TicksShift(p, f.t, 1, now);
        assert f.t + 1 as real * p.tick == t1;
      }
      BatchedIsTickByTick(p, g, now);
      FreshenCompose(p, f, t1, now);
    }
  }

  /** The same case tick by tick: the negative rate is forgotten, where the batch decays it. */
  lemma BatchShowsExample()
    ensures var p: Params, f := Decay(10.0, 0.5), Flow(10.0, [-10.0, 0.0, 0.0], ZERO, ZERO);
      && Ticks(p, f.t, 30.0) == 2
      && TickTimes(p, f, 2).rate[0] == 0.0
      && Freshen(p, f, 30.0).rate[0] == -0.5
  {
    var p: Params, f := Decay(10.0, 0.5), Flow(10.0, [-10.0, 0.0, 0.0], ZERO, ZERO);
    var g := Freshen(p, f, 20.0);
    ReadShowsExample();
    OneTick(p, f);
    assert (30.0 - 10.0) / 10.0 == 2.0;
    assert TickTimes(p, f, 2) == TickTimes(p, g, 1) == TickTimes(p, Freshen(p, g, 30.0), 0);
  }

  /** After a freshen the node's timestamp is the last tick boundary not after `now`. */
  lemma FreshenCatchesUp(p: Params, f: Flow, now: real)
    requires 0.0 < now && f.t <= now
    ensures var g := Freshen(p, f, now);
      && 0.0 < g.t <= now < g.t + p.tick
      && Freshen(p, g, now) == g
  {
    var t0 := StartedAt(f.t, now);
    var n := Ticks(p, t0, now);
    var g := Freshen(p, f, now);
    TicksBounds(p, t0, now);
    TicksMonotone(p, t0, t0, now);
    assert (t0 - t0) / p.tick == 0.0;
    assert n >= 0 && n as real * p.tick >= 0.0;
    assert g.t == t0 + n as real * p.tick;
    TicksShift(p, t0, n, now);
    FreshenIdle(p, g, now);
  }
}
