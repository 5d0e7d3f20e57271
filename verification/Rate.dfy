/** What the rate of a pair is (src/x_node.c, k_freshen): an exponentially weighted average of the amounts per tick. */
module Rates {
  import opened Ewma
  import opened Accounting
  import opened XNodes
  import opened FlowTable
  import opened Reachable

  // ---------- the weights ----------

  ghost function Times(q: real, x: real): real {
    q * x
  }

  lemma TimesSum(q: real, a: real, b: real)
    ensures Times(q, a + b) == Times(q, a) + Times(q, b) && Times(q, 0.0) == 0.0
  {
  }

  /** An amount that counts q times less with every tick that has passed since. */
  ghost function Aged(q: real, ticks: nat, x: real): real {
    Pow(q, ticks) * x
  }

  lemma AgedLater(q: real, ticks: nat, x: real)
    ensures Aged(q, 0, x) == x && Aged(q, ticks + 1, x) == Times(q, Aged(q, ticks, x))
  {
    assert Pow(q, 0) == 1.0;
    PowStep(q, ticks + 1);
    assert q * Pow(q, ticks) * x == q * (Pow(q, ticks) * x);
  }

  /** What a tick's amount counts at first. */
  ghost function Share(q: real, tick: real, b: real): real
    requires tick > 0.0
  {
    (1.0 - q) * (b / tick)
  }

  /** The part of ticks k + 1 up to n in the average at the end of tick m. */
  ghost function Mixed(q: real, tick: real, bs: seq<real>, k: nat, n: nat, m: nat): real
    requires tick > 0.0 && n <= |bs| && n <= m
  {
    if n <= k + 1 then 0.0
    else Mixed(q, tick, bs, k, n - 1, m) + Aged(q, m - n, Share(q, tick, bs[n - 1]))
  }

  /** The average of the amounts `bs` of consecutive ticks: the first positive one, number k, has its full weight in the
      beginning. */
  ghost function Weighted(q: real, tick: real, bs: seq<real>, k: nat): real
    requires tick > 0.0 && k < |bs|
  {
    Aged(q, |bs| - 1 - k, bs[k] / tick) + Mixed(q, tick, bs, k, |bs|, |bs|)
  }

  /** Nothing before tick k, something in it, and nothing negative after. */
  ghost predicate StartsAt(bs: seq<real>, k: nat) {
    && k < |bs| && 0.0 < bs[k]
    && (forall j :: 0 <= j < k ==> bs[j] == 0.0) && forall j :: k < j < |bs| ==> 0.0 <= bs[j]
  }

  lemma {:induction false} MixedLater(q: real, tick: real, bs: seq<real>, k: nat, n: nat, m: nat)
    requires tick > 0.0 && n <= |bs| && n <= m
    ensures Mixed(q, tick, bs, k, n, m + 1) == Times(q, Mixed(q, tick, bs, k, n, m))
  {
    hide Aged, Times, Share;
    if n <= k + 1 {
      TimesSum(q, 0.0, 0.0);
    } else {
      var x := Share(q, tick, bs[n - 1]);
      MixedLater(q, tick, bs, k, n - 1, m);
      AgedLater(q, m - n, x);
      TimesSum(q, Mixed(q, tick, bs, k, n - 1, m), Aged(q, m - n, x));
    }
  }

  lemma {:induction false} MixedPrefix(q: real, tick: real, bs: seq<real>, b: real, k: nat, n: nat, m: nat)
    requires tick > 0.0 && n <= |bs| && n <= m
    ensures Mixed(q, tick, bs + [b], k, n, m) == Mixed(q, tick, bs, k, n, m)
  {
    hide Aged, Share;
    if n > k + 1 {
      MixedPrefix(q, tick, bs, b, k, n - 1, m);
      assert (bs + [b])[n - 1] == bs[n - 1];
    }
  }

  lemma WeightedOnce(q: real, tick: real, bs: seq<real>, b: real)
    requires tick > 0.0
    ensures Weighted(q, tick, bs + [b], |bs|) == b / tick
  {
    hide Aged;
    AgedLater(q, 0, b / tick);
  }

  lemma WeightedOn(q: real, tick: real, bs: seq<real>, b: real, k: nat)
    requires tick > 0.0 && k < |bs|
    ensures Weighted(q, tick, bs + [b], k) == Times(q, Weighted(q, tick, bs, k)) + Share(q, tick, b)
  {
    hide Aged, Times, Share;
    var n, all, x := |bs|, bs + [b], Share(q, tick, b);
    assert all[n] == b && all[k] == bs[k] && |all| == n + 1;
    assert Mixed(q, tick, all, k, n + 1, n + 1) == Mixed(q, tick, all, k, n, n + 1) + Aged(q, 0, x);
    hide Mixed;
    AgedLater(q, 0, x);
    MixedPrefix(q, tick, bs, b, k, n, n + 1);
    MixedLater(q, tick, bs, k, n, n);
    AgedLater(q, n - 1 - k, bs[k] / tick);
    TimesSum(q, Aged(q, n - 1 - k, bs[k] / tick), Mixed(q, tick, bs, k, n, n));
  }

  // ---------- the average is weighted so ----------

  lemma OneMoreTick(p: Params, bs: seq<real>, b: real)
    ensures var a := Average(p, bs);
      Average(p, bs + [b]) == if a <= 0.0 then b / p.tick else Times(p.q, a) + Share(p.q, p.tick, b)
  {
    assert (bs + [b])[..|bs|] == bs;
    var a, r := Average(p, bs), b / p.tick;
    assert (a - r) * (p.q - 1.0) == p.q * a - a + (1.0 - p.q) * r;
  }

  lemma {:induction false} NothingYet(p: Params, bs: seq<real>)
    requires forall j :: 0 <= j < |bs| ==> bs[j] == 0.0
    ensures Average(p, bs) == 0.0
  {
    if bs != [] {
      var n := |bs| - 1;
      NothingYet(p, bs[..n]);
      assert bs[..n] + [bs[n]] == bs;
      OneMoreTick(p, bs[..n], bs[n]);
    }
  }

  lemma PerTick(p: Params, b: real)
    ensures (0.0 < b <==> 0.0 < b / p.tick) && (0.0 <= b ==> 0.0 <= b / p.tick)
  {
    var x := b / p.tick;
    assert x * p.tick == b;
  }

  lemma StaysPositive(p: Params, a: real, b: real)
    requires 0.0 < a && 0.0 <= b
    ensures 0.0 < Times(p.q, a) + Share(p.q, p.tick, b)
  {
    PerTick(p, b);
    TimesPositive(a, p.q);
    TimesPositive(b / p.tick, 1.0 - p.q);
  }

  lemma StartsEarlier(bs: seq<real>, k: nat)
    requires StartsAt(bs, k)
    ensures var n := |bs| - 1;
      && 0 <= k <= n && 0.0 <= bs[n] && (k < n ==> StartsAt(bs[..n], k))
      && (k == n ==> 0.0 < bs[n] && forall j :: 0 <= j < n ==> bs[..n][j] == 0.0)
  {
  }

  lemma AverageBegins(p: Params, bs: seq<real>, b: real)
    requires 0.0 < b && forall j :: 0 <= j < |bs| ==> bs[j] == 0.0
    ensures Average(p, bs + [b]) == Weighted(p.q, p.tick, bs + [b], |bs|) > 0.0
  {
    hide *;
    OneMoreTick(p, bs, b);
    PerTick(p, b);
    NothingYet(p, bs);
    WeightedOnce(p.q, p.tick, bs, b);
  }

  lemma AverageGoesOn(p: Params, bs: seq<real>, b: real, k: nat)
    requires k < |bs| && Average(p, bs) == Weighted(p.q, p.tick, bs, k) > 0.0 && 0.0 <= b
    ensures Average(p, bs + [b]) == Weighted(p.q, p.tick, bs + [b], k) > 0.0
  {
    hide *;
    OneMoreTick(p, bs, b);
    WeightedOn(p.q, p.tick, bs, b, k);
    StaysPositive(p, Average(p, bs), b);
  }

  /** The average that k_freshen folds tick by tick, in closed form. */
  lemma {:induction false} AverageIsWeighted(p: Params, bs: seq<real>, k: nat)
    requires StartsAt(bs, k)
    ensures Average(p, bs) == Weighted(p.q, p.tick, bs, k) > 0.0
  {
    var n := |bs| - 1;
    var pre, b := bs[..n], bs[n];
    assert pre + [b] == bs;
    StartsEarlier(bs, k);
    hide *;
    if k == n {
      AverageBegins(p, pre, b);
    } else {
      AverageIsWeighted(p, pre, k);
      AverageGoesOn(p, pre, b, k);
    }
  }

  /** With non-negative reports, the rate shown at any later time is the weighted average of the amounts of all ticks
      that are over: q^(m-1-k) times the first positive one, and (1-q) q^(m-1-j) times each later one, per tick. */
  lemma RateIsWeighted(p: Params, es: seq<Event>, now: real, i: nat, k: nat)
    requires es != [] && Timely(es) && AllNonNegative(es) && es[|es| - 1].at <= now && i < NR_STATS
    requires k < Ticks(p, es[0].at, now) && 0.0 < Bucket(p, es[0].at, es, i, k)
    requires forall j :: 0 <= j < k ==> Bucket(p, es[0].at, es, i, j) == 0.0
    ensures var bs := Buckets(p, es[0].at, es, i, Ticks(p, es[0].at, now));
      Freshen(p, Replay(p, es), now).rate[i] == Weighted(p.q, p.tick, bs, k)
  {
    LazyIsEager(p, es, now);
    var bs := Buckets(p, es[0].at, es, i, Ticks(p, es[0].at, now));
    forall j | 0 <= j < |bs| ensures 0.0 <= bs[j] {
      BucketNonNegative(p, es[0].at, es, i, j);
    }
    AverageIsWeighted(p, bs, k);
  }

  // ---------- between the least and the greatest ----------

  lemma MixBetween(q: real, a: real, r: real, lo: real, hi: real)
    requires 0.0 < q < 1.0 && lo <= a <= hi && lo <= r <= hi
    ensures lo <= Times(q, a) + (1.0 - q) * r <= hi
  {
    TimesNonNegative(q, a - lo);
    TimesNonNegative(q, hi - a);
    TimesNonNegative(1.0 - q, r - lo);
    TimesNonNegative(1.0 - q, hi - r);
    assert q * (a - lo) + (1.0 - q) * (r - lo) == q * a + (1.0 - q) * r - lo;
    assert q * (hi - a) + (1.0 - q) * (hi - r) == hi - (q * a + (1.0 - q) * r);
  }

  lemma TimesNonNegative(x: real, y: real)
    requires 0.0 < x && 0.0 <= y
    ensures 0.0 <= x * y
  {
  }

  lemma PerTickBetween(p: Params, b: real, lo: real, hi: real)
    requires lo * p.tick <= b <= hi * p.tick
    ensures lo <= b / p.tick <= hi
  {
    var x := b / p.tick;
    assert x * p.tick == b;
    assert (x - lo) * p.tick >= 0.0 && (hi - x) * p.tick >= 0.0;
  }

  /** The average lies between the least and the greatest rate among the ticks. */
  lemma {:induction false} AverageBetween(p: Params, bs: seq<real>, lo: real, hi: real)
    requires bs != [] && 0.0 <= lo && forall j :: 0 <= j < |bs| ==> lo * p.tick <= bs[j] <= hi * p.tick
    ensures lo <= Average(p, bs) <= hi
  {
    var n := |bs| - 1;
    assert bs[..n] + [bs[n]] == bs;
    OneMoreTick(p, bs[..n], bs[n]);
    PerTickBetween(p, bs[n], lo, hi);
    if n == 0 {
      NothingYet(p, bs[..n]);
    } else {
      AverageBetween(p, bs[..n], lo, hi);
      MixBetween(p.q, Average(p, bs[..n]), bs[n] / p.tick, lo, hi);
    }
  }

  /** So does the rate shown, from the end of the first tick on. */
  lemma RateBetween(p: Params, es: seq<Event>, now: real, i: nat, lo: real, hi: real)
    requires es != [] && Timely(es) && AllNonNegative(es) && es[|es| - 1].at <= now && i < NR_STATS && 0.0 <= lo
    requires 0 < Ticks(p, es[0].at, now)
    requires forall j :: 0 <= j < Ticks(p, es[0].at, now) ==>
      lo * p.tick <= Bucket(p, es[0].at, es, i, j) <= hi * p.tick
    ensures lo <= Freshen(p, Replay(p, es), now).rate[i] <= hi
  {
    LazyIsEager(p, es, now);
    AverageBetween(p, Buckets(p, es[0].at, es, i, Ticks(p, es[0].at, now)), lo, hi);
  }

  /** A constant amount b in every tick shows as exactly b per tick. */
  lemma SteadyRate(p: Params, es: seq<Event>, now: real, i: nat, b: real)
    requires es != [] && Timely(es) && AllNonNegative(es) && es[|es| - 1].at <= now && i < NR_STATS && 0.0 <= b
    requires 0 < Ticks(p, es[0].at, now)
    requires forall j :: 0 <= j < Ticks(p, es[0].at, now) ==> Bucket(p, es[0].at, es, i, j) == b
    ensures Freshen(p, Replay(p, es), now).rate[i] == b / p.tick
  {
    var r := b / p.tick;
    assert r * p.tick == b;
    PerTick(p, b);
    RateBetween(p, es, now, i, r, r);
  }

  // ---------- in reachable states ----------

  /** In every reachable state with non-negative reports: the rate a tracked pair shows at any later time is the
      weighted average of what the reports that cover it brought in each tick. */
  lemma FlowRateIsWeighted(s: Sys, a: XNode, b: XNode, now: real, i: nat, k: nat)
    requires Inv(s) && LogNonNegative(s.log) && (a, b) in s.flows && s.now <= now && i < NR_STATS
    requires var es := Sub(s.log, a, b);
      es != [] ==>
        && k < Ticks(s.p, es[0].at, now) && 0.0 < Bucket(s.p, es[0].at, es, i, k)
        && forall j :: 0 <= j < k ==> Bucket(s.p, es[0].at, es, i, j) == 0.0
    ensures var es := Sub(s.log, a, b);
      && es != [] && k < Ticks(s.p, es[0].at, now)
      && Freshen(s.p, s.flows[(a, b)], now).rate[i] ==
         Weighted(s.p.q, s.p.tick, Buckets(s.p, es[0].at, es, i, Ticks(s.p, es[0].at, now)), k)
  {
    var es := Sub(s.log, a, b);
    hide *;
    FlowIsEager(s, a, b, now);
    SubTimely(s, a, b);
    LazyIsEager(s.p, es, now);
    RateIsWeighted(s.p, es, now, i, k);
  }

  /** It lies between the least and the greatest rate of the ticks that are over; so a constant amount per tick shows as
      it is. */
  lemma FlowRateBetween(s: Sys, a: XNode, b: XNode, now: real, i: nat, lo: real, hi: real)
    requires Inv(s) && LogNonNegative(s.log) && (a, b) in s.flows && s.now <= now && i < NR_STATS && 0.0 <= lo
    requires var es := Sub(s.log, a, b);
      es != [] ==>
        && 0 < Ticks(s.p, es[0].at, now)
        && forall j :: 0 <= j < Ticks(s.p, es[0].at, now) ==>
             lo * s.p.tick <= Bucket(s.p, es[0].at, es, i, j) <= hi * s.p.tick
    ensures lo <= Freshen(s.p, s.flows[(a, b)], now).rate[i] <= hi
  {
    var es := Sub(s.log, a, b);
    hide *;
    FlowIsEager(s, a, b, now);
    SubTimely(s, a, b);
    LazyIsEager(s.p, es, now);
    RateBetween(s.p, es, now, i, lo, hi);
  }
}
