/** How a sampling window is folded into the metrics of a slot. */
module MetricsUpdate {
  import opened Tiers

  const ALPHA: real := 0.33

  /** The moving average of a new value with an old one. */
  function Blend(curr: real, old_: real): real {
    curr * (1.0 - ALPHA) + old_ * ALPHA
  }

  function BlendAll(curr: Levels, old_: Levels): Levels {
    seq(5, j requires 0 <= j < 5 => Blend(curr[j], old_[j]))
  }

  /** The metrics after a window with counters `c`.  Every level metric is
      averaged with the old latency: the old value is read once per level. */
  function Updated(m: Metrics, c: Metrics): Metrics {
    Metrics(BlendAll(c.latency, m.latency), BlendAll(c.loads, m.latency), m.stores + c.stores,
            BlendAll(c.tlbHit, m.latency), BlendAll(c.tlbMiss, m.latency))
  }

  /** The metrics after a sequence of windows. */
  function After(m: Metrics, cs: seq<Metrics>): Metrics {
    if cs == [] then m else Updated(After(m, cs[..|cs| - 1]), cs[|cs| - 1])
  }

  // ---- closed form ----

  function Power(x: real, n: nat): real {
    if n == 0 then 1.0 else x * Power(x, n - 1)
  }

  /** The latencies of windows `k` and later, each weighted by its age. */
  function Weighted(cs: seq<Metrics>, j: nat, k: nat): real
    requires j < 5 && k <= |cs|
    decreases |cs| - k
  {
    if k == |cs| then 0.0
    else (1.0 - ALPHA) * Power(ALPHA, |cs| - 1 - k) * cs[k].latency[j] + Weighted(cs, j, k + 1)
  }

  /** One more window multiplies every weight by ALPHA and adds its own term. */
  lemma {:induction false} WeightedSnoc(cs: seq<Metrics>, j: nat, k: nat)
    requires j < 5 && k < |cs|
    ensures Weighted(cs, j, k) == ALPHA * Weighted(cs[..|cs| - 1], j, k) + (1.0 - ALPHA) * cs[|cs| - 1].latency[j]
    decreases |cs| - k
  {
    var ds := cs[..|cs| - 1];
    if k < |ds| {
      WeightedSnoc(cs, j, k + 1);
      var w := Power(ALPHA, |ds| - 1 - k);
      assert Power(ALPHA, |cs| - 1 - k) == ALPHA * w;
      assert ds[k] == cs[k];
    }
  }

  /** The old latency and the window latencies, weighted geometrically by age. */
  function ClosedForm(m: Metrics, cs: seq<Metrics>, j: nat): real
    requires j < 5
  {
    Power(ALPHA, |cs|) * m.latency[j] + Weighted(cs, j, 0)
  }

  /** After any number of windows the latency is the old one and the window
      latencies, weighted geometrically by age. */
  lemma {:induction false} LatencyClosedForm(m: Metrics, cs: seq<Metrics>, j: nat)
    requires j < 5
    ensures After(m, cs).latency[j] == ClosedForm(m, cs, j)
  {
    if cs != [] {
      LatencyClosedForm(m, cs[..|cs| - 1], j);
      WeightedSnoc(cs, j, 0);
    }
  }

  /** The other level metrics keep one window of their own and the latency
      history before it. */
  lemma LoadsClosedForm(m: Metrics, cs: seq<Metrics>, j: nat)
    requires j < 5 && cs != []
    ensures var ds := cs[..|cs| - 1];
      var c := cs[|cs| - 1];
      var history := ClosedForm(m, ds, j);
      && After(m, cs).loads[j] == Blend(c.loads[j], history)
      && After(m, cs).tlbHit[j] == Blend(c.tlbHit[j], history)
      && After(m, cs).tlbMiss[j] == Blend(c.tlbMiss[j], history)
  {
    hide Blend, ClosedForm, Updated;
    LatencyClosedForm(m, cs[..|cs| - 1], j);
    UpdatedAt(After(m, cs[..|cs| - 1]), cs[|cs| - 1], j);
  }

  /** The stores that windows counted, all together. */
  function StoresOf(cs: seq<Metrics>): real {
    if cs == [] then 0.0 else cs[0].stores + StoresOf(cs[1..])
  }

  lemma {:induction false} StoresSnoc(cs: seq<Metrics>)
    requires cs != []
    ensures StoresOf(cs) == StoresOf(cs[..|cs| - 1]) + cs[|cs| - 1].stores
  {
    if |cs| > 1 {
      StoresSnoc(cs[1..]);
      assert cs[1..][..|cs| - 2] == cs[..|cs| - 1][1..];
    }
  }

  /** Stores are not averaged: they are a plain sum over the windows. */
  lemma {:induction false} StoresAddUp(m: Metrics, cs: seq<Metrics>)
    ensures After(m, cs).stores == m.stores + StoresOf(cs)
  {
    hide BlendAll;
    if cs != [] {
      StoresAddUp(m, cs[..|cs| - 1]);
      StoresSnoc(cs);
    }
  }

  lemma UpdatedAt(m: Metrics, c: Metrics, j: nat)
    requires j < 5
    ensures var u := Updated(m, c);
      && u.latency[j] == Blend(c.latency[j], m.latency[j]) && u.loads[j] == Blend(c.loads[j], m.latency[j])
      && u.tlbHit[j] == Blend(c.tlbHit[j], m.latency[j]) && u.tlbMiss[j] == Blend(c.tlbMiss[j], m.latency[j])
  {
  }

  /** A load or TLB count is a moving average of its own counts exactly when the
      old latency and the old count of that level agree. */
  lemma CountsAverageThemselves(m: Metrics, c: Metrics, j: nat)
    requires j < 5
    ensures Updated(m, c).loads[j] == Blend(c.loads[j], m.loads[j]) <==> m.latency[j] == m.loads[j]
    ensures Updated(m, c).tlbHit[j] == Blend(c.tlbHit[j], m.tlbHit[j]) <==> m.latency[j] == m.tlbHit[j]
    ensures Updated(m, c).tlbMiss[j] == Blend(c.tlbMiss[j], m.tlbMiss[j]) <==> m.latency[j] == m.tlbMiss[j]
  {
  }

  lemma AfterTwo(m: Metrics, c: Metrics, d: Metrics)
    ensures After(m, [c, d]) == Updated(Updated(m, c), d)
  {
    hide Updated;
    assert [c, d][..1] == [c] && [c][..0] == [];
    assert After(m, [c]) == Updated(m, c);
  }

  /** From start-up, a window with one load of 30 cycles and then a window with
      none: the load count becomes 6.633, where its own moving average is 0.2211. */
  lemma LoadsDriftFromLatency(c: Metrics)
    requires c == Metrics([0.0, 0.0, 0.0, 0.0, 30.0], [0.0, 0.0, 0.0, 0.0, 1.0], 0.0, [0.0, 0.0, 0.0, 0.0, 1.0], ZEROS)
    ensures After(BLANK, [c, BLANK]).loads[4] == 6.633
    ensures Blend(BLANK.loads[4], Blend(c.loads[4], BLANK.loads[4])) == 0.2211
  {
    hide BlendAll, Updated;
    AfterTwo(BLANK, c, BLANK);
    UpdatedAt(BLANK, c, 4);
    UpdatedAt(Updated(BLANK, c), BLANK, 4);
  }

  // ---- bounds ----

  ghost predicate Within(s: Levels, hi: real) {
    forall j :: 0 <= j < 5 ==> 0.0 <= s[j] <= hi
  }

  ghost predicate LevelsWithin(m: Metrics, hi: real) {
    Within(m.latency, hi) && Within(m.loads, hi) && Within(m.tlbHit, hi) && Within(m.tlbMiss, hi)
  }

  lemma BlendWithin(curr: Levels, old_: Levels, hi: real)
    requires Within(curr, hi) && Within(old_, hi)
    ensures Within(BlendAll(curr, old_), hi)
  {
  }

  /** Averages of values in a range stay in that range, over every run of windows. */
  lemma {:induction false} MetricsBounded(m: Metrics, cs: seq<Metrics>, hi: real)
    requires LevelsWithin(m, hi) && forall k :: 0 <= k < |cs| ==> LevelsWithin(cs[k], hi)
    ensures LevelsWithin(After(m, cs), hi)
  {
    if cs != [] {
      var n := |cs| - 1;
      MetricsBounded(m, cs[..n], hi);
      var old_ := After(m, cs[..n]);
      BlendWithin(cs[n].latency, old_.latency, hi);
      BlendWithin(cs[n].loads, old_.latency, hi);
      BlendWithin(cs[n].tlbHit, old_.latency, hi);
      BlendWithin(cs[n].tlbMiss, old_.latency, hi);
    }
  }

  ghost predicate NonNegative(m: Metrics) {
    && m.stores >= 0.0
    && (forall j :: 0 <= j < 5 ==> m.latency[j] >= 0.0 && m.loads[j] >= 0.0 && m.tlbHit[j] >= 0.0 && m.tlbMiss[j] >= 0.0)
  }

  lemma UpdatedNonNegative(m: Metrics, c: Metrics)
    requires NonNegative(m) && NonNegative(c)
    ensures NonNegative(Updated(m, c))
  {
  }
}
