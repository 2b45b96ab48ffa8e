/** What holds over every run of the system, whatever the environment does. */
module Runs {
  import opened Options
  import opened Tiers
  import opened MetricsUpdate
  import opened Policy
  import opened Trace
  import opened Rounds

  // ---- the cool-down of the demotion policy ----

  /** The number of low-DRAM rounds since the last pass that demoted something. */
  function LowSince(rounds: seq<RoundLog>): Option<nat> {
    if rounds == [] then None
    else
      var last := rounds[|rounds| - 1];
      if last.ran && last.demotions > 0 then Some(0)
      else
        match LowSince(rounds[..|rounds| - 1])
        case None => None
        case Some(k) => Some(if last.low then k + 1 else k)
  }

  /** The demotion policy ran exactly in the low-DRAM rounds that follow no
      demoting pass, or follow one after two other low-DRAM rounds. */
  ghost predicate PacedAt(before: seq<RoundLog>, log: RoundLog) {
    && (log.ran <==> log.low && (LowSince(before) == None || LowSince(before).value >= 2))
    && (!log.ran ==> log.demotions == 0)
  }

  ghost predicate Paced(w: World) {
    && (forall b :: 0 <= b < |w.rounds| ==> PacedAt(w.rounds[..b], w.rounds[b]))
    && (w.hasDemotion <==> LowSince(w.rounds).Some? && LowSince(w.rounds).value < 2)
    && (w.hasDemotion ==> w.count == LowSince(w.rounds).value)
  }

  lemma LowSnoc(rounds: seq<RoundLog>, log: RoundLog)
    ensures LowSince(rounds + [log]) ==
      if log.ran && log.demotions > 0 then Some(0)
      else if LowSince(rounds) == None then None
      else Some(LowSince(rounds).value + (if log.low then 1 else 0))
  {
    assert (rounds + [log])[..|rounds|] == rounds;
  }

  lemma PacedSnoc(rounds: seq<RoundLog>, log: RoundLog)
    requires forall b :: 0 <= b < |rounds| ==> PacedAt(rounds[..b], rounds[b])
    requires PacedAt(rounds, log)
    ensures var all := rounds + [log]; forall b :: 0 <= b < |all| ==> PacedAt(all[..b], all[b])
  {
    hide PacedAt;
    var all := rounds + [log];
    forall b | 0 <= b < |all|
      ensures PacedAt(all[..b], all[b])
    {
      assert all[..b] == if b < |rounds| then rounds[..b] else rounds;
    }
  }

  lemma DemotionPaced(w: World, threshold: real, r: Readings, active: nat)
    requires Ready(w, r, active) && Paced(w)
    ensures Paced(AfterDemotion(w, threshold, r, active))
  {
    hide LowSince, Scan;
    var v := AfterDemotion(w, threshold, r, active);
    var log := v.rounds[|w.rounds|];
    assert v.rounds == w.rounds + [log];
    PacedSnoc(w.rounds, log);
    LowSnoc(w.rounds, log);
  }

  // ---- every step keeps the invariant ----

  lemma PassFits(w: World, threshold: real, r: Readings, active: nat, t: Tier)
    requires Ready(w, r, active) && |t.objs| == |t.alloc| == MAX_OBJECTS
    ensures Fits(DemotionPass(threshold, r, active), t) && Fits(PromotionPass(threshold, r, active), t)
  {
  }

  /** A pass changes no address, size or metrics of a slot. */
  lemma {:induction false} ScanQuiet(c: Pass, t: Tier, i: nat, budget: real, s: nat)
    requires Fits(c, t) && i <= |c.entries| && s < |t.objs|
    ensures var o := Scan(c, t, i, budget).tier.objs[s];
      && o.start == t.objs[s].start && o.end == t.objs[s].end && o.size == t.objs[s].size
      && o.metrics == t.objs[s].metrics
    decreases |c.entries| - i
  {
    if i < |c.entries| {
      if !Eligible(c, t, i) {
        ScanQuiet(c, t, i + 1, budget, s);
      } else {
        var left := budget - Share(c.kind, t.objs[c.entries[i].key]);
        if left >= 0.0 {
          ScanQuiet(c, Move(c, t, i), i + 1, left, s);
        }
      }
    }
  }

  ghost predicate TierGood(t: Tier, now: real) {
    && AppendOnly(t) && Orderly(t, now)
    && (forall i :: 0 <= i < MAX_OBJECTS ==> NonNegative(t.objs[i].metrics))
  }

  lemma StatusGood(t: Tier, status: nat -> (real, real), now: real)
    requires TierGood(t, now)
    ensures TierGood(ReadStatus(t, status), now)
  {
    hide NonNegative, Orderly;
    QuietKeeps(t, ReadStatus(t, status), now);
  }

  lemma PassGood(c: Pass, t: Tier, now: real, end: real)
    requires Fits(c, t) && TierGood(t, now) && now <= end
    requires forall p: nat, q: nat :: p <= q < |c.entries| ==> now <= c.clock(p) <= c.clock(q) <= end
    ensures TierGood(Scan(c, t, 0, BUDGET).tier, end)
  {
    hide NonNegative, Orderly, Scan;
    ScanKeeps(c, t, 0, BUDGET, now, end);
    forall s: nat | s < |t.objs| {
      ScanQuiet(c, t, 0, BUDGET, s);
    }
  }

  lemma DemotionGood(w: World, threshold: real, r: Readings, active: nat, end: real)
    requires Ready(w, r, active) && TierGood(w.tier, w.now) && w.now <= end
    requires forall p: nat, q: nat :: p <= q < active ==> w.now <= r.demotionClock(p) <= r.demotionClock(q) <= end
    ensures TierGood(AfterDemotion(w, threshold, r, active).tier, end)
  {
    hide TierGood, Scan, Orderly, AppendOnly;
    TierLater(w.tier, w.now, end);
    if r.free < LOW_DRAM && !w.hasDemotion {
      var c := DemotionPass(threshold, r, active);
      var t := ReadStatus(w.tier, r.demotionStatus);
      PassFits(w, threshold, r, active, t);
      StatusGood(w.tier, r.demotionStatus, w.now);
      PassGood(c, t, w.now, end);
    }
  }

  lemma TierLater(t: Tier, now: real, end: real)
    requires TierGood(t, now) && now <= end
    ensures TierGood(t, end)
  {
    AgreesLater(t, now, end);
  }

  lemma PromotionGood(w: World, threshold: real, r: Readings, active: nat, now: real)
    requires Ready(w, r, active) && TierGood(w.tier, now) && now <= r.end
    requires forall p: nat, q: nat :: p <= q < active ==> now <= r.promotionClock(p) <= r.promotionClock(q) <= r.end
    ensures TierGood(AfterPromotion(w, threshold, r, active).tier, r.end)
  {
    hide TierGood, Scan, Orderly, AppendOnly;
    TierLater(w.tier, now, r.end);
    if AnyHot(r.sorted, active, threshold) {
      var c := PromotionPass(threshold, r, active);
      var t := ReadStatus(w.tier, r.promotionStatus);
      PassFits(w, threshold, r, active, t);
      StatusGood(w.tier, r.promotionStatus, now);
      PassGood(c, t, now, r.end);
    }
  }

  lemma RoundKeeps(w: World, threshold: real, r: Readings)
    requires Good(w) && Paced(w) && Admissible(w, r)
    ensures var v := Step(w, Act(threshold, r)); Good(v) && Paced(v)
  {
    hide Scan, Orderly, NonNegative, AfterDemotion, Collect, SortOf, Paced;
    ListKeys(w, r);
    var c := Collect(w.tier, w.tier.total, w.maxima);
    var active := |c.current|;
    var s := w.(list := r.sorted, maxima := c.maxima);
    var d := AfterDemotion(s, threshold, r, active);
    var mid := if active == 0 then r.end else r.promotionClock(0);
    PacedFrame(w, s);
    DemotionPaced(s, threshold, r, active);
    DemotionGood(s, threshold, r, active, mid);
    PromotionGood(d, threshold, r, active, mid);
    DemotionFrame(s, threshold, r, active);
    PacedFrame(d, Round(w, threshold, r));
  }

  lemma PacedFrame(w: World, v: World)
    requires Paced(w) && v.rounds == w.rounds && v.hasDemotion == w.hasDemotion && v.count == w.count
    ensures Paced(v)
  {
  }

  lemma DemotionFrame(w: World, threshold: real, r: Readings, active: nat)
    requires Ready(w, r, active)
    ensures AfterDemotion(w, threshold, r, active).list == w.list
    ensures AfterDemotion(w, threshold, r, active).maxima == w.maxima
  {
  }

  lemma WindowKeeps(w: World, counters: nat -> Metrics)
    requires Good(w) && Enabled(w, Window(counters))
    ensures Good(Step(w, Window(counters)))
  {
    hide NonNegative, Orderly, Updated;
    var u := Folded(w.tier, counters);
    QuietKeeps(w.tier, u, w.now);
    forall i | 0 <= i < MAX_OBJECTS
      ensures NonNegative(u.objs[i].metrics)
    {
      UpdatedNonNegative(w.tier.objs[i].metrics, counters(i));
    }
  }

  lemma MapKeeps(w: World, a: Action)
    requires Good(w) && a.Map? && Enabled(w, a)
    ensures Good(Step(w, a))
  {
    hide NonNegative, Orderly, Chunks, AppendAll;
    var ps := Chunks(a.start, a.size);
    var sliced := a.size > CHUNK_SIZE;
    AppendAllAppendOnly(w.tier, a.pid, a.start, a.size, |ps|, sliced, a.clock);
    AppendAllSlots(w.tier, a.pid, ps, |ps|, sliced, a.clock);
    AppendKeeps(w.tier, a.pid, ps, |ps|, sliced, a.clock, w.now);
    var u := AppendAll(w.tier, a.pid, ps, |ps|, sliced, a.clock);
    AgreesLater(u, a.clock(|ps| - 1), a.end);
    forall i | 0 <= i < MAX_OBJECTS
      ensures NonNegative(u.objs[i].metrics)
    {
      assert u.objs[i].metrics == w.tier.objs[i].metrics;
    }
  }

  lemma UnmapKeeps(w: World, a: Action)
    requires Good(w) && a.Unmap?
    ensures Good(Step(w, a))
  {
    hide NonNegative, Orderly, Chunks, ReleaseAll;
    var ps := Chunks(a.start, a.size);
    ReleaseAppendOnly(w.tier, ps);
    QuietKeeps(w.tier, ReleaseAll(w.tier, ps, |ps|), w.now);
  }

  lemma StepKeeps(w: World, a: Action)
    requires Good(w) && Paced(w) && Enabled(w, a)
    ensures Good(Step(w, a)) && Paced(Step(w, a))
  {
    match a
    case Map(_, _, _, _, _) => MapKeeps(w, a); PacedFrame(w, Step(w, a));
    case Unmap(_, _) => UnmapKeeps(w, a); PacedFrame(w, Step(w, a));
    case Window(counters) => WindowKeeps(w, counters); PacedFrame(w, Step(w, a));
    case Act(threshold, r) => RoundKeeps(w, threshold, r);
  }

  // ---- the orders of a round ----

  ghost function CountKind(orders: seq<Order>, kind: Kind): nat {
    if orders == [] then 0
    else CountKind(orders[..|orders| - 1], kind) + (if orders[|orders| - 1].kind == kind then 1 else 0)
  }

  lemma {:induction false} CountConcat(a: seq<Order>, b: seq<Order>, kind: Kind)
    ensures CountKind(a + b, kind) == CountKind(a, kind) + CountKind(b, kind)
  {
    if b == [] {
      assert a + b == a;
    } else {
      CountConcat(a, b[..|b| - 1], kind);
      assert (a + b)[..|a + b| - 1] == a + b[..|b| - 1];
    }
  }

  lemma {:induction false} CountAll(orders: seq<Order>, kind: Kind, k: Kind)
    requires forall j :: 0 <= j < |orders| ==> orders[j].kind == k
    ensures CountKind(orders, kind) == if k == kind then |orders| else 0
  {
    if orders != [] {
      CountAll(orders[..|orders| - 1], kind, k);
    }
  }

  /** The state between the sort and the policies of a round. */
  ghost function Sorted(w: World, r: Readings): World
    requires Good(w) && Admissible(w, r)
  {
    w.(list := r.sorted, maxima := Collect(w.tier, w.tier.total, w.maxima).maxima)
  }

  ghost function Active(w: World): nat
    requires Good(w)
  {
    |Collect(w.tier, w.tier.total, w.maxima).current|
  }

  lemma SortedReady(w: World, r: Readings)
    requires Good(w) && Admissible(w, r)
    ensures Ready(Sorted(w, r), r, Active(w))
  {
    hide Collect, Admissible, NonNegative, Orderly;
    ListKeys(w, r);
  }

  /** What the demotion pass of a round sees, and what its promotion pass sees. */
  ghost function DemotionView(w: World, r: Readings): Tier
    requires Good(w)
  {
    ReadStatus(w.tier, r.demotionStatus)
  }

  ghost function PromotionView(w: World, threshold: real, r: Readings): Tier
    requires Good(w) && Admissible(w, r)
  {
    SortedReady(w, r);
    ReadStatus(AfterDemotion(Sorted(w, r), threshold, r, Active(w)).tier, r.promotionStatus)
  }

  lemma ViewsFit(w: World, threshold: real, r: Readings)
    requires Good(w) && Admissible(w, r)
    ensures Active(w) <= |r.sorted|
    ensures Fits(DemotionPass(threshold, r, Active(w)), DemotionView(w, r))
    ensures Fits(PromotionPass(threshold, r, Active(w)), PromotionView(w, threshold, r))
  {
    hide Collect, Admissible, NonNegative, Orderly, AfterDemotion;
    SortedReady(w, r);
    PassFits(Sorted(w, r), threshold, r, Active(w), DemotionView(w, r));
    PassFits(Sorted(w, r), threshold, r, Active(w), PromotionView(w, threshold, r));
  }

  /** The demotions and the promotions that a round orders. */
  ghost function RoundDemotions(w: World, threshold: real, r: Readings): seq<Order>
    requires Good(w) && Admissible(w, r)
  {
    ViewsFit(w, threshold, r);
    if r.free < LOW_DRAM && !w.hasDemotion then Issued(DemotionPass(threshold, r, Active(w)), DemotionView(w, r))
    else []
  }

  ghost function RoundPromotions(w: World, threshold: real, r: Readings): seq<Order>
    requires Good(w) && Admissible(w, r)
  {
    ViewsFit(w, threshold, r);
    if AnyHot(r.sorted, Active(w), threshold) then
      Issued(PromotionPass(threshold, r, Active(w)), PromotionView(w, threshold, r))
    else []
  }

  lemma IssuedKinds(c: Pass, t: Tier)
    requires Fits(c, t)
    ensures forall j :: 0 <= j < |Issued(c, t)| ==> Issued(c, t)[j].kind == c.kind && Issued(c, t)[j].slot < |t.objs|
  {
    hide Issued;
    forall j | 0 <= j < |Issued(c, t)|
      ensures Issued(c, t)[j].kind == c.kind && Issued(c, t)[j].slot < |t.objs|
    {
      OrdersMeaningful(c, t, j);
    }
  }

  lemma DemotionIssues(w: World, threshold: real, r: Readings)
    requires Good(w) && Admissible(w, r)
    ensures Ready(Sorted(w, r), r, Active(w))
    ensures var d := AfterDemotion(Sorted(w, r), threshold, r, Active(w));
      && d.tier.orders == w.tier.orders + RoundDemotions(w, threshold, r)
      && |d.rounds| == |w.rounds| + 1 && d.rounds[..|w.rounds|] == w.rounds
      && d.rounds[|w.rounds|].low == (r.free < LOW_DRAM)
      && d.rounds[|w.rounds|].demotions == |RoundDemotions(w, threshold, r)|
  {
    hide Collect, Admissible, NonNegative, Orderly, AppendOnly, Scan, Issued, OrdersOf, SortOf;
    SortedReady(w, r);
    ViewsFit(w, threshold, r);
    if r.free < LOW_DRAM && !w.hasDemotion {
      IssuedPicked(DemotionPass(threshold, r, Active(w)), DemotionView(w, r));
    }
  }

  /** A round appends to the history its demotions and then its promotions, and
      nothing else; its entry in the log has exactly the number of demotions. */
  lemma RoundIssues(w: World, threshold: real, r: Readings)
    requires Good(w) && Admissible(w, r)
    ensures var v := Step(w, Act(threshold, r));
      var ds, ps := RoundDemotions(w, threshold, r), RoundPromotions(w, threshold, r);
      && v.tier.orders == w.tier.orders + ds + ps
      && (forall j :: 0 <= j < |ds| ==> ds[j].kind == Demotion)
      && (forall j :: 0 <= j < |ps| ==> ps[j].kind == Promotion)
      && |v.rounds| == |w.rounds| + 1 && v.rounds[..|w.rounds|] == w.rounds
      && v.rounds[|w.rounds|].low == (r.free < LOW_DRAM)
      && v.rounds[|w.rounds|].demotions == |ds|
  {
    hide Collect, Admissible, NonNegative, Orderly, AppendOnly, Scan, Issued, OrdersOf, SortOf, AfterDemotion;
    ListKeys(w, r);
    ViewsFit(w, threshold, r);
    DemotionIssues(w, threshold, r);
    IssuedKinds(DemotionPass(threshold, r, Active(w)), DemotionView(w, r));
    if AnyHot(r.sorted, Active(w), threshold) {
      IssuedPicked(PromotionPass(threshold, r, Active(w)), PromotionView(w, threshold, r));
      IssuedKinds(PromotionPass(threshold, r, Active(w)), PromotionView(w, threshold, r));
    }
  }

  /** The demotions that all rounds together have logged. */
  ghost function DemotionSum(rounds: seq<RoundLog>): nat {
    if rounds == [] then 0 else DemotionSum(rounds[..|rounds| - 1]) + rounds[|rounds| - 1].demotions
  }

  /** The rounds account for every demotion order in the history. */
  ghost predicate Tallied(w: World) {
    CountKind(w.tier.orders, Demotion) == DemotionSum(w.rounds)
  }

  lemma {:induction false} AppendCounts(t: Tier, pid: int, ps: seq<Piece>, n: nat, sliced: bool, clock: nat -> real)
    requires n <= |ps| && |t.objs| == |t.alloc| && t.total + n <= |t.objs|
    ensures CountKind(AppendAll(t, pid, ps, n, sliced, clock).orders, Demotion) == CountKind(t.orders, Demotion)
  {
    if n > 0 {
      AppendCounts(t, pid, ps, n - 1, sliced, clock);
      var u := AppendAll(t, pid, ps, n - 1, sliced, clock);
      var v := AppendAll(t, pid, ps, n, sliced, clock);
      assert v.orders[..|v.orders| - 1] == u.orders;
    }
  }

  lemma RoundTally(w: World, threshold: real, r: Readings)
    requires Good(w) && Admissible(w, r) && Tallied(w)
    ensures Tallied(Step(w, Act(threshold, r)))
  {
    hide Good, Admissible, Step, RoundDemotions, RoundPromotions, CountKind;
    RoundIssues(w, threshold, r);
    var ds, ps := RoundDemotions(w, threshold, r), RoundPromotions(w, threshold, r);
    CountConcat(w.tier.orders + ds, ps, Demotion);
    CountConcat(w.tier.orders, ds, Demotion);
    CountAll(ds, Demotion, Demotion);
    CountAll(ps, Demotion, Promotion);
  }

  lemma TallyKeeps(w: World, a: Action)
    requires Good(w) && Enabled(w, a) && Tallied(w)
    ensures Tallied(Step(w, a))
  {
    hide Orderly, NonNegative, Admissible, CountKind, DemotionSum, Round, AppendAll, ReleaseAll;
    match a
    case Map(pid, start, size, clock, _) =>
      AppendCounts(w.tier, pid, Chunks(start, size), |Chunks(start, size)|, size > CHUNK_SIZE, clock);
    case Unmap(_, _) =>
    case Window(_) =>
    case Act(threshold, r) => RoundTally(w, threshold, r);
  }

  // ---- what the invariant means for the histories ----

  /** `b` is the next move of the slot that order `a` moved. */
  ghost predicate NextMove(orders: seq<Order>, a: nat, b: nat) {
    && a < b < |orders| && orders[a].slot == orders[b].slot
    && orders[a].kind != Initial && orders[b].kind != Initial
    && (forall m :: a < m < b && orders[m].slot == orders[a].slot ==> orders[m].kind == Initial)
  }

  /** Every move is of a slot live at that moment, and consecutive moves of a
      slot alternate between promotion and demotion. */
  ghost predicate Alternating(orders: seq<Order>) {
    && (forall a :: 0 <= a < |orders| && orders[a].kind != Initial ==> orders[a].live)
    && (forall a: nat, b: nat :: NextMove(orders, a, b) ==> orders[a].kind != orders[b].kind)
  }

  /** Two promotions of one slot are more than five seconds apart. */
  ghost predicate Spaced(orders: seq<Order>) {
    forall a, b :: 0 <= a < b < |orders| && orders[a].slot == orders[b].slot &&
                   orders[a].kind == Promotion && orders[b].kind == Promotion ==>
                   orders[b].at - orders[a].at > MIN_LIFETIME_SEC
  }

  lemma GoodOrders(orders: seq<Order>)
    requires Disciplined(orders)
    ensures Alternating(orders) && Spaced(orders)
  {
    hide Disciplined, MayFollow;
    forall a | 0 <= a < |orders| && orders[a].kind != Initial
      ensures orders[a].live
    {
      MoveLive(orders, a);
    }
    forall a: nat, b: nat | NextMove(orders, a, b)
      ensures orders[a].kind != orders[b].kind
    {
      MovesAlternate(orders, a, b);
    }
    forall a, b | 0 <= a < b < |orders| && orders[a].slot == orders[b].slot &&
                  orders[a].kind == Promotion && orders[b].kind == Promotion
      ensures orders[b].at - orders[a].at > MIN_LIFETIME_SEC
    {
      PromotionsSpaced(orders, a, b);
    }
  }

  function CountLow(rounds: seq<RoundLog>, lo: nat, hi: nat): nat
    requires lo <= hi <= |rounds|
  {
    if lo == hi then 0 else CountLow(rounds, lo, hi - 1) + (if rounds[hi - 1].low then 1 else 0)
  }

  lemma {:induction false} LowSinceCounts(rounds: seq<RoundLog>, a: nat, b: nat)
    requires a < b <= |rounds| && rounds[a].ran && rounds[a].demotions > 0
    requires forall m :: a < m < b ==> rounds[m].demotions == 0
    ensures LowSince(rounds[..b]) == Some(CountLow(rounds, a + 1, b))
    decreases b
  {
    assert rounds[..b][..b - 1] == rounds[..b - 1];
    if a < b - 1 {
      LowSinceCounts(rounds, a, b - 1);
    }
  }

  /** Round `b` is a low-DRAM round after the demoting round `a`, with no
      demotion in between. */
  ghost predicate Follows(rounds: seq<RoundLog>, a: nat, b: nat) {
    && a < b < |rounds| && rounds[a].demotions > 0 && rounds[b].low
    && (forall m :: a < m < b ==> rounds[m].demotions == 0)
  }

  /** After a demoting round, the first two low-DRAM rounds do not run the policy
      and demote nothing, and the third runs it again, whatever is in between. */
  ghost predicate CoolsDown(rounds: seq<RoundLog>) {
    forall a: nat, b: nat :: Follows(rounds, a, b) ==>
      && (rounds[b].ran <==> CountLow(rounds, a + 1, b) >= 2)
      && (!rounds[b].ran ==> rounds[b].demotions == 0)
  }

  lemma PacedCoolsDown(w: World)
    requires Paced(w)
    ensures CoolsDown(w.rounds)
  {
    var rounds := w.rounds;
    forall a: nat, b: nat | Follows(rounds, a, b)
      ensures (rounds[b].ran <==> CountLow(rounds, a + 1, b) >= 2) && (!rounds[b].ran ==> rounds[b].demotions == 0)
    {
      assert PacedAt(rounds[..a], rounds[a]) && PacedAt(rounds[..b], rounds[b]);
      LowSinceCounts(rounds, a, b);
    }
  }

  lemma GoodRun(w: World)
    requires Good(w) && Paced(w)
    ensures Alternating(w.tier.orders) && Spaced(w.tier.orders) && CoolsDown(w.rounds)
  {
    hide Disciplined, Alternating, Spaced, CoolsDown, Paced;
    GoodOrders(w.tier.orders);
    PacedCoolsDown(w);
  }

  // ---- runs ----

  /** The state that start-up leaves: nothing recorded, nothing ordered, the
      maxima one and the list zeroed. */
  ghost predicate AtStart(w: World) {
    && |w.tier.objs| == |w.tier.alloc| == |w.list| == MAX_OBJECTS
    && w.tier.total == 0 && w.tier.orders == [] && w.rounds == [] && !w.hasDemotion
    && w.maxima == Maxima(1.0, 1.0, 1.0)
    && (forall i :: 0 <= i < MAX_OBJECTS ==> !w.tier.alloc[i])
    && (forall i :: 0 <= i < MAX_OBJECTS ==> w.tier.objs[i].lastDecision == Undecided)
    && (forall i :: 0 <= i < MAX_OBJECTS ==> w.tier.objs[i].metrics == BLANK)
    && (forall i :: 0 <= i < MAX_OBJECTS ==> w.list[i].key == 0 && w.list[i].value == 0.0)
  }

  lemma StartGood(w: World)
    requires AtStart(w)
    ensures Good(w) && Paced(w)
  {
  }

  /** The environment can perform these actions in this order. */
  ghost predicate Possible(w: World, acts: seq<Action>)
    requires AtStart(w)
    decreases |acts|, 0
  {
    acts == [] || (Possible(w, acts[..|acts| - 1]) && Enabled(Exec(w, acts[..|acts| - 1]), acts[|acts| - 1]))
  }

  /** The state after a run, and what every run keeps: the system invariant, the
      discipline of the orders, the cool-down of demotion, and that the rounds
      account for every demotion order in the history. */
  ghost function Exec(w: World, acts: seq<Action>): (v: World)
    requires AtStart(w) && Possible(w, acts)
    ensures Good(v) && Paced(v)
    ensures Alternating(v.tier.orders) && Spaced(v.tier.orders) && CoolsDown(v.rounds) && Tallied(v)
    decreases |acts|, 1
  {
    if acts == [] then
      StartGood(w);
      GoodRun(w);
      w
    else
      var u := Exec(w, acts[..|acts| - 1]);
      StepKeeps(u, acts[|acts| - 1]);
      TallyKeeps(u, acts[|acts| - 1]);
      var v := Step(u, acts[|acts| - 1]);
      GoodRun(v);
      v
  }

  // ---- the metrics of a slot over a run ----

  /** The counters of the windows that found slot `i` live. */
  ghost function LiveWindows(w: World, acts: seq<Action>, i: nat): seq<Metrics>
    requires AtStart(w) && Possible(w, acts) && i < MAX_OBJECTS
  {
    if acts == [] then []
    else
      var before := acts[..|acts| - 1];
      var t := Exec(w, before).tier;
      var last := acts[|acts| - 1];
      LiveWindows(w, before, i) + (if last.Window? && i < t.total && t.alloc[i] then [last.counters(i)] else [])
  }

  ghost predicate SameRecord(o: Object, p: Object) {
    o.start == p.start && o.end == p.end && o.size == p.size
  }

  lemma RoundQuiet(w: World, threshold: real, r: Readings, i: nat)
    requires Good(w) && Admissible(w, r) && i < MAX_OBJECTS
    ensures var t := Step(w, Act(threshold, r)).tier;
      && t.alloc == w.tier.alloc && t.total == w.tier.total && |t.objs| == |w.tier.objs|
      && SameRecord(t.objs[i], w.tier.objs[i]) && t.objs[i].metrics == w.tier.objs[i].metrics
  {
    hide Scan, Orderly, NonNegative, Collect, SortOf;
    ListKeys(w, r);
    var c := Collect(w.tier, w.tier.total, w.maxima);
    var active := |c.current|;
    var s := w.(list := r.sorted, maxima := c.maxima);
    var d := AfterDemotion(s, threshold, r, active);
    var t, u := ReadStatus(w.tier, r.demotionStatus), ReadStatus(d.tier, r.promotionStatus);
    PassFits(s, threshold, r, active, t);
    PassFits(s, threshold, r, active, u);
    ScanQuiet(DemotionPass(threshold, r, active), t, 0, BUDGET, i);
    ScanQuiet(PromotionPass(threshold, r, active), u, 0, BUDGET, i);
  }

  lemma StepMetrics(w: World, a: Action, i: nat)
    requires Good(w) && Enabled(w, a) && i < MAX_OBJECTS
    ensures Step(w, a).tier.objs[i].metrics ==
      if a.Window? && i < w.tier.total && w.tier.alloc[i] then Updated(w.tier.objs[i].metrics, a.counters(i))
      else w.tier.objs[i].metrics
  {
    hide Orderly, NonNegative, Updated, Admissible, Round, Chunks;
    match a
    case Map(pid, start, size, clock, _) =>
      AppendAllSlots(w.tier, pid, Chunks(start, size), |Chunks(start, size)|, size > CHUNK_SIZE, clock);
    case Unmap(_, _) =>
    case Window(_) =>
    case Act(threshold, r) => RoundQuiet(w, threshold, r, i);
  }

  lemma {:induction false} RunFold(w: World, acts: seq<Action>, i: nat)
    requires AtStart(w) && Possible(w, acts) && i < MAX_OBJECTS
    ensures Exec(w, acts).tier.objs[i].metrics == After(w.tier.objs[i].metrics, LiveWindows(w, acts, i))
  {
    hide Good, Paced, Alternating, Spaced, CoolsDown, Enabled, Updated, Step;
    if acts != [] {
      var before := acts[..|acts| - 1];
      RunFold(w, before, i);
      StepMetrics(Exec(w, before), acts[|acts| - 1], i);
      AfterSnoc(w.tier.objs[i].metrics, LiveWindows(w, before, i), LiveWindows(w, acts, i));
    }
  }

  lemma AfterSnoc(m: Metrics, ds: seq<Metrics>, cs: seq<Metrics>)
    requires |cs| <= |ds| + 1 && ds <= cs
    ensures cs == ds ==> After(m, cs) == After(m, ds)
    ensures cs != ds ==> After(m, cs) == Updated(After(m, ds), cs[|ds|])
  {
    if cs != ds {
      assert cs[..|cs| - 1] == ds;
    }
  }

  /** Over every run, whatever is interleaved, the metrics of a slot are the fold
      of the windows that found it live; its latency is their weighted sum, and its
      store count their plain sum. */
  lemma RunMetrics(w: World, acts: seq<Action>, i: nat, j: nat)
    requires AtStart(w) && Possible(w, acts) && i < MAX_OBJECTS && j < 5
    ensures var m := Exec(w, acts).tier.objs[i].metrics;
      var cs := LiveWindows(w, acts, i);
      && m == After(w.tier.objs[i].metrics, cs)
      && m.latency[j] == Weighted(cs, j, 0) && m.stores == StoresOf(cs)
  {
    hide Good, Paced, Alternating, Spaced, CoolsDown, Exec, Possible, LiveWindows, Weighted, After;
    RunFold(w, acts, i);
    StoresAddUp(w.tier.objs[i].metrics, LiveWindows(w, acts, i));
    LatencyClosedForm(w.tier.objs[i].metrics, LiveWindows(w, acts, i), j);
  }

  /** Over every run, if the windows that found a slot live stay in a range, so do
      the averaged metrics of the slot. */
  lemma RunBounded(w: World, acts: seq<Action>, i: nat, hi: real)
    requires AtStart(w) && Possible(w, acts) && i < MAX_OBJECTS && hi >= 0.0
    requires forall k :: 0 <= k < |LiveWindows(w, acts, i)| ==> LevelsWithin(LiveWindows(w, acts, i)[k], hi)
    ensures LevelsWithin(Exec(w, acts).tier.objs[i].metrics, hi)
  {
    hide Good, Paced, Alternating, Spaced, CoolsDown, Tallied, Exec, Possible, LiveWindows, After;
    RunFold(w, acts, i);
    MetricsBounded(w.tier.objs[i].metrics, LiveWindows(w, acts, i), hi);
  }

  // ---- slots over a run ----

  /** A step never takes back a slot, changes what it records, or revives it. */
  lemma StepPermanent(w: World, a: Action, i: nat)
    requires Good(w) && Enabled(w, a) && i < w.tier.total
    ensures var t := Step(w, a).tier;
      && w.tier.total <= t.total <= |t.objs| == |t.alloc|
      && SameRecord(t.objs[i], w.tier.objs[i]) && (t.alloc[i] ==> w.tier.alloc[i])
  {
    hide Orderly, NonNegative, Updated, Admissible, Round, Chunks, AppendAll, ReleaseAll;
    match a
    case Map(pid, start, size, clock, _) =>
      AppendAllSlots(w.tier, pid, Chunks(start, size), |Chunks(start, size)|, size > CHUNK_SIZE, clock);
    case Unmap(start, size) =>
      ReleaseOnlyClears(w.tier, Chunks(start, size), |Chunks(start, size)|);
    case Window(_) =>
    case Act(threshold, r) => RoundQuiet(w, threshold, r, i);
  }

  lemma {:induction false} PrefixPossible(w: World, acts: seq<Action>, k: nat)
    requires AtStart(w) && Possible(w, acts) && k <= |acts|
    ensures Possible(w, acts[..k])
    decreases |acts|
  {
    if k < |acts| {
      PrefixPossible(w, acts[..|acts| - 1], k);
      assert acts[..|acts| - 1][..k] == acts[..k];
    } else {
      assert acts[..k] == acts;
    }
  }

  /** Over every run and every continuation of it, a slot once handed out keeps
      its address and size, and once dead stays dead: no slot is reused. */
  lemma {:induction false} SlotsPermanent(w: World, acts: seq<Action>, k: nat, i: nat)
    requires AtStart(w) && Possible(w, acts) && k <= |acts| && Possible(w, acts[..k])
    requires i < Exec(w, acts[..k]).tier.total
    ensures var t, u := Exec(w, acts[..k]).tier, Exec(w, acts).tier;
      && t.total <= u.total <= |u.objs| == |u.alloc| == |t.objs| == |t.alloc|
      && SameRecord(u.objs[i], t.objs[i]) && (u.alloc[i] ==> t.alloc[i])
    decreases |acts|
  {
    hide Paced, Alternating, Spaced, CoolsDown, Tallied, Enabled, Step, Orderly;
    if k == |acts| {
      assert acts[..k] == acts;
    } else {
      var before := acts[..|acts| - 1];
      assert before[..k] == acts[..k];
      SlotsPermanent(w, before, k, i);
      StepPermanent(Exec(w, before), acts[|acts| - 1], i);
    }
  }

  lemma ExecSnoc(w: World, acts: seq<Action>, a: Action)
    requires AtStart(w) && Possible(w, acts) && Enabled(Exec(w, acts), a)
    ensures Possible(w, acts + [a]) && Exec(w, acts + [a]) == Step(Exec(w, acts), a)
  {
    hide Good, Paced, Alternating, Spaced, CoolsDown, Tallied, Enabled, Step;
    assert (acts + [a])[..|acts|] == acts && (acts + [a])[|acts|] == a;
  }

  lemma ExecAt(w: World, acts: seq<Action>, k: nat)
    requires AtStart(w) && Possible(w, acts) && k < |acts|
    ensures Possible(w, acts[..k]) && Possible(w, acts[..k + 1])
    ensures Enabled(Exec(w, acts[..k]), acts[k]) && Exec(w, acts[..k + 1]) == Step(Exec(w, acts[..k]), acts[k])
  {
    hide Good, Paced, Alternating, Spaced, CoolsDown, Tallied, Enabled, Step;
    PrefixPossible(w, acts, k);
    PrefixPossible(w, acts, k + 1);
    assert acts[..k + 1][..k] == acts[..k] && acts[..k + 1][k] == acts[k];
  }

  lemma MapHolds(w: World, a: Action)
    requires Good(w) && a.Map? && Enabled(w, a)
    ensures Holds(Step(w, a).tier, Chunks(a.start, a.size), w.tier.total)
  {
    hide Orderly, NonNegative, Chunks, AppendAll, Holds;
    AppendHolds(w.tier, a.pid, Chunks(a.start, a.size), a.size > CHUNK_SIZE, a.clock);
  }

  /** The slots that action `k` filled are all still live after the run. */
  ghost predicate StillLive(w: World, acts: seq<Action>, k: nat)
    requires AtStart(w) && Possible(w, acts) && k < |acts| && acts[k].Map? && Possible(w, acts[..k])
  {
    var base, t := Exec(w, acts[..k]).tier.total, Exec(w, acts).tier;
    forall i :: base <= i < base + |Chunks(acts[k].start, acts[k].size)| ==> i < |t.alloc| && t.alloc[i]
  }

  /** Slots that are still live record their pieces, whatever happened since. */
  lemma RunHolds(w: World, acts: seq<Action>, k: nat)
    requires AtStart(w) && Possible(w, acts) && k < |acts| && acts[k].Map? && Possible(w, acts[..k])
    requires StillLive(w, acts, k)
    ensures Holds(Exec(w, acts).tier, Chunks(acts[k].start, acts[k].size), Exec(w, acts[..k]).tier.total)
  {
    hide Good, Paced, Alternating, Spaced, CoolsDown, Tallied, Chunks, Exec, Possible, Enabled, Step;
    ExecAt(w, acts, k);
    var base, ps := Exec(w, acts[..k]).tier.total, Chunks(acts[k].start, acts[k].size);
    MapHolds(Exec(w, acts[..k]), acts[k]);
    var t := Exec(w, acts).tier;
    SlotsPermanent(w, acts, k + 1, base);
    forall i: nat | base <= i < base + |ps|
      ensures t.objs[i].start == ps[i - base].start && t.objs[i].size == ps[i - base].size
    {
      SlotsPermanent(w, acts, k + 1, i);
    }
  }

  /** Over every run: an address inside a mapping that is still wholly live
      resolves to the slot that arithmetic predicts, if and only if no live slot
      below the mapping's own touches it. */
  lemma RunLookup(w: World, acts: seq<Action>, k: nat, o: nat)
    requires AtStart(w) && Possible(w, acts) && k < |acts| && acts[k].Map? && Possible(w, acts[..k])
    requires StillLive(w, acts, k) && o <= Span(acts[k].size)
    ensures var base, t := Exec(w, acts[..k]).tier.total, Exec(w, acts).tier;
      var addr := acts[k].start + o;
      && base <= |t.objs| == |t.alloc|
      && (Resolves(t, addr, base + ChunkOf(o)) <==> !TouchedBelow(t, addr, base))
  {
    hide Paced, Alternating, Spaced, CoolsDown, Tallied, Orderly, NonNegative, Chunks, Exec, Possible;
    hide Resolves, StillLive, TouchedBelow, ChunkOf, Span;
    RunHolds(w, acts, k);
    LookupIsArithmetic(Exec(w, acts).tier, Exec(w, acts[..k]).tier.total, acts[k].start, acts[k].size, o);
  }

  /** Over every run: unmapping a mapping that is still wholly live, whatever was
      mapped, unmapped, sampled or migrated in between, clears exactly its slots,
      if and only if no live slot below them records one of its pieces. */
  lemma RunUnmap(w: World, acts: seq<Action>, k: nat)
    requires AtStart(w) && Possible(w, acts) && k < |acts| && acts[k].Map? && Possible(w, acts[..k])
    requires StillLive(w, acts, k)
    ensures var ps := Chunks(acts[k].start, acts[k].size);
      var base, t := Exec(w, acts[..k]).tier.total, Exec(w, acts).tier;
      var all := acts + [Unmap(acts[k].start, acts[k].size)];
      && Holds(t, ps, base) && Possible(w, all)
      && (ClearedExactly(t, Exec(w, all).tier, base, |ps|) <==> !Shadowed(t, ps, base))
  {
    hide Paced, Alternating, Spaced, CoolsDown, Tallied, Orderly, NonNegative, Chunks, Exec, Possible;
    hide Shadowed, ClearedExactly, ReleaseAll, StillLive;
    RunHolds(w, acts, k);
    var ps := Chunks(acts[k].start, acts[k].size);
    ExecSnoc(w, acts, Unmap(acts[k].start, acts[k].size));
    UnmapClears(Exec(w, acts).tier, ps, Exec(w, acts[..k]).tier.total);
  }

  // ---- the cool-down, on the history of orders ----

  /** How a round moves the demotion flag and the counter. */
  lemma CoolStep(w: World, threshold: real, r: Readings)
    requires Good(w) && Admissible(w, r)
    ensures var v := Step(w, Act(threshold, r));
      var ds := RoundDemotions(w, threshold, r);
      if r.free >= LOW_DRAM then v.hasDemotion == w.hasDemotion && v.count == w.count && ds == []
      else if w.hasDemotion then v.hasDemotion == (w.count + 1 < 2) && v.count == w.count + 1 && ds == []
      else v.hasDemotion == (ds != []) && v.count == 0
  {
    hide Collect, Admissible, NonNegative, Orderly, AppendOnly, Scan, Issued, OrdersOf, SortOf;
    ListKeys(w, r);
    SortedReady(w, r);
    ViewsFit(w, threshold, r);
    IssuedPicked(DemotionPass(threshold, r, Active(w)), DemotionView(w, r));
  }

  predicate IsLow(a: Action) {
    a.Act? && a.readings.free < LOW_DRAM
  }

  /** The demotion orders that action `k` of a run appends to the history. */
  ghost function DemotionsAt(w: World, acts: seq<Action>, k: nat): seq<Order>
    requires AtStart(w) && Possible(w, acts) && k < |acts|
  {
    ExecAt(w, acts, k);
    if acts[k].Act? then RoundDemotions(Exec(w, acts[..k]), acts[k].threshold, acts[k].readings) else []
  }

  ghost function CountLowActs(acts: seq<Action>, lo: nat, hi: nat): nat
    requires lo <= hi <= |acts|
  {
    if lo == hi then 0 else CountLowActs(acts, lo, hi - 1) + (if IsLow(acts[hi - 1]) then 1 else 0)
  }

  /** Action `a` orders a demotion, and none of the actions after it before `b` does. */
  ghost predicate DemotedAt(w: World, acts: seq<Action>, a: nat, b: nat)
    requires AtStart(w) && Possible(w, acts)
  {
    && a < b <= |acts| && DemotionsAt(w, acts, a) != []
    && forall k :: a < k < b ==> DemotionsAt(w, acts, k) == []
  }

  lemma {:induction false} Cooling(w: World, acts: seq<Action>, a: nat, b: nat)
    requires AtStart(w) && Possible(w, acts) && DemotedAt(w, acts, a, b)
    ensures Possible(w, acts[..b])
    ensures var v, low := Exec(w, acts[..b]), CountLowActs(acts, a + 1, b);
      (v.hasDemotion <==> low < 2) && (v.hasDemotion ==> v.count == low)
    decreases b
  {
    hide Good, Paced, Alternating, Spaced, CoolsDown, Tallied, Exec, Possible, Admissible, RoundDemotions;
    ExecAt(w, acts, b - 1);
    if a < b - 1 {
      Cooling(w, acts, a, b - 1);
      assert DemotionsAt(w, acts, b - 1) == [];
    }
    match acts[b - 1]
    case Map(_, _, _, _, _) =>
    case Unmap(_, _) =>
    case Window(_) =>
    case Act(threshold, r) => CoolStep(Exec(w, acts[..b - 1]), threshold, r);
  }

  /** Over every run, on the history of orders: after an action that orders a
      demotion, the first two low-DRAM rounds order none, and the third orders
      whatever the demotion pass issues then. */
  lemma RunCoolDown(w: World, acts: seq<Action>, a: nat, b: nat)
    requires AtStart(w) && Possible(w, acts) && b < |acts| && DemotedAt(w, acts, a, b) && IsLow(acts[b])
    ensures CountLowActs(acts, a + 1, b) < 2 ==> DemotionsAt(w, acts, b) == []
    ensures CountLowActs(acts, a + 1, b) >= 2 ==>
      && Possible(w, acts[..b])
      && (var v, r, threshold := Exec(w, acts[..b]), acts[b].readings, acts[b].threshold;
          && Active(v) <= |r.sorted|
          && Fits(DemotionPass(threshold, r, Active(v)), DemotionView(v, r))
          && DemotionsAt(w, acts, b) == Issued(DemotionPass(threshold, r, Active(v)), DemotionView(v, r)))
  {
    hide Paced, Alternating, Spaced, CoolsDown, Tallied, Exec, Possible, Issued, NonNegative, Orderly, DemotedAt;
    ExecAt(w, acts, b);
    Cooling(w, acts, a, b);
    ViewsFit(Exec(w, acts[..b]), acts[b].threshold, acts[b].readings);
  }

  // ---- what the passes of a round do ----

  lemma ReversedColdestFirst(es: seq<KeyValue>)
    requires HottestFirst(es)
    ensures ColdestFirst(Reversed(es))
  {
  }

  /** The pass of either kind in a round, what it sees, and what it orders. */
  ghost function PassOf(w: World, threshold: real, r: Readings, kind: Kind): Pass
    requires Good(w) && Admissible(w, r)
  {
    SortedReady(w, r);
    if kind == Promotion then PromotionPass(threshold, r, Active(w)) else DemotionPass(threshold, r, Active(w))
  }

  ghost function ViewOf(w: World, threshold: real, r: Readings, kind: Kind): Tier
    requires Good(w) && Admissible(w, r)
  {
    if kind == Promotion then PromotionView(w, threshold, r) else DemotionView(w, r)
  }

  ghost function OrdersOfKind(w: World, threshold: real, r: Readings, kind: Kind): seq<Order>
    requires Good(w) && Admissible(w, r)
  {
    if kind == Promotion then RoundPromotions(w, threshold, r) else RoundDemotions(w, threshold, r)
  }

  /** In every round, neither policy overtakes in its list: a promotion leaves no
      hotter eligible entry without an order for its object, and a demotion no
      colder one. */
  lemma RoundPriority(w: World, threshold: real, r: Readings, kind: Kind, p: nat, q: nat)
    requires Good(w) && Admissible(w, r) && kind != Initial
    requires var c, t := PassOf(w, threshold, r, kind), ViewOf(w, threshold, r, kind);
      && Fits(c, t) && p < |c.entries| && q < |c.entries| && Eligible(c, t, p) && q in Scan(c, t, 0, BUDGET).picked
      && (if kind == Promotion then c.entries[p].value > c.entries[q].value else c.entries[p].value < c.entries[q].value)
    ensures var c, t := PassOf(w, threshold, r, kind), ViewOf(w, threshold, r, kind);
      SlotOrdered(Issued(c, t), c.entries[p].key)
  {
    hide Scan, Eligible, Issued, SlotOrdered, NonNegative, Orderly, AfterDemotion;
    SortedReady(w, r);
    var c, t := PassOf(w, threshold, r, kind), ViewOf(w, threshold, r, kind);
    assert HottestFirst(r.sorted[..Active(w)]);
    if kind == Promotion {
      HotterPromoted(c, t, p, q);
    } else {
      ReversedColdestFirst(r.sorted[..Active(w)]);
      ColderDemoted(c, t, p, q);
    }
  }

  /** The hotness of a slot in the round that starts in `w`. */
  ghost function Hotness(w: World, i: nat): real
    requires Good(w) && i < MAX_OBJECTS
  {
    Heat(w.tier.objs[i].metrics, ScaleAt(w.tier, i, w.maxima))
  }

  /** When the active part holds exactly this round's entries, every entry that a
      pass examines is of a live slot, with its hotness of this round. */
  lemma EntryIsCurrent(w: World, threshold: real, r: Readings, kind: Kind, p: nat)
    requires Good(w) && Admissible(w, r)
    requires SeesCurrent(r.sorted, Collect(w.tier, w.tier.total, w.maxima).current)
    requires p < |PassOf(w, threshold, r, kind).entries|
    ensures var e := PassOf(w, threshold, r, kind).entries[p];
      e.key < w.tier.total && w.tier.alloc[e.key] && e.value == Hotness(w, e.key)
  {
    hide NonNegative, Orderly, Heat, Collect, SortOf;
    SortedReady(w, r);
    var e := PassOf(w, threshold, r, kind).entries[p];
    var current := Collect(w.tier, w.tier.total, w.maxima).current;
    assert e in r.sorted[..Active(w)];
    assert e in multiset(current);
    var j :| 0 <= j < |current| && current[j] == e;
    CollectScales(w.tier, w.tier.total, w.maxima, j);
  }

  /** What a pass sees of a live slot: its size, the page fractions this round read,
      and for the demotion pass also its age and decision. */
  lemma ViewObject(w: World, threshold: real, r: Readings, kind: Kind, i: nat)
    requires Good(w) && Admissible(w, r) && i < MAX_OBJECTS
    ensures var t := ViewOf(w, threshold, r, kind);
      && |w.tier.objs| == |w.tier.alloc| == |t.objs| == MAX_OBJECTS && t.alloc == w.tier.alloc
      && t.objs[i].size == w.tier.objs[i].size && t.objs[i].start == w.tier.objs[i].start
      && (w.tier.alloc[i] && kind == Promotion ==> t.objs[i].inPmem == r.promotionStatus(i).1)
      && (w.tier.alloc[i] && kind != Promotion ==>
            && t.objs[i].inDram == r.demotionStatus(i).0
            && t.objs[i].birth == w.tier.objs[i].birth && t.objs[i].lastDecision == w.tier.objs[i].lastDecision)
  {
    hide NonNegative, Orderly, Collect, SortOf, Scan;
    SortedReady(w, r);
    ViewsFit(w, threshold, r);
    ScanQuiet(DemotionPass(threshold, r, Active(w)), DemotionView(w, r), 0, BUDGET, i);
  }

  /** What a pass would move of a live slot: its size times the fraction read. */
  lemma ViewShare(w: World, threshold: real, r: Readings, kind: Kind, i: nat)
    requires Good(w) && Admissible(w, r) && i < MAX_OBJECTS && w.tier.alloc[i]
    ensures var t := ViewOf(w, threshold, r, kind);
      && i < |t.objs|
      && (kind == Promotion ==> Share(kind, t.objs[i]) == w.tier.objs[i].size as real / GB * r.promotionStatus(i).1)
      && (kind != Promotion ==> Share(kind, t.objs[i]) == w.tier.objs[i].size as real / GB * r.demotionStatus(i).0)
  {
    hide Good, Admissible, ViewOf;
    ViewObject(w, threshold, r, kind, i);
    ShareValue(kind, ViewOf(w, threshold, r, kind).objs[i]);
  }

  /** Slot `i` meets every condition of the policy, by its size, the page fractions
      read, its state when the pass begins and its hotness of this round; the list
      plays no part in this. */
  ghost predicate Deserving(w: World, threshold: real, r: Readings, kind: Kind, i: nat)
    requires Good(w) && Admissible(w, r) && i < MAX_OBJECTS
  {
    var t := ViewOf(w, threshold, r, kind);
    var gigabytes := w.tier.objs[i].size as real / GB;
    && w.tier.alloc[i] && i < |t.objs|
    && if kind == Promotion then
         && 0.0 < gigabytes * r.promotionStatus(i).1 < r.freeLater
         && t.objs[i].lastDecision != ToDram && Hotness(w, i) > threshold
       else
         && gigabytes * r.demotionStatus(i).0 > MIN_SIZE_GB
         && r.demotionClock(0) - w.tier.objs[i].birth > MIN_LIFETIME_SEC
         && w.tier.objs[i].lastDecision != ToPmem && Hotness(w, i) < threshold
  }

  /** When the active part holds exactly this round's entries, every live slot has
      an entry that the passes examine. */
  lemma SlotListed(w: World, threshold: real, r: Readings, kind: Kind, i: nat) returns (p: nat)
    requires Good(w) && Admissible(w, r) && i < MAX_OBJECTS && w.tier.alloc[i]
    requires SeesCurrent(r.sorted, Collect(w.tier, w.tier.total, w.maxima).current)
    ensures var es := PassOf(w, threshold, r, kind).entries; p < |es| && es[p].key == i
  {
    hide NonNegative, Orderly, Heat, Collect, SortOf;
    SortedReady(w, r);
    CollectAll(w.tier, w.tier.total, w.maxima, i);
    var current := Collect(w.tier, w.tier.total, w.maxima).current;
    var j :| 0 <= j < |current| && current[j].key == i;
    var active := r.sorted[..|current|];
    assert current[j] in multiset(active);
    var q :| 0 <= q < |active| && active[q] == current[j];
    p := if kind == Promotion then q else |active| - 1 - q;
  }

  lemma DeservingShare(w: World, threshold: real, r: Readings, kind: Kind, i: nat)
    requires Good(w) && Admissible(w, r) && i < MAX_OBJECTS && Deserving(w, threshold, r, kind, i)
    ensures var t := ViewOf(w, threshold, r, kind);
      && i < |t.objs|
      && (if kind == Promotion then 0.0 < Share(kind, t.objs[i]) < r.freeLater
          else Share(kind, t.objs[i]) > MIN_SIZE_GB)
  {
    hide Good, Admissible, ViewOf, Hotness, Share;
    ViewShare(w, threshold, r, kind, i);
  }

  lemma DeservingEligible(w: World, threshold: real, r: Readings, kind: Kind, i: nat, p: nat)
    requires Good(w) && Admissible(w, r) && kind != Initial && i < MAX_OBJECTS && Deserving(w, threshold, r, kind, i)
    requires var c := PassOf(w, threshold, r, kind);
      && Fits(c, ViewOf(w, threshold, r, kind)) && p < |c.entries|
      && c.entries[p].key == i && c.entries[p].value == Hotness(w, i)
    ensures Eligible(PassOf(w, threshold, r, kind), ViewOf(w, threshold, r, kind), p)
  {
    hide NonNegative, Orderly, Collect, SortOf, Hotness, Scan, Share, ViewOf;
    SortedReady(w, r);
    ViewObject(w, threshold, r, kind, i);
    DeservingShare(w, threshold, r, kind, i);
  }

  /** Priority of objects: when the active part of the list holds exactly this
      round's entries, no deserving object is left without an order while one that
      is colder by this round's hotness is promoted, or hotter demoted. */
  lemma ObjectPriority(w: World, threshold: real, r: Readings, kind: Kind, i: nat, k: nat)
    requires Good(w) && Admissible(w, r) && kind != Initial && i < MAX_OBJECTS && k < MAX_OBJECTS
    requires SeesCurrent(r.sorted, Collect(w.tier, w.tier.total, w.maxima).current)
    requires Deserving(w, threshold, r, kind, i)
    requires if kind == Promotion then Hotness(w, i) > Hotness(w, k) else Hotness(w, i) < Hotness(w, k)
    requires SlotOrdered(OrdersOfKind(w, threshold, r, kind), k)
    ensures SlotOrdered(OrdersOfKind(w, threshold, r, kind), i)
  {
    hide Scan, Eligible, Issued, SlotOrdered, NonNegative, Orderly, AfterDemotion, Collect;
    hide Good, Admissible, SeesCurrent, Hotness, PassOf, ViewOf;
    var c, t := PassOf(w, threshold, r, kind), ViewOf(w, threshold, r, kind);
    OrdersAreIssued(w, threshold, r, kind, k);
    PickedOrdered(c, t, k);
    var picked := Scan(c, t, 0, BUDGET).picked;
    var j :| 0 <= j < |picked| && picked[j] < |c.entries| && c.entries[picked[j]].key == k;
    EntryIsCurrent(w, threshold, r, kind, picked[j]);
    var p := SlotListed(w, threshold, r, kind, i);
    EntryIsCurrent(w, threshold, r, kind, p);
    DeservingEligible(w, threshold, r, kind, i, p);
    RoundPriority(w, threshold, r, kind, p, picked[j]);
  }

  lemma OrdersAreIssued(w: World, threshold: real, r: Readings, kind: Kind, k: nat)
    requires Good(w) && Admissible(w, r) && kind != Initial && SlotOrdered(OrdersOfKind(w, threshold, r, kind), k)
    ensures Fits(PassOf(w, threshold, r, kind), ViewOf(w, threshold, r, kind))
    ensures OrdersOfKind(w, threshold, r, kind) ==
      Issued(PassOf(w, threshold, r, kind), ViewOf(w, threshold, r, kind))
  {
    hide Scan, Issued, NonNegative, Orderly, AfterDemotion, Collect;
    ViewsFit(w, threshold, r);
  }

  /** The condition before the call, whatever the sort does with ties: every
      leftover of the list is colder than every current entry, or the same entry. */
  lemma ColdLeftoversPriority(w: World, threshold: real, r: Readings, kind: Kind, i: nat, k: nat)
    requires Good(w) && Admissible(w, r) && kind != Initial && i < MAX_OBJECTS && k < MAX_OBJECTS
    requires var current := Collect(w.tier, w.tier.total, w.maxima).current;
      forall f, s :: f in current && s in w.list[|current|..] ==> s.value < f.value || s == f
    requires Deserving(w, threshold, r, kind, i)
    requires if kind == Promotion then Hotness(w, i) > Hotness(w, k) else Hotness(w, i) < Hotness(w, k)
    requires SlotOrdered(OrdersOfKind(w, threshold, r, kind), k)
    ensures SlotOrdered(OrdersOfKind(w, threshold, r, kind), i)
  {
    hide NonNegative, Orderly, Collect, Heat, SeesCurrent, SlotOrdered;
    hide OrdersOfKind, PassOf, ViewOf, Hotness, Deserving;
    var current := Collect(w.tier, w.tier.total, w.maxima).current;
    ColderLeftovers(r.sorted, current, w.list[|current|..]);
    ObjectPriority(w, threshold, r, kind, i, k);
  }

  // ---- what a round moves, by its readings ----

  /** The gigabytes that orders move by this round's readings: the size of each
      times the fraction of its pages read on the side it leaves. */
  ghost function Traffic(r: Readings, orders: seq<Order>): real {
    if orders == [] then 0.0
    else
      var o := orders[0];
      o.size as real / GB * (if o.kind == Promotion then r.promotionStatus(o.slot).1 else r.demotionStatus(o.slot).0)
      + Traffic(r, orders[1..])
  }

  /** The orders are of one kind, for live slots, with the sizes on record. */
  ghost predicate Faithful(w: World, orders: seq<Order>, kind: Kind) {
    forall j :: 0 <= j < |orders| ==>
      && orders[j].kind == kind && orders[j].slot < |w.tier.objs| == |w.tier.alloc|
      && w.tier.alloc[orders[j].slot] && orders[j].size == w.tier.objs[orders[j].slot].size
  }

  lemma {:induction false} TrafficVolume(w: World, threshold: real, r: Readings, kind: Kind, orders: seq<Order>)
    requires Good(w) && Admissible(w, r) && Faithful(w, orders, kind)
    ensures var t := ViewOf(w, threshold, r, kind);
      && (forall j :: 0 <= j < |orders| ==> orders[j].slot < |t.objs|)
      && Volume(t, orders) == Traffic(r, orders)
  {
    hide Good, Admissible, ViewOf;
    ViewObject(w, threshold, r, kind, 0);
    if orders != [] {
      ViewObject(w, threshold, r, kind, orders[0].slot);
      TrafficVolume(w, threshold, r, kind, orders[1..]);
    }
  }

  lemma IssuedFaithful(w: World, threshold: real, r: Readings, kind: Kind)
    requires Good(w) && Admissible(w, r) && kind != Initial
    requires Fits(PassOf(w, threshold, r, kind), ViewOf(w, threshold, r, kind))
    ensures Faithful(w, Issued(PassOf(w, threshold, r, kind), ViewOf(w, threshold, r, kind)), kind)
  {
    hide Good, Admissible, ViewOf, Issued;
    var c, t := PassOf(w, threshold, r, kind), ViewOf(w, threshold, r, kind);
    ViewObject(w, threshold, r, kind, 0);
    forall j: nat | j < |Issued(c, t)|
      ensures var o := Issued(c, t)[j];
        o.kind == kind && o.slot < MAX_OBJECTS && w.tier.alloc[o.slot] && o.size == w.tier.objs[o.slot].size
    {
      OrdersMeaningful(c, t, j);
      ViewObject(w, threshold, r, kind, Issued(c, t)[j].slot);
    }
  }

  /** The policy of this kind runs in the round. */
  predicate PolicyRuns(w: World, r: Readings, kind: Kind) {
    kind == Demotion ==> r.free < LOW_DRAM && !w.hasDemotion
  }

  /** Every deserving object is served, unless the budget is spent: in every round
      whose policies see this round's entries, it is ordered, or the orders of the
      round, by the readings, already move more than the budget. */
  lemma RoundServes(w: World, threshold: real, r: Readings, kind: Kind, i: nat)
    requires Good(w) && Admissible(w, r) && kind != Initial && i < MAX_OBJECTS && PolicyRuns(w, r, kind)
    requires SeesCurrent(r.sorted, Collect(w.tier, w.tier.total, w.maxima).current)
    requires Deserving(w, threshold, r, kind, i)
    ensures SlotOrdered(OrdersOfKind(w, threshold, r, kind), i) ||
      Traffic(r, OrdersOfKind(w, threshold, r, kind)) > BUDGET
  {
    hide Scan, Eligible, Issued, SlotOrdered, Good, Admissible, SeesCurrent, Hotness, PassOf, ViewOf, Volume, Traffic;
    hide OrdersOfKind;
    var c, t := PassOf(w, threshold, r, kind), ViewOf(w, threshold, r, kind);
    var p := SlotListed(w, threshold, r, kind, i);
    EntryIsCurrent(w, threshold, r, kind, p);
    QualifiedIssues(w, threshold, r, kind, p);
    DeservingEligible(w, threshold, r, kind, i, p);
    PassedOver(c, t, p);
    IssuedFaithful(w, threshold, r, kind);
    TrafficVolume(w, threshold, r, kind, Issued(c, t));
  }

  lemma QualifiedIssues(w: World, threshold: real, r: Readings, kind: Kind, p: nat)
    requires Good(w) && Admissible(w, r) && kind != Initial && PolicyRuns(w, r, kind)
    requires var es := PassOf(w, threshold, r, kind).entries;
      p < |es| && (kind == Promotion ==> es[p].value > threshold)
    ensures Fits(PassOf(w, threshold, r, kind), ViewOf(w, threshold, r, kind))
    ensures OrdersOfKind(w, threshold, r, kind) ==
      Issued(PassOf(w, threshold, r, kind), ViewOf(w, threshold, r, kind))
  {
    hide Scan, Issued, NonNegative, Orderly, AfterDemotion, Collect;
    ViewsFit(w, threshold, r);
  }

  lemma StatusBudget(c: Pass, t: Tier, status: nat -> (real, real))
    requires AppendOnly(t) && Fits(c, ReadStatus(t, status))
    requires forall i: nat :: i < MAX_OBJECTS ==> status(i).0 <= 1.0 && status(i).1 <= 1.0
    ensures WithinBudget(c, ReadStatus(t, status), Issued(c, ReadStatus(t, status)))
  {
    hide Scan, Issued, WithinBudget;
    PassBudget(c, ReadStatus(t, status));
  }

  /** In every round, the demotions and the promotions it appends to the history
      move at most two chunks each, all but the last of each at most one, and the
      demotions are at most eleven, when no page fraction exceeds one. */
  lemma RoundBudget(w: World, threshold: real, r: Readings)
    requires Good(w) && Admissible(w, r)
    requires forall i: nat :: i < MAX_OBJECTS ==>
      && r.demotionStatus(i).0 <= 1.0 && r.demotionStatus(i).1 <= 1.0
      && r.promotionStatus(i).0 <= 1.0 && r.promotionStatus(i).1 <= 1.0
    ensures Active(w) <= |r.sorted|
    ensures WithinBudget(DemotionPass(threshold, r, Active(w)), DemotionView(w, r), RoundDemotions(w, threshold, r))
    ensures WithinBudget(
      PromotionPass(threshold, r, Active(w)), PromotionView(w, threshold, r), RoundPromotions(w, threshold, r))
    ensures |RoundDemotions(w, threshold, r)| <= 11
  {
    hide Scan, Orderly, NonNegative, AfterDemotion, Collect, SortOf, Issued, Share, WithinBudget;
    ViewsFit(w, threshold, r);
    SortedReady(w, r);
    var s := Sorted(w, r);
    DemotionGood(s, threshold, r, Active(w), if Active(w) == 0 then r.end else r.promotionClock(0));
    StatusBudget(DemotionPass(threshold, r, Active(w)), w.tier, r.demotionStatus);
    StatusBudget(PromotionPass(threshold, r, Active(w)), AfterDemotion(s, threshold, r, Active(w)).tier, r.promotionStatus);
    DemotionCount(DemotionPass(threshold, r, Active(w)), DemotionView(w, r));
    NothingSpent(DemotionPass(threshold, r, Active(w)), DemotionView(w, r));
    NothingSpent(PromotionPass(threshold, r, Active(w)), PromotionView(w, threshold, r));
  }

  lemma NothingSpent(c: Pass, t: Tier)
    ensures WithinBudget(c, t, [])
  {
  }

  lemma KindBudget(w: World, threshold: real, r: Readings, kind: Kind)
    requires Good(w) && Admissible(w, r) && kind != Initial
    requires forall i: nat :: i < MAX_OBJECTS ==>
      && r.demotionStatus(i).0 <= 1.0 && r.demotionStatus(i).1 <= 1.0
      && r.promotionStatus(i).0 <= 1.0 && r.promotionStatus(i).1 <= 1.0
    ensures var t, os := ViewOf(w, threshold, r, kind), OrdersOfKind(w, threshold, r, kind);
      && (forall j :: 0 <= j < |os| ==> os[j].slot < |t.objs|)
      && (os != [] ==> Volume(t, os[..|os| - 1]) <= BUDGET) && Volume(t, os) <= 2.0 * BUDGET
  {
    hide Good, Admissible, Volume, RoundDemotions, RoundPromotions;
    RoundBudget(w, threshold, r);
  }

  lemma NoTraffic(r: Readings)
    ensures Traffic(r, []) == 0.0
  {
  }

  lemma FaithfulPrefix(w: World, orders: seq<Order>, kind: Kind)
    requires Faithful(w, orders, kind) && orders != []
    ensures Faithful(w, orders[..|orders| - 1], kind)
  {
  }

  lemma PromotionsFit(w: World, threshold: real, r: Readings)
    requires Good(w) && Admissible(w, r)
    requires Fits(PassOf(w, threshold, r, Promotion), ViewOf(w, threshold, r, Promotion))
    ensures var os := Issued(PassOf(w, threshold, r, Promotion), ViewOf(w, threshold, r, Promotion));
      forall j :: 0 <= j < |os| ==> os[j].size as real / GB * r.promotionStatus(os[j].slot).1 < r.freeLater
  {
    hide Good, Admissible, ViewOf, Issued;
    var c, t := PassOf(w, threshold, r, Promotion), ViewOf(w, threshold, r, Promotion);
    ViewObject(w, threshold, r, Promotion, 0);
    forall j: nat | j < |Issued(c, t)|
      ensures var o := Issued(c, t)[j]; o.size as real / GB * r.promotionStatus(o.slot).1 < r.freeLater
    {
      OrdersMeaningful(c, t, j);
      ViewObject(w, threshold, r, Promotion, Issued(c, t)[j].slot);
    }
  }

  /** The same on the readings: in every round, whose page fractions do not exceed
      one, the orders of each kind move at most two chunks, all but the last at
      most one, and each promotion less than the free DRAM read. */
  lemma RoundTraffic(w: World, threshold: real, r: Readings, kind: Kind)
    requires Good(w) && Admissible(w, r) && kind != Initial
    requires forall i: nat :: i < MAX_OBJECTS ==>
      && r.demotionStatus(i).0 <= 1.0 && r.demotionStatus(i).1 <= 1.0
      && r.promotionStatus(i).0 <= 1.0 && r.promotionStatus(i).1 <= 1.0
    ensures var os := OrdersOfKind(w, threshold, r, kind);
      && (os != [] ==> Traffic(r, os[..|os| - 1]) <= BUDGET)
      && Traffic(r, os) <= 2.0 * BUDGET
      && (kind == Promotion ==> forall j :: 0 <= j < |os| ==>
            os[j].size as real / GB * r.promotionStatus(os[j].slot).1 < r.freeLater)
  {
    hide Good, Admissible, ViewOf, Issued, Volume, PassOf, OrdersOfKind, Fits, Faithful, Traffic;
    var os := OrdersOfKind(w, threshold, r, kind);
    KindBudget(w, threshold, r, kind);
    NoTraffic(r);
    if os != [] {
      assert SlotOrdered(os, os[0].slot);
      OrdersAreIssued(w, threshold, r, kind, os[0].slot);
      IssuedFaithful(w, threshold, r, kind);
      FaithfulPrefix(w, os, kind);
      TrafficVolume(w, threshold, r, kind, os);
      TrafficVolume(w, threshold, r, kind, os[..|os| - 1]);
      if kind == Promotion {
        PromotionsFit(w, threshold, r);
      }
    }
  }
}
