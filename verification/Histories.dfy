/** What the registry, the bind orders and the maxima say about a whole run. */
module Histories {
  import opened Tiers
  import opened MetricsUpdate
  import opened Policy
  import opened Trace
  import opened Rounds
  import opened Runs

  // ---- unmapping any range ----

  /** After every run, unmapping any range, whether it was mapped like that or not:
      a slot dies exactly when it is the lowest live one with the address and size
      of a piece of the range, and nothing else in the system changes. */
  lemma RunUnmapExact(w: World, acts: seq<Action>, start: nat, size: nat)
    requires AtStart(w) && Possible(w, acts)
    ensures var all := acts + [Unmap(start, size)];
      && Possible(w, all)
      && (var u, v, ps := Exec(w, acts), Exec(w, all), Chunks(start, size);
          && v == u.(tier := u.tier.(alloc := v.tier.alloc)) && |v.tier.alloc| == |u.tier.alloc|
          && (forall i: nat :: i < |u.tier.alloc| ==>
                v.tier.alloc[i] == (u.tier.alloc[i] && !Released(u.tier, ps, |ps|, i)))
          && ((forall i: nat, j :: 0 <= j < |ps| ==> !Records(u.tier, ps[j], i)) ==> v == u))
  {
    hide Paced, Alternating, Spaced, CoolsDown, Tallied, Orderly, NonNegative, Chunks, Exec, Possible;
    hide ReleaseAll, Released, Records;
    ExecSnoc(w, acts, Unmap(start, size));
    UnmapExact(Exec(w, acts).tier, start, size);
  }

  // ---- bind orders ----

  /** The orders of initial placement, in the order they were given. */
  ghost function Placements(orders: seq<Order>): seq<Order> {
    if orders == [] then []
    else
      var last := orders[|orders| - 1];
      Placements(orders[..|orders| - 1]) + (if last.kind == Initial then [last] else [])
  }

  /** The order names the address and the size on record for its slot, and the
      node that its kind calls for. */
  ghost predicate Addressed(t: Tier, o: Order) {
    && o.slot < t.total <= |t.objs| && o.start == t.objs[o.slot].start && o.size == t.objs[o.slot].size
    && o.node == (if o.kind == Demotion then NODE_0_PMEM else NODE_0_DRAM) && o.live
  }

  /** Every order is addressed, and the initial placements are one for each slot
      handed out, in slot order. */
  ghost predicate Accounted(t: Tier) {
    && (forall j :: 0 <= j < |t.orders| ==> Addressed(t, t.orders[j]))
    && |Placements(t.orders)| == t.total
    && (forall k :: 0 <= k < t.total ==> Placements(t.orders)[k].slot == k)
  }

  lemma {:induction false} PlacementsConcat(a: seq<Order>, b: seq<Order>)
    ensures Placements(a + b) == Placements(a) + Placements(b)
  {
    if b == [] {
      assert a + b == a;
    } else {
      PlacementsConcat(a, b[..|b| - 1]);
      assert (a + b)[..|a + b| - 1] == a + b[..|b| - 1];
    }
  }

  lemma {:induction false} PlacementsNone(orders: seq<Order>)
    requires forall j :: 0 <= j < |orders| ==> orders[j].kind != Initial
    ensures Placements(orders) == []
  {
    if orders != [] {
      PlacementsNone(orders[..|orders| - 1]);
    }
  }

  lemma {:induction false} PlacementsAll(orders: seq<Order>)
    requires forall j :: 0 <= j < |orders| ==> orders[j].kind == Initial
    ensures Placements(orders) == orders
  {
    if orders != [] {
      PlacementsAll(orders[..|orders| - 1]);
    }
  }

  lemma AddressedLater(w: World, a: Action, o: Order)
    requires Good(w) && Enabled(w, a) && Addressed(w.tier, o)
    ensures Addressed(Step(w, a).tier, o)
  {
    hide Good, Enabled, Step;
    StepPermanent(w, a, o.slot);
  }

  lemma MapAccounted(w: World, a: Action)
    requires Good(w) && Enabled(w, a) && a.Map? && Accounted(w.tier)
    ensures Accounted(Step(w, a).tier)
  {
    hide Orderly, NonNegative, Chunks, AppendAll, Placements;
    var ps, t, u := Chunks(a.start, a.size), w.tier, Step(w, a).tier;
    AppendOrders(t, a.pid, ps, |ps|, a.size > CHUNK_SIZE, a.clock);
    var added := u.orders[|t.orders|..];
    assert u.orders == t.orders + added;
    PlacementsConcat(t.orders, added);
    forall j | 0 <= j < |added|
      ensures added[j].kind == Initial && added[j].slot == t.total + j
    {
      assert added[j] == u.orders[|t.orders| + j];
    }
    PlacementsAll(added);
    forall j | 0 <= j < |u.orders|
      ensures Addressed(u, u.orders[j])
    {
      if j < |t.orders| {
        assert u.orders[j] == u.orders[..|t.orders|][j];
        AddressedLater(w, a, u.orders[j]);
      } else {
        AppendRecords(t, a.pid, ps, |ps|, a.size > CHUNK_SIZE, a.clock, j - |t.orders|);
        assert u.orders[j] == u.orders[|t.orders| + (j - |t.orders|)];
      }
    }
  }

  lemma QuietAccounted(t: Tier, u: Tier)
    requires Accounted(t) && u.orders == t.orders && u.total == t.total <= |u.objs| == |t.objs|
    requires forall i :: 0 <= i < |t.objs| ==> SameRecord(u.objs[i], t.objs[i])
    ensures Accounted(u)
  {
    hide Placements;
  }

  /** The orders of a pass are addressed. */
  lemma IssuedAddressed(w: World, threshold: real, r: Readings, kind: Kind, j: nat)
    requires Good(w) && Admissible(w, r) && kind != Initial && j < |OrdersOfKind(w, threshold, r, kind)|
    ensures Addressed(w.tier, OrdersOfKind(w, threshold, r, kind)[j])
  {
    hide Orderly, NonNegative, Issued, ViewOf, PassOf, OrdersOfKind, Admissible;
    var os := OrdersOfKind(w, threshold, r, kind);
    assert SlotOrdered(os, os[j].slot);
    OrdersAreIssued(w, threshold, r, kind, os[j].slot);
    PassKind(w, threshold, r, kind);
    OrdersMeaningful(PassOf(w, threshold, r, kind), ViewOf(w, threshold, r, kind), j);
    ViewObject(w, threshold, r, kind, 0);
    ViewObject(w, threshold, r, kind, os[j].slot);
  }

  lemma PassKind(w: World, threshold: real, r: Readings, kind: Kind)
    requires Good(w) && Admissible(w, r) && kind != Initial
    ensures PassOf(w, threshold, r, kind).kind == kind
  {
    hide Good, Admissible;
  }

  lemma RoundAccounted(w: World, threshold: real, r: Readings)
    requires Good(w) && Admissible(w, r) && Accounted(w.tier)
    ensures Accounted(Step(w, Act(threshold, r)).tier)
  {
    hide Good, Admissible, Step, RoundDemotions, RoundPromotions, Placements, Addressed;
    RoundIssues(w, threshold, r);
    RoundQuiet(w, threshold, r, 0);
    var a := Act(threshold, r);
    var u, ds, ps := Step(w, a).tier, RoundDemotions(w, threshold, r), RoundPromotions(w, threshold, r);
    assert u.orders == w.tier.orders + (ds + ps);
    PlacementsConcat(w.tier.orders, ds + ps);
    PlacementsNone(ds + ps);
    forall j | 0 <= j < |u.orders|
      ensures Addressed(u, u.orders[j])
    {
      var n := |w.tier.orders|;
      if n <= j < n + |ds| {
        IssuedAddressed(w, threshold, r, Demotion, j - n);
      } else if n + |ds| <= j {
        IssuedAddressed(w, threshold, r, Promotion, j - n - |ds|);
      }
      AddressedLater(w, a, u.orders[j]);
    }
  }

  lemma StepAccounted(w: World, a: Action)
    requires Good(w) && Enabled(w, a) && Accounted(w.tier)
    ensures Accounted(Step(w, a).tier)
  {
    hide Orderly, NonNegative, Admissible, Accounted, Round, AppendAll, ReleaseAll, Updated;
    match a
    case Map(_, _, _, _, _) => MapAccounted(w, a);
    case Unmap(_, _) => QuietAccounted(w.tier, Step(w, a).tier);
    case Window(_) => QuietAccounted(w.tier, Step(w, a).tier);
    case Act(threshold, r) => RoundAccounted(w, threshold, r);
  }

  /** Over every run, every bind order in the history names the address and size on
      record for its slot and the node of its kind, was given for a live slot, and
      each slot handed out has exactly one initial placement, in slot order. */
  lemma {:induction false} RunAccounted(w: World, acts: seq<Action>)
    requires AtStart(w) && Possible(w, acts)
    ensures Accounted(Exec(w, acts).tier)
  {
    hide Good, Paced, Alternating, Spaced, CoolsDown, Tallied, Enabled, Step, Addressed;
    if acts != [] {
      RunAccounted(w, acts[..|acts| - 1]);
      StepAccounted(Exec(w, acts[..|acts| - 1]), acts[|acts| - 1]);
    }
  }

  // ---- the maxima ----

  /** Some live slot reads at least `v`. */
  ghost predicate LiveReads(t: Tier, g: Gauge, v: real)
    requires t.total <= |t.objs| == |t.alloc|
  {
    exists i :: 0 <= i < t.total && t.alloc[i] && v <= Reading(t.objs[i].metrics, g)
  }

  /** Action `k` of the run is a round that found a live slot reading at least `v`. */
  ghost predicate ReadBy(w: World, acts: seq<Action>, k: nat, g: Gauge, v: real)
    requires AtStart(w) && Possible(w, acts)
  {
    k < |acts| && acts[k].Act? &&
    (PrefixPossible(w, acts, k);
     LiveReads(Exec(w, acts[..k]).tier, g, v))
  }

  ghost predicate EverRead(w: World, acts: seq<Action>, g: Gauge, v: real)
    requires AtStart(w) && Possible(w, acts)
  {
    exists k: nat :: ReadBy(w, acts, k, g, v)
  }

  lemma StepMaxima(w: World, a: Action)
    requires Good(w) && Enabled(w, a)
    ensures Step(w, a).maxima == if a.Act? then Collect(w.tier, w.tier.total, w.maxima).maxima else w.maxima
  {
    hide Orderly, NonNegative, AppendOnly, Collect, Scan, SortOf, Chunks;
    if a.Act? {
      ListKeys(w, a.readings);
    }
  }

  /** What a longer run has read is what the shorter one had, and the last round. */
  lemma ReadMore(w: World, acts: seq<Action>, g: Gauge, v: real)
    requires AtStart(w) && Possible(w, acts) && acts != [] && Possible(w, acts[..|acts| - 1])
    ensures var before, last := acts[..|acts| - 1], acts[|acts| - 1];
      EverRead(w, acts, g, v) <==>
        EverRead(w, before, g, v) || (last.Act? && LiveReads(Exec(w, before).tier, g, v))
  {
    hide Exec, Possible, LiveReads, Orderly, NonNegative, Paced, Alternating, Spaced, CoolsDown, Tallied;
    var before := acts[..|acts| - 1];
    forall k: nat | k < |before|
      ensures ReadBy(w, acts, k, g, v) <==> ReadBy(w, before, k, g, v)
    {
      assert acts[..k] == before[..k];
    }
    assert ReadBy(w, acts, |before|, g, v) <==> acts[|before|].Act? && LiveReads(Exec(w, before).tier, g, v);
  }

  lemma StepReads(w: World, a: Action, g: Gauge, v: real)
    requires Good(w) && Enabled(w, a)
    ensures v <= Top(Step(w, a).maxima, g) <==> v <= Top(w.maxima, g) || (a.Act? && LiveReads(w.tier, g, v))
  {
    hide Orderly, NonNegative, Enabled, Step, Collect;
    StepMaxima(w, a);
    TopReached(w.tier, w.tier.total, w.maxima, g, v);
  }

  /** Over every run the maxima are one, or the largest readings that a round has
      found on a live slot, whichever is larger; they outlive windows and unmappings. */
  lemma {:induction false} RunMaxima(w: World, acts: seq<Action>, g: Gauge, v: real)
    requires AtStart(w) && Possible(w, acts)
    ensures v <= Top(Exec(w, acts).maxima, g) <==> v <= 1.0 || EverRead(w, acts, g, v)
  {
    hide Good, Paced, Alternating, Spaced, CoolsDown, Tallied, Enabled, Step, EverRead, LiveReads;
    if acts != [] {
      var before := acts[..|acts| - 1];
      RunMaxima(w, before, g, v);
      StepReads(Exec(w, before), acts[|acts| - 1], g, v);
      ReadMore(w, acts, g, v);
    } else {
      NothingRead(w, g, v);
    }
  }

  lemma NothingRead(w: World, g: Gauge, v: real)
    requires AtStart(w) && Possible(w, [])
    ensures !EverRead(w, [], g, v)
  {
  }

  /** So the hotness of a slot in a round is scaled, for each metric, by the largest
      of one, what earlier rounds have read, and what this round reads on the live
      slots up to it. */
  lemma RunScale(w: World, acts: seq<Action>, i: nat, g: Gauge, v: real)
    requires AtStart(w) && Possible(w, acts) && i < MAX_OBJECTS
    ensures var u := Exec(w, acts);
      v <= Top(ScaleAt(u.tier, i, u.maxima), g) <==>
        || v <= 1.0
        || EverRead(w, acts, g, v)
        || exists h :: 0 <= h <= i && u.tier.alloc[h] && v <= Reading(u.tier.objs[h].metrics, g)
  {
    hide Paced, Alternating, Spaced, CoolsDown, Tallied, Orderly, NonNegative, Exec, Possible, EverRead, Collect;
    var u := Exec(w, acts);
    RunMaxima(w, acts, g, v);
    TopReached(u.tier, i + 1, u.maxima, g, v);
  }
}
