/** The actuator's loop over the shared registry, updated in place. */
module Actuators {
  import opened Tiers
  import opened Recorder
  import opened Policy
  import opened Rounds
  import opened Runs

  class Actuator {
    const tm: TierManager
    const threshold: real
    var list: array<KeyValue>
    var active: nat
    var maxima: Scale
    var promotionFlag: bool
    var hasDemotion: bool
    var count: int
    ghost var rounds: seq<RoundLog>
    ghost var now: real

    ghost function State(): World
      reads this, list, tm, tm.objs, tm.alloc
    {
      World(tm.Value(), list[..], maxima, hasDemotion, count, rounds, now)
    }

    ghost predicate Sized()
      reads this, tm
    {
      tm.Sized() && tm.total <= MAX_OBJECTS && list.Length == MAX_OBJECTS
    }

    constructor (tm: TierManager, threshold: real)
      requires tm.Sized() && tm.total <= MAX_OBJECTS
      ensures Sized() && this.tm == tm && this.threshold == threshold && fresh(list)
      ensures !hasDemotion && count == 2 && rounds == [] && maxima == Maxima(1.0, 1.0, 1.0)
      ensures forall i :: 0 <= i < MAX_OBJECTS ==> list[i] == KeyValue(0, 0.0, 0.0, 0.0, 0.0)
    {
      this.tm, this.threshold := tm, threshold;
      list := new KeyValue[MAX_OBJECTS](_ => KeyValue(0, 0.0, 0.0, 0.0, 0.0));
      active, maxima, promotionFlag := 0, Maxima(1.0, 1.0, 1.0), false;
      hasDemotion, count, rounds, now := false, 2, [], 0.0;
    }

    /** Writes an entry for every live slot over the front of the list, raising
        the running maxima on the way. */
    method CollectEntries() returns (n: nat)
      requires Sized()
      modifies this`maxima, list
      ensures var c := Collect(tm.Value(), tm.total, old(maxima));
        && n == |c.current| <= MAX_OBJECTS && maxima == c.maxima
        && list[..] == Refreshed(c.current, old(list[..]))
    {
      hide Heat, Raise;
      n := 0;
      ghost var t := tm.Value();
      for i := 0 to tm.total
        invariant tm.Value() == t
        invariant n <= i && n == |Collect(t, i, old(maxima)).current|
        invariant maxima == Collect(t, i, old(maxima)).maxima
        invariant list[..n] == Collect(t, i, old(maxima)).current
        invariant list[n..] == old(list[n..])
      {
        if tm.alloc[i] {
          var x := tm.objs[i].metrics;
          RaiseMaxima(x);
          list[n] := EntryFor(i, x, maxima);
          n := n + 1;
        }
      }
      assert list[..] == list[..n] + list[n..];
    }

    method RaiseMaxima(x: Metrics)
      modifies this`maxima
      ensures maxima == Raise(old(maxima), x)
    {
      if x.loads[4] > maxima.llcm {
        maxima := maxima.(llcm := x.loads[4]);
      }
      if x.tlbMiss[4] > maxima.tlbm {
        maxima := maxima.(tlbm := x.tlbMiss[4]);
      }
      if x.stores > maxima.stores {
        maxima := maxima.(stores := x.stores);
      }
    }

    /** Rebuilds the hotness list and sorts all of it; `sorted` is what the
        library sort returns.  The flag tells whether anything active is hot. */
    method SortObjects(sorted: seq<KeyValue>)
      requires Sized()
      requires SortOf(sorted, Refreshed(Collect(tm.Value(), tm.total, maxima).current, list[..]))
      modifies this`active, this`maxima, this`promotionFlag, list
      ensures var c := Collect(tm.Value(), tm.total, old(maxima));
        active == |c.current| <= MAX_OBJECTS == |sorted| && maxima == c.maxima
      ensures list[..] == sorted
      ensures promotionFlag == AnyHot(sorted, active, threshold)
    {
      hide Collect, SortOf;
      SortKeepsEntries(sorted, Refreshed(Collect(tm.Value(), tm.total, maxima).current, list[..]));
      active := CollectEntries();
      forall i | 0 <= i < list.Length {
        list[i] := sorted[i];
      }
      promotionFlag := false;
      for i := 0 to active
        modifies this`promotionFlag
        invariant promotionFlag == exists j :: 0 <= j < i && sorted[j].value > threshold
      {
        if list[i].value > threshold {
          promotionFlag := true;
        }
      }
    }

    /** Stores the page fractions of every live slot. */
    method ReadAllocationStatus(status: nat -> (real, real))
      requires Sized()
      modifies tm.objs
      ensures tm.Value() == ReadStatus(old(tm.Value()), status)
      ensures forall i :: 0 <= i < MAX_OBJECTS ==>
        tm.objs[i] ==
        (if i < tm.total && tm.alloc[i] then old(tm.objs[i]).(inDram := status(i).0, inPmem := status(i).1)
         else old(tm.objs[i]))
    {
      ghost var t := tm.Value();
      for i := 0 to tm.total
        invariant forall s :: 0 <= s < i ==> tm.objs[s] == ReadStatus(t, status).objs[s]
        invariant forall s :: i <= s < MAX_OBJECTS ==> tm.objs[s] == t.objs[s]
      {
        if tm.alloc[i] {
          tm.objs[i] := tm.objs[i].(inDram := status(i).0, inPmem := status(i).1);
        }
      }
      assert tm.objs[..] == ReadStatus(t, status).objs;
    }

    /** Writes the order to the migration pipe and marks the slot. */
    method Issue(ghost c: Pass, ghost p: nat, kind: Kind, slot: nat, at: real)
      requires Sized() && Fits(c, tm.Value()) && kind == c.kind
      requires p < |c.entries| && slot == c.entries[p].key && at == c.clock(p)
      modifies tm`orders, tm.objs
      ensures tm.Value() == Move(c, old(tm.Value()), p)
    {
      ghost var t := tm.Value();
      var node := if kind == Promotion then NODE_0_DRAM else NODE_0_PMEM;
      tm.orders := tm.orders + [Order(kind, slot, tm.objs[slot].start, tm.objs[slot].size, node, at, tm.alloc[slot])];
      tm.objs[slot] := tm.objs[slot].(lastDecision := if kind == Promotion then ToDram else ToPmem);
      if kind == Promotion {
        tm.objs[slot] := tm.objs[slot].(birth := at);
      }
      assert tm.objs[..] == t.objs[slot := Decided(c, t.objs[slot], p)];
    }

    /** From the hottest entry down, orders eligible objects into DRAM until more
        than a chunk has been ordered. */
    method PolicyPromotion(free: real, clock: nat -> real)
      requires Sized() && active <= MAX_OBJECTS
      requires forall i :: 0 <= i < MAX_OBJECTS ==> list[i].key < MAX_OBJECTS
      modifies tm`orders, tm.objs
      ensures tm.Value() == Scan(Pass(Promotion, list[..active], threshold, free, clock), old(tm.Value()), 0, BUDGET).tier
    {
      hide Scan, Share, Move;
      ghost var c := Pass(Promotion, list[..active], threshold, free, clock);
      ghost var result := Scan(c, tm.Value(), 0, BUDGET).tier;
      var budget := CHUNK_SIZE as real / GB;
      for i := 0 to active
        invariant Fits(c, tm.Value())
        invariant Scan(c, tm.Value(), i, budget).tier == result
      {
        ScanUnfold(c, tm.Value(), i, budget);
        var slot := list[i].key;
        var share := Share(Promotion, tm.objs[slot]);
        if share > 0.0 && share < free && tm.objs[slot].lastDecision != ToDram {
          if list[i].value > threshold && tm.alloc[slot] {
            Issue(c, i, Promotion, slot, clock(i));
            budget := budget - share;
            if budget < 0.0 {
              return;
            }
          }
        }
      }
      ScanUnfold(c, tm.Value(), active, budget);
    }

    /** From the coldest entry up, orders eligible objects into PMEM until more
        than a chunk has been ordered. */
    method PolicyDemotion(clock: nat -> real)
      requires Sized() && active <= MAX_OBJECTS
      requires forall i :: 0 <= i < MAX_OBJECTS ==> list[i].key < MAX_OBJECTS
      modifies tm`orders, tm.objs, this`hasDemotion
      ensures var out := Scan(Pass(Demotion, Reversed(list[..active]), threshold, 0.0, clock), old(tm.Value()), 0, BUDGET);
        tm.Value() == out.tier && hasDemotion == (out.picked != [])
    {
      hide Scan, Share, Move, Reversed;
      ghost var c := Pass(Demotion, Reversed(list[..active]), threshold, 0.0, clock);
      ghost var result := Scan(c, tm.Value(), 0, BUDGET);
      var budget := CHUNK_SIZE as real / GB;
      hasDemotion := false;
      for i := active downto 0
        invariant Fits(c, tm.Value())
        invariant Scan(c, tm.Value(), active - i, budget).tier == result.tier
        invariant hasDemotion || Scan(c, tm.Value(), active - i, budget).picked != [] <==> result.picked != []
      {
        var p := active - 1 - i;
        ScanUnfold(c, tm.Value(), p, budget);
        var slot := list[i].key;
        var share := Share(Demotion, tm.objs[slot]);
        if share > MIN_SIZE_GB {
          var passed := clock(p) - tm.objs[slot].birth;
          if passed > MIN_LIFETIME_SEC && list[i].value < threshold && tm.objs[slot].lastDecision != ToPmem {
            if tm.alloc[slot] {
              hasDemotion := true;
              Issue(c, p, Demotion, slot, clock(p));
              budget := budget - share;
              if budget < 0.0 {
                return;
              }
            }
          }
        }
      }
      ScanUnfold(c, tm.Value(), active, budget);
    }

    /** The demotion part of a turn, with its cool-down. */
    method ConsiderDemotion(r: Readings)
      requires Sized() && Ready(State(), r, active) && list[..] == r.sorted
      modifies this`hasDemotion, this`count, this`rounds, tm`orders, tm.objs
      ensures State() == AfterDemotion(old(State()), threshold, r, active)
    {
      hide Scan, ReadStatus, Reversed;
      if r.free < LOW_DRAM {
        if !hasDemotion {
          ghost var out := Scan(DemotionPass(threshold, r, active), ReadStatus(tm.Value(), r.demotionStatus), 0, BUDGET);
          ReadAllocationStatus(r.demotionStatus);
          PolicyDemotion(r.demotionClock);
          count := 0;
          rounds := rounds + [RoundLog(true, true, |out.picked|)];
        } else {
          count := count + 1;
          if count >= 2 {
            hasDemotion := false;
          }
          rounds := rounds + [RoundLog(true, false, 0)];
        }
      } else {
        rounds := rounds + [RoundLog(false, false, 0)];
      }
    }

    method ConsiderPromotion(r: Readings)
      requires Sized() && Ready(State(), r, active) && list[..] == r.sorted
      requires promotionFlag == AnyHot(r.sorted, active, threshold)
      modifies tm`orders, tm.objs
      ensures State() == AfterPromotion(old(State()), threshold, r, active)
    {
      hide Scan, ReadStatus;
      if promotionFlag {
        ReadAllocationStatus(r.promotionStatus);
        PolicyPromotion(r.freeLater, r.promotionClock);
      }
    }

    /** One turn of the actuator's loop is one round of the state machine. */
    method Turn(r: Readings)
      requires Sized() && Good(State()) && Admissible(State(), r)
      modifies this, list, tm`orders, tm.objs
      ensures list == old(list) && Sized()
      ensures State() == Step(old(State()), Act(threshold, r))
    {
      hide Good, Admissible, Collect, AfterDemotion, AfterPromotion, Ready;
      ghost var w := State();
      TurnReady(w, r);
      SortObjects(r.sorted);
      ConsiderDemotion(r);
      ConsiderPromotion(r);
      now := r.end;
    }
  }

  /** After the sort, the state is ready for both policies. */
  lemma TurnReady(w: World, r: Readings)
    requires Good(w) && Admissible(w, r)
    ensures var c := Collect(w.tier, w.tier.total, w.maxima);
      && Ready(w, r, |c.current|)
      && Ready(w.(list := r.sorted, maxima := c.maxima), r, |c.current|)
      && SortOf(r.sorted, Refreshed(c.current, w.list))
  {
    ListKeys(w, r);
  }

  /** What start-up builds is where every run begins, whatever the shared memory held. */
  method StartUp(zeroed: Object, threshold: real) returns (a: Actuator)
    ensures fresh(a) && fresh(a.tm) && a.Sized() && a.threshold == threshold
    ensures AtStart(a.State())
  {
    var tm := new TierManager(zeroed);
    a := new Actuator(tm, threshold);
  }
}
