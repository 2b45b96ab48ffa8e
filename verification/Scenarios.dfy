/** Runs from start-up in which the code does not do what its comments and names
    suggest.  Each is possible from every initial state. */
module Scenarios {
  import opened Tiers
  import opened MetricsUpdate
  import opened Policy
  import opened Trace
  import opened Rounds
  import opened Runs

  /** Maps one chunk, at the time of start-up. */
  function MapChunk(w: World, k: nat): Action {
    Map(1, (k + 1) * CHUNK_SIZE, CHUNK_SIZE, (_: nat) => w.now, w.now)
  }

  function Mapped(w: World, n: nat): seq<Action> {
    if n == 0 then [] else Mapped(w, n - 1) + [MapChunk(w, n - 1)]
  }

  /** The state after `n` one-chunk mappings: the first `n` slots are live, and
      nothing has been sampled or decided. */
  ghost predicate Fresh(w: World, v: World, n: nat) {
    && v == w.(tier := v.tier) && |v.tier.objs| == |v.tier.alloc| == MAX_OBJECTS
    && v.tier.total == n <= MAX_OBJECTS
    && (forall i :: 0 <= i < n ==> v.tier.alloc[i] && Unmoved(w, v.tier.objs[i]))
    && (forall i :: 0 <= i < MAX_OBJECTS ==> v.tier.objs[i].metrics == BLANK)
    && (forall i :: 0 <= i < MAX_OBJECTS ==> v.tier.objs[i].lastDecision == Undecided)
  }

  /** A chunk mapped at start-up and never ordered to move. */
  ghost predicate Unmoved(w: World, o: Object) {
    o.size == CHUNK_SIZE && o.birth == w.now && o.lastDecision == Undecided
  }

  lemma MapChunkStep(w: World, v: World, n: nat, k: nat)
    requires Good(v) && Fresh(w, v, n) && n < MAX_OBJECTS
    ensures Enabled(v, MapChunk(w, k))
    ensures var u := Step(v, MapChunk(w, k));
      && Fresh(w, u, n + 1)
      && u.tier.objs[n].start == (k + 1) * CHUNK_SIZE && u.tier.objs[n].size == CHUNK_SIZE
      && (forall i :: 0 <= i < n ==> u.tier.objs[i] == v.tier.objs[i])
  {
    hide Orderly, NonNegative;
    var a := MapChunk(w, k);
    assert |Chunks(a.start, a.size)| == 1;
    AppendAllSlots(v.tier, a.pid, Chunks(a.start, a.size), 1, false, a.clock);
  }

  lemma {:induction false} MappedRun(w: World, n: nat)
    requires AtStart(w) && n <= MAX_OBJECTS
    ensures Possible(w, Mapped(w, n)) && Fresh(w, Exec(w, Mapped(w, n)), n)
  {
    hide Good, Paced, Alternating, Spaced, CoolsDown, Tallied, Enabled, Step, MapChunk;
    if n > 0 {
      MappedRun(w, n - 1);
      MapChunkStep(w, Exec(w, Mapped(w, n - 1)), n - 1, n - 1);
      ExecSnoc(w, Mapped(w, n - 1), MapChunk(w, n - 1));
    }
  }

  /** One sampling window after the mappings. */
  function Sampled(w: World, n: nat, counters: nat -> Metrics): seq<Action> {
    Mapped(w, n) + [Window(counters)]
  }

  lemma SampledRun(w: World, n: nat, counters: nat -> Metrics)
    requires AtStart(w) && n <= MAX_OBJECTS
    requires forall i: nat :: i < MAX_OBJECTS ==> NonNegative(counters(i))
    ensures Possible(w, Sampled(w, n, counters))
    ensures var v := Exec(w, Sampled(w, n, counters));
      && |v.tier.objs| == |v.tier.alloc| == MAX_OBJECTS && v.tier.total == n && v == w.(tier := v.tier)
      && (forall i :: 0 <= i < n ==> v.tier.alloc[i] && Unmoved(w, v.tier.objs[i]))
      && (forall i :: 0 <= i < n ==> v.tier.objs[i].metrics == Updated(BLANK, counters(i)))
  {
    hide Good, Paced, Alternating, Spaced, CoolsDown, Tallied, Possible, Exec, Updated, NonNegative;
    MappedRun(w, n);
    ExecSnoc(w, Mapped(w, n), Window(counters));
  }

  // ---- entries of one round on different scales ----

  /** A window in which three objects have 10, 100 and 50 loads from memory, each
      of 30 cycles. */
  function ThreeReaders(i: nat): Metrics {
    var n := if i == 0 then 10.0 else if i == 1 then 100.0 else if i == 2 then 50.0 else 0.0;
    Metrics([0.0, 0.0, 0.0, 0.0, 30.0 * n], [0.0, 0.0, 0.0, 0.0, n], 0.0, [0.0, 0.0, 0.0, 0.0, n], ZEROS)
  }

  lemma ReaderMetrics(i: nat)
    requires i < 3
    ensures var x := Updated(BLANK, ThreeReaders(i));
      && x.loads[4] == (if i == 0 then 6.7 else if i == 1 then 67.0 else 33.5) && x.tlbMiss[4] == 0.0 && x.stores == 0.0
  {
    hide BlendAll;
    UpdatedAt(BLANK, ThreeReaders(i), 4);
  }

  lemma OneGauge(x: Metrics, m: Scale)
    requires x.tlbMiss[4] == 0.0 && x.stores == 0.0
    ensures Heat(x, m) == x.loads[4] / m.llcm
  {
  }

  lemma CollectNext(t: Tier, n: nat, m: Scale)
    requires n < |t.objs| == |t.alloc| && t.alloc[n]
    ensures var c, d := Collect(t, n, m), Collect(t, n + 1, m);
      && d.maxima == Raise(c.maxima, t.objs[n].metrics)
      && d.current == c.current + [EntryFor(n, t.objs[n].metrics, d.maxima)]
  {
  }

  /** Ten loads visited first outrank fifty loads visited after a hundred: in the
      first round after that window the entry of slot 0 has value 1 and that of
      slot 2 has value 0.5. */
  lemma EarlyVisitOutranks(w: World)
    requires AtStart(w)
    ensures Possible(w, Sampled(w, 3, ThreeReaders))
    ensures var v := Exec(w, Sampled(w, 3, ThreeReaders));
      && v.tier.total == 3 && |v.tier.objs| == |v.tier.alloc| == MAX_OBJECTS
      && (var c := Collect(v.tier, 3, v.maxima).current;
          |c| == 3 && c[0].key == 0 && c[2].key == 2 && c[0].value == 1.0 && c[2].value == 0.5)
  {
    hide Good, Paced, Alternating, Spaced, CoolsDown, Tallied, Exec, Possible, Collect, Updated, Heat, Sampled;
    SampledRun(w, 3, ThreeReaders);
    var v := Exec(w, Sampled(w, 3, ThreeReaders));
    var t, m := v.tier, v.maxima;
    ReaderMetrics(0);
    ReaderMetrics(1);
    ReaderMetrics(2);
    CollectNone(t, m);
    CollectNext(t, 0, m);
    CollectNext(t, 1, m);
    CollectNext(t, 2, m);
    OneGauge(t.objs[0].metrics, Collect(t, 1, m).maxima);
    OneGauge(t.objs[2].metrics, Collect(t, 3, m).maxima);
  }

  lemma CollectNone(t: Tier, m: Scale)
    requires |t.objs| == |t.alloc|
    ensures Collect(t, 0, m) == Collected([], m)
  {
  }

  // ---- the largest hotness ----

  /** A window with two loads from memory that miss the TLB and one new store. */
  function Busy(i: nat): Metrics {
    Metrics([0.0, 0.0, 0.0, 0.0, 60.0], [0.0, 0.0, 0.0, 0.0, 2.0], 1.0, ZEROS, [0.0, 0.0, 0.0, 0.0, 2.0])
  }

  /** In the first round after such a window, the hotness of the object is 3. */
  lemma HotnessOfThree(w: World)
    requires AtStart(w)
    ensures Possible(w, Sampled(w, 1, Busy))
    ensures var v := Exec(w, Sampled(w, 1, Busy));
      && v.tier.total == 1 && |v.tier.objs| == |v.tier.alloc| == MAX_OBJECTS
      && (var c := Collect(v.tier, 1, v.maxima).current; |c| == 1 && c[0].key == 0 && c[0].value == 3.0)
  {
    hide Good, Paced, Alternating, Spaced, CoolsDown, Tallied, Exec, Possible, Collect, Updated, Heat, Sampled;
    SampledRun(w, 1, Busy);
    var v := Exec(w, Sampled(w, 1, Busy));
    UpdatedAt(BLANK, Busy(0), 4);
    UpdatedStores(BLANK, Busy(0));
    UpdatedNonNegative(BLANK, Busy(0));
    CollectNone(v.tier, v.maxima);
    CollectNext(v.tier, 0, v.maxima);
    HeatTop(v.tier.objs[0].metrics, v.maxima);
  }

  lemma UpdatedStores(m: Metrics, c: Metrics)
    ensures Updated(m, c).stores == m.stores + c.stores
  {
  }

  // ---- a live object that the policies do not see ----

  /** What a round reads when DRAM is not low, at the time of start-up. */
  function CalmReadings(w: World, sorted: seq<KeyValue>): Readings {
    Readings(sorted, LOW_DRAM, (_: nat) => (0.0, 0.0), (_: nat) => w.now,
             LOW_DRAM, (_: nat) => (0.0, 0.0), (_: nat) => w.now, w.now)
  }

  /** The entries of two objects that were never sampled. */
  lemma TwoBlank(t: Tier, m: Scale)
    requires |t.objs| == |t.alloc| >= 2 && t.alloc[0] && t.alloc[1]
    requires t.objs[0].metrics == BLANK && t.objs[1].metrics == BLANK
    ensures var c := Collect(t, 2, m);
      && c.maxima == m && |c.current| == 2
      && c.current[0].key == 0 && c.current[1].key == 1 && c.current[0].value == 0.0 && c.current[1].value == 0.0
  {
    hide Collect, Heat;
    CollectNone(t, m);
    CollectNext(t, 0, m);
    CollectNext(t, 1, m);
    BlankHeat(m);
  }

  /** One way the sort may arrange two entries, the second of them cold, and the
      zeroed leftovers. */
  lemma LastPlace(current: seq<KeyValue>, list: seq<KeyValue>)
    requires |current| == 2 && |list| == MAX_OBJECTS
    requires current[0].value >= 0.0 && current[1].value == 0.0 && forall i :: 0 <= i < |list| ==> list[i].value == 0.0
    ensures SortOf([current[0]] + list[2..] + [current[1]], Refreshed(current, list))
  {
    assert current == [current[0]] + [current[1]];
    var rest := list[2..];
    assert Refreshed(current, list) == [current[0]] + [current[1]] + rest;
  }

  /** In the very first round, with slots 0 and 1 mapped and nothing sampled yet,
      the zeroed leftovers tie with slot 1, and a permitted sort leaves no entry
      of slot 1 in the active part of the list, live though it is. */
  lemma FirstRoundHidesSlot(w: World) returns (acts: seq<Action>)
    requires AtStart(w)
    ensures |acts| == 3 && acts[0].Map? && acts[1].Map? && acts[2].Act?
    ensures Possible(w, acts) && Possible(w, acts[..2])
    ensures var v := Exec(w, acts);
      && v.tier.total == 2 && |v.tier.alloc| == MAX_OBJECTS && v.tier.alloc[0] && v.tier.alloc[1]
      && Active(Exec(w, acts[..2])) == 2
      && |v.list| == MAX_OBJECTS && v.list[0].key == 0 && v.list[1].key == 0
  {
    hide Paced, Alternating, Spaced, CoolsDown, Tallied, Exec, Possible;
    hide Collect, SortOf, Orderly, NonNegative, AppendOnly;
    var maps := Mapped(w, 2);
    assert Mapped(w, 1) == [MapChunk(w, 0)];
    assert maps == [MapChunk(w, 0), MapChunk(w, 1)];
    MappedRun(w, 2);
    var v := Exec(w, maps);
    TwoBlank(v.tier, v.maxima);
    var c := Collect(v.tier, 2, v.maxima).current;
    LastPlace(c, v.list);
    var r := CalmReadings(w, [c[0]] + v.list[2..] + [c[1]]);
    assert Admissible(v, r);
    ExecSnoc(w, maps, Act(1.0, r));
    acts := maps + [Act(1.0, r)];
    assert acts[..2] == maps;
    RoundQuiet(v, 1.0, r, 0);
    RoundLists(v, 1.0, r);
  }

  lemma RoundLists(w: World, threshold: real, r: Readings)
    requires Good(w) && Admissible(w, r)
    ensures Step(w, Act(threshold, r)).list == r.sorted && |r.sorted| == MAX_OBJECTS
  {
    hide Scan, Orderly, NonNegative, Collect, SortOf;
    ListKeys(w, r);
  }

  // ---- a mapping that is recorded twice ----

  lemma StartFresh(w: World)
    requires AtStart(w)
    ensures Possible(w, []) && Fresh(w, Exec(w, []), 0)
  {
  }

  lemma UnmapFirst(v: World)
    requires Good(v) && Records(v.tier, Piece(CHUNK_SIZE, CHUNK_SIZE), 0)
    ensures var t := Step(v, Unmap(CHUNK_SIZE, CHUNK_SIZE)).tier;
      t.total == v.tier.total && t.alloc == v.tier.alloc[0 := false]
  {
    hide Orderly, NonNegative, ReleaseAll, Records;
    UnmapExact(v.tier, CHUNK_SIZE, CHUNK_SIZE);
    var ps := Chunks(CHUNK_SIZE, CHUNK_SIZE);
    assert ps == [Piece(CHUNK_SIZE, CHUNK_SIZE)];
    assert LowestRecord(v.tier, ps[0], 0);
  }

  /** A range mapped again over itself takes a second slot; unmapping it then
      clears the first slot and leaves the second one live. */
  lemma RemappedChunk(w: World) returns (acts: seq<Action>)
    requires AtStart(w)
    ensures acts == [MapChunk(w, 0), MapChunk(w, 0), Unmap(CHUNK_SIZE, CHUNK_SIZE)] && Possible(w, acts)
    ensures var t := Exec(w, acts).tier;
      t.total == 2 && |t.alloc| == MAX_OBJECTS && !t.alloc[0] && t.alloc[1]
  {
    hide Paced, Alternating, Spaced, CoolsDown, Tallied, Exec, Possible;
    hide Orderly, NonNegative, AppendOnly, Step, MapChunk;
    var a := MapChunk(w, 0);
    StartFresh(w);
    MapChunkStep(w, Exec(w, []), 0, 0);
    ExecSnoc(w, [], a);
    assert [] + [a] == [a];
    MapChunkStep(w, Exec(w, [a]), 1, 0);
    ExecSnoc(w, [a], a);
    assert [a] + [a] == [a, a];
    var v := Exec(w, [a, a]);
    var unmap := Unmap(CHUNK_SIZE, CHUNK_SIZE);
    ExecSnoc(w, [a, a], unmap);
    acts := [a, a, unmap];
    assert [a, a] + [unmap] == acts;
    UnmapFirst(v);
  }

  // ---- the hottest object is demoted and a cold one is not ----

  /** A window in which slot 0 is busy and nothing else happens. */
  function OneBusy(i: nat): Metrics {
    if i == 0 then Busy(0) else BLANK
  }

  lemma UpdatedBlank()
    ensures Updated(BLANK, BLANK) == BLANK
  {
    var u := Updated(BLANK, BLANK);
    assert u.latency == ZEROS && u.loads == ZEROS && u.tlbHit == ZEROS && u.tlbMiss == ZEROS;
  }

  /** What a round reads ten seconds after start-up when DRAM is low; `dram(i)` is
      the fraction of slot i in DRAM, and nothing is in PMEM. */
  function LowReadings(w: World, sorted: seq<KeyValue>, dram: nat -> real): Readings {
    Readings(sorted, 0.0, (i: nat) => (dram(i), 0.0), (_: nat) => w.now + 10.0,
             0.0, (i: nat) => (dram(i), 0.0), (_: nat) => w.now + 10.0, w.now + 10.0)
  }

  /** Slot 0 at hotness 3, slot 1 at hotness 0, and the entries that say so. */
  lemma BusyAndIdle(v: World)
    requires Good(v) && v.maxima == Maxima(1.0, 1.0, 1.0) && v.tier.total == 2 && v.tier.alloc[0] && v.tier.alloc[1]
    requires v.tier.objs[0].metrics == Updated(BLANK, Busy(0)) && v.tier.objs[1].metrics == Updated(BLANK, BLANK)
    ensures Hotness(v, 0) == 3.0 && Hotness(v, 1) == 0.0
    ensures var c := Collect(v.tier, 2, v.maxima).current;
      |c| == 2 && c[0].key == 0 && c[1].key == 1 && c[0].value == 3.0 && c[1].value == 0.0
  {
    hide Collect, Updated, Heat, Orderly, NonNegative;
    UpdatedAt(BLANK, Busy(0), 4);
    UpdatedStores(BLANK, Busy(0));
    BusyNonNegative();
    UpdatedBlank();
    CollectNone(v.tier, v.maxima);
    CollectNext(v.tier, 0, v.maxima);
    CollectNext(v.tier, 1, v.maxima);
    HeatTop(v.tier.objs[0].metrics, v.maxima);
    BlankHeat(Collect(v.tier, 2, v.maxima).maxima);
  }

  lemma BusyNonNegative()
    ensures NonNegative(BLANK) && NonNegative(Busy(0)) && NonNegative(Updated(BLANK, Busy(0)))
  {
    hide Updated;
    UpdatedNonNegative(BLANK, Busy(0));
  }

  /** After one window, a permitted sort has the zeroed leftover of slot 0 in the
      active part in place of slot 1.  The low-DRAM round then demotes slot 0, at
      hotness 3, and nothing else, although it is slot 1, at hotness 0, that meets
      every condition of the policy. */
  lemma HottestDemoted(w: World) returns (r: Readings)
    requires AtStart(w)
    ensures Possible(w, Sampled(w, 2, OneBusy))
    ensures var v := Exec(w, Sampled(w, 2, OneBusy));
      && Admissible(v, r) && v.tier.total == 2 && v.tier.alloc[0] && v.tier.alloc[1]
      && Hotness(v, 0) == 3.0 && Hotness(v, 1) == 0.0
      && Deserving(v, 1.0, r, Demotion, 1)
      && |RoundDemotions(v, 1.0, r)| == 1 && RoundDemotions(v, 1.0, r)[0].slot == 0
  {
    hide Paced, Alternating, Spaced, CoolsDown, Tallied, Exec, Possible, Collect, SortOf, Orderly, AppendOnly;
    hide NonNegative, Updated, Heat, Issued, Scan, Sampled, Busy;
    BusyNonNegative();
    SampledRun(w, 2, OneBusy);
    var v := Exec(w, Sampled(w, 2, OneBusy));
    BusyAndIdle(v);
    var c := Collect(v.tier, 2, v.maxima).current;
    LastPlace(c, v.list);
    r := LowReadings(w, [c[0]] + v.list[2..] + [c[1]], (_: nat) => 1.0);
    assert Admissible(v, r);
    ViewsFit(v, 1.0, r);
    var pass, t := DemotionPass(1.0, r, 2), DemotionView(v, r);
    assert r.sorted[..2] == [c[0], v.list[2]];
    assert pass.entries[0] == v.list[2] && pass.entries[1] == c[0];
    SinglePick(pass, t, 0);
  }

  // ---- the cool-down ----

  /** Two chunks, the second never ordered to move, nothing sampled, and a list
      without heat. */
  ghost predicate Waiting(w: World, v: World) {
    && Good(v) && Paced(v) && v.now <= w.now + 10.0 && v.tier.total == 2 && v.tier.alloc[0] && v.tier.alloc[1]
    && (forall i :: 0 <= i < 2 ==>
          v.tier.objs[i].size == CHUNK_SIZE && v.tier.objs[i].birth == w.now && v.tier.objs[i].metrics == BLANK)
    && v.tier.objs[1].lastDecision == Undecided
    && (forall i :: 0 <= i < |v.list| ==> v.list[i].value == 0.0)
  }

  /** A low-DRAM round in which only slot `s` has pages in DRAM, and the sort
      leaves the list as it is. */
  ghost function LowRound(w: World, v: World, s: nat): Readings
    requires Waiting(w, v)
  {
    LowReadings(w, Refreshed(Collect(v.tier, 2, v.maxima).current, v.list), (i: nat) => if i == s then 1.0 else 0.0)
  }

  lemma LowRoundReady(w: World, v: World, s: nat)
    requires Waiting(w, v) && s < 2
    ensures var r := LowRound(w, v, s);
      && Admissible(v, r) && Active(v) == 2 && |r.sorted| == MAX_OBJECTS && !AnyHot(r.sorted, 2, 1.0)
      && (forall i :: 0 <= i < MAX_OBJECTS ==> r.sorted[i].value == 0.0)
      && r.sorted[0].key == 0 && r.sorted[1].key == 1
  {
    hide Collect, Orderly, NonNegative, Paced;
    TwoBlank(v.tier, v.maxima);
  }

  /** A round without heat promotes nothing; its registry is what the demotion
      pass leaves, if that runs. */
  lemma CalmRound(v: World, threshold: real, r: Readings)
    requires Good(v) && Admissible(v, r) && Active(v) <= |r.sorted| && !AnyHot(r.sorted, Active(v), threshold)
    requires Fits(DemotionPass(threshold, r, Active(v)), DemotionView(v, r))
    ensures var u := Step(v, Act(threshold, r));
      && u.now == r.end && u.list == r.sorted
      && (v.hasDemotion ==> u.tier == v.tier)
      && (!v.hasDemotion && r.free < LOW_DRAM ==>
            u.tier == Scan(DemotionPass(threshold, r, Active(v)), DemotionView(v, r), 0, BUDGET).tier)
  {
    hide Collect, Orderly, NonNegative, AppendOnly, SortOf, Scan;
    ListKeys(v, r);
  }

  /** While the cool-down lasts, a low-DRAM round orders nothing. */
  lemma QuietRound(w: World, v: World, s: nat)
    requires Waiting(w, v) && s < 2 && v.hasDemotion
    ensures var r := LowRound(w, v, s);
      && Admissible(v, r) && RoundDemotions(v, 1.0, r) == [] && Waiting(w, Step(v, Act(1.0, r)))
  {
    hide Collect, Admissible, Scan, Issued, Good, Paced;
    LowRoundReady(w, v, s);
    var r := LowRound(w, v, s);
    ViewsFit(v, 1.0, r);
    CalmRound(v, 1.0, r);
    RoundKeeps(v, 1.0, r);
  }

  /** Otherwise it orders the slot that is in DRAM, if that was not demoted yet. */
  lemma DemotingRound(w: World, v: World, s: nat)
    requires Waiting(w, v) && s < 2 && !v.hasDemotion && v.tier.objs[s].lastDecision == Undecided
    ensures var r := LowRound(w, v, s);
      && Admissible(v, r)
      && |RoundDemotions(v, 1.0, r)| == 1 && RoundDemotions(v, 1.0, r)[0].slot == s
      && (s == 0 ==> Waiting(w, Step(v, Act(1.0, r))))
  {
    hide Collect, Admissible, Scan, Issued, Good, Paced, AnyHot;
    LowRoundReady(w, v, s);
    var r := LowRound(w, v, s);
    ViewsFit(v, 1.0, r);
    var pass, t := DemotionPass(1.0, r, 2), DemotionView(v, r);
    assert pass.entries[0] == r.sorted[1] && pass.entries[1] == r.sorted[0];
    ShareOfChunk(t.objs[0]);
    ShareOfChunk(t.objs[1]);
    SinglePick(pass, t, 1 - s);
    CalmRound(v, 1.0, r);
    RoundKeeps(v, 1.0, r);
  }

  lemma ShareOfChunk(o: Object)
    requires o.size == CHUNK_SIZE
    ensures o.inDram == 1.0 ==> Share(Demotion, o) > MIN_SIZE_GB
    ensures o.inDram == 0.0 ==> Share(Demotion, o) == 0.0
  {
  }

  lemma WaitingStart(w: World)
    requires AtStart(w)
    ensures Possible(w, Mapped(w, 2)) && Waiting(w, Exec(w, Mapped(w, 2)))
    ensures var v := Exec(w, Mapped(w, 2)); !v.hasDemotion && v.tier.objs[0].lastDecision == Undecided
  {
    hide Good, Paced, Exec, Possible, Mapped;
    MappedRun(w, 2);
  }

  /** One more low-DRAM round. */
  lemma NextRound(w: World, acts: seq<Action>, s: nat) returns (next: seq<Action>)
    requires AtStart(w) && Possible(w, acts) && Waiting(w, Exec(w, acts)) && s < 2
    ensures var v := Exec(w, acts);
      var r := LowRound(w, v, s);
      && Admissible(v, r) && next == acts + [Act(1.0, r)] && IsLow(Act(1.0, r))
      && Possible(w, next) && Exec(w, next) == Step(v, Act(1.0, r))
      && DemotionsAt(w, next, |acts|) == RoundDemotions(v, 1.0, r)
  {
    hide Good, Paced, Alternating, Spaced, CoolsDown, Tallied, Exec, Possible, Step, RoundDemotions, Admissible;
    LowRoundReady(w, Exec(w, acts), s);
    var a := Act(1.0, LowRound(w, Exec(w, acts), s));
    ExecSnoc(w, acts, a);
    next := acts + [a];
    assert next[..|acts|] == acts;
  }

  lemma SameDemotions(w: World, acts: seq<Action>, next: seq<Action>, k: nat)
    requires AtStart(w) && Possible(w, acts) && Possible(w, next) && acts <= next && k < |acts|
    ensures DemotionsAt(w, next, k) == DemotionsAt(w, acts, k)
  {
    hide Good, Paced, Exec, Possible, RoundDemotions;
    assert next[..k] == acts[..k];
  }

  /** Four low-DRAM rounds in a row: a demotion of slot 0, two rounds that order
      nothing, and a demotion of slot 1. */
  lemma CoolDownRun(w: World) returns (acts: seq<Action>)
    requires AtStart(w)
    ensures |acts| == 6 && (forall k :: 2 <= k < 6 ==> IsLow(acts[k])) && Possible(w, acts)
    ensures |DemotionsAt(w, acts, 2)| == 1 && DemotionsAt(w, acts, 2)[0].slot == 0
    ensures DemotionsAt(w, acts, 3) == [] && DemotionsAt(w, acts, 4) == []
    ensures |DemotionsAt(w, acts, 5)| == 1 && DemotionsAt(w, acts, 5)[0].slot == 1
  {
    hide Good, Paced, Alternating, Spaced, CoolsDown, Tallied, Exec, Possible, Step, RoundDemotions, Admissible;
    hide LowRound, DemotionsAt, Waiting, IsLow;
    var a0 := Mapped(w, 2);
    assert Mapped(w, 1) == [MapChunk(w, 0)];
    assert |a0| == 2;
    WaitingStart(w);
    var v0 := Exec(w, a0);
    DemotingRound(w, v0, 0);
    CoolStep(v0, 1.0, LowRound(w, v0, 0));
    var a1 := NextRound(w, a0, 0);
    var v1 := Exec(w, a1);
    LowIsLow(w, v0, 0);
    QuietRound(w, v1, 1);
    CoolStep(v1, 1.0, LowRound(w, v1, 1));
    LowIsLow(w, v1, 1);
    var a2 := NextRound(w, a1, 1);
    var v2 := Exec(w, a2);
    QuietRound(w, v2, 1);
    CoolStep(v2, 1.0, LowRound(w, v2, 1));
    LowIsLow(w, v2, 1);
    var a3 := NextRound(w, a2, 1);
    var v3 := Exec(w, a3);
    UndecidedWaits(w, v3);
    DemotingRound(w, v3, 1);
    LowIsLow(w, v3, 1);
    acts := NextRound(w, a3, 1);
    SameDemotions(w, a1, acts, 2);
    SameDemotions(w, a2, acts, 3);
    SameDemotions(w, a3, acts, 4);
  }

  lemma LowIsLow(w: World, v: World, s: nat)
    requires Waiting(w, v)
    ensures LowRound(w, v, s).free < LOW_DRAM
  {
  }

  lemma UndecidedWaits(w: World, v: World)
    requires Waiting(w, v)
    ensures |v.tier.objs| > 1 && v.tier.objs[1].lastDecision == Undecided
  {
  }
}
