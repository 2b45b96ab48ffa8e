/** The whole system as a state machine: mappings come and go, sampling windows
    close, and the actuator runs its rounds. */
module Rounds {
  import opened Tiers
  import opened MetricsUpdate
  import opened Policy
  import opened Trace

  // ---- hotness ----

  /** The largest value of each metric seen so far; all start at one. */
  datatype Maxima = Maxima(llcm: real, tlbm: real, stores: real)

  function Raise(m: Maxima, x: Metrics): Maxima {
    Maxima(if x.loads[4] > m.llcm then x.loads[4] else m.llcm,
           if x.tlbMiss[4] > m.tlbm then x.tlbMiss[4] else m.tlbm,
           if x.stores > m.stores then x.stores else m.stores)
  }

  ghost predicate AtLeastOne(m: Maxima) {
    m.llcm >= 1.0 && m.tlbm >= 1.0 && m.stores >= 1.0
  }

  type Scale = m: Maxima | AtLeastOne(m) witness Maxima(1.0, 1.0, 1.0)

  function Heat(x: Metrics, m: Scale): real {
    x.loads[4] / m.llcm + x.tlbMiss[4] / m.tlbm + x.stores / m.stores
  }

  function EntryFor(slot: nat, x: Metrics, m: Scale): KeyValue {
    KeyValue(slot, Heat(x, m), x.loads[4], x.stores, x.tlbMiss[4])
  }

  datatype Collected = Collected(current: seq<KeyValue>, maxima: Scale)

  /** The entries of the live slots below `n`, each scaled by the maxima as they
      stand when the slot is visited. */
  function Collect(t: Tier, n: nat, m: Scale): (c: Collected)
    requires n <= |t.objs| == |t.alloc|
    ensures |c.current| <= n
  {
    if n == 0 then Collected([], m)
    else
      var c := Collect(t, n - 1, m);
      if !t.alloc[n - 1] then c
      else
        var x := t.objs[n - 1].metrics;
        var m' := Raise(c.maxima, x);
        Collected(c.current + [EntryFor(n - 1, x, m')], m')
  }

  lemma RatioRange(x: real, top: real)
    requires 0.0 <= x <= top && top >= 1.0
    ensures 0.0 <= x / top <= 1.0
  {
  }

  /** A hotness is a sum of three ratios, each between zero and one. */
  lemma HeatRange(x: Metrics, m: Scale)
    requires NonNegative(x)
    ensures 0.0 <= Heat(x, Raise(m, x)) <= 3.0
  {
    var m' := Raise(m, x);
    RatioRange(x.loads[4], m'.llcm);
    RatioRange(x.tlbMiss[4], m'.tlbm);
    RatioRange(x.stores, m'.stores);
  }

  lemma RatioTop(x: real, top: real)
    requires 0.0 <= x <= top && top >= 1.0
    ensures x / top == 1.0 <==> x == top
  {
    var p := x / top;
    assert p * top == x;
  }

  /** A hotness reaches three exactly when the slot reaches all three maxima. */
  lemma HeatTop(x: Metrics, m: Scale)
    requires NonNegative(x)
    ensures Heat(x, Raise(m, x)) == 3.0 <==>
      x.loads[4] >= m.llcm && x.tlbMiss[4] >= m.tlbm && x.stores >= m.stores
  {
    var m' := Raise(m, x);
    RatioRange(x.loads[4], m'.llcm);
    RatioRange(x.tlbMiss[4], m'.tlbm);
    RatioRange(x.stores, m'.stores);
    RatioTop(x.loads[4], m'.llcm);
    RatioTop(x.tlbMiss[4], m'.tlbm);
    RatioTop(x.stores, m'.stores);
  }

  ghost predicate Below(m: Maxima, n: Maxima) {
    m.llcm <= n.llcm && m.tlbm <= n.tlbm && m.stores <= n.stores
  }

  lemma RatioShrinks(x: real, a: real, b: real)
    requires x >= 0.0 && 1.0 <= a <= b
    ensures x / b <= x / a
    ensures x / b == x / a <==> x == 0.0 || a == b
  {
    var p, q := x / a, x / b;
    assert p * a == x && q * b == x;
    assert q * a <= q * b;
  }

  /** A hotness scaled by the maxima of an earlier visit is too high, and exactly
      right only when each metric is zero or its maximum did not rise since. */
  lemma EarlyHeat(x: Metrics, m: Scale, final: Scale)
    requires NonNegative(x) && Below(m, final)
    ensures Heat(x, final) <= Heat(x, m)
    ensures Heat(x, final) == Heat(x, m) <==>
      && (x.loads[4] == 0.0 || m.llcm == final.llcm)
      && (x.tlbMiss[4] == 0.0 || m.tlbm == final.tlbm)
      && (x.stores == 0.0 || m.stores == final.stores)
  {
    RatioShrinks(x.loads[4], m.llcm, final.llcm);
    RatioShrinks(x.tlbMiss[4], m.tlbm, final.tlbm);
    RatioShrinks(x.stores, m.stores, final.stores);
  }

  /** The scale in force when slot `i` is visited. */
  function ScaleAt(t: Tier, i: nat, m: Scale): Scale
    requires i < |t.objs| == |t.alloc|
  {
    Collect(t, i + 1, m).maxima
  }

  lemma {:induction false} ScalesRise(t: Tier, i: nat, n: nat, m: Scale)
    requires i <= n <= |t.objs| == |t.alloc|
    ensures Below(Collect(t, i, m).maxima, Collect(t, n, m).maxima)
    decreases n - i
  {
    if i < n {
      ScalesRise(t, i, n - 1, m);
    }
  }

  lemma {:induction false} CollectScales(t: Tier, n: nat, m: Scale, j: nat)
    requires n <= |t.objs| == |t.alloc| && j < |Collect(t, n, m).current|
    ensures var e := Collect(t, n, m).current[j];
      && e.key < n && t.alloc[e.key]
      && e == EntryFor(e.key, t.objs[e.key].metrics, ScaleAt(t, e.key, m))
  {
    hide Heat, Raise;
    if j < |Collect(t, n - 1, m).current| {
      CollectScales(t, n - 1, m, j);
    }
  }

  /** The three metrics that a hotness is made of. */
  datatype Gauge = Llcm | Tlbm | Stores

  function Reading(x: Metrics, g: Gauge): real {
    match g
    case Llcm => x.loads[4]
    case Tlbm => x.tlbMiss[4]
    case Stores => x.stores
  }

  function Top(m: Maxima, g: Gauge): real {
    match g
    case Llcm => m.llcm
    case Tlbm => m.tlbm
    case Stores => m.stores
  }

  /** Each metric counts with the same weight, over its own maximum: metrics that
      differ in one reading differ in hotness by that difference over its maximum. */
  lemma HeatPerGauge(x: Metrics, y: Metrics, m: Scale, g: Gauge)
    requires forall h :: h != g ==> Reading(x, h) == Reading(y, h)
    ensures Heat(x, m) - Heat(y, m) == (Reading(x, g) - Reading(y, g)) / Top(m, g)
  {
    assert g != Llcm ==> Reading(x, Llcm) == Reading(y, Llcm);
    assert g != Tlbm ==> Reading(x, Tlbm) == Reading(y, Tlbm);
    assert g != Stores ==> Reading(x, Stores) == Reading(y, Stores);
  }

  /** What was never sampled has no hotness. */
  lemma BlankHeat(m: Scale)
    ensures Heat(BLANK, m) == 0.0
  {
  }

  /** An entry carries the memory loads, stores and TLB misses of its slot, and its
      value is the sum of the three, each over the maximum at its visit. */
  lemma EntryMakeup(t: Tier, n: nat, m: Scale, j: nat)
    requires n <= |t.objs| == |t.alloc| && j < |Collect(t, n, m).current|
    ensures var e := Collect(t, n, m).current[j];
      && e.key < n && t.alloc[e.key]
      && (var x, s := t.objs[e.key].metrics, Collect(t, e.key + 1, m).maxima;
          && e.llcm == x.loads[4] && e.tlbm == x.tlbMiss[4] && e.stores == x.stores
          && e.value == x.loads[4] / s.llcm + x.tlbMiss[4] / s.tlbm + x.stores / s.stores)
  {
    hide Collect;
    CollectScales(t, n, m, j);
  }

  /** `v` is at most the starting maximum or a reading of a live slot below `k`. */
  ghost predicate Reached(t: Tier, k: nat, m: Maxima, g: Gauge, v: real)
    requires k <= |t.objs| == |t.alloc|
  {
    v <= Top(m, g) || exists h :: 0 <= h < k && t.alloc[h] && v <= Reading(t.objs[h].metrics, g)
  }

  /** No live slot after `key` and below `n` reads more than was reached by then. */
  ghost predicate Unraised(t: Tier, key: nat, n: nat, m: Maxima, g: Gauge)
    requires key < n <= |t.objs| == |t.alloc|
  {
    forall i :: key < i < n && t.alloc[i] ==> Reached(t, key + 1, m, g, Reading(t.objs[i].metrics, g))
  }

  /** The maxima after a visit are the largest readings so far. */
  lemma {:induction false} TopReached(t: Tier, k: nat, m: Scale, g: Gauge, v: real)
    requires k <= |t.objs| == |t.alloc|
    ensures v <= Top(Collect(t, k, m).maxima, g) <==> Reached(t, k, m, g, v)
  {
    hide Heat;
    if k > 0 {
      TopReached(t, k - 1, m, g, v);
      assert Reached(t, k, m, g, v) <==>
        Reached(t, k - 1, m, g, v) || (t.alloc[k - 1] && v <= Reading(t.objs[k - 1].metrics, g));
    }
  }

  /** A maximum stays exactly when no later live slot reads more. */
  lemma {:induction false} TopStays(t: Tier, k: nat, n: nat, m: Scale, g: Gauge)
    requires k <= n <= |t.objs| == |t.alloc|
    ensures Top(Collect(t, n, m).maxima, g) == Top(Collect(t, k, m).maxima, g) <==>
      forall i :: k <= i < n && t.alloc[i] ==> Reading(t.objs[i].metrics, g) <= Top(Collect(t, k, m).maxima, g)
    decreases n - k
  {
    hide Heat;
    if k < n {
      TopStays(t, k, n - 1, m, g);
      ScalesRise(t, k, n - 1, m);
    }
  }

  lemma StaysUnraised(t: Tier, key: nat, n: nat, m: Scale, g: Gauge)
    requires key < n <= |t.objs| == |t.alloc|
    ensures Top(Collect(t, n, m).maxima, g) == Top(ScaleAt(t, key, m), g) <==> Unraised(t, key, n, m, g)
  {
    hide Collect, Reached;
    TopStays(t, key + 1, n, m, g);
    forall i | key < i < n && t.alloc[i] {
      TopReached(t, key + 1, m, g, Reading(t.objs[i].metrics, g));
    }
  }

  /** The value of an entry is its hotness under the round's final maxima exactly
      when, for each metric it has, no live slot visited after it reads more than
      the starting maximum and every live slot up to it; it is overrated otherwise. */
  lemma EntryValue(t: Tier, n: nat, m: Scale, j: nat)
    requires n <= |t.objs| == |t.alloc| && j < |Collect(t, n, m).current|
    requires forall i :: 0 <= i < n ==> NonNegative(t.objs[i].metrics)
    ensures var c := Collect(t, n, m);
      var e := c.current[j];
      && e.key < n
      && (var x := t.objs[e.key].metrics;
          && e.value >= Heat(x, c.maxima)
          && (e.value == Heat(x, c.maxima) <==>
                forall g :: Reading(x, g) == 0.0 || Unraised(t, e.key, n, m, g)))
  {
    hide Heat, Collect, Unraised;
    CollectScales(t, n, m, j);
    var e := Collect(t, n, m).current[j];
    ScalesRise(t, e.key + 1, n, m);
    EarlyHeat(t.objs[e.key].metrics, ScaleAt(t, e.key, m), Collect(t, n, m).maxima);
    StaysUnraised(t, e.key, n, m, Llcm);
    StaysUnraised(t, e.key, n, m, Tlbm);
    StaysUnraised(t, e.key, n, m, Stores);
  }

  ghost predicate InRange(e: KeyValue) {
    e.key < MAX_OBJECTS && 0.0 <= e.value <= 3.0
  }

  /** Every entry is of a live slot and in range, slots come in order, and the
      maxima never decrease. */
  lemma {:induction false} CollectLive(t: Tier, n: nat, m: Scale)
    requires n <= |t.objs| == |t.alloc| == MAX_OBJECTS
    requires forall i :: 0 <= i < n ==> NonNegative(t.objs[i].metrics)
    ensures var c := Collect(t, n, m);
      && (forall j :: 0 <= j < |c.current| ==>
            InRange(c.current[j]) && c.current[j].key < n && t.alloc[c.current[j].key])
      && (forall j, l :: 0 <= j < l < |c.current| ==> c.current[j].key < c.current[l].key)
      && m.llcm <= c.maxima.llcm && m.tlbm <= c.maxima.tlbm && m.stores <= c.maxima.stores
  {
    hide Heat, NonNegative;
    if n > 0 {
      CollectLive(t, n - 1, m);
      var c := Collect(t, n - 1, m);
      if t.alloc[n - 1] {
        HeatRange(t.objs[n - 1].metrics, c.maxima);
      }
    }
  }

  /** Every live slot has an entry. */
  lemma {:induction false} CollectAll(t: Tier, n: nat, m: Scale, i: nat)
    requires i < n <= |t.objs| == |t.alloc| && t.alloc[i]
    ensures exists j :: 0 <= j < |Collect(t, n, m).current| && Collect(t, n, m).current[j].key == i
  {
    hide Heat, Raise;
    var d := Collect(t, n, m);
    if i < n - 1 {
      CollectAll(t, n - 1, m, i);
      var c := Collect(t, n - 1, m);
      var j :| 0 <= j < |c.current| && c.current[j].key == i;
      assert d.current[j].key == i;
    } else {
      assert d.current[|d.current| - 1].key == i;
    }
  }

  // ---- sorting with leftovers ----

  /** The list before sorting: fresh entries over the front of the old list. */
  function Refreshed(current: seq<KeyValue>, list: seq<KeyValue>): (r: seq<KeyValue>)
    requires |current| <= |list|
    ensures |r| == |list|
  {
    current + list[|current|..]
  }

  /** What the library sort may return; the order of equal values is open. */
  ghost predicate SortOf(sorted: seq<KeyValue>, list: seq<KeyValue>) {
    multiset(sorted) == multiset(list) && HottestFirst(sorted)
  }

  lemma SortKeepsEntries(sorted: seq<KeyValue>, list: seq<KeyValue>)
    requires SortOf(sorted, list)
    ensures |sorted| == |list|
    ensures forall j :: 0 <= j < |sorted| ==> sorted[j] in list
  {
    assert |multiset(sorted)| == |multiset(list)|;
    forall j | 0 <= j < |sorted|
      ensures sorted[j] in list
    {
      assert sorted[j] in multiset(sorted);
    }
  }

  lemma MultisetSize(a: multiset<KeyValue>, b: multiset<KeyValue>)
    requires a <= b
    ensures |a| <= |b|
    ensures |a| == |b| ==> a == b
  {
    assert b == a + (b - a);
  }

  lemma MultisetCancel(a: multiset<KeyValue>, b: multiset<KeyValue>, c: multiset<KeyValue>)
    requires a + b == a + c
    ensures b == c
  {
    assert forall e :: b[e] == (a + b)[e] - a[e] && c[e] == (a + c)[e] - a[e];
  }

  /** The active part of the sorted list holds exactly this round's entries. */
  ghost predicate SeesCurrent(sorted: seq<KeyValue>, current: seq<KeyValue>) {
    |current| <= |sorted| && multiset(sorted[..|current|]) == multiset(current)
  }

  /** Two multisets of one size differ only by each having more of something. */
  lemma MultisetDiffer(a: multiset<KeyValue>, b: multiset<KeyValue>) returns (x: KeyValue, y: KeyValue)
    requires |a| == |b| && a != b
    ensures a[x] > b[x] && a[y] < b[y]
  {
    if a <= b {
      MultisetSize(a, b);
    }
    if b <= a {
      MultisetSize(b, a);
    }
    x :| a[x] > b[x];
    y :| a[y] < b[y];
  }

  lemma MultisetExcess(
    a: multiset<KeyValue>, b: multiset<KeyValue>, c: multiset<KeyValue>, d: multiset<KeyValue>, x: KeyValue, y: KeyValue)
    requires a + b == c + d && a[x] > c[x] && a[y] < c[y]
    ensures x in a && x in d && y in b && y in c
  {
    assert (a + b)[x] == (c + d)[x] && (a + b)[y] == (c + d)[y];
  }

  lemma PrefixHotter(sorted: seq<KeyValue>, k: nat)
    requires HottestFirst(sorted) && k <= |sorted|
    ensures forall e, x :: e in multiset(sorted[..k]) && x in multiset(sorted[k..]) ==> e.value >= x.value
  {
    forall e, x | e in multiset(sorted[..k]) && x in multiset(sorted[k..])
      ensures e.value >= x.value
    {
      var i :| 0 <= i < k && sorted[..k][i] == e;
      var j :| 0 <= j < |sorted| - k && sorted[k..][j] == x;
      assert sorted[i].value >= sorted[k + j].value;
    }
  }

  lemma ColderLeftovers(sorted: seq<KeyValue>, current: seq<KeyValue>, stale: seq<KeyValue>)
    requires SortOf(sorted, current + stale)
    requires forall f, s :: f in current && s in stale ==> s.value < f.value || s == f
    ensures SeesCurrent(sorted, current)
  {
    SortKeepsEntries(sorted, current + stale);
    var k := |current|;
    var a, c := multiset(sorted[..k]), multiset(current);
    PrefixHotter(sorted, k);
    if a != c {
      assert sorted == sorted[..k] + sorted[k..];
      assert multiset(sorted) == a + multiset(sorted[k..]);
      assert multiset(current + stale) == c + multiset(stale);
      var e, x := MultisetDiffer(a, c);
      MultisetExcess(a, multiset(sorted[k..]), c, multiset(stale), e, x);
      assert false;
    }
  }

  function Insert(e: KeyValue, list: seq<KeyValue>): seq<KeyValue> {
    if list == [] || e.value >= list[0].value then [e] + list else [list[0]] + Insert(e, list[1..])
  }

  function Sort(list: seq<KeyValue>): seq<KeyValue> {
    if list == [] then [] else Insert(list[0], Sort(list[1..]))
  }

  lemma {:induction false} InsertAdds(e: KeyValue, list: seq<KeyValue>)
    ensures multiset(Insert(e, list)) == multiset{e} + multiset(list)
  {
    if list != [] && e.value < list[0].value {
      InsertAdds(e, list[1..]);
      assert list == [list[0]] + list[1..];
    }
  }

  lemma {:induction false} InsertSorted(e: KeyValue, list: seq<KeyValue>)
    requires HottestFirst(list)
    ensures HottestFirst(Insert(e, list))
  {
    if list != [] && e.value < list[0].value {
      var rest := list[1..];
      InsertSorted(e, rest);
      InsertAdds(e, rest);
      var r := Insert(e, rest);
      forall i | 0 <= i < |r|
        ensures r[i].value <= list[0].value
      {
        assert r[i] in multiset{e} + multiset(rest);
      }
    }
  }

  /** A sorted arrangement always exists. */
  lemma {:induction false} SortExists(list: seq<KeyValue>)
    ensures SortOf(Sort(list), list)
  {
    if list != [] {
      SortExists(list[1..]);
      InsertSorted(list[0], Sort(list[1..]));
      InsertAdds(list[0], Sort(list[1..]));
      assert list == [list[0]] + list[1..];
    }
  }

  /** Two entries of one value may be exchanged. */
  lemma SwapTies(sorted: seq<KeyValue>, list: seq<KeyValue>, i: nat, j: nat)
    requires SortOf(sorted, list) && i < j < |sorted| && sorted[i].value == sorted[j].value
    ensures SortOf(sorted[i := sorted[j]][j := sorted[i]], list)
  {
  }

  /** Where a current and a leftover entry are, when the sort separates them. */
  lemma Separated(sorted: seq<KeyValue>, current: seq<KeyValue>, stale: seq<KeyValue>, f: KeyValue, s: KeyValue)
    returns (i: nat, j: nat)
    requires SortOf(sorted, current + stale) && SeesCurrent(sorted, current) && f in current && s in stale
    ensures i < |current| <= j < |sorted| && sorted[i] == f && sorted[j] == s
  {
    hide HottestFirst;
    var k := |current|;
    assert sorted == sorted[..k] + sorted[k..];
    assert multiset(sorted) == multiset(sorted[..k]) + multiset(sorted[k..]);
    MultisetCancel(multiset(current), multiset(sorted[k..]), multiset(stale));
    assert f in multiset(sorted[..k]) && s in multiset(sorted[k..]);
    i :| 0 <= i < k && sorted[..k][i] == f;
    var d :| 0 <= d < |sorted| - k && sorted[k..][d] == s;
    j := k + d;
  }

  /** A leftover at least as hot as a different current entry can displace it. */
  lemma HotLeftover(current: seq<KeyValue>, stale: seq<KeyValue>, f: KeyValue, s: KeyValue) returns (sorted: seq<KeyValue>)
    requires f in current && s in stale && s.value >= f.value && s != f
    ensures SortOf(sorted, current + stale) && !SeesCurrent(sorted, current)
  {
    sorted := Sort(current + stale);
    SortExists(current + stale);
    if SeesCurrent(sorted, current) {
      var i, j := Separated(sorted, current, stale, f, s);
      assert sorted[i].value >= sorted[j].value;
      SwapTies(sorted, current + stale, i, j);
      var swapped := sorted[i := s][j := f];
      assert swapped[..|current|] == sorted[..|current|][i := s];
      assert multiset(swapped[..|current|])[f] < multiset(current)[f];
      sorted := swapped;
    }
  }

  /** However the library orders ties, the policies see exactly this round's
      objects, if and only if every leftover of earlier rounds is colder than
      every current entry, or the very same entry. */
  lemma PoliciesSeeCurrent(current: seq<KeyValue>, stale: seq<KeyValue>)
    ensures (forall sorted :: SortOf(sorted, current + stale) ==> SeesCurrent(sorted, current)) <==>
      (forall f, s :: f in current && s in stale ==> s.value < f.value || s == f)
  {
    if forall f, s :: f in current && s in stale ==> s.value < f.value || s == f {
      forall sorted | SortOf(sorted, current + stale)
        ensures SeesCurrent(sorted, current)
      {
        ColderLeftovers(sorted, current, stale);
      }
    } else {
      var f, s :| f in current && s in stale && !(s.value < f.value || s == f);
      var sorted := HotLeftover(current, stale, f, s);
    }
  }

  // ---- one round ----

  /** Free DRAM below two chunks makes the actuator consider demotion. */
  const LOW_DRAM: real := (2 * CHUNK_SIZE) as real / GB

  /** Whether free DRAM was low, whether the demotion policy ran, and how many
      demotions it ordered. */
  datatype RoundLog = RoundLog(low: bool, ran: bool, demotions: nat)

  datatype World = World(
    tier: Tier, list: seq<KeyValue>, maxima: Scale, hasDemotion: bool, count: int, rounds: seq<RoundLog>, now: real)

  /** What a round reads from outside: the result of the library sort, free
      DRAM, page fractions per slot (DRAM, PMEM), and the clock. */
  datatype Readings = Readings(
    sorted: seq<KeyValue>,
    free: real, demotionStatus: nat -> (real, real), demotionClock: nat -> real,
    freeLater: real, promotionStatus: nat -> (real, real), promotionClock: nat -> real,
    end: real)

  /** Stores the page fractions just read into the live slots. */
  function ReadStatus(t: Tier, status: nat -> (real, real)): (u: Tier)
    requires t.total <= |t.objs| == |t.alloc|
    ensures |u.objs| == |t.objs| && u == t.(objs := u.objs)
  {
    t.(objs := seq(|t.objs|, i requires 0 <= i < |t.objs| =>
         if i < t.total && t.alloc[i] then t.objs[i].(inDram := status(i).0, inPmem := status(i).1) else t.objs[i]))
  }

  function Reversed(s: seq<KeyValue>): (r: seq<KeyValue>)
    ensures |r| == |s| && forall i :: 0 <= i < |s| ==> r[i] == s[|s| - 1 - i]
  {
    if s == [] then [] else Reversed(s[1..]) + [s[0]]
  }

  function DemotionPass(threshold: real, r: Readings, active: nat): Pass
    requires active <= |r.sorted|
  {
    Pass(Demotion, Reversed(r.sorted[..active]), threshold, 0.0, r.demotionClock)
  }

  function PromotionPass(threshold: real, r: Readings, active: nat): Pass
    requires active <= |r.sorted|
  {
    Pass(Promotion, r.sorted[..active], threshold, r.freeLater, r.promotionClock)
  }

  predicate AnyHot(list: seq<KeyValue>, active: nat, threshold: real)
    requires active <= |list|
  {
    exists i :: 0 <= i < active && list[i].value > threshold
  }

  ghost predicate Ready(w: World, r: Readings, active: nat) {
    && |w.tier.objs| == |w.tier.alloc| == MAX_OBJECTS && w.tier.total <= MAX_OBJECTS
    && active <= |r.sorted| && (forall i :: 0 <= i < |r.sorted| ==> r.sorted[i].key < MAX_OBJECTS)
  }

  ghost function AfterDemotion(w: World, threshold: real, r: Readings, active: nat): (v: World)
    requires Ready(w, r, active)
    ensures Ready(v, r, active)
  {
    if r.free >= LOW_DRAM then
      w.(rounds := w.rounds + [RoundLog(false, false, 0)])
    else if !w.hasDemotion then
      var out := Scan(DemotionPass(threshold, r, active), ReadStatus(w.tier, r.demotionStatus), 0, BUDGET);
      w.(tier := out.tier, hasDemotion := out.picked != [], count := 0,
         rounds := w.rounds + [RoundLog(true, true, |out.picked|)])
    else
      w.(count := w.count + 1, hasDemotion := w.count + 1 < 2,
         rounds := w.rounds + [RoundLog(true, false, 0)])
  }

  ghost function AfterPromotion(w: World, threshold: real, r: Readings, active: nat): World
    requires Ready(w, r, active)
  {
    if !AnyHot(r.sorted, active, threshold) then w
    else
      var out := Scan(PromotionPass(threshold, r, active), ReadStatus(w.tier, r.promotionStatus), 0, BUDGET);
      w.(tier := out.tier)
  }

  /** Where the sort may start from, and what the clock may read. */
  ghost predicate Admissible(w: World, r: Readings) {
    && w.tier.total <= |w.tier.objs| == |w.tier.alloc| && w.tier.total <= |w.list|
    && (var current := Collect(w.tier, w.tier.total, w.maxima).current;
        && SortOf(r.sorted, Refreshed(current, w.list))
        && (forall p: nat, q: nat :: p <= q < |current| ==>
              w.now <= r.demotionClock(p) <= r.demotionClock(q) <= r.promotionClock(0) <= r.promotionClock(p)
              <= r.promotionClock(q) <= r.end)
        && w.now <= r.end)
  }

  ghost function Round(w: World, threshold: real, r: Readings): World
    requires w.tier.total <= |w.tier.objs| == |w.tier.alloc| && w.tier.total <= |w.list|
    requires var c := Collect(w.tier, w.tier.total, w.maxima); Ready(w, r, |c.current|)
  {
    var c := Collect(w.tier, w.tier.total, w.maxima);
    var active := |c.current|;
    var s := w.(list := r.sorted, maxima := c.maxima);
    AfterPromotion(AfterDemotion(s, threshold, r, active), threshold, r, active).(now := r.end)
  }

  // ---- runs ----

  datatype Action =
    | Map(pid: int, start: nat, size: nat, clock: nat -> real, end: real)
    | Unmap(start: nat, size: nat)
    | Window(counters: nat -> Metrics)
    | Act(threshold: real, readings: Readings)

  /** What holds in every state of every run. */
  ghost predicate Good(w: World) {
    && AppendOnly(w.tier)
    && Orderly(w.tier, w.now)
    && |w.list| == MAX_OBJECTS
    && (forall i :: 0 <= i < |w.list| ==> InRange(w.list[i]))
    && (forall i :: 0 <= i < MAX_OBJECTS ==> NonNegative(w.tier.objs[i].metrics))
  }

  ghost predicate Enabled(w: World, a: Action) {
    match a
    case Map(_, start, size, clock, end) =>
      && w.tier.total + |Chunks(start, size)| <= MAX_OBJECTS && w.now <= end
      && (forall j: nat, l: nat :: j <= l < |Chunks(start, size)| ==> w.now <= clock(j) <= clock(l) <= end)
    case Unmap(_, _) => true
    case Window(counters) => forall i: nat :: i < MAX_OBJECTS ==> NonNegative(counters(i))
    case Act(_, r) => Admissible(w, r)
  }

  /** A window's counters folded into the metrics of the live slots. */
  function Folded(t: Tier, counters: nat -> Metrics): (u: Tier)
    requires t.total <= |t.objs| == |t.alloc|
    ensures |u.objs| == |t.objs| && u == t.(objs := u.objs)
  {
    t.(objs := seq(|t.objs|, i requires 0 <= i < |t.objs| =>
         if i < t.total && t.alloc[i] then t.objs[i].(metrics := Updated(t.objs[i].metrics, counters(i)))
         else t.objs[i]))
  }

  lemma ListKeys(w: World, r: Readings)
    requires Good(w) && Admissible(w, r)
    ensures Ready(w, r, |Collect(w.tier, w.tier.total, w.maxima).current|)
    ensures |r.sorted| == MAX_OBJECTS && forall i :: 0 <= i < |r.sorted| ==> InRange(r.sorted[i])
  {
    hide NonNegative, Orderly, HottestFirst;
    var c := Collect(w.tier, w.tier.total, w.maxima);
    CollectLive(w.tier, w.tier.total, w.maxima);
    SortKeepsEntries(r.sorted, Refreshed(c.current, w.list));
  }

  ghost function Step(w: World, a: Action): World
    requires Good(w) && Enabled(w, a)
  {
    match a
    case Map(pid, start, size, clock, end) =>
      var ps := Chunks(start, size);
      w.(tier := AppendAll(w.tier, pid, ps, |ps|, size > CHUNK_SIZE, clock), now := end)
    case Unmap(start, size) =>
      var ps := Chunks(start, size);
      w.(tier := ReleaseAll(w.tier, ps, |ps|))
    case Window(counters) => w.(tier := Folded(w.tier, counters))
    case Act(threshold, r) =>
      ListKeys(w, r);
      Round(w, threshold, r)
  }
}
