/** Exactly when the policies respect the hotness of objects, for a hotness list
    that may hold leftovers of earlier rounds. */
module Priority {
  import opened Tiers
  import opened MetricsUpdate
  import opened Policy
  import opened Trace
  import opened Rounds
  import opened Runs

  /** `a` goes before `b` for a policy. */
  predicate Better(kind: Kind, a: real, b: real) {
    if kind == Promotion then a > b else a < b
  }

  /** The decision that a policy leaves on what it moves. */
  function DecisionOf(kind: Kind): Decision {
    if kind == Promotion then ToDram else ToPmem
  }

  ghost predicate Movable(w: World, kind: Kind, i: nat)
    requires Good(w)
  {
    i < MAX_OBJECTS && w.tier.alloc[i] && w.tier.objs[i].size > 0 && w.tier.objs[i].lastDecision != DecisionOf(kind)
  }

  /** By their state and this round's hotness alone, slot `i` must be moved if
      slot `k` is. */
  ghost predicate Outranks(w: World, threshold: real, kind: Kind, i: nat, k: nat)
    requires Good(w)
  {
    && Movable(w, kind, i) && Movable(w, kind, k)
    && Better(kind, Hotness(w, i), threshold) && Better(kind, Hotness(w, i), Hotness(w, k))
  }

  /** The list entries in the order in which a policy examines them. */
  ghost function Examined(w: World, sorted: seq<KeyValue>, kind: Kind): seq<KeyValue>
    requires Good(w) && Active(w) <= |sorted|
  {
    if kind == Promotion then sorted[..Active(w)] else Reversed(sorted[..Active(w)])
  }

  ghost predicate ListedBefore(es: seq<KeyValue>, i: nat, q: nat)
    requires q <= |es|
  {
    exists p :: 0 <= p < q && es[p].key == i
  }

  /** In the list, every entry through which slot `k` could be moved has an entry
      of slot `i` before it. */
  ghost predicate ListedFirst(es: seq<KeyValue>, threshold: real, kind: Kind, i: nat, k: nat) {
    forall q :: 0 <= q < |es| && es[q].key == k && Better(kind, es[q].value, threshold) ==> ListedBefore(es, i, q)
  }

  /** The list agrees with this round's hotness, leftovers or not. */
  ghost predicate Ranked(w: World, threshold: real, sorted: seq<KeyValue>, kind: Kind)
    requires Good(w) && Active(w) <= |sorted|
  {
    forall i: nat, k: nat :: Outranks(w, threshold, kind, i, k) ==>
      ListedFirst(Examined(w, sorted, kind), threshold, kind, i, k)
  }

  /** The policy runs on the registry as the round finds it. */
  predicate RunsFirst(w: World, r: Readings, kind: Kind) {
    if kind == Promotion then r.free >= LOW_DRAM || w.hasDemotion else !w.hasDemotion
  }

  /** No deserving object is left without an order while a worse one is ordered. */
  ghost predicate Respects(w: World, threshold: real, r: Readings, kind: Kind)
    requires Good(w) && Admissible(w, r)
  {
    forall i: nat, k: nat ::
      i < MAX_OBJECTS && k < MAX_OBJECTS && Deserving(w, threshold, r, kind, i)
      && SlotOrdered(OrdersOfKind(w, threshold, r, kind), k) && Better(kind, Hotness(w, i), Hotness(w, k)) ==>
        SlotOrdered(OrdersOfKind(w, threshold, r, kind), i)
  }

  // ---- a ranked list is enough ----

  /** What the pass sees of a slot is what the round found, but for the pages. */
  lemma ViewUnmoved(w: World, threshold: real, r: Readings, kind: Kind, i: nat)
    requires Good(w) && Admissible(w, r) && RunsFirst(w, r, kind) && kind != Initial && i < MAX_OBJECTS
    ensures Fits(PassOf(w, threshold, r, kind), ViewOf(w, threshold, r, kind))
    ensures var t := ViewOf(w, threshold, r, kind);
      && |t.objs| == MAX_OBJECTS && t.alloc == w.tier.alloc
      && t.objs[i].lastDecision == w.tier.objs[i].lastDecision && t.objs[i].size == w.tier.objs[i].size
      && t.objs[i].birth == w.tier.objs[i].birth
  {
    hide NonNegative, Orderly, Collect, SortOf, Scan;
    ViewsFit(w, threshold, r);
    SortedReady(w, r);
  }

  lemma DeservingMovable(w: World, threshold: real, r: Readings, kind: Kind, i: nat)
    requires Good(w) && Admissible(w, r) && RunsFirst(w, r, kind) && kind != Initial && i < MAX_OBJECTS
    requires Deserving(w, threshold, r, kind, i)
    ensures Movable(w, kind, i) && Better(kind, Hotness(w, i), threshold)
  {
    hide Good, Admissible, ViewOf, Hotness, Share;
    ViewUnmoved(w, threshold, r, kind, i);
    ViewShare(w, threshold, r, kind, i);
    PositiveShare(kind, ViewOf(w, threshold, r, kind).objs[i]);
  }

  lemma EarlierEligible(w: World, threshold: real, r: Readings, kind: Kind, i: nat, p: nat, q: nat)
    requires Good(w) && Admissible(w, r) && RunsFirst(w, r, kind) && kind != Initial && i < MAX_OBJECTS
    requires Deserving(w, threshold, r, kind, i)
    requires var c := PassOf(w, threshold, r, kind);
      p < q < |c.entries| && c.entries[p].key == i && Better(kind, c.entries[q].value, threshold)
    ensures Fits(PassOf(w, threshold, r, kind), ViewOf(w, threshold, r, kind))
    ensures Eligible(PassOf(w, threshold, r, kind), ViewOf(w, threshold, r, kind), p)
  {
    hide NonNegative, Orderly, Collect, Hotness, Scan, ViewOf, Share;
    SortedReady(w, r);
    ViewUnmoved(w, threshold, r, kind, i);
    ViewShare(w, threshold, r, kind, i);
    assert HottestFirst(r.sorted[..Active(w)]);
    ReversedColdestFirst(r.sorted[..Active(w)]);
  }

  lemma RankedRespects(w: World, threshold: real, r: Readings, kind: Kind)
    requires Good(w) && Admissible(w, r) && RunsFirst(w, r, kind) && kind != Initial
    requires Active(w) <= |r.sorted| && Ranked(w, threshold, r.sorted, kind)
    ensures Respects(w, threshold, r, kind)
  {
    hide Good, Admissible, RunsFirst, Deserving, OrdersOfKind, SlotOrdered, Hotness, PassOf, ViewOf;
    hide Scan, Issued, Eligible, ListedFirst;
    var c, t := PassOf(w, threshold, r, kind), ViewOf(w, threshold, r, kind);
    forall i: nat, k: nat | i < MAX_OBJECTS && k < MAX_OBJECTS && Deserving(w, threshold, r, kind, i)
      && SlotOrdered(OrdersOfKind(w, threshold, r, kind), k) && Better(kind, Hotness(w, i), Hotness(w, k))
      ensures SlotOrdered(OrdersOfKind(w, threshold, r, kind), i)
    {
      OrdersAreIssued(w, threshold, r, kind, k);
      var q := OrderedFrom(w, threshold, r, kind, k);
      DeservingMovable(w, threshold, r, kind, i);
      assert Outranks(w, threshold, kind, i, k);
      var p := EntryBefore(w, threshold, r, kind, i, k, q);
      EarlierEligible(w, threshold, r, kind, i, p, q);
      NoOvertaking(c, t, p, q);
    }
  }

  /** The entry through which slot `k` was ordered. */
  lemma OrderedFrom(w: World, threshold: real, r: Readings, kind: Kind, k: nat) returns (q: nat)
    requires Good(w) && Admissible(w, r) && RunsFirst(w, r, kind) && kind != Initial && k < MAX_OBJECTS
    requires Fits(PassOf(w, threshold, r, kind), ViewOf(w, threshold, r, kind))
    requires SlotOrdered(Issued(PassOf(w, threshold, r, kind), ViewOf(w, threshold, r, kind)), k)
    ensures var c, t := PassOf(w, threshold, r, kind), ViewOf(w, threshold, r, kind);
      && q < |c.entries| && q in Scan(c, t, 0, BUDGET).picked
      && c.entries[q].key == k && Better(kind, c.entries[q].value, threshold)
    ensures Movable(w, kind, k)
  {
    hide Good, Admissible, ViewOf, Scan, Issued, SlotOrdered, Share;
    var c, t := PassOf(w, threshold, r, kind), ViewOf(w, threshold, r, kind);
    PickedOrdered(c, t, k);
    ScanSound(c, t, 0, BUDGET);
    var picked := Scan(c, t, 0, BUDGET).picked;
    var j :| 0 <= j < |picked| && picked[j] < |c.entries| && c.entries[picked[j]].key == k;
    q := picked[j];
    ViewUnmoved(w, threshold, r, kind, k);
    PositiveShare(kind, t.objs[k]);
  }

  lemma EntryBefore(w: World, threshold: real, r: Readings, kind: Kind, i: nat, k: nat, q: nat) returns (p: nat)
    requires Good(w) && Admissible(w, r) && Active(w) <= |r.sorted|
    requires ListedFirst(Examined(w, r.sorted, kind), threshold, kind, i, k)
    requires var es := PassOf(w, threshold, r, kind).entries;
      q < |es| && es[q].key == k && Better(kind, es[q].value, threshold)
    ensures p < q && PassOf(w, threshold, r, kind).entries[p].key == i
  {
    hide Good, Admissible;
    var es := PassOf(w, threshold, r, kind).entries;
    assert es == Examined(w, r.sorted, kind);
    p :| p < q && es[p].key == i;
  }

  // ---- and nothing less is ----

  function Later(a: real, b: real): real {
    if a < b then b else a
  }

  /** What a round may read: two slots have enough pages on the side the policy
      moves from to exhaust its budget, and all others have none. */
  ghost function Harsh(w: World, sorted: seq<KeyValue>, kind: Kind, i: nat, k: nat): Readings
    requires Good(w) && Movable(w, kind, i) && Movable(w, kind, k)
  {
    var at := Later(w.now, Later(w.tier.objs[i].birth, w.tier.objs[k].birth)) + 10.0;
    var full := (s: nat) =>
      var f := if s == i || s == k then Full(w.tier.objs, s) else 0.0; (f, f);
    Readings(sorted, if kind == Promotion then LOW_DRAM else 0.0, full, (_: nat) => at,
             3.0, full, (_: nat) => at, at)
  }

  /** The page fraction with which slot `s` counts two gigabytes. */
  function Full(objs: seq<Object>, s: nat): real {
    if s < |objs| && objs[s].size > 0 then 2.0 * GB / objs[s].size as real else 0.0
  }

  lemma FullShare(size: nat)
    requires size > 0
    ensures (size as real / GB) * (2.0 * GB / size as real) == 2.0
  {
  }

  lemma HarshReady(w: World, sorted: seq<KeyValue>, kind: Kind, i: nat, k: nat)
    requires Good(w) && Movable(w, kind, i) && Movable(w, kind, k) && kind != Initial
    requires kind == Demotion ==> !w.hasDemotion
    requires SortOf(sorted, Refreshed(Collect(w.tier, w.tier.total, w.maxima).current, w.list))
    ensures var r := Harsh(w, sorted, kind, i, k);
      && Admissible(w, r) && r.sorted == sorted && RunsFirst(w, r, kind) && Active(w) <= |sorted|
  {
    hide NonNegative, Orderly, Collect, SortOf;
    var r := Harsh(w, sorted, kind, i, k);
    assert Admissible(w, r);
    SortedReady(w, r);
  }

  /** Under these readings both slots can be moved, and no other slot can. */
  lemma HarshShares(w: World, threshold: real, sorted: seq<KeyValue>, kind: Kind, i: nat, k: nat, s: nat)
    requires Good(w) && Movable(w, kind, i) && Movable(w, kind, k) && kind != Initial && s < MAX_OBJECTS
    requires var r := Harsh(w, sorted, kind, i, k); Admissible(w, r) && RunsFirst(w, r, kind)
    ensures var t := ViewOf(w, threshold, Harsh(w, sorted, kind, i, k), kind);
      && |t.objs| == |t.alloc| == MAX_OBJECTS && t.alloc == w.tier.alloc
      && (t.alloc[s] ==> Share(kind, t.objs[s]) == if s == i || s == k then 2.0 else 0.0)
  {
    hide NonNegative, Orderly, Collect, SortOf, Scan;
    var r := Harsh(w, sorted, kind, i, k);
    ViewUnmoved(w, threshold, r, kind, s);
    SortedReady(w, r);
    if s == i || s == k {
      FullShare(w.tier.objs[s].size);
    }
  }

  lemma HarshEligible(w: World, threshold: real, sorted: seq<KeyValue>, kind: Kind, i: nat, k: nat, p: nat)
    requires Good(w) && Outranks(w, threshold, kind, i, k) && kind != Initial
    requires var r := Harsh(w, sorted, kind, i, k); Admissible(w, r) && RunsFirst(w, r, kind)
    requires Active(w) <= |sorted| && p < Active(w)
    ensures var r := Harsh(w, sorted, kind, i, k);
      var c, t := PassOf(w, threshold, r, kind), ViewOf(w, threshold, r, kind);
      && c.kind == kind && |c.entries| == Active(w) && c.entries == Examined(w, sorted, kind) && Fits(c, t)
      && var e := c.entries[p];
      && (Eligible(c, t, p) ==> (e.key == i || e.key == k) && Share(kind, t.objs[e.key]) == 2.0)
      && (e.key == k && Better(kind, e.value, threshold) ==> Eligible(c, t, p))
  {
    hide NonNegative, Orderly, Collect, SortOf, Scan, ViewOf, Hotness, Share;
    var r := Harsh(w, sorted, kind, i, k);
    ViewUnmoved(w, threshold, r, kind, k);
    SortedReady(w, r);
    HarshShares(w, threshold, sorted, kind, i, k, Examined(w, sorted, kind)[p].key);
  }

  lemma HarshDeserving(w: World, threshold: real, sorted: seq<KeyValue>, kind: Kind, i: nat, k: nat)
    requires Good(w) && Outranks(w, threshold, kind, i, k) && kind != Initial
    requires var r := Harsh(w, sorted, kind, i, k); Admissible(w, r) && RunsFirst(w, r, kind)
    ensures Deserving(w, threshold, Harsh(w, sorted, kind, i, k), kind, i)
  {
    hide NonNegative, Orderly, Collect, SortOf, Scan, ViewOf, Hotness, Share;
    ViewUnmoved(w, threshold, Harsh(w, sorted, kind, i, k), kind, i);
    ViewShare(w, threshold, Harsh(w, sorted, kind, i, k), kind, i);
    HarshShares(w, threshold, sorted, kind, i, k, i);
  }

  /** An entry of a worse slot with no entry of a better one before it: there is a
      round that moves the worse slot and not the better one. */
  lemma UnrankedFails(w: World, threshold: real, sorted: seq<KeyValue>, kind: Kind, i: nat, k: nat, q: nat)
    requires Good(w) && Outranks(w, threshold, kind, i, k) && kind != Initial
    requires var r := Harsh(w, sorted, kind, i, k); Admissible(w, r) && RunsFirst(w, r, kind)
    requires Active(w) <= |sorted| && q < Active(w)
    requires var es := Examined(w, sorted, kind);
      es[q].key == k && Better(kind, es[q].value, threshold) && !ListedBefore(es, i, q)
    ensures !Respects(w, threshold, Harsh(w, sorted, kind, i, k), kind)
  {
    hide Good, Admissible, RunsFirst, Hotness, PassOf, ViewOf, Scan, Issued, Eligible, Deserving, Share, Reversed;
    var r := Harsh(w, sorted, kind, i, k);
    var c, t := PassOf(w, threshold, r, kind), ViewOf(w, threshold, r, kind);
    HarshEligible(w, threshold, sorted, kind, i, k, q);
    var p := FirstEligible(c, t, q);
    HarshEligible(w, threshold, sorted, kind, i, k, p);
    FirstFills(c, t, p);
    HarshOrders(w, threshold, sorted, kind, i, k, q);
    HarshDeserving(w, threshold, sorted, kind, i, k);
    assert c.entries[p].key == k;
    var orders := OrdersOfKind(w, threshold, r, kind);
    assert orders == [OrderFor(c, t, p)] && orders[0].slot == k;
    assert SlotOrdered(orders, k) && !SlotOrdered(orders, i);
  }

  lemma HarshOrders(w: World, threshold: real, sorted: seq<KeyValue>, kind: Kind, i: nat, k: nat, q: nat)
    requires Good(w) && Outranks(w, threshold, kind, i, k) && kind != Initial
    requires var r := Harsh(w, sorted, kind, i, k); Admissible(w, r) && RunsFirst(w, r, kind)
    requires Active(w) <= |sorted| && q < Active(w) && Better(kind, Examined(w, sorted, kind)[q].value, threshold)
    ensures var r := Harsh(w, sorted, kind, i, k);
      && Fits(PassOf(w, threshold, r, kind), ViewOf(w, threshold, r, kind))
      && OrdersOfKind(w, threshold, r, kind) == Issued(PassOf(w, threshold, r, kind), ViewOf(w, threshold, r, kind))
  {
    hide NonNegative, Orderly, Collect, SortOf, Scan, Hotness, Issued, AfterDemotion;
    ViewsFit(w, threshold, Harsh(w, sorted, kind, i, k));
  }

  /** Whatever a round reads beside the sorted list, its policy respects the
      hotness of objects, if and only if the list is ranked. */
  lemma PriorityExact(w: World, threshold: real, sorted: seq<KeyValue>, kind: Kind)
    requires Good(w) && kind != Initial && (kind == Demotion ==> !w.hasDemotion)
    requires SortOf(sorted, Refreshed(Collect(w.tier, w.tier.total, w.maxima).current, w.list))
    ensures Active(w) <= |sorted|
    ensures (forall r: Readings :: Admissible(w, r) && r.sorted == sorted && RunsFirst(w, r, kind) ==>
              Respects(w, threshold, r, kind))
            <==> Ranked(w, threshold, sorted, kind)
  {
    hide Good, Admissible, RunsFirst, Respects, Outranks, ListedBefore, Harsh;
    SortCovers(w, sorted);
    if Ranked(w, threshold, sorted, kind) {
      forall r: Readings | Admissible(w, r) && r.sorted == sorted && RunsFirst(w, r, kind)
        ensures Respects(w, threshold, r, kind)
      {
        RankedRespects(w, threshold, r, kind);
      }
    } else {
      var es := Examined(w, sorted, kind);
      var i: nat, k: nat :| Outranks(w, threshold, kind, i, k) && !ListedFirst(es, threshold, kind, i, k);
      var q :| 0 <= q < |es| && es[q].key == k && Better(kind, es[q].value, threshold) && !ListedBefore(es, i, q);
      OutranksMovable(w, threshold, kind, i, k);
      HarshReady(w, sorted, kind, i, k);
      UnrankedFails(w, threshold, sorted, kind, i, k, q);
    }
  }

  /** A list whose active part is exactly this round's entries is ranked. */
  lemma CurrentRanked(w: World, threshold: real, r: Readings, kind: Kind)
    requires Good(w) && Admissible(w, r) && Active(w) <= |r.sorted|
    requires SeesCurrent(r.sorted, Collect(w.tier, w.tier.total, w.maxima).current)
    ensures Ranked(w, threshold, r.sorted, kind)
  {
    hide NonNegative, Orderly, Collect, Hotness, SeesCurrent;
    var es := Examined(w, r.sorted, kind);
    assert es == PassOf(w, threshold, r, kind).entries;
    ReversedColdestFirst(r.sorted[..Active(w)]);
    forall i: nat, k: nat, q | Outranks(w, threshold, kind, i, k) && 0 <= q < |es| && es[q].key == k
      ensures ListedBefore(es, i, q)
    {
      var p := SlotListed(w, threshold, r, kind, i);
      EntryIsCurrent(w, threshold, r, kind, p);
      EntryIsCurrent(w, threshold, r, kind, q);
    }
  }

  lemma OutranksMovable(w: World, threshold: real, kind: Kind, i: nat, k: nat)
    requires Good(w) && Outranks(w, threshold, kind, i, k)
    ensures Movable(w, kind, i) && Movable(w, kind, k)
  {
  }

  lemma SortCovers(w: World, sorted: seq<KeyValue>)
    requires Good(w) && SortOf(sorted, Refreshed(Collect(w.tier, w.tier.total, w.maxima).current, w.list))
    ensures Active(w) <= |sorted|
  {
    hide NonNegative, Orderly, Collect, SortOf;
    SortKeepsEntries(sorted, Refreshed(Collect(w.tier, w.tier.total, w.maxima).current, w.list));
  }
}
