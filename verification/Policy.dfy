/** One pass of a migration policy: a greedy scan of the hotness list that stops
    once a chunk's worth of memory has been ordered to move. */
module Policy {
  import opened Tiers

  datatype KeyValue = KeyValue(key: nat, value: real, llcm: real, stores: real, tlbm: real)

  /** `entries` are the list entries in the order the pass examines them, and
      `clock(p)` is the time read when entry `p` is examined. */
  datatype Pass = Pass(kind: Kind, entries: seq<KeyValue>, threshold: real, free: real, clock: nat -> real)

  const BUDGET: real := CHUNK_SIZE as real / GB
  const MIN_SIZE_GB: real := 0.1
  const MIN_LIFETIME_SEC: real := 5.0

  /** The gigabytes of an object that a migration would move. */
  function Share(kind: Kind, o: Object): real {
    (o.size as real / GB) * (if kind == Promotion then o.inPmem else o.inDram)
  }

  lemma ShareValue(kind: Kind, o: Object)
    ensures kind == Promotion ==> Share(kind, o) == o.size as real / GB * o.inPmem
    ensures kind != Promotion ==> Share(kind, o) == o.size as real / GB * o.inDram
  {
  }

  predicate Eligible(c: Pass, t: Tier, p: nat)
    requires p < |c.entries| && c.entries[p].key < |t.objs| == |t.alloc|
  {
    var e := c.entries[p];
    var o := t.objs[e.key];
    var share := Share(c.kind, o);
    if c.kind == Promotion then
      0.0 < share < c.free && o.lastDecision != ToDram && e.value > c.threshold && t.alloc[e.key]
    else
      share > MIN_SIZE_GB && c.clock(p) - o.birth > MIN_LIFETIME_SEC && e.value < c.threshold &&
      o.lastDecision != ToPmem && t.alloc[e.key]
  }

  function Decided(c: Pass, o: Object, p: nat): Object {
    if c.kind == Promotion then o.(lastDecision := ToDram, birth := c.clock(p))
    else o.(lastDecision := ToPmem)
  }

  /** The bind order for the object of entry `p`. */
  function OrderFor(c: Pass, t: Tier, p: nat): Order
    requires p < |c.entries| && c.entries[p].key < |t.objs| == |t.alloc|
  {
    var k := c.entries[p].key;
    Order(c.kind, k, t.objs[k].start, t.objs[k].size,
          if c.kind == Promotion then NODE_0_DRAM else NODE_0_PMEM, c.clock(p), t.alloc[k])
  }

  /** Orders the object of entry `p` to move. */
  function Move(c: Pass, t: Tier, p: nat): (u: Tier)
    requires p < |c.entries| && c.entries[p].key < |t.objs| == |t.alloc|
    ensures |u.objs| == |t.objs| && u.alloc == t.alloc && u.total == t.total
  {
    var k := c.entries[p].key;
    t.(objs := t.objs[k := Decided(c, t.objs[k], p)], orders := t.orders + [OrderFor(c, t, p)])
  }

  ghost predicate Fits(c: Pass, t: Tier) {
    && c.kind != Initial && |t.objs| == |t.alloc|
    && (forall p :: 0 <= p < |c.entries| ==> c.entries[p].key < |t.objs|)
  }

  /** The registry after a pass, and the positions it picked. */
  datatype Outcome = Outcome(tier: Tier, picked: seq<nat>)

  ghost function Scan(c: Pass, t: Tier, i: nat, budget: real): (r: Outcome)
    requires Fits(c, t) && i <= |c.entries|
    ensures |r.tier.objs| == |t.objs| && r.tier.alloc == t.alloc && r.tier.total == t.total
    ensures t.orders <= r.tier.orders
    decreases |c.entries| - i
  {
    if i == |c.entries| then Outcome(t, [])
    else if !Eligible(c, t, i) then Scan(c, t, i + 1, budget)
    else
      var left := budget - Share(c.kind, t.objs[c.entries[i].key]);
      var u := Move(c, t, i);
      if left < 0.0 then Outcome(u, [i])
      else
        var r := Scan(c, u, i + 1, left);
        Outcome(r.tier, [i] + r.picked)
  }

  /** One step of the scan. */
  lemma ScanUnfold(c: Pass, t: Tier, i: nat, budget: real)
    requires Fits(c, t) && i <= |c.entries|
    ensures i == |c.entries| ==> Scan(c, t, i, budget) == Outcome(t, [])
    ensures i < |c.entries| && !Eligible(c, t, i) ==> Scan(c, t, i, budget) == Scan(c, t, i + 1, budget)
    ensures i < |c.entries| && Eligible(c, t, i) ==>
      var left := budget - Share(c.kind, t.objs[c.entries[i].key]);
      && Scan(c, t, i, budget).picked != []
      && Scan(c, t, i, budget).tier ==
           (if left < 0.0 then Move(c, t, i) else Scan(c, Move(c, t, i), i + 1, left).tier)
  {
  }

  // ---- what a pass picks ----

  ghost predicate Increasing(ps: seq<nat>, lo: nat, hi: nat) {
    && (forall j :: 0 <= j < |ps| ==> lo <= ps[j] < hi)
    && (forall j, l :: 0 <= j < l < |ps| ==> ps[j] < ps[l])
  }

  ghost predicate KeyPicked(c: Pass, picked: seq<nat>, key: nat) {
    exists j :: 0 <= j < |picked| && picked[j] < |c.entries| && c.entries[picked[j]].key == key
  }

  lemma {:induction false} ScanPositions(c: Pass, t: Tier, i: nat, budget: real)
    requires Fits(c, t) && i <= |c.entries|
    ensures Increasing(Scan(c, t, i, budget).picked, i, |c.entries|)
    decreases |c.entries| - i
  {
    if i < |c.entries| {
      if !Eligible(c, t, i) {
        ScanPositions(c, t, i + 1, budget);
      } else {
        var left := budget - Share(c.kind, t.objs[c.entries[i].key]);
        if left >= 0.0 {
          ScanPositions(c, Move(c, t, i), i + 1, left);
        }
      }
    }
  }

  /** A move makes its own object ineligible and leaves every other as it was. */
  lemma MoveLocal(c: Pass, t: Tier, i: nat, p: nat)
    requires Fits(c, t) && i < |c.entries| && p < |c.entries|
    ensures c.entries[p].key == c.entries[i].key ==> !Eligible(c, Move(c, t, i), p)
    ensures c.entries[p].key != c.entries[i].key ==> (Eligible(c, Move(c, t, i), p) <==> Eligible(c, t, p))
    ensures Share(c.kind, Move(c, t, i).objs[c.entries[p].key]) == Share(c.kind, t.objs[c.entries[p].key])
    ensures OrderFor(c, Move(c, t, i), p) == OrderFor(c, t, p)
  {
  }

  ghost predicate AllEligible(c: Pass, t: Tier, picked: seq<nat>)
    requires Fits(c, t)
  {
    forall j {:trigger picked[j]} :: 0 <= j < |picked| ==> picked[j] < |c.entries| && Eligible(c, t, picked[j])
  }

  ghost predicate KeysDistinct(c: Pass, picked: seq<nat>)
    requires forall j :: 0 <= j < |picked| ==> picked[j] < |c.entries|
  {
    forall j, l :: 0 <= j < l < |picked| ==> c.entries[picked[j]].key != c.entries[picked[l]].key
  }

  /** Every picked entry was eligible at the start of the pass, and no object is picked twice. */
  lemma {:induction false} ScanSound(c: Pass, t: Tier, i: nat, budget: real)
    requires Fits(c, t) && i <= |c.entries|
    ensures AllEligible(c, t, Scan(c, t, i, budget).picked)
    ensures KeysDistinct(c, Scan(c, t, i, budget).picked)
    decreases |c.entries| - i
  {
    if i == |c.entries| {
    } else if !Eligible(c, t, i) {
      ScanSound(c, t, i + 1, budget);
      assert Scan(c, t, i, budget).picked == Scan(c, t, i + 1, budget).picked;
    } else {
      var left := budget - Share(c.kind, t.objs[c.entries[i].key]);
      if left >= 0.0 {
        var u := Move(c, t, i);
        var rest := Scan(c, u, i + 1, left).picked;
        ScanSound(c, u, i + 1, left);
        assert Scan(c, t, i, budget).picked == [i] + rest;
        forall j | 0 <= j < |rest|
          ensures Eligible(c, t, rest[j]) && c.entries[rest[j]].key != c.entries[i].key
        {
          MoveLocal(c, t, i, rest[j]);
        }
      }
    }
  }

  /** The gigabytes that the picked orders move. */
  ghost function Moved(c: Pass, t: Tier, picked: seq<nat>): real
    requires Fits(c, t) && forall j :: 0 <= j < |picked| ==> picked[j] < |c.entries|
  {
    if picked == [] then 0.0
    else
      var o := t.objs[c.entries[picked[0]].key];
      o.size as real / GB * (if c.kind == Promotion then o.inPmem else o.inDram) + Moved(c, t, picked[1..])
  }

  lemma MovedFirst(c: Pass, t: Tier, picked: seq<nat>)
    requires Fits(c, t) && forall j :: 0 <= j < |picked| ==> picked[j] < |c.entries|
    ensures picked == [] ==> Moved(c, t, picked) == 0.0
    ensures picked != [] ==>
      Moved(c, t, picked) == Share(c.kind, t.objs[c.entries[picked[0]].key]) + Moved(c, t, picked[1..])
  {
  }

  lemma {:induction false} MovedFrame(c: Pass, t: Tier, i: nat, picked: seq<nat>)
    requires Fits(c, t) && i < |c.entries| && forall j :: 0 <= j < |picked| ==> picked[j] < |c.entries|
    ensures Moved(c, Move(c, t, i), picked) == Moved(c, t, picked)
  {
    hide Moved, Share, Move;
    MovedFirst(c, t, picked);
    MovedFirst(c, Move(c, t, i), picked);
    if picked != [] {
      MoveLocal(c, t, i, picked[0]);
      MovedFrame(c, t, i, picked[1..]);
    }
  }

  /** The picks before the last one stay within the budget. */
  ghost predicate Budgeted(c: Pass, t: Tier, picked: seq<nat>, budget: real)
    requires Fits(c, t) && forall j :: 0 <= j < |picked| ==> picked[j] < |c.entries|
  {
    picked == [] || Moved(c, t, picked[..|picked| - 1]) <= budget
  }

  lemma {:induction false} ScanBudget(c: Pass, t: Tier, i: nat, budget: real)
    requires Fits(c, t) && i <= |c.entries| && budget >= 0.0
    ensures var picked := Scan(c, t, i, budget).picked;
      && (forall j :: 0 <= j < |picked| ==> picked[j] < |c.entries|)
      && Budgeted(c, t, picked, budget)
    decreases |c.entries| - i
  {
    hide Moved, Share;
    ScanPositions(c, t, i, budget);
    MovedFirst(c, t, []);
    if i < |c.entries| {
      if !Eligible(c, t, i) {
        ScanBudget(c, t, i + 1, budget);
      } else {
        var left := budget - Share(c.kind, t.objs[c.entries[i].key]);
        var picked := Scan(c, t, i, budget).picked;
        if left < 0.0 {
          assert picked[..|picked| - 1] == [];
        } else {
          var u := Move(c, t, i);
          var rest := Scan(c, u, i + 1, left).picked;
          ScanBudget(c, u, i + 1, left);
          assert picked == [i] + rest;
          if rest != [] {
            MovedFrame(c, t, i, rest[..|rest| - 1]);
            assert picked[..|picked| - 1] == [i] + rest[..|rest| - 1];
            assert picked[..|picked| - 1][1..] == rest[..|rest| - 1];
            MovedFirst(c, t, picked[..|picked| - 1]);
          } else {
            assert picked[..|picked| - 1] == [];
          }
        }
      }
    }
  }

  /** An eligible entry is passed over only when its object was already picked,
      or after the budget is spent. */
  lemma {:induction false} ScanComplete(c: Pass, t: Tier, i: nat, budget: real, p: nat)
    requires Fits(c, t) && i <= p < |c.entries| && Eligible(c, t, p)
    ensures var picked := Scan(c, t, i, budget).picked;
      && (forall j :: 0 <= j < |picked| ==> picked[j] < |c.entries|)
      && (KeyPicked(c, picked, c.entries[p].key) ||
          (picked != [] && picked[|picked| - 1] < p && Moved(c, t, picked) > budget))
    decreases |c.entries| - i
  {
    hide Moved, Share;
    ScanPositions(c, t, i, budget);
    var picked := Scan(c, t, i, budget).picked;
    MovedFirst(c, t, picked);
    MovedFirst(c, t, []);
    if !Eligible(c, t, i) {
      ScanComplete(c, t, i + 1, budget, p);
    } else {
      var k := c.entries[i].key;
      var left := budget - Share(c.kind, t.objs[k]);
      if k == c.entries[p].key {
        assert picked[0] == i;
      } else if left < 0.0 {
        assert picked == [i] && picked[1..] == [];
      } else {
        var u := Move(c, t, i);
        var rest := Scan(c, u, i + 1, left).picked;
        MoveLocal(c, t, i, p);
        ScanComplete(c, u, i + 1, left, p);
        assert picked == [i] + rest && picked[1..] == rest;
        PickedLater(c, i, rest, c.entries[p].key);
        MovedFrame(c, t, i, rest);
      }
    }
  }

  lemma PickedLater(c: Pass, i: nat, rest: seq<nat>, key: nat)
    ensures KeyPicked(c, rest, key) ==> KeyPicked(c, [i] + rest, key)
  {
    if KeyPicked(c, rest, key) {
      var j :| 0 <= j < |rest| && rest[j] < |c.entries| && c.entries[rest[j]].key == key;
      assert ([i] + rest)[j + 1] == rest[j];
    }
  }

  /** What an order leaves on its object: the decision, and after a promotion the
      time it was ordered; address, size, pages and metrics stay. */
  ghost predicate Marked(c: Pass, was: Object, o: Object, at: real) {
    if c.kind == Promotion then o == was.(lastDecision := ToDram, birth := at) else o == was.(lastDecision := ToPmem)
  }

  /** A pass marks each picked object once and changes no other. */
  lemma {:induction false} ScanEffect(c: Pass, t: Tier, i: nat, budget: real, s: nat)
    requires Fits(c, t) && i <= |c.entries| && s < |t.objs|
    ensures var out := Scan(c, t, i, budget);
      && (!KeyPicked(c, out.picked, s) ==> out.tier.objs[s] == t.objs[s])
      && (forall p :: p in out.picked && p < |c.entries| && c.entries[p].key == s ==>
            Marked(c, t.objs[s], out.tier.objs[s], c.clock(p)))
    decreases |c.entries| - i
  {
    hide Eligible, Share, OrderFor;
    var out := Scan(c, t, i, budget);
    if i == |c.entries| {
    } else if !Eligible(c, t, i) {
      ScanEffect(c, t, i + 1, budget, s);
    } else {
      var left := budget - Share(c.kind, t.objs[c.entries[i].key]);
      if left < 0.0 {
        assert out.picked[0] == i;
      } else {
        var u := Move(c, t, i);
        var rest := Scan(c, u, i + 1, left).picked;
        ScanEffect(c, u, i + 1, left, s);
        assert out.picked == [i] + rest && out.picked[0] == i;
        PickedLater(c, i, rest, s);
        NotAgain(c, t, i, budget, rest);
      }
    }
  }

  lemma NotAgain(c: Pass, t: Tier, i: nat, budget: real, rest: seq<nat>)
    requires Fits(c, t) && i < |c.entries| && Scan(c, t, i, budget).picked == [i] + rest
    ensures !KeyPicked(c, rest, c.entries[i].key)
    ensures forall p :: p in rest && p < |c.entries| ==> c.entries[p].key != c.entries[i].key
  {
    hide Scan, Eligible;
    var picked := Scan(c, t, i, budget).picked;
    ScanSound(c, t, i, budget);
    forall j | 0 <= j < |rest|
      ensures rest[j] < |c.entries| && c.entries[rest[j]].key != c.entries[i].key
    {
      assert picked[0] == i && picked[j + 1] == rest[j];
    }
  }

  // ---- the orders of a pass ----

  /** The orders for the picked entries. */
  function OrdersOf(c: Pass, t: Tier, picked: seq<nat>): (os: seq<Order>)
    requires forall p :: 0 <= p < |c.entries| ==> c.entries[p].key < |t.objs| == |t.alloc|
    requires forall j :: 0 <= j < |picked| ==> picked[j] < |c.entries|
    ensures |os| == |picked|
  {
    if picked == [] then [] else [OrderFor(c, t, picked[0])] + OrdersOf(c, t, picked[1..])
  }

  lemma {:induction false} OrdersFrame(c: Pass, t: Tier, i: nat, picked: seq<nat>)
    requires Fits(c, t) && i < |c.entries| && forall j :: 0 <= j < |picked| ==> picked[j] < |c.entries|
    ensures OrdersOf(c, Move(c, t, i), picked) == OrdersOf(c, t, picked)
  {
    hide OrderFor, Move, Eligible;
    if picked != [] {
      MoveLocal(c, t, i, picked[0]);
      OrdersFrame(c, t, i, picked[1..]);
    }
  }

  /** A pass appends to the history exactly one order per picked entry, in order. */
  lemma {:induction false} ScanOrders(c: Pass, t: Tier, i: nat, budget: real)
    requires Fits(c, t) && i <= |c.entries|
    ensures var out := Scan(c, t, i, budget);
      && (forall j :: 0 <= j < |out.picked| ==> out.picked[j] < |c.entries|)
      && out.tier.orders == t.orders + OrdersOf(c, t, out.picked)
    decreases |c.entries| - i
  {
    hide OrderFor, Share;
    ScanPositions(c, t, i, budget);
    if i == |c.entries| {
    } else if !Eligible(c, t, i) {
      ScanOrders(c, t, i + 1, budget);
    } else {
      var left := budget - Share(c.kind, t.objs[c.entries[i].key]);
      var u := Move(c, t, i);
      assert u.orders == t.orders + [OrderFor(c, t, i)];
      if left < 0.0 {
        assert [i][1..] == [];
      } else {
        ScanOrders(c, u, i + 1, left);
        var rest := Scan(c, u, i + 1, left).picked;
        OrdersFrame(c, t, i, rest);
        assert ([i] + rest)[1..] == rest;
      }
    }
  }

  /** The orders that a whole pass appends to the history. */
  ghost function Issued(c: Pass, t: Tier): seq<Order>
    requires Fits(c, t)
  {
    Scan(c, t, 0, BUDGET).tier.orders[|t.orders|..]
  }

  lemma IssuedPicked(c: Pass, t: Tier)
    requires Fits(c, t)
    ensures var picked := Scan(c, t, 0, BUDGET).picked;
      && (forall j :: 0 <= j < |picked| ==> picked[j] < |c.entries|)
      && Scan(c, t, 0, BUDGET).tier.orders == t.orders + Issued(c, t)
      && Issued(c, t) == OrdersOf(c, t, picked)
  {
    hide Scan;
    ScanOrders(c, t, 0, BUDGET);
  }

  lemma {:induction false} OrdersOfAt(c: Pass, t: Tier, picked: seq<nat>, j: nat)
    requires Fits(c, t) && (forall l :: 0 <= l < |picked| ==> picked[l] < |c.entries|) && j < |picked|
    ensures OrdersOf(c, t, picked)[j] == OrderFor(c, t, picked[j])
  {
    hide OrderFor;
    if j > 0 {
      OrdersOfAt(c, t, picked[1..], j - 1);
    }
  }

  /** The gigabytes that a sequence of orders moves: the size of each object
      times the fraction of its pages on the side it leaves. */
  ghost function Volume(t: Tier, orders: seq<Order>): real
    requires forall j :: 0 <= j < |orders| ==> orders[j].slot < |t.objs|
  {
    if orders == [] then 0.0
    else
      var o := t.objs[orders[0].slot];
      o.size as real / GB * (if orders[0].kind == Promotion then o.inPmem else o.inDram) + Volume(t, orders[1..])
  }

  lemma {:induction false} VolumeMoved(c: Pass, t: Tier, picked: seq<nat>)
    requires Fits(c, t) && forall l :: 0 <= l < |picked| ==> picked[l] < |c.entries|
    ensures var os := OrdersOf(c, t, picked);
      && (forall j :: 0 <= j < |os| ==> os[j].slot < |t.objs|)
      && Volume(t, os) == Moved(c, t, picked)
  {
    hide Share;
    if picked != [] {
      VolumeMoved(c, t, picked[1..]);
      var os := OrdersOf(c, t, picked);
      assert os[1..] == OrdersOf(c, t, picked[1..]);
    }
  }

  lemma {:induction false} OrdersPrefix(c: Pass, t: Tier, picked: seq<nat>)
    requires Fits(c, t) && picked != [] && forall l :: 0 <= l < |picked| ==> picked[l] < |c.entries|
    ensures OrdersOf(c, t, picked)[..|picked| - 1] == OrdersOf(c, t, picked[..|picked| - 1])
  {
    hide OrderFor;
    if |picked| > 1 {
      OrdersPrefix(c, t, picked[1..]);
      assert picked[..|picked| - 1][1..] == picked[1..][..|picked| - 2];
    }
  }

  ghost predicate SlotOrdered(orders: seq<Order>, slot: nat) {
    exists j :: 0 <= j < |orders| && orders[j].slot == slot
  }

  /** An object is picked exactly when the pass issues an order for it. */
  lemma PickedOrdered(c: Pass, t: Tier, slot: nat)
    requires Fits(c, t)
    ensures KeyPicked(c, Scan(c, t, 0, BUDGET).picked, slot) <==> SlotOrdered(Issued(c, t), slot)
  {
    hide Scan, Issued;
    IssuedPicked(c, t);
    var picked := Scan(c, t, 0, BUDGET).picked;
    forall j: nat | j < |picked| {
      OrdersOfAt(c, t, picked, j);
    }
    if KeyPicked(c, picked, slot) {
      var j :| 0 <= j < |picked| && picked[j] < |c.entries| && c.entries[picked[j]].key == slot;
      assert Issued(c, t)[j].slot == slot;
    }
    if SlotOrdered(Issued(c, t), slot) {
      var j :| 0 <= j < |Issued(c, t)| && Issued(c, t)[j].slot == slot;
      assert c.entries[picked[j]].key == slot;
    }
  }

  lemma {:induction false} ScanSkips(c: Pass, t: Tier, i: nat, p: nat, budget: real)
    requires Fits(c, t) && i <= p <= |c.entries|
    requires forall q :: i <= q < p ==> !Eligible(c, t, q)
    ensures Scan(c, t, i, budget) == Scan(c, t, p, budget)
    decreases p - i
  {
    hide Eligible;
    if i < p {
      ScanUnfold(c, t, i, budget);
      ScanSkips(c, t, i + 1, p, budget);
    }
  }

  /** A pass in which exactly one entry is eligible appends exactly its order. */
  lemma SinglePick(c: Pass, t: Tier, p: nat)
    requires Fits(c, t) && p < |c.entries| && Eligible(c, t, p)
    requires forall q :: 0 <= q < |c.entries| && q != p ==> !Eligible(c, t, q)
    ensures Scan(c, t, 0, BUDGET).tier == Move(c, t, p)
    ensures Issued(c, t) == [OrderFor(c, t, p)]
  {
    hide Eligible, Scan, OrderFor;
    var n, u := |c.entries|, Move(c, t, p);
    ScanSkips(c, t, 0, p, BUDGET);
    ScanUnfold(c, t, p, BUDGET);
    forall q | p < q < n
      ensures !Eligible(c, u, q)
    {
      MoveLocal(c, t, p, q);
    }
    var left := BUDGET - Share(c.kind, t.objs[c.entries[p].key]);
    ScanSkips(c, u, p + 1, n, left);
    ScanUnfold(c, u, n, left);
  }

  /** A pass whose first eligible object exhausts the budget orders nothing else. */
  lemma FirstFills(c: Pass, t: Tier, p: nat)
    requires Fits(c, t) && p < |c.entries| && Eligible(c, t, p)
    requires forall q :: 0 <= q < p ==> !Eligible(c, t, q)
    requires Share(c.kind, t.objs[c.entries[p].key]) > BUDGET
    ensures Issued(c, t) == [OrderFor(c, t, p)]
  {
    hide Eligible, Scan, OrderFor, Share;
    ScanSkips(c, t, 0, p, BUDGET);
    ScanUnfold(c, t, p, BUDGET);
  }

  lemma FirstEligible(c: Pass, t: Tier, q: nat) returns (p: nat)
    requires Fits(c, t) && q < |c.entries| && Eligible(c, t, q)
    ensures p <= q && Eligible(c, t, p) && forall s :: 0 <= s < p ==> !Eligible(c, t, s)
  {
    hide Eligible;
    p := 0;
    while !Eligible(c, t, p)
      invariant p <= q && forall s :: 0 <= s < p ==> !Eligible(c, t, s)
      decreases q - p
    {
      p := p + 1;
    }
  }

  // ---- the main results about one pass ----

  /** Priority: when an entry is picked, every eligible entry examined before it
      has had its object ordered too.  Promotion examines from the hottest entry
      down and demotion from the coldest up, so neither overtakes. */
  lemma NoOvertaking(c: Pass, t: Tier, p: nat, q: nat)
    requires Fits(c, t) && p < q < |c.entries| && Eligible(c, t, p)
    requires q in Scan(c, t, 0, BUDGET).picked
    ensures SlotOrdered(Issued(c, t), c.entries[p].key)
  {
    hide Issued, SlotOrdered;
    ScanPositions(c, t, 0, BUDGET);
    ScanComplete(c, t, 0, BUDGET, p);
    PickedOrdered(c, t, c.entries[p].key);
  }

  /** An eligible entry is passed over only when its object was ordered, or the
      orders issued before it move more than the budget. */
  lemma PassedOver(c: Pass, t: Tier, p: nat)
    requires Fits(c, t) && p < |c.entries| && Eligible(c, t, p)
    ensures forall j :: 0 <= j < |Issued(c, t)| ==> Issued(c, t)[j].slot < |t.objs|
    ensures SlotOrdered(Issued(c, t), c.entries[p].key) ||
      (Volume(t, Issued(c, t)) > BUDGET &&
       forall q :: q in Scan(c, t, 0, BUDGET).picked ==> q < p)
  {
    hide Issued, SlotOrdered, Scan, Moved, Volume, OrdersOf;
    ScanPositions(c, t, 0, BUDGET);
    ScanComplete(c, t, 0, BUDGET, p);
    PickedOrdered(c, t, c.entries[p].key);
    IssuedPicked(c, t);
    VolumeMoved(c, t, Scan(c, t, 0, BUDGET).picked);
  }

  /** `o` is the order for entry `p`, which was eligible when the pass began. */
  ghost predicate JustifiedBy(c: Pass, t: Tier, o: Order, p: nat)
    requires Fits(c, t)
  {
    p < |c.entries| && o == OrderFor(c, t, p) && Eligible(c, t, p)
  }

  ghost predicate Justified(c: Pass, t: Tier, o: Order)
    requires Fits(c, t)
  {
    exists p: nat :: JustifiedBy(c, t, o, p)
  }

  /** Every order of a pass is for an entry eligible when the pass began, and no
      slot is ordered twice, even when the list has several entries of it. */
  lemma IssuedSound(c: Pass, t: Tier)
    requires Fits(c, t)
    ensures forall j :: 0 <= j < |Issued(c, t)| ==> Justified(c, t, Issued(c, t)[j])
    ensures forall j, l :: 0 <= j < l < |Issued(c, t)| ==> Issued(c, t)[j].slot != Issued(c, t)[l].slot
  {
    hide Scan, Issued, Eligible;
    IssuedPicked(c, t);
    ScanSound(c, t, 0, BUDGET);
    var picked := Scan(c, t, 0, BUDGET).picked;
    forall j: nat | j < |picked| {
      OrdersOfAt(c, t, picked, j);
    }
    forall j | 0 <= j < |Issued(c, t)|
      ensures Justified(c, t, Issued(c, t)[j])
    {
      assert JustifiedBy(c, t, Issued(c, t)[j], picked[j]);
    }
  }

  /** What a pass leaves on a slot: without an order for it nothing changes, and
      with one the slot is marked with that order. */
  lemma PassEffect(c: Pass, t: Tier, s: nat)
    requires Fits(c, t) && s < |t.objs|
    ensures var o := Scan(c, t, 0, BUDGET).tier.objs[s];
      && (!SlotOrdered(Issued(c, t), s) ==> o == t.objs[s])
      && (forall j :: 0 <= j < |Issued(c, t)| && Issued(c, t)[j].slot == s ==>
            Marked(c, t.objs[s], o, Issued(c, t)[j].at))
  {
    hide Scan, Issued, SlotOrdered, Marked, Eligible;
    ScanEffect(c, t, 0, BUDGET, s);
    PickedOrdered(c, t, s);
    IssuedPicked(c, t);
    var picked := Scan(c, t, 0, BUDGET).picked;
    forall j | 0 <= j < |Issued(c, t)| && Issued(c, t)[j].slot == s
      ensures Marked(c, t.objs[s], Scan(c, t, 0, BUDGET).tier.objs[s], Issued(c, t)[j].at)
    {
      OrdersOfAt(c, t, picked, j);
      assert picked[j] in picked;
    }
  }

  /** Every order moves something, the right way: a promotion is of a live object
      listed above the threshold with pages in PMEM that fit the free DRAM, a
      demotion of a live object listed below it, old enough, with more than the
      least size in DRAM. */
  lemma OrdersMeaningful(c: Pass, t: Tier, j: nat)
    requires Fits(c, t) && j < |Issued(c, t)|
    ensures var o := Issued(c, t)[j];
      && o.slot < |t.objs| && o.kind == c.kind && o.live && t.alloc[o.slot]
      && o.start == t.objs[o.slot].start && o.size == t.objs[o.slot].size && o.size > 0
      && (c.kind == Promotion ==>
            && o.node == NODE_0_DRAM && t.objs[o.slot].inPmem > 0.0
            && o.size as real / GB * t.objs[o.slot].inPmem < c.free)
      && (c.kind == Demotion ==>
            && o.node == NODE_0_PMEM && t.objs[o.slot].inDram > 0.0
            && o.size as real / GB * t.objs[o.slot].inDram > MIN_SIZE_GB
            && o.at - t.objs[o.slot].birth > MIN_LIFETIME_SEC)
      && exists p :: 0 <= p < |c.entries| && c.entries[p].key == o.slot &&
           (if c.kind == Promotion then c.entries[p].value > c.threshold else c.entries[p].value < c.threshold)
  {
    hide Scan, Issued, Share;
    IssuedSound(c, t);
    var o := Issued(c, t)[j];
    assert Justified(c, t, o);
    var p: nat :| JustifiedBy(c, t, o, p);
    PositiveShare(c.kind, t.objs[o.slot]);
    ShareValue(c.kind, t.objs[o.slot]);
    assert c.entries[p].key == o.slot;
  }

  lemma PositiveShare(kind: Kind, o: Object)
    requires Share(kind, o) > 0.0
    ensures o.size > 0 && (if kind == Promotion then o.inPmem else o.inDram) > 0.0
  {
    var f := if kind == Promotion then o.inPmem else o.inDram;
    var s := o.size as real / GB;
    assert s >= 0.0;
    assert f <= 0.0 ==> s * f <= 0.0;
  }

  /** A demotion and a promotion pass under one threshold never order the same
      slot, unless the list has entries of it on both sides of the threshold. */
  lemma NoFlapping(d: Pass, t: Tier, u: Pass, v: Tier, slot: nat)
    requires Fits(d, t) && Fits(u, v) && d.kind == Demotion && u.kind == Promotion && d.threshold == u.threshold
    requires SlotOrdered(Issued(d, t), slot) && SlotOrdered(Issued(u, v), slot)
    ensures exists p, q ::
      && 0 <= p < |d.entries| && 0 <= q < |u.entries| && d.entries[p].key == u.entries[q].key == slot
      && d.entries[p].value < d.threshold < u.entries[q].value
  {
    hide Issued;
    var j :| 0 <= j < |Issued(d, t)| && Issued(d, t)[j].slot == slot;
    var l :| 0 <= l < |Issued(u, v)| && Issued(u, v)[l].slot == slot;
    OrdersMeaningful(d, t, j);
    OrdersMeaningful(u, v, l);
    var p :| 0 <= p < |d.entries| && d.entries[p].key == slot && d.entries[p].value < d.threshold;
    var q :| 0 <= q < |u.entries| && u.entries[q].key == slot && u.entries[q].value > u.threshold;
    assert d.entries[p].value < u.entries[q].value;
  }

  ghost predicate HottestFirst(es: seq<KeyValue>) {
    forall i, j :: 0 <= i < j < |es| ==> es[i].value >= es[j].value
  }

  ghost predicate ColdestFirst(es: seq<KeyValue>) {
    forall i, j :: 0 <= i < j < |es| ==> es[i].value <= es[j].value
  }

  /** No object that could be promoted is left behind while a colder one moves. */
  lemma HotterPromoted(c: Pass, t: Tier, p: nat, q: nat)
    requires Fits(c, t) && c.kind == Promotion && HottestFirst(c.entries)
    requires p < |c.entries| && Eligible(c, t, p) && q in Scan(c, t, 0, BUDGET).picked
    requires q < |c.entries| && c.entries[q].value < c.entries[p].value
    ensures SlotOrdered(Issued(c, t), c.entries[p].key)
  {
    NoOvertaking(c, t, p, q);
  }

  /** No object that could be demoted is left behind while a hotter one moves. */
  lemma ColderDemoted(c: Pass, t: Tier, p: nat, q: nat)
    requires Fits(c, t) && c.kind == Demotion && ColdestFirst(c.entries)
    requires p < |c.entries| && Eligible(c, t, p) && q in Scan(c, t, 0, BUDGET).picked
    requires q < |c.entries| && c.entries[p].value < c.entries[q].value
    ensures SlotOrdered(Issued(c, t), c.entries[p].key)
  {
    NoOvertaking(c, t, p, q);
  }

  lemma {:induction false} MovedLast(c: Pass, t: Tier, picked: seq<nat>)
    requires Fits(c, t) && picked != [] && forall j :: 0 <= j < |picked| ==> picked[j] < |c.entries|
    ensures Moved(c, t, picked) ==
      Moved(c, t, picked[..|picked| - 1]) + Share(c.kind, t.objs[c.entries[picked[|picked| - 1]].key])
  {
    hide Moved, Share;
    MovedFirst(c, t, picked);
    MovedFirst(c, t, picked[..|picked| - 1]);
    MovedFirst(c, t, []);
    if |picked| > 1 {
      MovedLast(c, t, picked[1..]);
      assert picked[..|picked| - 1][1..] == picked[1..][..|picked| - 2];
    } else {
      assert picked[1..] == [] && picked[..0] == [];
    }
  }

  /** A page fraction of at most one of a slot no larger than a chunk. */
  lemma ShareBound(kind: Kind, o: Object)
    requires o.size <= CHUNK_SIZE && o.inDram <= 1.0 && o.inPmem <= 1.0
    ensures Share(kind, o) <= BUDGET
  {
    var f := if kind == Promotion then o.inPmem else o.inDram;
    var s := o.size as real / GB;
    assert 0.0 <= s <= BUDGET;
    assert s * f <= s * 1.0;
  }

  /** The orders move at most two chunks, all but the last at most one, and every
      promoted share is below the free memory read. */
  ghost predicate WithinBudget(c: Pass, t: Tier, orders: seq<Order>) {
    && (forall j :: 0 <= j < |orders| ==> orders[j].slot < |t.objs|)
    && (orders != [] ==> Volume(t, orders[..|orders| - 1]) <= BUDGET)
    && Volume(t, orders) <= 2.0 * BUDGET
    && (c.kind == Promotion ==>
          forall j :: 0 <= j < |orders| ==>
            t.objs[orders[j].slot].size as real / GB * t.objs[orders[j].slot].inPmem < c.free)
  }

  lemma PickedBudget(c: Pass, t: Tier)
    requires Fits(c, t) && AppendOnly(t)
    requires forall i :: 0 <= i < t.total && t.alloc[i] ==> t.objs[i].inDram <= 1.0 && t.objs[i].inPmem <= 1.0
    ensures var picked := Scan(c, t, 0, BUDGET).picked;
      && (forall j :: 0 <= j < |picked| ==> picked[j] < |c.entries|)
      && (picked != [] ==> Moved(c, t, picked[..|picked| - 1]) <= BUDGET)
      && Moved(c, t, picked) <= 2.0 * BUDGET
  {
    hide Scan, Share;
    var picked := Scan(c, t, 0, BUDGET).picked;
    ScanBudget(c, t, 0, BUDGET);
    ScanSound(c, t, 0, BUDGET);
    if picked != [] {
      MovedLast(c, t, picked);
      ShareBound(c.kind, t.objs[c.entries[picked[|picked| - 1]].key]);
    }
  }

  /** The orders that a pass appends to the history stay within the budget. */
  lemma PassBudget(c: Pass, t: Tier)
    requires Fits(c, t) && AppendOnly(t)
    requires forall i :: 0 <= i < t.total && t.alloc[i] ==> t.objs[i].inDram <= 1.0 && t.objs[i].inPmem <= 1.0
    ensures WithinBudget(c, t, Issued(c, t))
  {
    hide Scan, Issued, Share, Volume, Moved, OrdersOf;
    PickedBudget(c, t);
    IssuedPicked(c, t);
    IssuedSound(c, t);
    var picked := Scan(c, t, 0, BUDGET).picked;
    VolumeMoved(c, t, picked);
    forall j | 0 <= j < |Issued(c, t)| && c.kind == Promotion
      ensures t.objs[Issued(c, t)[j].slot].size as real / GB * t.objs[Issued(c, t)[j].slot].inPmem < c.free
    {
      assert Justified(c, t, Issued(c, t)[j]);
      ShareValue(c.kind, t.objs[Issued(c, t)[j].slot]);
    }
    if picked != [] {
      OrdersPrefix(c, t, picked);
      VolumeMoved(c, t, picked[..|picked| - 1]);
    }
  }

  lemma {:induction false} MovedAtLeast(c: Pass, t: Tier, picked: seq<nat>)
    requires Fits(c, t) && c.kind == Demotion
    requires AllEligible(c, t, picked)
    ensures Moved(c, t, picked) >= |picked| as real * MIN_SIZE_GB
  {
    hide Moved, Share;
    MovedFirst(c, t, picked);
    if picked != [] {
      MovedAtLeast(c, t, picked[1..]);
    }
  }

  /** A demotion pass appends at most eleven orders to the history. */
  lemma DemotionCount(c: Pass, t: Tier)
    requires Fits(c, t) && c.kind == Demotion
    ensures |Issued(c, t)| <= 11
  {
    hide Scan, Issued;
    var picked := Scan(c, t, 0, BUDGET).picked;
    ScanBudget(c, t, 0, BUDGET);
    ScanSound(c, t, 0, BUDGET);
    IssuedPicked(c, t);
    if picked != [] {
      MovedAtLeast(c, t, picked[..|picked| - 1]);
    }
  }
}
