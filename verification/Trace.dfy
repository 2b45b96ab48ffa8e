/** What the sequence of all bind orders ever issued looks like. */
module Trace {
  import opened Options
  import opened Tiers
  import opened Policy

  /** The latest promotion or demotion of a slot. */
  function LastMove(orders: seq<Order>, slot: nat): Option<Order> {
    if orders == [] then None
    else
      var o := orders[|orders| - 1];
      if o.slot == slot && o.kind != Initial then Some(o) else LastMove(orders[..|orders| - 1], slot)
  }

  /** The time of the latest promotion of a slot. */
  function LastPromotion(orders: seq<Order>, slot: nat): Option<real> {
    if orders == [] then None
    else
      var o := orders[|orders| - 1];
      if o.slot == slot && o.kind == Promotion then Some(o.at) else LastPromotion(orders[..|orders| - 1], slot)
  }

  /** `o` may follow `orders`: its slot is live, its kind differs from the slot's
      latest move, and a promotion comes more than five seconds after the last. */
  ghost predicate MayFollow(orders: seq<Order>, o: Order) {
    o.kind != Initial ==>
      var last := LastMove(orders, o.slot);
      var promoted := LastPromotion(orders, o.slot);
      && o.live
      && (last.Some? ==> last.value.kind != o.kind)
      && (o.kind == Promotion && promoted.Some? ==> o.at > promoted.value + MIN_LIFETIME_SEC)
  }

  ghost predicate Disciplined(orders: seq<Order>) {
    forall b :: 0 <= b < |orders| ==> MayFollow(orders[..b], orders[b])
  }

  /** A slot's decision, birth date and orders agree. */
  ghost predicate SlotAgrees(o: Object, last: Option<Order>, promoted: Option<real>, now: real) {
    match last
    case None => o.lastDecision == Undecided && promoted == None
    case Some(m) =>
      && m.at <= now
      && o.lastDecision == (if m.kind == Promotion then ToDram else ToPmem)
      && (m.kind == Promotion ==> promoted == Some(m.at) && o.birth >= m.at)
      && (m.kind != Promotion && promoted.Some? ==> m.at > promoted.value + MIN_LIFETIME_SEC)
  }

  ghost predicate Agrees(t: Tier, now: real) {
    forall s: nat :: s < |t.objs| ==>
      SlotAgrees(t.objs[s], LastMove(t.orders, s), LastPromotion(t.orders, s), now)
  }

  ghost predicate Orderly(t: Tier, now: real) {
    Disciplined(t.orders) && Agrees(t, now)
  }

  lemma LastSnoc(orders: seq<Order>, o: Order, slot: nat)
    ensures LastMove(orders + [o], slot) ==
      if o.slot == slot && o.kind != Initial then Some(o) else LastMove(orders, slot)
    ensures LastPromotion(orders + [o], slot) ==
      if o.slot == slot && o.kind == Promotion then Some(o.at) else LastPromotion(orders, slot)
  {
    assert (orders + [o])[..|orders|] == orders;
  }

  lemma DisciplinedSnoc(orders: seq<Order>, o: Order)
    requires Disciplined(orders) && MayFollow(orders, o)
    ensures Disciplined(orders + [o])
  {
    var all := orders + [o];
    forall b | 0 <= b < |all|
      ensures MayFollow(all[..b], all[b])
    {
      if b < |orders| {
        assert all[..b] == orders[..b];
      } else {
        assert all[..b] == orders;
      }
    }
  }

  lemma AgreesLater(t: Tier, now: real, later: real)
    requires Orderly(t, now) && now <= later
    ensures Orderly(t, later)
  {
  }

  // ---- what each step keeps ----

  lemma MoveKeeps(c: Pass, t: Tier, p: nat, now: real)
    requires Fits(c, t) && p < |c.entries| && Eligible(c, t, p)
    requires Orderly(t, now) && now <= c.clock(p)
    ensures Orderly(Move(c, t, p), c.clock(p))
  {
    hide LastMove, LastPromotion, Disciplined;
    var k := c.entries[p].key;
    var u := Move(c, t, p);
    var o := u.orders[|t.orders|];
    assert u.orders == t.orders + [o];
    assert SlotAgrees(t.objs[k], LastMove(t.orders, k), LastPromotion(t.orders, k), now);
    DisciplinedSnoc(t.orders, o);
    forall s: nat | s < |u.objs|
      ensures SlotAgrees(u.objs[s], LastMove(u.orders, s), LastPromotion(u.orders, s), c.clock(p))
    {
      LastSnoc(t.orders, o, s);
      assert SlotAgrees(t.objs[s], LastMove(t.orders, s), LastPromotion(t.orders, s), now);
    }
  }

  ghost predicate Ticking(c: Pass, now: real, end: real) {
    && (forall p: nat :: p < |c.entries| ==> now <= c.clock(p) <= end)
    && (forall p: nat, q: nat :: p < q < |c.entries| ==> c.clock(p) <= c.clock(q))
  }

  lemma {:induction false} ScanKeeps(c: Pass, t: Tier, i: nat, budget: real, now: real, end: real)
    requires Fits(c, t) && i <= |c.entries| && Orderly(t, now) && now <= end && Ticking(c, c.clock(0), end)
    requires i < |c.entries| ==> now <= c.clock(i)
    ensures Orderly(Scan(c, t, i, budget).tier, end)
    decreases |c.entries| - i
  {
    if i == |c.entries| {
      AgreesLater(t, now, end);
    } else if !Eligible(c, t, i) {
      ScanKeeps(c, t, i + 1, budget, now, end);
    } else {
      var left := budget - Share(c.kind, t.objs[c.entries[i].key]);
      MoveKeeps(c, t, i, now);
      if left < 0.0 {
        AgreesLater(Move(c, t, i), c.clock(i), end);
      } else {
        ScanKeeps(c, Move(c, t, i), i + 1, left, c.clock(i), end);
      }
    }
  }

  /** Steps that issue no order and leave decisions and birth dates alone. */
  lemma QuietKeeps(t: Tier, u: Tier, now: real)
    requires Orderly(t, now) && u.orders == t.orders && |u.objs| == |t.objs|
    requires forall s: nat :: s < |t.objs| ==>
      u.objs[s].lastDecision == t.objs[s].lastDecision && u.objs[s].birth == t.objs[s].birth
    ensures Orderly(u, now)
  {
    hide LastMove, LastPromotion, Disciplined;
    forall s: nat | s < |u.objs|
      ensures SlotAgrees(u.objs[s], LastMove(u.orders, s), LastPromotion(u.orders, s), now)
    {
      assert SlotAgrees(t.objs[s], LastMove(t.orders, s), LastPromotion(t.orders, s), now);
    }
  }

  lemma RecordKeeps(t: Tier, slot: nat, pid: int, p: Piece, sliced: bool, now: real, at: real)
    requires Orderly(t, now) && now <= at && slot < |t.objs| == |t.alloc|
    ensures Orderly(RecordAt(t, slot, pid, p, sliced, at), at)
  {
    hide LastMove, LastPromotion, Disciplined;
    var u := RecordAt(t, slot, pid, p, sliced, at);
    var o := u.orders[|t.orders|];
    DisciplinedSnoc(t.orders, o);
    forall s: nat | s < |u.objs|
      ensures SlotAgrees(u.objs[s], LastMove(u.orders, s), LastPromotion(u.orders, s), at)
    {
      LastSnoc(t.orders, o, s);
      assert SlotAgrees(t.objs[s], LastMove(t.orders, s), LastPromotion(t.orders, s), now);
    }
  }

  lemma {:induction false} AppendKeeps(
    t: Tier, pid: int, ps: seq<Piece>, n: nat, sliced: bool, clock: nat -> real, now: real)
    requires n <= |ps| && |t.objs| == |t.alloc| && t.total + n <= |t.objs| && Orderly(t, now)
    requires forall j: nat :: j < n ==> now <= clock(j)
    requires forall j: nat, l: nat :: j < l < n ==> clock(j) <= clock(l)
    ensures Orderly(AppendAll(t, pid, ps, n, sliced, clock), if n == 0 then now else clock(n - 1))
  {
    if n > 0 {
      AppendKeeps(t, pid, ps, n - 1, sliced, clock, now);
      var u := AppendAll(t, pid, ps, n - 1, sliced, clock);
      RecordKeeps(u, u.total, pid, ps[n - 1], sliced, if n == 1 then now else clock(n - 2), clock(n - 1));
    }
  }

  // ---- what discipline means ----

  lemma {:induction false} LastMoveIs(orders: seq<Order>, a: nat, b: nat)
    requires a < b <= |orders| && orders[a].kind != Initial
    requires forall m :: a < m < b && orders[m].slot == orders[a].slot ==> orders[m].kind == Initial
    ensures LastMove(orders[..b], orders[a].slot) == Some(orders[a])
    decreases b
  {
    assert orders[..b][..b - 1] == orders[..b - 1];
    if a < b - 1 {
      LastMoveIs(orders, a, b - 1);
    }
  }

  /** Consecutive moves of a slot alternate between promotion and demotion, and
      every move is of a slot live at that moment. */
  lemma MovesAlternate(orders: seq<Order>, a: nat, b: nat)
    requires Disciplined(orders) && a < b < |orders|
    requires orders[a].slot == orders[b].slot && orders[a].kind != Initial && orders[b].kind != Initial
    requires forall m :: a < m < b && orders[m].slot == orders[a].slot ==> orders[m].kind == Initial
    ensures orders[a].kind != orders[b].kind && orders[a].live && orders[b].live
  {
    LastMoveIs(orders, a, b);
    assert MayFollow(orders[..a], orders[a]);
    assert MayFollow(orders[..b], orders[b]);
  }

  lemma MoveLive(orders: seq<Order>, a: nat)
    requires Disciplined(orders) && a < |orders| && orders[a].kind != Initial
    ensures orders[a].live
  {
    assert MayFollow(orders[..a], orders[a]);
  }

  lemma {:induction false} LastPromotionAfter(orders: seq<Order>, a: nat, b: nat)
    requires Disciplined(orders) && a < b <= |orders| && orders[a].kind == Promotion
    ensures var last := LastPromotion(orders[..b], orders[a].slot); last.Some? && last.value >= orders[a].at
    decreases b
  {
    assert orders[..b][..b - 1] == orders[..b - 1];
    if a < b - 1 {
      LastPromotionAfter(orders, a, b - 1);
      assert MayFollow(orders[..b - 1], orders[b - 1]);
    }
  }

  /** Any two promotions of one slot are more than five seconds apart. */
  lemma PromotionsSpaced(orders: seq<Order>, a: nat, b: nat)
    requires Disciplined(orders) && a < b < |orders|
    requires orders[a].slot == orders[b].slot && orders[a].kind == orders[b].kind == Promotion
    ensures orders[b].at - orders[a].at > MIN_LIFETIME_SEC
  {
    LastPromotionAfter(orders, a, b);
    assert MayFollow(orders[..b], orders[b]);
  }
}
