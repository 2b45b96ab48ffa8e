/** The records shared by the recorder, the monitor and the actuator. */
module Tiers {
  const MAX_OBJECTS: nat := 2000
  const CHUNK_SIZE: nat := 1_000_001_536
  const PAGE_SIZE: nat := 4096
  const MEM_LEVELS: nat := 5
  const GB: real := 1_000_000_000.0
  const NODE_0_DRAM: nat := 0
  const NODE_0_PMEM: nat := 2
  const NO_ADDRESS: nat := 0xFFFF_FFFF_FFFF_FFFF

  /** One number per memory level: L1, fill buffer, L2, L3 and memory. */
  type Levels = s: seq<real> | |s| == 5 witness [0.0, 0.0, 0.0, 0.0, 0.0]

  const ZEROS: Levels := [0.0, 0.0, 0.0, 0.0, 0.0]

  datatype Metrics = Metrics(latency: Levels, loads: Levels, stores: real, tlbHit: Levels, tlbMiss: Levels)

  /** The metrics of a slot that was never sampled. */
  const BLANK: Metrics := Metrics(ZEROS, ZEROS, 0.0, ZEROS, ZEROS)

  /** The last migration ordered for a slot. */
  datatype Decision = Undecided | ToDram | ToPmem

  /** `inDram` and `inPmem` are the fractions of the pages last seen on either node. */
  datatype Object = Object(
    start: nat, end: nat, size: nat, pages: nat, birth: real, inDram: real, inPmem: real,
    sliced: bool, index: nat, pid: int, lastDecision: Decision, metrics: Metrics)

  datatype Kind = Initial | Promotion | Demotion

  /** A bind order, as written to the migration pipe, with the reading of the
      clock and the slot's liveness when it was issued. */
  datatype Order = Order(kind: Kind, slot: nat, start: nat, size: nat, node: nat, at: real, live: bool)

  /** The tier manager as a value, with every bind order so far. */
  datatype Tier = Tier(objs: seq<Object>, alloc: seq<bool>, total: nat, orders: seq<Order>)

  /** Slots are handed out in order and never reused, so none is live at or
      beyond the number handed out; and no slot is larger than a chunk. */
  ghost predicate AppendOnly(t: Tier) {
    && |t.objs| == |t.alloc| == MAX_OBJECTS
    && t.total <= MAX_OBJECTS
    && (forall i :: t.total <= i < MAX_OBJECTS ==> !t.alloc[i])
    && (forall i :: 0 <= i < t.total ==> t.objs[i].end == t.objs[i].start + t.objs[i].size)
    && (forall i :: 0 <= i < t.total ==> t.objs[i].size <= CHUNK_SIZE)
  }

  // ---- chunks ----

  datatype Piece = Piece(start: nat, size: nat)

  function ChunkAt(start: nat, j: nat): Piece {
    Piece(start + j * CHUNK_SIZE, CHUNK_SIZE)
  }

  function FullChunks(start: nat, count: nat): (ps: seq<Piece>)
    ensures |ps| == count
  {
    seq(count, j requires 0 <= j => ChunkAt(start, j))
  }

  /** What is recorded for a mapping: the full chunks, then the remnant, or one
      more full chunk when there is no remnant. */
  function Chunks(start: nat, size: nat): (ps: seq<Piece>)
    ensures |ps| >= 1
  {
    if size <= CHUNK_SIZE then [Piece(start, size)]
    else
      var k := size / CHUNK_SIZE;
      var rest := size % CHUNK_SIZE;
      FullChunks(start, k) + [Piece(start + k * CHUNK_SIZE, if rest > 0 then rest else CHUNK_SIZE)]
  }

  /** The pieces follow each other without gap or overlap from `lo` to `hi`. */
  ghost predicate Tile(ps: seq<Piece>, lo: nat, hi: nat) {
    && |ps| > 0 && ps[0].start == lo
    && (forall j :: 0 < j < |ps| ==> ps[j].start == ps[j - 1].start + ps[j - 1].size)
    && hi == ps[|ps| - 1].start + ps[|ps| - 1].size
  }

  lemma ChunkShape(start: nat, size: nat, j: nat)
    requires j < |Chunks(start, size)|
    ensures Chunks(start, size)[j].start == start + j * CHUNK_SIZE
    ensures j + 1 < |Chunks(start, size)| ==> Chunks(start, size)[j].size == CHUNK_SIZE
    ensures Chunks(start, size)[j].size <= CHUNK_SIZE
  {
  }

  /** The recorded chunks tile the mapping exactly, unless its size is a multiple
      of the chunk size above one chunk; then they run one chunk past its end. */
  lemma ChunksTile(start: nat, size: nat)
    ensures Tile(Chunks(start, size), start, start + size) <==> (size <= CHUNK_SIZE || size % CHUNK_SIZE != 0)
    ensures size > CHUNK_SIZE && size % CHUNK_SIZE == 0 ==>
      Tile(Chunks(start, size), start, start + size + CHUNK_SIZE)
  {
    var ps := Chunks(start, size);
    forall j | 0 < j < |ps|
      ensures ps[j].start == ps[j - 1].start + ps[j - 1].size
    {
      ChunkShape(start, size, j);
      ChunkShape(start, size, j - 1);
    }
    ChunkShape(start, size, 0);
    ChunkShape(start, size, |ps| - 1);
    assert size == (size / CHUNK_SIZE) * CHUNK_SIZE + size % CHUNK_SIZE;
  }

  // ---- the registry as a value ----

  /** The record of a newly mapped piece; decision, page status and metrics are
      whatever the slot held before. */
  function Recorded(o: Object, pid: int, p: Piece, sliced: bool, slot: nat, now: real): Object {
    o.(start := p.start, end := p.start + p.size, size := p.size, pages := p.size / PAGE_SIZE,
       birth := now, sliced := sliced, index := slot, pid := pid)
  }

  function RecordAt(t: Tier, slot: nat, pid: int, p: Piece, sliced: bool, now: real): Tier
    requires slot < |t.objs| == |t.alloc|
  {
    Tier(t.objs[slot := Recorded(t.objs[slot], pid, p, sliced, slot, now)],
         t.alloc[slot := true],
         t.total + 1,
         t.orders + [Order(Initial, slot, p.start, p.size, NODE_0_DRAM, now, true)])
  }

  /** The first `n` pieces appended; `clock(j)` is the reading taken for piece `j`. */
  function AppendAll(t: Tier, pid: int, ps: seq<Piece>, n: nat, sliced: bool, clock: nat -> real): (u: Tier)
    requires n <= |ps| && |t.objs| == |t.alloc| && t.total + n <= |t.objs|
    ensures |u.objs| == |u.alloc| == |t.objs| && u.total == t.total + n
  {
    if n == 0 then t
    else RecordAt(AppendAll(t, pid, ps, n - 1, sliced, clock), t.total + n - 1, pid, ps[n - 1], sliced, clock(n - 1))
  }

  predicate Matches(t: Tier, p: Piece, i: nat)
    requires i < |t.objs| == |t.alloc|
  {
    t.objs[i].start == p.start && t.objs[i].size == p.size && t.alloc[i]
  }

  /** The lowest live slot from `i` on that records exactly `p`, or `total`. */
  function FirstMatch(t: Tier, p: Piece, i: nat): (s: nat)
    requires i <= t.total <= |t.objs| == |t.alloc|
    ensures i <= s <= t.total
    ensures s < t.total ==> Matches(t, p, s)
    ensures forall j :: i <= j < s ==> !Matches(t, p, j)
    decreases t.total - i
  {
    if i == t.total || Matches(t, p, i) then i else FirstMatch(t, p, i + 1)
  }

  function Release(t: Tier, p: Piece): (u: Tier)
    requires t.total <= |t.objs| == |t.alloc|
    ensures |u.alloc| == |t.alloc| && u == t.(alloc := u.alloc)
  {
    var s := FirstMatch(t, p, 0);
    if s < t.total then t.(alloc := t.alloc[s := false]) else t
  }

  function ReleaseAll(t: Tier, ps: seq<Piece>, n: nat): (u: Tier)
    requires n <= |ps| && t.total <= |t.objs| == |t.alloc|
    ensures |u.alloc| == |t.alloc| && u == t.(alloc := u.alloc)
  {
    if n == 0 then t else Release(ReleaseAll(t, ps, n - 1), ps[n - 1])
  }

  /** After an insertion, the new slots record the pieces in order, are live,
      and nothing else has changed. */
  lemma {:induction false} AppendAllSlots(t: Tier, pid: int, ps: seq<Piece>, n: nat, sliced: bool, clock: nat -> real)
    requires n <= |ps| && |t.objs| == |t.alloc| && t.total + n <= |t.objs|
    ensures var u := AppendAll(t, pid, ps, n, sliced, clock);
      && (forall i :: t.total <= i < t.total + n ==>
            u.alloc[i] &&
            u.objs[i] == Recorded(t.objs[i], pid, ps[i - t.total], sliced, i, clock(i - t.total)))
      && (forall i :: 0 <= i < |t.objs| && !(t.total <= i < t.total + n) ==>
            u.alloc[i] == t.alloc[i] && u.objs[i] == t.objs[i])
  {
    hide Recorded;
    if n > 0 {
      AppendAllSlots(t, pid, ps, n - 1, sliced, clock);
    }
  }

  /** Each new slot has exactly the fields of its piece, and keeps decision, page
      status and metrics; its initial placement is ordered in DRAM at that time. */
  lemma {:induction false} AppendRecords(
    t: Tier, pid: int, ps: seq<Piece>, n: nat, sliced: bool, clock: nat -> real, j: nat)
    requires n <= |ps| && |t.objs| == |t.alloc| && t.total + n <= |t.objs| && j < n
    ensures var u := AppendAll(t, pid, ps, n, sliced, clock);
      var o, was := u.objs[t.total + j], t.objs[t.total + j];
      && o.start == ps[j].start && o.size == ps[j].size && o.end == ps[j].start + ps[j].size
      && o.pages == ps[j].size / 4096 && o.birth == clock(j) && o.sliced == sliced
      && o.index == t.total + j && o.pid == pid
      && o.lastDecision == was.lastDecision && o.metrics == was.metrics
      && o.inDram == was.inDram && o.inPmem == was.inPmem
  {
    hide AppendAll;
    AppendAllSlots(t, pid, ps, n, sliced, clock);
    assert ps[t.total + j - t.total] == ps[j];
  }

  /** Recording appends one order per piece: its address and size, to DRAM. */
  lemma {:induction false} AppendOrders(t: Tier, pid: int, ps: seq<Piece>, n: nat, sliced: bool, clock: nat -> real)
    requires n <= |ps| && |t.objs| == |t.alloc| && t.total + n <= |t.objs|
    ensures var u := AppendAll(t, pid, ps, n, sliced, clock);
      && |u.orders| == |t.orders| + n && u.orders[..|t.orders|] == t.orders
      && (forall k :: |t.orders| <= k < |u.orders| ==>
            var j := k - |t.orders|;
            u.orders[k] == Order(Initial, t.total + j, ps[j].start, ps[j].size, NODE_0_DRAM, clock(j), true))
  {
    if n > 0 {
      AppendOrders(t, pid, ps, n - 1, sliced, clock);
    }
  }

  lemma AppendAllAppendOnly(t: Tier, pid: int, start: nat, size: nat, n: nat, sliced: bool, clock: nat -> real)
    requires AppendOnly(t) && n <= |Chunks(start, size)| && t.total + n <= MAX_OBJECTS
    ensures AppendOnly(AppendAll(t, pid, Chunks(start, size), n, sliced, clock))
  {
    hide AppendAll, Chunks;
    var ps := Chunks(start, size);
    AppendAllSlots(t, pid, ps, n, sliced, clock);
    var u := AppendAll(t, pid, ps, n, sliced, clock);
    forall i | 0 <= i < u.total
      ensures u.objs[i].end == u.objs[i].start + u.objs[i].size && u.objs[i].size <= CHUNK_SIZE
    {
      if i >= t.total {
        var j: nat := i - t.total;
        ChunkShape(start, size, j);
        assert u.objs[i] == Recorded(t.objs[i], pid, ps[j], sliced, i, clock(j));
      }
    }
  }

  lemma {:induction false} ReleaseOnlyClears(t: Tier, ps: seq<Piece>, n: nat)
    requires n <= |ps| && t.total <= |t.objs| == |t.alloc|
    ensures forall i :: 0 <= i < |t.alloc| && ReleaseAll(t, ps, n).alloc[i] ==> t.alloc[i]
  {
    if n > 0 {
      ReleaseOnlyClears(t, ps, n - 1);
    }
  }

  lemma ReleaseAppendOnly(t: Tier, ps: seq<Piece>)
    requires AppendOnly(t)
    ensures AppendOnly(ReleaseAll(t, ps, |ps|))
  {
    ReleaseOnlyClears(t, ps, |ps|);
  }

  /** The scan for a match may stop at the number of slots handed out: beyond it
      nothing is live, so a scan of the whole vector finds the same slot. */
  lemma BoundedScan(t: Tier, p: Piece)
    requires AppendOnly(t)
    ensures var s := FirstMatch(t, p, 0);
      var w := FirstMatch(t.(total := MAX_OBJECTS), p, 0);
      if s < t.total then w == s else w == MAX_OBJECTS
  {
    var s := FirstMatch(t, p, 0);
    var u := t.(total := MAX_OBJECTS);
    var w := FirstMatch(u, p, 0);
    if w < MAX_OBJECTS {
      assert Matches(t, p, w);
    }
    if s < t.total {
      assert Matches(u, p, s);
    }
  }

  // ---- what is released ----

  /** Slot `i` is live and its address and size are both those of the piece. */
  ghost predicate Records(t: Tier, p: Piece, i: nat) {
    i < t.total <= |t.objs| == |t.alloc| && t.alloc[i] && t.objs[i].start == p.start && t.objs[i].size == p.size
  }

  /** `i` is the lowest slot that records the piece. */
  ghost predicate LowestRecord(t: Tier, p: Piece, i: nat) {
    Records(t, p, i) && forall h: nat :: h < i ==> !Records(t, p, h)
  }

  /** A piece is released from the lowest slot that records it, and no other slot
      changes; with no such slot nothing changes. */
  lemma ReleaseExact(t: Tier, p: Piece)
    requires t.total <= |t.objs| == |t.alloc|
    ensures forall i: nat :: i < |t.alloc| ==>
      Release(t, p).alloc[i] == (t.alloc[i] && !LowestRecord(t, p, i))
    ensures (forall i: nat :: !Records(t, p, i)) ==> Release(t, p) == t
  {
    var s := FirstMatch(t, p, 0);
    if s < t.total {
      assert Records(t, p, s);
    }
    assert forall i: nat :: i < t.total ==> (Records(t, p, i) <==> Matches(t, p, i));
  }

  ghost predicate StartsDistinct(ps: seq<Piece>) {
    forall j, l :: 0 <= j < l < |ps| ==> ps[j].start != ps[l].start
  }

  /** Slot `i` is the lowest record of one of the first `n` pieces. */
  ghost predicate Released(t: Tier, ps: seq<Piece>, n: nat, i: nat)
    requires n <= |ps|
  {
    exists j :: 0 <= j < n && LowestRecord(t, ps[j], i)
  }

  /** Earlier pieces are not released from a slot that records this one. */
  lemma RecordKept(t: Tier, v: Tier, ps: seq<Piece>, n: nat, i: nat)
    requires n < |ps| && StartsDistinct(ps) && i < |t.alloc| == |v.alloc| && v == t.(alloc := v.alloc)
    requires v.alloc[i] == (t.alloc[i] && !Released(t, ps, n, i))
    ensures Records(v, ps[n], i) <==> Records(t, ps[n], i)
  {
  }

  /** Releasing pieces at different addresses clears exactly the lowest record of
      each, as they were before any of them was released. */
  lemma {:induction false} ReleaseAllExact(t: Tier, ps: seq<Piece>, n: nat)
    requires t.total <= |t.objs| == |t.alloc| && n <= |ps| && StartsDistinct(ps)
    ensures forall i: nat :: i < |t.alloc| ==>
      ReleaseAll(t, ps, n).alloc[i] == (t.alloc[i] && !Released(t, ps, n, i))
  {
    hide StartsDistinct, Records;
    if n > 0 {
      var v := ReleaseAll(t, ps, n - 1);
      ReleaseAllExact(t, ps, n - 1);
      ReleaseExact(v, ps[n - 1]);
      var p := ps[n - 1];
      forall i: nat | i < |t.alloc|
        ensures Records(v, p, i) <==> Records(t, p, i)
      {
        RecordKept(t, v, ps, n - 1, i);
      }
    }
  }

  /** What unmapping any range does, mapped like that or not: a slot dies exactly
      when it is the lowest live one with the address and size of a piece. */
  lemma UnmapExact(t: Tier, start: nat, size: nat)
    requires t.total <= |t.objs| == |t.alloc|
    ensures var ps := Chunks(start, size);
      && (forall i: nat :: i < |t.alloc| ==>
            ReleaseAll(t, ps, |ps|).alloc[i] == (t.alloc[i] && !Released(t, ps, |ps|, i)))
      && ((forall i: nat, j :: 0 <= j < |ps| ==> !Records(t, ps[j], i)) ==> ReleaseAll(t, ps, |ps|) == t)
  {
    hide Chunks, ReleaseAll;
    var ps := Chunks(start, size);
    forall j: nat | j < |ps| {
      ChunkShape(start, size, j);
    }
    ReleaseAllExact(t, ps, |ps|);
  }

  /** The slots from `base` on are live and record the pieces. */
  ghost predicate Holds(t: Tier, ps: seq<Piece>, base: nat) {
    && base + |ps| <= t.total <= |t.objs| == |t.alloc|
    && (forall i :: base <= i < base + |ps| ==>
          t.alloc[i] && t.objs[i].start == ps[i - base].start && t.objs[i].size == ps[i - base].size)
  }

  /** Some live slot below `base` records one of the pieces too. */
  ghost predicate Shadowed(t: Tier, ps: seq<Piece>, base: nat)
    requires base <= |t.objs| == |t.alloc|
  {
    exists i, j :: 0 <= i < base && 0 <= j < |ps| &&
      t.alloc[i] && t.objs[i].start == ps[j].start && t.objs[i].size == ps[j].size
  }

  /** The slots of the first `n` pieces are dead in `u`, and no other slot changed. */
  ghost predicate ClearedExactly(t: Tier, u: Tier, base: nat, n: nat) {
    && |u.alloc| == |t.alloc|
    && forall i :: 0 <= i < |t.alloc| ==> u.alloc[i] == (t.alloc[i] && !(base <= i < base + n))
  }

  /** With the first pieces already released, the next one is found in its own slot. */
  lemma ReleaseTarget(t: Tier, v: Tier, ps: seq<Piece>, base: nat, n: nat)
    requires Holds(t, ps, base) && n < |ps| && !Shadowed(t, ps, base)
    requires ClearedExactly(t, v, base, n) && v == t.(alloc := v.alloc)
    ensures FirstMatch(v, ps[n], 0) == base + n
  {
    assert Matches(v, ps[n], base + n);
    var s := FirstMatch(v, ps[n], 0);
    if s < base + n {
      assert false;
    }
  }

  lemma {:induction false} ReleaseOwn(t: Tier, ps: seq<Piece>, base: nat, n: nat)
    requires Holds(t, ps, base) && n <= |ps| && !Shadowed(t, ps, base)
    ensures ClearedExactly(t, ReleaseAll(t, ps, n), base, n)
  {
    hide Shadowed;
    if n > 0 {
      ReleaseOwn(t, ps, base, n - 1);
      ReleaseTarget(t, ReleaseAll(t, ps, n - 1), ps, base, n - 1);
    }
  }

  /** Once a piece that a live slot below `base` records is released, some slot
      below `base` has died. */
  lemma {:induction false} ReleaseHitsLower(t: Tier, ps: seq<Piece>, base: nat, n: nat, i: nat, j: nat)
    requires base <= t.total <= |t.objs| == |t.alloc|
    requires n <= |ps| && j < n && i < base && Matches(t, ps[j], i)
    ensures exists s :: 0 <= s < base && t.alloc[s] && !ReleaseAll(t, ps, n).alloc[s]
    decreases n
  {
    var v := ReleaseAll(t, ps, n - 1);
    if j < n - 1 {
      ReleaseHitsLower(t, ps, base, n - 1, i, j);
    } else {
      ReleaseOnlyClears(t, ps, n - 1);
      if v.alloc[i] {
        assert Matches(v, ps[j], i);
        var s := FirstMatch(v, ps[j], 0);
        assert s <= i && t.alloc[s];
      }
    }
  }

  /** In every state that holds the pieces of a mapping, wherever they are and
      whatever else is recorded, unmapping it clears exactly their slots, if and
      only if no live slot below them records one of the pieces. */
  lemma UnmapClears(t: Tier, ps: seq<Piece>, base: nat)
    requires Holds(t, ps, base)
    ensures ClearedExactly(t, ReleaseAll(t, ps, |ps|), base, |ps|) <==> !Shadowed(t, ps, base)
  {
    if !Shadowed(t, ps, base) {
      ReleaseOwn(t, ps, base, |ps|);
    } else {
      var i, j :| 0 <= i < base && 0 <= j < |ps| &&
        t.alloc[i] && t.objs[i].start == ps[j].start && t.objs[i].size == ps[j].size;
      ReleaseHitsLower(t, ps, base, |ps|, i, j);
    }
  }

  /** A mapping just recorded is held in the next slots. */
  lemma AppendHolds(t: Tier, pid: int, ps: seq<Piece>, sliced: bool, clock: nat -> real)
    requires |t.objs| == |t.alloc| && t.total + |ps| <= |t.objs|
    ensures Holds(AppendAll(t, pid, ps, |ps|, sliced, clock), ps, t.total)
  {
    hide AppendAll;
    AppendAllSlots(t, pid, ps, |ps|, sliced, clock);
  }

  // ---- address lookup ----

  /** Slot `i` is live and its closed interval holds `addr`. */
  predicate Touches(t: Tier, addr: nat, i: nat)
    requires i < |t.objs| == |t.alloc|
  {
    t.objs[i].start <= addr <= t.objs[i].end && t.alloc[i]
  }

  /** Some live slot below `base` has an interval that holds `addr`, its ends included. */
  ghost predicate TouchedBelow(t: Tier, addr: nat, base: nat)
    requires base <= |t.objs| == |t.alloc|
  {
    exists s :: 0 <= s < base && t.alloc[s] && t.objs[s].start <= addr <= t.objs[s].end
  }

  /** `i` is the lowest live slot whose interval holds `addr`, its ends included,
      or -1 when there is none. */
  ghost predicate Resolves(t: Tier, addr: nat, i: int)
    requires |t.objs| == |t.alloc|
  {
    && -1 <= i < |t.alloc|
    && (i >= 0 ==> t.alloc[i] && t.objs[i].start <= addr <= t.objs[i].end)
    && (forall s :: 0 <= s < (if i < 0 then |t.alloc| else i) ==>
          !(t.alloc[s] && t.objs[s].start <= addr <= t.objs[s].end))
  }

  /** The slot the scan finds from `i` on. */
  function Lookup(t: Tier, addr: nat, i: nat): (r: int)
    requires i <= |t.objs| == |t.alloc|
    ensures r == -1 || i <= r < |t.alloc|
    decreases |t.alloc| - i
  {
    if i == |t.alloc| then -1 else if Touches(t, addr, i) then i else Lookup(t, addr, i + 1)
  }

  lemma {:induction false} LookupFrom(t: Tier, addr: nat, i: nat)
    requires i <= |t.objs| == |t.alloc|
    ensures var r := Lookup(t, addr, i);
      && (r >= 0 ==> t.alloc[r] && t.objs[r].start <= addr <= t.objs[r].end)
      && (forall s :: i <= s < (if r < 0 then |t.alloc| else r) ==>
            !(t.alloc[s] && t.objs[s].start <= addr <= t.objs[s].end))
    decreases |t.alloc| - i
  {
    if i < |t.alloc| && !Touches(t, addr, i) {
      LookupFrom(t, addr, i + 1);
    }
  }

  lemma LookupResolves(t: Tier, addr: nat, i: int)
    requires |t.objs| == |t.alloc|
    ensures Resolves(t, addr, i) <==> i == Lookup(t, addr, 0)
  {
    LookupFrom(t, addr, 0);
  }

  /** Where an offset into a mapping is found: the chunk that arithmetic gives,
      except at a positive multiple of the chunk size, where the intervals of two
      chunks meet and the lower one wins. */
  function ChunkOf(o: nat): nat {
    if o > 0 && o % CHUNK_SIZE == 0 then o / CHUNK_SIZE - 1 else o / CHUNK_SIZE
  }

  lemma ChunkOfBounds(o: nat)
    ensures o == 0 ==> ChunkOf(o) == 0
    ensures o > 0 ==> ChunkOf(o) * CHUNK_SIZE < o <= (ChunkOf(o) + 1) * CHUNK_SIZE
  {
  }

  /** The end of the last recorded piece, as an offset. */
  function Span(size: nat): nat {
    if size > CHUNK_SIZE && size % CHUNK_SIZE == 0 then size + CHUNK_SIZE else size
  }

  lemma SpanChunks(start: nat, size: nat, o: nat)
    requires o <= Span(size)
    ensures var ps := Chunks(start, size);
      && ChunkOf(o) < |ps| && o <= |ps| * CHUNK_SIZE
      && ps[ChunkOf(o)].start <= start + o <= ps[ChunkOf(o)].start + ps[ChunkOf(o)].size
      && (forall j :: 0 <= j < ChunkOf(o) ==> ps[j].start + ps[j].size < start + o)
  {
    ChunkOfBounds(o);
    var ps := Chunks(start, size);
    assert size == (size / CHUNK_SIZE) * CHUNK_SIZE + size % CHUNK_SIZE;
    forall j | 0 <= j < ChunkOf(o)
      ensures j < |ps| && ps[j].start + ps[j].size < start + o
    {
      ChunkShape(start, size, j);
    }
    ChunkShape(start, size, ChunkOf(o));
  }

  /** In every state that holds a mapping, wherever it is and whatever else is
      recorded, the linear scan of an address inside it finds the slot that
      arithmetic predicts, if and only if no live slot below it touches the address. */
  lemma LookupIsArithmetic(t: Tier, base: nat, start: nat, size: nat, o: nat)
    requires AppendOnly(t) && Holds(t, Chunks(start, size), base) && o <= Span(size)
    ensures Resolves(t, start + o, base + ChunkOf(o)) <==> !TouchedBelow(t, start + o, base)
  {
    SpanChunks(start, size, o);
    var ps := Chunks(start, size);
    var addr := start + o;
    assert Touches(t, addr, base + ChunkOf(o));
    forall s | base <= s < base + ChunkOf(o)
      ensures !Touches(t, addr, s)
    {
      assert ps[s - base].start + ps[s - base].size < addr;
    }
  }
}
