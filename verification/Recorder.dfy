/** The object registry: mappings are split into chunks, each recorded in the
    next slot, and removed again by exact match. */
module Recorder {
  import opened Tiers

  /** A slot as the recorder initialises it. */
  ghost predicate Blank(o: Object) {
    && o.start == NO_ADDRESS && !o.sliced && o.lastDecision == Undecided
    && o.metrics == BLANK
  }

  /** The lowest slot from `i` on that is not live, or the number of slots. */
  function FirstFree(alloc: seq<bool>, i: nat): (s: nat)
    requires i <= |alloc|
    ensures i <= s <= |alloc|
    ensures s < |alloc| ==> !alloc[s]
    ensures forall j :: i <= j < s ==> alloc[j]
    decreases |alloc| - i
  {
    if i == |alloc| || !alloc[i] then i else FirstFree(alloc, i + 1)
  }

  class TierManager {
    var objs: array<Object>
    var alloc: array<bool>
    var total: nat
    var index: nat  // the slot after the one last assigned
    ghost var orders: seq<Order>

    ghost function Value(): Tier
      reads this, objs, alloc
    {
      Tier(objs[..], alloc[..], total, orders)
    }

    ghost predicate Sized()
      reads this
    {
      objs.Length == alloc.Length == MAX_OBJECTS
    }

    ghost predicate Valid()
      reads this, objs, alloc
    {
      Sized() && index == total && AppendOnly(Value())
    }

    constructor (zeroed: Object)
      ensures Valid() && total == 0 && orders == [] && fresh(objs) && fresh(alloc)
      ensures forall i :: 0 <= i < MAX_OBJECTS ==> Blank(objs[i])
    {
      objs := new Object[MAX_OBJECTS](_ => zeroed);
      alloc := new bool[MAX_OBJECTS](_ => false);
      total, index, orders := 0, 0, [];
      new;
      Initialize();
    }

    method Initialize()
      requires Sized() && index == 0
      modifies this`total, objs, alloc
      ensures Valid() && total == 0
      ensures forall i :: 0 <= i < MAX_OBJECTS ==> Blank(objs[i])
      ensures forall i :: 0 <= i < MAX_OBJECTS ==> !alloc[i]
    {
      for i := 0 to MAX_OBJECTS
        invariant forall s :: 0 <= s < i ==> !alloc[s]
      {
        alloc[i] := false;
      }
      total := 0;
      for i := 0 to MAX_OBJECTS
        invariant forall s :: 0 <= s < i ==> Blank(objs[s])
        invariant forall s :: 0 <= s < MAX_OBJECTS ==> !alloc[s]
        invariant total == 0
      {
        objs[i] := objs[i].(start := NO_ADDRESS, sliced := false, lastDecision := Undecided,
                            metrics := Metrics(ZEROS, ZEROS, 0.0, ZEROS, ZEROS));
      }
    }

    /** Records one piece in the first slot, from `index` on, that is not live.
        When there is none the process exits, having changed nothing else. */
    method InsertSlot(pid: int, start: nat, size: nat, sliced: bool, now: real) returns (ok: bool)
      requires Sized() && index < MAX_OBJECTS
      modifies this, objs, alloc
      ensures objs == old(objs) && alloc == old(alloc)
      ensures var slot := FirstFree(old(alloc[..]), old(index));
        && (ok <==> slot < MAX_OBJECTS)
        && (ok ==> index == slot + 1)
        && (ok ==> Value() == RecordAt(old(Value()), slot, pid, Piece(start, size), sliced, now))
      ensures !ok ==> Value() == old(Value())
    {
      ghost var slot := FirstFree(alloc[..], index);
      while alloc[index]
        invariant objs == old(objs) && alloc == old(alloc) && Value() == old(Value())
        invariant index < MAX_OBJECTS && slot == FirstFree(alloc[..], index)
        decreases MAX_OBJECTS - index
      {
        index := index + 1;
        if index == MAX_OBJECTS {
          return false;
        }
      }
      objs[index] := objs[index].(start := start, end := start + size, size := size, pages := size / PAGE_SIZE);
      objs[index] := objs[index].(pid := pid, index := index, sliced := sliced);
      alloc[index] := true;
      objs[index] := objs[index].(birth := now);
      total := total + 1;
      orders := orders + [Order(Initial, index, start, size, NODE_0_DRAM, now, alloc[index])];
      assert objs[..] == old(objs[..])[index := Recorded(old(objs[..])[index], pid, Piece(start, size), sliced, index, now)];
      index := index + 1;
      return true;
    }

    /** In every valid state with room, the next slot is free, so the exit for a
        full vector is never reached. */
    lemma RoomNoExit()
      requires Valid() && total < MAX_OBJECTS
      ensures FirstFree(alloc[..], index) == index == total
    {
    }

    /** Records a mapping: its pieces take the next slots in order.  With fewer
        slots left than pieces, those that fit are recorded, and the code then
        reads liveness past the last slot; the model stops there. */
    method InsertObject(pid: int, start: nat, size: nat, clock: nat -> real) returns (ok: bool)
      requires Valid()
      modifies this, objs, alloc
      ensures Valid() && objs == old(objs) && alloc == old(alloc)
      ensures var ps := Chunks(start, size);
        var room := MAX_OBJECTS - old(total);
        && (ok <==> |ps| <= room)
        && Value() == AppendAll(old(Value()), pid, ps, if ok then |ps| else room, size > CHUNK_SIZE, clock)
    {
      hide AppendOnly, AppendAll;
      ghost var ps := Chunks(start, size);
      ghost var t := Value();
      AppendNone(t, pid, ps, size > CHUNK_SIZE, clock);
      if size > CHUNK_SIZE {
        var totalChunks := size / CHUNK_SIZE;
        var remnant := size - totalChunks * CHUNK_SIZE;
        var i := 0;
        while i < totalChunks
          invariant 0 <= i <= totalChunks
          invariant Valid() && objs == old(objs) && alloc == old(alloc)
          invariant total == t.total + i <= MAX_OBJECTS
          invariant Value() == AppendAll(t, pid, ps, i, true, clock)
        {
          if index == MAX_OBJECTS {
            return false;
          }
          assert ps[i] == Piece(start + i * CHUNK_SIZE, CHUNK_SIZE);
          NextIsFree(t, pid, start, size, i, true, clock);
          var _ := InsertSlot(pid, start + i * CHUNK_SIZE, CHUNK_SIZE, true, clock(i));
          i := i + 1;
        }
        if index == MAX_OBJECTS {
          return false;
        }
        NextIsFree(t, pid, start, size, i, true, clock);
        if remnant > 0 {
          var _ := InsertSlot(pid, start + i * CHUNK_SIZE, remnant, true, clock(i));
        } else {
          var _ := InsertSlot(pid, start + i * CHUNK_SIZE, CHUNK_SIZE, true, clock(i));
        }
      } else {
        if index == MAX_OBJECTS {
          return false;
        }
        NextIsFree(t, pid, start, size, 0, false, clock);
        var _ := InsertSlot(pid, start, size, false, clock(0));
      }
      return true;
    }

    /** Clears the lowest live slot that records exactly this piece, if any. */
    method DeallocateSlot(start: nat, size: nat) returns (found: bool)
      requires Sized() && total <= MAX_OBJECTS
      modifies alloc
      ensures found <==> FirstMatch(old(Value()), Piece(start, size), 0) < total
      ensures Value() == Release(old(Value()), Piece(start, size))
      ensures forall i :: 0 <= i < MAX_OBJECTS ==>
        alloc[i] == (old(alloc[i]) && !LowestRecord(old(Value()), Piece(start, size), i))
    {
      ghost var t := Value();
      ghost var p := Piece(start, size);
      ReleaseExact(t, p);
      var i := 0;
      while i < total
        invariant 0 <= i <= total
        invariant Value() == t && FirstMatch(t, p, 0) == FirstMatch(t, p, i)
      {
        if objs[i].start == start && objs[i].size == size && alloc[i] {
          alloc[i] := false;
          return true;
        }
        i := i + 1;
      }
      return false;
    }

    /** Removes a mapping: each of its pieces is released in turn. */
    method DeallocateObject(start: nat, size: nat)
      requires Valid()
      modifies alloc
      ensures Valid()
      ensures var ps := Chunks(start, size);
        && Value() == ReleaseAll(old(Value()), ps, |ps|)
        && (forall i :: 0 <= i < MAX_OBJECTS ==> alloc[i] == (old(alloc[i]) && !Released(old(Value()), ps, |ps|, i)))
    {
      hide AppendOnly, ReleaseAll, Release, LowestRecord, Released, FirstMatch;
      ghost var ps := Chunks(start, size);
      ghost var t := Value();
      ReleaseAppendOnly(t, ps);
      UnmapExact(t, start, size);
      ReleaseStep(t, ps, 0);
      if size > CHUNK_SIZE {
        var totalChunks := size / CHUNK_SIZE;
        var remnant := size - totalChunks * CHUNK_SIZE;
        var i := 0;
        while i < totalChunks
          invariant 0 <= i <= totalChunks
          invariant Sized() && total == t.total
          invariant Value() == ReleaseAll(t, ps, i)
        {
          assert ps[i] == Piece(start + i * CHUNK_SIZE, CHUNK_SIZE);
          ReleaseStep(t, ps, i);
          var _ := DeallocateSlot(start + i * CHUNK_SIZE, CHUNK_SIZE);
          i := i + 1;
        }
        ReleaseStep(t, ps, i);
        if remnant > 0 {
          var _ := DeallocateSlot(start + i * CHUNK_SIZE, remnant);
        } else {
          var _ := DeallocateSlot(start + i * CHUNK_SIZE, CHUNK_SIZE);
        }
      } else {
        var _ := DeallocateSlot(start, size);
      }
    }

    /** The lowest live slot whose closed interval holds `addr`, or -1. */
    method GetVectorIndex(addr: nat) returns (i: int)
      requires Sized()
      ensures Resolves(Value(), addr, i)
    {
      i := 0;
      while i < MAX_OBJECTS
        invariant 0 <= i <= MAX_OBJECTS
        invariant forall s :: 0 <= s < i ==> !(alloc[s] && objs[s].start <= addr <= objs[s].end)
      {
        if addr >= objs[i].start && addr <= objs[i].end {
          if alloc[i] {
            return i;
          }
        }
        i := i + 1;
      }
      return -1;
    }
  }

  lemma ReleaseStep(t: Tier, ps: seq<Piece>, n: nat)
    requires AppendOnly(t) && n < |ps|
    ensures t.total <= MAX_OBJECTS && |t.objs| == |t.alloc| == MAX_OBJECTS
    ensures n == 0 ==> ReleaseAll(t, ps, n) == t
    ensures ReleaseAll(t, ps, n + 1) == Release(ReleaseAll(t, ps, n), ps[n])
  {
  }

  lemma AppendNone(t: Tier, pid: int, ps: seq<Piece>, sliced: bool, clock: nat -> real)
    requires AppendOnly(t)
    ensures t.total <= MAX_OBJECTS && |t.objs| == |t.alloc| == MAX_OBJECTS
    ensures AppendAll(t, pid, ps, 0, sliced, clock) == t
  {
  }

  /** While pieces are being appended, the next slot is free, and appending to it
      keeps the registry append-only. */
  lemma NextIsFree(t: Tier, pid: int, start: nat, size: nat, n: nat, sliced: bool, clock: nat -> real)
    requires AppendOnly(t) && n < |Chunks(start, size)| && t.total + n < MAX_OBJECTS
    ensures var ps := Chunks(start, size);
      var u := AppendAll(t, pid, ps, n, sliced, clock);
      var v := AppendAll(t, pid, ps, n + 1, sliced, clock);
      && FirstFree(u.alloc, u.total) == u.total == t.total + n < |u.alloc|
      && v == RecordAt(u, u.total, pid, ps[n], sliced, clock(n)) && AppendOnly(v)
  {
    AppendAllSlots(t, pid, Chunks(start, size), n, sliced, clock);
    AppendAllAppendOnly(t, pid, start, size, n + 1, sliced, clock);
  }
}
