/** The monitor: per-window counters, store de-duplication through the hash
    map, and the fold of a window into the shared metrics. */
module Monitors {
  import opened Options
  import opened RobinHood
  import opened Dictionary
  import opened HashMaps
  import opened Tiers
  import opened MetricsUpdate
  import opened Recorder
  import SipHash
  import opened Rounds

  datatype Tlb = TlbHit | TlbMiss | TlbUnknown

  /** A decoded sample; `level` is -1 when no level served the load. */
  datatype Access = Load(level: int, tlb: Tlb, weight: nat) | Store | Other

  datatype Sample = Sample(addr: nat, access: Access)

  ghost predicate Decoded(s: Sample) {
    s.access.Load? ==> -1 <= s.access.level < 5
  }

  /** One counter of one slot. */
  datatype Cell = LoadsAt(slot: nat, level: nat) | HitsAt(slot: nat, level: nat)
                | MissesAt(slot: nat, level: nat) | LatencyAt(slot: nat, level: nat)

  /** What one sample adds to one counter. */
  function Contribution(t: Tier, s: Sample, cell: Cell): real
    requires |t.objs| == |t.alloc|
  {
    if !s.access.Load? || s.access.level != cell.level || Lookup(t, s.addr, 0) != cell.slot then 0.0
    else
      match cell
      case LoadsAt(_, _) => 1.0
      case HitsAt(_, _) => if s.access.tlb == TlbHit then 1.0 else 0.0
      case MissesAt(_, _) => if s.access.tlb == TlbMiss then 1.0 else 0.0
      case LatencyAt(_, _) => if s.access.tlb == TlbUnknown then 0.0 else s.access.weight as real
  }

  /** What a whole window adds to one counter. */
  function Total(t: Tier, samples: seq<Sample>, cell: Cell): real
    requires |t.objs| == |t.alloc|
  {
    if samples == [] then 0.0
    else Total(t, samples[..|samples| - 1], cell) + Contribution(t, samples[|samples| - 1], cell)
  }

  /** The samples that are loads of slot `i` served by `level`, with a TLB result
      among `tlbs`. */
  ghost function LoadsSeen(t: Tier, samples: seq<Sample>, i: nat, level: nat, tlbs: set<Tlb>): set<nat>
    requires |t.objs| == |t.alloc|
  {
    set k: nat | k < |samples| && samples[k].access.Load? && samples[k].access.level == level
                 && Lookup(t, samples[k].addr, 0) == i && samples[k].access.tlb in tlbs
  }

  lemma LoadsSeenNext(t: Tier, samples: seq<Sample>, i: nat, level: nat, tlbs: set<Tlb>)
    requires |t.objs| == |t.alloc| && samples != []
    ensures var n := |samples| - 1;
      var s := samples[n].access;
      |LoadsSeen(t, samples, i, level, tlbs)| == |LoadsSeen(t, samples[..n], i, level, tlbs)| +
        (if s.Load? && s.level == level && Lookup(t, samples[n].addr, 0) == i && s.tlb in tlbs then 1 else 0)
  {
    hide Lookup;
    var n := |samples| - 1;
    var s := samples[n].access;
    var before, after := LoadsSeen(t, samples[..n], i, level, tlbs), LoadsSeen(t, samples, i, level, tlbs);
    assert after == if s.Load? && s.level == level && Lookup(t, samples[n].addr, 0) == i && s.tlb in tlbs
      then before + {n} else before;
  }

  /** The weights of those loads whose TLB result is known. */
  ghost function WeightsSeen(t: Tier, samples: seq<Sample>, i: nat, level: nat): nat
    requires |t.objs| == |t.alloc|
  {
    if samples == [] then 0
    else
      var n := |samples| - 1;
      WeightsSeen(t, samples[..n], i, level) +
      (if n in LoadsSeen(t, samples, i, level, {TlbHit, TlbMiss}) then samples[n].access.weight else 0)
  }

  /** A window counts on each slot and level its loads, its TLB hits and its TLB
      misses there, and adds up the weights of the hits and the misses. */
  lemma {:induction false} TotalsCount(t: Tier, samples: seq<Sample>, i: nat, level: nat)
    requires |t.objs| == |t.alloc|
    ensures Total(t, samples, LoadsAt(i, level)) ==
      |LoadsSeen(t, samples, i, level, {TlbHit, TlbMiss, TlbUnknown})| as real
    ensures Total(t, samples, HitsAt(i, level)) == |LoadsSeen(t, samples, i, level, {TlbHit})| as real
    ensures Total(t, samples, MissesAt(i, level)) == |LoadsSeen(t, samples, i, level, {TlbMiss})| as real
    ensures Total(t, samples, LatencyAt(i, level)) == WeightsSeen(t, samples, i, level) as real
  {
    hide Lookup;
    if samples != [] {
      TotalsCount(t, samples[..|samples| - 1], i, level);
      var last := samples[|samples| - 1].access;
      assert last.Load? ==> last.tlb.TlbHit? || last.tlb.TlbMiss? || last.tlb.TlbUnknown?;
      LoadsSeenNext(t, samples, i, level, {TlbHit, TlbMiss, TlbUnknown});
      LoadsSeenNext(t, samples, i, level, {TlbHit});
      LoadsSeenNext(t, samples, i, level, {TlbMiss});
    }
  }

  function CellOf(m: Metrics, cell: Cell): real
    requires cell.level < 5
  {
    match cell
    case LoadsAt(_, l) => m.loads[l]
    case HitsAt(_, l) => m.tlbHit[l]
    case MissesAt(_, l) => m.tlbMiss[l]
    case LatencyAt(_, l) => m.latency[l]
  }

  /** The counters of `slot` after a load was charged to it. */
  function Charged(m: Metrics, level: nat, tlb: Tlb, weight: nat): Metrics
    requires level < 5
  {
    var m := m.(loads := m.loads[level := m.loads[level] + 1.0]);
    match tlb
    case TlbHit => m.(tlbHit := m.tlbHit[level := m.tlbHit[level] + 1.0],
                      latency := m.latency[level := m.latency[level] + weight as real])
    case TlbMiss => m.(tlbMiss := m.tlbMiss[level := m.tlbMiss[level] + 1.0],
                       latency := m.latency[level := m.latency[level] + weight as real])
    case TlbUnknown => m
  }

  lemma ChargedNonNegative(m: Metrics, level: nat, tlb: Tlb, weight: nat)
    requires level < 5 && NonNegative(m)
    ensures NonNegative(Charged(m, level, tlb, weight))
  {
  }

  lemma ChargedStores(m: Metrics, level: nat, tlb: Tlb, weight: nat)
    requires level < 5
    ensures Charged(m, level, tlb, weight).stores == m.stores
  {
  }

  lemma ChargedCells(t: Tier, s: Sample, m: Metrics, cell: Cell)
    requires |t.objs| == |t.alloc| && s.access.Load? && 0 <= s.access.level < 5 && cell.level < 5
    requires Lookup(t, s.addr, 0) == cell.slot
    ensures CellOf(Charged(m, s.access.level, s.access.tlb, s.access.weight), cell) ==
      CellOf(m, cell) + Contribution(t, s, cell)
  {
  }

  // ---- stores ----

  ghost function StoreSum(cs: seq<Metrics>): real {
    if cs == [] then 0.0 else StoreSum(cs[..|cs| - 1]) + cs[|cs| - 1].stores
  }

  lemma {:induction false} StoreSumBump(cs: seq<Metrics>, i: nat)
    requires i < |cs|
    ensures StoreSum(cs[i := cs[i].(stores := cs[i].stores + 1.0)]) == StoreSum(cs) + 1.0
  {
    var ds := cs[i := cs[i].(stores := cs[i].stores + 1.0)];
    var n := |cs| - 1;
    if i < n {
      StoreSumBump(cs[..n], i);
      assert ds[..n] == cs[..n][i := cs[i].(stores := cs[i].stores + 1.0)];
    } else {
      assert ds[..n] == cs[..n];
    }
  }

  lemma BumpNonNegative(m: Metrics)
    requires NonNegative(m)
    ensures NonNegative(m.(stores := m.stores + 1.0))
  {
  }

  lemma {:induction false} StoreSumSame(cs: seq<Metrics>, ds: seq<Metrics>)
    requires |cs| == |ds| && forall i :: 0 <= i < |cs| ==> cs[i].stores == ds[i].stores
    ensures StoreSum(cs) == StoreSum(ds)
  {
    if cs != [] {
      StoreSumSame(cs[..|cs| - 1], ds[..|ds| - 1]);
    }
  }

  lemma {:induction false} StoreSumZero(cs: seq<Metrics>)
    requires forall i :: 0 <= i < |cs| ==> cs[i].stores == 0.0
    ensures StoreSum(cs) == 0.0
  {
    if cs != [] {
      StoreSumZero(cs[..|cs| - 1]);
    }
  }

  /** The keys of a collection of addresses, under a comparison that never tells
      two addresses of equal hash apart. */
  ghost function Keys(k: Keying<nat>, addrs: set<nat>): set<nat> {
    set a | a in addrs :: k.Hash48(a)
  }

  ghost predicate HashOnly(k: Keying<nat>) {
    forall a: nat, b: nat :: k.compare(a, b) == 0
  }

  /** The hash of an address: SipHash-2-4 of its eight bytes. */
  function AddressHash(addr: nat, seed0: nat, seed1: nat): nat {
    SipHash.SipHash24(SipHash.LittleEndian(addr), SipHash.Bits(seed0), SipHash.Bits(seed1)) as nat
  }

  /** The callbacks of the monitor's map.  The comparison is of locations: a key
      is never stored where it is looked up from, so it always returns zero. */
  function AddressKeying(): Keying<nat> {
    Keying(AddressHash, (a: nat, b: nat) => 0, 0, 0)
  }

  lemma AddressLawful()
    ensures HashOnly(AddressKeying()) && Lawful(AddressKeying())
    ensures forall a: nat, b: nat ::
      AddressKeying().Same(a, b) <==> AddressHash(a, 0, 0) % HASH_RANGE == AddressHash(b, 0, 0) % HASH_RANGE
  {
    hide AddressHash;
  }

  /** What the hash of an address absorbs: the address as a 64-bit number, and the
      length of eight bytes. */
  lemma AddressAbsorbed(addr: nat, seed0: nat, seed1: nat)
    ensures SipHash.Bits(addr) as int == addr % 0x1_0000_0000_0000_0000
    ensures var s := SipHash.Start(SipHash.Bits(seed0), SipHash.Bits(seed1));
      AddressHash(addr, seed0, seed1) ==
      SipHash.Finish(SipHash.Compress(SipHash.Compress(s, SipHash.Bits(addr)), 0x0800_0000_0000_0000)) as nat
  {
    hide SipHash.Bits, SipHash.Start, SipHash.Compress, SipHash.Finish, SipHash.SipHash24;
    SipHash.BitsValue(addr);
    SipHash.HashOfNumber(addr, SipHash.Bits(seed0), SipHash.Bits(seed1));
  }

  /** The hash computed for an address is the one the map is keyed by. */
  method HashAddress(addr: nat, seed0: nat, seed1: nat) returns (h: nat)
    ensures h == AddressHash(addr, seed0, seed1)
  {
    var out := SipHash.Sip64(SipHash.LittleEndian(addr), SipHash.Bits(seed0), SipHash.Bits(seed1));
    h := out as nat;
  }

  lemma {:induction false} KeysSize(k: Keying<nat>, d: set<nat>)
    requires HashOnly(k) && Functional(k, d)
    ensures |Keys(k, d)| == |d|
  {
    if d == {} {
      assert Keys(k, d) == {};
    } else {
      var x :| x in d;
      var e := d - {x};
      KeysSize(k, e);
      assert k.Hash48(x) !in Keys(k, e) by {
        forall y | y in e
          ensures k.Hash48(y) != k.Hash48(x)
        {
          assert k.Same(y, x) ==> y == x;
        }
      }
      assert Keys(k, d) == Keys(k, e) + {k.Hash48(x)};
    }
  }

  /** A store whose key the map does not hold adds that key, and only it. */
  lemma KeysPut(k: Keying<nat>, log: seq<Event<nat>>, a: nat)
    requires HashOnly(k) && Lawful(k) && LastWrite(k, log, a) == None
    ensures Keys(k, Replay(k, log + [Put(a, true)])) == Keys(k, Replay(k, log)) + {k.Hash48(a)}
  {
    ReplaySnoc(k, log, Put(a, true));
    ReplayAnswers(k, log, a);
    var d := Replay(k, log);
    assert Without(k, d, a) == d;
  }

  lemma KeysHeld(k: Keying<nat>, log: seq<Event<nat>>, a: nat)
    requires HashOnly(k) && Lawful(k) && LastWrite(k, log, a) != None
    ensures k.Hash48(a) in Keys(k, Replay(k, log))
  {
    ReplayAnswers(k, log, a);
    var x := LastWrite(k, log, a).value;
    assert x in Replay(k, log) && k.Hash48(x) == k.Hash48(a);
  }

  // ---- which slots the stores of a window are counted on ----

  ghost predicate StoresInside(t: Tier, s: Sample)
    requires |t.objs| == |t.alloc|
  {
    s.access.Store? && Lookup(t, s.addr, 0) != -1
  }

  /** The key of `a` is held when the window starts, or one of the first `n` samples
      stored to it and found memory; `lost` are the samples that did not. */
  ghost predicate Held(
    k: Keying<nat>, log: seq<Event<nat>>, t: Tier, samples: seq<Sample>, lost: set<nat>, n: nat, a: nat)
    requires |t.objs| == |t.alloc| && n <= |samples|
  {
    LastWrite(k, log, a) != None || StoredBy(k, t, samples, lost, n, a)
  }

  ghost predicate StoredBy(k: Keying<nat>, t: Tier, samples: seq<Sample>, lost: set<nat>, n: nat, a: nat)
    requires |t.objs| == |t.alloc| && n <= |samples|
  {
    exists j :: 0 <= j < n && j !in lost && StoresInside(t, samples[j]) && k.Same(samples[j].addr, a)
  }

  /** The samples among the first `n` that store inside slot `i` under a key that is
      not held yet. */
  ghost function NewStores(
    k: Keying<nat>, log: seq<Event<nat>>, t: Tier, samples: seq<Sample>, lost: set<nat>, n: nat, i: nat): set<nat>
    requires |t.objs| == |t.alloc| && n <= |samples|
  {
    set j: nat | j < n && samples[j].access.Store? && Lookup(t, samples[j].addr, 0) == i
                 && !Held(k, log, t, samples, lost, j, samples[j].addr)
  }

  /** The map's history agrees with what the samples so far have stored. */
  ghost predicate Tracks(
    k: Keying<nat>, start: seq<Event<nat>>, t: Tier, samples: seq<Sample>, lost: set<nat>, n: nat, log: seq<Event<nat>>)
    requires |t.objs| == |t.alloc| && n <= |samples|
  {
    && (forall j :: j in lost ==> j < n)
    && (forall a: nat :: LastWrite(k, log, a) != None <==> Held(k, start, t, samples, lost, n, a))
  }

  ghost predicate NewKey(k: Keying<nat>, log: seq<Event<nat>>, t: Tier, s: Sample)
    requires |t.objs| == |t.alloc|
  {
    StoresInside(t, s) && LastWrite(k, log, s.addr) == None
  }

  lemma NewKeyIs(k: Keying<nat>, log: seq<Event<nat>>, t: Tier, s: Sample)
    requires |t.objs| == |t.alloc|
    ensures NewKey(k, log, t, s) <==>
      s.access.Store? && Lookup(t, s.addr, 0) != -1 && LastWrite(k, log, s.addr) == None
  {
  }

  lemma NothingStored(k: Keying<nat>, log: seq<Event<nat>>, t: Tier, samples: seq<Sample>)
    requires |t.objs| == |t.alloc|
    ensures Tracks(k, log, t, samples, {}, 0, log)
    ensures forall i: nat :: NewStores(k, log, t, samples, {}, 0, i) == {}
  {
  }

  /** The lost samples are among the first `n`, and found no memory. */
  ghost predicate Starved(lost: set<nat>, n: nat, mem: nat -> Memory) {
    forall j :: j in lost ==> j < n && !mem(j).Available()
  }

  lemma NobodyStarved(mem: nat -> Memory)
    ensures Starved({}, 0, mem)
  {
  }

  /** The counters are those of the first `n` samples. */
  ghost predicate Summed(
    k: Keying<nat>, start: seq<Event<nat>>, t: Tier, samples: seq<Sample>, lost: set<nat>, n: nat, cs: seq<Metrics>)
    requires |t.objs| == |t.alloc| && n <= |samples|
  {
    && |cs| == MAX_OBJECTS
    && (forall cell :: InTable(cell) ==> CellOf(cs[cell.slot], cell) == Total(t, samples[..n], cell))
    && (forall i :: 0 <= i < MAX_OBJECTS ==>
          cs[i].stores == |NewStores(k, start, t, samples, lost, n, i)| as real)
  }

  lemma SummedNext(
    k: Keying<nat>, start: seq<Event<nat>>, t: Tier, samples: seq<Sample>, lost: set<nat>, n: nat,
    log: seq<Event<nat>>, oom: bool, cs: seq<Metrics>, ds: seq<Metrics>)
    requires |t.objs| == |t.alloc| && n < |samples| && Tracks(k, start, t, samples, lost, n, log)
    requires Summed(k, start, t, samples, lost, n, cs) && |ds| == MAX_OBJECTS
    requires forall cell :: InTable(cell) ==>
      CellOf(ds[cell.slot], cell) == CellOf(cs[cell.slot], cell) + Contribution(t, samples[n], cell)
    requires var adds := NewKey(k, log, t, samples[n]);
      forall i :: 0 <= i < MAX_OBJECTS ==>
        ds[i].stores == cs[i].stores + (if adds && i == Lookup(t, samples[n].addr, 0) then 1.0 else 0.0)
    ensures var lost' := if NewKey(k, log, t, samples[n]) && oom then lost + {n} else lost;
      Summed(k, start, t, samples, lost', n + 1, ds)
  {
    hide Tracks, NewKey, NewStores, Total, Contribution, Lookup;
    forall cell | InTable(cell)
      ensures CellOf(ds[cell.slot], cell) == Total(t, samples[..n + 1], cell)
    {
      TotalSnoc(t, samples, n, cell);
    }
    var lost' := if NewKey(k, log, t, samples[n]) && oom then lost + {n} else lost;
    forall i: nat | i < MAX_OBJECTS
      ensures ds[i].stores == |NewStores(k, start, t, samples, lost', n + 1, i)| as real
    {
      NewStoresNext(k, start, t, samples, lost, n, log, oom, i);
    }
  }

  lemma SampleNext(
    k: Keying<nat>, start: seq<Event<nat>>, t: Tier, samples: seq<Sample>, lost: set<nat>, n: nat,
    log: seq<Event<nat>>, log': seq<Event<nat>>, oom: bool, cs: seq<Metrics>, ds: seq<Metrics>)
    requires Lawful(k) && |t.objs| == |t.alloc| && n < |samples| && Tracks(k, start, t, samples, lost, n, log)
    requires Summed(k, start, t, samples, lost, n, cs) && |ds| == MAX_OBJECTS
    requires forall cell :: InTable(cell) ==>
      CellOf(ds[cell.slot], cell) == CellOf(cs[cell.slot], cell) + Contribution(t, samples[n], cell)
    requires var s := samples[n];
      var adds := s.access.Store? && Lookup(t, s.addr, 0) != -1 && LastWrite(k, log, s.addr) == None;
      && log' == log + (if adds then [Put(s.addr, !oom)] else [])
      && (forall i :: 0 <= i < MAX_OBJECTS ==>
            ds[i].stores == cs[i].stores + (if adds && i == Lookup(t, s.addr, 0) then 1.0 else 0.0))
    ensures var s := samples[n];
      var adds := s.access.Store? && Lookup(t, s.addr, 0) != -1 && LastWrite(k, log, s.addr) == None;
      var lost' := if adds && oom then lost + {n} else lost;
      Tracks(k, start, t, samples, lost', n + 1, log') && Summed(k, start, t, samples, lost', n + 1, ds)
  {
    hide Tracks, Summed, Contribution, LastWrite, Lookup, NewKey, Lawful;
    assert log + [] == log;
    NewKeyIs(k, log, t, samples[n]);
    TracksNext(k, start, t, samples, lost, n, log, oom);
    SummedNext(k, start, t, samples, lost, n, log, oom, cs, ds);
  }

  lemma SummedAll(
    k: Keying<nat>, start: seq<Event<nat>>, t: Tier, samples: seq<Sample>, lost: set<nat>, cs: seq<Metrics>)
    requires |t.objs| == |t.alloc| && Summed(k, start, t, samples, lost, |samples|, cs)
    ensures |cs| == MAX_OBJECTS
    ensures forall cell :: InTable(cell) ==> CellOf(cs[cell.slot], cell) == Total(t, samples, cell)
    ensures forall i :: 0 <= i < MAX_OBJECTS ==>
      cs[i].stores == |NewStores(k, start, t, samples, lost, |samples|, i)| as real
  {
    hide NewStores, Total;
    assert samples[..|samples|] == samples;
  }

  lemma StoredBySnoc(k: Keying<nat>, t: Tier, samples: seq<Sample>, lost: set<nat>, lost': set<nat>, n: nat, a: nat)
    requires |t.objs| == |t.alloc| && n < |samples| && (forall j :: j in lost ==> j < n)
    requires lost' == lost || lost' == lost + {n}
    ensures StoredBy(k, t, samples, lost', n + 1, a) <==>
      StoredBy(k, t, samples, lost, n, a) ||
      (n !in lost' && StoresInside(t, samples[n]) && k.Same(samples[n].addr, a))
  {
    hide StoresInside;
    if StoredBy(k, t, samples, lost, n, a) {
      var j :| 0 <= j < n && j !in lost && StoresInside(t, samples[j]) && k.Same(samples[j].addr, a);
      assert j !in lost';
    }
  }

  lemma TracksNext(
    k: Keying<nat>, start: seq<Event<nat>>, t: Tier, samples: seq<Sample>, lost: set<nat>, n: nat,
    log: seq<Event<nat>>, oom: bool)
    requires Lawful(k) && |t.objs| == |t.alloc| && n < |samples| && Tracks(k, start, t, samples, lost, n, log)
    ensures var s := samples[n];
      if NewKey(k, log, t, s) then
        Tracks(k, start, t, samples, if oom then lost + {n} else lost, n + 1, log + [Put(s.addr, !oom)])
      else Tracks(k, start, t, samples, lost, n + 1, log)
  {
    hide LastWrite, StoredBy, StoresInside, Lawful;
    var s := samples[n];
    var adds := NewKey(k, log, t, s);
    var lost' := if adds && oom then lost + {n} else lost;
    var log' := if adds then log + [Put(s.addr, !oom)] else log;
    forall a: nat
      ensures LastWrite(k, log', a) != None <==> Held(k, start, t, samples, lost', n + 1, a)
    {
      StoredBySnoc(k, t, samples, lost, lost', n, a);
      LastWriteSnoc(k, log, s.addr, !oom, a);
      if k.Same(s.addr, a) {
        LastWriteSame(k, log, s.addr, a);
      }
    }
  }

  lemma HeldBefore(
    k: Keying<nat>, start: seq<Event<nat>>, t: Tier, samples: seq<Sample>, lost: set<nat>, n: nat, j: nat, a: nat)
    requires |t.objs| == |t.alloc| && j <= n < |samples|
    ensures Held(k, start, t, samples, lost + {n}, j, a) <==> Held(k, start, t, samples, lost, j, a)
  {
    hide LastWrite, StoresInside;
  }

  lemma NewHere(
    k: Keying<nat>, start: seq<Event<nat>>, t: Tier, samples: seq<Sample>, lost: set<nat>, n: nat,
    log: seq<Event<nat>>, i: nat)
    requires |t.objs| == |t.alloc| && n < |samples| && Tracks(k, start, t, samples, lost, n, log)
    ensures var s := samples[n];
      NewKey(k, log, t, s) && Lookup(t, s.addr, 0) == i <==>
        s.access.Store? && Lookup(t, s.addr, 0) == i && !Held(k, start, t, samples, lost, n, s.addr)
  {
    hide LastWrite, Held, Lookup;
  }

  /** One more sample adds itself to the new stores of its slot, exactly when its key
      is not held. */
  lemma NewStoresNext(
    k: Keying<nat>, start: seq<Event<nat>>, t: Tier, samples: seq<Sample>, lost: set<nat>, n: nat,
    log: seq<Event<nat>>, oom: bool, i: nat)
    requires |t.objs| == |t.alloc| && n < |samples| && Tracks(k, start, t, samples, lost, n, log)
    ensures var s := samples[n];
      var adds := NewKey(k, log, t, s);
      |NewStores(k, start, t, samples, if adds && oom then lost + {n} else lost, n + 1, i)| ==
      |NewStores(k, start, t, samples, lost, n, i)| + (if adds && Lookup(t, s.addr, 0) == i then 1 else 0)
  {
    hide Held, Lookup, Tracks, NewKey;
    var s := samples[n];
    var adds := NewKey(k, log, t, s);
    var lost' := if adds && oom then lost + {n} else lost;
    var before, after := NewStores(k, start, t, samples, lost, n, i), NewStores(k, start, t, samples, lost', n + 1, i);
    NewHere(k, start, t, samples, lost, n, log, i);
    forall j: nat
      ensures j in after <==> j in before || (j == n && adds && Lookup(t, s.addr, 0) == i)
    {
      if j <= n {
        HeldBefore(k, start, t, samples, lost, n, j, samples[j].addr);
      }
    }
    assert after == if adds && Lookup(t, s.addr, 0) == i then before + {n} else before;
  }

  function CountersOf(cs: seq<Metrics>): nat -> Metrics {
    (i: nat) => if i < |cs| then cs[i] else BLANK
  }

  class Monitor {
    const tm: TierManager
    const seen: HashMap<nat>
    const copy: array<Metrics>  // this window's counters
    ghost var stored: set<nat>  // every address stored to inside a live object
    ghost var increments: nat   // how often a store counter was raised
    ghost var before: nat       // the same when this window began
    ghost var failures: nat     // how often the map had no memory for a key

    ghost predicate Counted()
      reads this, seen, seen.buckets
    {
      && seen.Valid() && HashOnly(seen.ops)
      && increments == seen.count + failures
      && Keys(seen.ops, Replay(seen.ops, seen.log)) <= Keys(seen.ops, stored)
      && (failures == 0 ==> Keys(seen.ops, Replay(seen.ops, seen.log)) == Keys(seen.ops, stored))
    }

    ghost predicate Valid()
      reads this, seen, seen.buckets, tm, copy
    {
      && tm.Sized() && tm.total <= MAX_OBJECTS && copy.Length == MAX_OBJECTS
      && Counted()
      && before <= increments && StoreSum(copy[..]) == (increments - before) as real
      && (forall i :: 0 <= i < MAX_OBJECTS ==> NonNegative(copy[i]))
    }

    constructor (tm: TierManager, seen: HashMap<nat>)
      requires tm.Sized() && tm.total <= MAX_OBJECTS
      requires seen.Valid() && HashOnly(seen.ops) && seen.count == 0 && seen.log == []
      ensures Valid() && this.tm == tm && this.seen == seen && fresh(copy)
      ensures stored == {} && increments == 0 && failures == 0
    {
      this.tm, this.seen := tm, seen;
      copy := new Metrics[MAX_OBJECTS](_ => BLANK);
      stored, increments, before, failures := {}, 0, 0, 0;
      new;
      StoreSumZero(copy[..]);
    }

    /** Starts a window: every counter is zero again. */
    method ClearMetrics()
      requires Valid()
      modifies this`before, copy
      ensures Valid() && before == increments
      ensures forall i :: 0 <= i < MAX_OBJECTS ==> copy[i] == BLANK
    {
      for i := 0 to MAX_OBJECTS
        invariant forall s :: 0 <= s < i ==> copy[s] == BLANK
      {
        copy[i] := Metrics(ZEROS, ZEROS, 0.0, ZEROS, ZEROS);
      }
      StoreSumZero(copy[..]);
      before := increments;
    }

    /** Counts a store under a key that the map does not hold, and remembers the key. */
    method CountStore(addr: nat, slot: nat, mem: Memory)
      requires Valid() && slot < MAX_OBJECTS && LastWrite(seen.ops, seen.log, addr) == None
      modifies this`stored, this`increments, this`failures, seen, seen.buckets, copy
      ensures Valid() && stored == old(stored) + {addr}
      ensures seen.buckets == old(seen.buckets) || fresh(seen.buckets)
      ensures failures == old(failures) + (if seen.oom then 1 else 0) && increments == old(increments) + 1
      ensures seen.log == old(seen.log) + [Put(addr, !seen.oom)] && (seen.oom ==> !mem.Available())
      ensures copy[..] == old(copy[..])[slot := old(copy[slot]).(stores := old(copy[slot]).stores + 1.0)]
    {
      hide StoreSum, LastWrite, Replay, Keys, RobinHood.Lawful, HashMap.Shape, NonNegative;
      StoredKeys(seen.ops, stored, addr);
      stored := stored + {addr};
      StoreSumBump(copy[..], slot);
      BumpNonNegative(copy[slot]);
      ghost var cs := copy[..];
      copy[slot] := copy[slot].(stores := copy[slot].stores + 1.0);
      assert copy[..] == cs[slot := cs[slot].(stores := cs[slot].stores + 1.0)];
      increments := increments + 1;
      KeysPut(seen.ops, seen.log, addr);
      ReplaySnoc(seen.ops, seen.log, Put(addr, false));
      var _ := seen.Set(addr, mem);
      if seen.oom {
        failures := failures + 1;
      }
    }

    /** A store to an address whose key the map does not hold yet is counted once. */
    method AccountStore(addr: nat, slot: nat, mem: Memory)
      requires Valid() && slot < MAX_OBJECTS
      modifies this`stored, this`increments, this`failures, seen, seen.buckets, copy
      ensures Valid() && stored == old(stored) + {addr}
      ensures seen.buckets == old(seen.buckets) || fresh(seen.buckets)
      ensures failures == old(failures) + (if old(LastWrite(seen.ops, seen.log, addr)) == None && seen.oom then 1 else 0)
      ensures var held := old(LastWrite(seen.ops, seen.log, addr)) != None;
        && increments == old(increments) + (if held then 0 else 1)
        && seen.log == old(seen.log) + (if held then [] else [Put(addr, !seen.oom)])
        && (!held && seen.oom ==> !mem.Available())
        && copy[..] == (if held then old(copy[..])
                        else old(copy[..])[slot := old(copy[slot]).(stores := old(copy[slot]).stores + 1.0)])
    {
      hide StoreSum, LastWrite, Replay, Keys, RobinHood.Lawful, HashMap.Shape, NonNegative;
      var result := seen.Get(addr);
      if result == None {
        CountStore(addr, slot, mem);
      } else {
        StoredKeys(seen.ops, stored, addr);
        KeysHeld(seen.ops, seen.log, addr);
        stored := stored + {addr};
      }
    }

    /** A load is charged to the level that served it. */
    method AccountLoad(slot: nat, level: nat, tlb: Tlb, weight: nat)
      requires Valid() && slot < MAX_OBJECTS && level < 5
      modifies copy
      ensures Valid()
      ensures copy[..] == old(copy[..])[slot := Charged(old(copy[slot]), level, tlb, weight)]
    {
      hide StoreSum, Counted, NonNegative;
      ghost var cs := copy[..];
      ChargedNonNegative(cs[slot], level, tlb, weight);
      copy[slot] := copy[slot].(loads := copy[slot].loads[level := copy[slot].loads[level] + 1.0]);
      if tlb == TlbHit {
        copy[slot] := copy[slot].(tlbHit := copy[slot].tlbHit[level := copy[slot].tlbHit[level] + 1.0]);
        copy[slot] := copy[slot].(latency := copy[slot].latency[level := copy[slot].latency[level] + weight as real]);
      } else if tlb == TlbMiss {
        copy[slot] := copy[slot].(tlbMiss := copy[slot].tlbMiss[level := copy[slot].tlbMiss[level] + 1.0]);
        copy[slot] := copy[slot].(latency := copy[slot].latency[level := copy[slot].latency[level] + weight as real]);
      }
      assert copy[..] == cs[slot := Charged(cs[slot], level, tlb, weight)];
      StoreSumSame(cs, copy[..]);
    }

    /** One sample: charged to the live slot its address resolves to, if any.  No
        other slot changes, and its store counter rises exactly for a store under a
        key that the map's history does not hold. */
    method Account(s: Sample, mem: Memory)
      requires Valid() && Decoded(s)
      modifies this`stored, this`increments, this`failures, seen, seen.buckets, copy
      ensures Valid() && increments >= old(increments) && failures >= old(failures)
      ensures seen.buckets == old(seen.buckets) || fresh(seen.buckets)
      ensures stored == old(stored) + StoreAt(tm.Value(), s)
      ensures forall cell :: InTable(cell) ==>
        CellOf(copy[cell.slot], cell) == CellOf(old(copy[..])[cell.slot], cell) + Contribution(tm.Value(), s, cell)
      ensures forall i :: 0 <= i < MAX_OBJECTS && i != Lookup(tm.Value(), s.addr, 0) ==> copy[i] == old(copy[i])
      ensures var adds := s.access.Store? && Lookup(tm.Value(), s.addr, 0) != -1
                && old(LastWrite(seen.ops, seen.log, s.addr)) == None;
        && (forall i :: 0 <= i < MAX_OBJECTS ==>
              copy[i].stores == old(copy[i].stores) + (if adds && i == Lookup(tm.Value(), s.addr, 0) then 1.0 else 0.0))
        && seen.log == old(seen.log) + (if adds then [Put(s.addr, !seen.oom)] else [])
        && failures == old(failures) + (if adds && seen.oom then 1 else 0)
        && (adds && seen.oom ==> !mem.Available())
    {
      hide Counted, StoreSum, Lookup, Contribution, Charged, LastWrite, NonNegative;
      ghost var t := tm.Value();
      ghost var cs := copy[..];
      var slot := tm.GetVectorIndex(s.addr);
      LookupResolves(t, s.addr, slot);
      if slot != -1 {
        match s.access
        case Load(level, tlb, weight) =>
          if level != -1 {
            AccountLoad(slot, level, tlb, weight);
            ChargedStores(cs[slot], level, tlb, weight);
          }
        case Store =>
          AccountStore(s.addr, slot, mem);
        case Other =>
      }
      forall cell | InTable(cell)
        ensures CellOf(copy[cell.slot], cell) == CellOf(cs[cell.slot], cell) + Contribution(t, s, cell)
      {
        Credited(t, s, cs, copy[..], cell);
      }
    }

    /** Folds the counters of one slot into its shared metrics, level by level. */
    method UpdateSlot(i: nat)
      requires tm.Sized() && i < MAX_OBJECTS && copy.Length == MAX_OBJECTS
      modifies tm.objs
      ensures tm.objs[..] == old(tm.objs[..])[i := old(tm.objs[i]).(metrics := Updated(old(tm.objs[i].metrics), copy[i]))]
    {
      hide Blend;
      ghost var o := tm.objs[i];
      ghost var u := Updated(o.metrics, copy[i]);
      for j := 0 to 5
        invariant tm.objs[i] == o.(metrics := tm.objs[i].metrics) && tm.objs[i].metrics.stores == o.metrics.stores
        invariant forall s :: 0 <= s < MAX_OBJECTS && s != i ==> tm.objs[s] == old(tm.objs[s])
        invariant Agree(tm.objs[i].metrics, u, 0, j) && Agree(tm.objs[i].metrics, o.metrics, j, 5)
      {
        var oldValue := tm.objs[i].metrics.latency[j];
        var m := tm.objs[i].metrics;
        UpdatedAt(o.metrics, copy[i], j);
        tm.objs[i] := tm.objs[i].(metrics := m.(
          latency := m.latency[j := Blend(copy[i].latency[j], oldValue)],
          loads := m.loads[j := Blend(copy[i].loads[j], oldValue)],
          tlbHit := m.tlbHit[j := Blend(copy[i].tlbHit[j], oldValue)],
          tlbMiss := m.tlbMiss[j := Blend(copy[i].tlbMiss[j], oldValue)]));
      }
      var m := tm.objs[i].metrics;
      tm.objs[i] := tm.objs[i].(metrics := m.(stores := m.stores + copy[i].stores));
      AgreeAll(tm.objs[i].metrics, u);
      assert tm.objs[..] == old(tm.objs[..])[i := o.(metrics := u)];
    }

    /** Ends a window: its counters are folded into the live slots. */
    method UpdateMetrics()
      requires tm.Sized() && tm.total <= MAX_OBJECTS && copy.Length == MAX_OBJECTS
      modifies tm.objs
      ensures tm.Value() == Folded(old(tm.Value()), CountersOf(copy[..]))
      ensures forall i :: 0 <= i < MAX_OBJECTS ==>
        tm.objs[i] ==
        (if i < tm.total && tm.alloc[i] then old(tm.objs[i]).(metrics := Updated(old(tm.objs[i].metrics), copy[i]))
         else old(tm.objs[i]))
    {
      hide Updated;
      ghost var t := tm.Value();
      ghost var u := Folded(t, CountersOf(copy[..]));
      for i := 0 to tm.total
        invariant forall s :: 0 <= s < i ==> tm.objs[s] == u.objs[s]
        invariant forall s :: i <= s < MAX_OBJECTS ==> tm.objs[s] == t.objs[s]
      {
        if tm.alloc[i] {
          UpdateSlot(i);
        }
      }
      assert tm.objs[..] == u.objs;
    }

    /** The next sample of a window whose map held `start` when it began. */
    method AccountNext(
      samples: seq<Sample>, k: nat, mem: nat -> Memory, ghost start: seq<Event<nat>>, ghost lost: set<nat>)
      returns (ghost lost': set<nat>)
      requires Valid() && k < |samples| && Decoded(samples[k]) && Starved(lost, k, mem)
      requires Tracks(seen.ops, start, tm.Value(), samples, lost, k, seen.log)
      requires Summed(seen.ops, start, tm.Value(), samples, lost, k, copy[..])
      modifies this`stored, this`increments, this`failures, seen, seen.buckets, copy
      ensures Valid() && (seen.buckets == old(seen.buckets) || fresh(seen.buckets))
      ensures stored == old(stored) + StoreAt(tm.Value(), samples[k])
      ensures Starved(lost', k + 1, mem) && failures - old(failures) == |lost'| - |lost|
      ensures Tracks(seen.ops, start, tm.Value(), samples, lost', k + 1, seen.log)
      ensures Summed(seen.ops, start, tm.Value(), samples, lost', k + 1, copy[..])
    {
      hide Valid, StoreAt, Lookup, Contribution, LastWrite, Tracks, Summed, CellOf;
      ValidParts();
      Account(samples[k], mem(k));
      SampleNext(seen.ops, start, tm.Value(), samples, lost, k, old(seen.log), seen.log, seen.oom,
                 old(copy[..]), copy[..]);
      lost' := if failures > old(failures) then lost + {k} else lost;
    }

    /** The samples of a window, one after the other, on cleared counters. */
    method AccountAll(samples: seq<Sample>, mem: nat -> Memory) returns (ghost lost: set<nat>)
      requires Valid() && forall k :: 0 <= k < |samples| ==> Decoded(samples[k])
      requires forall i :: 0 <= i < MAX_OBJECTS ==> copy[i] == BLANK
      modifies this`stored, this`increments, this`failures, seen, seen.buckets, copy
      ensures Valid() && (seen.buckets == old(seen.buckets) || fresh(seen.buckets))
      ensures stored == old(stored) + StoredIn(tm.Value(), samples)
      ensures failures == old(failures) + |lost| && Starved(lost, |samples|, mem)
      ensures Summed(seen.ops, old(seen.log), tm.Value(), samples, lost, |samples|, copy[..])
    {
      hide Valid, StoredIn, StoreAt, Tracks, Summed, Starved;
      ghost var t := tm.Value();
      ghost var start, log := stored, seen.log;
      lost := {};
      ValidParts();
      WindowStart(seen.ops, log, t, samples, copy[..]);
      NobodyStarved(mem);
      for k := 0 to |samples|
        invariant Valid() && (seen.buckets == old(seen.buckets) || fresh(seen.buckets))
        invariant stored == start + StoredIn(t, samples[..k])
        invariant failures == old(failures) + |lost| && Starved(lost, k, mem)
        invariant Tracks(seen.ops, log, t, samples, lost, k, seen.log)
        invariant Summed(seen.ops, log, t, samples, lost, k, copy[..])
      {
        lost := AccountNext(samples, k, mem, log, lost);
        StoredSnoc(t, samples, k);
      }
      assert samples[..|samples|] == samples;
    }

    lemma ValidParts()
      requires Valid()
      ensures tm.Sized() && copy.Length == MAX_OBJECTS && Lawful(seen.ops)
    {
    }

    /** A whole window.  Each counter is the sum of what its samples contribute.
        The store counter of a slot is the number of samples that stored inside it
        under a key neither held before the window nor stored by an earlier sample;
        `lost` are the samples for whose key the map found no memory.  The shared
        metrics take one step. */
    method Window(samples: seq<Sample>, mem: nat -> Memory) returns (ghost lost: set<nat>)
      requires Valid() && forall k :: 0 <= k < |samples| ==> Decoded(samples[k])
      modifies this`stored, this`increments, this`before, this`failures, seen, seen.buckets, copy, tm.objs
      ensures Valid() && seen.count + failures == increments
      ensures seen.buckets == old(seen.buckets) || fresh(seen.buckets)
      ensures StoreSum(copy[..]) == (increments - old(increments)) as real
      ensures stored == old(stored) + StoredIn(old(tm.Value()), samples)
      ensures forall cell :: InTable(cell) ==>
        CellOf(copy[cell.slot], cell) == Total(old(tm.Value()), samples, cell)
      ensures failures == old(failures) + |lost|
      ensures forall k :: k in lost ==> k < |samples| && !mem(k).Available()
      ensures forall i :: 0 <= i < MAX_OBJECTS ==>
        copy[i].stores == |NewStores(seen.ops, old(seen.log), old(tm.Value()), samples, lost, |samples|, i)| as real
      ensures tm.Value() == Folded(old(tm.Value()), CountersOf(copy[..]))
      ensures forall i :: 0 <= i < MAX_OBJECTS ==> NonNegative(CountersOf(copy[..])(i))
    {
      hide Counted, StoreSum, Folded, StoredIn, NonNegative, Lookup, Total, NewStores, Summed;
      ClearMetrics();
      lost := AccountAll(samples, mem);
      SummedAll(seen.ops, old(seen.log), tm.Value(), samples, lost, copy[..]);
      UpdateMetrics();
      CountedCount();
    }

    lemma CountedCount()
      requires Counted()
      ensures seen.count + failures == increments
    {
    }

    /** Over every sequence of windows: the store counters were raised once per
        stored key and once more per failed allocation; without failures, as often
        as there are distinct keys among all addresses ever stored to. */
    lemma StoresCounted()
      requires Valid()
      ensures increments == seen.count + failures
      ensures seen.count <= |Keys(seen.ops, stored)|
      ensures failures == 0 ==> increments == seen.count == |Keys(seen.ops, stored)|
    {
      var d := Replay(seen.ops, seen.log);
      seen.Bounds();
      ReplayFunctional(seen.ops, seen.log);
      KeysSize(seen.ops, d);
      SubsetSize(Keys(seen.ops, d), Keys(seen.ops, stored));
    }
  }

  /** Starts the monitor with a new map of addresses; there is none exactly when
      an allocation fails. */
  method StartMonitor(tm: TierManager, mem: Memory) returns (m: Monitor?)
    requires tm.Sized() && tm.total <= MAX_OBJECTS
    ensures m == null <==> !mem.Available()
    ensures m != null ==>
      && fresh(m) && fresh(m.seen) && m.Valid() && m.tm == tm
      && m.seen.ops == AddressKeying() && m.seen.cap == 16
      && m.stored == {} && m.increments == 0 && m.failures == 0
  {
    hide SipHash.SipHash24, AddressHash;
    AddressLawful();
    var seen := HashMap<nat>.New(AddressKeying(), 0, mem);
    if seen == null {
      return null;
    }
    m := new Monitor(tm, seen);
  }

  lemma StoredKeys(k: Keying<nat>, stored: set<nat>, a: nat)
    ensures Keys(k, stored + {a}) == Keys(k, stored) + {k.Hash48(a)}
  {
  }

  ghost predicate InTable(cell: Cell) {
    cell.slot < MAX_OBJECTS && cell.level < 5
  }

  /** The address, when the sample is a store inside a live object. */
  ghost function StoreAt(t: Tier, s: Sample): set<nat>
    requires |t.objs| == |t.alloc|
  {
    if s.access.Store? && Lookup(t, s.addr, 0) != -1 then {s.addr} else {}
  }

  ghost function StoredIn(t: Tier, samples: seq<Sample>): set<nat>
    requires |t.objs| == |t.alloc|
  {
    set k | 0 <= k < |samples| && samples[k].access.Store? && Lookup(t, samples[k].addr, 0) != -1 :: samples[k].addr
  }

  lemma StoredSnoc(t: Tier, samples: seq<Sample>, k: nat)
    requires |t.objs| == |t.alloc| && k < |samples|
    ensures StoredIn(t, samples[..k + 1]) == StoredIn(t, samples[..k]) + StoreAt(t, samples[k])
  {
    var a, b := samples[..k + 1], samples[..k];
    assert a == b + [samples[k]];
    forall x | x in StoredIn(t, b)
      ensures x in StoredIn(t, a)
    {
      var j :| 0 <= j < |b| && b[j].access.Store? && Lookup(t, b[j].addr, 0) != -1 && b[j].addr == x;
      assert a[j] == b[j];
    }
    assert a[k] == samples[k];
  }

  lemma TotalSnoc(t: Tier, samples: seq<Sample>, k: nat, cell: Cell)
    requires |t.objs| == |t.alloc| && k < |samples|
    ensures Total(t, samples[..k + 1], cell) == Total(t, samples[..k], cell) + Contribution(t, samples[k], cell)
  {
    assert samples[..k + 1][..k] == samples[..k];
  }

  lemma WindowStart(k: Keying<nat>, log: seq<Event<nat>>, t: Tier, samples: seq<Sample>, cs: seq<Metrics>)
    requires |t.objs| == |t.alloc| && |cs| == MAX_OBJECTS && forall i :: 0 <= i < MAX_OBJECTS ==> cs[i] == BLANK
    ensures samples[..0] == [] && StoredIn(t, []) == {}
    ensures Tracks(k, log, t, samples, {}, 0, log) && Summed(k, log, t, samples, {}, 0, cs)
  {
    hide LastWrite;
    NothingStored(k, log, t, samples);
  }

  /** What accounting one sample does to one counter. */
  lemma Credited(t: Tier, s: Sample, cs: seq<Metrics>, ds: seq<Metrics>, cell: Cell)
    requires |t.objs| == |t.alloc| == |cs| == |ds| == MAX_OBJECTS && InTable(cell) && Decoded(s)
    requires var slot := Lookup(t, s.addr, 0);
      if s.access.Load? && s.access.level != -1 && slot != -1 then
        ds == cs[slot := Charged(cs[slot], s.access.level, s.access.tlb, s.access.weight)]
      else
        forall i :: 0 <= i < |cs| ==> ds[i] == cs[i].(stores := ds[i].stores)
    ensures CellOf(ds[cell.slot], cell) == CellOf(cs[cell.slot], cell) + Contribution(t, s, cell)
  {
    hide Charged;
    var slot := Lookup(t, s.addr, 0);
    if s.access.Load? && s.access.level != -1 && slot == cell.slot {
      ChargedCells(t, s, cs[slot], cell);
    }
  }

  ghost predicate Agree(m: Metrics, u: Metrics, lo: nat, hi: nat)
    requires hi <= 5
  {
    forall j :: lo <= j < hi ==>
      m.latency[j] == u.latency[j] && m.loads[j] == u.loads[j] && m.tlbHit[j] == u.tlbHit[j] && m.tlbMiss[j] == u.tlbMiss[j]
  }

  lemma AgreeAll(m: Metrics, u: Metrics)
    requires Agree(m, u, 0, 5) && m.stores == u.stores
    ensures m == u
  {
    assert m.latency == u.latency && m.loads == u.loads && m.tlbHit == u.tlbHit && m.tlbMiss == u.tlbMiss;
  }
}
