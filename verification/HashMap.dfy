/** The open-addressed Robin Hood hash map, updated in place, with every
    allocation a success-or-failure input. */
module HashMaps {
  import opened Cyclic
  import opened Options
  import opened RobinHood
  import opened Dictionary

  /** Whether the two allocations of a new map succeed. */
  datatype Memory = Memory(header: bool, buckets: bool)
  {
    predicate Available() { header && buckets }
  }

  class HashMap<T(!new)> {
    const ops: Keying<T>
    var oom: bool
    var cap: nat
    var nbuckets: nat
    var count: nat
    var mask: nat
    var growat: nat
    var shrinkat: nat
    var buckets: array<Bucket<T>>
    var spare: Option<T>
    ghost var log: seq<Event<T>>

    /** The buckets in use; a clear that found no memory leaves the array longer. */
    ghost function Contents(): Table<T>
      reads this, buckets
      requires nbuckets <= buckets.Length
    {
      buckets[..nbuckets]
    }

    ghost predicate Sized()
      reads this
    {
      && 16 <= cap <= nbuckets <= buckets.Length
      && IsPow2(cap) && IsPow2(nbuckets)
      && mask == nbuckets - 1
      && growat == 3 * nbuckets / 4
      && shrinkat == nbuckets / 10
    }

    /** The state between calls, apart from the history. */
    ghost predicate Shape()
      reads this, buckets
    {
      && Sized()
      && WellFormed(ops, Contents())
      && count == |Occupied(Contents())|
      && count <= growat
    }

    ghost predicate Valid()
      reads this, buckets
    {
      Lawful(ops) && Shape() && Items(Contents()) == Replay(ops, log)
    }

    constructor Allocate(k: Keying<T>, c: nat)
      requires 16 <= c && IsPow2(c)
      ensures Shape() && fresh(buckets)
      ensures ops == k && cap == c && nbuckets == c && buckets.Length == c
      ensures count == 0 && !oom && log == [] && spare == None
      ensures forall i :: 0 <= i < c ==> buckets[i].Empty?
    {
      ops, oom, cap, nbuckets, count := k, false, c, c, 0;
      mask, growat, shrinkat := c - 1, 3 * c / 4, c / 10;
      buckets := new Bucket<T>[c](_ => Empty);
      spare := None;
      log := [];
      new;
      EmptyTable(ops, Contents());
    }

    /** A new map's capacity is the least power of two that is at least 16 and
        at least `want`; there is no map exactly when an allocation failed. */
    static method New(k: Keying<T>, want: nat, mem: Memory) returns (m: HashMap?<T>)
      ensures m == null <==> !mem.Available()
      ensures m != null ==>
        && fresh(m) && fresh(m.buckets) && m.Shape()
        && m.ops == k && m.cap == m.nbuckets == m.buckets.Length
        && want <= m.cap && (m.cap == 16 || m.cap < 2 * want)
        && m.count == 0 && !m.oom && m.log == [] && m.spare == None
        && (forall i :: 0 <= i < m.nbuckets ==> m.buckets[i].Empty?)
      ensures m != null && Lawful(k) ==> m.Valid()
    {
      var ncap := 16;
      Pow2Sixteen();
      while ncap < want
        invariant 16 <= ncap && IsPow2(ncap)
        invariant ncap == 16 || ncap < 2 * want
      {
        Pow2Double(ncap);
        ncap := ncap * 2;
      }
      if !mem.header {
        return null;
      }
      if !mem.buckets {
        return null;
      }
      m := new HashMap<T>.Allocate(k, ncap);
      EmptyTable(k, m.Contents());
    }

    /** Re-places the entry of old slot `i` into `dst`, with that old slot as
        the carrier and swap partner.  Only the stored hash is used. */
    method Reinsert(i: nat, dst: array<Bucket<T>>, dmask: nat) returns (ghost steps: nat)
      requires Lawful(ops)
      requires i < buckets.Length && dst != buckets && dst.Length == dmask + 1 && IsPow2(dst.Length)
      requires buckets[i].Full? && buckets[i].hash == ops.Hash48(buckets[i].item)
      requires WellFormed(ops, dst[..]) && |Occupied(dst[..])| < dst.Length
      requires Absent(ops, dst[..], buckets[i].item)
      modifies buckets, dst
      ensures WellFormed(ops, dst[..])
      ensures Items(dst[..]) == old(Items(dst[..])) + {old(buckets[i].item)}
      ensures |Occupied(dst[..])| == old(|Occupied(dst[..])|) + 1
      ensures forall s :: 0 <= s < buckets.Length && s != i ==> buckets[s] == old(buckets[s])
      ensures steps <= dst.Length
    {
      hide Lawful, IsPow2, BitAnd, WellFormed, Absent, Items, Occupied, Inserting;
      ghost var n := dst.Length;
      ghost var t0 := dst[..];
      ghost var x := buckets[i].item;
      ghost var z := FindEmpty(t0);
      InsertStart(ops, t0, x, true);
      MaskHome(buckets[i].hash, n);
      buckets[i] := buckets[i].(dib := 1);
      var j: nat := BitAnd(buckets[i].hash, dmask);
      steps := 1;
      while true
        invariant j < n && z < n && dst[z].Empty? && buckets[i].Full?
        invariant Inserting(ops, t0, x, dst[..], j, buckets[i], true)
        invariant steps + Dist(j, z, n) <= n
        invariant forall s :: 0 <= s < buckets.Length && s != i ==> buckets[s] == old(buckets[s])
        decreases Dist(j, z, n)
      {
        ghost var t := dst[..];
        ghost var e := buckets[i];
        if dst[j].Empty? {
          InsertPlace(ops, t0, x, t, j, e, true);
          dst[j] := buckets[i];
          assert dst[..] == t[j := e];
          return;
        }
        if dst[j].dib < buckets[i].dib {
          InsertSwap(ops, t0, x, t, j, e, true, z);
          var scratch := dst[j];
          dst[j] := buckets[i];
          buckets[i] := scratch;
          assert dst[..] == t[j := e];
        } else {
          InsertPass(ops, t0, x, t, j, e, true, z);
        }
        MaskNext(j, n);
        j := BitAnd(j + 1, dmask);
        buckets[i] := buckets[i].(dib := buckets[i].dib + 1);
        steps := steps + 1;
      }
    }

    /** Re-places every entry into the empty array `dst`. */
    method Rehash(dst: array<Bucket<T>>, dmask: nat)
      requires Lawful(ops) && Shape()
      requires dst != buckets && dst.Length == dmask + 1 && IsPow2(dst.Length) && count < dst.Length
      requires forall i :: 0 <= i < dst.Length ==> dst[i].Empty?
      modifies buckets, dst
      ensures WellFormed(ops, dst[..])
      ensures Items(dst[..]) == old(Items(Contents()))
      ensures |Occupied(dst[..])| == count
    {
      hide Lawful, IsPow2, WellFormed, Absent, Items, Occupied;
      ghost var t := Contents();
      assert t[..0] == [] && t[..nbuckets] == t;
      EmptyTable(ops, t[..0]);
      EmptyTable(ops, dst[..]);
      var i := 0;
      while i < nbuckets
        invariant 0 <= i <= nbuckets
        invariant forall s :: i <= s < |t| ==> buckets[s] == t[s]
        invariant WellFormed(ops, dst[..])
        invariant Items(dst[..]) == Items(t[..i])
        invariant |Occupied(dst[..])| == |Occupied(t[..i])|
      {
        PrefixStep(ops, t, i);
        PrefixOccupied(t, i);
        if buckets[i].Full? {
          AbsentItems(ops, dst[..], buckets[i].item);
          ghost var _ := Reinsert(i, dst, dmask);
        }
        i := i + 1;
      }
    }

    /** Moves every entry to a table of `newCap` buckets, or changes nothing
        when there is no memory for it. */
    method Resize(newCap: nat, mem: Memory) returns (ok: bool)
      requires Lawful(ops) && Shape()
      requires IsPow2(newCap) && cap <= newCap && count <= 3 * newCap / 4
      modifies this`buckets, this`nbuckets, this`mask, this`growat, this`shrinkat, buckets
      ensures ok <==> mem.Available()
      ensures Shape() && Items(Contents()) == old(Items(Contents()))
      ensures ok ==> nbuckets == newCap && fresh(buckets)
      ensures !ok ==> buckets == old(buckets) && nbuckets == old(nbuckets) && buckets[..] == old(buckets[..])
    {
      hide Lawful, IsPow2, WellFormed, Items, Occupied;
      var map2 := HashMap<T>.New(ops.(seed0 := ops.seed1), newCap, mem);
      if map2 == null {
        return false;
      }
      if map2.cap > newCap {
        Pow2Gap(newCap, map2.cap);
      }
      Rehash(map2.buckets, map2.mask);
      buckets := map2.buckets;
      nbuckets := map2.nbuckets;
      mask := map2.mask;
      growat := map2.growat;
      shrinkat := map2.shrinkat;
      assert Contents() == map2.buckets[..];
      return true;
    }

    /** Stores `item`, and returns the item it replaced, if any. */
    method Set(item: T, mem: Memory) returns (r: Option<T>)
      requires Valid()
      modifies this, buckets
      ensures Valid()
      ensures oom <==> old(count) == 3 * old(nbuckets) / 4 && !mem.Available()
      ensures log == old(log) + [Put(item, !oom)]
      ensures oom ==> r == None && buckets == old(buckets) && Contents() == old(Contents()) && count == old(count)
      ensures !oom ==> r == LastWrite(ops, old(log), item)
      ensures !oom ==> count == old(count) + (if r == None then 1 else 0)
      ensures nbuckets == (if old(count) == 3 * old(nbuckets) / 4 && mem.Available()
                           then 2 * old(nbuckets) else old(nbuckets))
      ensures cap == old(cap) && (buckets == old(buckets) || fresh(buckets))
    {
      hide Lawful, IsPow2, WellFormed, Items, Occupied, Without, Answers, LastWrite, Replay;
      oom := false;
      if count == growat {
        Pow2Double(nbuckets);
        var ok := Resize(nbuckets * 2, mem);
        if !ok {
          oom := true;
          log := log + [Put(item, false)];
          ReplaySnoc(ops, old(log), Put(item, false));
          return None;
        }
      }
      ghost var steps;
      r, steps := Insert(item);
      ReplayIsLastWrite(ops, log, item, r);
      log := log + [Put(item, true)];
      ReplaySnoc(ops, old(log), Put(item, true));
    }

    /** The probe of a set, once there is room; it looks at no more slots than
        there are. */
    method Insert(item: T) returns (r: Option<T>, ghost steps: nat)
      requires Lawful(ops) && Shape() && count < growat
      modifies this`count, this`spare, buckets
      ensures Shape()
      ensures Answers(ops, old(Items(Contents())), item, r)
      ensures Items(Contents()) == Without(ops, old(Items(Contents())), item) + {item}
      ensures count == old(count) + (if r == None then 1 else 0)
      ensures steps <= nbuckets
    {
      hide Lawful, IsPow2, BitAnd, WellFormed, Absent, Items, Occupied, Inserting, Without, Answers;
      ghost var t0 := Contents();
      ghost var z := FindEmpty(t0);
      InsertStart(ops, t0, item, false);
      var entry := Full(ops.Hash48(item), 1, item);
      MaskHome(entry.hash, nbuckets);
      var i: nat := BitAnd(entry.hash, mask);
      ghost var absent := false;
      steps := 1;
      while true
        invariant i < nbuckets && z < nbuckets && buckets[z].Empty? && entry.Full? && count == old(count)
        invariant Inserting(ops, t0, item, Contents(), i, entry, absent)
        invariant steps + Dist(i, z, nbuckets) <= nbuckets
        decreases Dist(i, z, nbuckets)
      {
        ghost var t := Contents();
        ghost var e := entry;
        if buckets[i].Empty? {
          InsertPlace(ops, t0, item, t, i, e, absent);
          AbsentWithout(ops, t0, item);
          buckets[i] := entry;
          count := count + 1;
          assert Contents() == t[i := e];
          return None, steps;
        }
        if entry.hash == buckets[i].hash && ops.compare(entry.item, buckets[i].item) == 0 {
          InsertReplace(ops, t0, item, t, i, e, absent);
          ReplacedWithout(ops, t0, i, item);
          spare := Some(buckets[i].item);
          buckets[i] := buckets[i].(item := entry.item);
          assert Contents() == t[i := t[i].(item := item)];
          return spare, steps;
        }
        if buckets[i].dib < entry.dib {
          InsertSwap(ops, t0, item, t, i, e, absent, z);
          var scratch := buckets[i];
          buckets[i] := entry;
          entry := scratch;
          absent := true;
          assert Contents() == t[i := e];
        } else {
          InsertPass(ops, t0, item, t, i, e, absent, z);
        }
        MaskNext(i, nbuckets);
        i := BitAnd(i + 1, mask);
        entry := entry.(dib := entry.dib + 1);
        steps := steps + 1;
      }
    }

    /** Finds the slot of `key`, or `nbuckets` when no slot holds it, looking at
        no more slots than there are. */
    method Probe(key: T) returns (i: nat, ghost steps: nat)
      requires Shape()
      ensures i < nbuckets ==> buckets[i].Full? && ops.Same(key, buckets[i].item)
      ensures i >= nbuckets ==> i == nbuckets && Absent(ops, Contents(), key)
      ensures steps <= nbuckets
    {
      hide IsPow2, BitAnd, Exact, Gradual, Distinct, Absent, Items, Occupied;
      var hash := ops.Hash48(key);
      MaskHome(hash, nbuckets);
      i := BitAnd(hash, mask);
      ghost var h := i;
      ghost var q := 0;
      ghost var z := FindEmpty(Contents());
      while true
        invariant q < nbuckets && i == At(h, q, nbuckets)
        invariant Probed(ops, Contents(), key, q)
        invariant q <= Dist(h, z, nbuckets)
        decreases nbuckets - q
      {
        if buckets[i].Empty? {
          ProbeComplete(ops, Contents(), key, q);
          return nbuckets, q + 1;
        }
        if buckets[i].hash == hash && ops.compare(key, buckets[i].item) == 0 {
          return i, q + 1;
        }
        MaskNext(i, nbuckets);
        i := BitAnd(i + 1, mask);
        q := q + 1;
      }
    }

    /** Returns the last item stored under `key` and not deleted since. */
    method Get(key: T) returns (r: Option<T>)
      requires Valid()
      ensures r == LastWrite(ops, log, key)
    {
      var i, _ := Probe(key);
      r := if i < nbuckets then Some(buckets[i].item) else None;
      ReplayIsLastWrite(ops, log, key, r);
    }

    /** Empties slot `i` and moves the run of displaced entries after it back. */
    method ShiftBack(i: nat) returns (ghost run: nat)
      requires Shape() && i < nbuckets && buckets[i].Full?
      modifies buckets
      ensures ShiftedBack(old(Contents()), Contents(), i, run)
    {
      hide Lawful, IsPow2, BitAnd, Exact, Gradual, Hashed, Distinct, Absent, Items, Occupied;
      hide Moved, ShiftedBack;
      ghost var t := Contents();
      ghost var z := FindEmpty(t);
      MovedStart(t, i);
      run := 0;
      buckets[i] := Empty;
      assert Contents() == t[i := Empty];
      var bucket := i;
      while true
        invariant run < Dist(i, z, nbuckets) && bucket == At(i, run, nbuckets)
        invariant Moved(t, Contents(), i, run)
        decreases nbuckets - run
      {
        ghost var u := Contents();
        MovedNext(t, u, i, run);
        var prev := bucket;
        MaskNext(bucket, nbuckets);
        bucket := BitAnd(bucket + 1, mask);
        if Dib(buckets[bucket]) <= 1 {
          buckets[prev] := Empty;
          assert Contents() == u[prev := Empty];
          return;
        }
        buckets[prev] := Back(buckets[bucket]);
        assert Contents() == u[prev := Back(t[bucket])];
        run := run + 1;
      }
    }

    /** Takes the entry of slot `i` out of the table. */
    method RemoveAt(i: nat)
      requires Lawful(ops) && Shape() && i < nbuckets && buckets[i].Full?
      modifies this`count, buckets
      ensures Shape() && count == old(count) - 1
      ensures Items(Contents()) == old(Items(Contents())) - {old(buckets[i].item)}
    {
      hide Lawful, IsPow2, WellFormed, Items, Occupied, ShiftedBack;
      ghost var t := Contents();
      ghost var run := ShiftBack(i);
      ShiftBackCorrect(ops, t, Contents(), i, run);
      count := count - 1;
    }

    /** Removes the item under `key` and returns it; the returned copy survives
        a shrink of the table. */
    method Delete(key: T, mem: Memory) returns (r: Option<T>)
      requires Valid()
      modifies this, buckets
      ensures Valid() && !oom
      ensures log == old(log) + [Remove(key)]
      ensures r == LastWrite(ops, old(log), key)
      ensures r == None ==> buckets == old(buckets) && Contents() == old(Contents()) && count == old(count)
      ensures r != None ==> count == old(count) - 1 && spare == r
      ensures nbuckets == (if r != None && old(nbuckets) > cap && count <= old(nbuckets) / 10 && mem.Available()
                           then old(nbuckets) / 2 else old(nbuckets))
      ensures cap == old(cap) && (buckets == old(buckets) || fresh(buckets))
    {
      hide Lawful, IsPow2, WellFormed, Absent, Items, Occupied, Without, Answers, LastWrite, Replay;
      oom := false;
      log := log + [Remove(key)];
      ReplaySnoc(ops, old(log), Remove(key));
      ghost var t := Contents();
      var i, _ := Probe(key);
      if i == nbuckets {
        AbsentWithout(ops, t, key);
        ReplayIsLastWrite(ops, old(log), key, None);
        return None;
      }
      RemovedWithout(ops, t, i, key);
      ReplayIsLastWrite(ops, old(log), key, Some(t[i].item));
      spare := Some(buckets[i].item);
      RemoveAt(i);
      if nbuckets > cap && count <= shrinkat {
        Pow2Gap(cap, nbuckets);
        Pow2Half(nbuckets);
        var _ := Resize(nbuckets / 2, mem);
      }
      return spare;
    }

    /** Clears the first `n` buckets of an array. */
    static method Zero(b: array<Bucket<T>>, n: nat)
      requires n <= b.Length
      modifies b
      ensures forall i :: 0 <= i < n ==> b[i].Empty?
      ensures forall i :: n <= i < b.Length ==> b[i] == old(b[i])
    {
      for i := 0 to n
        invariant forall s :: 0 <= s < i ==> b[s].Empty?
        invariant forall s :: n <= s < b.Length ==> b[s] == old(b[s])
      {
        b[i] := Empty;
      }
    }

    /** Forgets every item.  With `updateCap` the size is kept as the new lower
        capacity; otherwise the size drops to the capacity, inside the old
        array when no new one can be allocated. */
    method Clear(updateCap: bool, memory: bool)
      requires Valid()
      modifies this, buckets
      ensures Valid() && count == 0 && oom == old(oom)
      ensures log == old(log) + [Event.Clear]
      ensures nbuckets == cap == (if updateCap then old(nbuckets) else old(cap))
      ensures forall i :: 0 <= i < nbuckets ==> buckets[i].Empty?
      ensures buckets == old(buckets) || (fresh(buckets) && buckets.Length == cap)
    {
      hide Lawful, IsPow2, WellFormed, Items, Occupied, Replay;
      count := 0;
      if updateCap {
        cap := nbuckets;
      } else if nbuckets != cap {
        if memory {
          buckets := new Bucket<T>[cap](_ => Empty);
        }
        nbuckets := cap;
      }
      Zero(buckets, nbuckets);
      mask := nbuckets - 1;
      growat := 3 * nbuckets / 4;
      shrinkat := nbuckets / 10;
      log := log + [Event.Clear];
      ReplaySnoc(ops, old(log), Event.Clear);
      EmptyTable(ops, Contents());
    }

    /** In every valid state an entry's `dib` is at most `growat`, so it fits the
        16-bit field as long as there are at most 65536 buckets; and the count is
        the number of keys that the history leaves stored. */
    lemma Bounds()
      requires Valid()
      ensures forall i :: 0 <= i < nbuckets ==> Dib(buckets[i]) <= growat
      ensures nbuckets <= 0x1_0000 ==> forall i :: 0 <= i < nbuckets ==> Dib(buckets[i]) < 0x1_0000
      ensures count == |Replay(ops, log)|
      ensures count < nbuckets && 4 * count <= 3 * nbuckets
    {
      forall i | 0 <= i < nbuckets
        ensures Dib(buckets[i]) <= growat
      {
        DibBound(Contents(), i);
      }
      ItemCount(ops, Contents());
    }
  }

  /** Taking one more slot into a prefix of a well-formed table. */
  lemma PrefixStep<T(!new)>(k: Keying<T>, t: Table<T>, i: nat)
    requires Lawful(k) && WellFormed(k, t) && i < |t|
    ensures t[i].Full? ==> t[i].hash == k.Hash48(t[i].item)
    ensures Items(t[..i + 1]) == Items(t[..i]) + (if t[i].Full? then {t[i].item} else {})
    ensures |Occupied(t[..i + 1])| == |Occupied(t[..i])| + (if t[i].Full? then 1 else 0)
    ensures t[i].Full? ==> forall x :: x in Items(t[..i]) ==> !k.Same(t[i].item, x)
  {
    var u := t[..i];
    assert t[..i + 1] == u + [t[i]];
    Snoc(u, t[i]);
    if t[i].Full? {
      forall x | x in Items(u)
        ensures !k.Same(t[i].item, x)
      {
        var j :| 0 <= j < i && u[j].Full? && u[j].item == x;
        assert !k.Same(t[i].item, t[j].item);
      }
    }
  }

  lemma PrefixOccupied<T>(t: Table<T>, i: nat)
    requires i <= |t|
    ensures |Occupied(t[..i])| <= |Occupied(t)|
  {
    SubsetSize(Occupied(t[..i]), Occupied(t));
  }

  lemma AbsentWithout<T(!new)>(k: Keying<T>, t: Table<T>, x: T)
    requires Lawful(k) && Absent(k, t, x)
    ensures Without(k, Items(t), x) == Items(t) && Answers(k, Items(t), x, None)
  {
  }

  lemma RemovedWithout<T(!new)>(k: Keying<T>, t: Table<T>, i: nat, x: T)
    requires Lawful(k) && WellFormed(k, t) && i < |t| && t[i].Full? && k.Same(x, t[i].item)
    ensures Without(k, Items(t), x) == Items(t) - {t[i].item}
    ensures Answers(k, Items(t), x, Some(t[i].item))
  {
    forall y | y in Items(t) && y != t[i].item
      ensures !k.Same(y, x)
    {
      var j :| 0 <= j < |t| && t[j].Full? && t[j].item == y;
      assert !k.Same(t[i].item, t[j].item);
    }
  }

  lemma ReplacedWithout<T(!new)>(k: Keying<T>, t: Table<T>, i: nat, x: T)
    requires Lawful(k) && WellFormed(k, t) && i < |t| && t[i].Full? && k.Same(x, t[i].item)
    ensures Without(k, Items(t), x) + {x} == Items(t) - {t[i].item} + {x}
    ensures Answers(k, Items(t), x, Some(t[i].item))
  {
    RemovedWithout(k, t, i, x);
  }
}
