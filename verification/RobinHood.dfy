/** Robin Hood tables as values: the invariant of the bucket array and what each
    probing step does to it.  `dib` is the "distance to initial bucket" plus one. */
module RobinHood {
  import opened Cyclic

  /** The bit field that stores a hash is 48 bits wide. */
  const HASH_RANGE: nat := 0x1_0000_0000_0000

  /** The callbacks and seeds that a table was made with. */
  datatype Keying<!T> = Keying(hash: (T, nat, nat) -> nat, compare: (T, T) -> int, seed0: nat, seed1: nat)
  {
    function Hash48(x: T): (h: nat)
      ensures h < HASH_RANGE
    {
      hash(x, seed0, seed1) % HASH_RANGE
    }

    /** The test every probe makes: equal stored hashes and a comparison of zero. */
    predicate Same(a: T, b: T) {
      Hash48(a) == Hash48(b) && compare(a, b) == 0
    }
  }

  /** What the table asks of its callbacks: the probe's test is an equivalence. */
  ghost predicate Lawful<T(!new)>(k: Keying<T>) {
    && (forall a :: k.Same(a, a))
    && (forall a, b :: k.Same(a, b) ==> k.Same(b, a))
    && (forall a, b, c :: k.Same(a, b) && k.Same(b, c) ==> k.Same(a, c))
  }

  /** A bucket with `dib == 0` holds nothing that is ever read. */
  datatype Bucket<+T> = Empty | Full(hash: nat, dib: nat, item: T)

  type Table<T> = seq<Bucket<T>>

  function Dib<T>(b: Bucket<T>): nat {
    if b.Empty? then 0 else b.dib
  }

  function Home(hash: nat, n: nat): (h: nat)
    requires n > 0
    ensures h < n
  {
    hash % n
  }

  // ---- the invariant ----

  /** Every stored `dib` is the distance from the home slot, plus one. */
  ghost predicate Exact<T>(t: Table<T>) {
    forall i :: 0 <= i < |t| && t[i].Full? ==> t[i].dib == Dist(Home(t[i].hash, |t|), i, |t|) + 1
  }

  /** Going once around the ring, `dib` rises by at most one per slot. */
  ghost predicate Gradual<T>(t: Table<T>) {
    forall i :: 0 <= i < |t| ==> Dib(t[Next(i, |t|)]) <= Dib(t[i]) + 1
  }

  ghost predicate Hashed<T>(k: Keying<T>, t: Table<T>) {
    forall i :: 0 <= i < |t| && t[i].Full? ==> t[i].hash == k.Hash48(t[i].item)
  }

  ghost predicate Distinct<T>(k: Keying<T>, t: Table<T>) {
    forall i, j :: 0 <= i < |t| && 0 <= j < |t| && i != j && t[i].Full? && t[j].Full? ==>
      !k.Same(t[i].item, t[j].item)
  }

  ghost predicate WellFormed<T>(k: Keying<T>, t: Table<T>) {
    Exact(t) && Gradual(t) && Hashed(k, t) && Distinct(k, t)
  }

  ghost function Items<T>(t: Table<T>): set<T> {
    set i | 0 <= i < |t| && t[i].Full? :: t[i].item
  }

  ghost function Occupied<T>(t: Table<T>): set<nat> {
    set i: nat | i < |t| && t[i].Full?
  }

  ghost predicate Absent<T>(k: Keying<T>, t: Table<T>, x: T) {
    forall j :: 0 <= j < |t| && t[j].Full? ==> !k.Same(x, t[j].item)
  }

  lemma EmptyTable<T>(k: Keying<T>, t: Table<T>)
    requires forall i :: 0 <= i < |t| ==> t[i].Empty?
    ensures WellFormed(k, t) && Items(t) == {} && Occupied(t) == {}
  {
  }

  lemma AbsentItems<T>(k: Keying<T>, t: Table<T>, x: T)
    requires forall y :: y in Items(t) ==> !k.Same(x, y)
    ensures Absent(k, t, x)
  {
  }

  // ---- consequences of the invariant ----

  /** After an empty slot, `dib` climbs no faster than the distance from it. */
  lemma {:induction false} ClimbFrom<T>(t: Table<T>, z: nat, q: nat)
    requires Gradual(t) && z < |t| && t[z].Empty? && q < |t|
    ensures Dib(t[At(z, q, |t|)]) <= q
  {
    if q > 0 {
      ClimbFrom(t, z, q - 1);
      assert Next(At(z, q - 1, |t|), |t|) == At(z, q, |t|);
    }
  }

  /** No slot between an entry and its home is empty, and the entry `q` slots
      after that home sits at least `q` slots from its own. */
  lemma {:induction false} RunBehind<T>(t: Table<T>, j: nat, q: nat)
    requires Exact(t) && Gradual(t) && j < |t| && t[j].Full? && q < t[j].dib
    ensures q < |t| && Dib(t[At(Home(t[j].hash, |t|), q, |t|)]) >= q + 1
    decreases t[j].dib - q
  {
    var h := Home(t[j].hash, |t|);
    if q + 1 < t[j].dib {
      RunBehind(t, j, q + 1);
      assert Next(At(h, q, |t|), |t|) == At(h, q + 1, |t|);
    }
  }

  /** The slots of the probe for `x`, up to `q` steps from its home, were all
      looked at and did not match. */
  ghost predicate Probed<T>(k: Keying<T>, t: Table<T>, x: T, q: nat)
    requires q <= |t|
  {
    forall p: nat :: p < q ==>
      var b := t[At(Home(k.Hash48(x), |t|), p, |t|)]; b.Full? && !k.Same(x, b.item)
  }

  /** A probe may stop at the first slot whose occupant is closer to home than
      the probe is; an empty slot is one.  Nothing equal lies beyond it. */
  lemma ProbeComplete<T>(k: Keying<T>, t: Table<T>, x: T, q: nat)
    requires Exact(t) && Gradual(t) && Hashed(k, t)
    requires q < |t| && Probed(k, t, x, q)
    requires Dib(t[At(Home(k.Hash48(x), |t|), q, |t|)]) < q + 1
    ensures Absent(k, t, x)
  {
    forall j | 0 <= j < |t| && t[j].Full?
      ensures !k.Same(x, t[j].item)
    {
      if k.Same(x, t[j].item) {
        var d := Dist(Home(k.Hash48(x), |t|), j, |t|);
        if d >= q {
          RunBehind(t, j, q);
        }
      }
    }
  }

  lemma {:induction false} RangeSize(n: nat, s: set<nat>)
    requires forall i: nat :: i in s <==> i < n
    ensures |s| == n
  {
    if n == 0 {
      assert s == {};
    } else {
      RangeSize(n - 1, s - {n - 1});
    }
  }

  lemma FindEmpty<T>(t: Table<T>) returns (z: nat)
    requires |Occupied(t)| < |t|
    ensures z < |t| && t[z].Empty?
  {
    if forall i: nat :: i < |t| ==> t[i].Full? {
      RangeSize(|t|, Occupied(t));
    }
    z :| z < |t| && t[z].Empty?;
  }

  lemma {:induction false} RunOccupied<T>(t: Table<T>, h: nat, d: nat) returns (run: set<nat>)
    requires h < |t| && d <= |t|
    requires forall p: nat :: p < d ==> t[At(h, p, |t|)].Full?
    ensures |run| == d && run <= Occupied(t)
    ensures forall s: nat :: s in run ==> s < |t| && Dist(h, s, |t|) < d
  {
    if d == 0 {
      run := {};
    } else {
      var rest := RunOccupied(t, h, d - 1);
      var s := At(h, d - 1, |t|);
      assert Dist(h, s, |t|) == d - 1;
      run := rest + {s};
    }
  }

  lemma SubsetSize(a: set<nat>, b: set<nat>)
    requires a <= b
    ensures |a| <= |b|
  {
    assert b == a + (b - a);
  }

  /** A `dib` never exceeds the number of occupied slots. */
  lemma DibBound<T>(t: Table<T>, j: nat)
    requires Exact(t) && Gradual(t) && j < |t|
    ensures Dib(t[j]) <= |Occupied(t)|
  {
    if t[j].Full? {
      var h := Home(t[j].hash, |t|);
      forall p: nat | p < t[j].dib
        ensures t[At(h, p, |t|)].Full?
      {
        RunBehind(t, j, p);
      }
      var run := RunOccupied(t, h, t[j].dib);
      SubsetSize(run, Occupied(t));
    }
  }

  lemma Snoc<T>(t: Table<T>, b: Bucket<T>)
    ensures Items(t + [b]) == Items(t) + (if b.Full? then {b.item} else {})
    ensures Occupied(t + [b]) == Occupied(t) + (if b.Full? then {|t|} else {})
    ensures |t| !in Occupied(t)
  {
    var u := t + [b];
    forall x | x in Items(t)
      ensures x in Items(u)
    {
      var j :| 0 <= j < |t| && t[j].Full? && t[j].item == x;
      assert u[j] == t[j];
    }
    if b.Full? {
      assert u[|t|] == b;
    }
  }

  /** Distinct entries make the number of items the number of occupied slots. */
  lemma {:induction false} ItemCount<T(!new)>(k: Keying<T>, t: Table<T>)
    requires Lawful(k) && Distinct(k, t)
    ensures |Items(t)| == |Occupied(t)|
    decreases |t|
  {
    if |t| > 0 {
      var m := |t| - 1;
      var u := t[..m];
      assert t == u + [t[m]];
      Snoc(u, t[m]);
      forall i, j | 0 <= i < |u| && 0 <= j < |u| && i != j && u[i].Full? && u[j].Full?
        ensures !k.Same(u[i].item, u[j].item)
      {
        assert u[i] == t[i] && u[j] == t[j];
      }
      ItemCount(k, u);
      if t[m].Full? {
        forall x | x in Items(u)
          ensures x != t[m].item
        {
          var j :| 0 <= j < |u| && u[j].Full? && u[j].item == x;
          assert !k.Same(t[j].item, t[m].item);
        }
      }
    }
  }

  // ---- insertion ----

  /** `e` is being carried past slot `i`: its `dib` is exact for that slot and
      no more than one above that of the slot before. */
  ghost predicate Carrying<T>(k: Keying<T>, t: Table<T>, i: nat, e: Bucket<T>) {
    && i < |t|
    && e.Full?
    && e.hash == k.Hash48(e.item)
    && e.dib == Dist(Home(e.hash, |t|), i, |t|) + 1
    && e.dib <= Dib(t[Prev(i, |t|)]) + 1
  }

  /** A carried entry is never further from home than from any empty slot. */
  lemma CarriedRoom<T>(k: Keying<T>, t: Table<T>, i: nat, e: Bucket<T>, z: nat)
    requires Gradual(t) && Carrying(k, t, i, e)
    requires z < |t| && t[z].Empty? && z != i
    ensures e.dib <= Dist(z, i, |t|)
  {
    var q := Dist(z, i, |t|);
    ClimbFrom(t, z, q - 1);
    assert At(z, q - 1, |t|) == Prev(i, |t|);
  }

  lemma PassSlot<T>(k: Keying<T>, t: Table<T>, i: nat, e: Bucket<T>, z: nat)
    requires Exact(t) && Gradual(t) && Carrying(k, t, i, e)
    requires z < |t| && t[z].Empty? && t[i].Full? && e.dib <= t[i].dib
    ensures Carrying(k, t, Next(i, |t|), e.(dib := e.dib + 1))
    ensures Dist(Next(i, |t|), z, |t|) < Dist(i, z, |t|)
  {
    CarriedRoom(k, t, i, e, z);
  }

  lemma SwapSlot<T>(k: Keying<T>, t: Table<T>, i: nat, e: Bucket<T>, z: nat)
    requires Exact(t) && Gradual(t) && Hashed(k, t) && Carrying(k, t, i, e)
    requires z < |t| && t[z].Empty? && t[i].Full? && t[i].dib < e.dib
    ensures var t' := t[i := e];
      && Exact(t') && Gradual(t') && Hashed(k, t')
      && Carrying(k, t', Next(i, |t|), t[i].(dib := t[i].dib + 1))
    ensures Dist(Next(i, |t|), z, |t|) < Dist(i, z, |t|)
  {
    CarriedRoom(k, t, i, e, z);
    var t' := t[i := e];
    forall j | 0 <= j < |t|
      ensures Dib(t'[Next(j, |t|)]) <= Dib(t'[j]) + 1
    {
      assert Dib(t[Next(j, |t|)]) <= Dib(t[j]) + 1;
      if Next(j, |t|) == i {
        assert j == Prev(i, |t|);
      }
    }
  }

  /** A swap moves the carried key into the table and the evicted one out. */
  lemma SwapContents<T(!new)>(k: Keying<T>, t: Table<T>, i: nat, e: Bucket<T>)
    requires Lawful(k) && Distinct(k, t) && i < |t| && t[i].Full? && e.Full? && Absent(k, t, e.item)
    ensures var t' := t[i := e];
      && Distinct(k, t') && Absent(k, t', t[i].item)
      && Items(t') + {t[i].item} == Items(t) + {e.item}
      && Occupied(t') == Occupied(t)
  {
    var t' := t[i := e];
    forall x | x in Items(t)
      ensures x in Items(t') + {t[i].item}
    {
      var j :| 0 <= j < |t| && t[j].Full? && t[j].item == x;
      assert t'[j] == if j == i then e else t[j];
    }
    assert t'[i].item == e.item;
  }

  lemma PlaceSlot<T(!new)>(k: Keying<T>, t: Table<T>, i: nat, e: Bucket<T>)
    requires Lawful(k) && WellFormed(k, t) && Carrying(k, t, i, e) && t[i].Empty? && Absent(k, t, e.item)
    ensures var t' := t[i := e];
      && WellFormed(k, t')
      && Items(t') == Items(t) + {e.item}
      && Occupied(t') == Occupied(t) + {i}
      && i !in Occupied(t)
  {
    var t' := t[i := e];
    forall j | 0 <= j < |t|
      ensures Dib(t'[Next(j, |t|)]) <= Dib(t'[j]) + 1
    {
      assert Dib(t[Next(j, |t|)]) <= Dib(t[j]) + 1;
      if Next(j, |t|) == i {
        assert j == Prev(i, |t|);
      }
    }
    forall x | x in Items(t)
      ensures x in Items(t')
    {
      var j :| 0 <= j < |t| && t[j].Full? && t[j].item == x;
      assert t'[j] == t[j];
    }
    assert t'[i].item == e.item;
  }

  lemma ReplaceSlot<T(!new)>(k: Keying<T>, t: Table<T>, i: nat, x: T)
    requires Lawful(k) && WellFormed(k, t) && i < |t| && t[i].Full? && k.Same(x, t[i].item)
    ensures var t' := t[i := t[i].(item := x)];
      && WellFormed(k, t')
      && Items(t') == Items(t) - {t[i].item} + {x}
      && Occupied(t') == Occupied(t)
  {
    var t' := t[i := t[i].(item := x)];
    forall y | y in Items(t) && y != t[i].item
      ensures y in Items(t')
    {
      var j :| 0 <= j < |t| && t[j].Full? && t[j].item == y;
      assert t'[j] == t[j];
    }
    assert t'[i].item == x;
    forall j | 0 <= j < |t| && t[j].Full? && j != i
      ensures !k.Same(x, t[j].item) && !k.Same(t[j].item, x)
    {
      assert !k.Same(t[i].item, t[j].item);
    }
    forall j | 0 <= j < |t|
      ensures Dib(t'[Next(j, |t|)]) <= Dib(t'[j]) + 1
    {
      assert Dib(t[Next(j, |t|)]) <= Dib(t[j]) + 1;
    }
  }

  /** The state of a probe that stores `x` into the table `t0`: the table is now
      `t`, and `e` is carried at slot `i`.  Until it is known that `x` has no
      equal in `t0`, nothing has been moved and every slot so far mismatched. */
  ghost predicate Inserting<T>(k: Keying<T>, t0: Table<T>, x: T, t: Table<T>, i: nat, e: Bucket<T>, absent: bool) {
    && |t| == |t0| && i < |t| && e.Full?
    && WellFormed(k, t) && Carrying(k, t, i, e)
    && Occupied(t) == Occupied(t0)
    && Items(t) + {e.item} == Items(t0) + {x}
    && (if absent then Absent(k, t, e.item) && Absent(k, t0, x)
        else t == t0 && e.item == x && Probed(k, t0, x, e.dib - 1))
  }

  lemma InsertStart<T>(k: Keying<T>, t: Table<T>, x: T, absent: bool)
    requires WellFormed(k, t) && |t| > 0 && (absent ==> Absent(k, t, x))
    ensures Inserting(k, t, x, t, Home(k.Hash48(x), |t|), Full(k.Hash48(x), 1, x), absent)
  {
  }

  /** A probe that meets a slot closer to its home than itself has proved its
      key absent from the whole table, before anything is moved. */
  lemma InsertAbsent<T>(k: Keying<T>, t0: Table<T>, x: T, t: Table<T>, i: nat, e: Bucket<T>, absent: bool)
    requires Inserting(k, t0, x, t, i, e, absent) && Dib(t[i]) < e.dib
    ensures Inserting(k, t0, x, t, i, e, true)
  {
    if !absent {
      ProbeComplete(k, t, x, e.dib - 1);
    }
  }

  lemma InsertPlace<T(!new)>(k: Keying<T>, t0: Table<T>, x: T, t: Table<T>, i: nat, e: Bucket<T>, absent: bool)
    requires Lawful(k) && Inserting(k, t0, x, t, i, e, absent) && t[i].Empty?
    ensures var t' := t[i := e];
      && WellFormed(k, t') && Absent(k, t0, x)
      && Items(t') == Items(t0) + {x}
      && |Occupied(t')| == |Occupied(t0)| + 1
  {
    InsertAbsent(k, t0, x, t, i, e, absent);
    PlaceSlot(k, t, i, e);
  }

  /** The replace branch fires only for the key being stored, never for a
      displaced entry, and only while the table is still untouched. */
  lemma InsertReplace<T(!new)>(k: Keying<T>, t0: Table<T>, x: T, t: Table<T>, i: nat, e: Bucket<T>, absent: bool)
    requires Lawful(k) && Inserting(k, t0, x, t, i, e, absent)
    requires t[i].Full? && e.hash == t[i].hash && k.compare(e.item, t[i].item) == 0
    ensures !absent && t == t0 && e.item == x && k.Same(x, t[i].item)
    ensures var t' := t[i := t[i].(item := x)];
      && WellFormed(k, t')
      && Items(t') == Items(t0) - {t[i].item} + {x}
      && Occupied(t') == Occupied(t0)
  {
    assert k.Same(e.item, t[i].item);
    ReplaceSlot(k, t, i, x);
  }

  lemma InsertSwap<T(!new)>(k: Keying<T>, t0: Table<T>, x: T, t: Table<T>, i: nat, e: Bucket<T>, absent: bool, z: nat)
    requires Lawful(k) && Inserting(k, t0, x, t, i, e, absent)
    requires z < |t| && t[z].Empty? && t[i].Full? && t[i].dib < e.dib
    ensures Inserting(k, t0, x, t[i := e], Next(i, |t|), t[i].(dib := t[i].dib + 1), true)
    ensures Dist(Next(i, |t|), z, |t|) < Dist(i, z, |t|)
    ensures t[i := e][z].Empty?
  {
    InsertAbsent(k, t0, x, t, i, e, absent);
    SwapSlot(k, t, i, e, z);
    SwapContents(k, t, i, e);
  }

  lemma InsertPass<T>(k: Keying<T>, t0: Table<T>, x: T, t: Table<T>, i: nat, e: Bucket<T>, absent: bool, z: nat)
    requires Inserting(k, t0, x, t, i, e, absent)
    requires z < |t| && t[z].Empty? && t[i].Full? && e.dib <= t[i].dib
    requires absent || e.hash != t[i].hash || k.compare(e.item, t[i].item) != 0
    ensures Inserting(k, t0, x, t, Next(i, |t|), e.(dib := e.dib + 1), absent)
    ensures Dist(Next(i, |t|), z, |t|) < Dist(i, z, |t|)
  {
    PassSlot(k, t, i, e, z);
  }

  // ---- backward-shift deletion ----

  function Back<T>(b: Bucket<T>): Bucket<T>
    requires b.Full? && b.dib > 0
  {
    b.(dib := b.dib - 1)
  }

  /** The entry `p + 1` slots after slot `i` is displaced, and `u` has it one slot back. */
  ghost predicate BackOne<T>(t: Table<T>, u: Table<T>, i: nat, p: nat)
    requires i < |t| == |u| && p + 1 < |t|
  {
    var b := t[At(i, p + 1, |t|)];
    b.Full? && b.dib >= 2 && u[At(i, p, |t|)] == Back(b)
  }

  /** The `r` entries after slot `i` are each moved back one slot. */
  ghost predicate Moved<T>(t: Table<T>, u: Table<T>, i: nat, r: nat)
    requires i < |t| && r < |t|
  {
    && |u| == |t|
    && (forall p: nat :: p < r ==> BackOne(t, u, i, p))
    && (forall s: nat :: s < |t| && Dist(i, s, |t|) > r ==> u[s] == t[s])
  }

  /** `u` is `t` without the entry of slot `i`: the run of `r` displaced entries
      behind it is moved back, and the slot that run ended in is empty. */
  ghost predicate ShiftedBack<T>(t: Table<T>, u: Table<T>, i: nat, r: nat) {
    && i < |t| && r + 1 < |t|
    && Moved(t, u, i, r)
    && u[At(i, r, |t|)].Empty?
    && Dib(t[At(i, r + 1, |t|)]) <= 1
  }

  lemma MovedAt<T>(t: Table<T>, u: Table<T>, i: nat, r: nat, s: nat)
    requires ShiftedBack(t, u, i, r) && s < |t|
    ensures var d := Dist(i, s, |t|);
      && (d < r ==> t[Next(s, |t|)].Full? && t[Next(s, |t|)].dib >= 2 && u[s] == Back(t[Next(s, |t|)]))
      && (d == r ==> u[s].Empty?)
      && (d > r ==> u[s] == t[s])
  {
    var d := Dist(i, s, |t|);
    assert At(i, d, |t|) == s;
    if d < r {
      assert BackOne(t, u, i, d);
      assert At(i, d + 1, |t|) == Next(s, |t|);
    }
  }

  lemma MovedStart<T>(t: Table<T>, i: nat)
    requires i < |t|
    ensures Moved(t, t[i := Empty], i, 0)
  {
  }

  lemma MovedNext<T>(t: Table<T>, u: Table<T>, i: nat, r: nat)
    requires i < |t| && r + 1 < |t| && Moved(t, u, i, r)
    ensures var next := At(i, r + 1, |t|);
      && u[next] == t[next]
      && (Dib(t[next]) <= 1 ==> ShiftedBack(t, u[At(i, r, |t|) := Empty], i, r))
      && (Dib(t[next]) >= 2 ==> Moved(t, u[At(i, r, |t|) := Back(t[next])], i, r + 1))
  {
    var next := At(i, r + 1, |t|);
    assert Dist(i, next, |t|) == r + 1;
    if Dib(t[next]) <= 1 {
      MovedElsewhere(t, u, i, r, Empty);
    } else {
      var v := u[At(i, r, |t|) := Back(t[next])];
      MovedElsewhere(t, u, i, r, Back(t[next]));
      assert BackOne(t, v, i, r);
    }
  }

  lemma MovedElsewhere<T>(t: Table<T>, u: Table<T>, i: nat, r: nat, b: Bucket<T>)
    requires i < |t| && r < |t| && Moved(t, u, i, r)
    ensures var v := u[At(i, r, |t|) := b];
      && Moved(t, v, i, r)
      && v[At(i, r, |t|)] == b
  {
    var v := u[At(i, r, |t|) := b];
    forall p: nat | p < r
      ensures BackOne(t, v, i, p)
    {
      assert BackOne(t, u, i, p);
      assert Dist(i, At(i, p, |t|), |t|) == p;
    }
    forall s: nat | s < |t| && Dist(i, s, |t|) > r
      ensures v[s] == t[s]
    {
    }
  }

  /** Every slot of `u` that is full holds the item of a slot of `t` other than `i`. */
  ghost function Source<T>(t: Table<T>, i: nat, r: nat, s: nat): (c: nat)
    requires i < |t| && s < |t|
    ensures c < |t|
  {
    if Dist(i, s, |t|) < r then Next(s, |t|) else s
  }

  lemma ShiftExact<T>(t: Table<T>, u: Table<T>, i: nat, r: nat)
    requires Exact(t) && ShiftedBack(t, u, i, r)
    ensures Exact(u)
  {
    forall s | 0 <= s < |u| && u[s].Full?
      ensures u[s].dib == Dist(Home(u[s].hash, |u|), s, |u|) + 1
    {
      MovedAt(t, u, i, r, s);
    }
  }

  lemma ShiftGradual<T>(t: Table<T>, u: Table<T>, i: nat, r: nat)
    requires Gradual(t) && ShiftedBack(t, u, i, r)
    ensures Gradual(u)
  {
    var n := |t|;
    forall s | 0 <= s < n
      ensures Dib(u[Next(s, n)]) <= Dib(u[s]) + 1
    {
      var s' := Next(s, n);
      MovedAt(t, u, i, r, s);
      MovedAt(t, u, i, r, s');
      assert Dib(t[s']) <= Dib(t[s]) + 1;
      assert Dib(t[Next(s', n)]) <= Dib(t[s']) + 1;
      if Dist(i, s, n) == r {
        assert s' == At(i, r + 1, n);
      }
    }
  }

  lemma SourceOf<T>(t: Table<T>, u: Table<T>, i: nat, r: nat, s: nat)
    requires ShiftedBack(t, u, i, r) && s < |t| && u[s].Full?
    ensures var c := Source(t, i, r, s);
      c != i && t[c].Full? && u[s].item == t[c].item && u[s].hash == t[c].hash
  {
    MovedAt(t, u, i, r, s);
  }

  lemma ShiftKeys<T>(k: Keying<T>, t: Table<T>, u: Table<T>, i: nat, r: nat)
    requires Hashed(k, t) && Distinct(k, t) && ShiftedBack(t, u, i, r)
    ensures Hashed(k, u) && Distinct(k, u)
  {
    forall s | 0 <= s < |u| && u[s].Full?
      ensures u[s].hash == k.Hash48(u[s].item)
    {
      SourceOf(t, u, i, r, s);
    }
    forall p, q | 0 <= p < |u| && 0 <= q < |u| && p != q && u[p].Full? && u[q].Full?
      ensures !k.Same(u[p].item, u[q].item)
    {
      SourceOf(t, u, i, r, p);
      SourceOf(t, u, i, r, q);
      SourceInjective(t, u, i, r, p, q);
    }
  }

  lemma SourceInjective<T>(t: Table<T>, u: Table<T>, i: nat, r: nat, p: nat, q: nat)
    requires ShiftedBack(t, u, i, r) && p < |t| && q < |t| && p != q && u[p].Full? && u[q].Full?
    ensures Source(t, i, r, p) != Source(t, i, r, q)
  {
    MovedAt(t, u, i, r, p);
    MovedAt(t, u, i, r, q);
  }

  lemma ShiftItems<T(!new)>(k: Keying<T>, t: Table<T>, u: Table<T>, i: nat, r: nat)
    requires Lawful(k) && Distinct(k, t) && ShiftedBack(t, u, i, r) && t[i].Full?
    ensures Items(u) == Items(t) - {t[i].item}
  {
    var n := |t|;
    forall x | x in Items(t) && x != t[i].item
      ensures x in Items(u)
    {
      var c: nat :| c < n && t[c].Full? && t[c].item == x;
      var s := if Dist(i, c, n) <= r then Prev(c, n) else c;
      MovedAt(t, u, i, r, s);
      assert u[s].Full? && u[s].item == x;
    }
    forall x | x in Items(u)
      ensures x in Items(t) - {t[i].item}
    {
      var s: nat :| s < |u| && u[s].Full? && u[s].item == x;
      SourceOf(t, u, i, r, s);
      var c := Source(t, i, r, s);
      assert !k.Same(t[c].item, t[i].item);
    }
  }

  lemma ShiftOccupied<T>(t: Table<T>, u: Table<T>, i: nat, r: nat)
    requires ShiftedBack(t, u, i, r) && t[i].Full?
    ensures At(i, r, |t|) in Occupied(t)
    ensures Occupied(u) == Occupied(t) - {At(i, r, |t|)}
  {
    var n := |t|;
    forall s: nat | s < n
      ensures u[s].Full? <==> t[s].Full? && s != At(i, r, n)
    {
      MovedAt(t, u, i, r, s);
      var d := Dist(i, s, n);
      if 0 < d <= r {
        MovedAt(t, u, i, r, Prev(s, n));
      }
    }
    if r > 0 {
      MovedAt(t, u, i, r, At(i, r - 1, n));
    }
  }

  /** Removing an entry by shifting its run back keeps the whole invariant and
      removes that entry's item and nothing else. */
  lemma ShiftBackCorrect<T(!new)>(k: Keying<T>, t: Table<T>, u: Table<T>, i: nat, r: nat)
    requires Lawful(k) && WellFormed(k, t) && ShiftedBack(t, u, i, r) && t[i].Full?
    ensures WellFormed(k, u)
    ensures Items(u) == Items(t) - {t[i].item}
    ensures |Occupied(u)| == |Occupied(t)| - 1
  {
    ShiftExact(t, u, i, r);
    ShiftGradual(t, u, i, r);
    ShiftKeys(k, t, u, i, r);
    ShiftItems(k, t, u, i, r);
    ShiftOccupied(t, u, i, r);
  }
}
