/** The reference that the hash map is measured against: a finite map from keys
    to items, and the history of calls that produced it. */
module Dictionary {
  import opened Options
  import opened RobinHood

  /** One call that may change the map.  A `Put` that found no memory is not stored. */
  datatype Event<+T> = Put(item: T, stored: bool) | Remove(key: T) | Clear

  /** A finite map from keys to items: a set of items, no two with the same key. */
  ghost predicate Functional<T(!new)>(k: Keying<T>, d: set<T>) {
    forall x, y :: x in d && y in d && k.Same(x, y) ==> x == y
  }

  ghost function Without<T>(k: Keying<T>, d: set<T>, key: T): set<T> {
    set y | y in d && !k.Same(y, key)
  }

  ghost function Apply<T>(k: Keying<T>, d: set<T>, ev: Event<T>): set<T> {
    match ev
    case Put(x, stored) => if stored then Without(k, d, x) + {x} else d
    case Remove(key) => Without(k, d, key)
    case Clear => {}
  }

  /** The map after a whole history. */
  ghost function Replay<T>(k: Keying<T>, log: seq<Event<T>>): set<T> {
    if log == [] then {} else Apply(k, Replay(k, log[..|log| - 1]), log[|log| - 1])
  }

  /** The item most recently stored under `key` and not removed since, read off
      the history alone. */
  function LastWrite<T>(k: Keying<T>, log: seq<Event<T>>, key: T): Option<T> {
    if log == [] then None
    else
      var rest := log[..|log| - 1];
      match log[|log| - 1]
      case Put(x, stored) => if stored && k.Same(x, key) then Some(x) else LastWrite(k, rest, key)
      case Remove(y) => if k.Same(y, key) then None else LastWrite(k, rest, key)
      case Clear => None
  }

  /** `r` is the answer of the map `d` to a question about `key`. */
  ghost predicate Answers<T>(k: Keying<T>, d: set<T>, key: T, r: Option<T>) {
    match r
    case Some(x) => x in d && k.Same(key, x)
    case None => forall y :: y in d ==> !k.Same(key, y)
  }

  lemma ReplaySnoc<T>(k: Keying<T>, log: seq<Event<T>>, ev: Event<T>)
    ensures Replay(k, log + [ev]) == Apply(k, Replay(k, log), ev)
  {
    assert (log + [ev])[..|log|] == log;
  }

  lemma {:induction false} ReplayFunctional<T(!new)>(k: Keying<T>, log: seq<Event<T>>)
    requires Lawful(k)
    ensures Functional(k, Replay(k, log))
  {
    if log != [] {
      ReplayFunctional(k, log[..|log| - 1]);
    }
  }

  lemma {:induction false} ReplayAnswers<T(!new)>(k: Keying<T>, log: seq<Event<T>>, key: T)
    requires Lawful(k)
    ensures Answers(k, Replay(k, log), key, LastWrite(k, log, key))
  {
    if log != [] {
      ReplayAnswers(k, log[..|log| - 1], key);
    }
  }

  /** The map holds, for every key, exactly the last item written under it. */
  lemma {:induction false} ReplayIsLastWrite<T(!new)>(k: Keying<T>, log: seq<Event<T>>, key: T, r: Option<T>)
    requires Lawful(k)
    ensures Answers(k, Replay(k, log), key, r) <==> r == LastWrite(k, log, key)
  {
    ReplayAnswers(k, log, key);
    ReplayFunctional(k, log);
  }

  lemma LastWriteSnoc<T>(k: Keying<T>, log: seq<Event<T>>, x: T, stored: bool, key: T)
    ensures LastWrite(k, log + [Put(x, stored)], key) ==
      if stored && k.Same(x, key) then Some(x) else LastWrite(k, log, key)
  {
    assert (log + [Put(x, stored)])[..|log|] == log;
  }

  /** The last write under a key is that under every key that counts as the same. */
  lemma {:induction false} LastWriteSame<T(!new)>(k: Keying<T>, log: seq<Event<T>>, a: T, b: T)
    requires Lawful(k) && k.Same(a, b)
    ensures LastWrite(k, log, a) == LastWrite(k, log, b)
  {
    if log != [] {
      LastWriteSame(k, log[..|log| - 1], a, b);
    }
  }
}
