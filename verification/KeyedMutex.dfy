/** The per-key lock that serializes write-backs: reference-counted mutexes created
    on demand and dropped when idle. */
module KeyedMutex {
  import opened Prelude

  /** `entries` maps a key to its lock; `refs` counts each lock ever created. */
  datatype Registry = Registry(entries: map<int, nat>, refs: seq<nat>)

  /** The key's lock, created unreferenced when the key has none. */
  function Registered(r: Registry, key: int): (Registry, nat)
  {
    if key in r.entries then (r, r.entries[key])
    else (Registry(r.entries[key := |r.refs|], r.refs + [0]), |r.refs|)
  }

  /** The first critical section of `lock`. */
  function Register(r: Registry, key: int): (Registry, nat)
    requires key in r.entries ==> r.entries[key] < |r.refs|
  {
    var (known, lock) := Registered(r, key);
    (known.(refs := known.refs[lock := known.refs[lock] + 1]), lock)
  }

  /** The critical section of the unlock func. */
  function Deregister(r: Registry, key: int, lock: nat): Registry
    requires lock < |r.refs| && r.refs[lock] > 0
  {
    var left := r.refs[lock] - 1;
    Registry(if left == 0 then r.entries - {key} else r.entries, r.refs[lock := left])
  }

  class Lock {
    ghost const id: nat
    var refs: nat

    constructor (ghost id: nat)
      ensures this.id == id && refs == 0
    {
      this.id := id;
      refs := 0;
    }
  }

  ghost function Counts(locks: seq<Lock>): (counts: seq<nat>)
    reads locks
    ensures |counts| == |locks| && forall i :: 0 <= i < |locks| ==> counts[i] == locks[i].refs
  {
    if locks == [] then [] else Counts(locks[..|locks| - 1]) + [locks[|locks| - 1].refs]
  }

  class Mutex {
    var m: map<int, Lock>
    ghost var created: seq<Lock>

    ghost predicate Valid()
      reads this, created
    {
      && (forall i :: 0 <= i < |created| ==> created[i].id == i)
      && (forall k :: k in m ==> Known(m[k]))
    }

    ghost predicate Known(lock: Lock)
      reads this
    {
      lock.id < |created| && created[lock.id] == lock
    }

    ghost function View(): Registry
      requires Valid()
      reads this, created
    {
      Registry(map k | k in m :: m[k].id, Counts(created))
    }

    constructor ()
      ensures Valid() && View() == Registry(map[], [])
    {
      m, created := map[], [];
    }

    method Acquire(key: int) returns (lock: Lock)
      requires Valid()
      modifies this, created
      ensures Valid() && (View(), lock.id) == Register(old(View()), key)
      ensures Known(lock)
    {
      AddMissing(key);
      lock := m[key];
      assert created[lock.id] == lock;
      assert lock in created;
      ghost var was := View();
      assert (was, lock.id) == Registered(old(View()), key);
      lock.refs := lock.refs + 1;
      Counted(was, lock);
    }

    /** One more reference on one lock, seen from the registry. */
    lemma Counted(was: Registry, lock: Lock)
      requires Valid() && Known(lock) && |was.refs| == |created| && was.entries == View().entries
      requires lock.refs == was.refs[lock.id] + 1
      requires forall i :: 0 <= i < |created| && i != lock.id ==> created[i].refs == was.refs[i]
      ensures View() == Registry(was.entries, was.refs[lock.id := was.refs[lock.id] + 1])
    {
    }

    method AddMissing(key: int)
      requires Valid()
      modifies this
      ensures Valid() && key in m
      ensures (View(), m[key].id) == Registered(old(View()), key)
      ensures old(created) <= created
      ensures forall l :: l in created ==> l in old(created) || fresh(l)
    {
      if key !in m {
        var lock := new Lock(|created|);
        m := m[key := lock];
        created := created + [lock];
        assert View().entries == old(View()).entries[key := lock.id];
        assert View().refs == old(View()).refs + [0];
      }
    }

    method Release(key: int, lock: Lock)
      requires Valid() && Known(lock) && lock.refs > 0
      modifies this, lock
      ensures Valid() && View() == Deregister(old(View()), key, lock.id)
    {
      lock.refs := lock.refs - 1;
      if lock.refs == 0 {
        m := m - {key};
      }
    }
  }

  // ---- any number of goroutines ----

  datatype Thread =
    | Idle
    | Waiting(key: int, lock: nat)
    | Holding(key: int, lock: nat)
    | Leaving(key: int, lock: nat) // unlocked, not yet deregistered

  datatype State = State(r: Registry, held: seq<bool>, threads: seq<Thread>)

  datatype Action = Spawn | Want(t: nat, key: int) | Enter(t: nat) | Unlock(t: nat) | Forget(t: nat)

  function Init(): State
  {
    State(Registry(map[], []), [], [])
  }

  predicate Enabled(s: State, a: Action)
  {
    match a
    case Spawn => true
    case Want(t, key) => t < |s.threads| && s.threads[t].Idle? && (key in s.r.entries ==> s.r.entries[key] < |s.r.refs|)
    case Enter(t) => t < |s.threads| && s.threads[t].Waiting? && s.threads[t].lock < |s.held| && !s.held[s.threads[t].lock]
    case Unlock(t) => t < |s.threads| && s.threads[t].Holding? && s.threads[t].lock < |s.held|
    case Forget(t) =>
      t < |s.threads| && s.threads[t].Leaving? && s.threads[t].lock < |s.r.refs| && s.r.refs[s.threads[t].lock] > 0
  }

  function Apply(s: State, a: Action): State
    requires Enabled(s, a)
  {
    match a
    case Spawn => s.(threads := s.threads + [Idle])
    case Want(t, key) =>
      var (r, lock) := Register(s.r, key);
      State(r, if lock < |s.held| then s.held else s.held + [false], s.threads[t := Waiting(key, lock)])
    case Enter(t) =>
      var th := s.threads[t];
      s.(held := s.held[th.lock := true], threads := s.threads[t := Holding(th.key, th.lock)])
    case Unlock(t) =>
      var th := s.threads[t];
      s.(held := s.held[th.lock := false], threads := s.threads[t := Leaving(th.key, th.lock)])
    case Forget(t) =>
      var th := s.threads[t];
      s.(r := Deregister(s.r, th.key, th.lock), threads := s.threads[t := Idle])
  }

  function Run(acts: seq<Action>): Option<State>
  {
    if acts == [] then Some(Init())
    else
      var before := Run(acts[..|acts| - 1]);
      var a := acts[|acts| - 1];
      if before.None? || !Enabled(before.value, a) then None else Some(Apply(before.value, a))
  }

  function Users(lock: nat): Thread -> nat
  {
    (t: Thread) => if !t.Idle? && t.lock == lock then 1 else 0
  }

  function Holders(lock: nat): Thread -> nat
  {
    (t: Thread) => if t.Holding? && t.lock == lock then 1 else 0
  }

  ghost predicate Inv(s: State)
  {
    && |s.held| == |s.r.refs|
    && (forall t :: 0 <= t < |s.threads| && !s.threads[t].Idle? ==>
          && s.threads[t].key in s.r.entries
          && s.r.entries[s.threads[t].key] == s.threads[t].lock)
    && (forall k :: k in s.r.entries ==> s.r.entries[k] < |s.r.refs| && s.r.refs[s.r.entries[k]] > 0)
    && (forall k, l :: k in s.r.entries && l in s.r.entries && k != l ==> s.r.entries[k] != s.r.entries[l])
    && (forall lock :: 0 <= lock < |s.r.refs| ==> s.r.refs[lock] == Total(s.threads, Users(lock)))
    && (forall lock :: 0 <= lock < |s.held| ==> Total(s.threads, Holders(lock)) == if s.held[lock] then 1 else 0)
  }

  lemma CountsUpdated(threads: seq<Thread>, t: nat, to: Thread)
    requires t < |threads|
    ensures forall lock :: Total(threads[t := to], Users(lock)) + Users(lock)(threads[t]) ==
                           Total(threads, Users(lock)) + Users(lock)(to)
    ensures forall lock :: Total(threads[t := to], Holders(lock)) + Holders(lock)(threads[t]) ==
                           Total(threads, Holders(lock)) + Holders(lock)(to)
  {
    forall lock: nat
      ensures Total(threads[t := to], Users(lock)) + Users(lock)(threads[t]) == Total(threads, Users(lock)) + Users(lock)(to)
      ensures Total(threads[t := to], Holders(lock)) + Holders(lock)(threads[t]) == Total(threads, Holders(lock)) + Holders(lock)(to)
    {
      TotalUpdate(threads, t, to, Users(lock));
      TotalUpdate(threads, t, to, Holders(lock));
    }
  }

  /** A lock nobody has been given is used by nobody. */
  lemma {:induction false} UnknownLock(threads: seq<Thread>, lock: nat)
    requires forall t :: 0 <= t < |threads| && !threads[t].Idle? ==> threads[t].lock != lock
    ensures Total(threads, Users(lock)) == 0 && Total(threads, Holders(lock)) == 0
  {
    if threads != [] {
      UnknownLock(threads[..|threads| - 1], lock);
    }
  }

  lemma SpawnKeepsInv(s: State)
    requires Inv(s)
    ensures Inv(Apply(s, Spawn))
  {
    forall lock: nat
      ensures Total(s.threads + [Idle], Users(lock)) == Total(s.threads, Users(lock))
      ensures Total(s.threads + [Idle], Holders(lock)) == Total(s.threads, Holders(lock))
    {
      TotalAppend(s.threads, Idle, Users(lock));
      TotalAppend(s.threads, Idle, Holders(lock));
    }
  }

  lemma WantKnownKey(s: State, t: nat, key: int)
    requires Inv(s) && Enabled(s, Want(t, key)) && key in s.r.entries
    ensures Inv(Apply(s, Want(t, key)))
  {
    CountsUpdated(s.threads, t, Waiting(key, s.r.entries[key]));
  }

  lemma WantNewKey(s: State, t: nat, key: int)
    requires Inv(s) && Enabled(s, Want(t, key)) && key !in s.r.entries
    ensures Inv(Apply(s, Want(t, key)))
  {
    var lock := |s.r.refs|;
    assert (s.r.refs + [0])[lock := 1] == s.r.refs + [1];
    CountsUpdated(s.threads, t, Waiting(key, lock));
    UnknownLock(s.threads, lock);
  }

  lemma WantKeepsInv(s: State, t: nat, key: int)
    requires Inv(s) && Enabled(s, Want(t, key))
    ensures Inv(Apply(s, Want(t, key)))
  {
    if key in s.r.entries {
      WantKnownKey(s, t, key);
    } else {
      WantNewKey(s, t, key);
    }
  }

  lemma EnterKeepsInv(s: State, t: nat)
    requires Inv(s) && Enabled(s, Enter(t))
    ensures Inv(Apply(s, Enter(t)))
  {
    CountsUpdated(s.threads, t, Holding(s.threads[t].key, s.threads[t].lock));
  }

  lemma UnlockKeepsInv(s: State, t: nat)
    requires Inv(s) && Enabled(s, Unlock(t))
    ensures Inv(Apply(s, Unlock(t)))
  {
    CountsUpdated(s.threads, t, Leaving(s.threads[t].key, s.threads[t].lock));
    TotalAtLeast(s.threads, t, Holders(s.threads[t].lock));
  }

  lemma ForgetKeepsInv(s: State, t: nat)
    requires Inv(s) && Enabled(s, Forget(t))
    ensures Inv(Apply(s, Forget(t)))
  {
    var th := s.threads[t];
    CountsUpdated(s.threads, t, Idle);
    if s.r.refs[th.lock] == 1 {
      forall u | 0 <= u < |s.threads| && u != t && !s.threads[u].Idle?
        ensures s.threads[u].lock != th.lock && s.threads[u].key != th.key
      {
        if s.threads[u].lock == th.lock {
          TotalPair(s.threads, if u < t then u else t, if u < t then t else u, Users(th.lock));
        }
      }
    }
  }

  lemma StepKeepsInv(s: State, a: Action)
    requires Inv(s) && Enabled(s, a)
    ensures Inv(Apply(s, a))
  {
    match a
    case Spawn => SpawnKeepsInv(s);
    case Want(t, key) => WantKeepsInv(s, t, key);
    case Enter(t) => EnterKeepsInv(s, t);
    case Unlock(t) => UnlockKeepsInv(s, t);
    case Forget(t) => ForgetKeepsInv(s, t);
  }

  lemma {:induction false} RunKeepsInv(acts: seq<Action>)
    requires Run(acts).Some?
    ensures Inv(Run(acts).value)
  {
    if acts != [] {
      RunKeepsInv(acts[..|acts| - 1]);
      StepKeepsInv(Run(acts[..|acts| - 1]).value, acts[|acts| - 1]);
    }
  }

  /** Two holders of one key never overlap, and all registered lockers of a key share
      one lock, even where the entry was deleted and re-created in between. */
  lemma HoldersExclude(acts: seq<Action>, s: State, t: nat, u: nat)
    requires Run(acts) == Some(s) && t < u < |s.threads|
    requires !s.threads[t].Idle? && !s.threads[u].Idle?
    ensures s.threads[t].key == s.threads[u].key <==> s.threads[t].lock == s.threads[u].lock
    ensures s.threads[t].Holding? && s.threads[u].Holding? ==> s.threads[t].key != s.threads[u].key
  {
    RunKeepsInv(acts);
    TotalPair(s.threads, t, u, Holders(s.threads[t].lock));
  }

  /** The map has an entry exactly while someone is between `lock` and the end of the
      matching unlock, so it is empty when idle. */
  lemma EntriesAreInUse(acts: seq<Action>, s: State, key: int)
    requires Run(acts) == Some(s)
    ensures key in s.r.entries <==> exists t :: 0 <= t < |s.threads| && !s.threads[t].Idle? && s.threads[t].key == key
    ensures (forall t :: 0 <= t < |s.threads| ==> s.threads[t].Idle?) ==> s.r.entries == map[]
  {
    RunKeepsInv(acts);
    forall k | k in s.r.entries
      ensures exists t :: 0 <= t < |s.threads| && !s.threads[t].Idle? && s.threads[t].key == k
    {
      var t := TotalWitness(s.threads, Users(s.r.entries[k]));
      assert s.threads[t].key == k;
    }
  }

  /** A waiter is blocked only by a holder of its own key, who can always unlock. */
  lemma BlockedOnlyByOwnKey(acts: seq<Action>, s: State, t: nat) returns (a: Action)
    requires Run(acts) == Some(s) && t < |s.threads| && !s.threads[t].Idle?
    ensures Enabled(s, a) && (a == Enter(t) || a == Forget(t) || (a.Unlock? && s.threads[a.t].key == s.threads[t].key))
  {
    RunKeepsInv(acts);
    var th := s.threads[t];
    match th
    case Waiting(_, lock) =>
      if s.held[lock] {
        var h := TotalWitness(s.threads, Holders(lock));
        a := Unlock(h);
      } else {
        a := Enter(t);
      }
    case Holding(_, _) => a := Unlock(t);
    case Leaving(_, lock) =>
      TotalAtLeast(s.threads, t, Users(lock));
      a := Forget(t);
  }
}
