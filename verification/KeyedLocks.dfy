/**
 Per-key serialisation of calls (crates/cri/src/locks.rs): a map from key to mutex, whose
 entries are made on first use and kept, and the mutexes themselves.
 */
module KeyedLocks {
  import opened Runs

  type Key = string
  type Caller = nat
  type Mutex = nat

  /** Where a caller is in `guard`: not in it, past the map lookup, or holding the guard it returned. */
  datatype Phase = Idle | Waiting(key: Key, mutex: Mutex) | Holding(key: Key, mutex: Mutex)

  /** The map, the number of mutexes made so far, which are locked, and every caller's phase. */
  datatype State = State(entries: map<Key, Mutex>, made: nat, locked: set<Mutex>, phases: map<Caller, Phase>) {
    function PhaseOf(c: Caller): Phase { if c in phases then phases[c] else Idle }

    predicate Holds(c: Caller, key: Key) { PhaseOf(c).Holding? && PhaseOf(c).key == key }
  }

  /** A caller whose call is dropped while it waits abandons it; a guard is released by dropping it. */
  datatype Action = Lookup(c: Caller, key: Key) | Acquire(c: Caller) | Abandon(c: Caller) | Release(c: Caller)

  predicate Enabled(s: State, a: Action) {
    match a
    case Lookup(c, _) => s.PhaseOf(c).Idle?
    case Acquire(c) => s.PhaseOf(c).Waiting? && s.PhaseOf(c).mutex !in s.locked
    case Abandon(c) => s.PhaseOf(c).Waiting?
    case Release(c) => s.PhaseOf(c).Holding?
  }

  function Next(s: State, a: Action): State
    requires Enabled(s, a)
  {
    match a
    case Lookup(c, key) =>
      var s := if key in s.entries then s else s.(entries := s.entries[key := s.made], made := s.made + 1);
      s.(phases := s.phases[c := Waiting(key, s.entries[key])])
    case Acquire(c) =>
      var p := s.phases[c];
      s.(locked := s.locked + {p.mutex}, phases := s.phases[c := Holding(p.key, p.mutex)])
    case Abandon(c) => s.(phases := s.phases[c := Idle])
    case Release(c) => s.(locked := s.locked - {s.phases[c].mutex}, phases := s.phases[c := Idle])
  }

  ghost predicate IsRun(states: seq<State>, actions: seq<Action>) {
    && |states| == |actions| + 1 && states[0] == State(map[], 0, {}, map[])
    && forall i {:trigger actions[i]} | 0 <= i < |actions| :: Enabled(states[i], actions[i]) && states[i + 1] == Next(states[i], actions[i])
  }

  predicate HoldsMutex(s: State, c: Caller, m: Mutex) { s.PhaseOf(c).Holding? && s.PhaseOf(c).mutex == m }

  /** Distinct keys have distinct mutexes, and nobody works with a mutex that is not its key's. */
  ghost predicate MapInv(s: State) {
    && (forall k <- s.entries :: s.entries[k] < s.made)
    && (forall j <- s.entries, k <- s.entries | s.entries[j] == s.entries[k] :: j == k)
    && (forall c <- s.phases | !s.phases[c].Idle? ::
          s.phases[c].key in s.entries && s.entries[s.phases[c].key] == s.phases[c].mutex)
  }

  /** The mutex `m` is locked exactly while one caller holds it. */
  ghost predicate LockInv(s: State, m: Mutex) {
    && (m in s.locked <==> exists c :: HoldsMutex(s, c, m))
    && (forall a, b | HoldsMutex(s, a, m) && HoldsMutex(s, b, m) :: a == b)
  }

  ghost predicate Inv(s: State) {
    MapInv(s) && forall m :: LockInv(s, m)
  }

  /** Who holds what after a step, and what is locked. */
  lemma HoldStep(s: State, a: Action, c: Caller, m: Mutex)
    requires MapInv(s) && LockInv(s, m) && Enabled(s, a)
    ensures HoldsMutex(Next(s, a), c, m) <==>
            if c == a.c then a.Acquire? && m == s.PhaseOf(c).mutex else HoldsMutex(s, c, m)
    ensures m in Next(s, a).locked <==>
            || (m in s.locked && !(a.Release? && HoldsMutex(s, a.c, m)))
            || (a.Acquire? && m == s.PhaseOf(a.c).mutex)
  {
  }

  lemma LocksKept(s: State, a: Action, m: Mutex)
    requires Inv(s) && Enabled(s, a)
    ensures LockInv(Next(s, a), m)
  {
    assert LockInv(s, m);
    var s' := Next(s, a);
    forall c {
      HoldStep(s, a, c, m);
    }
    HoldStep(s, a, a.c, m);
    assert m in s.locked <==> exists c :: HoldsMutex(s, c, m);
    assert a.Acquire? ==> s.PhaseOf(a.c).mutex !in s.locked;
    assert HoldsMutex(s, a.c, m) ==> a.Release?;
    hide Next, Enabled, Inv, HoldsMutex;
    if c :| HoldsMutex(s, c, m) && c != a.c {
      assert HoldsMutex(s', c, m);
    }
    if c :| HoldsMutex(s', c, m) && c != a.c {
      assert HoldsMutex(s, c, m);
    }
  }

  lemma NextKeepsInv(s: State, a: Action)
    requires Inv(s) && Enabled(s, a)
    ensures Inv(Next(s, a))
  {
    assert MapInv(Next(s, a));
    forall m ensures LockInv(Next(s, a), m) {
      LocksKept(s, a, m);
    }
  }

  lemma {:induction false} RunKeepsInv(states: seq<State>, actions: seq<Action>, i: nat)
    requires IsRun(states, actions) && i < |states|
    ensures Inv(states[i])
  {
    if i > 0 {
      RunKeepsInv(states, actions, i - 1);
      NextKeepsInv(states[i - 1], actions[i - 1]);
    }
  }

  /** A key's mutex never changes once it has been made. */
  lemma {:induction false} EntriesAreForever(states: seq<State>, actions: seq<Action>, i: nat, j: nat, key: Key)
    requires IsRun(states, actions) && i <= j < |states| && key in states[i].entries
    ensures key in states[j].entries && states[j].entries[key] == states[i].entries[key]
    decreases j - i
  {
    if i < j {
      EntriesAreForever(states, actions, i, j - 1, key);
      assert Enabled(states[j - 1], actions[j - 1]);
    }
  }

  /**
   Over every interleaving of lookup, acquire, abandon and release by any number of callers: at most one
   caller holds a key, and a caller waiting for a key can take it exactly when nobody holds that
   key, whatever other keys are held.
   */
  lemma SameKeySerialisesOthersRunFree(states: seq<State>, actions: seq<Action>, i: nat, key: Key)
    requires IsRun(states, actions) && i < |states|
    ensures forall a, b | states[i].Holds(a, key) && states[i].Holds(b, key) :: a == b
    ensures forall c | states[i].PhaseOf(c).Waiting? && states[i].PhaseOf(c).key == key ::
              Enabled(states[i], Acquire(c)) <==> forall b :: !states[i].Holds(b, key)
  {
    RunKeepsInv(states, actions, i);
    var s := states[i];
    assert key in s.entries ==> LockInv(s, s.entries[key]);
    forall a, b | s.Holds(a, key) && s.Holds(b, key) ensures a == b {
      assert HoldsMutex(s, a, s.entries[key]) && HoldsMutex(s, b, s.entries[key]);
    }
    forall c | s.PhaseOf(c).Waiting? && s.PhaseOf(c).key == key
      ensures Enabled(s, Acquire(c)) <==> forall b :: !s.Holds(b, key)
    {
      var m := s.entries[key];
      if b :| s.Holds(b, key) {
        assert HoldsMutex(s, b, m);
      }
      if b :| HoldsMutex(s, b, m) {
        assert s.Holds(b, key);
      }
    }
  }

  // ---- callers as the history of their steps ----

  function Acquires(actions: seq<Action>, c: Caller): nat -> bool {
    (k: nat) => k < |actions| && actions[k] == Acquire(c)
  }

  function Releases(actions: seq<Action>, c: Caller): nat -> bool {
    (k: nat) => k < |actions| && actions[k] == Release(c)
  }

  function Calls(actions: seq<Action>, c: Caller, key: Key): nat -> bool {
    (k: nat) => k < |actions| && actions[k] == Lookup(c, key)
  }

  function Leaves(actions: seq<Action>, c: Caller): nat -> bool {
    (k: nat) => k < |actions| && (actions[k] == Abandon(c) || actions[k] == Release(c))
  }

  predicate InCall(s: State, c: Caller, key: Key) { !s.PhaseOf(c).Idle? && s.PhaseOf(c).key == key }

  lemma NobodyIn(s: State, c: Caller, key: Key)
    requires s.phases == map[]
    ensures s.PhaseOf(c).Idle? && !InCall(s, c, key)
  {
  }

  lemma PhaseStep(s: State, a: Action, c: Caller, key: Key)
    requires Enabled(s, a)
    ensures var s' := Next(s, a);
            && (s'.PhaseOf(c).Holding? <==> a == Acquire(c) || (s.PhaseOf(c).Holding? && a != Release(c)))
            && (InCall(s', c, key) <==> a == Lookup(c, key) || (InCall(s, c, key) && a != Abandon(c) && a != Release(c)))
  {
  }

  /**
   In every interleaving: a caller holds a guard exactly when it has acquired one and not
   released it since, and it is for `key` that it waits or holds exactly when it asked for that
   key and has neither abandoned nor released it since.
   */
  lemma {:induction false} PhasesFollowTheSteps(states: seq<State>, actions: seq<Action>, i: nat, c: Caller, key: Key)
    requires IsRun(states, actions) && i < |states|
    ensures states[i].PhaseOf(c).Holding? <==> Since(i, Acquires(actions, c), Releases(actions, c))
    ensures InCall(states[i], c, key) <==> Since(i, Calls(actions, c, key), Leaves(actions, c))
  {
    hide Since, Next, Enabled, InCall, State.PhaseOf;
    if i == 0 {
      NobodyIn(states[0], c, key);
      NothingYet(Acquires(actions, c), Releases(actions, c));
      NothingYet(Calls(actions, c, key), Leaves(actions, c));
    } else {
      PhasesFollowTheSteps(states, actions, i - 1, c, key);
      PhaseStep(states[i - 1], actions[i - 1], c, key);
      SinceNext(i - 1, Acquires(actions, c), Releases(actions, c));
      SinceNext(i - 1, Calls(actions, c, key), Leaves(actions, c));
    }
  }

  /** The map as `guard` uses it, under the outer mutex. */
  class Registry {
    var entries: map<Key, Mutex>
    var made: nat

    constructor ()
      ensures entries == map[] && made == 0
    {
      entries, made := map[], 0;
    }

    /** `map.entry(key).or_default().clone()`. */
    method Entry(key: Key) returns (m: Mutex)
      modifies this
      ensures key in entries && m == entries[key]
      ensures entries == if key in old(entries) then old(entries) else old(entries)[key := old(made)]
      ensures made == if key in old(entries) then old(made) else old(made) + 1
    {
      if key !in entries {
        entries := entries[key := made];
        made := made + 1;
      }
      m := entries[key];
    }
  }
}
