/** lockMap: a map from keys to mutexes, guarded by one global mutex. LockEntry
    adds a missing entry under the global mutex, leaves it, looks the entry's
    mutex up and waits for it; UnlockEntry works under the global mutex. */
module LockMap {
  import opened Results
  import opened Runs

  type Key = string
  type Mutex = nat
  type Thread = nat

  datatype Pc =
    | Idle
    | LockEntering(key: Key)
    | LockInGlobal(key: Key)
    | LockLooking(key: Key)
    | LockWaiting(key: Key, mutex: Mutex)
    | Holding(key: Key)
    | UnlockEntering(key: Key)
    | UnlockInGlobal(key: Key)
    | UnlockLeaving

  datatype State = State(global: Option<Thread>, mutexes: map<Key, Mutex>, held: map<Mutex, Thread>, pcs: map<Thread, Pc>)

  function PcOf(s: State, t: Thread): Pc {
    if t in s.pcs then s.pcs[t] else Idle
  }

  predicate InGlobal(pc: Pc) {
    pc.LockInGlobal? || pc.UnlockInGlobal? || pc.UnlockLeaving?
  }

  /** The entry this thread has locked and not yet unlocked. */
  predicate Owns(pc: Pc, key: Key) {
    (pc.Holding? || pc.UnlockEntering? || pc.UnlockInGlobal?) && pc.key == key
  }

  predicate IsNew(mutexes: map<Key, Mutex>, m: Mutex) {
    forall k :: k in mutexes ==> mutexes[k] != m
  }

  /** One step of thread t; with `paired` callers, only the holder of an entry
      unlocks it. Unlocking a mutex nobody holds stops the program: no step. */
  ghost predicate ThreadStep(paired: bool, s: State, t: Thread, s': State) {
    match PcOf(s, t)
    case Idle =>
      || (exists k :: s' == s.(pcs := s.pcs[t := LockEntering(k)]))
      || (!paired && exists k :: s' == s.(pcs := s.pcs[t := UnlockEntering(k)]))
    case LockEntering(k) => s.global == None && s' == s.(global := Some(t), pcs := s.pcs[t := LockInGlobal(k)])
    case LockInGlobal(k) =>
      if k in s.mutexes then s' == s.(global := None, pcs := s.pcs[t := LockLooking(k)])
      else exists m: Mutex :: IsNew(s.mutexes, m) && s' == s.(mutexes := s.mutexes[k := m])
    case LockLooking(k) => k in s.mutexes && s' == s.(pcs := s.pcs[t := LockWaiting(k, s.mutexes[k])])
    case LockWaiting(k, m) => m !in s.held && s' == s.(held := s.held[m := t], pcs := s.pcs[t := Holding(k)])
    case Holding(k) => s' == s.(pcs := s.pcs[t := UnlockEntering(k)])
    case UnlockEntering(k) => s.global == None && s' == s.(global := Some(t), pcs := s.pcs[t := UnlockInGlobal(k)])
    case UnlockInGlobal(k) =>
      if k !in s.mutexes then s' == s.(pcs := s.pcs[t := UnlockLeaving])
      else s.mutexes[k] in s.held && s' == s.(held := s.held - {s.mutexes[k]}, pcs := s.pcs[t := UnlockLeaving])
    case UnlockLeaving => s' == s.(global := None, pcs := s.pcs[t := Idle])
  }

  ghost predicate Step(paired: bool, s: State, s': State) {
    exists t :: ThreadStep(paired, s, t, s')
  }

  ghost function Next(paired: bool): (State, State) -> bool {
    (s, s') => Step(paired, s, s')
  }

  const FREE := State(None, map[], map[], map[])

  ghost predicate Reachable(paired: bool, s: State) {
    Reaches(Next(paired), FREE, s)
  }

  ghost predicate Exclusive(s: State) {
    forall t, u :: PcOf(s, t).Holding? && PcOf(s, u).Holding? && PcOf(s, t).key == PcOf(s, u).key ==> t == u
  }

  // ---------- the invariant ----------

  ghost predicate PcOk(s: State, t: Thread) {
    var pc := PcOf(s, t);
    && (s.global == Some(t) <==> InGlobal(pc))
    && (pc.LockLooking? ==> pc.key in s.mutexes)
    && (pc.LockWaiting? ==> pc.key in s.mutexes && s.mutexes[pc.key] == pc.mutex)
    && (forall k :: Owns(pc, k) ==> k in s.mutexes && s.mutexes[k] in s.held && s.held[s.mutexes[k]] == t)
  }

  ghost predicate Distinct(m: map<Key, Mutex>) {
    forall a, b :: a in m && b in m && m[a] == m[b] ==> a == b
  }

  /** Every held mutex belongs to an entry, and its holder owns that entry. */
  ghost predicate HeldOk(s: State, m: Mutex) {
    m in s.held ==> exists k :: k in s.mutexes && s.mutexes[k] == m && Owns(PcOf(s, s.held[m]), k)
  }

  ghost predicate Inv(s: State) {
    Distinct(s.mutexes) && (forall t :: PcOk(s, t)) && (forall m :: HeldOk(s, m))
  }

  lemma Moves(paired: bool, s: State, t: Thread, s': State)
    requires ThreadStep(paired, s, t, s')
    ensures forall u :: u != t ==> PcOf(s', u) == PcOf(s, u)
    ensures forall k :: k in s.mutexes ==> k in s'.mutexes && s'.mutexes[k] == s.mutexes[k]
    ensures Distinct(s.mutexes) ==> Distinct(s'.mutexes)
  {
  }

  lemma PcKept(s: State, t: Thread, s': State, u: Thread)
    requires Inv(s) && ThreadStep(true, s, t, s')
    ensures PcOk(s', u)
  {
    Moves(true, s, t, s');
    assert PcOk(s, t) && PcOk(s, u);
  }

  lemma HeldKept(s: State, t: Thread, s': State, m: Mutex)
    requires Inv(s) && ThreadStep(true, s, t, s')
    ensures HeldOk(s', m)
  {
    Moves(true, s, t, s');
    assert PcOk(s, t);
    if m in s'.held {
      if m in s.held {
        assert HeldOk(s, m);
        var k :| k in s.mutexes && s.mutexes[k] == m && Owns(PcOf(s, s.held[m]), k);
        assert Owns(PcOf(s', s'.held[m]), k);
      } else {
        assert Owns(PcOf(s', t), PcOf(s, t).key);
      }
    }
  }

  lemma ReachableInv(s: State)
    requires Reachable(true, s)
    ensures Inv(s)
  {
    var inv := (x: State) => Inv(x);
    forall x, y | inv(x) && Next(true)(x, y) ensures inv(y) {
      var t :| ThreadStep(true, x, t, y);
      Moves(true, x, t, y);
      forall u ensures PcOk(y, u) {
        PcKept(x, t, y, u);
      }
      forall m ensures HeldOk(y, m) {
        HeldKept(x, t, y, m);
      }
    }
    Kept(Next(true), inv, FREE, s);
  }

  // ---------- what it gives ----------

  /** Entries are never removed: once a key has its mutex, every later LockEntry
      on the key takes that same mutex, whoever calls and however it is unlocked. */
  lemma EntriesStay(paired: bool, s: State, s': State)
    requires Reaches(Next(paired), s, s')
    ensures forall k :: k in s.mutexes ==> k in s'.mutexes && s'.mutexes[k] == s.mutexes[k]
  {
    var inv := (x: State) => forall k :: k in s.mutexes ==> k in x.mutexes && x.mutexes[k] == s.mutexes[k];
    forall x, y | inv(x) && Next(paired)(x, y) ensures inv(y) {
      var t :| ThreadStep(paired, x, t, y);
      Moves(paired, x, t, y);
    }
    Kept(Next(paired), inv, s, s');
  }

  /** The global mutex is never held by a thread that waits for an entry, and its
      holder can always go on. */
  lemma GlobalNeverBlocked(s: State, t: Thread) returns (s': State)
    requires Reachable(true, s) && s.global == Some(t)
    ensures !PcOf(s, t).LockWaiting? && ThreadStep(true, s, t, s')
  {
    ReachableInv(s);
    assert PcOk(s, t);
    match PcOf(s, t) {
      case LockInGlobal(k) =>
        if k in s.mutexes {
          s' := s.(global := None, pcs := s.pcs[t := LockLooking(k)]);
        } else {
          var m := NewMutex(s.mutexes);
          s' := s.(mutexes := s.mutexes[k := m]);
        }
      case UnlockInGlobal(k) =>
        assert Owns(PcOf(s, t), k);
        s' := s.(held := s.held - {s.mutexes[k]}, pcs := s.pcs[t := UnlockLeaving]);
      case UnlockLeaving =>
        s' := s.(global := None, pcs := s.pcs[t := Idle]);
    }
  }

  lemma {:induction false} Fresh(used: set<nat>) returns (m: nat)
    ensures forall x :: x in used ==> x < m
    decreases |used|
  {
    m := 0;
    if used != {} {
      var x :| x in used;
      m := Fresh(used - {x});
      m := if m <= x then x + 1 else m;
      assert forall y :: y in used ==> y == x || y in used - {x};
    }
  }

  lemma NewMutex(mutexes: map<Key, Mutex>) returns (m: Mutex)
    ensures IsNew(mutexes, m)
  {
    var used := set k | k in mutexes :: mutexes[k];
    m := Fresh(used);
    assert forall k :: k in mutexes ==> mutexes[k] in used;
  }

  ghost predicate EntryFree(s: State, k: Key) {
    k in s.mutexes ==> s.mutexes[k] !in s.held
  }

  lemma Advance(s0: State, s: State, t: Thread, s': State)
    requires Reachable(true, s) && Reaches(Next(true), s0, s) && ThreadStep(true, s, t, s')
    ensures Reachable(true, s') && Reaches(Next(true), s0, s')
  {
    Then(Next(true), FREE, s, s');
    Then(Next(true), s0, s, s');
  }

  /** The holder of the global mutex gives it back within two steps of its own. */
  lemma GlobalComesFree(s: State, k: Key) returns (s': State)
    requires Reachable(true, s) && EntryFree(s, k)
    ensures Reachable(true, s') && Reaches(Next(true), s, s') && s'.global == None && EntryFree(s', k)
    ensures forall u: Thread :: Some(u) != s.global ==> PcOf(s', u) == PcOf(s, u)
  {
    Here(Next(true), s);
    s' := s;
    if s.global.Some? {
      var g := s.global.value;
      ReachableInv(s);
      assert PcOk(s, g);
      s' := GlobalNeverBlocked(s, g);
      Advance(s, s, g, s');
      HeldStaysKnown(s, g, s', k);
      if s'.global.Some? {
        ReachableInv(s');
        assert PcOk(s', g);
        var s2 := GlobalNeverBlocked(s', g);
        Advance(s, s', g, s2);
        s' := s2;
      }
    }
  }

  /** A new entry's mutex is held by nobody. */
  lemma HeldStaysKnown(s: State, g: Thread, s': State, k: Key)
    requires Inv(s) && s.global == Some(g) && ThreadStep(true, s, g, s') && EntryFree(s, k)
    ensures EntryFree(s', k)
  {
    assert PcOk(s, g);
    if k in s'.mutexes && k !in s.mutexes {
      assert HeldOk(s, s'.mutexes[k]);
    }
  }

  /** A blocked key never blocks another one: a LockEntry on a key nobody holds
      gets it by steps of its own and of the holder of the global mutex alone,
      whatever the other threads wait for. */
  lemma FreeKeyIsGranted(s: State, t: Thread, k: Key) returns (s': State)
    requires Reachable(true, s) && PcOf(s, t) == LockEntering(k) && EntryFree(s, k)
    ensures Reachable(true, s') && Reaches(Next(true), s, s') && PcOf(s', t) == Holding(k)
    ensures forall u: Thread :: u != t && Some(u) != s.global ==> PcOf(s', u) == PcOf(s, u)
  {
    ReachableInv(s);
    assert PcOk(s, t);
    var a := GlobalComesFree(s, k);
    var b := a.(global := Some(t), pcs := a.pcs[t := LockInGlobal(k)]);
    Advance(s, a, t, b);
    var c := b;
    if k !in b.mutexes {
      c := GlobalNeverBlocked(b, t);
      Advance(s, b, t, c);
      ReachableInv(b);
      HeldStaysKnown(b, t, c, k);
    }
    var d := c.(global := None, pcs := c.pcs[t := LockLooking(k)]);
    Advance(s, c, t, d);
    var e := d.(pcs := d.pcs[t := LockWaiting(k, d.mutexes[k])]);
    Advance(s, d, t, e);
    s' := e.(held := e.held[e.mutexes[k] := t], pcs := e.pcs[t := Holding(k)]);
    Advance(s, e, t, s');
  }

  /** Callers that unlock only what they hold exclude each other on every key. */
  lemma PairedIsExclusive(s: State)
    requires Reachable(true, s)
    ensures Exclusive(s)
  {
    ReachableInv(s);
    forall t, u | PcOf(s, t).Holding? && PcOf(s, u).Holding? && PcOf(s, t).key == PcOf(s, u).key ensures t == u {
      assert PcOk(s, t) && PcOk(s, u) && Owns(PcOf(s, t), PcOf(s, t).key) && Owns(PcOf(s, u), PcOf(s, u).key);
    }
  }

  lemma Stray(s: State, t: Thread, s': State)
    requires Reachable(false, s) && ThreadStep(false, s, t, s')
    ensures Reachable(false, s')
  {
    Then(Next(false), FREE, s, s');
  }

  /** Thread t takes the entry "key" while nobody holds it. */
  lemma RunLock(s: State, t: Thread)
    requires Reachable(false, s) && s.global == None && s.mutexes == map["key" := 0] && s.held == map[] && PcOf(s, t) == LockEntering("key")
    ensures Reachable(false, s.(held := map[0 := t], pcs := s.pcs[t := Holding("key")]))
  {
    var b := s.(global := Some(t), pcs := s.pcs[t := LockInGlobal("key")]);
    Stray(s, t, b);
    var c := s.(pcs := b.pcs[t := LockLooking("key")]);
    Stray(b, t, c);
    var d := s.(pcs := c.pcs[t := LockWaiting("key", 0)]);
    Stray(c, t, d);
    var e := s.(held := map[0 := t], pcs := d.pcs[t := Holding("key")]);
    Stray(d, t, e);
    assert e.pcs == s.pcs[t := Holding("key")];
  }

  const HELD := State(None, map["key" := 0], map[0 := 0], map[0 := Holding("key")])

  lemma HeldReachable()
    ensures Reachable(false, HELD)
  {
    Here(Next(false), FREE);
    var one: Mutex := 0;
    var a := FREE.(pcs := map[0 := LockEntering("key")]);
    Stray(FREE, 0, a);
    var b := a.(global := Some(0), pcs := map[0 := LockInGlobal("key")]);
    Stray(a, 0, b);
    assert IsNew(b.mutexes, one);
    var c := b.(mutexes := map["key" := one]);
    Stray(b, 0, c);
    var d := c.(global := None, pcs := map[0 := LockLooking("key")]);
    Stray(c, 0, d);
    var e := d.(pcs := map[0 := LockWaiting("key", one)]);
    Stray(d, 0, e);
    Stray(e, 0, HELD);
  }

  /** One stray UnlockEntry lets a second caller in. */
  lemma UnpairedIsNot() returns (s: State)
    ensures Reachable(false, s) && !Exclusive(s)
  {
    HeldReachable();
    var g := HELD.(pcs := HELD.pcs[1 := UnlockEntering("key")]);
    Stray(HELD, 1, g);
    var h := g.(global := Some(1), pcs := g.pcs[1 := UnlockInGlobal("key")]);
    Stray(g, 1, h);
    var i := h.(held := map[], pcs := h.pcs[1 := UnlockLeaving]);
    Stray(h, 1, i);
    var j := i.(global := None, pcs := i.pcs[1 := Idle]);
    Stray(i, 1, j);
    var l := j.(pcs := j.pcs[1 := LockEntering("key")]);
    Stray(j, 1, l);
    RunLock(l, 1);
    s := l.(held := map[0 := 1], pcs := l.pcs[1 := Holding("key")]);
    assert PcOf(s, 0) == Holding("key") == PcOf(s, 1);
  }

  /** Exactly when entries exclude in every interleaving: callers pair up. */
  lemma ExclusiveExactly(paired: bool)
    ensures (forall s :: Reachable(paired, s) ==> Exclusive(s)) <==> paired
  {
    if paired {
      forall s | Reachable(paired, s) ensures Exclusive(s) {
        PairedIsExclusive(s);
      }
    } else {
      var s := UnpairedIsNot();
    }
  }

  // ---------- the unprotected lookup ----------

  /** The threads that call, and the keys they call with. */
  datatype Callers = Callers(threads: iset<Thread>, keys: iset<Key>, paired: bool)

  ghost predicate Uses(c: Callers, pc: Pc) {
    pc.LockEntering? || pc.LockInGlobal? || pc.LockLooking? || pc.LockWaiting? || pc.Holding? || pc.UnlockEntering? || pc.UnlockInGlobal? ==>
      pc.key in c.keys
  }

  ghost function NextOf(c: Callers): (State, State) -> bool {
    (s, s') => exists t :: t in c.threads && ThreadStep(c.paired, s, t, s') && Uses(c, PcOf(s', t))
  }

  ghost predicate ReachableBy(c: Callers, s: State) {
    Reaches(NextOf(c), FREE, s)
  }

  /** A thread is about to look an entry up outside the global mutex while another one
      is about to insert one. */
  ghost predicate Meets(s: State, reader: Thread, writer: Thread) {
    PcOf(s, reader).LockLooking? && PcOf(s, writer).LockInGlobal? && PcOf(s, writer).key !in s.mutexes
  }

  ghost predicate LookupsMeetNoInsertion(c: Callers) {
    forall s, reader, writer :: ReachableBy(c, s) ==> !Meets(s, reader, writer)
  }

  ghost predicate TwoOf<T(!new)>(xs: iset<T>) {
    exists x, y :: x in xs && y in xs && x != y
  }

  /** Calls are made by the callers, with their keys, and what is looked up is there. */
  ghost predicate CallersOk(c: Callers, s: State, t: Thread) {
    var pc := PcOf(s, t);
    (pc.Idle? || t in c.threads) && Uses(c, pc) && (pc.LockLooking? ==> pc.key in s.mutexes)
  }

  lemma CallersKept(c: Callers, s: State, t: Thread, s': State, u: Thread)
    requires CallersOk(c, s, u) && t in c.threads && ThreadStep(c.paired, s, t, s') && Uses(c, PcOf(s', t))
    ensures CallersOk(c, s', u)
  {
    Moves(c.paired, s, t, s');
  }

  lemma CallersAlways(c: Callers, s: State)
    requires ReachableBy(c, s)
    ensures forall t :: CallersOk(c, s, t)
  {
    var inv := (x: State) => forall t :: CallersOk(c, x, t);
    forall x, y | inv(x) && NextOf(c)(x, y) ensures inv(y) {
      var t :| t in c.threads && ThreadStep(c.paired, x, t, y) && Uses(c, PcOf(y, t));
      forall u ensures CallersOk(c, y, u) {
        assert CallersOk(c, x, u);
        CallersKept(c, x, t, y, u);
      }
    }
    Kept(NextOf(c), inv, FREE, s);
  }

  lemma Called(c: Callers, s: State, t: Thread, s': State)
    requires ReachableBy(c, s) && t in c.threads && ThreadStep(c.paired, s, t, s') && Uses(c, PcOf(s', t))
    ensures ReachableBy(c, s')
  {
    Then(NextOf(c), FREE, s, s');
  }

  /** One caller comes to look its new entry up. */
  lemma RunToLookup(c: Callers, t: Thread, k: Key) returns (s: State)
    requires t in c.threads && k in c.keys
    ensures ReachableBy(c, s) && s.global == None && s.pcs == map[t := LockLooking(k)] && s.mutexes.Keys == {k}
  {
    Here(NextOf(c), FREE);
    s := FREE.(pcs := map[t := LockEntering(k)]);
    Called(c, FREE, t, s);
    var b := s.(global := Some(t), pcs := map[t := LockInGlobal(k)]);
    Called(c, s, t, b);
    var m: Mutex := 0;
    assert IsNew(b.mutexes, m);
    var d := b.(mutexes := map[k := m]);
    Called(c, b, t, d);
    s := d.(global := None, pcs := map[t := LockLooking(k)]);
    Called(c, d, t, s);
  }

  /** Then a second caller, with another key, comes to insert it beside that lookup. */
  lemma LookupMeetsInsertion(c: Callers, reader: Thread, writer: Thread, k: Key, l: Key) returns (s: State)
    requires reader in c.threads && writer in c.threads && reader != writer && k in c.keys && l in c.keys && k != l
    ensures ReachableBy(c, s) && Meets(s, reader, writer)
  {
    var a := RunToLookup(c, reader, k);
    var b := a.(pcs := a.pcs[writer := LockEntering(l)]);
    Called(c, a, writer, b);
    s := b.(global := Some(writer), pcs := b.pcs[writer := LockInGlobal(l)]);
    Called(c, b, writer, s);
  }

  /** No lookup ever meets an insertion exactly when there are not both two callers and
      two keys: with one key, what is looked up is the only entry there will be. */
  lemma LookupExactly(c: Callers)
    ensures LookupsMeetNoInsertion(c) <==> !TwoOf(c.threads) || !TwoOf(c.keys)
  {
    if TwoOf(c.threads) && TwoOf(c.keys) {
      var reader, writer :| reader in c.threads && writer in c.threads && reader != writer;
      var k, l :| k in c.keys && l in c.keys && k != l;
      var s := LookupMeetsInsertion(c, reader, writer, k, l);
    } else {
      forall s, reader, writer | ReachableBy(c, s) ensures !Meets(s, reader, writer) {
        CallersAlways(c, s);
        assert CallersOk(c, s, reader) && CallersOk(c, s, writer);
      }
    }
  }

  // ---------- the calls ----------

  /** lockMap with other threads running between any two of its steps; a call that
      waits is watched for `patience` rounds. */
  class LockMap {
    var state: State

    constructor ()
      ensures state == FREE && Since(FREE)
    {
      state := FREE;
      new;
      Here(Next(true), FREE);
    }

    ghost predicate Since(start: State)
      reads this
    {
      Reachable(true, state) && Reaches(Next(true), start, state)
    }

    function At(t: Thread): Pc
      reads this
    {
      PcOf(state, t)
    }

    /** Any number of steps of other threads: what callers may count on is the contract. */
    method Others(t: Thread, ghost start: State)
      requires Since(start)
      modifies this
      ensures Since(start) && At(t) == old(At(t))
    {
    }

    method Do(t: Thread, s: State, ghost start: State)
      requires Since(start) && ThreadStep(true, state, t, s)
      modifies this
      ensures Since(start) && state == s
    {
      Advance(start, state, t, s);
      state := s;
    }

    /** Takes the global mutex. */
    method Enter(t: Thread, pc: Pc, patience: nat, ghost start: State) returns (entered: bool)
      requires Since(start)
      requires (At(t).LockEntering? && pc == LockInGlobal(At(t).key)) || (At(t).UnlockEntering? && pc == UnlockInGlobal(At(t).key))
      modifies this
      ensures Since(start) && At(t) == if entered then pc else old(At(t))
    {
      var rounds := 0;
      while state.global.Some? && rounds < patience
        invariant Since(start) && At(t) == old(At(t))
      {
        Others(t, start);
        rounds := rounds + 1;
      }
      entered := state.global == None;
      if entered {
        Do(t, state.(global := Some(t), pcs := state.pcs[t := pc]), start);
        Others(t, start);
      }
    }

    /** A LockEntry that returns holds the entry, through the one mutex the entry
        has had since it was added. */
    method LockEntry(t: Thread, entry: Key, patience: nat) returns (locked: bool)
      requires Since(FREE) && At(t) == Idle
      modifies this
      ensures Since(old(state)) && (locked <==> At(t) == Holding(entry))
      ensures locked ==> entry in state.mutexes && state.mutexes[entry] in state.held && state.held[state.mutexes[entry]] == t
      ensures entry in old(state.mutexes) ==> entry in state.mutexes && state.mutexes[entry] == old(state.mutexes[entry])
    {
      ghost var start := state;
      Here(Next(true), start);
      Do(t, state.(pcs := state.pcs[t := LockEntering(entry)]), start);
      Others(t, start);
      locked := Enter(t, LockInGlobal(entry), patience, start);
      if locked {
        if entry !in state.mutexes {
          ghost var unused := NewMutex(state.mutexes);
          var m: Mutex :| IsNew(state.mutexes, m);
          Do(t, state.(mutexes := state.mutexes[entry := m]), start);
        }
        Do(t, state.(global := None, pcs := state.pcs[t := LockLooking(entry)]), start);
        Others(t, start);
        locked := TakeMutex(t, entry, patience, start);
      }
      EntriesStay(true, start, state);
    }

    /** mutexMap[entry].Lock() */
    method TakeMutex(t: Thread, entry: Key, patience: nat, ghost start: State) returns (locked: bool)
      requires Since(start) && At(t) == LockLooking(entry)
      modifies this
      ensures Since(start) && (locked <==> At(t) == Holding(entry))
      ensures locked ==> entry in state.mutexes && state.mutexes[entry] in state.held && state.held[state.mutexes[entry]] == t
    {
      ReachableInv(state);
      assert PcOk(state, t);
      var m := state.mutexes[entry];
      Do(t, state.(pcs := state.pcs[t := LockWaiting(entry, m)]), start);
      Others(t, start);
      var rounds := 0;
      while m in state.held && rounds < patience
        invariant Since(start) && At(t) == LockWaiting(entry, m)
      {
        Others(t, start);
        rounds := rounds + 1;
      }
      locked := m !in state.held;
      if locked {
        Do(t, state.(held := state.held[m := t], pcs := state.pcs[t := Holding(entry)]), start);
        ReachableInv(state);
        assert PcOk(state, t) && Owns(At(t), entry);
      }
    }

    /** An UnlockEntry that returns has given back the entry it held. */
    method UnlockEntry(t: Thread, entry: Key, patience: nat) returns (done: bool)
      requires Since(FREE) && At(t) == Holding(entry)
      modifies this
      ensures Since(old(state)) && (done <==> At(t) == Idle)
      ensures forall m :: done && m in state.held ==> state.held[m] != t
    {
      ghost var start := state;
      Here(Next(true), start);
      Do(t, state.(pcs := state.pcs[t := UnlockEntering(entry)]), start);
      Others(t, start);
      done := Enter(t, UnlockInGlobal(entry), patience, start);
      if done {
        ReachableInv(state);
        assert PcOk(state, t) && Owns(At(t), entry);
        Do(t, state.(held := state.held - {state.mutexes[entry]}, pcs := state.pcs[t := UnlockLeaving]), start);
        Others(t, start);
        ReachableInv(state);
        assert PcOk(state, t);
        Do(t, state.(global := None, pcs := state.pcs[t := Idle]), start);
        ReachableInv(state);
        forall m | m in state.held ensures state.held[m] != t {
          assert HeldOk(state, m);
        }
      }
    }
  }
}
