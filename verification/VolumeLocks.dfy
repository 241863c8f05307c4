/** The per-volume operation locks: a set of keys with try-acquire and release,
    and the handlers that use it. A handler releases in a deferred call; the
    retry of CreateVolume releases early, calls itself, and still runs the
    deferred release of every activation. */
module VolumeLocks {
  import opened Runs

  type Key = string
  type Handler = nat

  /** What trying to acquire a key answers and leaves. */
  function Acquire(locks: set<Key>, k: Key): (r: (bool, set<Key>)) {
    (k !in locks, locks + {k})
  }

  /** What releasing a key leaves: it is given back whoever holds it. */
  function Give(locks: set<Key>, k: Key): set<Key> {
    locks - {k}
  }

  /** volumeLocks */
  class VolumeLocks {
    var locks: set<Key>

    constructor ()
      ensures locks == {}
    {
      locks := {};
    }

    method TryAcquire(volumeID: Key) returns (acquired: bool)
      modifies this
      ensures (acquired, locks) == Acquire(old(locks), volumeID)
    {
      if volumeID in locks {
        assert locks == locks + {volumeID};
        return false;
      }
      locks := locks + {volumeID};
      return true;
    }

    method Release(volumeID: Key)
      modifies this
      ensures locks == Give(old(locks), volumeID)
    {
      locks := locks - {volumeID};
    }
  }

  /** Where a handler stands, and how many deferred releases it has pending. */
  datatype Pc =
    | Idle
    | Inside(key: Key, defers: nat)
    | Retrying(key: Key, defers: nat)     // released early, about to acquire again
    | Leaving(key: Key, defers: nat)

  datatype State = State(locks: set<Key>, pcs: map<Handler, Pc>)

  /** The handlers that run, and whether CreateVolume may take its retry path. */
  datatype Policy = Policy(handlers: set<Handler>, retries: bool)

  function PcOf(s: State, h: Handler): Pc {
    if h in s.pcs then s.pcs[h] else Idle
  }

  function To(s: State, locks: set<Key>, h: Handler, pc: Pc): State {
    State(locks, s.pcs[h := pc])
  }

  ghost predicate HandlerStep(p: Policy, s: State, h: Handler, s': State) {
    match PcOf(s, h)
    case Idle => exists k :: var (got, locks) := Acquire(s.locks, k); got && s' == To(s, locks, h, Inside(k, 1))
    case Inside(k, n) =>
      || s' == To(s, s.locks, h, Leaving(k, n))
      || (p.retries && s' == To(s, Give(s.locks, k), h, Retrying(k, n)))
    case Retrying(k, n) =>
      var (got, locks) := Acquire(s.locks, k);
      s' == To(s, locks, h, if got then Inside(k, n + 1) else Leaving(k, n))
    case Leaving(k, n) =>
      if n == 0 then s' == To(s, s.locks, h, Idle)
      else s' == To(s, Give(s.locks, k), h, Leaving(k, n - 1))
  }

  ghost predicate Step(p: Policy, s: State, s': State) {
    exists h :: h in p.handlers && HandlerStep(p, s, h, s')
  }

  ghost function Next(p: Policy): (State, State) -> bool {
    (s, s') => Step(p, s, s')
  }

  const FREE := State({}, map[])

  ghost predicate Reachable(p: Policy, s: State) {
    Reaches(Next(p), FREE, s)
  }

  /** No two handlers work on one key. */
  ghost predicate Exclusive(s: State) {
    forall h, g :: PcOf(s, h).Inside? && PcOf(s, g).Inside? && PcOf(s, h).key == PcOf(s, g).key ==> h == g
  }

  ghost predicate AlwaysExclusive(p: Policy) {
    forall s :: Reachable(p, s) ==> Exclusive(s)
  }

  // ---------- without retries ----------

  predicate Holds(pc: Pc) {
    pc.Inside? || (pc.Leaving? && pc.defers > 0)
  }

  ghost predicate PcOk(s: State, pc: Pc) {
    && !pc.Retrying?
    && (pc.Inside? ==> pc.defers == 1)
    && (pc.Leaving? ==> pc.defers <= 1)
    && (Holds(pc) ==> pc.key in s.locks)
  }

  ghost predicate Paired(s: State) {
    && (forall h :: PcOk(s, PcOf(s, h)))
    && (forall h, g :: Holds(PcOf(s, h)) && Holds(PcOf(s, g)) && PcOf(s, h).key == PcOf(s, g).key ==> h == g)
    && (forall k :: k in s.locks ==> Owned(s, k))
  }

  /** The key belongs to a handler that will still release it. */
  ghost predicate Owned(s: State, k: Key) {
    exists h :: Holds(PcOf(s, h)) && PcOf(s, h).key == k
  }

  /** A step moves one handler; its key is the only one that comes or goes, and a
      key it leaves locked it still holds. */
  lemma StepShape(p: Policy, s: State, h: Handler, s': State)
    requires HandlerStep(p, s, h, s')
    requires PcOf(s, h).Inside? ==> PcOf(s, h).defers > 0
    ensures forall g :: g != h ==> PcOf(s', g) == PcOf(s, g)
    ensures PcOf(s', h).Inside? ==> PcOf(s', h).defers > 0
    ensures forall k :: k in s'.locks && k !in s.locks ==> Holds(PcOf(s', h)) && PcOf(s', h).key == k
    ensures forall k :: k in s'.locks && Holds(PcOf(s, h)) && PcOf(s, h).key == k ==> Holds(PcOf(s', h)) && PcOf(s', h).key == k
  {
  }

  lemma OwnedKept(p: Policy, s: State, h: Handler, s': State, k: Key)
    requires HandlerStep(p, s, h, s') && (PcOf(s, h).Inside? ==> PcOf(s, h).defers > 0)
    requires k in s'.locks && (k in s.locks ==> Owned(s, k))
    ensures Owned(s', k)
  {
    StepShape(p, s, h, s');
    if k in s.locks {
      var g :| Holds(PcOf(s, g)) && PcOf(s, g).key == k;
      assert Holds(PcOf(s', g)) && PcOf(s', g).key == k;
    }
  }

  lemma PairedKept(p: Policy, s: State, h: Handler, s': State)
    requires !p.retries && Paired(s) && HandlerStep(p, s, h, s')
    ensures Paired(s')
  {
    var pc := PcOf(s, h);
    assert PcOk(s, pc);
    StepShape(p, s, h, s');
    forall g ensures PcOk(s', PcOf(s', g)) {
      assert PcOk(s, PcOf(s, g));
    }
    forall k | k in s'.locks ensures Owned(s', k) {
      OwnedKept(p, s, h, s', k);
    }
    forall g | Holds(PcOf(s', g)) && Holds(PcOf(s', h)) && PcOf(s', g).key == PcOf(s', h).key ensures g == h {
      assert PcOk(s, PcOf(s, g));
    }
  }

  /** Handlers that pair one acquire with one deferred release exclude each
      other, and the locked keys are exactly the keys they hold: every exit path
      has given its key back. */
  lemma PairedHandlers(p: Policy, s: State)
    requires !p.retries && Reachable(p, s)
    ensures Exclusive(s)
    ensures forall k :: k in s.locks <==> Owned(s, k)
  {
    var inv := (x: State) => Paired(x);
    forall x, y | inv(x) && Next(p)(x, y) ensures inv(y) {
      var h :| HandlerStep(p, x, h, y);
      PairedKept(p, x, h, y);
    }
    Kept(Next(p), inv, FREE, s);
  }

  // ---------- with retries ----------

  /** Even with retries no key is lost: once every handler is idle, none is locked. */
  lemma NoKeyLost(p: Policy, s: State)
    requires Reachable(p, s) && forall h :: PcOf(s, h).Idle?
    ensures s.locks == {}
  {
    var inv := (x: State) => (forall k :: k in x.locks ==> Owned(x, k)) && forall h :: PcOf(x, h).Inside? ==> PcOf(x, h).defers > 0;
    forall x, y | inv(x) && Next(p)(x, y) ensures inv(y) {
      var h :| HandlerStep(p, x, h, y);
      StepShape(p, x, h, y);
      forall k | k in y.locks ensures Owned(y, k) {
        OwnedKept(p, x, h, y, k);
      }
    }
    Kept(Next(p), inv, FREE, s);
    assert forall k :: k !in s.locks;
  }

  lemma Advance(p: Policy, s: State, h: Handler, s': State)
    requires Reachable(p, s) && h in p.handlers && HandlerStep(p, s, h, s')
    ensures Reachable(p, s')
  {
    Then(Next(p), FREE, s, s');
  }

  /** A handler that retries while another one slips in takes that one's lock
      away when it leaves, and a third call enters beside it. */
  lemma RetryLosesExclusion(p: Policy, a: Handler, b: Handler, k: Key)
    requires p.retries && a in p.handlers && b in p.handlers && a != b
    ensures !AlwaysExclusive(p)
  {
    Here(Next(p), FREE);
    var s1 := To(FREE, {k}, a, Inside(k, 1));
    Advance(p, FREE, a, s1);
    var s2 := To(s1, {}, a, Retrying(k, 1));
    Advance(p, s1, a, s2);
    var s3 := To(s2, {k}, b, Inside(k, 1));
    Advance(p, s2, b, s3);
    var s4 := To(s3, {k}, a, Leaving(k, 1));
    Advance(p, s3, a, s4);
    var s5 := To(s4, {}, a, Leaving(k, 0));
    Advance(p, s4, a, s5);
    var s6 := To(s5, {}, a, Idle);
    Advance(p, s5, a, s6);
    var s7 := To(s6, {k}, a, Inside(k, 1));
    Advance(p, s6, a, s7);
    assert PcOf(s7, a) == Inside(k, 1) == PcOf(s7, b);
  }

  /** A single handler cannot meet another one inside. */
  lemma AloneIsExclusive(p: Policy, s: State)
    requires Reachable(p, s) && forall a, b :: a in p.handlers && b in p.handlers ==> a == b
    ensures Exclusive(s)
  {
    var inv := (x: State) => forall h :: !PcOf(x, h).Idle? ==> h in p.handlers;
    Kept(Next(p), inv, FREE, s);
  }

  /** Exactly when the volume locks exclude: no handler retries, or there is
      never more than one handler. */
  lemma ExclusiveExactly(p: Policy)
    ensures AlwaysExclusive(p) <==> !p.retries || forall a, b :: a in p.handlers && b in p.handlers ==> a == b
  {
    if !p.retries {
      forall s | Reachable(p, s) ensures Exclusive(s) {
        PairedHandlers(p, s);
      }
    } else if forall a, b :: a in p.handlers && b in p.handlers ==> a == b {
      forall s | Reachable(p, s) ensures Exclusive(s) {
        AloneIsExclusive(p, s);
      }
    } else {
      var a, b :| a in p.handlers && b in p.handlers && a != b;
      RetryLosesExclusion(p, a, b, "vol");
    }
  }
}
