/** Publishing: the staging path is bound to a pod's path, the target. Publish and
    unpublish calls take no lock, so that calls on one target may overlap. */
module PodMounts {
  import opened MountPoints
  import opened Runs

  type Caller = nat

  datatype Step = Checking | Binding | Unpublishing

  /** The mounts on one target, and the calls under way on it. */
  datatype Target = Target(stack: Stack, calls: map<Caller, Step>)

  /** Whether publishes on the target overlap, whether it is unpublished, and whether its
      mounts go stale. */
  datatype Uses = Uses(overlap: bool, unpublishes: bool, stale: bool)

  ghost predicate NoPublish(s: Target) {
    forall i :: i in s.calls ==> s.calls[i].Unpublishing?
  }

  ghost predicate Begins(u: Uses, s: Target, i: Caller, s': Target) {
    && i !in s.calls
    && ((s' == s.(calls := s.calls[i := Checking]) && (u.overlap || NoPublish(s)))
        || (s' == s.(calls := s.calls[i := Unpublishing]) && u.unpublishes))
  }

  function Over(s: Target, i: Caller, stack: Stack): Target {
    Target(stack, s.calls - {i})
  }

  /** A publish goes on to bind only when nothing is mounted; a bind that reports failure
      may have taken effect. An unpublish unmounts once. */
  ghost predicate Moves(s: Target, i: Caller, s': Target) {
    && i in s.calls
    && match s.calls[i]
       case Checking => s' == Over(s, i, s.stack) || (s.stack == [] && s' == s.(calls := s.calls[i := Binding]))
       case Binding => s' == Over(s, i, s.stack) || s' == Over(s, i, s.stack + [Mount(Bind, false)])
       case Unpublishing => s' == Over(s, i, s.stack) || s' == Over(s, i, Pop(s.stack))
  }

  ghost predicate GoesStale(u: Uses, s: Target, s': Target) {
    u.stale && exists i :: 0 <= i < |s.stack| && s' == s.(stack := Staled(s.stack, i))
  }

  ghost function Onward(u: Uses): (Target, Target) -> bool {
    (s, s') => GoesStale(u, s, s') || exists i :: Begins(u, s, i, s') || Moves(s, i, s')
  }

  const FREE := Target([], map[])

  ghost predicate Occurs(u: Uses, s: Target) {
    Reaches(Onward(u), FREE, s)
  }

  // ---------- when targets stack ----------

  /** One publish at a time finds the target free and binds it before another looks. */
  ghost predicate SingleBind(s: Target) {
    && |s.stack| <= 1
    && (forall i, j :: i in s.calls && j in s.calls && !s.calls[i].Unpublishing? && !s.calls[j].Unpublishing? ==> i == j)
    && (forall i :: i in s.calls && s.calls[i].Binding? ==> s.stack == [])
  }

  lemma SingleBindKept(u: Uses, s: Target, s': Target)
    requires !u.overlap && SingleBind(s) && Onward(u)(s, s')
    ensures SingleBind(s')
  {
    if i :| Begins(u, s, i, s') {
      BeginKept(u, s, i, s');
    } else if i :| Moves(s, i, s') {
      MoveKept(s, i, s');
    }
  }

  lemma BeginKept(u: Uses, s: Target, i: Caller, s': Target)
    requires !u.overlap && SingleBind(s) && Begins(u, s, i, s')
    ensures SingleBind(s')
  {
  }

  lemma MoveKept(s: Target, i: Caller, s': Target)
    requires SingleBind(s) && Moves(s, i, s')
    ensures SingleBind(s')
  {
  }

  lemma SingleBindAlways(u: Uses, s: Target)
    requires !u.overlap && Occurs(u, s)
    ensures SingleBind(s)
  {
    var inv := (x: Target) => SingleBind(x);
    forall x, y | inv(x) && Onward(u)(x, y) ensures inv(y) {
      SingleBindKept(u, x, y);
    }
    Kept(Onward(u), inv, FREE, s);
  }

  lemma Acts(u: Uses, s: Target, i: Caller, s': Target)
    requires Occurs(u, s) && (Begins(u, s, i, s') || Moves(s, i, s'))
    ensures Occurs(u, s')
  {
    Then(Onward(u), FREE, s, s');
  }

  /** Two publishes both find the target free, and both bind it. */
  lemma PublishesStack(u: Uses) returns (s: Target)
    requires u.overlap
    ensures Occurs(u, s) && |s.stack| == 2
  {
    Here(Onward(u), FREE);
    var s1 := Target([], map[0 := Checking]);
    Acts(u, FREE, 0, s1);
    var s2 := Target([], map[0 := Checking, 1 := Checking]);
    assert s2.calls == s1.calls[1 := Checking];
    Acts(u, s1, 1, s2);
    var s3 := s2.(calls := s2.calls[0 := Binding]);
    Acts(u, s2, 0, s3);
    var s4 := s3.(calls := s3.calls[1 := Binding]);
    Acts(u, s3, 1, s4);
    var s5 := Over(s4, 0, [Mount(Bind, false)]);
    Acts(u, s4, 0, s5);
    s := Over(s5, 1, [Mount(Bind, false), Mount(Bind, false)]);
    assert s5.stack + [Mount(Bind, false)] == s.stack;
    Acts(u, s5, 1, s);
  }

  /** A target never carries two mounts exactly when publishes on it do not overlap,
      whatever unpublishes and stale mounts come between. */
  lemma TargetStacksExactly(u: Uses)
    ensures (forall s :: Occurs(u, s) ==> |s.stack| <= 1) <==> !u.overlap
  {
    if u.overlap {
      var s := PublishesStack(u);
    } else {
      forall s | Occurs(u, s) ensures |s.stack| <= 1 {
        SingleBindAlways(u, s);
      }
    }
  }

  // ---------- the calls ----------

  /** The calls of one caller on one target; on a `reliable` node no foreign call fails,
      and when it is `alone` nothing else happens between its steps. */
  class Publisher {
    const uses: Uses
    const me: Caller
    const reliable: bool
    const alone: bool
    var state: Target

    constructor (uses: Uses, me: Caller, reliable: bool, alone: bool)
      ensures this.uses == uses && this.me == me && this.reliable == reliable && this.alone == alone
      ensures state == FREE && Since(FREE)
    {
      this.uses, this.me, this.reliable, this.alone := uses, me, reliable, alone;
      state := FREE;
      new;
      Here(Onward(uses), FREE);
    }

    ghost predicate Since(start: Target)
      reads this
    {
      Occurs(uses, state) && Reaches(Onward(uses), start, state)
    }

    function At(): seq<Step>
      reads this
    {
      if me in state.calls then [state.calls[me]] else []
    }

    /** Any number of steps of others: what callers may count on is the contract. */
    method Others(ghost start: Target)
      requires Since(start)
      modifies this
      ensures Since(start) && At() == old(At()) && (alone ==> state == old(state))
    {
    }

    method Do(s: Target, ghost start: Target)
      requires Since(start) && (Begins(uses, state, me, s) || Moves(state, me, s))
      modifies this
      ensures Since(start) && state == s
    {
      Acts(uses, state, me, s);
      Then(Onward(uses), start, state, s);
      state := s;
    }

    /** The bind mount of NodePublishVolume. A success means that at some moment of its
        run a good mount was there. Alone it never unmounts anything, leaves a good
        target as it is, reports a stale one, and otherwise adds one mount. */
    method NodePublishVolume() returns (ok: bool, ghost seen: Target)
      requires Since(FREE) && At() == [] && (uses.overlap || NoPublish(state))
      modifies this
      ensures Since(old(state)) && At() == []
      ensures ok ==> Reaches(Onward(uses), old(state), seen) && Reaches(Onward(uses), seen, state) && Good(seen.stack)
      ensures !uses.overlap ==> |state.stack| <= 1
      ensures alone ==>
        && (state.stack == old(state.stack) || (old(state.stack) == [] && state.stack == [Mount(Bind, false)]))
        && (old(state.stack) != [] && !Good(old(state.stack)) ==> !ok)
        && (ok ==> Good(state.stack))
        && (reliable && (old(state.stack) == [] || Good(old(state.stack))) ==> ok)
    {
      ghost var start := state;
      Here(Onward(uses), start);
      Do(state.(calls := state.calls[me := Checking]), start);
      Others(start);
      var after, mounted, err := EnsureMountPoint(state.stack, false, reliable);
      seen := state;
      Here(Onward(uses), seen);
      if err || mounted {
        Do(Over(state, me, state.stack), seen);
        Both(Onward(uses), start, seen, state);
        ok := !err;
      } else {
        Do(state.(calls := state.calls[me := Binding]), start);
        Others(start);
        ok := BindTarget(start);
        seen := state;
        Here(Onward(uses), seen);
      }
      if !uses.overlap {
        SingleBindAlways(uses, state);
      }
    }

    /** The mount call itself, which may take effect and report failure. */
    method BindTarget(ghost start: Target) returns (ok: bool)
      requires Since(start) && At() == [Binding]
      modifies this
      ensures Since(start) && At() == [] && (reliable ==> ok)
      ensures state.stack == old(state.stack) || state.stack == old(state.stack) + [Mount(Bind, false)]
      ensures ok ==> state.stack == old(state.stack) + [Mount(Bind, false)]
    {
      var applied: bool, reports: bool := *, *;
      ok := reliable || (applied && reports);
      Do(Over(state, me, if applied || ok then state.stack + [Mount(Bind, false)] else state.stack), start);
    }

    /** NodeUnpublishVolume: a success found one mount at most, and left none. */
    method NodeUnpublishVolume() returns (ok: bool, ghost seen: Target)
      requires Since(FREE) && At() == [] && uses.unpublishes
      modifies this
      ensures Since(old(state)) && At() == []
      ensures Reaches(Onward(uses), old(state), seen) && Reaches(Onward(uses), seen, state)
      ensures state.stack == seen.stack || state.stack == Pop(seen.stack)
      ensures ok ==> |seen.stack| <= 1 && state.stack == []
      ensures reliable ==> (ok <==> |seen.stack| <= 1)
      ensures alone ==> seen.stack == old(state.stack)
    {
      ghost var start := state;
      Here(Onward(uses), start);
      Do(state.(calls := state.calls[me := Unpublishing]), start);
      Others(start);
      seen := state;
      Here(Onward(uses), seen);
      var after;
      after, ok := CleanupMountPoint(state.stack, reliable);
      Do(Over(state, me, after), seen);
      Both(Onward(uses), start, seen, state);
    }
  }
}
