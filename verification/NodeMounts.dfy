/** The mounts of one volume on a Linux node. A plain volume mounts its share at
    the staging path; a VHD volume mounts the share at the sibling proxy-mount and
    a loop mount of the disk file at the staging path. Pods' paths are in
    PodMounts. */
module NodeMounts {
  import opened MountPoints
  import opened Runs

  // ---------- one volume, mount call by mount call ----------

  datatype Pc = Idle | Staging | MountingShare | CheckingLoop | MountingLoop | Unstaging | UnstagingProxy

  /** The stacks at the staging path and at its sibling, and the share mounts that
      timed out and may still come. The volume lock admits one call at a time. */
  datatype State = State(staging: Stack, proxy: Stack, pending: nat, pc: Pc)

  /** Whether the volume is a VHD disk, whether its share mount can go stale, and
      whether a share mount that timed out can land later. */
  datatype Policy = Policy(disk: bool, sharesGoStale: bool, lateMounts: bool)

  /** The path the share is mounted at. */
  function ShareStack(p: Policy, s: State): Stack {
    if p.disk then s.proxy else s.staging
  }

  function WithShare(p: Policy, s: State, stack: Stack): State {
    if p.disk then s.(proxy := stack) else s.(staging := stack)
  }

  /** A check of a stack goes on to mount when nothing is mounted or a stale mount
      was taken off, goes on past a good mount, and may fail in either case. */
  ghost predicate Checked(stack: Stack, after: Stack, mount: bool) {
    if mount then !Good(stack) && after == Pop(stack) else Good(stack) && after == stack
  }

  ghost predicate CallStep(p: Policy, s: State, s': State) {
    match s.pc
    case Idle => s' == s.(pc := Staging) || s' == s.(pc := Unstaging)
    case Staging =>
      || (Checked(ShareStack(p, s), ShareStack(p, s), false) && s' == s.(pc := if p.disk then CheckingLoop else Idle))
      || (Checked(ShareStack(p, s), Pop(ShareStack(p, s)), true) && s' == WithShare(p, s, Pop(ShareStack(p, s))).(pc := MountingShare))
    case MountingShare =>
      || s' == WithShare(p, s, ShareStack(p, s) + [Mount(Share, false)]).(pc := if p.disk then CheckingLoop else Idle)
      || (p.lateMounts && s' == s.(pending := s.pending + 1, pc := Idle))
    case CheckingLoop =>
      || (Checked(s.staging, s.staging, false) && s' == s.(pc := Idle))
      || (Checked(s.staging, Pop(s.staging), true) && s' == s.(staging := Pop(s.staging), pc := MountingLoop))
    case MountingLoop => s' == s.(staging := s.staging + [Mount(Loop, false)], pc := Idle)
    case Unstaging =>
      || s' == s.(staging := Pop(s.staging), pc := Idle)
      || (|s.staging| <= 1 && s' == s.(staging := [], pc := UnstagingProxy))
    case UnstagingProxy => s' == s.(proxy := Pop(s.proxy), pc := Idle)
  }

  /** Any call can fail and end, also with the driver. */
  ghost predicate Fails(s: State, s': State) {
    s' == s.(pc := Idle)
  }

  /** A mount goes stale, or a share mount that timed out lands. */
  ghost predicate EnvStep(p: Policy, s: State, s': State) {
    || (exists i :: 0 <= i < |s.staging| && (s.staging[i].kind == Share ==> p.sharesGoStale) && s' == s.(staging := Staled(s.staging, i)))
    || (exists i :: 0 <= i < |s.proxy| && p.sharesGoStale && s' == s.(proxy := Staled(s.proxy, i)))
    || (s.pending > 0 && s' == WithShare(p, s, ShareStack(p, s) + [Mount(Share, false)]).(pending := s.pending - 1))
  }

  ghost function Next(p: Policy): (State, State) -> bool {
    (s, s') => CallStep(p, s, s') || Fails(s, s') || EnvStep(p, s, s')
  }

  const UNMOUNTED := State([], [], 0, Idle)

  ghost predicate Reachable(p: Policy, s: State) {
    Reaches(Next(p), UNMOUNTED, s)
  }

  /** A loop mount at the staging path has its share mounted beside it. */
  ghost predicate LoopHasShare(s: State) {
    (exists i :: 0 <= i < |s.staging| && s.staging[i].kind == Loop) ==> s.proxy != []
  }

  /** Neither path carries two mounts. */
  ghost predicate NoStacking(s: State) {
    |s.staging| <= 1 && |s.proxy| <= 1
  }

  // ---------- loop over share ----------

  /** Shares that do not go stale are taken off only after the loop mount. */
  ghost predicate ShareInv(p: Policy, s: State) {
    && (forall i :: 0 <= i < |s.proxy| ==> s.proxy[i] == Mount(Share, false))
    && (forall i :: 0 <= i < |s.staging| ==> s.staging[i].kind == if p.disk then Loop else Share)
    && (!p.disk ==> s.proxy == [] && s.pc != CheckingLoop && s.pc != MountingLoop)
    && (p.disk && s.proxy == [] ==> s.staging == [])
    && (s.pc == CheckingLoop || s.pc == MountingLoop ==> s.proxy != [])
    && (p.disk && s.pc == UnstagingProxy ==> s.staging == [])
  }

  lemma ShareInvKept(p: Policy, s: State, s': State)
    requires !p.sharesGoStale && ShareInv(p, s) && Next(p)(s, s')
    ensures ShareInv(p, s')
  {
  }

  /** Without late mounts a mount call finds its path free. */
  ghost predicate SingleInv(p: Policy, s: State) {
    && NoStacking(s) && s.pending == 0
    && (s.pc == MountingShare ==> ShareStack(p, s) == [])
    && (s.pc == MountingLoop ==> s.staging == [])
  }

  lemma SingleInvKept(p: Policy, s: State, s': State)
    requires !p.lateMounts && SingleInv(p, s) && Next(p)(s, s')
    ensures SingleInv(p, s')
  {
  }

  lemma Advance(p: Policy, s: State, s': State)
    requires Reachable(p, s) && Next(p)(s, s')
    ensures Reachable(p, s')
  {
    Then(Next(p), UNMOUNTED, s, s');
  }

  const SHARED := [Mount(Share, false)]
  const LOOPED := [Mount(Loop, false)]

  lemma Mounts(p: Policy, late: nat)
    requires Reachable(p, UNMOUNTED.(pending := late))
    ensures Reachable(p, State(if p.disk then LOOPED else SHARED, if p.disk then SHARED else [], late, Idle))
  {
    var a := UNMOUNTED.(pending := late);
    Advance(p, a, a.(pc := Staging));
    Advance(p, a.(pc := Staging), a.(pc := MountingShare));
    var b := if p.disk then a.(proxy := SHARED, pc := CheckingLoop) else a.(staging := SHARED);
    Advance(p, a.(pc := MountingShare), b);
    if p.disk {
      Advance(p, b, b.(pc := MountingLoop));
      Advance(p, b.(pc := MountingLoop), b.(staging := LOOPED, pc := Idle));
    }
  }

  /** A share that goes stale is unmounted and mounted again under the loop mount
      that uses it. */
  lemma StaleShareUnmounted(p: Policy) returns (s: State)
    requires p.disk && p.sharesGoStale
    ensures Reachable(p, s) && !LoopHasShare(s)
  {
    Here(Next(p), UNMOUNTED);
    Mounts(p, 0);
    var a := State(LOOPED, SHARED, 0, Idle);
    var b := a.(proxy := [Mount(Share, true)]);
    assert b.proxy == Staled(SHARED, 0);
    Advance(p, a, b);
    Advance(p, b, b.(pc := Staging));
    s := b.(proxy := [], pc := MountingShare);
    assert Pop(b.proxy) == [];
    Advance(p, b.(pc := Staging), s);
    assert s.staging[0].kind == Loop;
  }

  /** A mount that timed out lands on top of the one its retry made. */
  lemma LateMountStacks(p: Policy) returns (s: State)
    requires p.lateMounts
    ensures Reachable(p, s) && !NoStacking(s)
  {
    Here(Next(p), UNMOUNTED);
    var a := UNMOUNTED;
    Advance(p, a, a.(pc := Staging));
    Advance(p, a.(pc := Staging), a.(pc := MountingShare));
    Advance(p, a.(pc := MountingShare), a.(pending := 1));
    Mounts(p, 1);
    var b := State(if p.disk then LOOPED else SHARED, if p.disk then SHARED else [], 1, Idle);
    s := WithShare(p, b, ShareStack(p, b) + SHARED).(pending := 0);
    Advance(p, b, s);
  }

  /** Over every run of stage and unstage calls, failing anywhere, a VHD volume's
      loop mount has its share: exactly when share mounts do not go stale. */
  lemma LoopHasShareExactly(p: Policy)
    ensures (forall s :: Reachable(p, s) ==> LoopHasShare(s)) <==> !p.disk || !p.sharesGoStale
  {
    if p.disk && p.sharesGoStale {
      var s := StaleShareUnmounted(p);
    } else {
      forall s | Reachable(p, s) ensures LoopHasShare(s) {
        if p.disk {
          var inv := (x: State) => ShareInv(p, x);
          forall x, y | inv(x) && Next(p)(x, y) ensures inv(y) {
            ShareInvKept(p, x, y);
          }
          Kept(Next(p), inv, UNMOUNTED, s);
        } else {
          var inv := (x: State) => x.pc != MountingLoop && x.pc != CheckingLoop && forall i :: 0 <= i < |x.staging| ==> x.staging[i].kind != Loop;
          forall x, y | inv(x) && Next(p)(x, y) ensures inv(y) {
            NoLoops(p, x, y);
          }
          Kept(Next(p), inv, UNMOUNTED, s);
        }
      }
    }
  }

  lemma NoLoops(p: Policy, x: State, y: State)
    requires !p.disk && x.pc != MountingLoop && x.pc != CheckingLoop && Next(p)(x, y)
    requires forall i :: 0 <= i < |x.staging| ==> x.staging[i].kind != Loop
    ensures y.pc != MountingLoop && y.pc != CheckingLoop && forall i :: 0 <= i < |y.staging| ==> y.staging[i].kind != Loop
  {
  }

  /** Neither path ever carries two mounts: exactly when a share mount that timed out
      cannot land later. */
  lemma NoStackingExactly(p: Policy)
    ensures (forall s :: Reachable(p, s) ==> NoStacking(s)) <==> !p.lateMounts
  {
    if p.lateMounts {
      var s := LateMountStacks(p);
    } else {
      forall s | Reachable(p, s) ensures NoStacking(s) {
        var inv := (x: State) => SingleInv(p, x);
        forall x, y | inv(x) && Next(p)(x, y) ensures inv(y) {
          SingleInvKept(p, x, y);
        }
        Kept(Next(p), inv, UNMOUNTED, s);
      }
    }
  }

  // ---------- the node calls ----------

  /** The volume's stage and unstage calls, each under the volume's lock; mounts go
      stale and late mounts land between calls; on a `reliable` node no foreign call
      fails. */
  class Volume {
    const policy: Policy
    const reliable: bool
    var state: State

    constructor (policy: Policy, reliable: bool)
      ensures this.policy == policy && this.reliable == reliable && state == UNMOUNTED && Since(UNMOUNTED)
    {
      this.policy, this.reliable := policy, reliable;
      state := UNMOUNTED;
      new;
      Here(Next(policy), UNMOUNTED);
    }

    ghost predicate Since(start: State)
      reads this
    {
      Reachable(policy, state) && Reaches(Next(policy), start, state)
    }

    method Do(s: State, ghost start: State)
      requires Since(start) && (CallStep(policy, state, s) || Fails(state, s))
      modifies this`state
      ensures Since(start) && state == s
    {
      Advance(policy, state, s);
      Then(Next(policy), start, state, s);
      state := s;
    }

    /** NodeStageVolume: the share first, then the loop mount. Good mounts are
        left as they are, and success leaves nothing but good ones. */
    method NodeStageVolume() returns (ok: bool)
      requires Since(UNMOUNTED) && state.pc == Idle
      modifies this`state
      ensures Since(old(state)) && state.pc == Idle
      ensures ok ==> Good(ShareStack(policy, state)) && Good(state.staging)
      ensures Good(old(state.staging)) && Good(ShareStack(policy, old(state))) ==> state == old(state)
      ensures reliable && |ShareStack(policy, old(state))| <= 1 && |old(state.staging)| <= 1 ==> ok
    {
      ghost var start := state;
      Here(Next(policy), start);
      Do(state.(pc := Staging), start);
      var after, mounted, err := EnsureMountPoint(ShareStack(policy, state), true, reliable);
      if err {
        Do(state.(pc := Idle), start);
        return false;
      }
      if mounted {
        Do(state.(pc := if policy.disk then CheckingLoop else Idle), start);
      } else {
        Do(WithShare(policy, state, after).(pc := MountingShare), start);
        var done: bool, late: bool := *, *;
        if !done && !reliable {
          late := late && policy.lateMounts;
          Do(state.(pending := if late then state.pending + 1 else state.pending, pc := Idle), start);
          return false;
        }
        Do(WithShare(policy, state, ShareStack(policy, state) + [Mount(Share, false)]).(pc := if policy.disk then CheckingLoop else Idle), start);
      }
      ok := true;
      if policy.disk {
        ok := StageDisk(start);
      }
    }

    method StageDisk(ghost start: State) returns (ok: bool)
      requires Since(start) && state.pc == CheckingLoop
      modifies this`state
      ensures Since(start) && state.pc == Idle && state.proxy == old(state.proxy)
      ensures ok ==> Good(state.staging)
      ensures Good(old(state.staging)) ==> state == old(state).(pc := Idle)
      ensures reliable ==> ok
    {
      var after, mounted, err := EnsureMountPoint(state.staging, true, reliable);
      if err {
        Do(state.(pc := Idle), start);
        return false;
      }
      if mounted {
        Do(state.(pc := Idle), start);
        return true;
      }
      Do(state.(staging := after, pc := MountingLoop), start);
      ok := *;
      ok := ok || reliable;
      Do(if ok then state.(staging := state.staging + [Mount(Loop, false)], pc := Idle) else state.(pc := Idle), start);
    }

    /** NodeUnstageVolume: the staging path first; success leaves neither mount. */
    method NodeUnstageVolume() returns (ok: bool)
      requires Since(UNMOUNTED) && state.pc == Idle
      modifies this`state
      ensures Since(old(state)) && state.pc == Idle
      ensures ok ==> state.staging == [] && state.proxy == []
      ensures state.staging != [] ==> state.proxy == old(state.proxy)
      ensures reliable ==> (ok <==> |old(state.staging)| <= 1 && |old(state.proxy)| <= 1)
    {
      ghost var start := state;
      Here(Next(policy), start);
      Do(state.(pc := Unstaging), start);
      var after;
      after, ok := CleanupMountPoint(state.staging, reliable);
      if !ok {
        if after == state.staging {
          Do(state.(pc := Idle), start);
        } else {
          Do(state.(staging := after, pc := Idle), start);
        }
        return;
      }
      Do(state.(staging := [], pc := UnstagingProxy), start);
      after, ok := CleanupMountPoint(state.proxy, reliable);
      if after == state.proxy {
        Do(state.(pc := Idle), start);
      } else {
        Do(state.(proxy := after, pc := Idle), start);
      }
    }
  }
}
