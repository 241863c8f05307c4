/** The attempt itself: CreateVolume's copy into a share, step by step, as a run of
    the protocol in AzcopyCopy. */
module AzcopyCloner {
  import opened AzcopyCopy
  import opened AzcopyJobs
  import opened AzcopyPromises
  import opened Results
  import opened Runs

  lemma {:induction false} LongerThan(ids: set<string>) returns (id: string)
    ensures id != "" && forall x :: x in ids ==> |x| < |id|
    decreases |ids|
  {
    id := "j";
    if ids != {} {
      var x :| x in ids;
      id := LongerThan(ids - {x});
      id := id + x;
      assert forall y :: y in ids ==> y == x || y in ids - {x};
    }
  }

  /** azcopy can always give out a new job id. */
  lemma UnusedId(w: World) returns (id: string)
    ensures Unused(w, id)
  {
    id := LongerThan(w.listed.Keys + w.running + w.done);
    assert forall x :: x in w.listed || x in w.running || x in w.done ==> |x| < |id|;
  }

  /** Between two states the job list was read, and neither as running nor as completed. */
  ghost predicate Condemned(p: Policy, start: State, now: State) {
    exists c, v :: Reaches(Next(p), start, c) && Reaches(Next(p), c, now) && Reads(p, c.world, v) && v != Running && v != Completed
  }

  /** Between two states the job list was read as running or completed. */
  ghost predicate Excused(p: Policy, start: State, now: State) {
    exists c, v :: Reaches(Next(p), start, c) && Reaches(Next(p), c, now) && Reads(p, c.world, v) && (v == Running || v == Completed)
  }

  lemma ExcusedSince(p: Policy, start: State, mid: State, now: State)
    requires Reaches(Next(p), start, mid) && Excused(p, mid, now)
    ensures Excused(p, start, now)
  {
    var c, v :| Reaches(Next(p), mid, c) && Reaches(Next(p), c, now) && Reads(p, c.world, v) && (v == Running || v == Completed);
    Both(Next(p), start, mid, c);
  }

  /** What came of a try to copy: no authorisation for it, a copy, the permission mismatch
      of a copy without SAS token, another error. */
  datatype Try = Unauthorised | Copied | Mismatch | CopyError

  /** Attempts follow each other, and the list shows the share's jobs as they are. */
  predicate Calm(p: Policy) {
    !p.overlap && !p.cleanDropsRunning && !p.foreign && !p.readsFail
  }

  /** When no job runs, a calm list shows none in progress. */
  lemma NoneRuns(p: Policy, s: State, v: JobState)
    requires Calm(p) && Reachable(p, s) && s.world.running == {} && Reads(p, s.world, v)
    ensures v != Running && v != Error
  {
    SerialAlways(p, s);
    ReadTells(p, s.world, v);
  }

  lemma NoError(p: Policy, s: State, v: JobState)
    requires Calm(p) && Reachable(p, s) && Reads(p, s.world, v)
    ensures v != Error
  {
    SerialAlways(p, s);
    ReadTells(p, s.world, v);
  }

  lemma MayClean(p: Policy, w: World, drop: set<string>)
    requires Clears(p, w, drop)
    ensures Moves(p, w, Cleaning, Move(Cleared(w, drop), None, true))
  {
  }

  /** One attempt of CreateVolume to clone into the share, with jobs ending, the list
      being cleaned, shares being deleted and other attempts working between any two of
      its steps; polling is watched for `patience` rounds. When it is `reliable` its
      foreign calls succeed, and the jobs it waits for complete in time. */
  class Cloner {
    const policy: Policy
    const me: nat
    const reliable: bool
    var state: State
    var deletions: nat              // shares that attempts made here have deleted
    var tries: seq<Try>
    var listings: nat                 // of the job list

    constructor (policy: Policy, me: nat, reliable: bool)
      ensures this.policy == policy && this.me == me && this.reliable == reliable && state == START && deletions == 0
      ensures tries == [] && listings == 0 && Since(START)
    {
      this.policy, this.me, this.reliable := policy, me, reliable;
      state, deletions, tries, listings := START, 0, [], 0;
      new;
      Here(Next(policy), START);
    }

    ghost predicate Since(start: State)
      reads this
    {
      Reachable(policy, state) && Reaches(Next(policy), start, state)
    }

    function At(): Option<Phase>
      reads this
    {
      if me in state.attempts then Some(state.attempts[me]) else None
    }

    /** An attempt on the share may start. */
    ghost predicate MayBegin()
      reads this
    {
      (policy.overlap || state.attempts == map[]) && (policy.again || !state.provided)
    }

    /** Any number of steps of the jobs, of cleaning and deletions, and of other attempts:
        what callers may count on is the contract. */
    method Meanwhile(ghost start: State)
      requires Since(start)
      modifies this`state
      ensures Since(start) && At() == old(At())
      ensures !policy.overlap ==> state.world.running <= old(state.world.running)
      ensures reliable ==> old(state.world.running + state.world.done) <= state.world.running + state.world.done
    {
    }

    /** The attempt waits. When it is reliable the jobs that run complete meanwhile. */
    method Await(ghost start: State)
      requires Since(start)
      modifies this`state
      ensures Since(start) && At() == old(At())
      ensures !policy.overlap ==> state.world.running <= old(state.world.running)
      ensures reliable ==> state.world.running == {} && old(state.world.running) <= state.world.done
    {
      Meanwhile(start);
      while reliable && state.world.running != {}
        invariant Since(start) && At() == old(At())
        invariant !policy.overlap ==> state.world.running <= old(state.world.running)
        invariant reliable ==> old(state.world.running) <= state.world.running + state.world.done
        decreases state.world.running
      {
        var id :| id in state.world.running;
        Completes(id, start);
      }
    }

    /** A job completes. */
    method Completes(id: string, ghost start: State)
      requires Since(start) && id in state.world.running
      modifies this`state
      ensures Since(start) && At() == old(At())
      ensures state.world.running == old(state.world.running) - {id} && state.world.done == old(state.world.done) + {id}
    {
      ghost var s := state;
      var w := Ended(state.world, id, "Completed");
      state := State(w, state.attempts, false, state.provided && w.share);
      assert Ends(policy, s.world, id, "Completed");
      assert WorldStep(policy, s.world, w);
      Advance(policy, s, state);
      Then(Next(policy), start, s, state);
    }

    /** One step of this attempt. */
    method Do(m: Move, ghost start: State)
      requires Since(start) && At().Some? && Moves(policy, state.world, At().value, m)
      modifies `state, `deletions
      ensures Since(start) && state == After(old(state), me, m)
      ensures deletions == old(deletions) + if old(state.world.share) && !m.world.share then 1 else 0
    {
      ghost var s := state;
      deletions := deletions + if state.world.share && !m.world.share then 1 else 0;
      state := After(state, me, m);
      assert AttemptStep(policy, s, me, m, state);
      Advance(policy, s, state);
      Then(Next(policy), start, s, state);
    }

    /** One step that changes nothing but the attempt's phase, then the others. */
    method Go(phase: Phase, ghost start: State)
      requires Since(start) && At().Some? && Moves(policy, state.world, At().value, Move(state.world, Some(phase), false))
      modifies `state, `deletions
      ensures Since(start) && At() == Some(phase) && deletions == old(deletions)
      ensures !policy.overlap ==> state.world.running <= old(state.world.running)
    {
      Do(Move(state.world, Some(phase), false), start);
      Meanwhile(start);
    }

    /** The attempt is over. */
    method Finish(success: bool, ghost start: State)
      requires Since(start) && At().Some? && Moves(policy, state.world, At().value, Move(state.world, None, success))
      modifies `state, `deletions
      ensures Since(start) && At() == None && deletions == old(deletions)
      ensures state.succeeded == success && state.world == old(state.world)
    {
      Do(Move(state.world, None, success), start);
    }

    /** GetAzcopyJob on the records of the share, in whatever order they come. */
    method GetJob() returns (v: JobState)
      modifies `listings
      ensures Reads(policy, state.world, v) && listings == old(listings) + 1
    {
      listings := listings + 1;
      var failed: bool := *;
      if failed && policy.readsFail && !reliable {
        return Error;
      }
      var listed := state.world.listed;
      var jobs: seq<Job>, todo := [], listed.Keys;
      while todo != {}
        invariant todo <= listed.Keys
        invariant forall j :: j in jobs ==> j.id in listed && listed[j.id] == j.status
        invariant forall id :: id in listed && id !in todo ==> exists j :: j in jobs && j.id == id
        decreases todo
      {
        var id :| id in todo;
        var j := Job(id, "", listed[id], "", "");
        forall x | x in listed && x !in todo - {id} ensures exists k :: k in jobs + [j] && k.id == x {
          if x == id {
            assert j in jobs + [j];
          } else {
            var k :| k in jobs && k.id == x;
            assert k in jobs + [j];
          }
        }
        jobs := jobs + [j];
        todo := todo - {id};
      }
      assert Enumerates(listed, jobs);
      v := Verdict(jobs);
    }

    /** CleanJobs, whose failure is only logged, and the report of success. */
    method CleanUp(ghost start: State)
      requires Since(start) && At() == Some(Cleaning)
      modifies `state, `deletions
      ensures Since(start) && At() == None && deletions == old(deletions) && state.succeeded
      ensures state.world.running == old(state.world.running) && state.world.listed.Keys <= old(state.world.listed).Keys
      ensures reliable ==> state.world.listed.Keys == old(state.world.listed.Keys * state.world.running)
    {
      var drop: set<string> := *;
      if reliable {
        drop := state.world.listed.Keys - state.world.running;
      } else if !policy.cleanDropsRunning {
        drop := drop - state.world.running;
      }
      MayClean(policy, state.world, drop);
      Do(Move(Cleared(state.world, drop), None, true), start);
    }

    /** Starts a copy only when no job of the share is in progress or finished, and
        otherwise waits for the job it finds; a finished one makes it succeed at once. */
    method CopyFileShareByAzcopy(f: bool, patience: nat, ghost start: State) returns (ok: bool)
      requires Since(start) && At() == Some(Copying(f))
      modifies `state, `deletions, `listings
      ensures Since(start) && At() == (if ok then None else Some(CopyFailed(f))) && deletions == old(deletions)
      ensures ok ==> state.succeeded
      ensures !policy.overlap && "" !in old(state.world.listed) && (exists id :: HasLive(old(state.world), id)) ==>
        state.world.running <= old(state.world.running)
      ensures !policy.readsFail && "" !in old(state.world.listed) && (exists id :: HasFinished(old(state.world), id)) ==> ok
      ensures reliable && Calm(policy) && patience > 0 ==> ok
    {
      var v := GetJob();
      if "" !in state.world.listed {
        ReadTells(policy, state.world, v);
        assert forall id :: HasFinished(state.world, id) ==> HasLive(state.world, id);
      }
      if Calm(policy) {
        NoError(policy, state, v);
      }
      match v {
        case Error =>
          Go(CopyFailed(f), start);
          ok := false;
        case Running =>
          Go(Polling(f), start);
          ghost var last;
          ok, last := Poll(f, patience, start);
        case NotFound =>
          Go(Starting(f), start);
          ok := StartCopy(f, start);
        case _ =>
          Finish(true, start);
          ok := true;
      }
    }

    /** Runs `azcopy copy` as a new job and waits for it, or gives up waiting. */
    method StartCopy(f: bool, ghost start: State) returns (ok: bool)
      requires Since(start) && At() == Some(Starting(f))
      modifies `state, `deletions
      ensures Since(start) && At() == (if ok then None else Some(CopyFailed(f))) && deletions == old(deletions)
      ensures ok ==> state.succeeded
      ensures reliable ==> ok
    {
      ghost var unused := UnusedId(state.world);
      var id :| Unused(state.world, id);
      Do(Move(Started(state.world, id), Some(Waiting(id, f)), false), start);
      Await(start);
      var exitedOk: bool := *;
      ok := (exitedOk || reliable) && id in state.world.done;
      if ok {
        Go(Cleaning, start);
        CleanUp(start);
      } else {
        Go(CopyFailed(f), start);
      }
    }

    /** Reads the list until it shows no running job, `patience` times again at most. */
    method Poll(f: bool, patience: nat, ghost start: State) returns (ok: bool, ghost last: JobState)
      requires Since(start) && At() == Some(Polling(f))
      modifies `state, `deletions, `listings
      ensures Since(start) && At() == (if ok then None else Some(CopyFailed(f))) && deletions == old(deletions)
      ensures ok ==> state.succeeded
      ensures !policy.overlap ==> state.world.running <= old(state.world.running)
      ensures reliable && Calm(policy) && patience > 0 ==> ok
      ensures ok <==> last != Running && last != Error
      ensures listings <= old(listings) + patience + 1 && (last == Running ==> listings == old(listings) + patience + 1)
    {
      var v := GetJob();
      var rounds := 0;
      while v == Running && rounds < patience
        invariant Since(start) && At() == Some(Polling(f)) && Reads(policy, state.world, v) && deletions == old(deletions)
        invariant !policy.overlap ==> state.world.running <= old(state.world.running)
        invariant reliable && rounds > 0 ==> state.world.running == {}
        invariant rounds <= patience && listings == old(listings) + rounds + 1
      {
        Await(start);
        v := GetJob();
        rounds := rounds + 1;
      }
      if Calm(policy) {
        NoError(policy, state, v);
        if state.world.running == {} {
          NoneRuns(policy, state, v);
        }
      }
      ok, last := v != Running && v != Error, v;
      if ok {
        assert AfterPoll(state.world, f, v) == Move(state.world, Some(Cleaning), false);
        Go(Cleaning, start);
        CleanUp(start);
      } else {
        Go(CopyFailed(f), start);
      }
    }

    /** Deletes the share only if its name was generated, and its job was then read
        neither as running nor as completed. */
    method CleanupShareOnFailure(ghost start: State)
      requires Since(start) && At() == Some(RollingBack)
      modifies `state, `deletions, `listings
      ensures Since(start) && At() == None
      ensures old(deletions) <= deletions <= old(deletions) + 1
      ensures deletions != old(deletions) ==> policy.generated && Condemned(policy, start, state)
      ensures reliable && policy.generated ==> !state.world.share || Excused(policy, old(state), state)
    {
      ghost var first := state;
      Here(Next(policy), first);
      if !policy.generated {
        Finish(false, start);
        return;
      }
      var v := GetJob();
      ghost var c := state;
      Here(Next(policy), c);
      if v == Running || v == Completed {
        assert AfterLook(state.world, v) == Move(state.world, None, false);
        Finish(false, c);
        Both(Next(policy), start, c, state);
        return;
      }
      assert AfterLook(state.world, v) == Move(state.world, Some(Deleting), false);
      Go(Deleting, c);
      var deleted: bool := *;
      Do(Move(if deleted || reliable then Deleted(state.world) else state.world, None, false), c);
      Both(Next(policy), start, c, state);
    }

    /** One attempt: create the share, copy, perhaps copy again with a SAS token, roll
        back when it failed. */
    method Attempt(patience: nat) returns (ok: bool)
      requires Since(START) && At() == None && MayBegin()
      modifies this
      ensures Since(old(state)) && At() == None && old(deletions) <= deletions <= old(deletions) + 1
      ensures deletions != old(deletions) ==> !ok && policy.generated && Condemned(policy, old(state), state)
      ensures !policy.overlap && !policy.cleanDropsRunning ==> OneCopy(state)
      ensures ok && Reliable(policy) ==> state.world.share && state.world.copied
      ensures old(tries) <= tries && Course(tries[|old(tries)|..], ok)
      ensures reliable && Calm(policy) && patience > 0 ==> ok
      ensures reliable && policy.generated && !ok ==> !state.world.share || Excused(policy, old(state), state)
    {
      ghost var start := state;
      Here(Next(policy), start);
      var created: bool := *;
      ok := false;
      if created || reliable {
        BeginAttempt(start);
        ok := CopyTwice(patience, start);
        if !ok {
          if At() != Some(RollingBack) {
            Go(RollingBack, start);
          }
          ghost var failed := state;
          CleanupShareOnFailure(start);
          if Excused(policy, failed, state) {
            ExcusedSince(policy, start, failed, state);
          }
        }
      }
      Promised(policy, state);
    }

    method BeginAttempt(ghost start: State)
      requires Since(start) && At() == None && MayBegin()
      modifies this`state
      ensures Since(start) && At() == Some(Preparing(false))
    {
      ghost var s := state;
      state := State(state.world.(share := true), state.attempts[me := Preparing(false)], false, state.provided);
      assert Begins(policy, s, me, state);
      Advance(policy, s, state);
      Then(Next(policy), start, s, state);
      Meanwhile(start);
    }

    /** One copy, and after a permission mismatch a second with a SAS token. */
    method CopyTwice(patience: nat, ghost start: State) returns (ok: bool)
      requires Since(start) && At() == Some(Preparing(false))
      modifies this
      ensures Since(start) && deletions == old(deletions)
      ensures old(tries) <= tries && Course(tries[|old(tries)|..], ok)
      ensures if ok then At() == None && state.succeeded else At() in {Some(RollingBack), Some(CopyFailed(false)), Some(CopyFailed(true))}
      ensures reliable && Calm(policy) && patience > 0 ==> ok
    {
      var t := CopyVolume(false, patience, start);
      assert tries[|old(tries)|..] == [t];
      if t == Mismatch {
        Go(Preparing(true), start);
        t := CopyVolume(true, patience, start);
        assert tries[|old(tries)|..] == [Mismatch, t];
      }
      ok := t == Copied;
    }

    /** Authorisation and copy; without authorisation the attempt rolls back. */
    method CopyVolume(f: bool, patience: nat, ghost start: State) returns (t: Try)
      requires Since(start) && At() == Some(Preparing(f))
      modifies this
      ensures Since(start) && deletions == old(deletions) && tries == old(tries) + [t]
      ensures
        match t
        case Copied => At() == None && state.succeeded
        case Unauthorised => At() == Some(RollingBack)
        case _ => At() == Some(CopyFailed(f))
      ensures reliable && Calm(policy) && patience > 0 ==> t == Copied
    {
      var authorised: bool, mismatch: bool := *, *;
      if !authorised && !reliable {
        Go(RollingBack, start);
        t := Unauthorised;
      } else {
        Go(Copying(f), start);
        var ok := CopyFileShareByAzcopy(f, patience, start);
        t := if ok then Copied else if mismatch then Mismatch else CopyError;
      }
      tries := tries + [t];
    }
  }

  /** The tries of one attempt: a second follows exactly a permission mismatch, and the
      last decides. */
  predicate Course(tries: seq<Try>, ok: bool) {
    && |tries| <= 2 && (|tries| == 2 <==> |tries| > 0 && tries[0] == Mismatch)
    && (ok <==> tries != [] && tries[|tries| - 1] == Copied)
  }

  lemma Promised(p: Policy, s: State)
    requires Reachable(p, s)
    ensures !p.overlap && !p.cleanDropsRunning ==> OneCopy(s)
    ensures Reliable(p) ==> SuccessIsCopied(s)
  {
    OneCopyExactly(p);
    SuccessIsCopiedExactly(p);
  }
}
