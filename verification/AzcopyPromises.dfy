/** Exactly when the promises about clone and restore attempts are kept, and the runs
    that break them. */
module AzcopyPromises {
  import opened AzcopyCopy
  import opened AzcopyJobs
  import opened Results
  import opened Runs

  // ---------- runs that break a promise ----------

  lemma Advance(p: Policy, s: State, s': State)
    requires Reachable(p, s) && Step(p, s, s')
    ensures Reachable(p, s')
  {
    Then(Next(p), START, s, s');
  }

  lemma Take(p: Policy, s: State, i: nat, m: Move) returns (s': State)
    requires Reachable(p, s) && i in s.attempts && Moves(p, s.world, s.attempts[i], m)
    ensures Reachable(p, s') && s' == After(s, i, m)
  {
    s' := After(s, i, m);
    assert AttemptStep(p, s, i, m, s');
    Advance(p, s, s');
  }

  lemma Begin(p: Policy, s: State, i: nat) returns (s': State)
    requires Reachable(p, s) && i !in s.attempts && (p.overlap || s.attempts == map[]) && (p.again || !s.provided)
    ensures Reachable(p, s') && s' == State(s.world.(share := true), s.attempts[i := Preparing(false)], false, s.provided)
  {
    s' := State(s.world.(share := true), s.attempts[i := Preparing(false)], false, s.provided);
    assert Begins(p, s, i, s');
    Advance(p, s, s');
  }

  lemma Turn(p: Policy, s: State, w: World) returns (s': State)
    requires Reachable(p, s) && WorldStep(p, s.world, w)
    ensures Reachable(p, s') && s' == State(w, s.attempts, false, s.provided && w.share)
  {
    s' := State(w, s.attempts, false, s.provided && w.share);
    Advance(p, s, s');
  }

  /** The attempt goes on without changing anything. */
  lemma Goes(p: Policy, s: State, i: nat, phase: Phase) returns (s': State)
    requires Reachable(p, s) && i in s.attempts && Moves(p, s.world, s.attempts[i], Move(s.world, Some(phase), false))
    ensures Reachable(p, s') && s' == State(s.world, s.attempts[i := phase], false, s.provided && s.world.share)
  {
    s' := Take(p, s, i, Move(s.world, Some(phase), false));
  }

  lemma Succeeds(p: Policy, s: State, i: nat) returns (s': State)
    requires Reachable(p, s) && i in s.attempts && Moves(p, s.world, s.attempts[i], Move(s.world, None, true))
    ensures Reachable(p, s') && s' == State(s.world, s.attempts - {i}, true, s.world.share)
  {
    s' := Take(p, s, i, Move(s.world, None, true));
  }

  /** A copy that is over is cleaned up after, dropping some records, and reported. */
  lemma Cleans(p: Policy, s: State, i: nat, drop: set<string>) returns (s': State)
    requires Reachable(p, s) && i in s.attempts && s.attempts[i] == Cleaning && Clears(p, s.world, drop)
    ensures Reachable(p, s') && s' == State(Cleared(s.world, drop), s.attempts - {i}, true, s.world.share)
  {
    s' := Take(p, s, i, Move(Cleared(s.world, drop), None, true));
  }

  /** A list of one record reads as that record. */
  lemma OneRecord(p: Policy, w: World, id: string, status: string)
    requires w.listed == map[id := status] && id != ""
    ensures Reads(p, w, if status == "InProgress" then Running else Finished(status))
  {
    var jobs := [Job(id, "", status, "", "")];
    assert Enumerates(w.listed, jobs) by {
      assert jobs[0] in jobs;
    }
    assert jobs[1..] == [];
    assert FirstFinished(jobs) == Finished(status);
    assert LastInProgress(jobs, "") == if status == "InProgress" then id else "";
  }

  lemma NoRecord(p: Policy, w: World)
    requires w.listed == map[]
    ensures Reads(p, w, NotFound)
  {
    var jobs: seq<Job> := [];
    assert Enumerates(w.listed, jobs);
  }

  lemma FindsNothing(p: Policy, s: State, i: nat) returns (s': State)
    requires Reachable(p, s) && i in s.attempts && s.attempts[i] == Preparing(false) && s.world.listed == map[]
    ensures Reachable(p, s') && s' == State(s.world, s.attempts[i := Starting(false)], false, s.provided && s.world.share)
  {
    s' := Goes(p, s, i, Copying(false));
    NoRecord(p, s.world);
    assert AfterRead(s.world, false, NotFound) == Move(s.world, Some(Starting(false)), false);
    s' := Goes(p, s', i, Starting(false));
  }

  lemma Starts(p: Policy, s: State, i: nat, id: string) returns (s': State)
    requires Reachable(p, s) && i in s.attempts && s.attempts[i] == Starting(false) && Unused(s.world, id)
    ensures Reachable(p, s') && s' == State(Started(s.world, id), s.attempts[i := Waiting(id, false)], false, s.provided && s.world.share)
  {
    s' := Take(p, s, i, Move(Started(s.world, id), Some(Waiting(id, false)), false));
  }

  /** A rollback that reads v goes on to delete the share. */
  lemma Condemns(p: Policy, s: State, i: nat, v: JobState) returns (s': State)
    requires Reachable(p, s) && i in s.attempts && s.attempts[i] == RollingBack && p.generated
    requires Reads(p, s.world, v) && v != Running && v != Completed
    ensures Reachable(p, s') && s' == State(s.world, s.attempts[i := Deleting], false, s.provided && s.world.share) && SomeDeleting(s')
  {
    assert AfterLook(s.world, v) == Move(s.world, Some(Deleting), false);
    s' := Goes(p, s, i, Deleting);
    assert i in s'.attempts;
  }

  lemma Deletes(p: Policy, s: State, i: nat) returns (s': State)
    requires Reachable(p, s) && i in s.attempts && s.attempts[i] == Deleting
    ensures Reachable(p, s') && s' == State(Deleted(s.world), s.attempts - {i}, false, false)
  {
    s' := Take(p, s, i, Move(Deleted(s.world), None, false));
  }

  lemma JobEnds(p: Policy, s: State, id: string, status: string) returns (s': State)
    requires Reachable(p, s) && Ends(p, s.world, id, status)
    ensures Reachable(p, s') && s' == State(Ended(s.world, id, status), s.attempts, false, s.provided && s.world.share)
  {
    s' := Turn(p, s, Ended(s.world, id, status));
  }

  lemma ListEmptied(p: Policy, s: State) returns (s': State)
    requires Reachable(p, s) && Drops(p, s.world, s.world.listed.Keys)
    ensures Reachable(p, s') && s' == State(s.world.(listed := map[]), s.attempts, false, s.provided && s.world.share)
  {
    assert s.world.listed - s.world.listed.Keys == map[];
    s' := Turn(p, s, s.world.(listed := map[]));
  }

  lemma ForeignShows(p: Policy, s: State, id: string, status: string) returns (s': State)
    requires Reachable(p, s) && Foreign(p, s.world, id)
    ensures Reachable(p, s') && s' == State(Shown(s.world, id, status), s.attempts, false, s.provided && s.world.share)
  {
    s' := Turn(p, s, Shown(s.world, id, status));
  }

  /** A list on which a foreign record stands before the job's own reads as the foreign
      one, if that is finished. */
  lemma ForeignFirst(p: Policy, w: World, id: string, status: string, own: string)
    requires id != "" && id != "j" && w.listed == map["j" := own, id := status] && Finished(status) != NotFound
    ensures Reads(p, w, Finished(status))
  {
    var jobs := [Job(id, "", status, "", ""), Job("j", "", own, "", "")];
    assert jobs[0] in jobs && jobs[1] in jobs;
    assert Enumerates(w.listed, jobs);
  }

  const COPYING := World(true, false, map["j" := "InProgress"], {"j"}, {"j"}, {})

  function CopyEnded(status: string): World {
    World(true, Finished(status) != NotFound, map["j" := status], {}, {}, if Finished(status) != NotFound then {"j"} else {})
  }

  lemma EndsCopying(p: Policy, status: string)
    requires status == "Completed" || (p.jobsFail && status != "InProgress")
    ensures Ends(p, COPYING, "j", status) && Ended(COPYING, "j", status) == CopyEnded(status)
  {
    assert COPYING.running - {"j"} == {};
  }

  /** An attempt starts a job. */
  lemma RunsJob(p: Policy) returns (s: State)
    ensures Reachable(p, s) && s == State(COPYING, map[0 := Waiting("j", false)], false, false)
  {
    Here(Next(p), START);
    s := Begin(p, START, 0);
    s := FindsNothing(p, s, 0);
    s := Starts(p, s, 0, "j");
  }

  /** It times out and comes to roll back. */
  lemma LeavesJob(p: Policy) returns (s: State)
    ensures Reachable(p, s) && s == State(COPYING, map[0 := RollingBack], false, false)
  {
    s := RunsJob(p);
    s := Goes(p, s, 0, CopyFailed(false));
    s := Goes(p, s, 0, RollingBack);
  }

  /** The rollback leaves the share of a running job alone. */
  lemma LeavesShare(p: Policy) returns (s: State)
    ensures Reachable(p, s) && s == State(COPYING, map[], false, false)
  {
    s := LeavesJob(p);
    OneRecord(p, COPYING, "j", "InProgress");
    assert AfterLook(COPYING, Running) == Move(COPYING, None, false);
    var left := s.attempts - {0};
    s := Take(p, s, 0, Move(COPYING, None, false));
    assert left == map[];
  }

  /** The next attempt joins the job. */
  lemma Joins(p: Policy) returns (s: State)
    ensures Reachable(p, s) && s == State(COPYING, map[0 := Polling(false)], false, false)
  {
    s := LeavesShare(p);
    s := Begin(p, s, 0);
    assert s == State(COPYING, map[0 := Preparing(false)], false, false);
    s := Goes(p, s, 0, Copying(false));
    OneRecord(p, COPYING, "j", "InProgress");
    s := FindsRunning(p, s);
  }

  lemma FindsRunning(p: Policy, s: State) returns (s': State)
    requires Reachable(p, s) && s.attempts == map[0 := Copying(false)] && Reads(p, s.world, Running)
    ensures Reachable(p, s') && s' == State(s.world, map[0 := Polling(false)], false, s.provided && s.world.share)
  {
    assert AfterRead(s.world, false, Running) == Move(s.world, Some(Polling(false)), false);
    s' := Goes(p, s, 0, Polling(false));
  }

  /** Dropping the record of a running job lets a second one start. */
  lemma DroppedRecordStartsTwo(p: Policy) returns (s: State)
    requires p.cleanDropsRunning
    ensures Reachable(p, s) && !OneCopy(s)
  {
    s := LeavesShare(p);
    s := ListEmptied(p, s);
    s := Begin(p, s, 0);
    s := FindsNothing(p, s, 0);
    s := Starts(p, s, 0, "k");
    assert "j" in s.world.running && "k" in s.world.running;
  }

  /** Two attempts both find no job, and both start one. */
  lemma OverlapStartsTwo(p: Policy) returns (s: State)
    requires p.overlap
    ensures Reachable(p, s) && !OneCopy(s)
  {
    Here(Next(p), START);
    s := Begin(p, START, 0);
    s := Begin(p, s, 1);
    s := FindsNothing(p, s, 0);
    s := FindsNothing(p, s, 1);
    s := Starts(p, s, 0, "j");
    s := Starts(p, s, 1, "k");
    assert "j" in s.world.running && "k" in s.world.running;
  }

  /** One attempt has decided to delete the share when another starts its job. */
  lemma DeletesUnderOther(p: Policy) returns (s: State)
    requires p.generated && p.overlap
    ensures Reachable(p, s) && s == State(COPYING, map[0 := Deleting, 1 := Waiting("j", false)], false, false)
  {
    Here(Next(p), START);
    s := Begin(p, START, 0);
    s := Begin(p, s, 1);
    s := Goes(p, s, 0, RollingBack);
    NoRecord(p, s.world);
    s := Condemns(p, s, 0, NotFound);
    s := FindsNothing(p, s, 1);
    s := Starts(p, s, 1, "j");
  }

  /** A read that fails or shows another share's job, a record that was dropped, or
      another attempt's job lets the rollback delete the share under a running job. */
  lemma RollbackUnderCopy(p: Policy) returns (s: State)
    requires p.generated && (p.readsFail || p.foreign || p.cleanDropsRunning || p.overlap)
    ensures Reachable(p, s) && !CleanRollback(p, s)
  {
    if p.overlap {
      s := DeletesUnderOther(p);
      assert 0 in s.attempts;
    } else {
      s := LeavesJob(p);
      if p.cleanDropsRunning {
        s := ListEmptied(p, s);
        NoRecord(p, s.world);
        s := Condemns(p, s, 0, NotFound);
      } else if p.foreign {
        s := ForeignCondemns(p, s, "InProgress");
      } else {
        s := Condemns(p, s, 0, Error);
      }
    }
    assert "j" in s.world.running;
  }

  /** A foreign job that ended with errors is read in place of the share's own. */
  lemma ForeignCondemns(p: Policy, s: State, own: string) returns (s': State)
    requires p.generated && p.foreign && Reachable(p, s) && s.attempts == map[0 := RollingBack]
    requires s.world.listed == map["j" := own] && "k" !in s.world.running && "k" !in s.world.done
    ensures Reachable(p, s') && SomeDeleting(s') && s'.world == s.world.(listed := map["j" := own, "k" := "CompletedWithErrors"])
  {
    s' := ForeignShows(p, s, "k", "CompletedWithErrors");
    assert s'.world.listed == map["j" := own, "k" := "CompletedWithErrors"];
    ForeignFirst(p, s'.world, "k", "CompletedWithErrors", own);
    s' := Condemns(p, s', 0, CompletedWithErrors);
  }

  /** An attempt succeeds and cleans the list; CreateVolume is called again, as when its
      answer was lost, comes to roll back and finds no record. */
  lemma RepeatDeletes(p: Policy) returns (s: State)
    requires p.generated && p.again
    ensures Reachable(p, s) && !KeepsCopied(s)
  {
    s := RunsJob(p);
    EndsCopying(p, "Completed");
    s := JobEnds(p, s, "j", "Completed");
    s := Goes(p, s, 0, Cleaning);
    s := Cleans(p, s, 0, {"j"});
    assert s.attempts == map[] && s.world.listed == map[];
    s := Begin(p, s, 0);
    s := Goes(p, s, 0, RollingBack);
    NoRecord(p, s.world);
    s := Condemns(p, s, 0, NotFound);
  }

  /** The job completes between the timeout and the rollback, whose reading does not
      show it: the read fails, or the record was dropped, or names another ending, or
      another share's job is read in its place. Or CreateVolume is called again. */
  lemma DeletesCopied(p: Policy) returns (s: State)
    requires p.generated && !Careful(p)
    ensures Reachable(p, s) && !KeepsCopied(s)
  {
    if p.overlap {
      EndsCopying(p, "Completed");
      s := DeletesUnderOther(p);
      s := JobEnds(p, s, "j", "Completed");
      assert 0 in s.attempts;
    } else if p.again {
      s := RepeatDeletes(p);
    } else if p.cleanDropsRunning {
      s := LeavesJob(p);
      s := ListEmptied(p, s);
      s := JobEnds(p, s, "j", "Completed");
      NoRecord(p, s.world);
      s := Condemns(p, s, 0, NotFound);
    } else if p.jobsFail {
      s := LeavesEnded(p, "CompletedWithErrors");
      OneRecord(p, s.world, "j", "CompletedWithErrors");
      s := Condemns(p, s, 0, CompletedWithErrors);
    } else {
      s := LeavesEnded(p, "Completed");
      if p.readsFail {
        s := Condemns(p, s, 0, Error);
      } else if p.foreign {
        s := ForeignCondemns(p, s, "Completed");
      } else {
        s := ListEmptied(p, s);
        NoRecord(p, s.world);
        s := Condemns(p, s, 0, NotFound);
      }
    }
  }

  lemma LeavesEnded(p: Policy, status: string) returns (s: State)
    requires status == "Completed" || (p.jobsFail && status != "InProgress")
    ensures Reachable(p, s) && s == State(CopyEnded(status), map[0 := RollingBack], false, false)
  {
    EndsCopying(p, status);
    s := LeavesJob(p);
    s := JobEnds(p, s, "j", status);
  }

  /** An attempt that polls a job whose record is gone, or shows a failed end, takes it
      for copied. */
  lemma PollsToSuccess(p: Policy, s: State) returns (s': State)
    requires Reachable(p, s) && s.attempts == map[0 := Polling(false)] && !s.world.copied && Reads(p, s.world, NotFound)
    ensures Reachable(p, s') && !SuccessIsCopied(s')
  {
    assert AfterPoll(s.world, false, NotFound) == Move(s.world, Some(Cleaning), false);
    s' := Goes(p, s, 0, Cleaning);
    s' := Cleans(p, s', 0, {});
  }

  /** A joined job whose record is dropped counts as a finished copy. */
  lemma JoinedJobDropped(p: Policy) returns (s: State)
    requires p.cleanDropsRunning
    ensures Reachable(p, s) && !SuccessIsCopied(s)
  {
    s := Joins(p);
    s := ListEmptied(p, s);
    NoRecord(p, s.world);
    s := PollsToSuccess(p, s);
  }

  lemma JoinsCancelled(p: Policy) returns (s: State)
    requires p.jobsFail
    ensures Reachable(p, s) && s == State(CopyEnded("Cancelled"), map[0 := Polling(false)], false, false)
  {
    s := Joins(p);
    EndsCopying(p, "Cancelled");
    s := JobEnds(p, s, "j", "Cancelled");
  }

  /** A joined job that ends unfinished counts as a finished copy. */
  lemma JoinedJobVanishes(p: Policy) returns (s: State)
    requires p.jobsFail
    ensures Reachable(p, s) && !SuccessIsCopied(s)
  {
    s := JoinsCancelled(p);
    OneRecord(p, s.world, "j", "Cancelled");
    s := PollsToSuccess(p, s);
  }

  /** After a share with a finished record is gone, the next attempt makes a new empty
      one, reads the old record and succeeds. */
  lemma OldRecordPasses(p: Policy, s: State) returns (s': State)
    requires Reachable(p, s) && s.attempts == map[] && !s.provided
    requires !s.world.copied && s.world.listed == map["j" := "Completed"]
    ensures Reachable(p, s') && s'.succeeded && s'.world.share && !s'.world.copied
  {
    s' := Begin(p, s, 0);
    s' := Goes(p, s', 0, Copying(false));
    OneRecord(p, s'.world, "j", "Completed");
    assert AfterRead(s'.world, false, Completed) == Move(s'.world, None, true);
    s' := Succeeds(p, s', 0);
  }

  /** Another share's finished job makes the attempt succeed on an empty share. */
  lemma ForeignPasses(p: Policy) returns (s: State)
    requires p.foreign
    ensures Reachable(p, s) && !SuccessIsCopied(s)
  {
    Here(Next(p), START);
    s := ForeignShows(p, START, "j", "Completed");
    s := OldRecordPasses(p, s);
  }

  /** A share whose job completed after the attempt gave up is deleted by DeleteVolume. */
  lemma DeletedByVolume(p: Policy) returns (s: State)
    requires p.deletes
    ensures Reachable(p, s) && !SuccessIsCopied(s)
  {
    s := LeavesShare(p);
    EndsCopying(p, "Completed");
    s := JobEnds(p, s, "j", "Completed");
    s := Turn(p, s, Deleted(s.world));
    s := OldRecordPasses(p, s);
  }

  /** A rollback that could not read the job list deletes the share of a finished job. */
  lemma DeletedByRollback(p: Policy) returns (s: State)
    requires p.generated && p.readsFail
    ensures Reachable(p, s) && !SuccessIsCopied(s)
  {
    s := LeavesEnded(p, "Completed");
    s := Condemns(p, s, 0, Error);
    s := Deletes(p, s, 0);
    assert s.attempts == map[];
    s := OldRecordPasses(p, s);
  }

  /** A rollback deletes the share between another attempt's copy and its success. */
  lemma DeletedByOther(p: Policy) returns (s: State)
    requires p.generated && p.overlap
    ensures Reachable(p, s) && !SuccessIsCopied(s)
  {
    s := DeletesUnderOther(p);
    EndsCopying(p, "Completed");
    s := JobEnds(p, s, "j", "Completed");
    s := Deletes(p, s, 0);
    s := Goes(p, s, 1, Cleaning);
    s := Cleans(p, s, 1, {});
  }

  // ---------- exactly when each promise is kept ----------

  /** At most one job copies at a time: exactly when attempts do not overlap and
      cleaning keeps the records of running jobs. */
  lemma OneCopyExactly(p: Policy)
    ensures (forall s :: Reachable(p, s) ==> OneCopy(s)) <==> !p.overlap && !p.cleanDropsRunning
  {
    if p.overlap {
      var s := OverlapStartsTwo(p);
    } else if p.cleanDropsRunning {
      var s := DroppedRecordStartsTwo(p);
    } else {
      forall s | Reachable(p, s) ensures OneCopy(s) {
        SerialAlways(p, s);
      }
    }
  }

  lemma NeverDeletes(p: Policy, s: State)
    requires !p.generated && Reachable(p, s)
    ensures !SomeDeleting(s)
  {
    var inv := (x: State) => !SomeDeleting(x);
    forall x, y | inv(x) && Next(p)(x, y) ensures inv(y) {
      forall i | i in y.attempts ensures !y.attempts[i].Deleting? {
        assert i in x.attempts ==> !x.attempts[i].Deleting?;
      }
    }
    Kept(Next(p), inv, START, s);
  }

  /** No rollback deletes a share under a running copy: exactly when the share's name
      was given by the user, or attempts do not overlap, job reads succeed and show no
      other share's jobs, and cleaning keeps the records of running jobs. */
  lemma CleanRollbackExactly(p: Policy)
    ensures (forall s :: Reachable(p, s) ==> CleanRollback(p, s))
            <==> !p.generated || (!p.overlap && !p.readsFail && !p.foreign && !p.cleanDropsRunning)
  {
    if !p.generated {
      forall s | Reachable(p, s) ensures CleanRollback(p, s) {
        NeverDeletes(p, s);
      }
    } else if p.overlap || p.readsFail || p.foreign || p.cleanDropsRunning {
      var s := RollbackUnderCopy(p);
    } else {
      forall s | Reachable(p, s) ensures CleanRollback(p, s) {
        SerialAlways(p, s);
      }
    }
  }

  /** No rollback deletes a successfully copied share: exactly when the share's name was
      given by the user, or attempts do not overlap and none follows a success, job reads
      succeed and show no other share's jobs, cleaning keeps the records of running jobs
      and, after other shares' successes, of finished ones, and jobs end in "Completed".
      The cleaning after its own success does no harm by itself. */
  lemma KeepsCopiedExactly(p: Policy)
    ensures (forall s :: Reachable(p, s) ==> KeepsCopied(s)) <==> !p.generated || Careful(p)
  {
    if !p.generated {
      forall s | Reachable(p, s) ensures KeepsCopied(s) {
        NeverDeletes(p, s);
      }
    } else if !Careful(p) {
      var s := DeletesCopied(p);
    } else {
      forall s | Reachable(p, s) ensures KeepsCopied(s) {
        CarefulKeeps(p, s);
      }
    }
  }

  /** A reported success means a copied share: exactly when every job ends in
      "Completed", cleaning keeps the records of running jobs, the list shows no other
      share's jobs, DeleteVolume does not delete the share, and, if its name was
      generated, job reads succeed and attempts do not overlap. */
  lemma SuccessIsCopiedExactly(p: Policy)
    ensures (forall s :: Reachable(p, s) ==> SuccessIsCopied(s)) <==> Reliable(p)
  {
    if p.jobsFail {
      var s := JoinedJobVanishes(p);
    } else if p.cleanDropsRunning {
      var s := JoinedJobDropped(p);
    } else if p.foreign {
      var s := ForeignPasses(p);
    } else if p.deletes {
      var s := DeletedByVolume(p);
    } else if p.generated && p.readsFail {
      var s := DeletedByRollback(p);
    } else if p.generated && p.overlap {
      var s := DeletedByOther(p);
    } else {
      forall s | Reachable(p, s) ensures SuccessIsCopied(s) {
        SuccessAlways(p, s);
      }
    }
  }
}
