/** Clone and restore attempts on one destination share. Attempts of one volume
    follow each other under the volume lock, but volumes that name the same share,
    and retries that lost the lock, overlap. The azcopy jobs they start outlive them,
    the job list is cleaned by successes on other shares, and shares are deleted. */
module AzcopyCopy {
  import opened AzcopyJobs
  import opened Results
  import opened Runs

  /** Where an attempt on the share stands; `fallback` is the second copy with a
      SAS token after a permission mismatch. */
  datatype Phase =
    | Preparing(fallback: bool)
    | Copying(fallback: bool)                 // about to read the job list
    | Starting(fallback: bool)                // it showed no job
    | Polling(fallback: bool)                 // it showed a running one
    | Waiting(job: string, fallback: bool)
    | Cleaning                                // copied, before `azcopy jobs clean`
    | CopyFailed(fallback: bool)
    | RollingBack
    | Deleting

  /** The share and the jobs that copy into it. */
  datatype World = World(
    share: bool,                    // the destination share exists
    copied: bool,                   // a job has finished into the share that exists now
    listed: map<string, string>,    // job id -> status, as azcopy lists the share's jobs
    running: set<string>,           // jobs that are really copying
    into: set<string>,              // those of them that copy into the share that exists now
    done: set<string>)              // jobs that have finished

  /** The attempts under way, whether the last step reported a success, and whether one
      has been reported for the share that exists now. */
  datatype State = State(world: World, attempts: map<nat, Phase>, succeeded: bool, provided: bool)

  /** Whether the share's name was generated by the driver, and what may happen:
      attempts that overlap, an attempt on a share that one has succeeded on, a deletion
      of the share by DeleteVolume, a job-list read that fails or that shows jobs of other
      shares too (it looks for the share's name anywhere in a job's command, so also in
      longer names and in sources), cleaning that drops the record of a running job,
      cleaning by successes on other shares that drops the record of a finished one, a
      job that ends in anything but "Completed". An attempt's own cleaning always may
      drop finished records. */
  datatype Policy = Policy(
    generated: bool, overlap: bool, again: bool, deletes: bool, readsFail: bool, foreign: bool,
    cleanDropsRunning: bool, cleanDropsFinished: bool, jobsFail: bool)

  /** The records are listed in some order. */
  ghost predicate Enumerates(listed: map<string, string>, jobs: seq<Job>) {
    && (forall j :: j in jobs ==> j.id in listed && listed[j.id] == j.status)
    && (forall id :: id in listed ==> exists j :: j in jobs && j.id == id)
  }

  ghost predicate Reads(p: Policy, w: World, v: JobState) {
    || (exists jobs :: Enumerates(w.listed, jobs) && v == Verdict(jobs))
    || (p.readsFail && v == Error)
  }

  /** One step of an attempt: the world after it, and the attempt, None once it is over. */
  datatype Move = Move(world: World, next: Option<Phase>, success: bool)

  predicate IsFinished(v: JobState) {
    v != Error && v != Running && v != NotFound
  }

  function Started(w: World, id: string): World {
    w.(listed := w.listed[id := "InProgress"], running := w.running + {id}, into := if w.share then w.into + {id} else w.into)
  }

  predicate Unused(w: World, id: string) {
    id != "" && id !in w.listed && id !in w.running && id !in w.done
  }

  function Deleted(w: World): World {
    w.(share := false, copied := false, into := {})
  }

  /** copyFileShareByAzcopy after its first look at the job. */
  function AfterRead(w: World, f: bool, v: JobState): Move {
    match v
    case Error => Move(w, Some(CopyFailed(f)), false)
    case Running => Move(w, Some(Polling(f)), false)
    case NotFound => Move(w, Some(Starting(f)), false)
    case _ => Move(w, None, true)
  }

  function AfterPoll(w: World, f: bool, v: JobState): Move {
    match v
    case Error => Move(w, Some(CopyFailed(f)), false)
    case Running => Move(w, Some(Polling(f)), false)
    case _ => Move(w, Some(Cleaning), false)      // no longer running: taken as copied
  }

  function AfterLook(w: World, v: JobState): Move {
    Move(w, if v == Running || v == Completed then None else Some(Deleting), false)
  }

  /** Cleaning may keep the records of running jobs. */
  ghost predicate Clears(p: Policy, w: World, drop: set<string>) {
    p.cleanDropsRunning || drop !! w.running
  }

  function Cleared(w: World, drop: set<string>): World {
    w.(listed := w.listed - drop)
  }

  ghost predicate Moves(p: Policy, w: World, phase: Phase, m: Move) {
    match phase
    case Preparing(f) => m == Move(w, Some(Copying(f)), false) || m == Move(w, Some(RollingBack), false)
    case Copying(f) => exists v :: Reads(p, w, v) && m == AfterRead(w, f, v)
    case Starting(f) =>
      || m == Move(w, Some(CopyFailed(f)), false)
      || exists id :: Unused(w, id) && m == Move(Started(w, id), Some(Waiting(id, f)), false)
    case Polling(f) =>
      || m == Move(w, Some(CopyFailed(f)), false)   // timeout
      || exists v :: Reads(p, w, v) && m == AfterPoll(w, f, v)
    case Waiting(job, f) =>
      || m == Move(w, Some(CopyFailed(f)), false)   // timeout, or azcopy reported an error
      || (job in w.done && m == Move(w, Some(Cleaning), false))
    case Cleaning => exists drop :: Clears(p, w, drop) && m == Move(Cleared(w, drop), None, true)
    case CopyFailed(f) => (!f && m == Move(w, Some(Preparing(true)), false)) || m == Move(w, Some(RollingBack), false)
    case RollingBack =>
      if !p.generated then m == Move(w, None, false) else exists v :: Reads(p, w, v) && m == AfterLook(w, v)
    case Deleting => m == Move(Deleted(w), None, false) || m == Move(w, None, false)
  }

  function After(s: State, i: nat, m: Move): State {
    State(m.world, if m.next.Some? then s.attempts[i := m.next.value] else s.attempts - {i}, m.success,
          (s.provided || m.success) && m.world.share)
  }

  ghost predicate AttemptStep(p: Policy, s: State, i: nat, m: Move, s': State) {
    i in s.attempts && Moves(p, s.world, s.attempts[i], m) && s' == After(s, i, m)
  }

  /** CreateVolume creates the share, or finds it. */
  ghost predicate Begins(p: Policy, s: State, i: nat, s': State) {
    && (p.overlap || s.attempts == map[]) && (p.again || !s.provided) && i !in s.attempts
    && s' == State(s.world.(share := true), s.attempts[i := Preparing(false)], false, s.provided)
  }

  function Ended(w: World, id: string, status: string): World {
    w.(copied := w.copied || (id in w.into && Finished(status) != NotFound),
       listed := if id in w.listed then w.listed[id := status] else w.listed,
       running := w.running - {id},
       into := w.into - {id},
       done := if Finished(status) != NotFound then w.done + {id} else w.done)
  }

  /** A job ends; one whose share is gone may end in any way. */
  ghost predicate Ends(p: Policy, w: World, id: string, status: string) {
    id in w.running && status != "InProgress" && (status == "Completed" || p.jobsFail || id !in w.into)
  }

  /** Cleaning after another share's success drops some records. */
  ghost predicate Drops(p: Policy, w: World, drop: set<string>) {
    && Clears(p, w, drop)
    && (p.cleanDropsFinished || forall id :: id in drop && id in w.listed ==> Finished(w.listed[id]) == NotFound)
  }

  /** A record of a job that does not copy into the share comes or changes. */
  ghost predicate Foreign(p: Policy, w: World, id: string) {
    p.foreign && id != "" && id !in w.running && id !in w.done
  }

  function Shown(w: World, id: string, status: string): World {
    w.(listed := w.listed[id := status])
  }

  ghost predicate WorldStep(p: Policy, w: World, w': World) {
    || (exists id, status :: Ends(p, w, id, status) && w' == Ended(w, id, status))
    || (exists drop :: Drops(p, w, drop) && w' == Cleared(w, drop))
    || (exists id, status :: Foreign(p, w, id) && w' == Shown(w, id, status))
    || (p.deletes && w' == Deleted(w))
  }

  ghost predicate Step(p: Policy, s: State, s': State) {
    || (exists i, m :: AttemptStep(p, s, i, m, s'))
    || (exists i :: Begins(p, s, i, s'))
    || (WorldStep(p, s.world, s'.world) && s' == State(s'.world, s.attempts, false, s.provided && s'.world.share))
  }

  ghost function Next(p: Policy): (State, State) -> bool {
    (s, s') => Step(p, s, s')
  }

  const START := State(World(false, false, map[], {}, {}, {}), map[], false, false)

  ghost predicate Reachable(p: Policy, s: State) {
    Reaches(Next(p), START, s)
  }

  // ---------- four promises ----------

  /** At most one job copies. */
  ghost predicate OneCopy(s: State) {
    forall a, b :: a in s.world.running && b in s.world.running ==> a == b
  }

  ghost predicate SomeDeleting(s: State) {
    exists i :: i in s.attempts && s.attempts[i].Deleting?
  }

  /** The rollback deletes a share only if its name was generated, and never under a copy. */
  ghost predicate CleanRollback(p: Policy, s: State) {
    SomeDeleting(s) ==> p.generated && s.world.running == {}
  }

  /** The rollback does not delete a share that a job has finished into. */
  ghost predicate KeepsCopied(s: State) {
    SomeDeleting(s) ==> !s.world.copied
  }

  /** A success is reported only for a share that a job has finished into. */
  ghost predicate SuccessIsCopied(s: State) {
    s.succeeded ==> s.world.share && s.world.copied
  }

  // ---------- what a reading tells ----------

  predicate Live(status: string) {
    status == "InProgress" || Finished(status) != NotFound
  }

  ghost predicate HasLive(w: World, id: string) {
    id in w.listed && Live(w.listed[id])
  }

  ghost predicate HasFinished(w: World, id: string) {
    id in w.listed && Finished(w.listed[id]) != NotFound
  }

  ghost predicate InState(w: World, id: string, v: JobState) {
    id in w.listed && Finished(w.listed[id]) == v
  }

  lemma ReadTells(p: Policy, w: World, v: JobState)
    requires Reads(p, w, v) && "" !in w.listed
    ensures v == NotFound ==> forall id :: !HasLive(w, id)
    ensures v == NotFound || v == Running ==> forall id :: !HasFinished(w, id)
    ensures v == Running ==> exists id :: id in w.listed && w.listed[id] == "InProgress"
    ensures IsFinished(v) ==> exists id :: InState(w, id, v)
    ensures !p.readsFail ==> v != Error
  {
    if !p.readsFail || v != Error {
      var jobs: seq<Job> :| Enumerates(w.listed, jobs) && v == Verdict(jobs);
      VerdictTells(jobs);
      if v == NotFound || v == Running {
        forall id | id in w.listed ensures !HasFinished(w, id) && (v == NotFound ==> !HasLive(w, id)) {
          var j: Job :| j in jobs && j.id == id;
        }
      }
      if v == Running {
        var j: Job :| j in jobs && j.status == "InProgress";
        assert w.listed[j.id] == "InProgress";
      } else if IsFinished(v) {
        var j: Job :| j in jobs && Finished(j.status) == v;
        assert InState(w, j.id, v);
      }
    }
  }

  // ---------- attempts that follow each other ----------

  /** One job runs and is listed as in progress. Without foreign records it is the only
      one in progress, and at most one record is in progress or finished. */
  ghost predicate ListOk(p: Policy, w: World) {
    && "" !in w.listed
    && (forall id :: id in w.running ==> id in w.listed && w.listed[id] == "InProgress")
    && (forall a, b :: a in w.running && b in w.running ==> a == b)
    && (!p.foreign ==>
          && (forall id :: id in w.listed && w.listed[id] == "InProgress" ==> id in w.running)
          && (forall a, b :: HasLive(w, a) && HasLive(w, b) ==> a == b))
  }

  ghost predicate Serial(s: State) {
    forall i, j :: i in s.attempts && j in s.attempts ==> i == j
  }

  /** What an attempt that is alone knows. */
  ghost predicate Knows(p: Policy, w: World, phase: Phase) {
    && (phase.Starting? ==> w.running == {} && (!p.foreign ==> forall id :: !HasLive(w, id)))
    && (phase.Deleting? ==> p.generated && (!p.readsFail && !p.foreign ==> w.running == {}))
  }

  ghost predicate SerialInv(p: Policy, s: State) {
    ListOk(p, s.world) && Serial(s) && forall i :: i in s.attempts ==> Knows(p, s.world, s.attempts[i])
  }

  lemma NothingRuns(p: Policy, w: World, v: JobState)
    requires ListOk(p, w) && Reads(p, w, v) && v == NotFound
    ensures w.running == {} && forall id :: !HasLive(w, id)
  {
    ReadTells(p, w, v);
    forall id ensures id !in w.running {
      assert id in w.running ==> HasLive(w, id);
    }
  }

  lemma StartKeepsList(p: Policy, w: World, id: string)
    requires ListOk(p, w) && Knows(p, w, Starting(false)) && Unused(w, id)
    ensures ListOk(p, Started(w, id))
  {
    assert forall x :: HasLive(Started(w, id), x) ==> x == id || HasLive(w, x);
  }

  lemma LookKnows(p: Policy, w: World, m: Move)
    requires ListOk(p, w) && Moves(p, w, RollingBack, m)
    ensures m.world == w && (m.next.Some? ==> Knows(p, w, m.next.value))
  {
    if p.generated && !p.readsFail && !p.foreign {
      var v :| Reads(p, w, v) && m == AfterLook(w, v);
      if v != Running && v != Completed {
        LookTells(p, w, v);
      }
    }
  }

  lemma MoveKeepsList(p: Policy, w: World, phase: Phase, m: Move)
    requires !p.cleanDropsRunning && ListOk(p, w) && Knows(p, w, phase) && Moves(p, w, phase, m)
    ensures ListOk(p, m.world) && (m.next.Some? ==> Knows(p, m.world, m.next.value))
  {
    match phase
    case Copying(f) =>
      var v :| Reads(p, w, v) && m == AfterRead(w, f, v);
      if v == NotFound {
        NothingRuns(p, w, v);
      }
    case RollingBack => LookKnows(p, w, m);
    case Starting(f) =>
      if m.world != w {
        var id :| Unused(w, id) && m == Move(Started(w, id), Some(Waiting(id, f)), false);
        StartKeepsList(p, w, id);
      }
    case _ => assert forall x :: HasLive(m.world, x) ==> HasLive(w, x);
  }

  lemma LookTells(p: Policy, w: World, v: JobState)
    requires ListOk(p, w) && Reads(p, w, v) && v != Running && v != Completed && !p.readsFail && !p.foreign
    ensures w.running == {} && forall id :: id in w.listed ==> w.listed[id] != "Completed"
  {
    ReadTells(p, w, v);
    forall id | HasLive(w, id) ensures InState(w, id, v) {
      if v != NotFound {
        var x :| InState(w, x, v);
        assert HasLive(w, x);
      }
    }
    forall id ensures id !in w.running {
      assert id in w.running ==> HasLive(w, id);
    }
    forall id | id in w.listed ensures w.listed[id] != "Completed" {
      assert w.listed[id] == "Completed" ==> HasLive(w, id);
    }
  }

  ghost predicate AllKnow(p: Policy, w: World, w': World) {
    forall phase :: Knows(p, w, phase) ==> Knows(p, w', phase)
  }

  lemma EndKeepsList(p: Policy, w: World, id: string, status: string)
    requires ListOk(p, w) && Ends(p, w, id, status)
    ensures ListOk(p, Ended(w, id, status)) && AllKnow(p, w, Ended(w, id, status))
  {
    assert forall x :: HasLive(Ended(w, id, status), x) ==> HasLive(w, x);
  }

  lemma ShowKeepsList(p: Policy, w: World, id: string, status: string)
    requires ListOk(p, w) && Foreign(p, w, id)
    ensures ListOk(p, Shown(w, id, status)) && AllKnow(p, w, Shown(w, id, status))
  {
  }

  lemma WorldKeepsList(p: Policy, w: World, w': World)
    requires !p.cleanDropsRunning && ListOk(p, w) && WorldStep(p, w, w')
    ensures ListOk(p, w') && AllKnow(p, w, w')
  {
    if id, status :| Ends(p, w, id, status) && w' == Ended(w, id, status) {
      EndKeepsList(p, w, id, status);
    } else if id, status :| Foreign(p, w, id) && w' == Shown(w, id, status) {
      ShowKeepsList(p, w, id, status);
    } else {
      assert forall x :: HasLive(w', x) ==> HasLive(w, x);
    }
  }

  lemma SerialKept(p: Policy, s: State, s': State)
    requires !p.cleanDropsRunning && !p.overlap && SerialInv(p, s) && Step(p, s, s')
    ensures SerialInv(p, s')
  {
    if i, m :| AttemptStep(p, s, i, m, s') {
      MoveKeepsList(p, s.world, s.attempts[i], m);
    } else if i :| Begins(p, s, i, s') {
      assert forall id :: HasLive(s'.world, id) <==> HasLive(s.world, id);
    } else {
      WorldKeepsList(p, s.world, s'.world);
    }
  }

  lemma SerialAlways(p: Policy, s: State)
    requires !p.cleanDropsRunning && !p.overlap && Reachable(p, s)
    ensures SerialInv(p, s)
  {
    var inv := (x: State) => SerialInv(p, x);
    forall x, y | inv(x) && Next(p)(x, y) ensures inv(y) {
      SerialKept(p, x, y);
    }
    Kept(Next(p), inv, START, s);
  }

  // ---------- a copied share is kept ----------

  /** The share that holds a finished copy has the record that says so, unless a success
      was reported for it. */
  ghost predicate CopyListed(w: World, provided: bool) {
    w.copied && !provided ==> exists id :: InState(w, id, Completed)
  }

  /** Jobs copy into the share, and have finished into it, only while it exists. */
  ghost predicate Grounded(w: World) {
    w.into <= w.running && (w.copied || w.into != {} ==> w.share)
  }

  ghost predicate Spares(w: World, phase: Phase) {
    phase.Deleting? ==> !w.copied
  }

  ghost predicate Careful(p: Policy) {
    && !p.readsFail && !p.foreign && !p.cleanDropsRunning && !p.cleanDropsFinished && !p.jobsFail
    && !p.overlap && !p.again
  }

  ghost predicate KeptInv(p: Policy, s: State) {
    && SerialInv(p, s) && Grounded(s.world) && CopyListed(s.world, s.provided)
    && (s.provided ==> s.attempts == map[])
    && forall i :: i in s.attempts ==> Spares(s.world, s.attempts[i])
  }

  lemma LookSpares(p: Policy, w: World, v: JobState)
    requires Careful(p) && ListOk(p, w) && CopyListed(w, false) && Reads(p, w, v) && v != Running && v != Completed
    ensures !w.copied
  {
    LookTells(p, w, v);
  }

  lemma MoveSpares(p: Policy, w: World, phase: Phase, m: Move)
    requires Careful(p) && ListOk(p, w) && Knows(p, w, phase) && Spares(w, phase) && CopyListed(w, false) && Grounded(w)
    requires Moves(p, w, phase, m)
    ensures Grounded(m.world) && CopyListed(m.world, m.success && m.world.share)
    ensures m.next.Some? ==> Spares(m.world, m.next.value) && !m.success
  {
    if phase.RollingBack? {
      if p.generated {
        var v :| Reads(p, w, v) && m == AfterLook(w, v);
        if v != Running && v != Completed {
          LookSpares(p, w, v);
        }
      }
    } else if w.copied && !phase.Cleaning? {
      var c :| InState(w, c, Completed);
      assert m.world.copied ==> InState(m.world, c, Completed);
    }
  }

  lemma WorldSpares(p: Policy, w: World, w': World, provided: bool)
    requires Careful(p) && ListOk(p, w) && CopyListed(w, provided) && Grounded(w) && WorldStep(p, w, w')
    ensures Grounded(w') && CopyListed(w', provided && w'.share)
    ensures w'.copied && !w.copied ==> w.running != {}
  {
    if id, status :| Ends(p, w, id, status) && w' == Ended(w, id, status) {
      assert w'.copied && !w.copied ==> InState(w', id, Completed);
    }
    if w.copied && !provided {
      var c :| InState(w, c, Completed);
      assert w'.copied ==> InState(w', c, Completed);
    }
  }

  lemma KeptKept(p: Policy, s: State, s': State)
    requires Careful(p) && KeptInv(p, s) && Step(p, s, s')
    ensures KeptInv(p, s')
  {
    SerialKept(p, s, s');
    if i, m :| AttemptStep(p, s, i, m, s') {
      MoveSpares(p, s.world, s.attempts[i], m);
    } else if i :| Begins(p, s, i, s') {
      if s.world.copied {
        var c :| InState(s.world, c, Completed);
        assert InState(s'.world, c, Completed);
      }
    } else {
      WorldSpares(p, s.world, s'.world, s.provided);
    }
  }

  lemma CarefulKeeps(p: Policy, s: State)
    requires Careful(p) && Reachable(p, s)
    ensures KeepsCopied(s)
  {
    var inv := (x: State) => KeptInv(p, x);
    forall x, y | inv(x) && Next(p)(x, y) ensures inv(y) {
      KeptKept(p, x, y);
    }
    Kept(Next(p), inv, START, s);
  }

  // ---------- a success is a copied share ----------

  ghost predicate Reliable(p: Policy) {
    !p.foreign && !p.jobsFail && !p.cleanDropsRunning && !p.deletes && (p.generated ==> !p.readsFail && !p.overlap)
  }

  /** Every running job copies into the share that exists and is listed as in progress,
      and a finished record is that of a job that finished into it. */
  ghost predicate Tracks(w: World) {
    && "" !in w.listed && w.into == w.running && w.running !! w.done && (w.copied || w.running != {} ==> w.share)
    && (forall id :: id in w.running ==> id in w.listed && w.listed[id] == "InProgress")
    && (forall id :: id in w.listed && w.listed[id] == "InProgress" ==> id in w.running)
    && (forall id :: HasFinished(w, id) ==> w.copied && w.listed[id] == "Completed")
  }

  ghost predicate Expects(p: Policy, w: World, phase: Phase) {
    && w.share
    && (phase.Polling? ==> w.running != {} || w.copied)
    && (phase.Waiting? ==> phase.job in w.running || (phase.job in w.done ==> w.copied))
    && (phase.Cleaning? ==> w.copied)
    && (phase.Deleting? ==> p.generated && w.running == {} && forall id :: !HasFinished(w, id))
  }

  ghost predicate SuccessInv(p: Policy, s: State) {
    && Tracks(s.world) && (p.generated ==> Serial(s)) && SuccessIsCopied(s)
    && forall i :: i in s.attempts ==> Expects(p, s.world, s.attempts[i])
  }

  lemma FinishedIsCopied(p: Policy, w: World, v: JobState)
    requires Tracks(w) && Reads(p, w, v)
    ensures IsFinished(v) ==> v == Completed && w.copied
    ensures v == Running ==> w.running != {}
    ensures v == NotFound ==> w.running == {}
    ensures v != Completed && v != Error ==> forall id :: !HasFinished(w, id)
    ensures !p.readsFail ==> v != Error
  {
    ReadTells(p, w, v);
    if IsFinished(v) {
      var id :| InState(w, id, v);
      assert HasFinished(w, id);
    }
    forall id | id in w.running ensures HasLive(w, id) {
    }
  }

  /** The attempts beside the one that moves. */
  ghost predicate OthersExpect(p: Policy, w: World, w': World) {
    forall other :: Expects(p, w, other) && !other.Deleting? ==> Expects(p, w', other)
  }

  lemma StartTracks(p: Policy, w: World, id: string, f: bool)
    requires Tracks(w) && w.share && Unused(w, id)
    ensures Tracks(Started(w, id)) && Expects(p, Started(w, id), Waiting(id, f)) && OthersExpect(p, w, Started(w, id))
  {
    assert forall x :: HasFinished(Started(w, id), x) ==> HasFinished(w, x);
  }

  lemma DeleteTracks(p: Policy, w: World)
    requires Tracks(w) && Expects(p, w, Deleting)
    ensures Tracks(Deleted(w))
  {
    assert forall x :: HasFinished(Deleted(w), x) ==> HasFinished(w, x);
  }

  lemma CleanTracks(p: Policy, w: World, drop: set<string>)
    requires !p.cleanDropsRunning && Tracks(w) && Clears(p, w, drop)
    ensures Tracks(Cleared(w, drop)) && forall phase :: Expects(p, w, phase) ==> Expects(p, Cleared(w, drop), phase)
  {
    assert forall x :: HasFinished(Cleared(w, drop), x) ==> HasFinished(w, x);
  }

  /** A step that leaves the world alone: what it goes by is so. */
  lemma LookTracks(p: Policy, w: World, phase: Phase, m: Move)
    requires Reliable(p) && Tracks(w) && Expects(p, w, phase) && Moves(p, w, phase, m) && m.world == w
    ensures m.success ==> w.share && w.copied
    ensures m.next.Some? ==> Expects(p, w, m.next.value)
  {
    match phase
    case Copying(f) =>
      var v :| Reads(p, w, v) && m == AfterRead(w, f, v);
      FinishedIsCopied(p, w, v);
    case Polling(f) =>
      if m != Move(w, Some(CopyFailed(f)), false) {
        var v :| Reads(p, w, v) && m == AfterPoll(w, f, v);
        FinishedIsCopied(p, w, v);
      }
    case RollingBack =>
      if p.generated {
        var v :| Reads(p, w, v) && m == AfterLook(w, v);
        FinishedIsCopied(p, w, v);
      }
    case _ =>
  }

  lemma MoveTracks(p: Policy, w: World, phase: Phase, m: Move)
    requires Reliable(p) && Tracks(w) && Expects(p, w, phase) && Moves(p, w, phase, m)
    ensures Tracks(m.world) && (m.success ==> m.world.share && m.world.copied)
    ensures m.next.Some? ==> Expects(p, m.world, m.next.value)
    ensures phase.Deleting? || OthersExpect(p, w, m.world)
    ensures phase.Deleting? ==> m.next == None
  {
    if m.world == w {
      LookTracks(p, w, phase, m);
    } else if phase.Starting? {
      var id :| Unused(w, id) && m == Move(Started(w, id), Some(Waiting(id, phase.fallback)), false);
      StartTracks(p, w, id, phase.fallback);
    } else if phase.Cleaning? {
      var drop :| Clears(p, w, drop) && m == Move(Cleared(w, drop), None, true);
      CleanTracks(p, w, drop);
    } else {
      DeleteTracks(p, w);
    }
  }

  lemma WorldTracks(p: Policy, w: World, w': World)
    requires Reliable(p) && Tracks(w) && WorldStep(p, w, w')
    ensures Tracks(w') && forall phase :: Expects(p, w, phase) ==> Expects(p, w', phase)
  {
    if id, status :| Ends(p, w, id, status) && w' == Ended(w, id, status) {
      assert forall x :: HasFinished(w', x) ==> x == id || HasFinished(w, x);
    } else {
      var drop :| Drops(p, w, drop) && w' == Cleared(w, drop);
      CleanTracks(p, w, drop);
    }
  }

  lemma SuccessKept(p: Policy, s: State, s': State)
    requires Reliable(p) && SuccessInv(p, s) && Step(p, s, s')
    ensures SuccessInv(p, s')
  {
    if i, m :| AttemptStep(p, s, i, m, s') {
      MoveTracks(p, s.world, s.attempts[i], m);
      forall j | j in s'.attempts ensures Expects(p, s'.world, s'.attempts[j]) {
        assert j != i ==> j in s.attempts && s'.attempts[j] == s.attempts[j];
        assert Expects(p, s.world, s.attempts[i]);
        if j != i {
          assert Expects(p, s.world, s.attempts[j]);
        }
      }
    } else if i :| Begins(p, s, i, s') {
      assert forall x :: HasFinished(s'.world, x) <==> HasFinished(s.world, x);
      forall j | j in s'.attempts ensures Expects(p, s'.world, s'.attempts[j]) {
        if j != i {
          assert Expects(p, s.world, s.attempts[j]);
        }
      }
    } else {
      WorldTracks(p, s.world, s'.world);
    }
  }

  lemma SuccessAlways(p: Policy, s: State)
    requires Reliable(p) && Reachable(p, s)
    ensures SuccessInv(p, s)
  {
    var inv := (x: State) => SuccessInv(p, x);
    forall x, y | inv(x) && Next(p)(x, y) ensures inv(y) {
      SuccessKept(p, x, y);
    }
    Kept(Next(p), inv, START, s);
  }
}
