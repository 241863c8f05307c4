/** The Windows host-process mounter: every volume is a link to a remote path,
    all links to one remote path share one host-wide SMB mapping, and no counter
    says when the last link goes. Calls of SMBMount and Unmount interleave one
    host operation at a time. */
module SmbMapping {
  import opened Runs
  import opened Strings

  type Thread = nat

  /** A link is made either at <driver directory>\<dir>\globalmount, which the
      duplicate scan reads, or anywhere else, which it does not. */
  datatype Place = GlobalMount(dir: string) | Elsewhere(path: string)

  /** Where a call of SMBMount or Unmount stands. From "Locked" on it holds the
      lock of its remote path. */
  datatype Pc =
    | Idle
    | MountEntered(remote: string, at: Place)
    | MountLocked(remote: string, at: Place)
    | MountChecking(remote: string, at: Place)
    | MountRemoving(remote: string, at: Place)
    | MountMapping(remote: string, at: Place, replacing: bool)
    | MountLinking(remote: string, at: Place)
    | UnmountEntered(at: Place)
    | UnmountRead(remote: string, at: Place)
    | UnmountLocked(remote: string, at: Place)
    | UnmountScanning(remote: string, at: Place, todo: set<Place>)
    | UnmountUnmapping(remote: string, at: Place)
    | UnmountDeleting(remote: string, at: Place, unmapped: bool)
    | UnmountUnlocked(at: Place)
    | Unlocking(remote: string, at: Place)

  datatype Status = NotFound | OK | Disconnected | Other

  /** What the node has: the lock keys of the remote paths with a mapping, each link
      with the remote path as its mount spelled it, how a mapping reports, and the
      keys of the remote paths that are valid now. */
  datatype Host = Host(mapped: set<string>, links: map<Place, string>, reports: map<string, Status>, valid: set<string>)

  /** The status of the mapping, as a query that does not fail reports it. */
  function Reported(h: Host, key: string): Status {
    if key !in h.mapped then NotFound else if key in h.reports then h.reports[key] else Other
  }

  /** The mapping reports OK and its path would pass the check. */
  predicate Healthy(h: Host, key: string) {
    Reported(h, key) == OK && key in h.valid
  }

  /** The host, the holders of the hashed lock slots, and the calls under way. */
  datatype State = State(host: Host, locks: map<nat, Thread>, pcs: map<Thread, Pc>)

  function LockKey(remote: string): string {
    ToLower(TrimRight(remote, Backslash))
  }

  predicate Backslash(c: char) {
    c == '\\'
  }

  /** The remote path a link yields when it is read back. */
  function ReadBack(remote: string): string {
    TrimSpace(remote)
  }

  /** What a deployment lets happen: the spellings of remote paths it mounts,
      whether it mounts outside the scanned directory, whether creating a mapping
      can fail after the old one was removed, whether a link call can fail, whether
      the check of a valid path can fail, and the hash of the keyed mutex. */
  datatype Policy = Policy(
    remotes: iset<string>, outside: bool, newFails: bool, linkFails: bool, checkFails: bool, slot: string -> nat)

  function PcOf(s: State, t: Thread): Pc {
    if t in s.pcs then s.pcs[t] else Idle
  }

  function SlotOf(p: Policy, remote: string): nat {
    (p.slot)(LockKey(remote))
  }

  ghost predicate Allows(p: Policy, remote: string, at: Place) {
    remote in p.remotes && (at.GlobalMount? || p.outside)
  }

  predicate HoldsLock(pc: Pc) {
    !(pc.Idle? || pc.MountEntered? || pc.UnmountEntered? || pc.UnmountRead? || pc.UnmountUnlocked?)
  }

  datatype LockOp = Keep | Take | Give

  /** One host operation of a call: where the call goes, what the host becomes. */
  datatype Move = Move(pc: Pc, host: Host, lock: LockOp)

  /** The entries a directory listing can show: at least every global link
      present now, and never the link being unmounted. */
  ghost predicate Lists(h: Host, at: Place, todo: set<Place>) {
    && at !in todo
    && forall g :: g in h.links && g.GlobalMount? && g != at ==> g in todo
  }

  /** The scan looks at one entry; only a failing link call can miss a duplicate. */
  ghost predicate ScanEntry(p: Policy, h: Host, pc: Pc, g: Place, m: Move)
    requires pc.UnmountScanning?
  {
    if g in h.links && ReadBack(h.links[g]) == pc.remote then
      || m == Move(UnmountDeleting(pc.remote, pc.at, false), h, Keep)
      || (p.linkFails && m == Move(pc.(todo := pc.todo - {g}), h, Keep))
    else m == Move(pc.(todo := pc.todo - {g}), h, Keep)
  }

  /** What a mount can do next. Every foreign call can also fail. */
  ghost predicate MountMove(p: Policy, h: Host, pc: Pc, m: Move) {
    match pc
    case MountEntered(r, at) => m == Move(MountLocked(r, at), h, Take)
    case MountLocked(r, at) =>          // the reported status, an error counting as "not found"
      || m == Move(MountMapping(r, at, false), h, Keep)
      || (Reported(h, LockKey(r)) == Disconnected && m == Move(MountRemoving(r, at), h, Keep))
      || (Reported(h, LockKey(r)) == OK && m == Move(MountChecking(r, at), h, Keep))
    case MountChecking(r, at) =>        // reported OK: is the path valid?
      || (LockKey(r) in h.valid && m == Move(MountLinking(r, at), h, Keep))
      || ((LockKey(r) !in h.valid || p.checkFails) && m == Move(MountRemoving(r, at), h, Keep))
    case MountRemoving(r, at) =>
      || m == Move(MountMapping(r, at, true), h.(mapped := h.mapped - {LockKey(r)}), Keep)
      || m == Move(Unlocking(r, at), h, Keep)
    case MountMapping(r, at, replacing) =>
      || m == Move(MountLinking(r, at), h.(mapped := h.mapped + {LockKey(r)}), Keep)
      || ((replacing ==> p.newFails) && m == Move(Unlocking(r, at), h, Keep))
    case MountLinking(r, at) =>
      || (at !in h.links && m == Move(Unlocking(r, at), h.(links := h.links[at := r]), Keep))
      || m == Move(Unlocking(r, at), h, Keep)
    case Unlocking(_, _) => m == Move(Idle, h, Give)
    case _ => false
  }

  /** What an unmount can do next. */
  ghost predicate UnmountMove(p: Policy, h: Host, pc: Pc, m: Move) {
    match pc
    case UnmountEntered(at) =>
      || (at in h.links && m == Move(UnmountRead(ReadBack(h.links[at]), at), h, Keep))
      || m == Move(UnmountUnlocked(at), h, Keep)
    case UnmountRead(r, at) => m == Move(UnmountLocked(r, at), h, Take)
    case UnmountLocked(r, at) =>
      || (m.pc.UnmountScanning? && Lists(h, at, m.pc.todo) && m == Move(UnmountScanning(r, at, m.pc.todo), h, Keep))
      || m == Move(UnmountDeleting(r, at, false), h, Keep)
    case UnmountScanning(r, at, todo) =>
      if todo == {} then m == Move(UnmountUnmapping(r, at), h, Keep)
      else exists g :: g in todo && ScanEntry(p, h, pc, g, m)
    case UnmountUnmapping(r, at) =>
      || m == Move(UnmountDeleting(r, at, true), h.(mapped := h.mapped - {LockKey(r)}), Keep)
      || m == Move(UnmountDeleting(r, at, false), h, Keep)
    case UnmountDeleting(r, at, unmapped) =>
      || m == Move(Unlocking(r, at), h.(links := h.links - {at}), Keep)
      || ((unmapped ==> p.linkFails) && m == Move(Unlocking(r, at), h, Keep))
    case UnmountUnlocked(at) =>         // the link could not be read: only the directory goes
      m == Move(Idle, h.(links := h.links - {at}), Keep) || m == Move(Idle, h, Keep)
    case _ => false
  }

  /** A new call, or a plain Rmdir of a staging or publish path. */
  ghost predicate StartMove(p: Policy, h: Host, m: Move) {
    || (m.pc.MountEntered? && Allows(p, m.pc.remote, m.pc.at) && m == Move(m.pc, h, Keep))
    || (m.pc.UnmountEntered? && m == Move(m.pc, h, Keep))
    || (exists at :: m == Move(Idle, h.(links := h.links - {at}), Keep))
  }

  ghost predicate CanMove(p: Policy, h: Host, pc: Pc, m: Move) {
    || (pc.Idle? && StartMove(p, h, m))
    || MountMove(p, h, pc, m)
    || UnmountMove(p, h, pc, m)
  }

  function Moved(p: Policy, s: State, t: Thread, m: Move): State
    requires m.lock.Take? ==> HoldsLock(m.pc)
    requires m.lock.Give? ==> HoldsLock(PcOf(s, t))
  {
    var locks :=
      match m.lock
      case Keep => s.locks
      case Take => s.locks[SlotOf(p, m.pc.remote) := t]
      case Give => s.locks - {SlotOf(p, PcOf(s, t).remote)};
    State(m.host, locks, s.pcs[t := m.pc])
  }

  /** Thread t makes a move; taking a lock waits until its slot is free. */
  ghost predicate ThreadStep(p: Policy, s: State, t: Thread, m: Move, s': State) {
    && CanMove(p, s.host, PcOf(s, t), m)
    && (m.lock.Take? ==> HoldsLock(m.pc) && SlotOf(p, m.pc.remote) !in s.locks)
    && (m.lock.Give? ==> HoldsLock(PcOf(s, t)))
    && s' == Moved(p, s, t, m)
  }

  /** Mappings and paths come and go as the network does. */
  ghost predicate HealthStep(s: State, s': State) {
    s' == s.(host := s.host.(reports := s'.host.reports, valid := s'.host.valid))
  }

  ghost predicate Step(p: Policy, s: State, s': State) {
    HealthStep(s, s') || exists t, m :: ThreadStep(p, s, t, m, s')
  }

  ghost function Next(p: Policy): (State, State) -> bool {
    (s, s') => Step(p, s, s')
  }

  ghost predicate Initial(s: State) {
    s.host.links == map[] && s.locks == map[] && s.pcs == map[]
  }

  ghost predicate Reachable(p: Policy, s: State) {
    exists s0 :: Initial(s0) && Reaches(Next(p), s0, s)
  }

  /** The promise: a link whose lock is free has its mapping. */
  ghost predicate LinksMapped(p: Policy, s: State) {
    forall at :: at in s.host.links && SlotOf(p, s.host.links[at]) !in s.locks ==> LockKey(s.host.links[at]) in s.host.mapped
  }

  ghost predicate Safe(p: Policy) {
    forall s :: Reachable(p, s) ==> LinksMapped(p, s)
  }

  /** The unmount of a link spelled a removes the mapping that b needs. */
  ghost predicate Undermines(p: Policy, a: string, b: string) {
    a in p.remotes && b in p.remotes && LockKey(ReadBack(a)) == LockKey(b)
  }

  /** Where an unmount could remove a mapping that is needed, the scan sees every link,
      the spellings read back alike and link calls do not fail. */
  ghost predicate ScanSees(p: Policy) {
    forall a, b :: Undermines(p, a, b) ==> !p.outside && !p.linkFails && ReadBack(a) == ReadBack(b)
  }

  ghost predicate NoRemotes(p: Policy) {
    forall r :: r !in p.remotes
  }

  /** The deployments that keep every link mapped: the scan sees what it must, and a
      mapping once removed is always made again. */
  ghost predicate Good(p: Policy) {
    ScanSees(p) && (p.newFails ==> NoRemotes(p))
  }

  // ---------- the invariant ----------

  /** No link but the one at `at` needs the mapping of r. */
  ghost predicate NoOther(h: Host, r: string, at: Place) {
    forall g :: g in h.links && g != at ==> LockKey(h.links[g]) != LockKey(r)
  }

  predicate IsMount(pc: Pc) {
    pc.MountEntered? || pc.MountLocked? || pc.MountChecking? || pc.MountRemoving? || pc.MountMapping? || pc.MountLinking?
  }

  /** What is true of the host at each point of a call. */
  ghost predicate PcOk(p: Policy, h: Host, pc: Pc) {
    && (IsMount(pc) ==> Allows(p, pc.remote, pc.at))
    && (pc.MountChecking? || pc.MountLinking? ==> LockKey(pc.remote) in h.mapped)
    && (pc.UnmountRead? || pc.UnmountLocked? || pc.UnmountScanning? || pc.UnmountUnmapping? || (pc.UnmountDeleting? && pc.unmapped) ==>
      exists r0 :: r0 in p.remotes && pc.remote == ReadBack(r0))
    && (pc.UnmountScanning? ==>
      forall g :: g in h.links && g != pc.at && LockKey(h.links[g]) == LockKey(pc.remote) ==> g in pc.todo)
    && (pc.UnmountUnmapping? || (pc.UnmountDeleting? && pc.unmapped) ==> NoOther(h, pc.remote, pc.at))
  }

  /** The lock slots and the calls that claim one agree. */
  ghost predicate LocksOk(p: Policy, s: State) {
    && (forall t :: HoldsLock(PcOf(s, t)) ==> SlotOf(p, PcOf(s, t).remote) in s.locks && s.locks[SlotOf(p, PcOf(s, t).remote)] == t)
    && (forall x :: x in s.locks ==> HoldsLock(PcOf(s, s.locks[x])) && SlotOf(p, PcOf(s, s.locks[x]).remote) == x)
  }

  /** The call has removed the mapping of r and not yet put it back, or it is
      about to delete the only link that needed it. */
  ghost predicate Gap(pc: Pc, r: string, at: Place) {
    || (pc.MountMapping? && pc.replacing && LockKey(pc.remote) == LockKey(r))
    || (pc.UnmountDeleting? && pc.unmapped && pc.at == at && LockKey(pc.remote) == LockKey(r))
  }

  ghost predicate LinkOk(p: Policy, s: State, at: Place) {
    at in s.host.links ==> LockKey(s.host.links[at]) in s.host.mapped || exists t :: Gap(PcOf(s, t), s.host.links[at], at)
  }

  /** The locks, the claims of the calls, and the links of a policy's making. */
  ghost predicate CallsOk(p: Policy, s: State) {
    && LocksOk(p, s)
    && (forall t :: PcOk(p, s.host, PcOf(s, t)))
    && (forall at :: at in s.host.links ==> Allows(p, s.host.links[at], at))
  }

  ghost predicate Inv(p: Policy, s: State) {
    CallsOk(p, s) && forall at :: LinkOk(p, s, at)
  }

  /** A move takes its lock, gives it back, or keeps its claim as it is; the host
      changes only under the lock, except that links may go at any time. */
  lemma MoveShape(p: Policy, h: Host, pc: Pc, m: Move)
    requires CanMove(p, h, pc, m)
    ensures m.lock.Keep? ==> HoldsLock(pc) == HoldsLock(m.pc) && (HoldsLock(pc) ==> m.pc.remote == pc.remote)
    ensures m.lock.Take? ==> !HoldsLock(pc) && HoldsLock(m.pc)
    ensures m.lock.Give? ==> HoldsLock(pc) && !HoldsLock(m.pc)
    ensures !HoldsLock(pc) ==> m.host.mapped == h.mapped
    ensures forall g :: g in m.host.links && g !in h.links ==> pc.MountLinking? && m.host.links[g] == pc.remote && g == pc.at
    ensures forall g :: g in m.host.links && g in h.links ==> m.host.links[g] == h.links[g]
    ensures HoldsLock(pc) ==> forall k :: k != LockKey(pc.remote) ==> (k in m.host.mapped <==> k in h.mapped)
  {
  }

  lemma LocksKept(p: Policy, s: State, t: Thread, m: Move, s': State)
    requires LocksOk(p, s) && ThreadStep(p, s, t, m, s')
    ensures LocksOk(p, s')
  {
    MoveShape(p, s.host, PcOf(s, t), m);
    assert forall u :: u != t ==> PcOf(s', u) == PcOf(s, u);
  }

  /** A move leaves the mover's own claims true. */
  lemma OwnPcKept(p: Policy, h: Host, pc: Pc, m: Move)
    requires ScanSees(p) && PcOk(p, h, pc) && CanMove(p, h, pc, m)
    requires forall g :: g in h.links ==> Allows(p, h.links[g], g)
    ensures PcOk(p, m.host, m.pc)
  {
    if UnmountMove(p, h, pc, m) {
      OwnUnmountKept(p, h, pc, m);
    }
  }

  /** Where an unmount reads back as r0, a link that needs its mapping is under the
      scanned directory and reads back alike. */
  lemma NeedsScan(p: Policy, r0: string, h: Host, g: Place)
    requires ScanSees(p) && r0 in p.remotes && g in h.links && Allows(p, h.links[g], g)
    requires LockKey(h.links[g]) == LockKey(ReadBack(r0))
    ensures g.GlobalMount? && !p.linkFails && ReadBack(h.links[g]) == ReadBack(r0)
  {
    assert Undermines(p, r0, h.links[g]);
  }

  lemma OwnUnmountKept(p: Policy, h: Host, pc: Pc, m: Move)
    requires ScanSees(p) && PcOk(p, h, pc) && UnmountMove(p, h, pc, m)
    requires forall g :: g in h.links ==> Allows(p, h.links[g], g)
    ensures PcOk(p, m.host, m.pc)
  {
    if pc.UnmountLocked? || pc.UnmountScanning? {
      var r0 :| r0 in p.remotes && pc.remote == ReadBack(r0);
      forall g | g in h.links && LockKey(h.links[g]) == LockKey(pc.remote)
        ensures g.GlobalMount? && !p.linkFails && ReadBack(h.links[g]) == pc.remote
      {
        NeedsScan(p, r0, h, g);
      }
    }
  }

  /** And the claims of every other call, which holds another lock if any. */
  lemma OtherPcKept(p: Policy, h: Host, pc: Pc, m: Move, other: Pc)
    requires PcOk(p, h, other) && CanMove(p, h, pc, m)
    requires HoldsLock(pc) && HoldsLock(other) ==> LockKey(pc.remote) != LockKey(other.remote)
    ensures PcOk(p, m.host, other)
  {
    MoveShape(p, h, pc, m);
  }

  lemma PcKept(p: Policy, s: State, t: Thread, m: Move, s': State, u: Thread)
    requires ScanSees(p) && CallsOk(p, s) && ThreadStep(p, s, t, m, s')
    ensures PcOk(p, s'.host, PcOf(s', u))
  {
    assert PcOk(p, s.host, PcOf(s, t)) && PcOk(p, s.host, PcOf(s, u));
    if u == t {
      OwnPcKept(p, s.host, PcOf(s, t), m);
    } else {
      OtherPcKept(p, s.host, PcOf(s, t), m, PcOf(s, u));
    }
  }

  /** A gap closes only when the mapping is back or the link is gone. */
  lemma GapKept(p: Policy, h: Host, pc: Pc, m: Move, r: string, at: Place)
    requires Good(p) && PcOk(p, h, pc) && CanMove(p, h, pc, m) && Gap(pc, r, at) && r in p.remotes
    ensures LockKey(r) in m.host.mapped || at !in m.host.links
  {
    if pc.UnmountDeleting? {
      var r0 :| r0 in p.remotes && pc.remote == ReadBack(r0);
      assert Undermines(p, r0, r);
    }
  }

  /** A mapping that a link needs is removed only by a call that stands in the
      gap for it: a mount replacing it, or the unmount of the last link. */
  lemma UnmappedLeavesGap(p: Policy, h: Host, pc: Pc, m: Move, r: string, at: Place)
    requires PcOk(p, h, pc) && CanMove(p, h, pc, m)
    requires at in h.links && h.links[at] == r && LockKey(r) in h.mapped && LockKey(r) !in m.host.mapped
    ensures Gap(m.pc, r, at) && (pc.MountRemoving? || pc.UnmountUnmapping?)
  {
  }

  /** What a move does for one link: a new link is mapped, an old one keeps its
      mapping or falls into the mover's gap, and a closed gap is a mapped link. */
  ghost predicate Carries(p: Policy, h: Host, pc: Pc, h': Host, pc': Pc, at: Place) {
    at in h'.links ==>
      var r := h'.links[at];
      if at in h.links then
        && h.links[at] == r
        && (LockKey(r) in h.mapped ==> LockKey(r) in h'.mapped || Gap(pc', r, at))
        && (Gap(pc, r, at) ==> LockKey(r) in h'.mapped)
      else Allows(p, r, at) && LockKey(r) in h'.mapped
  }

  lemma MoveCarries(p: Policy, h: Host, pc: Pc, m: Move, at: Place)
    requires Good(p) && PcOk(p, h, pc) && CanMove(p, h, pc, m)
    requires at in h.links ==> Allows(p, h.links[at], at)
    ensures Carries(p, h, pc, m.host, m.pc, at)
  {
    MoveShape(p, h, pc, m);
    if at in h.links && at in m.host.links {
      var r := h.links[at];
      if Gap(pc, r, at) {
        GapKept(p, h, pc, m, r, at);
      }
      if LockKey(r) in h.mapped && LockKey(r) !in m.host.mapped {
        UnmappedLeavesGap(p, h, pc, m, r, at);
      }
    }
  }

  lemma LinkKept(p: Policy, s: State, t: Thread, s': State, at: Place)
    requires forall u :: u != t ==> PcOf(s', u) == PcOf(s, u)
    requires LinkOk(p, s, at) && Carries(p, s.host, PcOf(s, t), s'.host, PcOf(s', t), at)
    ensures LinkOk(p, s', at)
  {
    if at in s'.host.links && at in s.host.links && LockKey(s.host.links[at]) !in s.host.mapped {
      var u :| Gap(PcOf(s, u), s.host.links[at], at);
      if u != t {
        assert Gap(PcOf(s', u), s.host.links[at], at);
      }
    }
  }

  lemma CallsKept(p: Policy, s: State, s': State)
    requires ScanSees(p) && CallsOk(p, s) && Step(p, s, s')
    ensures CallsOk(p, s')
  {
    if HealthStep(s, s') {
      HealthKeepsCalls(p, s, s');
    } else {
      var t, m :| ThreadStep(p, s, t, m, s');
      LocksKept(p, s, t, m, s');
      forall u ensures PcOk(p, s'.host, PcOf(s', u)) {
        PcKept(p, s, t, m, s', u);
      }
      assert PcOk(p, s.host, PcOf(s, t));
      MoveShape(p, s.host, PcOf(s, t), m);
    }
  }

  /** No claim is about health. */
  lemma HealthKeepsCalls(p: Policy, s: State, s': State)
    requires CallsOk(p, s) && HealthStep(s, s')
    ensures CallsOk(p, s')
  {
    assert forall t :: PcOf(s', t) == PcOf(s, t);
    forall t ensures PcOk(p, s'.host, PcOf(s', t)) {
      assert PcOk(p, s.host, PcOf(s, t));
    }
  }

  lemma InvKept(p: Policy, s: State, s': State)
    requires Good(p) && Inv(p, s) && Step(p, s, s')
    ensures Inv(p, s')
  {
    CallsKept(p, s, s');
    if HealthStep(s, s') {
      forall at ensures LinkOk(p, s', at) {
        assert LinkOk(p, s, at);
        if at in s.host.links && LockKey(s.host.links[at]) !in s.host.mapped {
          var t :| Gap(PcOf(s, t), s.host.links[at], at);
          assert PcOf(s', t) == PcOf(s, t);
        }
      }
    } else {
      var t, m :| ThreadStep(p, s, t, m, s');
      forall at ensures LinkOk(p, s', at) {
        assert PcOk(p, s.host, PcOf(s, t)) && LinkOk(p, s, at);
        MoveCarries(p, s.host, PcOf(s, t), m, at);
        LinkKept(p, s, t, s', at);
      }
    }
  }

  lemma ReachableInv(p: Policy, s: State)
    requires Good(p) && Reachable(p, s)
    ensures Inv(p, s)
  {
    var s0 :| Initial(s0) && Reaches(Next(p), s0, s);
    var inv := (x: State) => Inv(p, x);
    forall x, y | inv(x) && Next(p)(x, y) ensures inv(y) {
      InvKept(p, x, y);
    }
    Kept(Next(p), inv, s0, s);
  }

  lemma ReachableCalls(p: Policy, s: State)
    requires ScanSees(p) && Reachable(p, s)
    ensures CallsOk(p, s)
  {
    var s0 :| Initial(s0) && Reaches(Next(p), s0, s);
    var inv := (x: State) => CallsOk(p, x);
    forall x, y | inv(x) && Next(p)(x, y) ensures inv(y) {
      CallsKept(p, x, y);
    }
    Kept(Next(p), inv, s0, s);
  }

  /** In every interleaving of a good deployment, a link whose lock is free has
      its mapping. */
  lemma GoodIsSafe(p: Policy)
    requires Good(p)
    ensures Safe(p)
  {
    forall s | Reachable(p, s) ensures LinksMapped(p, s) {
      ReachableInv(p, s);
      forall at | at in s.host.links && SlotOf(p, s.host.links[at]) !in s.locks
        ensures LockKey(s.host.links[at]) in s.host.mapped
      {
        assert LinkOk(p, s, at);
        forall t ensures !Gap(PcOf(s, t), s.host.links[at], at) {
          assert HoldsLock(PcOf(s, t)) ==> SlotOf(p, PcOf(s, t).remote) in s.locks;
        }
      }
    }
  }

  // ---------- healthy mappings ----------

  /** The call takes away the mapping of the key. */
  ghost predicate Removes(p: Policy, s: State, t: Thread, m: Move, key: string) {
    CanMove(p, s.host, PcOf(s, t), m) && key in s.host.mapped && key !in m.host.mapped
  }

  /** A removal is a mount's that decided to replace the mapping, or the unmount of a
      link when no other link needs it. */
  lemma RemovalIsJustified(p: Policy, s: State, t: Thread, m: Move, key: string)
    requires ScanSees(p) && Reachable(p, s) && Removes(p, s, t, m, key)
    ensures
      var pc := PcOf(s, t);
      && (pc.MountRemoving? || pc.UnmountUnmapping?) && LockKey(pc.remote) == key
      && (pc.UnmountUnmapping? ==> NoOther(s.host, pc.remote, pc.at))
  {
    ReachableCalls(p, s);
    assert PcOk(p, s.host, PcOf(s, t));
  }

  /** The mount's own look at the mapping finds it disconnected, or finds it OK but
      its path not valid, or cannot check the path. */
  ghost predicate BadCheck(p: Policy, c: State, t: Thread, r: string, at: Place) {
    || (PcOf(c, t) == MountLocked(r, at) && Reported(c.host, LockKey(r)) == Disconnected)
    || (PcOf(c, t) == MountChecking(r, at) && (LockKey(r) !in c.host.valid || p.checkFails))
  }

  /** On the way from s0 to s the thread has made such a look. */
  ghost predicate Looked(p: Policy, s0: State, s: State, t: Thread, r: string, at: Place) {
    exists c :: BadCheck(p, c, t, r, at) && Reaches(Next(p), s0, c) && Reaches(Next(p), c, s)
  }

  /** What a call saw that has just decided to remove a mapping. */
  lemma Decides(p: Policy, h: Host, pc: Pc, m: Move)
    requires CanMove(p, h, pc, m) && m.pc.MountRemoving?
    ensures pc.MountLocked? || pc.MountChecking?
    ensures m.pc.remote == pc.remote && m.pc.at == pc.at
    ensures if pc.MountLocked? then Reported(h, LockKey(pc.remote)) == Disconnected else LockKey(pc.remote) !in h.valid || p.checkFails
  {
  }

  lemma LookedOn(p: Policy, s0: State, x: State, y: State, t: Thread, r: string, at: Place)
    requires Reaches(Next(p), s0, x) && Step(p, x, y) && PcOf(y, t) == MountRemoving(r, at)
    requires PcOf(x, t) == MountRemoving(r, at) ==> Looked(p, s0, x, t, r, at)
    ensures Looked(p, s0, y, t, r, at)
  {
    if PcOf(x, t) == MountRemoving(r, at) {
      var c :| BadCheck(p, c, t, r, at) && Reaches(Next(p), s0, c) && Reaches(Next(p), c, x);
      Then(Next(p), c, x, y);
    } else {
      var u, m :| ThreadStep(p, x, u, m, y);
      assert u == t;
      Decides(p, x.host, PcOf(x, t), m);
      Here(Next(p), x);
      Then(Next(p), x, x, y);
      assert BadCheck(p, x, t, r, at);
    }
  }

  /** In every run, a mount that is about to remove a mapping has itself found it
      disconnected or its path not valid, under its lock. */
  lemma RemovalFollowsBadCheck(p: Policy, s0: State, s: State, t: Thread, r: string, at: Place)
    requires Initial(s0) && Reaches(Next(p), s0, s) && PcOf(s, t) == MountRemoving(r, at)
    ensures Looked(p, s0, s, t, r, at)
  {
    var inv := (x: State) =>
      Reaches(Next(p), s0, x) && forall r, at :: PcOf(x, t) == MountRemoving(r, at) ==> Looked(p, s0, x, t, r, at);
    forall x, y | inv(x) && Next(p)(x, y) ensures inv(y) {
      Then(Next(p), s0, x, y);
      forall r, at | PcOf(y, t) == MountRemoving(r, at) ensures Looked(p, s0, y, t, r, at) {
        LookedOn(p, s0, x, y, t, r, at);
      }
    }
    Here(Next(p), s0);
    Kept(Next(p), inv, s0, s);
  }

  /** Steps during which the mapping stays healthy. */
  ghost function HealthyNext(p: Policy, key: string): (State, State) -> bool {
    (s, s') => Step(p, s, s') && Healthy(s.host, key) && Healthy(s'.host, key)
  }

  /** A removal that takes a mapping which has been healthy since a state a where the
      remover had not yet decided. */
  ghost predicate TakesHealthy(p: Policy, a: State, s: State, t: Thread, m: Move, key: string) {
    && Reachable(p, a) && Healthy(a.host, key) && !PcOf(a, t).MountRemoving?
    && Reaches(HealthyNext(p, key), a, s) && Removes(p, s, t, m, key)
  }

  /** The promise: a mapping that reports OK and passes the path check is removed
      only by the unmount of the last link that needs it. */
  ghost predicate KeepsHealthy(p: Policy) {
    forall a, s, t, m, key :: TakesHealthy(p, a, s, t, m, key) ==>
      PcOf(s, t).UnmountUnmapping? && NoOther(s.host, PcOf(s, t).remote, PcOf(s, t).at)
  }

  lemma StillUndecided(p: Policy, key: string, x: State, y: State, t: Thread)
    requires !p.checkFails && HealthyNext(p, key)(x, y)
    requires PcOf(x, t).MountRemoving? ==> LockKey(PcOf(x, t).remote) != key
    ensures PcOf(y, t).MountRemoving? ==> LockKey(PcOf(y, t).remote) != key
  {
    if !HealthStep(x, y) {
      var u, m :| ThreadStep(p, x, u, m, y);
      if u == t && m.pc.MountRemoving? {
        Decides(p, x.host, PcOf(x, t), m);
      }
    }
  }

  lemma HealthyReachable(p: Policy, key: string, a: State, s: State)
    requires Reachable(p, a) && Reaches(HealthyNext(p, key), a, s)
    ensures Reachable(p, s)
  {
    var inv := (x: State) => Reachable(p, x);
    forall x, y | inv(x) && HealthyNext(p, key)(x, y) ensures inv(y) {
      var s0 :| Initial(s0) && Reaches(Next(p), s0, x);
      Then(Next(p), s0, x, y);
    }
    Kept(HealthyNext(p, key), inv, a, s);
  }

  lemma HealthyIsKept(p: Policy, a: State, s: State, t: Thread, m: Move, key: string)
    requires ScanSees(p) && (p.checkFails ==> NoRemotes(p)) && TakesHealthy(p, a, s, t, m, key)
    ensures PcOf(s, t).UnmountUnmapping? && NoOther(s.host, PcOf(s, t).remote, PcOf(s, t).at)
  {
    HealthyReachable(p, key, a, s);
    RemovalIsJustified(p, s, t, m, key);
    if p.checkFails {
      NoMounts(p, s, t);
    } else {
      var inv := (x: State) => PcOf(x, t).MountRemoving? ==> LockKey(PcOf(x, t).remote) != key;
      forall x, y | inv(x) && HealthyNext(p, key)(x, y) ensures inv(y) {
        StillUndecided(p, key, x, y, t);
      }
      Kept(HealthyNext(p, key), inv, a, s);
    }
  }

  lemma NoMounts(p: Policy, s: State, t: Thread)
    requires ScanSees(p) && NoRemotes(p) && Reachable(p, s)
    ensures !IsMount(PcOf(s, t))
  {
    ReachableCalls(p, s);
    assert PcOk(p, s.host, PcOf(s, t));
  }

  // ---------- what goes wrong otherwise ----------

  const EMPTY := State(Host({}, map[], map[], {}), map[], map[])

  /** Thread 0 makes one move of a run that starts in EMPTY. */
  lemma Advance(p: Policy, s: State, m: Move) returns (s': State)
    requires Reaches(Next(p), EMPTY, s) && CanMove(p, s.host, PcOf(s, 0), m)
    requires m.lock.Take? ==> HoldsLock(m.pc) && SlotOf(p, m.pc.remote) !in s.locks
    requires m.lock.Give? ==> HoldsLock(PcOf(s, 0))
    ensures s' == Moved(p, s, 0, m) && Reaches(Next(p), EMPTY, s')
  {
    s' := Moved(p, s, 0, m);
    assert ThreadStep(p, s, 0, m, s');
    Then(Next(p), EMPTY, s, s');
  }

  ghost predicate Quiet(p: Policy, s: State) {
    Reaches(Next(p), EMPTY, s) && s.locks == map[] && PcOf(s, 0) == Idle
  }

  /** Thread 0 is at pc and holds the one lock that is taken. */
  ghost predicate Locking(p: Policy, s: State, pc: Pc, r: string) {
    Reaches(Next(p), EMPTY, s) && PcOf(s, 0) == pc && s.locks == map[SlotOf(p, r) := 0]
  }

  lemma BeginMount(p: Policy, s: State, r: string, at: Place) returns (s': State)
    requires Quiet(p, s) && Allows(p, r, at)
    ensures Locking(p, s', MountLocked(r, at), r) && s'.host == s.host
  {
    s' := Advance(p, s, Move(MountEntered(r, at), s.host, Keep));
    s' := Advance(p, s', Move(MountLocked(r, at), s.host, Take));
  }

  lemma Unlock(p: Policy, s: State, r: string, at: Place) returns (s': State)
    requires Locking(p, s, Unlocking(r, at), r)
    ensures Quiet(p, s') && s'.host == s.host
  {
    s' := Advance(p, s, Move(Idle, s.host, Give));
  }

  /** A mount that finds no mapping and links at a new place. */
  lemma RunMount(p: Policy, s: State, r: string, at: Place) returns (s': State)
    requires Quiet(p, s) && Allows(p, r, at) && at !in s.host.links
    ensures Quiet(p, s') && s'.host == s.host.(mapped := s.host.mapped + {LockKey(r)}, links := s.host.links[at := r])
  {
    var h := s.host;
    var h1 := h.(mapped := h.mapped + {LockKey(r)});
    s' := BeginMount(p, s, r, at);
    s' := Advance(p, s', Move(MountMapping(r, at, false), h, Keep));
    s' := Advance(p, s', Move(MountLinking(r, at), h1, Keep));
    s' := Advance(p, s', Move(Unlocking(r, at), h1.(links := h1.links[at := r]), Keep));
    s' := Unlock(p, s', r, at);
  }

  lemma BeginScan(p: Policy, s: State, at: Place, others: set<Place>) returns (s': State)
    requires Quiet(p, s) && at in s.host.links && Lists(s.host, at, others)
    ensures
      var r := ReadBack(s.host.links[at]);
      Locking(p, s', UnmountScanning(r, at, others), r) && s'.host == s.host
  {
    var h, r := s.host, ReadBack(s.host.links[at]);
    s' := Advance(p, s, Move(UnmountEntered(at), h, Keep));
    s' := Advance(p, s', Move(UnmountRead(r, at), h, Keep));
    s' := Advance(p, s', Move(UnmountLocked(r, at), h, Take));
    s' := Advance(p, s', Move(UnmountScanning(r, at, others), h, Keep));
  }

  lemma {:induction false} ScanAll(p: Policy, s: State, r: string, at: Place, todo: set<Place>) returns (s': State)
    requires Locking(p, s, UnmountScanning(r, at, todo), r)
    requires p.linkFails || forall g :: g in todo && g in s.host.links ==> ReadBack(s.host.links[g]) != r
    ensures Locking(p, s', UnmountScanning(r, at, {}), r) && s'.host == s.host
    decreases todo
  {
    s' := s;
    if todo != {} {
      var g :| g in todo;
      var m := Move(UnmountScanning(r, at, todo - {g}), s.host, Keep);
      assert ScanEntry(p, s.host, PcOf(s, 0), g, m);
      s' := Advance(p, s, m);
      s' := ScanAll(p, s', r, at, todo - {g});
    }
  }

  /** The mappings and paths turn out otherwise. */
  lemma Turns(p: Policy, s: State, reports: map<string, Status>, valid: set<string>) returns (s': State)
    requires Reaches(Next(p), EMPTY, s)
    ensures Reaches(Next(p), EMPTY, s') && s' == s.(host := s.host.(reports := reports, valid := valid))
  {
    s' := s.(host := s.host.(reports := reports, valid := valid));
    assert HealthStep(s, s');
    Then(Next(p), EMPTY, s, s');
  }

  /** An unmount whose scan finds no link that reads like its own, or fails to look,
      up to the removal of the mapping. */
  lemma RunScan(p: Policy, s: State, at: Place, others: set<Place>) returns (s': State)
    requires Quiet(p, s) && at in s.host.links && Lists(s.host, at, others)
    requires p.linkFails || forall g :: g in others && g in s.host.links ==> ReadBack(s.host.links[g]) != ReadBack(s.host.links[at])
    ensures
      var r := ReadBack(s.host.links[at]);
      Locking(p, s', UnmountUnmapping(r, at), r) && s'.host == s.host
  {
    var r := ReadBack(s.host.links[at]);
    s' := BeginScan(p, s, at, others);
    s' := ScanAll(p, s', r, at, others);
    s' := Advance(p, s', Move(UnmountUnmapping(r, at), s.host, Keep));
  }

  lemma EndUnmount(p: Policy, s: State, r: string, at: Place) returns (s': State)
    requires Locking(p, s, UnmountUnmapping(r, at), r)
    ensures Quiet(p, s') && s'.host == s.host.(mapped := s.host.mapped - {LockKey(r)}, links := s.host.links - {at})
  {
    var h := s.host.(mapped := s.host.mapped - {LockKey(r)});
    s' := Advance(p, s, Move(UnmountDeleting(r, at, true), h, Keep));
    s' := Advance(p, s', Move(Unlocking(r, at), h.(links := h.links - {at}), Keep));
    s' := Unlock(p, s', r, at);
  }

  /** A link left without its mapping refutes safety. */
  lemma Refutes(p: Policy, s: State, at: Place)
    requires Quiet(p, s) && at in s.host.links && LockKey(s.host.links[at]) !in s.host.mapped
    ensures !Safe(p)
  {
    assert Initial(EMPTY);
    assert Reachable(p, s);
  }

  lemma QuietEmpty(p: Policy)
    ensures Quiet(p, EMPTY)
  {
    Here(Next(p), EMPTY);
  }

  const FIRST := GlobalMount("a")

  /** Where the scan does not see what it must, an unmount comes to remove the mapping
      of another link. */
  lemma Unseen(p: Policy, x: string, y: string) returns (s: State, other: Place)
    requires Undermines(p, x, y) && (p.outside || p.linkFails || ReadBack(x) != ReadBack(y))
    ensures Locking(p, s, UnmountUnmapping(ReadBack(x), FIRST), ReadBack(x)) && LockKey(y) in s.host.mapped
    ensures other != FIRST && other in s.host.links && s.host.links[other] == y
  {
    QuietEmpty(p);
    other := if p.outside then Elsewhere("b") else GlobalMount("b");
    s := RunMount(p, EMPTY, x, FIRST);
    s := RunMount(p, s, y, other);
    s := RunScan(p, s, FIRST, if p.outside then {} else {other});
  }

  lemma UnseenUnsafe(p: Policy, x: string, y: string)
    requires Undermines(p, x, y) && (p.outside || p.linkFails || ReadBack(x) != ReadBack(y))
    ensures !Safe(p)
  {
    var s, other := Unseen(p, x, y);
    s := EndUnmount(p, s, ReadBack(x), FIRST);
    Refutes(p, s, other);
  }

  /** A link outside the scanned directory does not keep its mapping. */
  lemma OutsideUnsafe(p: Policy, x: string, y: string)
    requires Undermines(p, x, y) && p.outside
    ensures !Safe(p)
  {
    UnseenUnsafe(p, x, y);
  }

  /** Two spellings of one remote path do not protect each other's mapping. */
  lemma SpellingUnsafe(p: Policy, x: string, y: string)
    requires Undermines(p, x, y) && ReadBack(x) != ReadBack(y)
    ensures !Safe(p)
  {
    UnseenUnsafe(p, x, y);
  }

  /** A scan that fails to look at a link does not protect that link's mapping. */
  lemma LinkFailureUnsafe(p: Policy, x: string, y: string)
    requires Undermines(p, x, y) && p.linkFails
    ensures !Safe(p)
  {
    UnseenUnsafe(p, x, y);
  }

  /** A mount that replaces a stale mapping and fails takes it from the others. */
  lemma NewFailureUnsafe(p: Policy, r: string)
    requires r in p.remotes && p.newFails
    ensures !Safe(p)
  {
    QuietEmpty(p);
    var a, b := GlobalMount("a"), GlobalMount("b");
    var s := RunMount(p, EMPTY, r, a);
    s := Turns(p, s, map[LockKey(r) := Disconnected], {});
    var h := s.host;
    var h1 := h.(mapped := h.mapped - {LockKey(r)});
    s := BeginMount(p, s, r, b);
    s := Advance(p, s, Move(MountRemoving(r, b), h, Keep));
    s := Advance(p, s, Move(MountMapping(r, b, true), h1, Keep));
    s := Advance(p, s, Move(Unlocking(r, b), h1, Keep));
    s := Unlock(p, s, r, b);
    Refutes(p, s, a);
  }

  /** Exactly which deployments keep every unlocked link mapped: those in which no
      remote path is mounted whose mapping, once removed, may fail to be made again,
      and in which an unmount that could remove the mapping of a link finds that link,
      because all links are under the scanned directory, read back alike and are looked
      at without failure. */
  lemma SafeExactly(p: Policy)
    ensures Safe(p) <==> Good(p)
  {
    if Good(p) {
      GoodIsSafe(p);
    } else if r :| r in p.remotes && p.newFails {
      NewFailureUnsafe(p, r);
    } else {
      var x, y :| Undermines(p, x, y) && (p.outside || p.linkFails || ReadBack(x) != ReadBack(y));
      UnseenUnsafe(p, x, y);
    }
  }

  // ---------- spellings ----------

  /** The remote paths differ in case and in trailing backslashes only. */
  ghost predicate SameServer(a: string, b: string) {
    exists m, n :: 0 <= m <= |a| && 0 <= n <= |b| && SameUpTo(a, m, b, n)
  }

  ghost predicate SameUpTo(a: string, m: nat, b: string, n: nat)
    requires m <= |a| && n <= |b|
  {
    EqualFold(a[..m], b[..n]) && (forall i :: m <= i < |a| ==> a[i] == '\\') && forall i :: n <= i < |b| ==> b[i] == '\\'
  }

  lemma {:induction false} LowerTrimmed(s: string)
    ensures ToLower(TrimRight(s, Backslash)) == TrimRight(ToLower(s), Backslash)
  {
    if s != "" && Backslash(s[|s| - 1]) {
      var most := s[..|s| - 1];
      LowerTrimmed(most);
      assert ToLower(s)[..|s| - 1] == ToLower(most);
    }
  }

  lemma KeysMeet(a: string, b: string)
    ensures LockKey(a) == LockKey(b) <==> SameServer(a, b)
  {
    if LockKey(a) == LockKey(b) {
      var m := TrimRightCuts(a, Backslash);
      var n := TrimRightCuts(b, Backslash);
      assert forall i :: m <= i < |a| ==> a[i] == a[m..][i - m];
      assert forall i :: n <= i < |b| ==> b[i] == b[n..][i - n];
      assert SameUpTo(a, m, b, n);
    }
    if m, n :| 0 <= m <= |a| && 0 <= n <= |b| && SameUpTo(a, m, b, n) {
      TrimRightTail(a, m, Backslash);
      TrimRightTail(b, n, Backslash);
      LowerTrimmed(a[..m]);
      LowerTrimmed(b[..n]);
    }
  }

  /** No remote path has white space around it. */
  ghost predicate Unpadded(p: Policy) {
    forall r :: r in p.remotes ==> Tight(r, Space)
  }

  lemma ReadsBackWhole(p: Policy, r: string)
    requires Unpadded(p) && r in p.remotes
    ensures ReadBack(r) == r
  {
    TightStays(r, Space);
  }

  /** Two spellings that differ in case, or in trailing backslashes, do not protect each
      other: the scan compares them as they are, the mapping is one. */
  lemma CaseUnsafe(p: Policy, a: string, b: string)
    requires a in p.remotes && b in p.remotes && a != b && Tight(a, Space) && Tight(b, Space) && SameServer(a, b)
    ensures !Safe(p)
  {
    TightStays(a, Space);
    TightStays(b, Space);
    KeysMeet(a, b);
    SpellingUnsafe(p, a, b);
  }

  /** With links under the scanned directory only, calls that succeed and no padding,
      every link keeps its mapping exactly when each remote path is mounted under one
      spelling. */
  lemma OneSpellingExactly(p: Policy)
    requires !p.outside && !p.linkFails && !p.newFails && Unpadded(p)
    ensures Safe(p) <==> forall a, b :: a in p.remotes && b in p.remotes && SameServer(a, b) ==> a == b
  {
    if a, b :| a in p.remotes && b in p.remotes && SameServer(a, b) && a != b {
      CaseUnsafe(p, a, b);
    } else {
      forall a, b | Undermines(p, a, b) ensures ReadBack(a) == ReadBack(b) {
        ReadsBackWhole(p, a);
        KeysMeet(a, b);
      }
      GoodIsSafe(p);
    }
  }

  /** Every link was made by a mount of the deployment. */
  ghost predicate LinksFrom(p: Policy, s: State) {
    && (forall g :: g in s.host.links ==> s.host.links[g] in p.remotes)
    && (forall t :: IsMount(PcOf(s, t)) ==> PcOf(s, t).remote in p.remotes)
  }

  lemma LinksFromKept(p: Policy, s: State, s': State)
    requires LinksFrom(p, s) && Step(p, s, s')
    ensures LinksFrom(p, s')
  {
    if HealthStep(s, s') {
      assert forall t :: PcOf(s', t) == PcOf(s, t);
    } else {
      var t, m :| ThreadStep(p, s, t, m, s');
      MoveShape(p, s.host, PcOf(s, t), m);
      MountsFrom(p, s.host, PcOf(s, t), m);
      assert forall u :: u != t ==> PcOf(s', u) == PcOf(s, u);
    }
  }

  lemma MountsFrom(p: Policy, h: Host, pc: Pc, m: Move)
    requires CanMove(p, h, pc, m) && (IsMount(pc) ==> pc.remote in p.remotes)
    ensures IsMount(m.pc) ==> m.pc.remote in p.remotes
  {
  }

  lemma LinksAlwaysFrom(p: Policy, s: State)
    requires Reachable(p, s)
    ensures LinksFrom(p, s)
  {
    var s0 :| Initial(s0) && Reaches(Next(p), s0, s);
    var inv := (x: State) => LinksFrom(p, x);
    forall x, y | inv(x) && Next(p)(x, y) ensures inv(y) {
      LinksFromKept(p, x, y);
    }
    Kept(Next(p), inv, s0, s);
  }

  // ---------- healthy mappings are kept ----------

  /** The unmount that does not see another link takes its healthy mapping away. */
  lemma UnseenTakesHealthy(p: Policy, x: string, y: string)
    requires Undermines(p, x, y) && (p.outside || p.linkFails || ReadBack(x) != ReadBack(y))
    ensures !KeepsHealthy(p)
  {
    var s, other := Unseen(p, x, y);
    var key := LockKey(y);
    s := Turns(p, s, map[key := OK], {key});
    var m := Move(UnmountDeleting(ReadBack(x), FIRST, true), s.host.(mapped := s.host.mapped - {key}), Keep);
    Here(HealthyNext(p, key), s);
    assert Initial(EMPTY);
    assert TakesHealthy(p, s, s, 0, m, key);
  }

  lemma HealthyAdvance(p: Policy, key: string, a: State, s: State, m: Move) returns (s': State)
    requires Reaches(Next(p), EMPTY, s) && Reaches(HealthyNext(p, key), a, s) && CanMove(p, s.host, PcOf(s, 0), m)
    requires m.lock.Keep? && Healthy(s.host, key) && m.host == s.host
    ensures s' == Moved(p, s, 0, m) && Reaches(Next(p), EMPTY, s') && Reaches(HealthyNext(p, key), a, s')
  {
    s' := Advance(p, s, m);
    assert ThreadStep(p, s, 0, m, s');
    Then(HealthyNext(p, key), a, s, s');
  }

  /** A mount that fails to check a valid path takes its healthy mapping away. */
  lemma FailedCheckTakesHealthy(p: Policy, r: string)
    requires r in p.remotes && p.checkFails
    ensures !KeepsHealthy(p)
  {
    QuietEmpty(p);
    var key, at := LockKey(r), GlobalMount("b");
    var s := RunMount(p, EMPTY, r, FIRST);
    s := Turns(p, s, map[key := OK], {key});
    var a := BeginMount(p, s, r, at);
    Here(HealthyNext(p, key), a);
    s := HealthyAdvance(p, key, a, a, Move(MountChecking(r, at), a.host, Keep));
    s := HealthyAdvance(p, key, a, s, Move(MountRemoving(r, at), a.host, Keep));
    assert Initial(EMPTY);
    assert TakesHealthy(p, a, s, 0, Move(MountMapping(r, at, true), s.host.(mapped := s.host.mapped - {key}), Keep), key);
  }

  /** Exactly when a healthy mapping is removed only by the unmount of the last link
      that needs it: when the scan sees every such link, and the check of a valid path
      does not fail, or nothing is mounted at all. */
  lemma HealthyKeptExactly(p: Policy)
    ensures KeepsHealthy(p) <==> ScanSees(p) && (p.checkFails ==> NoRemotes(p))
  {
    if x, y :| Undermines(p, x, y) && (p.outside || p.linkFails || ReadBack(x) != ReadBack(y)) {
      UnseenTakesHealthy(p, x, y);
    } else if r :| r in p.remotes && p.checkFails {
      FailedCheckTakesHealthy(p, r);
    } else {
      forall a, s, t, m, key | TakesHealthy(p, a, s, t, m, key)
        ensures PcOf(s, t).UnmountUnmapping? && NoOther(s.host, PcOf(s, t).remote, PcOf(s, t).at)
      {
        HealthyIsKept(p, a, s, t, m, key);
      }
    }
  }

  // ---------- the mounter itself ----------

  lemma ReachableOn(p: Policy, s: State, s': State)
    requires Reachable(p, s) && Reaches(Next(p), s, s')
    ensures Reachable(p, s')
  {
    var s0 :| Initial(s0) && Reaches(Next(p), s0, s);
    Both(Next(p), s0, s, s');
  }

  datatype Outcome = Done | Failed | StillWaiting

  /** strings.Replace(source, "/", "\\", -1) */
  function Backslashed(source: string): string {
    seq(|source|, i requires 0 <= i < |source| => if source[i] == '/' then '\\' else source[i])
  }

  lemma TurnedAt(source: string, i: nat)
    requires i < |source| && source[i] == '/' && forall k :: 0 <= k < i ==> source[k] != '/'
    ensures Backslashed(source) == source[..i] + "\\" + Backslashed(source[i + 1..])
  {
  }

  /** Cut at its slashes, the source is what the result is cut at backslashes. */
  lemma {:induction false} SlashesTurned(source: string)
    ensures Backslashed(source) == Join(Split(source, "/"), "\\")
    decreases |source|
  {
    var i := IndexOf(source, "/");
    forall k | 0 <= k < i ensures source[k] != '/' {
      assert !HasAt(source, "/", k);
    }
    if i < |source| {
      var rest := source[i + 1..];
      SlashesTurned(rest);
      JoinFirst(source[..i], Split(rest, "/"), "\\");
      assert source[i] == '/' && Split(source, "/") == [source[..i]] + Split(rest, "/");
      TurnedAt(source, i);
    } else {
      JoinOne(source, "\\");
    }
  }

  /** Between two states another link read back as the remote path. */
  ghost predicate Doubled(p: Policy, start: State, now: State, remote: string, at: Place) {
    exists c, g :: Reaches(Next(p), start, c) && Reaches(Next(p), c, now)
      && g != at && g in c.host.links && ReadBack(c.host.links[g]) == remote
  }

  /** Between two states another link was spelled exactly as the remote path. */
  ghost predicate SpelledTwice(p: Policy, start: State, now: State, remote: string, at: Place) {
    exists c, g :: Reaches(Next(p), start, c) && Reaches(Next(p), c, now)
      && g != at && g in c.host.links && c.host.links[g] == remote
  }

  lemma SpelledAsRead(p: Policy, start: State, now: State, remote: string, at: Place)
    requires Unpadded(p) && Reachable(p, start) && Doubled(p, start, now, remote, at)
    ensures SpelledTwice(p, start, now, remote, at)
  {
    var c, g :| Reaches(Next(p), start, c) && Reaches(Next(p), c, now)
      && g != at && g in c.host.links && ReadBack(c.host.links[g]) == remote;
    ReachableOn(p, start, c);
    LinksAlwaysFrom(p, c);
    ReadsBackWhole(p, c.host.links[g]);
  }

  /** Between two states the remote path was without mapping. */
  ghost predicate Unmapped(p: Policy, start: State, now: State, remote: string) {
    exists c :: Reaches(Next(p), start, c) && Reaches(Next(p), c, now) && LockKey(remote) !in c.host.mapped
  }

  /** Between two states no link but the one at `at` needed the mapping. */
  ghost predicate LastLink(p: Policy, start: State, now: State, remote: string, at: Place) {
    exists c :: Reaches(Next(p), start, c) && Reaches(Next(p), c, now) && NoOther(c.host, remote, at)
  }

  lemma HappenedBefore(p: Policy, s0: State, start: State, mid: State, now: State, remote: string, at: Place)
    requires Reaches(Next(p), s0, start) && Reaches(Next(p), mid, now)
    ensures Doubled(p, start, mid, remote, at) ==> Doubled(p, s0, now, remote, at)
    ensures Unmapped(p, start, mid, remote) ==> Unmapped(p, s0, now, remote)
    ensures LastLink(p, start, mid, remote, at) ==> LastLink(p, s0, now, remote, at)
  {
    if Doubled(p, start, mid, remote, at) {
      var c, g :| Reaches(Next(p), start, c) && Reaches(Next(p), c, mid)
        && g != at && g in c.host.links && ReadBack(c.host.links[g]) == remote;
      Both(Next(p), s0, start, c);
      Both(Next(p), c, mid, now);
    }
    if Unmapped(p, start, mid, remote) {
      var c :| Reaches(Next(p), start, c) && Reaches(Next(p), c, mid) && LockKey(remote) !in c.host.mapped;
      Both(Next(p), s0, start, c);
      Both(Next(p), c, mid, now);
    }
    if LastLink(p, start, mid, remote, at) {
      var c :| Reaches(Next(p), start, c) && Reaches(Next(p), c, mid) && NoOther(c.host, remote, at);
      Both(Next(p), s0, start, c);
      Both(Next(p), c, mid, now);
    }
  }

  /** winMounter on a node where other calls run between any two of its host
      operations. A foreign call succeeds or fails as it likes, unless the host is
      `reliable`; a call that waits for its lock is watched for `patience` rounds. */
  class WinMounter {
    const policy: Policy
    const reliable: bool
    var state: State
    var removals: nat               // mappings that calls made here have removed

    constructor (policy: Policy, reliable: bool)
      ensures this.policy == policy && this.reliable == reliable && state == EMPTY && removals == 0 && Valid()
    {
      this.policy, this.reliable := policy, reliable;
      state, removals := EMPTY, 0;
      new;
      Here(Next(policy), EMPTY);
      assert Initial(EMPTY);
    }

    ghost predicate Valid()
      reads this
    {
      Reachable(policy, state)
    }

    /** The run from `start` has come this far. */
    ghost predicate Since(start: State)
      reads this
    {
      Valid() && Reaches(Next(policy), start, state)
    }

    function At(t: Thread): Pc
      reads this
    {
      PcOf(state, t)
    }

    /** Any number of steps of other calls: what callers may count on is the contract. */
    method Others(t: Thread, ghost start: State)
      requires Since(start)
      modifies this`state
      ensures Since(start) && At(t) == old(At(t))
    {
    }

    /** One move of this call. */
    method Do(t: Thread, m: Move, ghost start: State)
      requires Since(start) && CanMove(policy, state.host, At(t), m)
      requires m.lock.Take? ==> HoldsLock(m.pc) && SlotOf(policy, m.pc.remote) !in state.locks
      requires m.lock.Give? ==> HoldsLock(At(t))
      modifies this
      ensures Since(start) && state == Moved(policy, old(state), t, m)
      ensures removals == old(removals) + if old(state.host.mapped) <= m.host.mapped then 0 else 1
    {
      ghost var s := state;
      removals := removals + if state.host.mapped <= m.host.mapped then 0 else 1;
      state := Moved(policy, state, t, m);
      assert ThreadStep(policy, s, t, m, state);
      Here(Next(policy), s);
      Then(Next(policy), s, s, state);
      ReachableOn(policy, s, state);
      Both(Next(policy), start, s, state);
    }

    /** One move of this call that leaves the locks alone, then the others. */
    method Go(t: Thread, pc: Pc, host: Host, ghost start: State)
      requires Since(start) && CanMove(policy, state.host, At(t), Move(pc, host, Keep))
      modifies this
      ensures Since(start) && At(t) == pc
      ensures removals == old(removals) + if old(state.host.mapped) <= host.mapped then 0 else 1
    {
      Do(t, Move(pc, host, Keep), start);
      Others(t, start);
    }

    /** remotePathLocks.LockKey, then the others. */
    method LockRemote(t: Thread, pc: Pc, patience: nat, ghost start: State) returns (got: bool)
      requires Since(start) && HoldsLock(pc) && CanMove(policy, state.host, At(t), Move(pc, state.host, Take))
      requires At(t).MountEntered? || At(t).UnmountRead?
      modifies this
      ensures Since(start) && At(t) == (if got then pc else old(At(t))) && removals == old(removals)
      ensures !got ==> SlotOf(policy, pc.remote) in state.locks
    {
      var rounds := 0;
      while SlotOf(policy, pc.remote) in state.locks && rounds < patience
        invariant Since(start) && At(t) == old(At(t)) && removals == old(removals)
      {
        Others(t, start);
        rounds := rounds + 1;
      }
      got := SlotOf(policy, pc.remote) !in state.locks;
      if got {
        Do(t, Move(pc, state.host, Take), start);
        Others(t, start);
      }
    }

    /** GetSmbGlobalMappingStatus; an error reads as a missing mapping. */
    method GetStatus(remote: string) returns (status: Status)
      ensures status == NotFound || status == Reported(state.host, LockKey(remote))
      ensures reliable ==> status == Reported(state.host, LockKey(remote))
    {
      var failed: bool := *;
      status := if failed && !reliable then NotFound else Reported(state.host, LockKey(remote));
    }

    /** The path check; an error counts as an invalid path. */
    method PathValid(remote: string) returns (valid: bool)
      ensures valid ==> LockKey(remote) in state.host.valid
      ensures !valid ==> LockKey(remote) !in state.host.valid || (policy.checkFails && !reliable)
    {
      var failed: bool := *;
      valid := LockKey(remote) in state.host.valid && !(failed && policy.checkFails && !reliable);
    }

    /** With the lock held, either the remote path ends up mapped and the call is
        ready to publish its link, or it gives up. A mapping it removes it has itself
        found disconnected or its path not valid, and on a reliable host such a mapping
        goes; one that it finds OK and whose path it finds valid it leaves in place. */
    method EnsureSMBGlobalMappingLocked(t: Thread, remote: string, at: Place, ghost start: State) returns (ok: bool, ghost looked: State)
      requires Since(start) && At(t) == MountLocked(remote, at)
      modifies this
      ensures Since(start) && At(t) == if ok then MountLinking(remote, at) else Unlocking(remote, at)
      ensures ok && Good(policy) ==> LockKey(remote) in state.host.mapped
      ensures reliable ==> ok
      ensures Reaches(Next(policy), start, looked) && Reaches(Next(policy), looked, state)
      ensures PcOf(looked, t) == MountLocked(remote, at) || PcOf(looked, t) == MountChecking(remote, at)
      ensures old(removals) <= removals <= old(removals) + 1
      ensures removals != old(removals) ==> BadCheck(policy, looked, t, remote, at)
      ensures !policy.checkFails && Healthy(looked.host, LockKey(remote)) ==> removals == old(removals)
      ensures reliable ==> (PcOf(looked, t).MountChecking? <==> old(Reported(state.host, LockKey(remote))) == OK)
      ensures reliable && BadCheck(policy.(checkFails := false), looked, t, remote, at) ==> Unmapped(policy, looked, state, remote)
    {
      var remove := false;
      ok, looked := false, state;
      Here(Next(policy), looked);
      var status := GetStatus(remote);
      if status == Disconnected {
        remove := true;
        Go(t, MountRemoving(remote, at), state.host, looked);
      } else if status == OK {
        Go(t, MountChecking(remote, at), state.host, start);
        var valid := PathValid(remote);
        looked := state;
        Here(Next(policy), looked);
        if valid {
          Go(t, MountLinking(remote, at), state.host, looked);
          ok := true;
        } else {
          remove := true;
          Go(t, MountRemoving(remote, at), state.host, looked);
        }
      } else {
        Go(t, MountMapping(remote, at, false), state.host, looked);
      }
      if !ok {
        ok := Remap(t, remote, at, remove, looked);
      }
      Both(Next(policy), start, looked, state);
      if Good(policy) {
        ReachableInv(policy, state);
        assert PcOk(policy, state.host, At(t));
      }
    }

    /** Removes the old mapping if that was decided, and makes a new one. */
    method Remap(t: Thread, remote: string, at: Place, remove: bool, ghost start: State) returns (ok: bool)
      requires Since(start) && At(t) == if remove then MountRemoving(remote, at) else MountMapping(remote, at, false)
      modifies this
      ensures Since(start) && At(t) == if ok then MountLinking(remote, at) else Unlocking(remote, at)
      ensures old(removals) <= removals <= old(removals) + (if remove then 1 else 0) && (reliable ==> ok)
      ensures reliable && remove ==> Unmapped(policy, start, state, remote)
    {
      ghost var without := start;
      Here(Next(policy), start);
      if remove {
        var removed: bool := *;
        if !removed && !reliable {
          Go(t, Unlocking(remote, at), state.host, start);
          return false;
        }
        Do(t, Move(MountMapping(remote, at, true), state.host.(mapped := state.host.mapped - {LockKey(remote)}), Keep), start);
        without := state;
        Here(Next(policy), without);
        Others(t, without);
      }
      ok := *;
      ok := ok || reliable || (remove && !policy.newFails);
      if ok {
        Go(t, MountLinking(remote, at), state.host.(mapped := state.host.mapped + {LockKey(remote)}), without);
      } else {
        Go(t, Unlocking(remote, at), state.host, without);
      }
      Both(Next(policy), start, without, state);
    }

    /** A mount that succeeds published its link at some moment of its run, with
        the mapping in place; on a reliable host it fails only where it met a link. It
        removes a mapping only after finding it disconnected or its path not valid. */
    method SMBMount(t: Thread, source: string, at: Place, patience: nat) returns (o: Outcome, ghost seen: State)
      requires Valid() && At(t) == Idle
      requires source != "" ==> Allows(policy, Backslashed(source), at)
      modifies this
      ensures Since(old(state)) && (o == StillWaiting || At(t) == Idle)
      ensures o == StillWaiting ==>
        At(t) == MountEntered(Backslashed(source), at) && SlotOf(policy, Backslashed(source)) in state.locks
      ensures source == "" ==> o == Failed && state == old(state)
      ensures o == Done ==>
        && Reaches(Next(policy), old(state), seen) && Reaches(Next(policy), seen, state)
        && at in seen.host.links && seen.host.links[at] == Backslashed(source)
        && (Good(policy) ==> LockKey(Backslashed(source)) in seen.host.mapped)
      ensures reliable && o == Failed && source != "" ==>
        && Reaches(Next(policy), old(state), seen) && Reaches(Next(policy), seen, state)
        && PcOf(seen, t) == MountLinking(Backslashed(source), at) && at in seen.host.links
      ensures removals == old(removals) || Looked(policy, old(state), state, t, Backslashed(source), at)
    {
      ghost var start := state;
      seen := state;
      Here(Next(policy), start);
      if source == "" {
        return Failed, seen;
      }
      var remote := Backslashed(source);
      Go(t, MountEntered(remote, at), state.host, start);
      var got := LockRemote(t, MountLocked(remote, at), patience, start);
      if !got {
        return StillWaiting, seen;
      }
      ghost var looked;
      var ok;
      ok, looked := EnsureSMBGlobalMappingLocked(t, remote, at, start);
      ghost var linking := state;
      o, seen := PublishLink(t, remote, at, ok);
      Both(Next(policy), start, looked, linking);
      Both(Next(policy), start, linking, seen);
      Both(Next(policy), start, linking, state);
      Both(Next(policy), looked, linking, state);
    }

    /** os.Symlink, if the mapping was ensured, and the release of the lock. */
    method PublishLink(t: Thread, remote: string, at: Place, ok: bool) returns (o: Outcome, ghost seen: State)
      requires Valid() && At(t) == if ok then MountLinking(remote, at) else Unlocking(remote, at)
      modifies this
      ensures Since(old(state)) && At(t) == Idle && removals == old(removals)
      ensures Reaches(Next(policy), old(state), seen) && Reaches(Next(policy), seen, state)
      ensures o == Done || (o == Failed && seen == old(state))
      ensures o == Done ==> ok && at in seen.host.links && seen.host.links[at] == remote && seen.host.mapped == old(state.host.mapped)
      ensures reliable && ok ==> (o == Done <==> at !in old(state.host.links))
    {
      seen := state;
      Here(Next(policy), seen);
      o := Failed;
      if ok {
        var linked: bool := *;
        linked := (linked || reliable) && at !in state.host.links;
        Do(t, Move(Unlocking(remote, at), if linked then state.host.(links := state.host.links[at := remote]) else state.host, Keep), seen);
        o := if linked then Done else Failed;
      }
      ghost var last := Unlock(t, remote, at, seen);
      if o == Done {
        seen := last;
      }
    }

    /** The deferred release of the lock, which nothing comes in between of. */
    method Unlock(t: Thread, remote: string, at: Place, ghost start: State) returns (ghost seen: State)
      requires Since(start) && At(t) == Unlocking(remote, at)
      modifies this
      ensures Since(start) && At(t) == Idle && seen == old(state) && removals == old(removals)
      ensures Reaches(Next(policy), start, seen) && Reaches(Next(policy), seen, state)
    {
      seen := state;
      Here(Next(policy), seen);
      Do(t, Move(Idle, state.host, Give), seen);
      Both(Next(policy), start, seen, state);
    }

    /** CheckForDuplicateSMBMounts: reads the listed entries one by one while
        other calls change the links of other remote paths. */
    method CheckForDuplicates(t: Thread, remote: string, at: Place, ghost start: State) returns (dup: bool)
      requires Since(start) && At(t) == UnmountLocked(remote, at)
      modifies this
      ensures Since(start) && At(t) == if dup then UnmountDeleting(remote, at, false) else UnmountUnmapping(remote, at)
      ensures !dup && ScanSees(policy) ==> NoOther(state.host, remote, at)
      ensures removals == old(removals) && (reliable && dup ==> Doubled(policy, start, state, remote, at))
      ensures reliable && dup && Reachable(policy, start) && Unpadded(policy) ==> SpelledTwice(policy, start, state, remote, at)
    {
      var listed: bool := *;
      if !listed && !reliable {               // no verdict: the mapping is left alone
        Go(t, UnmountDeleting(remote, at, false), state.host, start);
        return true;
      }
      var todo := (set g | g in state.host.links.Keys && g.GlobalMount? && g != at);
      Go(t, UnmountScanning(remote, at, todo), state.host, start);
      while todo != {}
        invariant Since(start) && At(t) == UnmountScanning(remote, at, todo) && removals == old(removals)
        decreases todo
      {
        var g :| g in todo;
        var missed: bool := *;
        var found := g in state.host.links && ReadBack(state.host.links[g]) == remote && !(missed && policy.linkFails && !reliable);
        var pc := if found then UnmountDeleting(remote, at, false) else UnmountScanning(remote, at, todo - {g});
        assert ScanEntry(policy, state.host, At(t), g, Move(pc, state.host, Keep));
        ghost var c := state;
        Here(Next(policy), c);
        Go(t, pc, state.host, c);
        Both(Next(policy), start, c, state);
        if found {
          if Reachable(policy, start) && Unpadded(policy) {
            assert reliable ==> Doubled(policy, start, state, remote, at);
            SpelledAsRead(policy, start, state, remote, at);
          }
          return true;
        }
        todo := todo - {g};
      }
      Go(t, UnmountUnmapping(remote, at), state.host, start);
      if ScanSees(policy) {
        ReachableCalls(policy, state);
        assert PcOk(policy, state.host, At(t));
      }
      dup := false;
    }

    /** Rmdir without the lock, when the link could not be read. */
    method DeleteUnread(t: Thread, at: Place, ghost start: State) returns (o: Outcome)
      requires Since(start) && At(t) == UnmountEntered(at)
      modifies this
      ensures Since(start) && At(t) == Idle && removals == old(removals)
      ensures if o == Done then at !in state.host.links else o == Failed && !reliable
    {
      var deleted: bool := *;
      deleted := deleted || reliable;
      Go(t, UnmountUnlocked(at), state.host, start);
      Do(t, Move(Idle, if deleted then state.host.(links := state.host.links - {at}) else state.host, Keep), start);
      o := if deleted then Done else Failed;
    }

    /** An unmount that succeeds deleted its link at some moment of its run; on a
        reliable host it does not fail, and the mapping of the link it read goes unless
        another link was seen. */
    method Unmount(t: Thread, at: Place, patience: nat) returns (o: Outcome, ghost read: State, ghost seen: State)
      requires Valid() && At(t) == Idle
      modifies this
      ensures Since(old(state)) && (o == StillWaiting || At(t) == Idle)
      ensures Reaches(Next(policy), old(state), read) && Reaches(Next(policy), read, state) && PcOf(read, t) == UnmountEntered(at)
      ensures o == Done ==> Reaches(Next(policy), read, seen) && Reaches(Next(policy), seen, state) && at !in seen.host.links
      ensures o == StillWaiting ==>
        && at in read.host.links && At(t) == UnmountRead(ReadBack(read.host.links[at]), at)
        && SlotOf(policy, At(t).remote) in state.locks
      ensures reliable ==> o != Failed
      ensures reliable && o == Done && at in read.host.links ==>
        var remote := ReadBack(read.host.links[at]);
        Doubled(policy, read, state, remote, at) || Unmapped(policy, read, state, remote)
      ensures at !in read.host.links ==> removals == old(removals)
      ensures ScanSees(policy) && removals != old(removals) ==> exists remote :: LastLink(policy, read, state, remote, at)
    {
      ghost var start := state;
      Here(Next(policy), start);
      Go(t, UnmountEntered(at), state.host, start);
      read, seen := state, state;
      Here(Next(policy), read);
      var readable: bool := *;
      if !(readable || reliable) || at !in state.host.links {
        o := DeleteUnread(t, at, read);
        Here(Next(policy), state);
        Both(Next(policy), start, read, state);
        return o, read, state;
      }
      var remote := ReadBack(state.host.links[at]);
      Go(t, UnmountRead(remote, at), state.host, read);
      var got := LockRemote(t, UnmountLocked(remote, at), patience, read);
      if !got {
        Both(Next(policy), start, read, state);
        return StillWaiting, read, seen;
      }
      o, seen := UnmountLockedLink(t, remote, at, read);
      Both(Next(policy), start, read, state);
    }

    /** RemoveSmbGlobalMapping, whose failure is only logged, then the others. */
    method RemoveMapping(t: Thread, remote: string, at: Place, ghost start: State) returns (unmapped: bool)
      requires Since(start) && At(t) == UnmountUnmapping(remote, at)
      modifies this
      ensures Since(start) && At(t) == UnmountDeleting(remote, at, unmapped)
      ensures old(removals) <= removals <= old(removals) + 1
      ensures reliable ==> Unmapped(policy, start, state, remote)
    {
      unmapped := *;
      unmapped := unmapped || reliable;
      Do(t, Move(UnmountDeleting(remote, at, unmapped),
                 if unmapped then state.host.(mapped := state.host.mapped - {LockKey(remote)}) else state.host, Keep), start);
      ghost var c := state;
      Here(Next(policy), c);
      Others(t, c);
      Both(Next(policy), start, c, state);
    }

    /** The part of Unmount that runs under the lock. On a reliable host the mapping goes
        unless another link was seen. */
    method UnmountLockedLink(t: Thread, remote: string, at: Place, ghost start: State) returns (o: Outcome, ghost seen: State)
      requires Since(start) && At(t) == UnmountLocked(remote, at)
      modifies this
      ensures Since(start) && At(t) == Idle && o != StillWaiting
      ensures Reaches(Next(policy), start, seen) && Reaches(Next(policy), seen, state)
      ensures o == Done ==> at !in seen.host.links
      ensures reliable ==> o == Done
      ensures ScanSees(policy) && removals != old(removals) ==> LastLink(policy, start, state, remote, at)
      ensures reliable ==> Doubled(policy, start, state, remote, at) || Unmapped(policy, start, state, remote)
    {
      var dup := CheckForDuplicates(t, remote, at, start);
      ghost var scanned := state;
      Here(Next(policy), scanned);
      Here(Next(policy), start);
      var unmapped: bool, deleted: bool := false, *;
      if !dup {
        unmapped := RemoveMapping(t, remote, at, scanned);
      }
      ghost var removed := state;
      deleted := deleted || reliable || (unmapped && !policy.linkFails);
      Here(Next(policy), removed);
      Do(t, Move(Unlocking(remote, at), if deleted then state.host.(links := state.host.links - {at}) else state.host, Keep), removed);
      seen := Unlock(t, remote, at, removed);
      Both(Next(policy), start, scanned, removed);
      Both(Next(policy), start, removed, seen);
      Both(Next(policy), start, removed, state);
      Both(Next(policy), scanned, removed, state);
      HappenedBefore(policy, start, start, scanned, state, remote, at);
      HappenedBefore(policy, start, scanned, removed, state, remote, at);
      o := if deleted then Done else Failed;
    }
  }
}
