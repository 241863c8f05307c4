/** A share's quota under CreateVolume and ControllerExpandVolume: the resize
    routes, the retried requests one call makes, and the calls of several callers
    at once. */
module ShareQuota {
  import opened Numbers
  import opened Results
  import opened Runs

  const LIMIT := TWO31

  // ---------- the three routes ----------

  /** The data plane client, the driver's own management request, and the
      management client. */
  datatype Route = DataPlane | Driver | Management

  /** The size the route compares the current quota with. */
  function Compared(route: Route, size: int): int {
    if route == Management then size else Int32(size)
  }

  /** The quota after a resize whose requests succeed. */
  function NewQuota(route: Route, old_: int, size: int): int {
    if old_ >= Compared(route, size) then old_ else Int32(size)
  }

  predicate IsQuota(q: int) {
    0 <= q < LIMIT
  }

  /** The routes all resize to the larger of the old quota and the requested size
      exactly for sizes below 2^31 GiB. */
  lemma RoutesAgreeExactly(size: nat)
    ensures (forall route: Route, q :: IsQuota(q) ==> NewQuota(route, q, size) == Max(q, size)) <==> size < LIMIT
  {
    if size < LIMIT {
      assert Int32(size) == size;
    } else {
      assert IsQuota(0) && NewQuota(DataPlane, 0, size) < Max(0, size);
    }
  }

  /** Two routes never shrink a share, whatever the size. The management client,
      comparing before it converts, does so for sizes that wrap to less than the
      largest quota. */
  lemma ShrinksExactly(route: Route, size: nat)
    ensures (forall q :: IsQuota(q) ==> q <= NewQuota(route, q, size))
            <==> route != Management || size < LIMIT || Int32(size) == LIMIT - 1
  {
    if route == Management && LIMIT <= size && Int32(size) != LIMIT - 1 {
      assert IsQuota(LIMIT - 1) && NewQuota(route, LIMIT - 1, size) < LIMIT - 1;
    }
  }

  // ---------- callers at once ----------

  type Caller = nat

  datatype Call =
    | Checking(size: int)                    // CreateVolume, before its capacity check
    | Probing(size: int)                     // CreateFileShare, before asking for the share
    | Creating(size: int)                    // it was not found, or the question failed
    | Reading(size: int)                     // ResizeFileShare, before reading the quota
    | Setting(size: int)                     // the quota read was smaller
    | Modifying(route: Route)                // ModifyFileShare, which changes IOPS or bandwidth
    | Rewriting(seen: int)                   // it has read the whole share, to write all of it back

  /** The share's quota while it exists, the calls under way, and the size the last
      step reported to its caller as provided. */
  datatype State = State(quota: Option<int>, calls: map<Caller, Call>, reported: Option<int>)

  /** Which calls may overlap, none of which is serialised: expansions with each
      other, an expansion with a modification by the management client, either of them
      with the deletion of the share and its making anew, creations with each other (two
      volumes that name one share). A creation may always overlap deletions and one of
      each other kind. Then whether CreateVolume may skip its capacity check (the data
      plane API without request secrets), whether sizes of 2^31 GiB and more are asked
      for, and whether the management client may resize. */
  datatype Policy = Policy(
    expansions: bool, modifying: bool, remaking: bool, restoring: bool, creations: bool,
    unchecked: bool, huge: bool, management: bool)

  predicate Makes(c: Call) {
    c.Checking? || c.Probing? || c.Creating?
  }

  predicate Expands(c: Call) {
    c.Reading? || c.Setting?
  }

  /** A modification that writes the quota; the data plane's leaves it alone. */
  predicate Rewrites(c: Call) {
    c.Rewriting? || c == Modifying(Management)
  }

  predicate Asked(p: Policy, size: int) {
    0 < size && (size < LIMIT || p.huge)
  }

  /** The share as a request leaves it, the call after it, None once it is over, and
      the size that it then reports as provided. */
  datatype Move = Move(quota: Option<int>, next: Option<Call>, reported: Option<int>)

  /** A request that fails has taken effect or not, and is retried or not. */
  ghost predicate Failed(was: Option<int>, would: Option<int>, again: Call, m: Move) {
    m.reported == None && (m.quota == was || m.quota == would) && (m.next == Some(again) || m.next == None)
  }

  /** The call goes on, or is over, and has changed nothing. */
  function Goes(q: Option<int>, next: Option<Call>): Move {
    Move(q, next, None)
  }

  function Provided(q: Option<int>, size: int): Move {
    Move(q, None, Some(size))
  }

  /** The quota was read: enough as the route compares it, or to be set. */
  ghost predicate ReadBy(route: Route, q: Option<int>, size: int, m: Move) {
    q.Some? && m == if q.value >= Compared(route, size) then Provided(q, size) else Goes(q, Some(Setting(size)))
  }

  ghost predicate Moves(p: Policy, q: Option<int>, c: Call, m: Move) {
    match c
    case Checking(size) =>
      || m == Goes(q, None)                                                    // the check fails
      || (p.unchecked && m == Goes(q, Some(Probing(size))))
      || ((q.None? || q.value >= size) && m == Goes(q, Some(Probing(size))))
    case Probing(size) =>
      || (q.Some? && m == Provided(q, size))
      || m == Goes(q, Some(Creating(size)))
    case Creating(size) =>
      if q.Some? then m == Provided(q, size) || Failed(q, q, Probing(size), m)
      else m == Provided(Some(Int32(size)), size) || Failed(q, Some(Int32(size)), Probing(size), m)
    case Reading(size) =>
      || Failed(q, q, c, m)
      || ReadBy(Driver, q, size, m)
      || (p.management && ReadBy(Management, q, size, m))
    case Setting(size) =>
      if q.None? then Failed(q, q, Reading(size), m)
      else m == Provided(Some(Int32(size)), size) || Failed(q, Some(Int32(size)), Reading(size), m)
    case Modifying(route) =>
      || Failed(q, q, c, m)
      || (route == Management && q.Some? && m == Goes(q, Some(Rewriting(q.value))))
    case Rewriting(seen) =>
      if q.None? then Failed(q, q, Modifying(Management), m)
      else m == Goes(Some(seen), None) || Failed(q, Some(seen), Modifying(Management), m)
  }

  function After(s: State, i: Caller, m: Move): State {
    State(m.quota, if m.next.Some? then s.calls[i := m.next.value] else s.calls - {i}, m.reported)
  }

  ghost predicate NoExpansion(s: State) {
    forall i :: i in s.calls ==> !Expands(s.calls[i])
  }

  ghost predicate NoRewrite(s: State) {
    forall i :: i in s.calls ==> !Rewrites(s.calls[i])
  }

  ghost predicate NoCreation(s: State) {
    forall i :: i in s.calls ==> !Makes(s.calls[i])
  }

  ghost predicate MayBegin(p: Policy, s: State, c: Call) {
    match c
    case Checking(size) => Asked(p, size) && (p.creations || NoCreation(s))
    case Reading(size) => Asked(p, size) && (p.expansions || NoExpansion(s)) && (p.modifying || NoRewrite(s))
    case Modifying(route) => route != Management || p.modifying || NoExpansion(s)
    case _ => false
  }

  ghost predicate Begins(p: Policy, s: State, s': State) {
    exists i: Caller, c: Call :: i !in s.calls && MayBegin(p, s, c) && s' == State(s.quota, s.calls[i := c], None)
  }

  ghost predicate Deletes(p: Policy, s: State, s': State) {
    && (p.remaking || NoExpansion(s)) && (p.restoring || NoRewrite(s))
    && s' == State(None, s.calls, None)
  }

  ghost predicate Step(p: Policy, s: State, s': State) {
    || Begins(p, s, s')
    || Deletes(p, s, s')
    || exists i: Caller, m: Move :: i in s.calls && Moves(p, s.quota, s.calls[i], m) && s' == After(s, i, m)
  }

  ghost function Next(p: Policy): (State, State) -> bool {
    (s, s') => Step(p, s, s')
  }

  ghost predicate Reachable(p: Policy, s: State) {
    exists q :: Starts(q) && Reaches(Next(p), State(q, map[], None), s)
  }

  predicate Starts(q: Option<int>) {
    q.Some? ==> IsQuota(q.value)
  }

  /** While the share exists its quota never falls. */
  ghost predicate NeverShrinks(p: Policy) {
    forall s, s' :: Reachable(p, s) && Step(p, s, s') && s.quota.Some? && s'.quota.Some? ==> s.quota.value <= s'.quota.value
  }

  /** What a call reports as provided, the share has. */
  ghost predicate Provides(p: Policy) {
    forall s :: Reachable(p, s) && s.reported.Some? ==> s.quota.Some? && s.reported.value <= s.quota.value
  }

  // ---------- what keeps a quota ----------

  /** No call goes by an old quota. */
  predicate Fresh(p: Policy) {
    !p.expansions && !p.modifying && !p.remaking && !p.restoring
  }

  predicate Steady(p: Policy) {
    Fresh(p) && !(p.management && p.huge)
  }

  predicate Careful(p: Policy) {
    Fresh(p) && !p.creations && !p.unchecked && !p.huge
  }

  /** What a call knows about the share whatever the others do. */
  ghost predicate Knows(p: Policy, q: Option<int>, c: Call) {
    && (Makes(c) || Expands(c) ==> Asked(p, c.size))
    && (c.Setting? ==> q.Some? && q.value < Int32(c.size))
    && (c.Rewriting? ==> q == Some(c.seen))
    && ((c.Probing? || c.Creating?) && Careful(p) ==> q.None? || q.value >= c.size)
  }

  /** The two calls may be under way together. */
  predicate Together(p: Policy, c: Call, d: Call) {
    && !(Expands(c) && Expands(d)) && !(Expands(c) && Rewrites(d)) && !(Rewrites(c) && Expands(d))
    && (Careful(p) ==> !(Makes(c) && Makes(d)))
  }

  ghost predicate Inv(p: Policy, s: State) {
    && (forall i, j :: i in s.calls && j in s.calls && i != j ==> Together(p, s.calls[i], s.calls[j]))
    && (forall i :: i in s.calls ==> Knows(p, s.quota, s.calls[i]))
    && (Careful(p) && s.reported.Some? ==> s.quota.Some? && s.reported.value <= s.quota.value)
  }

  lemma MoveKeeps(p: Policy, q: Option<int>, c: Call, m: Move)
    requires Steady(p) && Knows(p, q, c) && Moves(p, q, c, m)
    ensures m.next.Some? ==> Knows(p, m.quota, m.next.value)
    ensures m.next.Some? ==> forall d :: Together(p, c, d) ==> Together(p, m.next.value, d) && Together(p, d, m.next.value)
    ensures q.Some? ==> m.quota.Some? && q.value <= m.quota.value
    ensures m.quota != q ==> if q.Some? then Expands(c) else Makes(c)
    ensures m.reported.Some? && Careful(p) ==> m.quota.Some? && m.reported.value <= m.quota.value
  {
    assert (Makes(c) || Expands(c)) && c.size < LIMIT ==> Int32(c.size) == c.size;
  }

  /** A move by one call leaves another what it knows. */
  lemma OthersKnow(p: Policy, q: Option<int>, c: Call, m: Move, d: Call)
    requires Steady(p) && Knows(p, q, c) && Moves(p, q, c, m) && Knows(p, q, d) && Together(p, c, d)
    ensures Knows(p, m.quota, d)
  {
    MoveKeeps(p, q, c, m);
  }

  lemma BeginKept(p: Policy, s: State, s': State)
    requires Steady(p) && Inv(p, s) && Begins(p, s, s')
    ensures Inv(p, s')
  {
  }

  lemma DeleteKept(p: Policy, s: State, s': State)
    requires Steady(p) && Inv(p, s) && Deletes(p, s, s')
    ensures Inv(p, s')
  {
  }

  lemma MoveKept(p: Policy, s: State, i: Caller, m: Move)
    requires Steady(p) && Inv(p, s) && i in s.calls && Moves(p, s.quota, s.calls[i], m)
    ensures Inv(p, After(s, i, m))
  {
    var s' := After(s, i, m);
    MoveKeeps(p, s.quota, s.calls[i], m);
    forall j | j in s'.calls ensures Knows(p, s'.quota, s'.calls[j]) {
      if j != i {
        OthersKnow(p, s.quota, s.calls[i], m, s.calls[j]);
      }
    }
  }

  lemma StepKept(p: Policy, s: State, s': State)
    requires Steady(p) && Inv(p, s) && Step(p, s, s')
    ensures Inv(p, s')
    ensures s.quota.Some? && s'.quota.Some? ==> s.quota.value <= s'.quota.value
  {
    if Begins(p, s, s') {
      BeginKept(p, s, s');
    } else if Deletes(p, s, s') {
      DeleteKept(p, s, s');
    } else {
      var i: Caller, m: Move :| i in s.calls && Moves(p, s.quota, s.calls[i], m) && s' == After(s, i, m);
      MoveKept(p, s, i, m);
      MoveKeeps(p, s.quota, s.calls[i], m);
    }
  }

  lemma InvAlways(p: Policy, s: State)
    requires Steady(p) && Reachable(p, s)
    ensures Inv(p, s)
  {
    var q :| Starts(q) && Reaches(Next(p), State(q, map[], None), s);
    var inv := (x: State) => Inv(p, x);
    forall x, y | inv(x) && Next(p)(x, y) ensures inv(y) {
      StepKept(p, x, y);
    }
    Kept(Next(p), inv, State(q, map[], None), s);
  }

  // ---------- the failing runs ----------

  lemma Starting(p: Policy, q: Option<int>)
    requires Starts(q)
    ensures Reachable(p, State(q, map[], None))
  {
    Here(Next(p), State(q, map[], None));
  }

  lemma Advance(p: Policy, s: State, s': State)
    requires Reachable(p, s) && Step(p, s, s')
    ensures Reachable(p, s')
  {
    var q :| Starts(q) && Reaches(Next(p), State(q, map[], None), s);
    Then(Next(p), State(q, map[], None), s, s');
  }

  lemma Begin(p: Policy, s: State, i: Caller, c: Call) returns (s': State)
    requires Reachable(p, s) && i !in s.calls && MayBegin(p, s, c)
    ensures Reachable(p, s') && s' == State(s.quota, s.calls[i := c], None)
  {
    s' := State(s.quota, s.calls[i := c], None);
    Advance(p, s, s');
  }

  lemma Take(p: Policy, s: State, i: Caller, m: Move) returns (s': State)
    requires Reachable(p, s) && i in s.calls && Moves(p, s.quota, s.calls[i], m)
    ensures Step(p, s, s') && Reachable(p, s') && s' == After(s, i, m)
  {
    s' := After(s, i, m);
    Advance(p, s, s');
  }

  lemma Reads(p: Policy, s: State, i: Caller) returns (s': State)
    requires Reachable(p, s) && i in s.calls && s.calls[i].Reading? && s.quota.Some? && s.quota.value < s.calls[i].size < LIMIT
    ensures Reachable(p, s') && s' == State(s.quota, s.calls[i := Setting(s.calls[i].size)], None)
  {
    s' := Take(p, s, i, Goes(s.quota, Some(Setting(s.calls[i].size))));
  }

  lemma Sets(p: Policy, s: State, i: Caller) returns (s': State)
    requires Reachable(p, s) && i in s.calls && s.calls[i].Setting? && s.quota.Some? && 0 <= s.calls[i].size < LIMIT
    ensures Step(p, s, s') && Reachable(p, s')
    ensures s' == State(Some(s.calls[i].size), s.calls - {i}, Some(s.calls[i].size))
  {
    s' := Take(p, s, i, Provided(Some(s.calls[i].size), s.calls[i].size));
  }

  lemma WritesBack(p: Policy, s: State, i: Caller) returns (s': State)
    requires Reachable(p, s) && i in s.calls && s.calls[i].Rewriting? && s.quota.Some?
    ensures Step(p, s, s') && Reachable(p, s')
    ensures s' == State(Some(s.calls[i].seen), s.calls - {i}, None)
  {
    s' := Take(p, s, i, Goes(Some(s.calls[i].seen), None));
  }

  lemma Checks(p: Policy, s: State, i: Caller) returns (s': State)
    requires Reachable(p, s) && i in s.calls && s.calls[i].Checking?
    requires s.quota.None? || s.quota.value >= s.calls[i].size || p.unchecked
    ensures Reachable(p, s') && s' == State(s.quota, s.calls[i := Probing(s.calls[i].size)], None)
  {
    s' := Take(p, s, i, Goes(s.quota, Some(Probing(s.calls[i].size))));
  }

  lemma Creates(p: Policy, s: State, i: Caller) returns (s': State)
    requires Reachable(p, s) && i in s.calls && s.calls[i].Probing? && s.quota.None?
    ensures Reachable(p, s') && s' == State(Some(Int32(s.calls[i].size)), s.calls - {i}, Some(s.calls[i].size))
  {
    var size := s.calls[i].size;
    var t := Take(p, s, i, Goes(None, Some(Creating(size))));
    s' := Take(p, t, i, Provided(Some(Int32(size)), size));
    assert t.calls - {i} == s.calls - {i};
  }

  lemma Finds(p: Policy, s: State, i: Caller) returns (s': State)
    requires Reachable(p, s) && i in s.calls && s.calls[i].Probing? && s.quota.Some?
    ensures Reachable(p, s') && s' == State(s.quota, s.calls - {i}, Some(s.calls[i].size))
  {
    s' := Take(p, s, i, Provided(s.quota, s.calls[i].size));
  }

  /** An expansion has read a quota of 100 and is to set 200. */
  lemma ReadsOld(p: Policy) returns (s: State)
    ensures Reachable(p, s) && s == State(Some(100), map[1 := Setting(200)], None)
  {
    Starting(p, Some(100));
    s := Begin(p, State(Some(100), map[], None), 1, Reading(200));
    s := Reads(p, s, 1);
  }

  /** A modification has read a quota of 100. */
  lemma SeesOld(p: Policy) returns (s: State)
    ensures Reachable(p, s) && s == State(Some(100), map[1 := Rewriting(100)], None)
  {
    Starting(p, Some(100));
    s := Begin(p, State(Some(100), map[], None), 1, Modifying(Management));
    s := Take(p, s, 1, Goes(Some(100), Some(Rewriting(100))));
  }

  /** Meanwhile another expansion sets 300. */
  lemma Expanded(p: Policy, s: State) returns (s': State)
    requires Reachable(p, s) && s.quota == Some(100) && s.calls.Keys == {1} && MayBegin(p, s, Reading(300))
    ensures Reachable(p, s') && s'.quota == Some(300) && s'.calls == s.calls
  {
    s' := Begin(p, s, 0, Reading(300));
    s' := Reads(p, s', 0);
    s' := Sets(p, s', 0);
  }

  /** Meanwhile the share is deleted and made anew with 300. */
  lemma Remade(p: Policy, s: State) returns (s': State)
    requires Reachable(p, s) && s.calls.Keys == {1} && NoCreation(s) && Deletes(p, s, State(None, s.calls, None))
    ensures Reachable(p, s') && s'.quota == Some(300) && s'.calls == s.calls
  {
    var gone := State(None, s.calls, None);
    Advance(p, s, gone);
    s' := Begin(p, gone, 0, Checking(300));
    s' := Checks(p, s', 0);
    s' := Creates(p, s', 0);
  }

  /** The larger quota stands, and a call is to write a smaller one over it. */
  ghost predicate Undercut(p: Policy, s: State) {
    Reachable(p, s) && s.quota == Some(300) && s.calls.Keys == {1} && s.calls[1] in {Setting(200), Rewriting(100)}
  }

  lemma Undercuts(p: Policy) returns (s: State)
    requires !Fresh(p)
    ensures Undercut(p, s)
  {
    if p.expansions {
      s := ReadsOld(p);
      s := Expanded(p, s);
    } else if p.modifying {
      s := SeesOld(p);
      s := Expanded(p, s);
    } else if p.remaking {
      s := ReadsOld(p);
      s := Remade(p, s);
    } else {
      s := SeesOld(p);
      s := Remade(p, s);
    }
  }

  lemma WritesOld(p: Policy, s: State) returns (s': State)
    requires Reachable(p, s) && s.quota.Some? && 1 in s.calls && s.calls[1] in {Setting(200), Rewriting(100)}
    ensures Reachable(p, s') && Step(p, s, s') && s'.calls == s.calls - {1} && s'.quota.Some? && s'.quota.value <= 200
  {
    if s.calls[1].Setting? {
      s' := Sets(p, s, 1);
    } else {
      s' := WritesBack(p, s, 1);
    }
  }

  /** An expansion or a modification that goes by an old quota lowers the new one. */
  lemma UndercutShrinks(p: Policy)
    requires !Fresh(p)
    ensures !NeverShrinks(p)
  {
    var s := Undercuts(p);
    var s' := WritesOld(p, s);
  }

  /** A creation that passed its check before the quota was lowered reports more than
      the share has. */
  lemma UndercutFallsShort(p: Policy)
    requires !Fresh(p)
    ensures !Provides(p)
  {
    var s := Undercuts(p);
    s := Begin(p, s, 0, Checking(250));
    s := Checks(p, s, 0);
    s := WritesOld(p, s);
    s := Finds(p, s, 0);
  }

  /** The management client finds the quota too small for a size beyond int32, and
      sets what is left of the size. */
  lemma HugeShrinks(p: Policy)
    requires p.management && p.huge
    ensures !NeverShrinks(p)
  {
    var size := 2 * LIMIT + 100;
    assert Int32(size) == 100;
    Starting(p, Some(500));
    var s := Begin(p, State(Some(500), map[], None), 0, Reading(size));
    s := Take(p, s, 0, Goes(s.quota, Some(Setting(size))));
    var s' := Take(p, s, 0, Provided(Some(100), size));
  }

  /** Two volumes on one named share both find it missing; the second finds it
      already made, smaller than it asked for, and succeeds. */
  lemma OverlapFallsShort(p: Policy)
    requires p.creations
    ensures !Provides(p)
  {
    Starting(p, None);
    var s := Begin(p, State(None, map[], None), 0, Checking(100));
    s := Begin(p, s, 1, Checking(200));
    s := Checks(p, s, 0);
    s := Checks(p, s, 1);
    s := Creates(p, s, 0);
    s := Finds(p, s, 1);
  }

  /** Without the check, a smaller share that was there before is taken as it is. */
  lemma UncheckedFallsShort(p: Policy)
    requires p.unchecked
    ensures !Provides(p)
  {
    Starting(p, Some(50));
    var s := Begin(p, State(Some(50), map[], None), 0, Checking(100));
    s := Checks(p, s, 0);
    s := Finds(p, s, 0);
  }

  /** A size beyond int32 makes a share of what is left of it. */
  lemma HugeFallsShort(p: Policy)
    requires p.huge
    ensures !Provides(p)
  {
    var size := 2 * LIMIT + 100;
    assert Int32(size) == 100;
    Starting(p, None);
    var s := Begin(p, State(None, map[], None), 0, Checking(size));
    s := Checks(p, s, 0);
    s := Creates(p, s, 0);
  }

  /** Over all runs, with requests that fail before or after taking effect, a share's
      quota never falls exactly when no expansion overlaps another or a modification by
      the management client, neither of the two overlaps a deletion, and none beyond
      int32 goes by the management client. Creations, however many overlap, never lower
      it, nor do modifications among themselves. */
  lemma NeverShrinksExactly(p: Policy)
    ensures NeverShrinks(p) <==>
      !p.expansions && !p.modifying && !p.remaking && !p.restoring && !(p.management && p.huge)
  {
    if !Fresh(p) {
      UndercutShrinks(p);
    } else if p.management && p.huge {
      HugeShrinks(p);
    } else {
      forall s, s' | Reachable(p, s) && Step(p, s, s') && s.quota.Some? && s'.quota.Some?
        ensures s.quota.value <= s'.quota.value
      {
        InvAlways(p, s);
        StepKept(p, s, s');
      }
    }
  }

  /** A call that succeeds has provided the size it reports exactly when moreover
      creations do not overlap each other, the capacity check is made, and sizes stay
      below 2^31 GiB; deletions in the midst of a creation do no harm. */
  lemma ProvidesExactly(p: Policy)
    ensures Provides(p) <==>
      !p.expansions && !p.modifying && !p.remaking && !p.restoring && !p.creations && !p.unchecked && !p.huge
  {
    if !Fresh(p) {
      UndercutFallsShort(p);
    } else if p.creations {
      OverlapFallsShort(p);
    } else if p.unchecked {
      UncheckedFallsShort(p);
    } else if p.huge {
      HugeFallsShort(p);
    } else {
      forall s | Reachable(p, s) && s.reported.Some?
        ensures s.quota.Some? && s.reported.value <= s.quota.value
      {
        InvAlways(p, s);
      }
    }
  }

  // ---------- one call, with its retries ----------

  datatype Reply = Succeeded | Exists | Retriable | Fatal

  /** The moves of one call with no other between them. */
  ghost function Alone(p: Policy): (Move, Move) -> bool {
    (m: Move, m': Move) => m.next.Some? && Moves(p, m.quota, m.next.value, m')
  }

  /** The call takes the share from one quota to another, and reports a size or none. */
  ghost predicate Carries(p: Policy, q: Option<int>, c: Call, q': Option<int>, reported: Option<int>) {
    Reaches(Alone(p), Goes(q, Some(c)), Move(q', None, reported))
  }

  /** What one call does alone is a run among the others, wherever they stand. */
  lemma AloneIsRun(p: Policy, s: State, i: Caller, q': Option<int>, reported: Option<int>)
    requires i in s.calls && s.reported == None && Carries(p, s.quota, s.calls[i], q', reported)
    ensures Reaches(Next(p), s, State(q', s.calls - {i}, reported))
  {
    var inv := (m: Move) => Reaches(Next(p), s, After(s, i, m));
    var m0 := Goes(s.quota, Some(s.calls[i]));
    forall x, y | inv(x) && Alone(p)(x, y) ensures inv(y) {
      assert After(s, i, y) == After(After(s, i, x), i, y);
      Then(Next(p), s, After(s, i, x), After(s, i, y));
    }
    assert After(s, i, m0) == s;
    Here(Next(p), s);
    Kept(Alone(p), inv, m0, Move(q', None, reported));
  }

  /** The policy of a single call: its capacity check, any size, and its route. */
  function Single(skipsCheck: bool, route: Route): Policy {
    Policy(false, false, false, false, false, skipsCheck, true, route == Management)
  }

  lemma Onward(p: Policy, m0: Move, m: Move, m': Move)
    requires Reaches(Alone(p), m0, m) && m.next.Some? && Moves(p, m.quota, m.next.value, m')
    ensures Reaches(Alone(p), m0, m')
  {
    Then(Alone(p), m0, m, m');
  }

  /** An account's shares; on a `reliable` one every request succeeds and is answered.
      Each call is alone, and a run of the moves above. */
  class Shares {
    const reliable: bool
    var quotas: map<string, int>
    var requests: nat               // requests to create or to change a share
    var writes: nat                 // those that set a quota
    var misses: nat                 // reads that found no quota

    constructor (reliable: bool)
      ensures quotas == map[] && requests == 0 && writes == 0 && misses == 0 && this.reliable == reliable
    {
      this.reliable, quotas, requests, writes, misses := reliable, map[], 0, 0, 0;
    }

    ghost predicate Valid()
      reads this
    {
      forall n :: n in quotas ==> -LIMIT <= quotas[n] < LIMIT
    }

    function QuotaOf(name: string): Option<int>
      reads this
    {
      if name in quotas then Some(quotas[name]) else None
    }

    method GetQuota(name: string) returns (quota: Option<int>)
      modifies `misses
      ensures misses == old(misses) + if quota.None? then 1 else 0
      ensures quota.Some? ==> name in quotas && quota.value == quotas[name]
      ensures reliable && name in quotas ==> quota.Some?
    {
      var failed: bool := *;
      quota := if (failed && !reliable) || name !in quotas then None else Some(quotas[name]);
      misses := misses + if quota.None? then 1 else 0;
    }

    /** The service makes the share or refuses; its answer may be lost. */
    method Create(name: string, quota: int) returns (r: Reply)
      requires Valid() && -LIMIT <= quota < LIMIT
      modifies `quotas, `requests
      ensures Valid() && requests == old(requests) + 1
      ensures quotas == old(quotas) || (name !in old(quotas) && quotas == old(quotas)[name := quota])
      ensures r == Succeeded || r == Exists ==> name in quotas
      ensures reliable ==> r == Succeeded || r == Exists
    {
      requests := requests + 1;
      if name in quotas {
        return Exists;
      }
      var applied: bool, lost: bool, again: bool := *, *, *;
      applied, lost := applied || reliable, lost && !reliable;
      if applied {
        quotas := quotas[name := quota];
      }
      r := if applied && !lost then Succeeded else if again then Retriable else Fatal;
    }

    method SetQuota(name: string, quota: int) returns (r: Reply)
      requires Valid() && -LIMIT <= quota < LIMIT
      modifies `quotas, `requests, `writes
      ensures Valid() && requests == old(requests) + 1 && writes == old(writes) + 1
      ensures quotas == old(quotas) || (name in old(quotas) && quotas == old(quotas)[name := quota])
      ensures r == Succeeded ==> name in quotas && quotas == old(quotas)[name := quota]
      ensures r != Exists
      ensures reliable && name in old(quotas) ==> r == Succeeded
    {
      requests, writes := requests + 1, writes + 1;
      var applied: bool, lost: bool, again: bool := *, *, *;
      applied, lost := (applied || reliable) && name in quotas, lost && !reliable;
      if applied {
        quotas := quotas[name := quota];
      }
      r := if applied && !lost then Succeeded else if again then Retriable else Fatal;
    }

    /** The data plane's change of IOPS and bandwidth, which names no quota. */
    method SetOthers(name: string) returns (r: Reply)
      modifies `requests
      ensures requests == old(requests) + 1 && r != Exists
      ensures r == Succeeded ==> name in quotas
      ensures reliable && name in quotas ==> r == Succeeded
    {
      requests := requests + 1;
      var done: bool, again: bool := *, *;
      r := if name in quotas && (done || reliable) then Succeeded else if again then Retriable else Fatal;
    }

    /** The management client's: the whole share is read, and written with its quota. */
    method Rewrite(name: string) returns (r: Reply)
      requires Valid()
      modifies this
      ensures Valid() && quotas == old(quotas) && old(requests) <= requests <= old(requests) + 1 && r != Exists
      ensures writes - old(writes) == requests - old(requests)
      ensures r == Succeeded ==> name in quotas
      ensures reliable && name in quotas ==> r == Succeeded
    {
      var quota := GetQuota(name);
      if quota.None? {
        var again: bool := *;
        return if again then Retriable else Fatal;
      }
      r := SetQuota(name, quota.value);
    }

    /** CreateFileShare: an existing share is left as it is, a missing one is made
        once, and no more requests are made than the configured retries, or one. */
    method CreateFileShare(name: string, size: int, retries: int, ghost p: Policy) returns (ok: bool)
      requires Valid()
      modifies this
      ensures Valid() && requests - old(requests) <= Max(retries, 1)
      ensures name in old(quotas) ==> quotas == old(quotas)
      ensures name !in old(quotas) ==> quotas == old(quotas) || quotas == old(quotas)[name := Int32(size)]
      ensures ok ==> name in quotas
      ensures reliable ==> ok && requests == old(requests) + if name in old(quotas) then 0 else 1
      ensures Carries(p, old(QuotaOf(name)), Probing(size), QuotaOf(name), if ok then Some(size) else None)
    {
      ghost var m0 := Goes(QuotaOf(name), Some(Probing(size)));
      Here(Alone(p), m0);
      var steps := Max(retries, 1);
      while steps > 0
        invariant 0 <= steps && Valid() && requests - old(requests) <= Max(retries, 1) - steps
        invariant quotas == old(quotas) || (name !in old(quotas) && quotas == old(quotas)[name := Int32(size)])
        invariant reliable ==> steps > 0 && requests == old(requests) && quotas == old(quotas)
        invariant Reaches(Alone(p), m0, Goes(QuotaOf(name), if steps > 0 then Some(Probing(size)) else None))
      {
        ghost var was := Goes(QuotaOf(name), Some(Probing(size)));
        steps := steps - 1;
        var quota := GetQuota(name);
        if quota.Some? {
          Onward(p, m0, was, Provided(QuotaOf(name), size));
          return true;
        }
        ghost var missed := Goes(QuotaOf(name), Some(Creating(size)));
        Onward(p, m0, was, missed);
        var r := Create(name, Int32(size));
        if r == Succeeded || r == Exists {
          Onward(p, m0, missed, Provided(QuotaOf(name), size));
          return true;
        }
        Onward(p, m0, missed, Goes(QuotaOf(name), if r == Retriable && steps > 0 then Some(Probing(size)) else None));
        if r == Fatal {
          return false;
        }
      }
      ok := false;
    }

    /** One round: the quota is read, and set where the route finds it smaller. */
    method ResizeOnce(route: Route, name: string, size: int, left: nat, ghost p: Policy, ghost m0: Move) returns (r: Reply)
      requires Valid() && p == Single(false, route)
      requires Reaches(Alone(p), m0, Goes(QuotaOf(name), Some(Reading(size))))
      modifies this
      ensures Valid() && requests <= old(requests) + 1 && r != Exists
      ensures quotas == old(quotas) || (name in old(quotas) && quotas == old(quotas)[name := NewQuota(route, old(quotas)[name], size)])
      ensures r == Succeeded ==> name in old(quotas) && quotas == old(quotas)[name := NewQuota(route, old(quotas)[name], size)]
      ensures route == Driver && misses != old(misses) ==> misses == old(misses) + 1 && r == Fatal
      ensures reliable && name in old(quotas) ==>
        r == Succeeded && requests == old(requests) + if old(quotas)[name] >= Compared(route, size) then 0 else 1
      ensures Reaches(Alone(p), m0,
        if r == Succeeded then Provided(QuotaOf(name), size)
        else Goes(QuotaOf(name), if r == Retriable && left > 0 then Some(Reading(size)) else None))
    {
      ghost var was := Goes(QuotaOf(name), Some(Reading(size)));
      var quota := GetQuota(name);
      if quota.None? {
        var again: bool := *;
        r := if again && route != Driver then Retriable else Fatal;
        Onward(p, m0, was, Goes(QuotaOf(name), if r == Retriable && left > 0 then Some(Reading(size)) else None));
        return;
      }
      if quota.value >= Compared(route, size) {
        Onward(p, m0, was, Provided(QuotaOf(name), size));
        return Succeeded;
      }
      ghost var found := Goes(QuotaOf(name), Some(Setting(size)));
      Onward(p, m0, was, found);
      r := SetQuota(name, Int32(size));
      Onward(p, m0, found,
        if r == Succeeded then Provided(QuotaOf(name), size)
        else Goes(QuotaOf(name), if r == Retriable && left > 0 then Some(Reading(size)) else None));
    }

    /** ResizeFileShare: only this share changes, only to what the route makes of its
        quota; a success has made exactly that. */
    method ResizeFileShare(route: Route, name: string, size: int, retries: int) returns (ok: bool)
      requires Valid()
      modifies this
      ensures Valid() && requests - old(requests) <= Max(retries, 1)
      ensures name !in old(quotas) ==> quotas == old(quotas) && !ok
      ensures name in old(quotas) && !ok ==>
        quotas == old(quotas) || quotas == old(quotas)[name := NewQuota(route, old(quotas)[name], size)]
      ensures ok ==> quotas == old(quotas)[name := NewQuota(route, old(quotas)[name], size)]
      ensures route == Driver && misses != old(misses) ==> misses == old(misses) + 1 && !ok
      ensures reliable && name in old(quotas) ==>
        ok && requests == old(requests) + if old(quotas)[name] >= Compared(route, size) then 0 else 1
      ensures Carries(Single(false, route), old(QuotaOf(name)), Reading(size), QuotaOf(name), if ok then Some(size) else None)
    {
      ghost var p := Single(false, route);
      ghost var m0 := Goes(QuotaOf(name), Some(Reading(size)));
      Here(Alone(p), m0);
      var steps := Max(retries, 1);
      while steps > 0
        invariant route == Driver ==> misses == old(misses)
        invariant reliable && name in old(quotas) ==> steps > 0 && requests == old(requests) && quotas == old(quotas)
        invariant 0 <= steps && Valid() && requests - old(requests) <= Max(retries, 1) - steps
        invariant name !in old(quotas) ==> quotas == old(quotas)
        invariant name in old(quotas) ==>
          quotas == old(quotas) || quotas == old(quotas)[name := NewQuota(route, old(quotas)[name], size)]
        invariant Reaches(Alone(p), m0, Goes(QuotaOf(name), if steps > 0 then Some(Reading(size)) else None))
      {
        steps := steps - 1;
        var r := ResizeOnce(route, name, size, steps, p, m0);
        if r != Retriable {
          return r == Succeeded;
        }
      }
      ok := false;
    }

    /** ModifyFileShare: alone it leaves every quota as it was, also by the management
        client, which writes back what it read. */
    method ModifyFileShare(route: Route, name: string, retries: int) returns (ok: bool)
      requires Valid() && route != Driver
      modifies this
      ensures Valid() && quotas == old(quotas) && requests - old(requests) <= Max(retries, 1)
      ensures writes - old(writes) == if route == Management then requests - old(requests) else 0
      ensures reliable && name in quotas ==> ok
      ensures ok ==> name in quotas
      ensures Carries(Single(false, route), old(QuotaOf(name)), Modifying(route), QuotaOf(name), None)
    {
      ghost var p := Single(false, route);
      ghost var m0 := Goes(QuotaOf(name), Some(Modifying(route)));
      Here(Alone(p), m0);
      var steps := Max(retries, 1);
      while steps > 0
        invariant reliable && name in quotas ==> steps > 0
        invariant 0 <= steps && Valid() && requests - old(requests) <= Max(retries, 1) - steps
        invariant quotas == old(quotas)
        invariant writes - old(writes) == if route == Management then requests - old(requests) else 0
        invariant Reaches(Alone(p), m0, Goes(QuotaOf(name), if steps > 0 then Some(Modifying(route)) else None))
      {
        ghost var was := Goes(QuotaOf(name), Some(Modifying(route)));
        steps := steps - 1;
        var r;
        if route == Management {
          r := Rewrite(name);
        } else {
          r := SetOthers(name);
        }
        ghost var next := if r == Retriable && steps > 0 then Some(Modifying(route)) else None;
        if route == Management && name in quotas {
          ghost var seen := Goes(QuotaOf(name), Some(Rewriting(quotas[name])));
          Onward(p, m0, was, seen);
          Onward(p, m0, seen, Goes(QuotaOf(name), next));
        } else {
          Onward(p, m0, was, Goes(QuotaOf(name), next));
        }
        if r != Retriable {
          return r == Succeeded;
        }
      }
      ok := false;
    }

    /** The capacity check and the creation in CreateVolume. */
    method CreateVolume(name: string, size: int, skipsCheck: bool, retries: int) returns (reported: Option<int>)
      requires Valid() && 0 < size
      modifies this
      ensures Valid() && requests - old(requests) <= Max(retries, 1)
      ensures name in old(quotas) ==> quotas == old(quotas)
      ensures name !in old(quotas) ==> quotas == old(quotas) || quotas == old(quotas)[name := Int32(size)]
      ensures reported.Some? ==> reported.value == size && name in quotas
      ensures reported.Some? && size < LIMIT ==>
        (quotas[name] < size ==> skipsCheck && name in old(quotas))
      ensures !skipsCheck && name in old(quotas) && old(quotas)[name] < size ==> reported.None?
      ensures reliable && (skipsCheck || name !in old(quotas) || old(quotas)[name] >= size) ==> reported.Some?
      ensures Carries(Single(skipsCheck, Driver), old(QuotaOf(name)), Checking(size), QuotaOf(name), reported)
    {
      ghost var p := Single(skipsCheck, Driver);
      ghost var m0 := Goes(QuotaOf(name), Some(Checking(size)));
      Here(Alone(p), m0);
      if !skipsCheck {
        var failed: bool := *;
        if (failed && !reliable) || (name in quotas && quotas[name] < size) {
          Onward(p, m0, m0, Goes(QuotaOf(name), None));
          return None;
        }
      }
      ghost var passed := Goes(QuotaOf(name), Some(Probing(size)));
      Onward(p, m0, m0, passed);
      var ok := CreateFileShare(name, size, retries, p);
      Both(Alone(p), m0, passed, Move(QuotaOf(name), None, if ok then Some(size) else None));
      reported := if ok then Some(size) else None;
    }
  }
}
