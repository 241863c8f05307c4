/** The account choice of CreateVolume. A volume goes to the account remembered
    for it, else to the one cached for its search key, else to a matching account
    without the skip tag. An account over its limit is tagged and CreateVolume
    calls itself again. */
module AccountRetry {
  import opened Results
  import opened Runs

  type Account = string

  /** What one volume and its search key see: the matching accounts that are not
      tagged, the account remembered for the volume, the one cached for the key. */
  datatype View = View(untagged: set<Account>, remembered: Option<Account>, cached: Option<Account>)

  /** How a request comes to its account: it names one, it brings one in its secrets, or
      one is searched for. */
  datatype Request = Named | BySecret | Searches

  /** The request, whether tagging always takes effect, and whether the cloud makes a
      new account when none matches. */
  datatype Policy = Policy(request: Request, tagWorks: bool, creates: bool)

  ghost predicate Tagged(p: Policy, before: set<Account>, a: Account, after: set<Account>) {
    after == before - {a} || (!p.tagWorks && after == before)
  }

  /** EnsureStorageAccount yields a, with the untagged accounts as they are then. */
  ghost predicate Picks(p: Policy, untagged: set<Account>, a: Account, now: set<Account>) {
    || (a in untagged && now == untagged)
    || (untagged == {} && p.creates && now == {a})
  }

  /** One activation ends in a retry. A named account does not retry. One from the
      secrets is not chosen at all, so that nothing is left for the next activation to do
      otherwise. The remembered account hides the search key, so its entry in the search
      cache outlives that retry. */
  ghost predicate Retries(p: Policy, v: View, v': View) {
    match p.request
    case Named => false
    case BySecret => v' == v.(remembered := None)
    case Searches =>
      v'.remembered == None &&
      match (v.remembered, v.cached)
      case (Some(a), _) => v'.cached == v.cached && Tagged(p, v.untagged, a, v'.untagged)
      case (None, Some(a)) => v'.cached == None && Tagged(p, v.untagged, a, v'.untagged)
      case (None, None) => v'.cached == None && exists a, now :: Picks(p, v.untagged, a, now) && Tagged(p, now, a, v'.untagged)
  }

  ghost function Next(p: Policy): (View, View) -> bool {
    (v, v') => Retries(p, v, v')
  }

  function Entries(v: View): nat {
    (if v.remembered.Some? then 1 else 0) + (if v.cached.Some? then 1 else 0)
  }

  /** A chain of activations, each but the last ending in a retry. */
  ghost predicate Activations(p: Policy, run: seq<View>, from: View) {
    IsRun(Next(p), run) && run[0] == from
  }

  ghost predicate NoLonger(p: Policy, v: View, n: nat) {
    forall run :: Activations(p, run, v) ==> |run| <= n
  }

  ghost predicate Bounded(p: Policy, v: View) {
    exists n: nat :: NoLonger(p, v, n)
  }

  // ---------- the bound ----------

  lemma RetryFalls(p: Policy, v: View, v': View)
    requires p.request.Searches? && p.tagWorks && !p.creates && Retries(p, v, v')
    ensures |v'.untagged| + Entries(v') < |v.untagged| + Entries(v)
  {
    if v.remembered == None && v.cached == None {
      var a, now :| Picks(p, v.untagged, a, now) && Tagged(p, now, a, v'.untagged);
      assert v'.untagged == v.untagged - {a};
    } else {
      var a := if v.remembered.Some? then v.remembered.value else v.cached.value;
      assert v'.untagged == v.untagged - {a};
    }
  }

  /** When tagging works and no account is made, there are at most as many
      activations as untagged accounts, plus one for each remembered or cached
      account, plus the last one. */
  lemma {:induction false} AtMost(p: Policy, run: seq<View>, v: View)
    requires p.request.Searches? && p.tagWorks && !p.creates && Activations(p, run, v)
    ensures |run| <= |v.untagged| + Entries(v) + 1
    decreases |run|
  {
    if |run| > 1 {
      assert Next(p)(run[0], run[0 + 1]);
      RetryFalls(p, run[0], run[1]);
      forall i | 0 <= i < |run[1..]| - 1 ensures Next(p)(run[1..][i], run[1..][i + 1]) {
        assert Next(p)(run[i + 1], run[i + 1 + 1]);
      }
      AtMost(p, run[1..], run[1]);
    }
  }

  lemma Prepend(p: Policy, v: View, run: seq<View>)
    requires |run| > 0 && Activations(p, run, run[0]) && Retries(p, v, run[0])
    ensures Activations(p, [v] + run, v)
  {
    var longer := [v] + run;
    forall i | 0 <= i < |longer| - 1 ensures Next(p)(longer[i], longer[i + 1]) {
      assert i > 0 ==> Next(p)(run[i - 1], run[i - 1 + 1]);
    }
  }

  /** The bound is met whenever the remembered and the cached account are not
      among the untagged ones. */
  lemma {:induction false} Attained(p: Policy, v: View) returns (run: seq<View>)
    requires p.request.Searches? && (v.remembered.Some? ==> v.remembered.value !in v.untagged)
    requires v.cached.Some? ==> v.cached.value !in v.untagged
    ensures Activations(p, run, v) && |run| == |v.untagged| + Entries(v) + 1
    decreases |v.untagged| + Entries(v)
  {
    if v.remembered == None && v.cached == None && v.untagged == {} {
      return [v];
    }
    var v': View;
    if v.remembered.Some? {
      assert v.untagged - {v.remembered.value} == v.untagged;
      v' := v.(remembered := None);
    } else if v.cached.Some? {
      assert v.untagged - {v.cached.value} == v.untagged;
      v' := v.(cached := None);
    } else {
      var a :| a in v.untagged;
      v' := v.(untagged := v.untagged - {a});
      assert Picks(p, v.untagged, a, v.untagged);
    }
    run := Attained(p, v');
    Prepend(p, v, run);
    run := [v] + run;
  }

  // ---------- beside other callers ----------

  /** What another caller does for the same search key: it fills or empties the cache
      entry, tags an account, or, deleting a volume, takes the tag off again. */
  ghost predicate OthersAct(v: View, v': View) {
    || v' == v.(cached := v'.cached)
    || exists a :: Tags(v, v', a)
  }

  ghost predicate Tags(v: View, v': View, a: Account) {
    v' == v.(untagged := v.untagged - {a}) || v' == v.(untagged := v.untagged + {a})
  }

  ghost function Beside(p: Policy): (View, View) -> bool {
    (v, v') => Retries(p, v, v') || OthersAct(v, v')
  }

  /** The retries of a run; its other steps are those of other callers. */
  ghost function Retried(p: Policy, run: seq<View>): nat {
    if |run| < 2 then 0 else (if Retries(p, run[0], run[1]) then 1 else 0) + Retried(p, run[1..])
  }

  lemma OneMore(s: set<Account>, a: Account)
    ensures |s - {a}| <= |s| && |s + {a}| <= |s| + 1
  {
    assert a in s ==> s - {a} + {a} == s && s + {a} == s;
    assert a !in s ==> s - {a} == s;
  }

  lemma OthersAddOne(v: View, v': View)
    requires OthersAct(v, v')
    ensures |v'.untagged| + Entries(v') <= |v.untagged| + Entries(v) + 1
  {
    if v'.untagged != v.untagged {
      var a :| Tags(v, v', a);
      OneMore(v.untagged, a);
    }
  }

  /** Beside other callers each of their steps brings at most one retry more. */
  lemma {:induction false} AtMostBeside(p: Policy, run: seq<View>, v: View, n: nat)
    requires p.request.Searches? && p.tagWorks && !p.creates && IsRun(Beside(p), run) && run[0] == v
    requires |run| - 1 - Retried(p, run) <= n
    ensures Retried(p, run) <= |v.untagged| + Entries(v) + n
    decreases |run|
  {
    if |run| > 1 {
      assert Beside(p)(run[0], run[0 + 1]);
      var rest := run[1..];
      forall i | 0 <= i < |rest| - 1 ensures Beside(p)(rest[i], rest[i + 1]) {
        assert Beside(p)(run[i + 1], run[i + 1 + 1]);
      }
      RetriedFits(p, rest);
      if Retries(p, run[0], run[1]) {
        RetryFalls(p, run[0], run[1]);
        AtMostBeside(p, rest, run[1], n);
      } else {
        OthersAddOne(run[0], run[1]);
        AtMostBeside(p, rest, run[1], n - 1);
      }
    }
  }

  lemma {:induction false} RetriedFits(p: Policy, run: seq<View>)
    requires |run| > 0
    ensures Retried(p, run) <= |run| - 1
    decreases |run|
  {
    if |run| > 1 {
      RetriedFits(p, run[1..]);
    }
  }

  lemma PrependBeside(p: Policy, v: View, run: seq<View>)
    requires IsRun(Beside(p), run) && Beside(p)(v, run[0])
    ensures IsRun(Beside(p), [v] + run)
    ensures Retried(p, [v] + run) == (if Retries(p, v, run[0]) then 1 else 0) + Retried(p, run)
  {
    var longer := [v] + run;
    assert longer[1..] == run;
    forall i | 0 <= i < |longer| - 1 ensures Beside(p)(longer[i], longer[i + 1]) {
      assert i > 0 ==> Beside(p)(run[i - 1], run[i - 1 + 1]);
    }
  }

  /** That bound is met too: whenever nothing is left to retry, another caller fills
      the cache again. */
  lemma {:induction false} AttainedBeside(p: Policy, v: View, n: nat) returns (run: seq<View>)
    requires p.request.Searches? && !p.creates && (v.remembered.Some? ==> v.remembered.value !in v.untagged)
    requires v.cached.Some? ==> v.cached.value !in v.untagged
    ensures IsRun(Beside(p), run) && run[0] == v && |run| - 1 - Retried(p, run) == n
    ensures Retried(p, run) == |v.untagged| + Entries(v) + n
    decreases n, |v.untagged| + Entries(v)
  {
    var v': View;
    if v.remembered.Some? {
      assert v.untagged - {v.remembered.value} == v.untagged;
      v' := v.(remembered := None);
    } else if v.cached.Some? {
      assert v.untagged - {v.cached.value} == v.untagged;
      v' := v.(cached := None);
    } else if v.untagged != {} {
      var a :| a in v.untagged;
      v' := v.(untagged := v.untagged - {a});
      assert Picks(p, v.untagged, a, v.untagged);
    } else if n > 0 {
      v' := v.(cached := Some("a"));
      run := AttainedBeside(p, v', n - 1);
      PrependBeside(p, v, run);
      return [v] + run;
    } else {
      return [v];
    }
    assert Retries(p, v, v');
    run := AttainedBeside(p, v', n);
    PrependBeside(p, v, run);
    run := [v] + run;
  }

  // ---------- no bound otherwise ----------

  /** A view that can retry into itself has chains of every length. */
  lemma {:induction false} Loops(p: Policy, v: View, n: nat) returns (run: seq<View>)
    requires Retries(p, v, v)
    ensures Activations(p, run, v) && |run| > n
  {
    if n == 0 {
      return [v];
    }
    run := Loops(p, v, n - 1);
    Prepend(p, v, run);
    run := [v] + run;
  }

  /** From any view with work left and no bound in place, chains of every length. */
  lemma {:induction false} LongRun(p: Policy, v: View, n: nat) returns (run: seq<View>)
    requires p.request.Searches? && (p.creates || (!p.tagWorks && v.untagged != {}))
    ensures Activations(p, run, v) && |run| > n
    decreases |v.untagged| + Entries(v)
  {
    var v': View;
    if v.remembered == None && v.cached == None {
      if !p.tagWorks && v.untagged != {} {
        var a :| a in v.untagged;
        assert Picks(p, v.untagged, a, v.untagged) && Tagged(p, v.untagged, a, v.untagged);
        run := Loops(p, v, n);
        return;
      }
      if v.untagged == {} {
        assert Picks(p, {}, "new", {"new"}) && Tagged(p, {"new"}, "new", {});
        run := Loops(p, v, n);
        return;
      }
      var a :| a in v.untagged;
      v' := v.(untagged := v.untagged - {a});
      assert Picks(p, v.untagged, a, v.untagged);
    } else {
      var a := if v.remembered.Some? then v.remembered.value else v.cached.value;
      v' := View(if p.tagWorks then v.untagged - {a} else v.untagged, None, if v.remembered.Some? then v.cached else None);
      assert |v.untagged - {a}| <= |v.untagged|;
    }
    run := LongRun(p, v', n);
    Prepend(p, v, run);
    run := [v] + run;
  }

  /** With the account in its secrets, a request retries as it was: chains of every length. */
  lemma SecretRun(p: Policy, v: View, n: nat) returns (run: seq<View>)
    requires p.request.BySecret?
    ensures Activations(p, run, v) && |run| > n
  {
    run := Loops(p, v.(remembered := None), n);
    Prepend(p, v, run);
    run := [v] + run;
  }

  lemma NoRetry(p: Policy, run: seq<View>, v: View)
    requires p.request.Named? && Activations(p, run, v)
    ensures |run| == 1
  {
    var next := if |run| > 1 then run[0 + 1] else v;
    assert !Next(p)(v, next);
  }

  /** Exactly when CreateVolume cannot recurse without bound: the request names its
      account, or one is searched for, no new account is made for it, and tagging works
      or there is nothing to tag. */
  lemma BoundedExactly(p: Policy, v: View)
    ensures Bounded(p, v) <==> p.request.Named? || (p.request.Searches? && !p.creates && (p.tagWorks || v.untagged == {}))
  {
    if p.request.BySecret? || (p.request.Searches? && (p.creates || (!p.tagWorks && v.untagged != {}))) {
      if n: nat :| NoLonger(p, v, n) {
        var run: seq<View>;
        if p.request.BySecret? {
          run := SecretRun(p, v, n);
        } else {
          run := LongRun(p, v, n);
        }
      }
    } else {
      forall run | Activations(p, run, v) ensures |run| <= |v.untagged| + Entries(v) + 1 {
        if p.request.Named? {
          NoRetry(p, run, v);
        } else if p.tagWorks {
          AtMost(p, run, v);
        } else {
          AtMostEntries(p, run, v);
        }
      }
      assert NoLonger(p, v, |v.untagged| + Entries(v) + 1);
    }
  }

  lemma {:induction false} AtMostEntries(p: Policy, run: seq<View>, v: View)
    requires p.request.Searches? && !p.creates && v.untagged == {} && Activations(p, run, v)
    ensures |run| <= Entries(v) + 1
    decreases |run|
  {
    if |run| > 1 {
      assert Next(p)(run[0], run[0 + 1]);
      forall i | 0 <= i < |run[1..]| - 1 ensures Next(p)(run[1..][i], run[1..][i + 1]) {
        assert Next(p)(run[i + 1], run[i + 1 + 1]);
      }
      AtMostEntries(p, run[1..], run[1]);
    }
  }

  // ---------- the driver ----------

  datatype Result = Chosen(account: Account) | Aborted | Failed

  /** What CreateFileShare reports for the chosen account. */
  datatype ShareResult = Created | AccountFull | OtherError

  /** What an activation learned: the answer of CreateFileShare, that the account's total
      quota is used up, or that there was no account to be had. */
  datatype Event = Asked(account: Account, answer: ShareResult) | OverQuota(account: Account) | NoneFound

  /** The account does not take the volume, and another is to be tried. */
  predicate Refuses(e: Event) {
    e.OverQuota? || (e.Asked? && e.answer == AccountFull)
  }

  /** Some account's refusal is among the events from n on. */
  predicate RefusedBy(log: seq<Event>, n: nat, a: Account) {
    exists i :: n <= i < |log| && Refuses(log[i]) && log[i].account == a
  }

  /** The accounts tagged are exactly those whose refusal was logged from n on. */
  ghost predicate TagsRefusals(before: set<Account>, after: set<Account>, log: seq<Event>, n: nat) {
    && after <= before
    && (forall i :: n <= i < |log| && Refuses(log[i]) ==> log[i].account !in after)
    && forall a :: a in before && a !in after ==> RefusedBy(log, n, a)
  }

  lemma TagsMore(u0: set<Account>, u1: set<Account>, u2: set<Account>, l0: seq<Event>, e: Event, l2: seq<Event>)
    requires Refuses(e) && u1 == u0 - {e.account} && l0 + [e] <= l2
    requires TagsRefusals(u1, u2, l2, |l0| + 1)
    ensures TagsRefusals(u0, u2, l2, |l0|) && l0 <= l2
  {
    assert l2[|l0|] == (l0 + [e])[|l0|];
    forall a | a in u0 && a !in u2 ensures RefusedBy(l2, |l0|, a) {
      if a != e.account {
        assert RefusedBy(l2, |l0| + 1, a);
      }
    }
  }

  /** The n events from n0 on: all but the last are refusals, and the result is that of
      the last. */
  predicate Explains(log: seq<Event>, n0: nat, n: nat, r: Result) {
    && n > 0 && |log| == n0 + n && ResultOf(r, log[|log| - 1])
    && forall i :: n0 <= i < |log| - 1 ==> Refuses(log[i])
  }

  lemma OneEvent(u0: set<Account>, u1: set<Account>, l0: seq<Event>, e: Event, r: Result)
    requires ResultOf(r, e) && u1 == if Refuses(e) then u0 - {e.account} else u0
    ensures Explains(l0 + [e], |l0|, 1, r) && TagsRefusals(u0, u1, l0 + [e], |l0|)
  {
    var log := l0 + [e];
    assert log[|l0|] == e;
    forall a | a in u0 && a !in u1 ensures RefusedBy(log, |l0|, a) {
      assert Refuses(log[|l0|]);
    }
  }

  lemma ExplainsMore(l0: seq<Event>, e: Event, l2: seq<Event>, n: nat, r: Result)
    requires Refuses(e) && l0 + [e] <= l2 && Explains(l2, |l0| + 1, n, r)
    ensures Explains(l2, |l0|, n + 1, r)
  {
    assert l2[|l0|] == (l0 + [e])[|l0|];
  }

  lemma SameMore(m0: map<string, Account>, m1: map<string, Account>, m2: map<string, Account>, keys: set<string>)
    requires SameExcept(m1, m0, keys) && SameExcept(m2, m1, keys)
    ensures SameExcept(m2, m0, keys)
  {
  }

  lemma Longer(v: View, w: View, rest: seq<View>)
    requires Next(POLICY)(v, w) && Activations(POLICY, rest, w)
    ensures Activations(POLICY, [v] + rest, v) && |[v] + rest| == |rest| + 1
  {
    Prepend(POLICY, v, rest);
  }

  lemma LeavesNoTrace(locks: set<string>, vol: string)
    requires vol !in locks
    ensures locks + {vol} - {vol} == locks && locks - {vol} == locks
  {
  }

  lemma OnlyMakesMore(s0: set<(Account, string)>, s1: set<(Account, string)>, s2: set<(Account, string)>, vol: string)
    requires OnlyMakes(s0, s1, vol) && OnlyMakes(s1, s2, vol)
    ensures OnlyMakes(s0, s2, vol)
  {
  }

  /** The result is that of the last event. */
  predicate ResultOf(r: Result, e: Event) {
    r == if e.Asked? && e.answer == Created then Chosen(e.account) else Failed
  }

  /** Only this volume's share is made, nothing is deleted. */
  predicate OnlyMakes(before: set<(Account, string)>, after: set<(Account, string)>, vol: string) {
    before <= after && forall s :: s in after && s !in before ==> s.1 == vol
  }

  const POLICY := Policy(Searches, true, false)

  function At(m: map<string, Account>, k: string): Option<Account> {
    if k in m then Some(m[k]) else None
  }

  ghost predicate SameExcept(m: map<string, Account>, n: map<string, Account>, keys: set<string>) {
    forall k :: k !in keys ==> At(m, k) == At(n, k)
  }

  /** The parts of the driver that CreateVolume's account choice reads and writes,
      with no other caller, tagging that works and no account made meanwhile. With
      `reliable` foreign calls an account refuses exactly when it is `full`, or its quota
      is asked for and it is `heavy`, and nothing else can go wrong. */
  class Driver {
    const reliable: bool
    const full: set<Account>
    const heavy: set<Account>
    var untagged: set<Account>
    var volMap: map<string, Account>
    var accountSearchCache: map<string, Account>
    var volumeLocks: set<string>
    var shares: set<(Account, string)>     // where a volume's share has been created
    var log: seq<Event>                    // what accounts have answered
    var activations: nat                   // of CreateVolume

    constructor (reliable: bool, untagged: set<Account>, full: set<Account>, heavy: set<Account>)
      ensures this.reliable == reliable && this.untagged == untagged && this.full == full && this.heavy == heavy
      ensures volMap == map[] && accountSearchCache == map[] && volumeLocks == {} && shares == {} && log == [] && activations == 0
    {
      this.reliable, this.untagged, this.full, this.heavy := reliable, untagged, full, heavy;
      volMap, accountSearchCache, volumeLocks, activations := map[], map[], {}, 0;
      shares, log := {}, [];
    }

    function ViewOf(vol: string, key: string): View
      reads this
    {
      View(untagged,
        At(volMap, vol), At(accountSearchCache, key))
    }

    /** Other volumes and search keys are as before. */
    twostate predicate OthersUnchanged(vol: string, key: string)
      reads this
    {
      && SameExcept(volMap, old(volMap), {vol})
      && SameExcept(accountSearchCache, old(accountSearchCache), {key, ""})
    }

    /** The accounts that refuse when nothing goes wrong. */
    function Refusing(quotaSet: bool): set<Account> {
      full + if quotaSet then heavy else {}
    }

    /** The account for this activation: remembered, cached, or a matching one
        that is recorded unless its quota is used up. */
    method ChooseAccount(vol: string, key: string, quotaSet: bool) returns (account: Option<Account>, lockKey: string, over: bool)
      modifies this`volMap, this`accountSearchCache, this`log
      ensures
        var v := old(ViewOf(vol, key));
        if v.remembered.Some? then account == v.remembered && lockKey == "" && !over && ViewOf(vol, key) == v
        else if v.cached.Some? then account == v.cached && lockKey == key && !over && ViewOf(vol, key) == v
        else if account == None then ViewOf(vol, key) == v && !over
        else
          && lockKey == key && account.value in untagged
          && ViewOf(vol, key) == if over then v else View(untagged, account, account)
      ensures log == old(log) + if over then [OverQuota(account.value)] else []
      ensures OthersUnchanged(vol, key)
      ensures reliable && account == None ==> untagged == {}
      ensures over ==> quotaSet && (reliable ==> account.value in heavy)
      ensures
        var v := old(ViewOf(vol, key));
        reliable && quotaSet && v.remembered.None? && v.cached.None? && account.Some? && account.value in heavy ==> over
    {
      account, lockKey, over := None, "", false;
      if vol in volMap {
        return Some(volMap[vol]), "", false;
      }
      lockKey := key;
      if key in accountSearchCache {
        return Some(accountSearchCache[key]), key, false;
      }
      var found: bool := *;
      if (found || reliable) && untagged != {} {
        var a :| a in untagged;
        over := *;
        over := quotaSet && if reliable then a in heavy else over;
        if over {
          log := log + [OverQuota(a)];
        } else {
          accountSearchCache := accountSearchCache[lockKey := a];
          volMap := volMap[vol := a];
        }
        account := Some(a);
      }
    }

    /** CreateFileShare on the account: the share is there when it says so, and may be
        when it reports another error. */
    method CreateFileShare(vol: string, account: Account) returns (r: ShareResult)
      modifies `shares, `log
      ensures log == old(log) + [Asked(account, r)]
      ensures shares == old(shares) + {(account, vol)} || (r != Created && shares == old(shares))
      ensures r == AccountFull ==> shares == old(shares)
      ensures reliable ==> r == if account in full then AccountFull else Created
    {
      r := *;
      var lost: bool := *;
      if reliable {
        r := if account in full then AccountFull else Created;
      }
      if r == Created || (r == OtherError && lost) {
        shares := shares + {(account, vol)};
      }
      log := log + [Asked(account, r)];
    }

    /** Tags the account that refused, releases the volume and, unless the account was
        never recorded, forgets it; after that CreateVolume may call itself again. */
    method SkipAccount(vol: string, key: string, lockKey: string, account: Account, over: bool) returns (retry: bool)
      requires lockKey == key || lockKey == ""
      modifies `untagged, `volumeLocks, `accountSearchCache, `volMap
      ensures untagged == old(untagged) - {account} && volumeLocks == old(volumeLocks) - {vol}
      ensures OthersUnchanged(vol, key)
      ensures reliable ==> retry
      ensures
        var v := old(ViewOf(vol, key));
        retry && key != "" ==>
          ViewOf(vol, key) == View(untagged, if over then v.remembered else None, if over || lockKey == "" then v.cached else None)
    {
      untagged := untagged - {account};         // AddStorageAccountTags
      volumeLocks := volumeLocks - {vol};       // before the retry, and again when it returns
      if !over {
        var deleted: bool := *;
        if !deleted && !reliable {
          return false;
        }
        accountSearchCache := accountSearchCache - {lockKey};
        volMap := volMap - {vol};
      }
      retry := true;
    }

    /** Where the next call for the volume finds the account. */
    predicate Finds(vol: string, key: string, a: Account)
      reads this
    {
      var v := ViewOf(vol, key);
      v.remembered == Some(a) || (v.remembered == None && v.cached == Some(a))
    }

    /** One activation with the volume's lock: a result, or a refusal after which
        CreateVolume calls itself again. */
    method Activate(vol: string, key: string, quotaSet: bool) returns (r: Option<Result>, ghost event: Event)
      requires key != "" && vol in volumeLocks
      modifies `volMap, `accountSearchCache, `untagged, `volumeLocks, `shares, `log
      ensures log == old(log) + [event] && OthersUnchanged(vol, key) && OnlyMakes(old(shares), shares, vol)
      ensures untagged == if Refuses(event) then old(untagged) - {event.account} else old(untagged)
      ensures volumeLocks == if Refuses(event) then old(volumeLocks) - {vol} else old(volumeLocks)
      ensures r == None ==> Refuses(event) && Next(POLICY)(old(ViewOf(vol, key)), ViewOf(vol, key))
      ensures r == None ==> |untagged| + Entries(ViewOf(vol, key)) < old(|untagged| + Entries(ViewOf(vol, key)))
      ensures r.Some? ==> ResultOf(r.value, event) && (reliable ==> !Refuses(event))
      ensures event.Asked? && event.answer == Created ==> (event.account, vol) in shares && Finds(vol, key, event.account)
      ensures reliable && Refuses(event) ==> event.account in Refusing(quotaSet)
      ensures reliable && !Refuses(event) ==> if event == NoneFound then untagged == {} else event.answer == Created && event.account !in full
    {
      ghost var start := ViewOf(vol, key);
      var account, lockKey, over := ChooseAccount(vol, key, quotaSet);
      if account == None {
        event := NoneFound;
        log := log + [NoneFound];
        return Some(Failed), event;
      }
      event := OverQuota(account.value);
      if !over {
        var answer := CreateFileShare(vol, account.value);
        event := Asked(account.value, answer);
        if answer != AccountFull {
          return Some(if answer == Created then Chosen(account.value) else Failed), event;
        }
      }
      var retry := SkipAccount(vol, key, lockKey, account.value, over);
      if !retry {
        return Some(Failed), event;
      }
      RetryFollows(start, account.value, ViewOf(vol, key));
      r := None;
    }

    /** Chooses an account for the volume and creates its share there. Its activations
        are a chain of retries, each after a refusal; the account chosen is the one that
        created the share, where the next call for the volume finds it; the accounts that
        refused are tagged and no others; with reliable calls it fails only when all
        matching accounts are tagged. */
    method CreateVolume(vol: string, key: string, quotaSet: bool) returns (r: Result, ghost run: seq<View>)
      requires key != ""
      modifies this
      ensures Activations(POLICY, run, old(ViewOf(vol, key)))
      ensures |run| <= |old(untagged)| + Entries(old(ViewOf(vol, key))) + 1
      ensures activations == old(activations) + |run|
      ensures (r == Aborted <==> vol in old(volumeLocks)) && volumeLocks == old(volumeLocks)
      ensures OthersUnchanged(vol, key) && OnlyMakes(old(shares), shares, vol)
      ensures old(log) <= log && TagsRefusals(old(untagged), untagged, log, |old(log)|)
      ensures if r == Aborted then log == old(log) else Explains(log, |old(log)|, |run|, r)
      ensures r.Chosen? ==> (r.account, vol) in shares && Finds(vol, key, r.account)
      ensures reliable && r == Failed ==> untagged == {}
      ensures reliable ==> forall a :: a in old(untagged) && a !in untagged ==> a in Refusing(quotaSet)
      ensures reliable && r.Chosen? ==> r.account !in full
      decreases |untagged| + Entries(ViewOf(vol, key))
    {
      ghost var start, u0, l0, s0, v0, c0 := ViewOf(vol, key), untagged, log, shares, volMap, accountSearchCache;
      run := [start];
      activations := activations + 1;
      if vol in volumeLocks {
        return Aborted, run;
      }
      LeavesNoTrace(volumeLocks, vol);
      volumeLocks := volumeLocks + {vol};
      var once;
      ghost var event;
      once, event := Activate(vol, key, quotaSet);
      if once.Some? {
        OneEvent(u0, untagged, l0, event, once.value);
        volumeLocks := volumeLocks - {vol};
        return once.value, run;
      }
      ghost var mid, u1, s1, v1, c1 := ViewOf(vol, key), untagged, shares, volMap, accountSearchCache;
      ghost var rest;
      r, rest := CreateVolume(vol, key, quotaSet);
      TagsMore(u0, u1, untagged, l0, event, log);
      ExplainsMore(l0, event, log, |rest|, r);
      OnlyMakesMore(s0, s1, shares, vol);
      SameMore(v0, v1, volMap, {vol});
      SameMore(c0, c1, accountSearchCache, {key, ""});
      Longer(start, mid, rest);
      run := [start] + rest;
      volumeLocks := volumeLocks - {vol};
    }
  }

  lemma RetryFollows(v: View, a: Account, v': View)
    requires v'.untagged == v.untagged - {a} && v'.remembered == None
    requires v.remembered.Some? ==> v.remembered.value == a && v'.cached == v.cached
    requires v.remembered == None && v.cached.Some? ==> v.cached.value == a
    requires v.remembered == None ==> v'.cached == None && (v.cached == None ==> a in v.untagged)
    ensures Retries(POLICY, v, v') && |v'.untagged| + Entries(v') < |v.untagged| + Entries(v)
  {
    assert v.remembered == None && v.cached == None ==> Picks(POLICY, v.untagged, a, v.untagged) && Tagged(POLICY, v.untagged, a, v'.untagged);
    RetryFalls(POLICY, v, v');
  }
}
