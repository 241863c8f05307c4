/** Volume attributes: maps whose keys are read without regard to case, and read in
    whatever order the runtime iterates over them. */
module CaseMaps {
  import opened Results
  import opened Strings
  import FolderTree

  type Entries = map<string, string>

  ghost predicate Collides(m: Entries) {
    exists a, b :: a in m && b in m && a != b && EqualFold(a, b)
  }

  /** The value under some spelling of the name. */
  ghost function Found(m: Entries, name: string): Option<string> {
    if exists k :: k in m && EqualFold(k, name) then
      var k :| k in m && EqualFold(k, name);
      Some(m[k])
    else None
  }

  // ---------- attributes in place ----------

  class Attributes {
    var entries: Entries

    constructor (m: Entries)
      ensures entries == m
    {
      entries := m;
    }

    /** setKeyValueInMap: afterwards the key is the only spelling of itself, and no
        other attribute has changed, whatever the order of the visit. */
    method Set(key: string, value: string)
      modifies this
      ensures SetOnce(old(entries), entries, key, value)
    {
      var left := entries.Keys;
      while left != {}
        invariant forall k :: k in entries ==> k in old(entries) && entries[k] == old(entries)[k]
        invariant forall k :: k in old(entries) && (!EqualFold(k, key) || k in left) ==> k in entries
        invariant forall k :: k in entries && EqualFold(k, key) ==> k in left
        decreases |left|
      {
        var k :| k in left;
        left := left - {k};
        if EqualFold(k, key) {
          entries := entries - {k};
        }
      }
      entries := entries[key := value];
    }

    /** getValueInMap: some spelling's value, or nothing when there is no spelling. */
    method Get(key: string) returns (value: string, ghost found: bool)
      ensures found <==> exists k :: k in entries && EqualFold(k, key)
      ensures found ==> exists k :: k in entries && EqualFold(k, key) && value == entries[k]
      ensures !found ==> value == ""
      ensures forall k :: k in entries && EqualFold(k, key) && !Collides(entries) ==> value == entries[k]
      ensures !Collides(entries) ==> Found(entries, key) == if found then Some(value) else None
    {
      var left := entries.Keys;
      while left != {}
        invariant left <= entries.Keys && forall k :: k in entries && k !in left ==> !EqualFold(k, key)
        decreases |left|
      {
        var k :| k in left;
        left := left - {k};
        if EqualFold(k, key) {
          return entries[k], true;
        }
      }
      return "", false;
    }

    /** caseCollidingKey: reports a collision exactly when there is one. */
    method CollidingKey() returns (pair: string, found: bool)
      ensures found <==> Collides(entries)
      ensures found ==> exists k :: k in entries && pair == ToLower(k) + ", " + ToLower(k)
    {
      var outer := entries.Keys;
      while outer != {}
        invariant outer <= entries.Keys
        invariant forall a, b :: a in entries && a !in outer && b in entries && a != b ==> !EqualFold(a, b)
        decreases |outer|
      {
        var a :| a in outer;
        outer := outer - {a};
        var inner := entries.Keys;
        while inner != {}
          invariant inner <= entries.Keys && forall b :: b in entries && b !in inner && a != b ==> !EqualFold(a, b)
          decreases |inner|
        {
          var b :| b in inner;
          inner := inner - {b};
          if a != b && EqualFold(a, b) {
            return ToLower(a) + ", " + ToLower(b), true;
          }
        }
      }
      return "", false;
    }

    /** The rewriting of an inline volume's attributes before staging: colliding keys
        are refused; otherwise the secret's namespace becomes the pod's and, for key
        access by secret, the account is left to the secret. Every other attribute,
        the account too when the key is not read by secret, is as it was. */
    method RewriteInline(keyFromSecret: bool) returns (refused: bool)
      modifies this
      ensures refused <==> Collides(old(entries))
      ensures refused ==> entries == old(entries)
      ensures !refused ==>
        var pod := "csi.storage.k8s.io/pod.namespace";
        var namespace := if pod in old(entries) then old(entries)[pod] else "";
        !Collides(entries) && Only(entries, "secretnamespace", namespace)
        && (keyFromSecret ==> Only(entries, "getaccountkeyfromsecret", "true") && Only(entries, "storageaccount", ""))
      ensures !refused ==> KeptBut(old(entries), entries, Rewritten(keyFromSecret))
      ensures !refused && !keyFromSecret ==>
        forall k :: EqualFold(k, "storageaccount") || EqualFold(k, "getaccountkeyfromsecret") ==> Same(old(entries), entries, k)
    {
      var pair, found := CollidingKey();
      if found {
        return true;
      }
      ghost var m0 := entries;
      var namespace := if POD_NAMESPACE in entries then entries[POD_NAMESPACE] else "";
      DifferentKeys();
      Set("secretnamespace", namespace);
      SetLeaves(m0, entries, "secretnamespace", namespace);
      if keyFromSecret {
        ghost var m1 := entries;
        Set("getaccountkeyfromsecret", "true");
        ghost var m2 := entries;
        Set("storageaccount", "");
        TwoMore(m0, m1, m2, entries, namespace);
      }
      refused := false;
    }
  }

  /** The attributes the rewriting sets. */
  function Rewritten(keyFromSecret: bool): set<string> {
    if keyFromSecret then {"secretnamespace", "getaccountkeyfromsecret", "storageaccount"} else {"secretnamespace"}
  }

  /** The key stands in both maps with one value, or in neither. */
  predicate Same(before: Entries, after: Entries, k: string) {
    (k in before <==> k in after) && (k in before ==> before[k] == after[k])
  }

  /** The map after the key was set: the key is the only spelling of itself, and
      every other attribute is as it was. */
  ghost predicate SetOnce(before: Entries, after: Entries, key: string, value: string) {
    && key in after && after[key] == value
    && (forall k :: k in after && k != key ==> !EqualFold(k, key))
    && forall k :: !EqualFold(k, key) ==> Same(before, after, k)
  }

  predicate Spells(k: string, names: set<string>) {
    exists n :: n in names && EqualFold(k, n)
  }

  /** Nothing has changed but the spellings of these names. */
  ghost predicate KeptBut(before: Entries, after: Entries, names: set<string>) {
    forall k :: !Spells(k, names) ==> Same(before, after, k)
  }

  lemma KeptTwice(m0: Entries, m1: Entries, m2: Entries, first: set<string>, second: set<string>)
    requires KeptBut(m0, m1, first) && KeptBut(m1, m2, second)
    ensures KeptBut(m0, m2, first + second)
  {
    forall k | !Spells(k, first + second) ensures Same(m0, m2, k) {
      assert !Spells(k, first) && !Spells(k, second) by {
        forall n | n in first || n in second ensures !EqualFold(k, n) {
          assert n in first + second;
        }
      }
      assert Same(m0, m1, k) && Same(m1, m2, k);
    }
  }

  const POD_NAMESPACE := "csi.storage.k8s.io/pod.namespace"

  /** The attribute has one spelling and this value. */
  ghost predicate Only(m: Entries, key: string, value: string) {
    (exists k :: k in m && EqualFold(k, key)) && forall k :: k in m && EqualFold(k, key) ==> m[k] == value
  }

  lemma DifferentKeys()
    ensures !EqualFold("secretnamespace", "getaccountkeyfromsecret")
    ensures !EqualFold("secretnamespace", "storageaccount")
    ensures !EqualFold("getaccountkeyfromsecret", "storageaccount")
  {
    assert |"secretnamespace"| == 15 && |"getaccountkeyfromsecret"| == 23 && |"storageaccount"| == 14;
  }

  /** Setting one attribute brings in no collision and makes its spelling the only one. */
  lemma SetLeaves(before: Entries, after: Entries, key: string, value: string)
    requires SetOnce(before, after, key, value) && !Collides(before)
    ensures !Collides(after) && Only(after, key, value) && KeptBut(before, after, {key})
    ensures forall k :: !EqualFold(k, key) ==> Same(before, after, k)
  {
    assert EqualFold(key, key);
    forall k | !Spells(k, {key}) ensures Same(before, after, k) {
      assert key in {key};
    }
  }

  /** Setting an attribute leaves the others their one value. */
  lemma OnlyKept(before: Entries, after: Entries, key: string, value: string, other: string, v: string)
    requires SetOnce(before, after, key, value) && Only(before, other, v) && !EqualFold(other, key)
    ensures Only(after, other, v)
  {
    var k :| k in before && EqualFold(k, other);
    assert Same(before, after, k);
    forall x | x in after && EqualFold(x, other) ensures after[x] == v {
      assert Same(before, after, x);
    }
  }

  /** The two attributes that follow the namespace. */
  lemma TwoMore(m0: Entries, m1: Entries, m2: Entries, m3: Entries, namespace: string)
    requires !Collides(m1) && Only(m1, "secretnamespace", namespace) && KeptBut(m0, m1, {"secretnamespace"})
    requires SetOnce(m1, m2, "getaccountkeyfromsecret", "true") && SetOnce(m2, m3, "storageaccount", "")
    ensures !Collides(m3) && Only(m3, "secretnamespace", namespace) && Only(m3, "getaccountkeyfromsecret", "true")
    ensures Only(m3, "storageaccount", "") && KeptBut(m0, m3, Rewritten(true))
  {
    DifferentKeys();
    SetLeaves(m1, m2, "getaccountkeyfromsecret", "true");
    SetLeaves(m2, m3, "storageaccount", "");
    OnlyKept(m1, m2, "getaccountkeyfromsecret", "true", "secretnamespace", namespace);
    OnlyKept(m2, m3, "storageaccount", "", "secretnamespace", namespace);
    OnlyKept(m2, m3, "storageaccount", "", "getaccountkeyfromsecret", "true");
    KeptTwice(m0, m1, m2, {"secretnamespace"}, {"getaccountkeyfromsecret"});
    KeptTwice(m0, m2, m3, {"secretnamespace"} + {"getaccountkeyfromsecret"}, {"storageaccount"});
    assert {"secretnamespace"} + {"getaccountkeyfromsecret"} + {"storageaccount"} == Rewritten(true);
  }

  // ---------- reading attributes ----------

  datatype Value = Text(s: string) | Flag(b: bool) | Mode(n: nat)

  /** A local variable of the reading loop: one for each attribute, and the flag
      that mount permissions of zero also clear. */
  datatype Slot = Of(key: string) | ChmodOp

  datatype Effect = Keep | Reject | Put(slot: Slot, value: Value)

  datatype Outcome = Rejected | Accepted(slots: map<Slot, Value>)

  /** What the loop's switch does with a lower-case key and its value. */
  type Table = (string, string) -> Effect

  function EffectOf(m: Entries, t: Table, k: string): Effect
    requires k in m
  {
    t(ToLower(k), m[k])
  }

  function Apply(o: Outcome, e: Effect): Outcome {
    match (o, e)
    case (Rejected, _) => Rejected
    case (_, Reject) => Rejected
    case (_, Keep) => o
    case (Accepted(slots), Put(s, v)) => Accepted(slots[s := v])
  }

  /** The keys of the map, each once, in some order. */
  ghost predicate IsOrder(order: seq<string>, m: Entries) {
    && (forall k :: k in order <==> k in m)
    && (forall i, j :: 0 <= i < j < |order| ==> order[i] != order[j])
  }

  function Fold(order: seq<string>, m: Entries, t: Table, start: map<Slot, Value>): Outcome
    requires forall k :: k in order ==> k in m
  {
    if order == [] then Accepted(start)
    else Apply(Fold(order[..|order| - 1], m, t, start), EffectOf(m, t, order[|order| - 1]))
  }

  /** The reading loop, over whatever order the iteration takes. */
  method ReadAll(m: Entries, t: Table, start: map<Slot, Value>) returns (o: Outcome, ghost order: seq<string>)
    ensures IsOrder(order, m) && o == Fold(order, m, t, start)
    ensures o.Rejected? <==> SomeRejects(m, t)
  {
    o := Accepted(start);
    order := [];
    var left := m.Keys;
    while left != {}
      invariant left <= m.Keys && (forall k :: k in order <==> k in m && k !in left)
      invariant forall i, j :: 0 <= i < j < |order| ==> order[i] != order[j]
      invariant o == Fold(order, m, t, start)
      decreases |left|
    {
      var k :| k in left;
      left := left - {k};
      assert (order + [k])[..|order|] == order;
      order := order + [k];
      o := Apply(o, EffectOf(m, t, k));
    }
    FoldRejects(order, m, t, start);
  }

  // ---------- when the order matters ----------

  ghost predicate SomeRejects(m: Entries, t: Table) {
    exists k :: k in m && EffectOf(m, t, k) == Reject
  }

  /** Two attributes put different values in the same slot. */
  ghost predicate Clash(m: Entries, t: Table, a: string, b: string) {
    && a in m && b in m
    && var (e, f) := (EffectOf(m, t, a), EffectOf(m, t, b));
       e.Put? && f.Put? && e.slot == f.slot && e.value != f.value
  }

  ghost predicate SomeClash(m: Entries, t: Table) {
    exists a, b :: Clash(m, t, a, b)
  }

  ghost predicate OrderFree(m: Entries, t: Table, start: map<Slot, Value>) {
    forall o1, o2 :: IsOrder(o1, m) && IsOrder(o2, m) ==> Fold(o1, m, t, start) == Fold(o2, m, t, start)
  }

  /** The outcome that the visited keys agree on: their values where they put any,
      the starting values elsewhere. */
  ghost predicate Settled(keys: seq<string>, m: Entries, t: Table, start: map<Slot, Value>, o: Outcome)
    requires forall k :: k in keys ==> k in m
  {
    && o.Accepted?
    && (forall k :: k in keys && EffectOf(m, t, k).Put? ==>
          EffectOf(m, t, k).slot in o.slots && o.slots[EffectOf(m, t, k).slot] == EffectOf(m, t, k).value)
    && (forall s :: s in o.slots ==> (s in start && o.slots[s] == start[s]) || PutBy(keys, m, t, s))
    && (forall s :: s in start && !PutBy(keys, m, t, s) ==> s in o.slots && o.slots[s] == start[s])
  }

  ghost predicate PutBy(keys: seq<string>, m: Entries, t: Table, s: Slot)
    requires forall k :: k in keys ==> k in m
  {
    exists k :: k in keys && EffectOf(m, t, k).Put? && EffectOf(m, t, k).slot == s
  }

  lemma {:induction false} FoldRejects(order: seq<string>, m: Entries, t: Table, start: map<Slot, Value>)
    requires forall k :: k in order ==> k in m
    ensures Fold(order, m, t, start).Rejected? <==> exists k :: k in order && EffectOf(m, t, k) == Reject
  {
    if order != [] {
      var n := |order| - 1;
      FoldRejects(order[..n], m, t, start);
      assert order == order[..n] + [order[n]];
    }
  }

  lemma {:induction false} FoldSettles(order: seq<string>, m: Entries, t: Table, start: map<Slot, Value>)
    requires forall k :: k in order ==> k in m
    requires !SomeRejects(m, t) && !SomeClash(m, t)
    ensures Settled(order, m, t, start, Fold(order, m, t, start))
  {
    if order != [] {
      var n := |order| - 1;
      FoldSettles(order[..n], m, t, start);
      SettleOne(order[..n], order[n], m, t, start, Fold(order[..n], m, t, start));
      assert order == order[..n] + [order[n]];
    }
  }

  lemma SettleOne(keys: seq<string>, k: string, m: Entries, t: Table, start: map<Slot, Value>, o: Outcome)
    requires k in m && (forall x :: x in keys ==> x in m) && !SomeRejects(m, t) && !SomeClash(m, t)
    requires Settled(keys, m, t, start, o)
    ensures Settled(keys + [k], m, t, start, Apply(o, EffectOf(m, t, k)))
  {
    var e := EffectOf(m, t, k);
    var o' := Apply(o, e);
    forall x | x in keys && EffectOf(m, t, x).Put?
      ensures EffectOf(m, t, x).slot in o'.slots && o'.slots[EffectOf(m, t, x).slot] == EffectOf(m, t, x).value
    {
      assert !Clash(m, t, x, k);
    }
    forall s ensures PutBy(keys + [k], m, t, s) <==> PutBy(keys, m, t, s) || (e.Put? && e.slot == s) {
      assert k in keys + [k];
      if PutBy(keys, m, t, s) {
        var x :| x in keys && EffectOf(m, t, x).Put? && EffectOf(m, t, x).slot == s;
        assert x in keys + [k];
      }
    }
  }

  lemma SettledOnce(o1: seq<string>, o2: seq<string>, m: Entries, t: Table, start: map<Slot, Value>, r1: Outcome, r2: Outcome)
    requires IsOrder(o1, m) && IsOrder(o2, m)
    requires Settled(o1, m, t, start, r1) && Settled(o2, m, t, start, r2)
    ensures r1 == r2
  {
    forall s ensures s in r1.slots <==> s in r2.slots {
      assert PutBy(o1, m, t, s) <==> PutBy(o2, m, t, s);
    }
    forall s | s in r1.slots ensures r1.slots[s] == r2.slots[s] {
      assert PutBy(o1, m, t, s) <==> PutBy(o2, m, t, s);
    }
    assert r1.slots == r2.slots;
  }

  lemma {:induction false} OrderOf(keys: set<string>) returns (order: seq<string>)
    ensures (forall k :: k in order <==> k in keys) && forall i, j :: 0 <= i < j < |order| ==> order[i] != order[j]
    decreases |keys|
  {
    if keys == {} {
      order := [];
    } else {
      var k :| k in keys;
      order := OrderOf(keys - {k});
      order := order + [k];
    }
  }

  /** The last visitor of a slot has the last word. */
  lemma LastWord(order: seq<string>, m: Entries, t: Table, start: map<Slot, Value>)
    requires order != [] && (forall k :: k in order ==> k in m) && !SomeRejects(m, t)
    ensures
      var e := EffectOf(m, t, order[|order| - 1]);
      var o := Fold(order, m, t, start);
      o.Accepted? && (e.Put? ==> e.slot in o.slots && o.slots[e.slot] == e.value)
  {
    FoldRejects(order, m, t, start);
  }

  lemma VisitLast(m: Entries, k: string) returns (order: seq<string>)
    requires k in m
    ensures IsOrder(order, m) && order[|order| - 1] == k
  {
    order := OrderOf(m.Keys - {k});
    order := order + [k];
  }

  /** The loop's outcome does not depend on the order of the visit exactly when some
      value is refused, or no two attributes disagree about a slot. */
  lemma OrderFreeExactly(m: Entries, t: Table, start: map<Slot, Value>)
    ensures OrderFree(m, t, start) <==> SomeRejects(m, t) || !SomeClash(m, t)
  {
    if SomeRejects(m, t) {
      forall o | IsOrder(o, m) ensures Fold(o, m, t, start) == Rejected {
        FoldRejects(o, m, t, start);
      }
    } else if SomeClash(m, t) {
      var a, b :| Clash(m, t, a, b);
      var o1 := VisitLast(m, a);
      var o2 := VisitLast(m, b);
      LastWord(o1, m, t, start);
      LastWord(o2, m, t, start);
      assert Fold(o1, m, t, start) != Fold(o2, m, t, start);
    } else {
      forall o1, o2 | IsOrder(o1, m) && IsOrder(o2, m) ensures Fold(o1, m, t, start) == Fold(o2, m, t, start) {
        FoldSettles(o1, m, t, start);
        FoldSettles(o2, m, t, start);
        SettledOnce(o1, o2, m, t, start, Fold(o1, m, t, start), Fold(o2, m, t, start));
      }
    }
  }

  /** Each slot belongs to one attribute. */
  ghost predicate Separate(t: Table) {
    forall k1, v1, k2, v2 :: t(k1, v1).Put? && t(k2, v2).Put? && t(k1, v1).slot == t(k2, v2).slot ==> k1 == k2
  }

  /** Without colliding keys every order gives the same outcome, and each attribute's
      slot holds what its one spelling says: the value a lookup by name finds. */
  lemma NoCollisionNoOrder(m: Entries, t: Table, start: map<Slot, Value>, order: seq<string>)
    requires Separate(t) && !Collides(m) && IsOrder(order, m)
    ensures OrderFree(m, t, start) && (Fold(order, m, t, start).Rejected? <==> SomeRejects(m, t))
    ensures
      forall k :: k in m && EffectOf(m, t, k).Put? && !SomeRejects(m, t) ==>
        var e := t(ToLower(k), m[k]);
        e.slot in Fold(order, m, t, start).slots && Fold(order, m, t, start).slots[e.slot] == e.value
  {
    NoClash(m, t);
    OrderFreeExactly(m, t, start);
    FoldRejects(order, m, t, start);
    if !SomeRejects(m, t) {
      FoldSettles(order, m, t, start);
    }
  }

  // ---------- the two reading loops ----------

  /** strconv.ParseBool */
  function ParseBool(key: string, v: string): Effect {
    if v in ["1", "t", "T", "TRUE", "true", "True"] then Put(Of(key), Flag(true))
    else if v in ["0", "f", "F", "FALSE", "false", "False"] then Put(Of(key), Flag(false))
    else Reject
  }

  /** The value of octal digits. */
  function Octal(v: string): nat
    requires forall i :: 0 <= i < |v| ==> '0' <= v[i] <= '7'
  {
    if v == "" then 0 else 8 * Octal(v[..|v| - 1]) + (v[|v| - 1] as int - '0' as int)
  }

  function EightTo(n: nat): nat {
    if n == 0 then 1 else 8 * EightTo(n - 1)
  }

  /** Read from the front: each digit counts for the power of eight of its place. */
  lemma {:induction false} OctalPlaces(v: string)
    requires v != "" && forall i :: 0 <= i < |v| ==> '0' <= v[i] <= '7'
    ensures Octal(v) == (v[0] as int - 48) * EightTo(|v| - 1) + if |v| == 1 then 0 else Octal(v[1..])
  {
    if |v| > 1 {
      var n := |v| - 1;
      OctalPlaces(v[..n]);
      assert v[..n][1..] == v[1..][..n - 1] && v[1..][n - 1] == v[n];
      var d, e := v[0] as int - 48, EightTo(n - 1);
      assert 8 * (d * e) == d * (8 * e);
    } else {
      assert v[..0] == "";
    }
  }

  function ReadPermissions(v: string): Effect {
    if v == "" then Keep
    else if (exists i :: 0 <= i < |v| && !('0' <= v[i] <= '7')) || Octal(v) >= 0x1_0000_0000 then Reject
    else if Octal(v) == 0 then Put(ChmodOp, Flag(false))
    else Put(Of("mountpermissions"), Mode(Octal(v)))
  }

  /** The switch of GetAccountInfo's loop. */
  function AccountSwitch(key: string, v: string): Effect {
    match key
    case "subscriptionid" => Put(Of(key), Text(v))
    case "resourcegroup" => Put(Of(key), Text(v))
    case "storageaccount" => Put(Of(key), Text(v))
    case "getaccountkeyfromsecret" => if EqualFold(v, "true") then Put(Of(key), Flag(true)) else Keep
    case "sharename" => Put(Of(key), Text(v))
    case "diskname" => Put(Of(key), Text(v))
    case "protocol" => Put(Of(key), Text(v))
    case "secretname" => Put(Of(key), Text(v))
    case "secretnamespace" => Put(Of(key), Text(v))
    case "csi.storage.k8s.io/pvc/namespace" => Put(Of(key), Text(v))
    case "getlatestaccountkey" => ParseBool(key, v)
    case "clientid" => Put(Of(key), Text(v))
    case "mountwithmanagedidentity" => ParseBool(key, v)
    case "mountwithoauthtoken" => ParseBool(key, v)
    case "mountwithworkloadidentitytoken" => ParseBool(key, v)
    case "tenantid" => Put(Of(key), Text(v))
    case _ => Keep
  }

  /** The switch of NodeStageVolume's loop. */
  function StageSwitch(key: string, v: string): Effect {
    match key
    case "fstype" => Put(Of(key), Text(v))
    case "protocol" => Put(Of(key), Text(v))
    case "diskname" => Put(Of(key), Text(v))
    case "foldername" =>
      var folder := FolderTree.TrimSlashes(v);
      if FolderTree.ValidName(folder) then Put(Of(key), Text(folder)) else Reject
    case "createfolderifnotexist" => Put(Of(key), Flag(EqualFold(v, "true")))
    case "server" => Put(Of(key), Text(v))
    case "csi.storage.k8s.io/ephemeral" => Put(Of(key), Flag(EqualFold(v, "true")))
    case "mountoptions" => Put(Of(key), Text(v))
    case "storageendpointsuffix" => Put(Of(key), Text(v))
    case "fsgroupchangepolicy" => Put(Of(key), Text(v))
    case "csi.storage.k8s.io/pvc/namespace" => Put(Of(key), Text(v))
    case "csi.storage.k8s.io/pvc/name" => Put(Of(key), Text(v))
    case "csi.storage.k8s.io/pv/name" => Put(Of(key), Text(v))
    case "mountpermissions" => ReadPermissions(v)
    case "encryptintransit" => ParseBool(key, v)
    case "mountwithmanagedidentity" => ParseBool(key, v)
    case "mountwithoauthtoken" => ParseBool(key, v)
    case "mountwithworkloadidentitytoken" => ParseBool(key, v)
    case "clientid" => Put(Of(key), Text(v))
    case _ => Keep
  }

  lemma OwnSlots(key: string, v: string)
    ensures AccountSwitch(key, v).Put? ==> AccountSwitch(key, v).slot == Of(key)
    ensures StageSwitch(key, v).Put? ==>
      StageSwitch(key, v).slot == Of(key) || (key == "mountpermissions" && StageSwitch(key, v).slot == ChmodOp)
  {
  }

  lemma OneSlotEach()
    ensures Separate(AccountSwitch) && Separate(StageSwitch)
  {
    forall k, v {
      OwnSlots(k, v);
    }
  }

  /** After the inline rewriting both loops of the node accept or reject, and on
      acceptance read the same, under every order of the attributes. */
  lemma InlineReadsOneWay(m: Entries, start: map<Slot, Value>)
    requires !Collides(m)
    ensures OrderFree(m, AccountSwitch, start) && OrderFree(m, StageSwitch, start)
  {
    OneSlotEach();
    var order := OrderOf(m.Keys);
    NoCollisionNoOrder(m, AccountSwitch, start, order);
    NoCollisionNoOrder(m, StageSwitch, start, order);
  }

  // ---------- what the loops read ----------

  /** The slot holds the value, or what it started with when there is none. */
  ghost predicate Holds(slots: map<Slot, Value>, start: map<Slot, Value>, s: Slot, v: Option<Value>) {
    if v.Some? then s in slots && slots[s] == v.value
    else (s in slots <==> s in start) && (s in start ==> slots[s] == start[s])
  }

  /** What the switch puts in the slot, seeing this value of the attribute. */
  ghost function PutIn(t: Table, name: string, v: Option<string>, s: Slot): Option<Value> {
    if v.Some? && t(name, v.value).Put? && t(name, v.value).slot == s then Some(t(name, v.value).value) else None
  }

  ghost predicate PutOnlyBy(t: Table, name: string, s: Slot) {
    forall k, v :: t(k, v).Put? && t(k, v).slot == s ==> k == name
  }

  lemma ReadsSlot(m: Entries, t: Table, start: map<Slot, Value>, order: seq<string>, name: string, s: Slot)
    requires !Collides(m) && IsOrder(order, m) && Separate(t) && PutOnlyBy(t, name, s) && ToLower(name) == name
    requires Fold(order, m, t, start).Accepted?
    ensures Holds(Fold(order, m, t, start).slots, start, s, PutIn(t, name, Found(m, name), s))
  {
    FoldRejects(order, m, t, start);
    NoClash(m, t);
    FoldSettles(order, m, t, start);
    if k :| k in m && EqualFold(k, name) {
      forall x | x in m && EqualFold(x, name) ensures x == k {
        assert EqualFold(x, k);
      }
      if PutIn(t, name, Found(m, name), s).Some? {
        assert EffectOf(m, t, k) == t(name, m[k]);
      } else {
        NotPut(m, t, order, name, s, k);
      }
    } else {
      forall x | x in order && EffectOf(m, t, x).Put? ensures EffectOf(m, t, x).slot != s {
        assert ToLower(x) == name ==> EqualFold(x, name);
      }
    }
  }

  lemma NotPut(m: Entries, t: Table, order: seq<string>, name: string, s: Slot, k: string)
    requires PutOnlyBy(t, name, s) && ToLower(name) == name && forall x :: x in order ==> x in m
    requires k in m && EqualFold(k, name) && (forall x :: x in m && EqualFold(x, name) ==> x == k)
    requires t(name, m[k]).Put? ==> t(name, m[k]).slot != s
    ensures !PutBy(order, m, t, s)
  {
    forall x | x in order && EffectOf(m, t, x).Put? ensures EffectOf(m, t, x).slot != s {
      assert ToLower(x) == name ==> EqualFold(x, name);
    }
  }

  lemma NoClash(m: Entries, t: Table)
    requires Separate(t) && !Collides(m)
    ensures !SomeClash(m, t)
  {
    forall a, b ensures !Clash(m, t, a, b) {
      if Clash(m, t, a, b) {
        assert EqualFold(a, b);
      }
    }
  }

  function AsText(v: Option<string>): Option<Value> {
    if v.Some? then Some(Text(v.value)) else None
  }

  /** The flag a boolean attribute says, none when it says neither. */
  function AsFlag(v: Option<string>): Option<Value> {
    if v.None? then None
    else if v.value in {"1", "t", "T", "TRUE", "true", "True"} then Some(Flag(true))
    else if v.value in {"0", "f", "F", "FALSE", "false", "False"} then Some(Flag(false))
    else None
  }

  /** A flag that only "true", in any case, sets. */
  function AsTrue(v: Option<string>): Option<Value> {
    if v.Some? && EqualFold(v.value, "true") then Some(Flag(true)) else None
  }

  /** A flag that is whether the attribute is "true", in any case. */
  function AsWhetherTrue(v: Option<string>): Option<Value> {
    if v.Some? then Some(Flag(EqualFold(v.value, "true"))) else None
  }

  predicate SaysFlag(v: Option<string>) {
    v.Some? ==> AsFlag(v).Some?
  }

  lemma NamespaceSwitch(v: string)
    ensures AccountSwitch("secretnamespace", v) == Put(Of("secretnamespace"), Text(v))
    ensures ToLower("secretnamespace") == "secretnamespace"
  {
  }

  /** The secret is then looked for in the pod's namespace and nowhere else. */
  lemma InlineNamespace(m: Entries, start: map<Slot, Value>, order: seq<string>, namespace: string)
    requires !Collides(m) && IsOrder(order, m) && Only(m, "secretnamespace", namespace)
    ensures
      var o := Fold(order, m, AccountSwitch, start);
      o.Accepted? ==> Of("secretnamespace") in o.slots && o.slots[Of("secretnamespace")] == Text(namespace)
  {
    NamespaceSwitch(namespace);
    OneSlotEach();
    var k :| k in m && EqualFold(k, "secretnamespace");
    NoCollisionNoOrder(m, AccountSwitch, start, order);
  }

  lemma LowerNames(name: string)
    requires IsLower(name)
    ensures ToLower(name) == name
  {
  }

  lemma OwnedBy(name: string)
    ensures PutOnlyBy(AccountSwitch, name, Of(name)) && PutOnlyBy(StageSwitch, name, Of(name))
    ensures PutOnlyBy(StageSwitch, "mountpermissions", ChmodOp)
  {
    forall k, v {
      OwnSlots(k, v);
    }
  }

  lemma NotRejected(m: Entries, t: Table, order: seq<string>, start: map<Slot, Value>, name: string)
    requires IsOrder(order, m) && !Collides(m) && ToLower(name) == name && Fold(order, m, t, start).Accepted?
    ensures Found(m, name).Some? ==> t(name, Found(m, name).value) != Reject
  {
    FoldRejects(order, m, t, start);
    if Found(m, name).Some? {
      var k :| k in m && EqualFold(k, name) && m[k] == Found(m, name).value;
      assert k in order;
    }
  }

  /** What is so of an attribute whatever its name: what the switch puts is read. */
  lemma Reads(m: Entries, t: Table, start: map<Slot, Value>, order: seq<string>, name: string)
    requires t == AccountSwitch || t == StageSwitch
    requires !Collides(m) && IsOrder(order, m) && Fold(order, m, t, start).Accepted?
    requires IsLower(name)
    ensures Holds(Fold(order, m, t, start).slots, start, Of(name), PutIn(t, name, Found(m, name), Of(name)))
    ensures Found(m, name).Some? ==> t(name, Found(m, name).value) != Reject
  {
    OneSlotEach();
    LowerNames(name);
    OwnedBy(name);
    ReadsSlot(m, t, start, order, name, Of(name));
    NotRejected(m, t, order, start, name);
  }

  // ---------- GetAccountInfo ----------

  predicate AccountText(name: string) {
    || name == "subscriptionid" || name == "resourcegroup" || name == "storageaccount" || name == "sharename"
    || name == "diskname" || name == "protocol" || name == "secretname" || name == "secretnamespace"
    || name == "csi.storage.k8s.io/pvc/namespace" || name == "clientid" || name == "tenantid"
  }

  predicate AccountFlag(name: string) {
    || name == "getlatestaccountkey" || name == "mountwithmanagedidentity" || name == "mountwithoauthtoken"
    || name == "mountwithworkloadidentitytoken"
  }

  predicate IsLower(name: string) {
    forall i :: 0 <= i < |name| ==> !('A' <= name[i] <= 'Z')
  }

  lemma LowerFew(name: string)
    requires name in ["subscriptionid", "resourcegroup", "storageaccount", "sharename", "diskname", "protocol"]
    ensures IsLower(name)
  {
  }

  lemma LowerMore(name: string)
    requires name in ["secretname", "secretnamespace", "clientid", "tenantid", "fstype", "server", "mountoptions"]
    ensures IsLower(name)
  {
  }

  lemma LowerLong(name: string)
    requires name in ["csi.storage.k8s.io/pvc/namespace", "csi.storage.k8s.io/pvc/name", "csi.storage.k8s.io/pv/name"]
    ensures IsLower(name)
  {
  }

  lemma LowerFlags(name: string)
    requires name in ["getlatestaccountkey", "mountwithmanagedidentity", "mountwithoauthtoken", "mountwithworkloadidentitytoken"]
    ensures IsLower(name)
  {
  }

  lemma LowerRest(name: string)
    requires name in ["storageendpointsuffix", "fsgroupchangepolicy", "encryptintransit", "createfolderifnotexist", "csi.storage.k8s.io/ephemeral"]
    ensures IsLower(name)
  {
  }

  lemma AccountTextSwitch(name: string, v: string)
    requires AccountText(name)
    ensures AccountSwitch(name, v) == Put(Of(name), Text(v))
  {
  }

  lemma AccountFlagSwitch(name: string, v: string)
    requires AccountFlag(name)
    ensures AccountSwitch(name, v) == ParseBool(name, v)
  {
  }

  lemma AccountTextLower(name: string)
    requires AccountText(name)
    ensures IsLower(name)
  {
    if name in ["subscriptionid", "resourcegroup", "storageaccount", "sharename", "diskname", "protocol"] {
      LowerFew(name);
    } else if name == "csi.storage.k8s.io/pvc/namespace" {
      LowerLong(name);
    } else {
      LowerMore(name);
    }
  }

  lemma KeyFromSecretSwitch(v: string)
    ensures AccountSwitch("getaccountkeyfromsecret", v)
            == if EqualFold(v, "true") then Put(Of("getaccountkeyfromsecret"), Flag(true)) else Keep
    ensures IsLower("getaccountkeyfromsecret")
  {
  }

  function Seen(v: Option<string>): string {
    if v.Some? then v.value else ""
  }

  /** Without colliding keys, under every order and if it accepts, the loop of
      GetAccountInfo reads each text attribute as it is given, or leaves it as it
      started. */
  lemma AccountReadsText(m: Entries, start: map<Slot, Value>, order: seq<string>, name: string)
    requires !Collides(m) && IsOrder(order, m) && Fold(order, m, AccountSwitch, start).Accepted? && AccountText(name)
    ensures Holds(Fold(order, m, AccountSwitch, start).slots, start, Of(name), AsText(Found(m, name)))
  {
    AccountTextSwitch(name, Seen(Found(m, name)));
    AccountTextLower(name);
    Reads(m, AccountSwitch, start, order, name);
  }

  /** A boolean attribute is read as it is spelled, in one of the accepted spellings. */
  lemma AccountReadsFlag(m: Entries, start: map<Slot, Value>, order: seq<string>, name: string)
    requires !Collides(m) && IsOrder(order, m) && Fold(order, m, AccountSwitch, start).Accepted? && AccountFlag(name)
    ensures SaysFlag(Found(m, name)) && Holds(Fold(order, m, AccountSwitch, start).slots, start, Of(name), AsFlag(Found(m, name)))
  {
    AccountFlagSwitch(name, Seen(Found(m, name)));
    LowerFlags(name);
    Reads(m, AccountSwitch, start, order, name);
    FlagParsed(name, Seen(Found(m, name)));
  }

  lemma FlagParsed(name: string, v: string)
    ensures ParseBool(name, v)
            == if AsFlag(Some(v)).Some? then Put(Of(name), AsFlag(Some(v)).value) else Reject
  {
  }

  /** The key is left to the secret only by "true", in any case. */
  lemma AccountReadsKeySource(m: Entries, start: map<Slot, Value>, order: seq<string>)
    requires !Collides(m) && IsOrder(order, m) && Fold(order, m, AccountSwitch, start).Accepted?
    ensures Holds(Fold(order, m, AccountSwitch, start).slots, start, Of("getaccountkeyfromsecret"),
                  AsTrue(Found(m, "getaccountkeyfromsecret")))
  {
    KeyFromSecretSwitch(Seen(Found(m, "getaccountkeyfromsecret")));
    Reads(m, AccountSwitch, start, order, "getaccountkeyfromsecret");
  }

  // ---------- NodeStageVolume ----------

  predicate StageText(name: string) {
    || name == "fstype" || name == "protocol" || name == "diskname" || name == "server" || name == "mountoptions"
    || name == "storageendpointsuffix" || name == "fsgroupchangepolicy" || name == "csi.storage.k8s.io/pvc/namespace"
    || name == "csi.storage.k8s.io/pvc/name" || name == "csi.storage.k8s.io/pv/name" || name == "clientid"
  }

  predicate StageFlag(name: string) {
    || name == "encryptintransit" || name == "mountwithmanagedidentity" || name == "mountwithoauthtoken"
    || name == "mountwithworkloadidentitytoken"
  }

  predicate StageWhether(name: string) {
    name == "createfolderifnotexist" || name == "csi.storage.k8s.io/ephemeral"
  }

  lemma StageTextSwitch(name: string, v: string)
    requires StageText(name)
    ensures StageSwitch(name, v) == Put(Of(name), Text(v))
  {
  }

  lemma StageTextLower(name: string)
    requires StageText(name)
    ensures IsLower(name)
  {
    if name == "protocol" || name == "diskname" {
      LowerFew(name);
    } else if name in ["fstype", "server", "mountoptions", "clientid"] {
      LowerMore(name);
    } else if name == "storageendpointsuffix" || name == "fsgroupchangepolicy" {
      LowerRest(name);
    } else {
      LowerLong(name);
    }
  }

  lemma StageFlagSwitch(name: string, v: string)
    requires StageFlag(name)
    ensures StageSwitch(name, v) == ParseBool(name, v)
  {
  }

  lemma StageWhetherSwitch(name: string, v: string)
    requires StageWhether(name)
    ensures StageSwitch(name, v) == Put(Of(name), Flag(EqualFold(v, "true")))
  {
  }

  lemma FolderSwitch(v: string)
    ensures StageSwitch("foldername", v)
            == var folder := FolderTree.TrimSlashes(v); if FolderTree.ValidName(folder) then Put(Of("foldername"), Text(folder)) else Reject
    ensures IsLower("foldername")
  {
  }

  lemma PermissionsSwitch(v: string)
    ensures StageSwitch("mountpermissions", v) == ReadPermissions(v) && IsLower("mountpermissions")
  {
  }

  /** The loop of NodeStageVolume, too, reads each text attribute as it is given. */
  lemma StageReadsText(m: Entries, start: map<Slot, Value>, order: seq<string>, name: string)
    requires !Collides(m) && IsOrder(order, m) && Fold(order, m, StageSwitch, start).Accepted? && StageText(name)
    ensures Holds(Fold(order, m, StageSwitch, start).slots, start, Of(name), AsText(Found(m, name)))
  {
    StageTextSwitch(name, Seen(Found(m, name)));
    StageTextLower(name);
    Reads(m, StageSwitch, start, order, name);
  }

  /** A boolean attribute is read as it is spelled, in one of the accepted spellings. */
  lemma StageReadsFlag(m: Entries, start: map<Slot, Value>, order: seq<string>, name: string)
    requires !Collides(m) && IsOrder(order, m) && Fold(order, m, StageSwitch, start).Accepted? && StageFlag(name)
    ensures SaysFlag(Found(m, name)) && Holds(Fold(order, m, StageSwitch, start).slots, start, Of(name), AsFlag(Found(m, name)))
  {
    StageFlagSwitch(name, Seen(Found(m, name)));
    if name == "encryptintransit" {
      LowerRest(name);
    } else {
      LowerFlags(name);
    }
    Reads(m, StageSwitch, start, order, name);
    FlagParsed(name, Seen(Found(m, name)));
  }

  /** Two flags are whether their attribute is "true", in any case. */
  lemma StageReadsWhether(m: Entries, start: map<Slot, Value>, order: seq<string>, name: string)
    requires !Collides(m) && IsOrder(order, m) && Fold(order, m, StageSwitch, start).Accepted? && StageWhether(name)
    ensures Holds(Fold(order, m, StageSwitch, start).slots, start, Of(name), AsWhetherTrue(Found(m, name)))
  {
    StageWhetherSwitch(name, Seen(Found(m, name)));
    LowerRest(name);
    Reads(m, StageSwitch, start, order, name);
  }

  /** The folder attribute is read without the slashes around it. */
  function AsFolder(v: Option<string>): Option<Value> {
    if v.Some? then Some(Text(FolderTree.TrimSlashes(v.value))) else None
  }

  /** The folder is read so, and is valid. */
  lemma StageReadsFolder(m: Entries, start: map<Slot, Value>, order: seq<string>)
    requires !Collides(m) && IsOrder(order, m) && Fold(order, m, StageSwitch, start).Accepted?
    ensures Holds(Fold(order, m, StageSwitch, start).slots, start, Of("foldername"), AsFolder(Found(m, "foldername")))
    ensures Found(m, "foldername").Some? ==> FolderTree.ValidName(FolderTree.TrimSlashes(Found(m, "foldername").value))
  {
    FolderSwitch(Seen(Found(m, "foldername")));
    Reads(m, StageSwitch, start, order, "foldername");
  }

  predicate OctalDigits(v: string) {
    v != "" && forall i :: 0 <= i < |v| ==> '0' <= v[i] <= '7'
  }

  /** Mount permissions are read in octal; zero only clears the flag that makes the call
      change the mode. */
  lemma StageReadsPermissions(m: Entries, start: map<Slot, Value>, order: seq<string>)
    requires !Collides(m) && IsOrder(order, m) && Fold(order, m, StageSwitch, start).Accepted?
    ensures
      var slots, v := Fold(order, m, StageSwitch, start).slots, Found(m, "mountpermissions");
      if v.None? || v.value == "" then
        Holds(slots, start, Of("mountpermissions"), None) && Holds(slots, start, ChmodOp, None)
      else
        && OctalDigits(v.value) && Octal(v.value) < 0x1_0000_0000
        && Holds(slots, start, Of("mountpermissions"), if Octal(v.value) == 0 then None else Some(Mode(Octal(v.value))))
        && Holds(slots, start, ChmodOp, if Octal(v.value) == 0 then Some(Flag(false)) else None)
  {
    PermissionsSwitch(Seen(Found(m, "mountpermissions")));
    Reads(m, StageSwitch, start, order, "mountpermissions");
    OneSlotEach();
    OwnedBy("mountpermissions");
    LowerNames("mountpermissions");
    ReadsSlot(m, StageSwitch, start, order, "mountpermissions", ChmodOp);
  }

  // ---------- what is refused ----------

  /** GetAccountInfo's loop refuses exactly the maps in which a boolean is spelled
      otherwise. */
  lemma AccountAccepts(m: Entries, start: map<Slot, Value>, order: seq<string>)
    requires !Collides(m) && IsOrder(order, m)
    ensures Fold(order, m, AccountSwitch, start).Accepted? <==> forall name :: AccountFlag(name) ==> SaysFlag(Found(m, name))
  {
    FoldRejects(order, m, AccountSwitch, start);
    if Fold(order, m, AccountSwitch, start).Accepted? {
      forall name | AccountFlag(name) ensures SaysFlag(Found(m, name)) {
        AccountReadsFlag(m, start, order, name);
      }
    } else {
      var k :| k in order && EffectOf(m, AccountSwitch, k) == Reject;
      OnlyFlagsRefuse(ToLower(k), m[k]);
      FoundIs(m, k, ToLower(k));
    }
  }

  lemma FoundIs(m: Entries, k: string, name: string)
    requires !Collides(m) && k in m && name == ToLower(k)
    ensures Found(m, name) == Some(m[k])
  {
    LowerNames(name);
    assert EqualFold(k, name);
    forall x | x in m && EqualFold(x, name) ensures x == k {
      assert EqualFold(x, k);
    }
  }

  lemma OnlyFlagsRefuse(name: string, v: string)
    requires AccountSwitch(name, v) == Reject
    ensures AccountFlag(name) && !SaysFlag(Some(v))
  {
  }

  lemma OnlyTheseRefuse(name: string, v: string)
    requires StageSwitch(name, v) == Reject
    ensures
      || (StageFlag(name) && !SaysFlag(Some(v)))
      || (name == "foldername" && !FolderTree.ValidName(FolderTree.TrimSlashes(v)))
      || (name == "mountpermissions" && v != "" && (!OctalDigits(v) || Octal(v) >= 0x1_0000_0000))
  {
    if StageFlag(name) {
      StageFlagSwitch(name, v);
      FlagParsed(name, v);
    } else if name == "foldername" {
      FolderSwitch(v);
    } else if name == "mountpermissions" {
      PermissionsSwitch(v);
    } else {
      OthersAccept(name, v);
    }
  }

  lemma OthersAccept(name: string, v: string)
    requires !StageFlag(name) && name != "foldername" && name != "mountpermissions"
    ensures StageSwitch(name, v) != Reject
  {
  }

  /** NodeStageVolume's loop refuses exactly the maps in which a boolean is spelled
      otherwise, the folder name is not valid, or the permissions are not octal digits of
      a 32-bit number. */
  lemma StageAccepts(m: Entries, start: map<Slot, Value>, order: seq<string>)
    requires !Collides(m) && IsOrder(order, m)
    ensures
      var folder, mode := Found(m, "foldername"), Found(m, "mountpermissions");
      Fold(order, m, StageSwitch, start).Accepted? <==>
        && (forall name :: StageFlag(name) ==> SaysFlag(Found(m, name)))
        && (folder.Some? ==> FolderTree.ValidName(FolderTree.TrimSlashes(folder.value)))
        && (mode.Some? && mode.value != "" ==> OctalDigits(mode.value) && Octal(mode.value) < 0x1_0000_0000)
  {
    FoldRejects(order, m, StageSwitch, start);
    if Fold(order, m, StageSwitch, start).Accepted? {
      forall name | StageFlag(name) ensures SaysFlag(Found(m, name)) {
        StageReadsFlag(m, start, order, name);
      }
      StageReadsFolder(m, start, order);
      StageReadsPermissions(m, start, order);
    } else {
      var k :| k in order && EffectOf(m, StageSwitch, k) == Reject;
      OnlyTheseRefuse(ToLower(k), m[k]);
      FoundIs(m, k, ToLower(k));
    }
  }
}
