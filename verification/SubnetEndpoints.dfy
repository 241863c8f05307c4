/** updateSubnetServiceEndpoints: gives every listed subnet of a virtual network the
    storage service endpoint, one remote update per subnet that lacks it. */
module SubnetEndpoints {
  import opened Results
  import opened Runs
  import opened Strings

  datatype Endpoint = Endpoint(service: string, locations: seq<string>)

  datatype SubnetId = SubnetId(rg: string, vnet: string, name: string)

  const STORAGE := "Microsoft.Storage"

  type Network = map<SubnetId, seq<Endpoint>>

  predicate HasStorage(endpoints: seq<Endpoint>) {
    exists i :: 0 <= i < |endpoints| && STORAGE <= endpoints[i].service
  }

  function WithStorage(endpoints: seq<Endpoint>, location: string): (more: seq<Endpoint>)
    ensures HasStorage(more) && endpoints <= more
    ensures HasStorage(endpoints) <==> more == endpoints
  {
    if HasStorage(endpoints) then endpoints
    else
      var more := endpoints + [Endpoint(STORAGE, [location])];
      assert STORAGE <= more[|endpoints|].service;
      more
  }

  /** The network once these subnets have been dealt with. */
  function Equipped(network: Network, ids: seq<SubnetId>, location: string): Network {
    map id | id in network :: if id in ids then WithStorage(network[id], location) else network[id]
  }

  // ---------- what the updating amounts to ----------

  /** A listed subnet without a storage endpoint gets one, for the location, behind those
      it has; nothing else changes. */
  lemma EquippedMeans(network: Network, ids: seq<SubnetId>, location: string)
    ensures var after := Equipped(network, ids, location);
      && after.Keys == network.Keys
      && (forall id :: id in network && id in ids ==> exists e :: e in after[id] && "Microsoft.Storage" <= e.service)
      && (forall id :: id in network ==>
            after[id] == network[id]
            || (id in ids && (forall e :: e in network[id] ==> !("Microsoft.Storage" <= e.service))
                && after[id] == network[id] + [Endpoint("Microsoft.Storage", [location])]))
  {
    var after: Network := Equipped(network, ids, location);
    forall id | id in network && id in ids ensures exists e: Endpoint :: e in after[id] && "Microsoft.Storage" <= e.service {
      var i :| 0 <= i < |after[id]| && STORAGE <= after[id][i].service;
      assert after[id][i] in after[id];
    }
  }

  /** A run that dealt with some of the subnets and was then repeated leaves what one
      complete run would have left; a complete run repeated changes nothing. */
  lemma Converges(network: Network, some: seq<SubnetId>, ids: seq<SubnetId>, location: string)
    requires forall id :: id in some ==> id in ids
    ensures Equipped(Equipped(network, some, location), ids, location) == Equipped(network, ids, location)
  {
    var once := Equipped(network, ids, location);
    var twice := Equipped(Equipped(network, some, location), ids, location);
    forall id | id in network ensures twice[id] == once[id] {
    }
  }

  /** The network with the first n subnets dealt with. */
  predicate Reached(before: Network, ids: seq<SubnetId>, n: nat, location: string, network: Network) {
    n <= |ids| && network == Equipped(before, ids[..n], location)
  }

  /** The next subnet is as it was read, or was listed before and is equipped already;
      equipping it as it was read reaches one subnet further. */
  lemma OneMore(before: Network, ids: seq<SubnetId>, n: nat, location: string, network: Network)
    requires n < |ids| && ids[n] in before && Reached(before, ids, n, location, network)
    ensures ids[n] in network && network[ids[n]] in [before[ids[n]], WithStorage(before[ids[n]], location)]
    ensures Reached(before, ids, n + 1, location, network[ids[n] := WithStorage(before[ids[n]], location)])
  {
    assert ids[..n + 1] == ids[..n] + [ids[n]];
    assert network[ids[n] := WithStorage(before[ids[n]], location)] == Equipped(before, ids[..n + 1], location);
  }

  lemma ReachedNone(before: Network, ids: seq<SubnetId>, location: string)
    ensures Reached(before, ids, 0, location, before)
  {
    assert Equipped(before, ids[..0], location) == before;
  }

  // ---------- naming ----------

  function SubnetNames(parts: seq<string>): (names: seq<string>)
    ensures |names| == |parts|
  {
    seq(|parts|, i requires 0 <= i < |parts| => TrimSpace(parts[i]))
  }

  function Ids(rg: string, vnet: string, names: seq<string>): (ids: seq<SubnetId>)
    ensures |ids| == |names|
  {
    seq(|names|, i requires 0 <= i < |names| => SubnetId(rg, vnet, names[i]))
  }

  function ResourceID(subscription: string, id: SubnetId): string {
    "/subscriptions/" + subscription + "/resourceGroups/" + id.rg
    + "/providers/" + "Microsoft.Network" + "/virtualNetworks/" + id.vnet + "/subnets/" + id.name
  }

  function ResourceIDs(subscription: string, ids: seq<SubnetId>): (texts: seq<string>)
    ensures |texts| == |ids|
  {
    seq(|ids|, i requires 0 <= i < |ids| => ResourceID(subscription, ids[i]))
  }

  lemma OneMoreText(subscription: string, ids: seq<SubnetId>, n: nat)
    requires n < |ids|
    ensures ResourceIDs(subscription, ids[..n + 1]) == ResourceIDs(subscription, ids[..n]) + [ResourceID(subscription, ids[n])]
  {
  }

  /** The segments of a subnet's resource ID. */
  function Parts(subscription: string, id: SubnetId): seq<string> {
    ["", "subscriptions", subscription, "resourceGroups", id.rg, "providers", "Microsoft.Network",
     "virtualNetworks", id.vnet, "subnets", id.name]
  }

  predicate SlashFree(subscription: string, id: SubnetId) {
    '/' !in subscription && '/' !in id.rg && '/' !in id.vnet && '/' !in id.name
  }

  /** A path of keywords, each with its value. */
  function Pairs(segments: seq<string>): string {
    if segments == [] then "" else "/" + (segments[0] + Pairs(segments[1..]))
  }

  lemma SlashFirst(x: string)
    ensures Split("/" + x, "/") == [""] + Split(x, "/")
  {
    AvoidsChar("", '/');
    SplitFirst("", "/", x);
    assert "" + "/" + x == "/" + x;
  }

  lemma SegmentFirst(segment: string, x: string)
    requires '/' !in segment
    ensures Split(segment + ("/" + x), "/") == [segment] + Split(x, "/")
  {
    AvoidsChar(segment, '/');
    SplitFirst(segment, "/", x);
    Regroup(segment, "/", x);
  }

  lemma OneSegment(segment: string)
    requires '/' !in segment
    ensures Split(segment, "/") == [segment]
  {
    AvoidsChar(segment, '/');
  }

  /** Reading such a path back gives its segments. */
  lemma {:induction false} SplitPairs(segments: seq<string>)
    requires segments != [] && forall x :: x in segments ==> '/' !in x
    ensures Split(Pairs(segments), "/") == [""] + segments
  {
    var rest := segments[1..];
    SlashFirst(segments[0] + Pairs(rest));
    if rest == [] {
      assert segments[0] + Pairs(rest) == segments[0];
      OneSegment(segments[0]);
      assert segments == [segments[0]];
    } else {
      SplitPairs(rest);
      var tail := rest[0] + Pairs(rest[1..]);
      SlashFirst(tail);
      assert Split(tail, "/") == rest by {
        assert (["" ] + Split(tail, "/"))[1..] == ([""] + rest)[1..];
      }
      SegmentFirst(segments[0], tail);
      assert segments == [segments[0]] + rest;
    }
  }

  lemma TwoSegments(keyword: string, value: string, more: seq<string>)
    ensures Pairs([keyword, value] + more) == ("/" + keyword + "/") + (value + Pairs(more))
  {
    assert ([keyword, value] + more)[1..] == [value] + more && ([value] + more)[1..] == more;
    Regroup("/", keyword, "/" + (value + Pairs(more)));
    Regroup("/" + keyword, "/", value + Pairs(more));
  }

  lemma TwoPrinted(front: string, keyword: string, value: string, more: seq<string>)
    ensures front + ("/" + keyword + "/") + value + Pairs(more) == front + Pairs([keyword, value] + more)
  {
    TwoSegments(keyword, value, more);
    Regroup(front + ("/" + keyword + "/"), value, Pairs(more));
    Regroup(front, "/" + keyword + "/", value + Pairs(more));
  }

  lemma Keywords()
    ensures "/" + "subscriptions" + "/" == "/subscriptions/" && "/" + "resourceGroups" + "/" == "/resourceGroups/"
    ensures "/" + "providers" + "/" == "/providers/" && "/" + "virtualNetworks" + "/" == "/virtualNetworks/"
    ensures "/" + "subnets" + "/" == "/subnets/"
  {
  }

  /** The segments of the path, keyword by keyword. */
  function Nested(subscription: string, id: SubnetId): seq<string> {
    ["subscriptions", subscription] + (["resourceGroups", id.rg] + (["providers", "Microsoft.Network"]
      + (["virtualNetworks", id.vnet] + (["subnets", id.name] + []))))
  }

  lemma PartsNested(subscription: string, id: SubnetId)
    ensures Parts(subscription, id) == [""] + Nested(subscription, id)
  {
  }

  lemma NestedFree(subscription: string, id: SubnetId)
    requires SlashFree(subscription, id)
    ensures Nested(subscription, id) != [] && forall x :: x in Nested(subscription, id) ==> '/' !in x
  {
  }

  lemma IDIsPath(subscription: string, id: SubnetId)
    ensures ResourceID(subscription, id) == Pairs(Nested(subscription, id))
  {
    var names := ["subnets", id.name] + [];
    var networks := ["virtualNetworks", id.vnet] + names;
    var providers := ["providers", "Microsoft.Network"] + networks;
    var groups := ["resourceGroups", id.rg] + providers;
    var a := "" + "/subscriptions/" + subscription;
    var b := a + "/resourceGroups/" + id.rg;
    var c := b + "/providers/" + "Microsoft.Network";
    var d := c + "/virtualNetworks/" + id.vnet;
    Keywords();
    calc {
      ResourceID(subscription, id);
    ==
      d + "/subnets/" + id.name + Pairs([]);
    ==  { TwoPrinted(d, "subnets", id.name, []); }
      d + Pairs(names);
    ==  { TwoPrinted(c, "virtualNetworks", id.vnet, names); }
      c + Pairs(networks);
    ==  { TwoPrinted(b, "providers", "Microsoft.Network", networks); }
      b + Pairs(providers);
    ==  { TwoPrinted(a, "resourceGroups", id.rg, providers); }
      a + Pairs(groups);
    ==  { TwoPrinted("", "subscriptions", subscription, groups); }
      "" + Pairs(Nested(subscription, id));
    }
  }

  /** A reader of slash-free parts finds each of them where it belongs. */
  lemma ResourceParts(subscription: string, id: SubnetId)
    requires SlashFree(subscription, id)
    ensures Split(ResourceID(subscription, id), "/") == Parts(subscription, id)
  {
    IDIsPath(subscription, id);
    PartsNested(subscription, id);
    NestedFree(subscription, id);
    SplitPairs(Nested(subscription, id));
  }

  /** Two different subnets never get one ID. */
  lemma ResourceIDsDiffer(subscription: string, a: SubnetId, b: SubnetId)
    requires SlashFree(subscription, a) && SlashFree(subscription, b) && a != b
    ensures ResourceID(subscription, a) != ResourceID(subscription, b)
  {
    ResourceParts(subscription, a);
    ResourceParts(subscription, b);
    var p, q := Parts(subscription, a), Parts(subscription, b);
    assert p[4] == a.rg && p[8] == a.vnet && p[10] == a.name && q[4] == b.rg && q[8] == b.vnet && q[10] == b.name;
  }

  /** What is asked for, with the defaults filled in. */
  datatype Request = Request(rg: string, vnet: string, subnetName: string)

  function CacheKey(r: Request): string {
    r.rg + r.vnet + r.subnetName
  }

  function Named(r: Request): seq<SubnetId> {
    Ids(r.rg, r.vnet, SubnetNames(Split(r.subnetName, ",")))
  }

  /** The subnets a request is about: those it names, or all of the network's, each once. */
  ghost predicate Listed(r: Request, ids: seq<SubnetId>, network: Network) {
    if r.subnetName != "" then ids == Named(r)
    else
      && (forall id :: id in ids <==> id in network && id.rg == r.rg && id.vnet == r.vnet)
      && (forall i, j :: 0 <= i < j < |ids| ==> ids[i] != ids[j])
  }

  /** The subnets a request names exist. */
  ghost predicate AllThere(r: Request, network: Network) {
    r.subnetName != "" ==> forall id :: id in Named(r) ==> id in network
  }

  ghost predicate AllStorage(ids: seq<SubnetId>, network: Network) {
    forall id :: id in ids ==> id in network && HasStorage(network[id])
  }

  /** The right answer to a request: its subnets, all of which have the endpoint. */
  ghost predicate Answers(r: Request, ids: seq<SubnetId>, network: Network) {
    Listed(r, ids, network) && AllStorage(ids, network)
  }

  /** The subnets as they are on the network. */
  ghost predicate AsRead(ids: seq<SubnetId>, subnets: seq<seq<Endpoint>>, network: Network) {
    |subnets| == |ids| && forall i :: 0 <= i < |ids| ==> ids[i] in network && subnets[i] == network[ids[i]]
  }

  lemma AllParts(subscription: string, ids: seq<SubnetId>)
    ensures forall i :: 0 <= i < |ids| && SlashFree(subscription, ids[i]) ==>
      Split(ResourceIDs(subscription, ids)[i], "/") == Parts(subscription, ids[i])
  {
    forall i | 0 <= i < |ids| && SlashFree(subscription, ids[i])
      ensures Split(ResourceIDs(subscription, ids)[i], "/") == Parts(subscription, ids[i])
    {
      ResourceParts(subscription, ids[i]);
    }
  }

  lemma RequestIds(r: Request, ids: seq<SubnetId>, network: Network)
    requires Listed(r, ids, network)
    ensures forall i :: 0 <= i < |ids| ==> ids[i].rg == r.rg && ids[i].vnet == r.vnet
  {
    assert forall i :: 0 <= i < |ids| ==> ids[i] in ids;
  }

  // ---------- runs of calls ----------

  /** The networks, and the subnets that the cached answers stand for. */
  datatype Store = Store(network: Network, answers: map<string, seq<SubnetId>>)

  /** One call: refused, answered from the cache, failed after dealing with the first
      of its subnets, or answered and cached after dealing with them all. */
  ghost predicate Called(location: string, r: Request, s: Store, s': Store, answer: Option<seq<SubnetId>>) {
    var key := CacheKey(r);
    if r.vnet == "" || location == "" then s' == s && answer == None
    else if key in s.answers then s' == s && answer == Some(s.answers[key])
    else
      match answer
      case None => s'.answers == s.answers && (s'.network == s.network || FailedAt(location, r, s.network, s'.network))
      case Some(ids) =>
        && Listed(r, ids, s.network) && (forall id :: id in ids ==> id in s.network)
        && s' == Store(Equipped(s.network, ids, location), s.answers[key := ids])
  }

  ghost predicate FailedAt(location: string, r: Request, before: Network, after: Network) {
    exists ids, done :: Listed(r, ids, before) && Reached(before, ids, done, location, after)
  }

  /** The store, and the request answered last with its answer. */
  datatype State = State(store: Store, last: Option<(Request, seq<SubnetId>)>)

  ghost predicate CallStep(location: string, r: Request, answer: Option<seq<SubnetId>>, s: State, s': State) {
    Called(location, r, s.store, s'.store, answer) && s'.last == if answer.Some? then Some((r, answer.value)) else None
  }

  /** The location, the requests that are made, whether others add subnets, and whether
      they take subnets or endpoints away. */
  datatype Policy = Policy(location: string, requests: iset<Request>, grows: bool, strips: bool)

  /** What was there stays as it is. */
  ghost predicate Extends(before: Network, after: Network) {
    forall id :: id in before ==> id in after && after[id] == before[id]
  }

  /** Others change the networks. */
  ghost predicate Changes(p: Policy, s: State, s': State) {
    && s' == State(Store(s'.store.network, s.store.answers), None)
    && (p.strips || (p.grows && Extends(s.store.network, s'.store.network)))
  }

  ghost function Next(p: Policy): (State, State) -> bool {
    (s: State, s': State) =>
      || (exists r, answer :: r in p.requests && CallStep(p.location, r, answer, s, s'))
      || Changes(p, s, s')
  }

  ghost predicate Reachable(p: Policy, s: State) {
    exists network :: Reaches(Next(p), State(Store(network, map[]), None), s)
  }

  /** Every answer in every run of calls is right for the request when it is given. */
  ghost predicate AlwaysRight(p: Policy) {
    forall s :: Reachable(p, s) && s.last.Some? ==> Answers(s.last.value.0, s.last.value.1, s.store.network)
  }

  /** Two different requests that the driver serves under one key. */
  ghost predicate Confused(location: string, a: Request, b: Request) {
    location != "" && a.vnet != "" && b.vnet != "" && a != b && CacheKey(a) == CacheKey(b)
  }

  /** A request whose answer may change: subnets are taken away or lose the endpoint, or
      it is for all subnets of a network, to which some are added. */
  ghost predicate Outdated(p: Policy, r: Request) {
    p.location != "" && r.vnet != "" && (p.strips || (p.grows && r.subnetName == ""))
  }

  ghost predicate Trusty(p: Policy) {
    && (forall a, b :: a in p.requests && b in p.requests ==> !Confused(p.location, a, b))
    && (forall r :: r in p.requests ==> !Outdated(p, r))
  }

  ghost predicate Caches(p: Policy, s: Store, key: string)
    requires key in s.answers
  {
    exists r :: r in p.requests && r.vnet != "" && p.location != "" && CacheKey(r) == key && Answers(r, s.answers[key], s.network)
  }

  ghost predicate CachesAll(p: Policy, s: Store) {
    forall key :: key in s.answers ==> Caches(p, s, key)
  }

  /** Answers stay right while subnets only gain the endpoint. */
  lemma StillAnswers(r: Request, ids: seq<SubnetId>, before: Network, some: seq<SubnetId>, location: string)
    requires Answers(r, ids, before)
    ensures Answers(r, ids, Equipped(before, some, location))
  {
  }

  lemma CachesKept(p: Policy, r: Request, s: Store, s': Store, answer: Option<seq<SubnetId>>)
    requires CachesAll(p, s) && r in p.requests && Called(p.location, r, s, s', answer)
    ensures CachesAll(p, s')
    ensures answer.Some? && CacheKey(r) !in s.answers ==> Answers(r, answer.value, s'.network)
  {
    if s' != s {
      var some: seq<SubnetId>;
      if answer.Some? {
        some := answer.value;
      } else {
        var ids, done :| Listed(r, ids, s.network) && Reached(s.network, ids, done, p.location, s'.network);
        some := ids[..done];
      }
      assert s'.network == Equipped(s.network, some, p.location);
      forall key | key in s'.answers ensures Caches(p, s', key) {
        if key in s.answers {
          var q :| q in p.requests && q.vnet != "" && p.location != "" && CacheKey(q) == key && Answers(q, s.answers[key], s.network);
          StillAnswers(q, s.answers[key], s.network, some, p.location);
        }
      }
    }
  }

  /** Subnets that are added change no answer to a request that names its own. */
  lemma ChangeKept(p: Policy, s: State, s': State)
    requires Trusty(p) && CachesAll(p, s.store) && Changes(p, s, s')
    ensures CachesAll(p, s'.store)
  {
    forall key | key in s'.store.answers ensures Caches(p, s'.store, key) {
      var ids := s.store.answers[key];
      var q :| q in p.requests && q.vnet != "" && p.location != "" && CacheKey(q) == key && Answers(q, ids, s.store.network);
      assert !Outdated(p, q);
      assert Answers(q, ids, s'.store.network);
    }
  }

  ghost predicate RightInv(p: Policy, s: State) {
    CachesAll(p, s.store) && (s.last.Some? ==> Answers(s.last.value.0, s.last.value.1, s.store.network))
  }

  lemma CallKept(p: Policy, s: State, s': State, r: Request, answer: Option<seq<SubnetId>>)
    requires Trusty(p) && RightInv(p, s) && r in p.requests && CallStep(p.location, r, answer, s, s')
    ensures RightInv(p, s')
  {
    CachesKept(p, r, s.store, s'.store, answer);
    if answer.Some? && CacheKey(r) in s.store.answers {
      var key := CacheKey(r);
      assert Caches(p, s.store, key);
      var q :| q in p.requests && q.vnet != "" && CacheKey(q) == key && Answers(q, s.store.answers[key], s.store.network);
      assert !Confused(p.location, q, r);
    }
  }

  lemma AnswersRight(p: Policy, s: State)
    requires Trusty(p) && Reachable(p, s)
    ensures s.last.Some? ==> Answers(s.last.value.0, s.last.value.1, s.store.network)
  {
    var network :| Reaches(Next(p), State(Store(network, map[]), None), s);
    var inv := (x: State) => RightInv(p, x);
    forall x, y | inv(x) && Next(p)(x, y) ensures inv(y) {
      if r, answer :| r in p.requests && CallStep(p.location, r, answer, x, y) {
        CallKept(p, x, y, r, answer);
      } else {
        ChangeKept(p, x, y);
      }
    }
    Kept(Next(p), inv, State(Store(network, map[]), None), s);
  }

  /** A network that has the subnets of a request, and what the request lists there. */
  lemma NetworkFor(r: Request) returns (network: Network, ids: seq<SubnetId>)
    ensures Listed(r, ids, network) && ids != [] && ids[0].rg == r.rg && ids[0].vnet == r.vnet
    ensures forall id :: id in ids ==> id in network
  {
    if r.subnetName != "" {
      ids := Named(r);
      network := map id | id in ids :: [];
    } else {
      ids := [SubnetId(r.rg, r.vnet, "s")];
      network := map[ids[0] := []];
    }
  }

  lemma SameRequest(a: Request, b: Request)
    requires a.rg == b.rg && a.vnet == b.vnet && CacheKey(a) == CacheKey(b)
    ensures a == b
  {
    var head := a.rg + a.vnet;
    assert (head + a.subnetName)[|head|..] == a.subnetName && (head + b.subnetName)[|head|..] == b.subnetName;
  }

  /** The subnets of one request are no answer to another with the same key: where the
      group and the network differ, so do the subnets. */
  lemma NotItsAnswer(a: Request, b: Request, ids: seq<SubnetId>, network: Network)
    requires a != b && CacheKey(a) == CacheKey(b) && ids != [] && ids[0].rg == a.rg && ids[0].vnet == a.vnet
    ensures !Listed(b, ids, network)
  {
    if a.rg == b.rg && a.vnet == b.vnet {
      SameRequest(a, b);
    }
    assert ids[0] in ids;
  }

  /** A first request fills the cache. */
  lemma FillsCache(p: Policy, a: Request) returns (s0: State, s: State, ids: seq<SubnetId>)
    requires a in p.requests && p.location != "" && a.vnet != ""
    ensures Reaches(Next(p), s0, s) && s0 == State(Store(s0.store.network, map[]), None)
    ensures s.store.answers == map[CacheKey(a) := ids]
    ensures ids != [] && ids[0].rg == a.rg && ids[0].vnet == a.vnet
  {
    var network;
    network, ids := NetworkFor(a);
    s0 := State(Store(network, map[]), None);
    s := State(Store(Equipped(network, ids, p.location), map[CacheKey(a) := ids]), Some((a, ids)));
    Here(Next(p), s0);
    assert CallStep(p.location, a, Some(ids), s0, s);
    Then(Next(p), s0, s0, s);
  }

  /** A second one under the same key is answered with the first one's subnets. */
  lemma WrongAnswer(p: Policy, a: Request, b: Request) returns (s: State)
    requires a in p.requests && b in p.requests && Confused(p.location, a, b)
    ensures Reachable(p, s) && s.last.Some? && s.last.value.0 == b && !Answers(b, s.last.value.1, s.store.network)
  {
    var s0, s1, ids := FillsCache(p, a);
    s := s1.(last := Some((b, ids)));
    assert CallStep(p.location, b, Some(ids), s1, s);
    Then(Next(p), s0, s1, s);
    NotItsAnswer(a, b, ids, s.store.network);
  }

  /** A subnet that is on no list of names yet. */
  lemma NewSubnet(rg: string, vnet: string, ids: seq<SubnetId>, network: Network) returns (id: SubnetId)
    ensures id.rg == rg && id.vnet == vnet && id !in ids && id !in network
  {
    var longest := Longest(network.Keys + (set x | x in ids));
    id := SubnetId(rg, vnet, longest + "+");
    assert id !in network.Keys + (set x | x in ids);
  }

  lemma {:induction false} Longest(ids: set<SubnetId>) returns (name: string)
    ensures forall id :: id in ids ==> |id.name| <= |name|
    decreases |ids|
  {
    name := "";
    if ids != {} {
      var id :| id in ids;
      name := Longest(ids - {id});
      name := if |name| < |id.name| then id.name else name;
      assert forall x :: x in ids ==> x == id || x in ids - {id};
    }
  }

  /** The network changes while the answer is cached. */
  lemma OldAnswer(p: Policy, r: Request) returns (s: State)
    requires r in p.requests && Outdated(p, r)
    ensures Reachable(p, s) && s.last.Some? && s.last.value.0 == r && !Answers(r, s.last.value.1, s.store.network)
  {
    var s0, s1, ids := FillsCache(p, r);
    var id := NewSubnet(r.rg, r.vnet, ids, s1.store.network);
    var s2 := State(Store(if p.strips then map[] else s1.store.network[id := []], s1.store.answers), None);
    assert Changes(p, s1, s2);
    Then(Next(p), s0, s1, s2);
    s := s2.(last := Some((r, ids)));
    assert CallStep(p.location, r, Some(ids), s2, s);
    Then(Next(p), s0, s2, s);
    assert ids[0] in ids && (!p.strips ==> id in s.store.network);
  }

  /** Every answer in every run of calls is right exactly when no two different requests
      share a key, which runs its parts together, none is for a whole network while
      subnets are added, and none is served at all while others take away. */
  lemma RightExactly(p: Policy)
    ensures AlwaysRight(p) <==>
      && (forall a, b :: a in p.requests && b in p.requests ==> !Confused(p.location, a, b))
      && (forall r :: r in p.requests ==> !Outdated(p, r))
  {
    if a, b :| a in p.requests && b in p.requests && Confused(p.location, a, b) {
      var s := WrongAnswer(p, a, b);
    } else if r :| r in p.requests && Outdated(p, r) {
      var s := OldAnswer(p, r);
    } else {
      forall s | Reachable(p, s) && s.last.Some? ensures Answers(s.last.value.0, s.last.value.1, s.store.network) {
        AnswersRight(p, s);
      }
    }
  }

  /** Such requests exist: the border between group and network is not in the key. */
  lemma KeysRunTogether(x: string, y: string, z: string, subnetName: string, location: string)
    requires location != "" && y != "" && z != ""
    ensures Confused(location, Request(x + y, z, subnetName), Request(x, y + z, subnetName))
  {
    assert |x + y| > |x|;
    assert x + y + z == x + (y + z);
  }

  // ---------- the driver ----------

  /** The driver's view of the networks; if they are `reliable`, every request succeeds
      and every subnet that is read carries its name. */
  class SubnetUpdater {
    const subscription: string
    const location: string
    const reliable: bool
    var network: Network
    var cache: map<string, seq<string>>
    ghost var answers: map<string, seq<SubnetId>>
    var updates: nat                // remote updates requested

    constructor (subscription: string, location: string, reliable: bool, network: Network)
      ensures this.subscription == subscription && this.location == location && this.network == network
      ensures this.reliable == reliable && cache == map[] && answers == map[] && updates == 0 && Valid()
    {
      this.subscription, this.location, this.network := subscription, location, network;
      this.reliable := reliable;
      cache, answers, updates := map[], map[], 0;
    }

    /** The subnets whose IDs are cached. */
    ghost predicate Valid()
      reads this
    {
      && answers.Keys == cache.Keys
      && forall key :: key in cache ==> cache[key] == ResourceIDs(subscription, answers[key])
    }

    ghost function Stored(): Store
      reads this
    {
      Store(network, answers)
    }

    /** SubnetsClient.Get: the subnet as it is, or an error. */
    method GetSubnet(id: SubnetId) returns (endpoints: Option<seq<Endpoint>>)
      ensures endpoints.Some? ==> id in network && endpoints.value == network[id]
      ensures reliable && id in network ==> endpoints.Some?
    {
      var fails: bool := *;
      endpoints := if (fails && !reliable) || id !in network then None else Some(network[id]);
    }

    /** SubnetsClient.List: the subnets of the virtual network, each once. */
    method ListSubnets(rg: string, vnet: string) returns (ids: Option<seq<SubnetId>>)
      ensures ids.Some? ==> Listed(Request(rg, vnet, ""), ids.value, network)
      ensures reliable ==> ids.Some?
    {
      var fails: bool := *;
      if fails && !reliable {
        return None;
      }
      var left, found := set id | id in network && id.rg == rg && id.vnet == vnet, [];
      ghost var all := left;
      while left != {}
        invariant left <= all && (forall id :: id in found <==> id in all && id !in left)
        invariant forall i, j :: 0 <= i < j < |found| ==> found[i] != found[j]
        decreases |left|
      {
        var id :| id in left;
        left, found := left - {id}, found + [id];
      }
      ids := Some(found);
    }

    /** CreateOrUpdate replaces the subnet; a failed answer leaves it replaced or not. */
    method CreateOrUpdate(id: SubnetId, endpoints: seq<Endpoint>) returns (ok: bool)
      requires id in network
      modifies `network, `updates
      ensures updates == old(updates) + 1
      ensures network == old(network) || network == old(network)[id := endpoints]
      ensures ok ==> network == old(network)[id := endpoints]
      ensures reliable ==> ok
    {
      var applied: bool, answered: bool := *, *;
      applied, answered := applied || reliable, answered || reliable;
      updates := updates + 1;
      if applied {
        network := network[id := endpoints];
      }
      ok := applied && answered;
    }

    /** Reads the requested subnets, or lists all of the network. */
    method Requested(r: Request) returns (ids: seq<SubnetId>, subnets: seq<seq<Endpoint>>, ok: bool)
      ensures ok ==> Listed(r, ids, network)
      ensures reliable && AllThere(r, network) ==> ok
      ensures AsRead(ids, subnets, network)
    {
      ids, subnets, ok := [], [], true;
      if r.subnetName != "" {
        var names := Split(r.subnetName, ",");
        for n := 0 to |names|
          invariant ids == Ids(r.rg, r.vnet, SubnetNames(names[..n]))
          invariant AsRead(ids, subnets, network)
        {
          var id := SubnetId(r.rg, r.vnet, TrimSpace(names[n]));
          assert id == Ids(r.rg, r.vnet, SubnetNames(names))[n];
          var subnet := GetSubnet(id);
          if subnet.None? {
            return ids, subnets, false;
          }
          ids, subnets := ids + [id], subnets + [subnet.value];
        }
        assert names[..|names|] == names;
      } else {
        var listed := ListSubnets(r.rg, r.vnet);
        if listed.None? {
          return ids, subnets, false;
        }
        ids := listed.value;
        subnets := seq(|ids|, i requires 0 <= i < |ids| && ids[i] in network reads this => network[ids[i]]);
      }
    }

    /** One round, for a subnet as it was read: one with the endpoint is left alone,
        another is updated. A name listed twice is updated twice, to the same effect. */
    method EquipOne(endpoints: seq<Endpoint>, ghost before: Network, ids: seq<SubnetId>, n: nat) returns (ok: bool, ghost done: nat)
      requires n < |ids| && ids[n] in before && endpoints == before[ids[n]] && Reached(before, ids, n, location, network)
      modifies `network, `updates
      ensures Reached(before, ids, done, location, network) && (ok ==> done == n + 1)
      ensures HasStorage(endpoints) ==> updates == old(updates)
      ensures reliable ==> ok
    {
      OneMore(before, ids, n, location, network);
      if HasStorage(endpoints) {
        assert network == network[ids[n] := endpoints];
        return true, n + 1;
      }
      ghost var was := network;
      ok := CreateOrUpdate(ids[n], endpoints + [Endpoint(STORAGE, [location])]);
      done := if network == was && !ok then n else n + 1;
    }

    /** The loop over the subnets read: it appends an ID for each and equips them in
        order, updating only those that lacked the endpoint. */
    method EquipAll(ids: seq<SubnetId>, subnets: seq<seq<Endpoint>>) returns (texts: seq<string>, ok: bool, ghost done: nat)
      requires AsRead(ids, subnets, network)
      modifies `network, `updates
      ensures Reached(old(network), ids, done, location, network)
      ensures ok ==> done == |ids| && texts == ResourceIDs(subscription, ids)
      ensures AllStorage(ids, old(network)) ==> updates == old(updates)
      ensures reliable ==> ok
    {
      texts, ok, done := [], true, 0;
      ReachedNone(network, ids, location);
      while |texts| < |ids|
        invariant done == |texts| && Reached(old(network), ids, done, location, network)
        invariant texts == ResourceIDs(subscription, ids[..done])
        invariant AllStorage(ids, old(network)) ==> updates == old(updates)
        decreases |ids| - |texts|
      {
        var n := |texts|;
        var nameMissing: bool := *;
        if nameMissing && !reliable {
          return texts, false, n;
        }
        assert ids[n] in ids && subnets[n] == old(network)[ids[n]];
        OneMoreText(subscription, ids, n);
        texts := texts + [ResourceID(subscription, ids[n])];
        ok, done := EquipOne(subnets[n], old(network), ids, n);
        if !ok {
          return;
        }
      }
      ok := true;
      assert ids[..done] == ids;
    }

    /** One call of the runs above. An answer has one ID per subnet in order; nothing is
        written when every subnet listed had the endpoint, or the answer was cached. */
    method UpdateSubnetServiceEndpoints(r: Request) returns (texts: seq<string>, ok: bool, ghost ids: seq<SubnetId>)
      requires Valid()
      modifies `network, `updates, `cache, `answers
      ensures Valid() && Called(location, r, old(Stored()), Stored(), if ok then Some(ids) else None)
      ensures ok ==> |texts| == |ids|
      ensures ok ==> forall i :: 0 <= i < |ids| && SlashFree(subscription, ids[i]) ==>
        Split(texts[i], "/") == ["", "subscriptions", subscription, "resourceGroups", ids[i].rg, "providers", "Microsoft.Network",
                                 "virtualNetworks", ids[i].vnet, "subnets", ids[i].name]
      ensures ok && CacheKey(r) !in old(cache) ==> Answers(r, ids, network)
      ensures ok && CacheKey(r) !in old(cache) ==> forall i :: 0 <= i < |ids| ==> ids[i].rg == r.rg && ids[i].vnet == r.vnet
      ensures ok && CacheKey(r) !in old(cache) && r.subnetName != "" ==>
        |ids| == |Split(r.subnetName, ",")|
        && forall i :: 0 <= i < |ids| ==> ids[i].name == TrimSpace(Split(r.subnetName, ",")[i])
      ensures CacheKey(r) in old(cache) || AllStorage(ids, old(network)) ==> updates == old(updates)
      ensures reliable && r.vnet != "" && location != "" && AllThere(r, old(network)) ==> ok
    {
      texts, ok, ids := [], false, [];
      if r.vnet == "" || location == "" {
        return;
      }
      var key := CacheKey(r);
      if key in cache {
        AllParts(subscription, answers[key]);
        return cache[key], true, answers[key];
      }
      var listed, subnets, read := Requested(r);
      if !read {
        return;
      }
      ids := listed;
      ghost var done;
      texts, ok, done := EquipAll(listed, subnets);
      if ok {
        assert ids[..done] == ids;
        AllParts(subscription, ids);
        RequestIds(r, ids, old(network));
        cache, answers := cache[key := texts], answers[key := ids];
      } else {
        assert FailedAt(location, r, old(network), network);
      }
    }
  }
}
