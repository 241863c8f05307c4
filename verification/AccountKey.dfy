/** The key under which CreateVolume caches the account found for a request: the
    request's account options, printed and joined by bars. */
module AccountKey {
  import opened Strings

  const BAR := '|'

  /** The options of the key, in the order they are printed; options left out of a
      request are printed as their defaults. */
  datatype Options = Options(
    sku: string, accountKind: string, resourceGroup: string, location: string,
    protocol: string, subscription: string, accessTier: string, privateDNSZoneResourceGroup: string,
    privateEndpoint: bool, serviceEndpoint: bool, blobPublicAccess: bool, infraEncryption: bool,
    largeFileShares: bool, noDeleteRetention: bool, crossTenantReplication: bool, sharedKeyAccess: bool,
    smbOAuth: bool, multichannel: bool, httpsOnly: bool, publicNetworkAccess: string,
    vnetResourceGroup: string, vnetName: string, vnetLinkName: string, subnetName: string,
    matchTags: bool, tags: string, endpointSuffix: string, nfsEncryption: bool)

  /** %v of a boolean. */
  function Flag(b: bool): (s: string)
    ensures b ==> s == "true"
    ensures !b ==> s == "false"
    ensures BAR !in s
  {
    if b then "true" else "false"
  }

  function Fields(o: Options): (fields: seq<string>)
    ensures |fields| == 28
  {
    [o.sku, o.accountKind, o.resourceGroup, o.location,
     o.protocol, o.subscription, o.accessTier, o.privateDNSZoneResourceGroup,
     Flag(o.privateEndpoint), Flag(o.serviceEndpoint), Flag(o.blobPublicAccess), Flag(o.infraEncryption),
     Flag(o.largeFileShares), Flag(o.noDeleteRetention), Flag(o.crossTenantReplication), Flag(o.sharedKeyAccess),
     Flag(o.smbOAuth), Flag(o.multichannel), Flag(o.httpsOnly), o.publicNetworkAccess,
     o.vnetResourceGroup, o.vnetName, o.vnetLinkName, o.subnetName,
     Flag(o.matchTags), o.tags, o.endpointSuffix, Flag(o.nfsEncryption)]
  }

  const TAGS := 25

  function Key(o: Options): string {
    Join(Fields(o), [BAR])
  }

  /** Only the fields at these positions may hold a bar. */
  ghost predicate BarsOnlyAt(fields: seq<string>, places: set<nat>) {
    forall i :: 0 <= i < |fields| && i !in places ==> BAR !in fields[i]
  }

  // ---------- joining ----------

  lemma SameHead(a: string, x: string, b: string, y: string)
    requires a + [BAR] + x == b + [BAR] + y && BAR !in a && BAR !in b
    ensures a == b && x == y
  {
    var s, t := a + [BAR] + x, b + [BAR] + y;
    assert s[|a|] == BAR && t[|b|] == BAR;
    assert s[..|a|] == a && t[..|b|] == b && s[|a| + 1..] == x && t[|b| + 1..] == y;
  }

  lemma SameLast(a: string, x: string, b: string, y: string)
    requires a + [BAR] + x == b + [BAR] + y && BAR !in x && BAR !in y
    ensures a == b && x == y
  {
    var s, t := a + [BAR] + x, b + [BAR] + y;
    assert s[|a|] == BAR && t[|b|] == BAR;
    assert s[..|a|] == a && t[..|b|] == b && s[|a| + 1..] == x && t[|b| + 1..] == y;
  }

  /** Joined fields determine the fields when at most the one at k holds bars: those
      before it are found from the front, those after it from the back. */
  lemma {:induction false} JoinInjective(xs: seq<string>, ys: seq<string>, k: nat)
    requires |xs| == |ys| && k < |xs| && BarsOnlyAt(xs, {k}) && BarsOnlyAt(ys, {k})
    requires Join(xs, [BAR]) == Join(ys, [BAR])
    ensures xs == ys
    decreases |xs|
  {
    var n := |xs| - 1;
    if k > 0 {
      JoinCons(xs, [BAR]);
      JoinCons(ys, [BAR]);
      SameHead(xs[0], Join(xs[1..], [BAR]), ys[0], Join(ys[1..], [BAR]));
      JoinInjective(xs[1..], ys[1..], k - 1);
    } else if n > 0 {
      JoinSnoc(xs, [BAR]);
      JoinSnoc(ys, [BAR]);
      SameLast(Join(xs[..n], [BAR]), xs[n], Join(ys[..n], [BAR]), ys[n]);
      JoinInjective(xs[..n], ys[..n], 0);
      assert xs == xs[..n] + [xs[n]] && ys == ys[..n] + [ys[n]];
    }
  }

  // ---------- the key ----------

  /** The options whose fields these are. */
  function Read(f: seq<string>): Options
    requires |f| == 28
  {
    Options(f[0], f[1], f[2], f[3], f[4], f[5], f[6], f[7],
            f[8] == "true", f[9] == "true", f[10] == "true", f[11] == "true",
            f[12] == "true", f[13] == "true", f[14] == "true", f[15] == "true",
            f[16] == "true", f[17] == "true", f[18] == "true", f[19], f[20], f[21], f[22], f[23],
            f[24] == "true", f[25], f[26], f[27] == "true")
  }

  lemma ReadsFlag(b: bool)
    ensures (Flag(b) == "true") == b
  {
    assert "true"[0] != "false"[0];
  }

  lemma ReadsFields(o: Options)
    ensures Read(Fields(o)) == o
  {
    forall b {
      ReadsFlag(b);
    }
  }

  /** No option but the tags holds a bar. */
  predicate BarFree(o: Options) {
    && '|' !in o.sku && '|' !in o.accountKind && '|' !in o.resourceGroup && '|' !in o.location && '|' !in o.protocol
    && '|' !in o.subscription && '|' !in o.accessTier && '|' !in o.privateDNSZoneResourceGroup && '|' !in o.publicNetworkAccess
    && '|' !in o.vnetResourceGroup && '|' !in o.vnetName && '|' !in o.vnetLinkName && '|' !in o.subnetName
    && '|' !in o.endpointSuffix
  }

  lemma FieldsFree(o: Options)
    requires BarFree(o)
    ensures BarsOnlyAt(Fields(o), {TAGS}) && Fields(o)[TAGS] == o.tags
  {
    var f := Fields(o);
    forall i | 0 <= i < 28 && i != TAGS ensures BAR !in f[i] {
      if i < 8 {
        FirstFree(o, i);
      } else if 19 <= i < 24 || i == 26 {
        LaterFree(o, i);
      } else {
        FlagsFree(o, i);
      }
    }
  }

  lemma FirstFree(o: Options, i: nat)
    requires BarFree(o) && i < 8
    ensures BAR !in Fields(o)[i]
  {
  }

  lemma LaterFree(o: Options, i: nat)
    requires BarFree(o) && (19 <= i < 24 || i == 26)
    ensures BAR !in Fields(o)[i]
  {
  }

  lemma FlagsFree(o: Options, i: nat)
    requires 8 <= i < 19 || i == 24 || i == 27
    ensures BAR !in Fields(o)[i]
  {
  }

  /** Where the tags hold none either, cutting the key at its bars gives the options in
      the order in which they are printed. */
  lemma KeyReads(o: Options)
    requires BarFree(o) && '|' !in o.tags
    ensures Split(Key(o), "|") ==
      [o.sku, o.accountKind, o.resourceGroup, o.location, o.protocol, o.subscription, o.accessTier,
       o.privateDNSZoneResourceGroup, Flag(o.privateEndpoint), Flag(o.serviceEndpoint), Flag(o.blobPublicAccess),
       Flag(o.infraEncryption), Flag(o.largeFileShares), Flag(o.noDeleteRetention), Flag(o.crossTenantReplication),
       Flag(o.sharedKeyAccess), Flag(o.smbOAuth), Flag(o.multichannel), Flag(o.httpsOnly), o.publicNetworkAccess,
       o.vnetResourceGroup, o.vnetName, o.vnetLinkName, o.subnetName, Flag(o.matchTags), o.tags, o.endpointSuffix,
       Flag(o.nfsEncryption)]
  {
    FieldsFree(o);
    assert forall f :: f in Fields(o) ==> BAR !in f;
    SplitJoinChar(Fields(o), BAR);
  }

  /** Requests share a cached account only if they agree on every printed option, as
      long as no option but the tags can hold a bar. */
  lemma KeyInjective(o: Options, p: Options)
    requires BarFree(o) && BarFree(p)
    ensures Key(o) == Key(p) <==> o == p
  {
    FieldsFree(o);
    FieldsFree(p);
    if Key(o) == Key(p) {
      JoinInjective(Fields(o), Fields(p), TAGS);
      ReadsFields(o);
      ReadsFields(p);
    }
  }

  /** n fields, all empty but the one at i, if i is one of them. */
  function OneBar(n: nat, i: int): (fields: seq<string>)
    ensures |fields| == n
  {
    seq(n, k => if k == i then [BAR] else "")
  }

  /** A row of n bars. */
  predicate Bars(s: string, n: int) {
    |s| == n && forall k :: 0 <= k < |s| ==> s[k] == BAR
  }

  lemma JoinStep(n: nat, i: int)
    requires n > 1
    ensures Join(OneBar(n, i), [BAR]) == OneBar(n, i)[0] + [BAR] + Join(OneBar(n - 1, i - 1), [BAR])
  {
    assert OneBar(n, i)[1..] == OneBar(n - 1, i - 1);
    JoinCons(OneBar(n, i), [BAR]);
  }

  lemma MoreBars(first: string, k: nat, rest: string, n: int)
    requires Bars(first, k) && Bars(rest, n)
    ensures Bars(first + [BAR] + rest, k + 1 + n)
  {
  }

  /** Wherever the bar is, joining gives the same row of bars. */
  lemma {:induction false} OnlyBars(n: nat, i: int)
    requires n > 0
    ensures Bars(Join(OneBar(n, i), [BAR]), if 0 <= i < n then n else n - 1)
  {
    if n > 1 {
      OnlyBars(n - 1, i - 1);
      JoinStep(n, i);
      MoreBars(OneBar(n, i)[0], if i == 0 then 1 else 0, Join(OneBar(n - 1, i - 1), [BAR]), if 0 < i < n then n - 1 else n - 2);
    }
  }

  ghost predicate Injective(places: set<nat>) {
    forall xs, ys ::
      |xs| == 28 && |ys| == 28 && BarsOnlyAt(xs, places) && BarsOnlyAt(ys, places) && Join(xs, [BAR]) == Join(ys, [BAR]) ==>
        xs == ys
  }

  /** The joined form of any 28 fields determines them exactly when at most one place
      may hold bars. */
  lemma InjectiveExactly(places: set<nat>)
    requires forall i :: i in places ==> i < 28
    ensures Injective(places) <==> forall i, j :: i in places && j in places ==> i == j
  {
    if i, j :| i in places && j in places && i != j {
      OnlyBars(28, i);
      OnlyBars(28, j);
      assert Join(OneBar(28, i), [BAR]) == Join(OneBar(28, j), [BAR]);
      assert OneBar(28, i)[i] != OneBar(28, j)[i];
    } else {
      forall xs, ys | |xs| == 28 && |ys| == 28 && BarsOnlyAt(xs, places) && BarsOnlyAt(ys, places)
          && Join(xs, [BAR]) == Join(ys, [BAR])
        ensures xs == ys
      {
        var k: nat := if places == {} then 0 else var i :| i in places; i;
        JoinInjective(xs, ys, k);
      }
    }
  }
}
