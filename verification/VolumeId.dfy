/** Volume and snapshot IDs: how they are printed, how they are read back, and
    exactly which of them come back as they went in. */
module VolumeId {
  import opened Results
  import opened Strings

  /** What GetFileShareInfo reads from a volume ID. */
  datatype ShareInfo = ShareInfo(rg: string, account: string, share: string, disk: string, namespace: string, sub: string)

  /** What GetInfoFromSnapshotID reads from a snapshot ID. */
  datatype SnapshotInfo = SnapshotInfo(rg: string, account: string, share: string, time: string, sub: string)

  const SEPARATOR := '#'

  function Segments(id: string): (segs: seq<string>)
    ensures |segs| >= 1
  {
    Split(id, [SEPARATOR])
  }

  // ---------- path traversal ----------

  predicate Slash(c: char) {
    c == '/' || c == '\\'
  }

  /** Where the leading run of non-slashes ends. */
  function FieldEnd(s: string): (n: nat)
    ensures n <= |s| && (n < |s| ==> Slash(s[n]))
    ensures forall i :: 0 <= i < n ==> !Slash(s[i])
  {
    if s == "" || Slash(s[0]) then 0 else 1 + FieldEnd(s[1..])
  }

  /** strings.FieldsFunc on slashes: the maximal runs of other characters. */
  function Fields(s: string): seq<string>
    decreases |s|
  {
    if s == "" then []
    else if Slash(s[0]) then Fields(s[1..])
    else [s[..FieldEnd(s)]] + Fields(s[FieldEnd(s)..])
  }

  /** Two dots stand at i as a whole path component. */
  predicate DotDotAt(s: string, i: nat) {
    && i + 2 <= |s| && s[i] == '.' && s[i + 1] == '.'
    && (i == 0 || s[i - 1] == '/' || s[i - 1] == '\\') && (i + 2 == |s| || s[i + 2] == '/' || s[i + 2] == '\\')
  }

  predicate Climbs(s: string) {
    exists i :: 0 <= i < |s| && DotDotAt(s, i)
  }

  /** Past a component, whether a path climbs depends on the rest alone. */
  lemma ClimbsLater(s: string, n: nat)
    requires 0 < n <= |s| && (forall i :: 0 <= i < n ==> !DotDotAt(s, i))
    requires n == |s| || Slash(s[n]) || Slash(s[n - 1])
    requires n < |s| && Slash(s[n]) ==> forall j :: 0 <= j < |s| - n ==> j > 0 || !DotDotAt(s[n..], j)
    ensures Climbs(s) <==> Climbs(s[n..])
  {
    var rest := s[n..];
    if Climbs(s) {
      var i :| 0 <= i < |s| && DotDotAt(s, i);
      assert n == |s| || !Slash(s[n]) || i != n;
      assert DotDotAt(rest, i - n);
    }
    if Climbs(rest) {
      var j :| 0 <= j < |rest| && DotDotAt(rest, j);
      assert DotDotAt(s, j + n);
    }
  }

  lemma FirstField(s: string)
    requires s != "" && !Slash(s[0])
    ensures s[..FieldEnd(s)] == ".." <==> DotDotAt(s, 0)
    ensures forall i :: 0 < i < FieldEnd(s) ==> !DotDotAt(s, i)
  {
    var n := FieldEnd(s);
    if s[..n] == ".." {
      assert s[0] == s[..n][0] && s[1] == s[..n][1];
    }
    if DotDotAt(s, 0) {
      assert s[..n] == [s[0], s[1]];
    }
  }

  /** Looking for ".." among the fields finds exactly the paths that climb. */
  lemma {:induction false} ClimbsExactly(s: string)
    ensures ".." in Fields(s) <==> Climbs(s)
    decreases |s|
  {
    if s == "" {
    } else if Slash(s[0]) {
      ClimbsExactly(s[1..]);
      ClimbsLater(s, 1);
    } else {
      FirstField(s);
      var n := FieldEnd(s);
      ClimbsExactly(s[n..]);
      assert Fields(s) == [s[..n]] + Fields(s[n..]);
      if s[..n] != ".." {
        ClimbsLater(s, n);
      }
    }
  }

  /** validateVolumeIDSegment */
  method ValidateVolumeIDSegment(value: string) returns (ok: bool)
    ensures ok <==> !Climbs(value)
  {
    if value == "" {
      return true;
    }
    ClimbsExactly(value);
    var fields := Fields(value);
    for n := 0 to |fields|
      invariant ".." !in fields[..n]
    {
      if fields[n] == ".." {
        return false;
      }
    }
    ok := true;
  }

  // ---------- subscription IDs ----------

  predicate Hex(c: char) {
    '0' <= c <= '9' || 'a' <= c <= 'f' || 'A' <= c <= 'F'
  }

  /** isValidSubscriptionID: 8-4-4-4-12 hexadecimal digits */
  predicate ValidSub(s: string) {
    |s| == 36 && forall i :: 0 <= i < 36 ==> if i in {8, 13, 18, 23} then s[i] == '-' else Hex(s[i])
  }

  predicate AllHex(s: string, n: nat) {
    |s| == n && forall c :: c in s ==> Hex(c)
  }

  lemma HexExactly(c: char)
    ensures Hex(c) <==>
      || c in {'0', '1', '2', '3', '4', '5', '6', '7', '8', '9'}
      || c in {'a', 'b', 'c', 'd', 'e', 'f'} || c in {'A', 'B', 'C', 'D', 'E', 'F'}
  {
    var n := c as int;
    assert c == n as char;
    assert Hex(c) <==> 48 <= n <= 57 || 97 <= n <= 102 || 65 <= n <= 70;
  }

  /** Between its hyphens it has 8, 4, 4, 4 and 12 hexadecimal digits. */
  predicate FiveGroups(parts: seq<string>) {
    && |parts| == 5 && AllHex(parts[0], 8) && AllHex(parts[1], 4) && AllHex(parts[2], 4) && AllHex(parts[3], 4)
    && AllHex(parts[4], 12)
  }

  function Hyphened(parts: seq<string>): string
    requires |parts| == 5
  {
    parts[0] + "-" + parts[1] + "-" + parts[2] + "-" + parts[3] + "-" + parts[4]
  }

  lemma JoinsFive(parts: seq<string>)
    requires |parts| == 5
    ensures Join(parts, "-") == Hyphened(parts)
  {
    JoinSnoc(parts, "-");
    JoinSnoc(parts[..4], "-");
    JoinSnoc(parts[..4][..3], "-");
    JoinSnoc(parts[..4][..3][..2], "-");
    assert Join([parts[0]], "-") == parts[0];
    assert parts[..4][..3][..2][..1] == [parts[0]];
  }

  lemma ValidGroups(s: string)
    requires ValidSub(s)
    ensures FiveGroups(Split(s, "-"))
  {
    var parts := [s[..8], s[9..13], s[14..18], s[19..23], s[24..]];
    JoinsFive(parts);
    assert s == Hyphened(parts);
    assert forall p :: p in parts ==> '-' !in p;
    SplitJoinChar(parts, '-');
  }

  /** What a subscription ID is, read between its hyphens. */
  lemma ValidSubExactly(s: string)
    ensures ValidSub(s) <==> FiveGroups(Split(s, "-"))
  {
    var parts := Split(s, "-");
    if ValidSub(s) {
      ValidGroups(s);
    } else if FiveGroups(parts) {
      JoinSplit(s, "-");
      JoinsFive(parts);
      HyphenedValid(parts);
    }
  }

  lemma HyphenedValid(parts: seq<string>)
    requires FiveGroups(parts)
    ensures ValidSub(Hyphened(parts))
  {
    var s := Hyphened(parts);
    assert |s| == 36 && s[8] == '-' && s[13] == '-' && s[18] == '-' && s[23] == '-';
    forall i | 0 <= i < 36 && i !in {8, 13, 18, 23} ensures Hex(s[i]) {
      if i < 8 {
        assert s[i] == parts[0][i];
      } else if i < 13 {
        assert s[i] == parts[1][i - 9];
      } else if i < 18 {
        assert s[i] == parts[2][i - 14];
      } else if i < 23 {
        assert s[i] == parts[3][i - 19];
      } else {
        assert s[i] == parts[4][i - 24];
      }
    }
  }

  /** The subscription a call works on when its ID names `sub`. */
  function Effective(sub: string, driverSub: string): string {
    if ValidSub(sub) then sub else driverSub
  }

  // ---------- volume IDs ----------

  /** GetFileShareInfo */
  function GetFileShareInfo(id: string): Result<ShareInfo> {
    var segs := Segments(id);
    if |segs| < 3 then Err
    else
      var disk := if |segs| > 3 then segs[3] else "";
      var namespace :=
        if segs[0] == "" then (if |segs| > 4 then segs[4] else "")
        else if |segs| > 5 then segs[5] else "";
      var sub := if segs[0] != "" && |segs| > 6 then segs[6] else "";
      if Climbs(disk) || Climbs(namespace) then Err
      else Ok(ShareInfo(segs[0], segs[1], segs[2], disk, namespace, sub))
  }

  /** The volume ID CreateVolume prints. */
  function PrintVolumeID(v: ShareInfo, uuid: string, driverSub: string): string {
    var id := Join([v.rg, v.account, v.share, v.disk, uuid, v.namespace], [SEPARATOR]);
    if v.sub != "" && v.sub != driverSub then id + [SEPARATOR] + v.sub else id
  }

  predicate Plain(s: string) {
    SEPARATOR !in s
  }

  predicate PlainInfo(v: ShareInfo) {
    Plain(v.rg) && Plain(v.account) && Plain(v.share) && Plain(v.disk) && Plain(v.namespace) && Plain(v.sub)
  }

  /** Text with a separator, cut at its first. */
  lemma {:induction false} CutFirst(v: string) returns (head: string, tail: string)
    requires !Plain(v)
    ensures v == head + [SEPARATOR] + tail && Plain(head) && |tail| < |v|
  {
    if v[0] == SEPARATOR {
      head, tail := "", v[1..];
    } else {
      head, tail := CutFirst(v[1..]);
      head := [v[0]] + head;
    }
  }

  lemma FirstSegment(head: string, tail: string)
    requires Plain(head)
    ensures Segments(head + [SEPARATOR] + tail) == [head] + Segments(tail)
  {
    AvoidsChar(head, SEPARATOR);
    SplitFirst(head, [SEPARATOR], tail);
  }

  lemma SnocStep(head: string, tail: string, w: string)
    requires Plain(head) && Segments(tail + [SEPARATOR] + w) == Segments(tail) + [w]
    ensures Segments(head + [SEPARATOR] + tail + [SEPARATOR] + w) == Segments(head + [SEPARATOR] + tail) + [w]
  {
    var rest := tail + [SEPARATOR] + w;
    assert head + [SEPARATOR] + tail + [SEPARATOR] + w == head + [SEPARATOR] + rest;
    calc {
      Segments(head + [SEPARATOR] + rest);
    ==  { FirstSegment(head, rest); }
      [head] + (Segments(tail) + [w]);
    ==
      [head] + Segments(tail) + [w];
    ==  { FirstSegment(head, tail); }
      Segments(head + [SEPARATOR] + tail) + [w];
    }
  }

  /** One more field at the end of an ID is one more segment. */
  lemma {:induction false} SplitSnoc(v: string, w: string)
    requires Plain(w)
    ensures Segments(v + [SEPARATOR] + w) == Segments(v) + [w]
    decreases |v|
  {
    AvoidsChar(w, SEPARATOR);
    if Plain(v) {
      AvoidsChar(v, SEPARATOR);
      FirstSegment(v, w);
    } else {
      var head, tail := CutFirst(v);
      SplitSnoc(tail, w);
      SnocStep(head, tail, w);
    }
  }

  /** Cut at its hashes, a printed volume ID is the six fields in order, and a seventh
      for a subscription other than the driver's. */
  lemma PrintedSegments(v: ShareInfo, uuid: string, driverSub: string)
    requires PlainInfo(v) && Plain(uuid)
    ensures
      var six := [v.rg, v.account, v.share, v.disk, uuid, v.namespace];
      Split(PrintVolumeID(v, uuid, driverSub), "#") == if v.sub != "" && v.sub != driverSub then six + [v.sub] else six
  {
    var six := [v.rg, v.account, v.share, v.disk, uuid, v.namespace];
    SplitJoinChar(six, SEPARATOR);
    SplitSnoc(Join(six, [SEPARATOR]), v.sub);
  }

  /** The subscription part of a printed ID. */
  function PrintedSub(v: ShareInfo, driverSub: string): string {
    if v.sub == driverSub then "" else v.sub
  }

  /** A printed volume ID gives every field back exactly when no path in it climbs
      and it is of the full form: with a resource group, or else with the namespace
      also where the migrated form keeps it and no subscription to lose. */
  lemma VolumeRoundTrip(v: ShareInfo, uuid: string, driverSub: string)
    requires PlainInfo(v) && Plain(uuid)
    ensures GetFileShareInfo(PrintVolumeID(v, uuid, driverSub)) == Ok(v.(sub := PrintedSub(v, driverSub)))
            <==> !Climbs(v.disk) && !Climbs(v.namespace)
                 && (v.rg != "" || (uuid == v.namespace && PrintedSub(v, driverSub) == ""))
  {
    PrintedSegments(v, uuid, driverSub);
  }

  lemma FewFields(a: string, b: string)
    requires Plain(a) && Plain(b)
    ensures GetFileShareInfo(Join([a], [SEPARATOR])) == Err == GetFileShareInfo(Join([a, b], [SEPARATOR]))
  {
    SplitJoinChar([a], SEPARATOR);
    SplitJoinChar([a, b], SEPARATOR);
  }

  lemma ThreeFields(v: ShareInfo)
    requires PlainInfo(v)
    ensures GetFileShareInfo(Join([v.rg, v.account, v.share], [SEPARATOR])) == Ok(ShareInfo(v.rg, v.account, v.share, "", "", ""))
  {
    SplitJoinChar([v.rg, v.account, v.share], SEPARATOR);
  }

  lemma FourFields(v: ShareInfo)
    requires PlainInfo(v)
    ensures GetFileShareInfo(Join([v.rg, v.account, v.share, v.disk], [SEPARATOR]))
            == if Climbs(v.disk) then Err else Ok(ShareInfo(v.rg, v.account, v.share, v.disk, "", ""))
  {
    SplitJoinChar([v.rg, v.account, v.share, v.disk], SEPARATOR);
  }

  lemma MigratedForm(v: ShareInfo)
    requires PlainInfo(v)
    ensures GetFileShareInfo(Join(["", v.account, v.share, v.disk, v.namespace], [SEPARATOR]))
            == if Climbs(v.disk) || Climbs(v.namespace) then Err else Ok(v.(rg := "", sub := ""))
  {
    SplitJoinChar(["", v.account, v.share, v.disk, v.namespace], SEPARATOR);
  }

  /** The shorter forms: fewer than three fields are no volume ID; three and four name
      the share and the disk; five without a resource group, the migrated form, end
      with the namespace. */
  lemma ShorterForms(v: ShareInfo)
    requires PlainInfo(v)
    ensures GetFileShareInfo(Join([v.rg], [SEPARATOR])) == Err == GetFileShareInfo(Join([v.rg, v.account], [SEPARATOR]))
    ensures GetFileShareInfo(Join([v.rg, v.account, v.share], [SEPARATOR])) == Ok(ShareInfo(v.rg, v.account, v.share, "", "", ""))
    ensures GetFileShareInfo(Join([v.rg, v.account, v.share, v.disk], [SEPARATOR]))
            == if Climbs(v.disk) then Err else Ok(ShareInfo(v.rg, v.account, v.share, v.disk, "", ""))
    ensures GetFileShareInfo(Join(["", v.account, v.share, v.disk, v.namespace], [SEPARATOR]))
            == if Climbs(v.disk) || Climbs(v.namespace) then Err else Ok(v.(rg := "", sub := ""))
  {
    FewFields(v.rg, v.account);
    ThreeFields(v);
    FourFields(v);
    MigratedForm(v);
  }

  /** What CreateVolume prints, every later call resolves to the subscription the
      share was made in, exactly when that subscription is the driver's own or is
      written as one. */
  lemma SubscriptionKept(v: ShareInfo, uuid: string, driverSub: string)
    requires PlainInfo(v) && Plain(uuid) && v.rg != "" && !Climbs(v.disk) && !Climbs(v.namespace)
    ensures
      var read := GetFileShareInfo(PrintVolumeID(v, uuid, driverSub));
      var used := if v.sub == "" then driverSub else v.sub;
      read.Ok? && (Effective(read.value.sub, driverSub) == used <==> used == driverSub || ValidSub(v.sub))
  {
    VolumeRoundTrip(v, uuid, driverSub);
  }

  // ---------- snapshot IDs ----------

  /** GetInfoFromSnapshotID */
  function GetInfoFromSnapshotID(id: string): Result<SnapshotInfo> {
    var segs := Segments(id);
    var last := |segs| - 1;
    if |segs| < 4 then Err
    else
      var (time, sub) :=
        if |segs| >= 7 then
          if |segs| > 7 && ValidSub(segs[7]) then (segs[6], segs[7])
          else if |segs| > 7 && ValidSub(segs[6]) then (segs[7], segs[6])
          else (segs[6], "")
        else if |segs| >= 5 && ValidSub(segs[last]) then (segs[last - 1], segs[last])
        else if |segs| >= 5 && ValidSub(segs[last - 1]) then (segs[last], segs[last - 1])
        else (segs[last], "");
      Ok(SnapshotInfo(segs[0], segs[1], segs[2], time, sub))
  }

  /** The snapshot ID CreateSnapshot prints. */
  function PrintSnapshotID(volumeID: string, time: string, sub: string): string {
    volumeID + [SEPARATOR] + time + [SEPARATOR] + sub
  }

  /** The volume IDs whose snapshots' IDs name the snapshot. */
  predicate NamesSnapshots(fields: seq<string>, time: string, sub: string) {
    match |fields|
    case 3 => true
    case 4 => true
    case 6 => true
    case 7 => fields[6] == sub && (ValidSub(time) ==> time == sub)
    case n =>
      && n > 7
      && ((fields[6] == time && fields[7] == sub)
          || (fields[6] == sub && fields[7] == time && (ValidSub(time) ==> time == sub)))
  }

  /** For every volume ID, whatever its form, the snapshot ID made from it gives
      back the share, the snapshot time and the subscription exactly when the ID has
      three, four or six fields, or its later fields repeat what follows them. Five
      fields never do: the seven of the snapshot ID look like the standard form. */
  lemma SnapshotRoundTrip(volumeID: string, time: string, sub: string)
    requires |Segments(volumeID)| >= 3 && Plain(time) && Plain(sub) && ValidSub(sub)
    ensures
      var f := Segments(volumeID);
      GetInfoFromSnapshotID(PrintSnapshotID(volumeID, time, sub)) == Ok(SnapshotInfo(f[0], f[1], f[2], time, sub))
      <==> NamesSnapshots(f, time, sub)
  {
    SnapshotSegments(volumeID, time, sub);
  }

  /** The fields of a snapshot ID are those of the volume ID, the time and the
      subscription. */
  lemma SnapshotSegments(volumeID: string, time: string, sub: string)
    requires Plain(time) && Plain(sub)
    ensures Split(PrintSnapshotID(volumeID, time, sub), "#") == Split(volumeID, "#") + [time, sub]
  {
    SplitSnoc(volumeID, time);
    SplitSnoc(volumeID + [SEPARATOR] + time, sub);
    assert Segments(volumeID) + [time] + [sub] == Segments(volumeID) + [time, sub];
  }

  /** The older order, subscription before time, is read the same way: for three,
      four or six fields always, for seven only if the last repeats the time. */
  lemma OlderOrder(volumeID: string, time: string, sub: string)
    requires 3 <= |Segments(volumeID)| <= 7 && Plain(time) && ValidSub(sub) && !ValidSub(time)
    ensures
      var f := Segments(volumeID);
      GetInfoFromSnapshotID(PrintSnapshotID(volumeID, sub, time)) == Ok(SnapshotInfo(f[0], f[1], f[2], time, sub))
      <==> |f| in {3, 4, 6} || (|f| == 7 && f[6] == time)
  {
    SnapshotSegments(volumeID, sub, time);
  }

  /** The snapshots of a volume ID that are found also without a subscription. */
  predicate NamesWithout(fields: seq<string>, time: string) {
    match |fields|
    case 3 => true
    case 6 => true
    case 4 => !ValidSub(fields[3])
    case 5 => !ValidSub(fields[4])
    case n => n > 6 && fields[6] == time && (n > 7 ==> !ValidSub(fields[7]))
  }

  /** The migrated form, which ends with the time: fewer than three fields before it are
      no snapshot ID, three and six always give it back, others exactly when none of
      their later fields stands for a subscription or the time. */
  lemma WithoutSubscription(volumeID: string, time: string)
    requires Plain(time) && !ValidSub(time)
    ensures
      var f, r := Split(volumeID, "#"), GetInfoFromSnapshotID(volumeID + "#" + time);
      && (r == Err <==> |f| < 3)
      && (|f| >= 3 ==> (r == Ok(SnapshotInfo(f[0], f[1], f[2], time, "")) <==> NamesWithout(f, time)))
  {
    SplitSnoc(volumeID, time);
  }

  /** From CreateVolume to DeleteSnapshot: of a share made with a resource group and
      in a well-formed subscription, the snapshot deleted is the one that was taken,
      on the same account, share and subscription. */
  lemma SnapshotOfCreated(v: ShareInfo, uuid: string, driverSub: string, time: string)
    requires PlainInfo(v) && Plain(uuid) && v.rg != "" && !Climbs(v.disk) && !Climbs(v.namespace)
    requires ValidSub(driverSub) && (v.sub == "" || ValidSub(v.sub)) && Plain(time) && !ValidSub(time)
    ensures
      var source := GetFileShareInfo(PrintVolumeID(v, uuid, driverSub));
      source.Ok? &&
      var sub := Effective(source.value.sub, driverSub);
      GetInfoFromSnapshotID(PrintSnapshotID(PrintVolumeID(v, uuid, driverSub), time, sub))
      == Ok(SnapshotInfo(v.rg, v.account, v.share, time, if v.sub == "" then driverSub else v.sub))
  {
    PrintedSegments(v, uuid, driverSub);
    SubscriptionKept(v, uuid, driverSub);
    var sub := if v.sub == "" then driverSub else v.sub;
    assert Plain(sub);
    SnapshotRoundTrip(PrintVolumeID(v, uuid, driverSub), time, sub);
  }
}
