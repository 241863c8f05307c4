/** The share name derived from a volume name, and when it keeps Azure's rules. */
module ShareName {
  import opened Strings

  const MIN_LENGTH := 3
  const MAX_LENGTH := 63

  predicate Alnum(c: char) {
    'a' <= c <= 'z' || '0' <= c <= '9'
  }

  predicate BeginsAndEndsWell(s: string) {
    s != "" && Alnum(s[0]) && Alnum(s[|s| - 1])
  }

  /** n hyphens stand in s from i on. */
  predicate HyphensAt(s: string, i: int, n: nat) {
    0 <= i && i + n <= |s| && forall k :: i <= k < i + n ==> s[k] == '-'
  }

  predicate HasHyphens(s: string, n: nat) {
    exists i :: 0 <= i <= |s| && HyphensAt(s, i, n)
  }

  /** Azure's rules: 3 to 63 lower-case letters, digits and hyphens, a letter or digit
      first and last, and no two hyphens in a row. */
  predicate ValidShareName(s: string) {
    && 3 <= |s| <= 63
    && (forall c :: c in s ==> 'a' <= c <= 'z' || '0' <= c <= '9' || c == '-')
    && s[0] != '-' && s[|s| - 1] != '-'
    && !HasHyphens(s, 2)
  }

  // ---------- generated names ----------

  /** GenerateVolumeName: as much of the prefix as fits, a dash, and the whole name. */
  function GenerateVolumeName(clusterName: string, pvName: string, maxLength: nat): (name: string)
    requires |pvName| < maxLength
    ensures |name| <= maxLength && |name| > |pvName| && name[|name| - |pvName| - 1..] == "-" + pvName
    ensures name[..|name| - |pvName| - 1] <= clusterName + "-dynamic"
    ensures |clusterName| + 9 + |pvName| <= maxLength ==> name == clusterName + "-dynamic-" + pvName
  {
    var prefix := clusterName + "-dynamic";
    var fitting := if |pvName| + 1 + |prefix| > maxLength then prefix[..maxLength - |pvName| - 1] else prefix;
    fitting + "-" + pvName
  }

  /** A generated UUID: 8-4-4-4-12 lower-case hexadecimal digits. */
  predicate IsUuid(u: string) {
    |u| == 36 && forall i :: 0 <= i < 36 ==> if i in {8, 13, 18, 23} then u[i] == '-' else '0' <= u[i] <= '9' || 'a' <= u[i] <= 'f'
  }

  // ---------- double hyphens ----------

  /** strings.Replace of every "--" by "-". */
  function ReplaceDouble(s: string): string {
    if |s| < 2 then s
    else if s[0] == '-' && s[1] == '-' then "-" + ReplaceDouble(s[2..])
    else [s[0]] + ReplaceDouble(s[1..])
  }

  function Hyphens(n: nat): (s: string)
    ensures |s| == n && forall i :: 0 <= i < n ==> s[i] == '-'
  {
    seq(n, _ => '-')
  }

  function Leading(s: string): (n: nat)
    ensures n <= |s| && (forall i :: 0 <= i < n ==> s[i] == '-') && (n < |s| ==> s[n] != '-')
  {
    if s == "" || s[0] != '-' then 0 else 1 + Leading(s[1..])
  }

  /** Every run of k hyphens shortened to the upper half of k. */
  function Halved(s: string): string
    decreases |s|
  {
    if s == "" then ""
    else if s[0] != '-' then [s[0]] + Halved(s[1..])
    else Hyphens((Leading(s) + 1) / 2) + Halved(s[Leading(s)..])
  }

  predicate NoHyphenFirst(s: string) {
    s == "" || s[0] != '-'
  }

  lemma OneMoreHyphen(n: nat, t: string)
    ensures "-" + (Hyphens(n) + t) == Hyphens(n + 1) + t
  {
  }

  lemma TwoReplaced(x: string)
    ensures ReplaceDouble("--" + x) == "-" + ReplaceDouble(x)
  {
    assert ("--" + x)[2..] == x;
  }

  lemma OneStays(t: string)
    requires NoHyphenFirst(t)
    ensures ReplaceDouble("-" + t) == "-" + ReplaceDouble(t)
  {
    assert ("-" + t)[1..] == t;
  }

  lemma {:induction false} RunHalved(k: nat, t: string)
    requires NoHyphenFirst(t)
    ensures ReplaceDouble(Hyphens(k) + t) == Hyphens((k + 1) / 2) + ReplaceDouble(t)
  {
    if k == 0 {
      assert Hyphens(0) + t == t && Hyphens(0) + ReplaceDouble(t) == ReplaceDouble(t);
    } else if k == 1 {
      assert Hyphens(1) == "-";
      OneStays(t);
    } else {
      var x := Hyphens(k - 2) + t;
      assert Hyphens(k) + t == "--" + x;
      calc {
        ReplaceDouble("--" + x);
      ==  { TwoReplaced(x); }
        "-" + ReplaceDouble(x);
      ==  { RunHalved(k - 2, t); }
        "-" + (Hyphens((k - 1) / 2) + ReplaceDouble(t));
      ==  { OneMoreHyphen((k - 1) / 2, ReplaceDouble(t)); }
        Hyphens((k + 1) / 2) + ReplaceDouble(t);
      }
    }
  }

  /** Replacing double hyphens by single ones, left to right, halves every run. */
  lemma {:induction false} RunsHalved(s: string)
    ensures ReplaceDouble(s) == Halved(s)
    decreases |s|
  {
    if s == "" {
    } else if s[0] != '-' {
      RunsHalved(s[1..]);
    } else {
      var k := Leading(s);
      assert s == Hyphens(k) + s[k..];
      RunHalved(k, s[k..]);
      RunsHalved(s[k..]);
    }
  }

  lemma Shifted(front: string, t: string, i: nat, n: nat)
    ensures HyphensAt(front + t, |front| + i, n) <==> HyphensAt(t, i, n)
  {
    var s := front + t;
    if i + n <= |t| {
      assert forall k :: i <= k < i + n ==> t[k] == s[|front| + k];
      assert forall k :: |front| + i <= k < |front| + i + n ==> s[k] == t[k - |front|];
    }
  }

  lemma HasAfterRun(m: nat, t: string, n: nat)
    requires n > 0 && NoHyphenFirst(t)
    ensures HasHyphens(Hyphens(m) + t, n) <==> m >= n || HasHyphens(t, n)
  {
    var s := Hyphens(m) + t;
    if m >= n {
      assert HyphensAt(s, 0, n);
    }
    if HasHyphens(t, n) {
      var i :| 0 <= i <= |t| && HyphensAt(t, i, n);
      Shifted(Hyphens(m), t, i, n);
      assert HyphensAt(s, m + i, n);
    }
    if HasHyphens(s, n) {
      var i :| 0 <= i <= |s| && HyphensAt(s, i, n);
      if i < m {
        assert i + n > m && t != "" ==> s[m] == t[0];
      } else {
        Shifted(Hyphens(m), t, i - m, n);
      }
    }
  }

  lemma HasAfterOther(c: char, t: string, n: nat)
    requires n > 0 && c != '-'
    ensures HasHyphens([c] + t, n) <==> HasHyphens(t, n)
  {
    var s := [c] + t;
    if HasHyphens(t, n) {
      var i :| 0 <= i <= |t| && HyphensAt(t, i, n);
      Shifted([c], t, i, n);
      assert HyphensAt(s, 1 + i, n);
    }
    if HasHyphens(s, n) {
      var i :| 0 <= i <= |s| && HyphensAt(s, i, n);
      assert s[i] == '-';
      Shifted([c], t, i - 1, n);
    }
  }

  /** Two hyphens in a row are left exactly where there were three. */
  lemma {:induction false} DoubleAfterTriple(s: string)
    ensures HasHyphens(Halved(s), 2) <==> HasHyphens(s, 3)
    ensures NoHyphenFirst(s) <==> NoHyphenFirst(Halved(s))
    decreases |s|
  {
    if s == "" {
    } else if s[0] != '-' {
      DoubleAfterTriple(s[1..]);
      HasAfterOther(s[0], Halved(s[1..]), 2);
      HasAfterOther(s[0], s[1..], 3);
      assert s == [s[0]] + s[1..];
    } else {
      var k := Leading(s);
      DoubleAfterTriple(s[k..]);
      HasAfterRun((k + 1) / 2, Halved(s[k..]), 2);
      HasAfterRun(k, s[k..], 3);
      assert s == Hyphens(k) + s[k..];
    }
  }

  /** Halving keeps the last character, if it is no hyphen, and a second one. */
  lemma {:induction false} HalvedEnd(s: string)
    requires s != "" && s[|s| - 1] != '-'
    ensures Halved(s) != "" && Halved(s)[|Halved(s)| - 1] == s[|s| - 1]
    ensures |Halved(s)| <= |s| && (|s| >= 2 ==> |Halved(s)| >= 2)
    decreases |s|
  {
    var rest := s[if s[0] == '-' then Leading(s) else 1..];
    if rest != "" {
      HalvedEnd(rest);
      assert rest[|rest| - 1] == s[|s| - 1];
    }
  }

  lemma HyphenIn(c: char, n: nat)
    ensures c in Hyphens(n) <==> n > 0 && c == '-'
  {
    if n > 0 {
      assert Hyphens(n)[0] == '-';
    }
  }

  /** Halving neither loses nor brings in any kind of character. */
  lemma {:induction false} HalvedChars(s: string, c: char)
    ensures c in Halved(s) <==> c in s
    decreases |s|
  {
    if s != "" {
      var k := if s[0] == '-' then Leading(s) else 1;
      HalvedChars(s[k..], c);
      HyphenIn(c, (k + 1) / 2);
      assert s == s[..k] + s[k..];
      assert s[0] in s[..k] && forall x :: x in s[..k] ==> x == s[0];
    }
  }

  // ---------- the name ----------

  function Truncated(volumeName: string): string {
    var lower := ToLower(volumeName);
    if |lower| > MAX_LENGTH then lower[..MAX_LENGTH] else lower
  }

  predicate Regenerated(volumeName: string) {
    !BeginsAndEndsWell(Truncated(volumeName)) || |Truncated(volumeName)| < MIN_LENGTH
  }

  /** The name before hyphens are replaced. */
  function Chosen(volumeName: string, uuid: string): string
    requires |uuid| < MAX_LENGTH
  {
    if Regenerated(volumeName) then GenerateVolumeName("pvc-file", uuid, MAX_LENGTH) else Truncated(volumeName)
  }

  /** getValidFileShareName, with the UUID it would generate. */
  function GetValidFileShareName(volumeName: string, uuid: string): string
    requires |uuid| < MAX_LENGTH
  {
    ToLower(ReplaceDouble(Chosen(volumeName, uuid)))
  }

  predicate Lowered(s: string) {
    forall c :: c in s ==> !('A' <= c <= 'Z')
  }

  lemma LoweredStays(s: string)
    requires Lowered(s)
    ensures ToLower(s) == s
  {
    assert forall i :: 0 <= i < |s| ==> s[i] in s;
  }

  lemma NoPairAcross(a: string, b: string)
    requires a != "" && b != "" && !HasHyphens(a, 2) && !HasHyphens(b, 2)
    requires a[|a| - 1] != '-' || b[0] != '-'
    ensures !HasHyphens(a + b, 2)
  {
    var s := a + b;
    forall i | 0 <= i <= |s| ensures !HyphensAt(s, i, 2) {
      if HyphensAt(s, i, 2) {
        assert s[i] == '-' && s[i + 1] == '-';
        assert i + 1 < |a| ==> HyphensAt(a, i, 2);
        assert i >= |a| ==> HyphensAt(b, i - |a|, 2);
      }
    }
  }

  lemma NoPairInPrefix()
    ensures !HasHyphens("pvc-file-dynamic-", 2)
  {
    var prefix := "pvc-file-dynamic-";
    forall i | 0 <= i <= |prefix| ensures !HyphensAt(prefix, i, 2) {
      assert i + 1 < |prefix| ==> prefix[i] != '-' || prefix[i + 1] != '-';
    }
  }

  lemma NoPairInUuid(uuid: string)
    requires IsUuid(uuid)
    ensures !HasHyphens(uuid, 2)
  {
    forall i | 0 <= i <= |uuid| ensures !HyphensAt(uuid, i, 2) {
      assert i + 1 < |uuid| ==> uuid[i] != '-' || uuid[i + 1] != '-';
    }
  }

  /** The fallback name, whatever UUID is drawn, has no two hyphens in a row. */
  lemma GeneratedShape(uuid: string)
    requires IsUuid(uuid)
    ensures
      var name := GenerateVolumeName("pvc-file", uuid, MAX_LENGTH);
      BeginsAndEndsWell(name) && MIN_LENGTH <= |name| <= MAX_LENGTH && !HasHyphens(name, 2)
      && forall c :: c in name ==> Alnum(c) || c == '-'
  {
    NoPairInPrefix();
    NoPairInUuid(uuid);
    NoPairAcross("pvc-file-dynamic-", uuid);
    assert GenerateVolumeName("pvc-file", uuid, MAX_LENGTH) == "pvc-file-dynamic-" + uuid;
  }

  lemma NoDoubleNoTriple(s: string)
    requires HasHyphens(s, 3)
    ensures HasHyphens(s, 2)
  {
    var i :| 0 <= i <= |s| && HyphensAt(s, i, 3);
    assert HyphensAt(s, i, 2);
  }

  lemma ChosenShape(volumeName: string, uuid: string)
    requires volumeName != "" && IsUuid(uuid)
    ensures
      var name := Chosen(volumeName, uuid);
      Lowered(name) && BeginsAndEndsWell(name) && MIN_LENGTH <= |name| <= MAX_LENGTH
  {
    if Regenerated(volumeName) {
      GeneratedShape(uuid);
    }
  }

  lemma HalvedStart(s: string)
    requires s != "" && s[0] != '-'
    ensures Halved(s) != "" && Halved(s)[0] == s[0]
    ensures |s| >= 3 && s[|s| - 1] != '-' ==> |Halved(s)| >= 3
  {
    if |s| >= 3 && s[|s| - 1] != '-' {
      HalvedEnd(s[1..]);
    }
  }

  /** For every non-empty volume name: 3 to 63 characters, none of them upper case, a
      letter or digit at either end, and every run of hyphens halved. */
  lemma NameShape(volumeName: string, uuid: string)
    requires volumeName != "" && IsUuid(uuid)
    ensures
      var name := GetValidFileShareName(volumeName, uuid);
      && name == Halved(Chosen(volumeName, uuid))
      && MIN_LENGTH <= |name| <= MAX_LENGTH && Lowered(name) && BeginsAndEndsWell(name)
  {
    var chosen := Chosen(volumeName, uuid);
    ChosenShape(volumeName, uuid);
    RunsHalved(chosen);
    HalvedStart(chosen);
    HalvedEnd(chosen);
    forall c ensures c in Halved(chosen) <==> c in chosen {
      HalvedChars(chosen, c);
    }
    LoweredStays(Halved(chosen));
  }

  lemma NoPairStays(s: string)
    requires !HasHyphens(s, 2)
    ensures ReplaceDouble(s) == s
  {
    if |s| >= 2 {
      assert !HyphensAt(s, 0, 2);
      NoPairLater(s);
      NoPairStays(s[1..]);
    }
  }

  lemma NoPairLater(s: string)
    requires s != "" && !HasHyphens(s, 2)
    ensures !HasHyphens(s[1..], 2)
  {
    var t := s[1..];
    forall i | 0 <= i <= |t| ensures !HyphensAt(t, i, 2) {
      Shifted(s[..1], t, i, 2);
      assert s[..1] + t == s;
      assert !HyphensAt(s, 1 + i, 2);
    }
  }

  /** A volume name that keeps the rules is its own share name. */
  lemma ValidStays(volumeName: string, uuid: string)
    requires ValidShareName(volumeName) && |uuid| < MAX_LENGTH
    ensures GetValidFileShareName(volumeName, uuid) == volumeName
  {
    var s := volumeName;
    assert s[0] in s && s[|s| - 1] in s;
    LoweredStays(s);
    assert Truncated(s) == s && !Regenerated(s);
    NoPairStays(s);
  }

  lemma PlainStays(s: string)
    requires !HasHyphens(s, 2) && forall c :: c in s ==> Alnum(c) || c == '-'
    ensures ToLower(ReplaceDouble(s)) == s
  {
    NoPairStays(s);
    LoweredStays(s);
  }

  lemma FallbackName(volumeName: string, uuid: string)
    requires IsUuid(uuid) && Regenerated(volumeName)
    ensures GetValidFileShareName(volumeName, uuid) == GenerateVolumeName("pvc-file", uuid, MAX_LENGTH)
  {
    GeneratedShape(uuid);
    PlainStays(GenerateVolumeName("pvc-file", uuid, MAX_LENGTH));
  }

  lemma FallbackText(uuid: string)
    requires IsUuid(uuid)
    ensures GenerateVolumeName("pvc-file", uuid, MAX_LENGTH) == "pvc-file-dynamic-" + uuid
  {
    assert "pvc-file" + "-dynamic-" == "pvc-file-dynamic-";
  }

  lemma KeptName(volumeName: string, uuid: string)
    requires IsUuid(uuid) && !Regenerated(volumeName)
    ensures GetValidFileShareName(volumeName, uuid) == Halved(Truncated(volumeName))
  {
    NameShape(volumeName, uuid);
  }

  /** Of any other name the first 63 characters count, in lower case: if they begin and
      end well and are 3 at least, they are the share name but for the halved runs of
      hyphens; if not, the name is made of the UUID. */
  lemma NameExactly(volumeName: string, uuid: string)
    requires IsUuid(uuid)
    ensures
      var lower := ToLower(volumeName);
      var used := if |lower| > 63 then lower[..63] else lower;
      GetValidFileShareName(volumeName, uuid)
      == if |used| >= 3 && Alnum(used[0]) && Alnum(used[|used| - 1]) then Halved(used) else "pvc-file-dynamic-" + uuid
  {
    if Regenerated(volumeName) {
      FallbackName(volumeName, uuid);
      FallbackText(uuid);
    } else {
      KeptName(volumeName, uuid);
    }
  }

  /** The name keeps all of Azure's rules exactly when the volume name had to be
      replaced, or has no three hyphens in a row and nothing but letters, digits and
      hyphens, in the part that is used. */
  lemma ValidExactly(volumeName: string, uuid: string)
    requires volumeName != "" && IsUuid(uuid)
    ensures
      var used := Truncated(volumeName);
      ValidShareName(GetValidFileShareName(volumeName, uuid))
      <==> Regenerated(volumeName) || (!HasHyphens(used, 3) && forall c :: c in used ==> Alnum(c) || c == '-')
  {
    var chosen := Chosen(volumeName, uuid);
    NameShape(volumeName, uuid);
    DoubleAfterTriple(chosen);
    forall c ensures c in Halved(chosen) <==> c in chosen {
      HalvedChars(chosen, c);
    }
    if Regenerated(volumeName) {
      GeneratedShape(uuid);
      if HasHyphens(chosen, 3) {
        NoDoubleNoTriple(chosen);
      }
    }
  }
}
