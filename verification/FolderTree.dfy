/** createFolderIfNotExists: makes every level of a nested path on a file share
    whose directories other writers extend at the same time. */
module FolderTree {
  import opened Strings

  /** A directory of the share, as its components from the root; [] is the root. */
  type Path = seq<string>

  function NonEmpty(parts: seq<string>): seq<string> {
    if parts == [] then []
    else if parts[0] == "" then NonEmpty(parts[1..])
    else [parts[0]] + NonEmpty(parts[1..])
  }

  predicate Slash(c: char) {
    c == '/'
  }

  function TrimSlashes(name: string): string {
    Trim(name, Slash)
  }

  /** Exactly the slashes around the name are taken off. */
  lemma SlashesTrimmed(name: string) returns (front: string, back: string)
    ensures var t := TrimSlashes(name);
      && name == front + t + back
      && (forall c :: c in front + back ==> c == '/')
      && (t != "" ==> t[0] != '/' && t[|t| - 1] != '/')
  {
    front, back := TrimCuts(name, Slash);
  }

  /** The path a folder name stands for. */
  function PathOf(folderName: string): Path {
    NonEmpty(Split(TrimSlashes(folderName), "/"))
  }

  // ---------- valid folder names ----------

  predicate GoodChar(c: char) {
    c !in "\\:*?\"<>|" && ' ' <= c
  }

  predicate GoodSegment(seg: string) {
    && seg != "" && seg != ".." && seg != "."
    && (forall i :: 0 <= i < |seg| ==> GoodChar(seg[i]))
    && seg[|seg| - 1] != '.' && seg[|seg| - 1] != ' '
  }

  predicate ValidName(folderName: string) {
    folderName == "" || (0 as char !in folderName && forall seg :: seg in Split(TrimSlashes(folderName), "/") ==> GoodSegment(seg))
  }

  /** Position by position: no character that Azure refuses, and none of period, space
      and slash where the next one is a slash or missing. */
  predicate FineAt(t: string, i: nat)
    requires i < |t|
  {
    && t[i] !in {'\\', ':', '*', '?', '\"', '<', '>', '|'} && t[i] as int > 31
    && (t[i] in {'.', ' ', '/'} ==> i + 1 < |t| && t[i + 1] != '/')
  }

  predicate Fine(t: string) {
    t != "" && t[0] != '/' && forall i :: 0 <= i < |t| ==> FineAt(t, i)
  }

  predicate FineThrough(t: string, n: nat)
    requires n <= |t|
  {
    forall i :: 0 <= i < n ==> FineAt(t, i)
  }

  predicate SegmentsGood(t: string) {
    forall seg :: seg in Split(t, "/") ==> GoodSegment(seg)
  }

  lemma GoodCharExactly(c: char)
    ensures GoodChar(c) <==> c !in {'\\', ':', '*', '?', '\"', '<', '>', '|'} && c as int > 31
  {
    var bad := "\\:*?\"<>|";
    assert bad[0] == '\\' && bad[1] == ':' && bad[2] == '*' && bad[3] == '?';
    assert bad[4] == '\"' && bad[5] == '<' && bad[6] == '>' && bad[7] == '|';
  }

  /** A segment is good when its characters are fine, the last one before a slash or the
      end of the name. */
  lemma SegmentExactly(t: string, n: nat)
    requires n <= |t| && (forall i :: 0 <= i < n ==> t[i] != '/') && (n == |t| || t[n] == '/')
    ensures GoodSegment(t[..n]) <==> n > 0 && FineThrough(t, n)
  {
    var seg := t[..n];
    forall i | 0 <= i < n ensures GoodChar(seg[i]) <==> t[i] !in {'\\', ':', '*', '?', '\"', '<', '>', '|'} && t[i] as int > 31 {
      GoodCharExactly(t[i]);
    }
    if n > 0 {
      assert FineAt(t, n - 1) <==> GoodChar(seg[n - 1]) && seg[n - 1] != '.' && seg[n - 1] != ' ';
      forall i | 0 <= i < n - 1 ensures FineAt(t, i) <==> GoodChar(seg[i]) {
      }
    }
  }

  /** All segments are good exactly when the name is fine everywhere. */
  lemma {:induction false} SegmentsExactly(t: string)
    ensures SegmentsGood(t) <==> Fine(t)
    decreases |t|
  {
    var n := IndexOf(t, "/");
    forall i | 0 <= i < n ensures t[i] != '/' {
      assert !HasAt(t, "/", i);
    }
    SegmentExactly(t, n);
    if n == |t| {
      assert t[..n] == t && Split(t, "/") == [t];
    } else {
      var rest := t[n + 1..];
      SegmentsExactly(rest);
      assert Split(t, "/") == [t[..n]] + Split(rest, "/");
      assert t[n] == '/';
      forall i | 0 <= i < |rest| ensures FineAt(rest, i) <==> FineAt(t, n + 1 + i) {
      }
      assert SegmentsGood(t) <==> GoodSegment(t[..n]) && SegmentsGood(rest);
      if Fine(rest) && n > 0 && FineThrough(t, n) {
        forall i | 0 <= i < |t| ensures FineAt(t, i) {
          if i > n {
            assert FineAt(rest, i - (n + 1));
          }
        }
      }
      if Fine(t) {
        assert FineAt(t, n);
        forall i | 0 <= i < |rest| ensures FineAt(rest, i) {
          assert FineAt(t, n + 1 + i);
        }
      }
    }
  }

  /** The empty name, or one that is fine between its slashes. */
  predicate Allowed(folderName: string) {
    folderName == "" || Fine(TrimSlashes(folderName))
  }

  lemma ValidExactly(folderName: string)
    ensures ValidName(folderName) <==> Allowed(folderName)
  {
    var t := TrimSlashes(folderName);
    var front, back := SlashesTrimmed(folderName);
    SegmentsExactly(t);
    if 0 as char in folderName {
      var z := 0 as char;
      assert z != '/' && folderName == front + t + back;
      assert z in front + back || z in t;
      var i :| 0 <= i < |t| && t[i] == 0 as char;
      assert !FineAt(t, i);
    }
  }

  /** isValidFolderName */
  method IsValidFolderName(folderName: string) returns (valid: bool)
    ensures valid <==> Allowed(folderName)
  {
    ValidExactly(folderName);
    if folderName == "" {
      return true;
    }
    if 0 as char in folderName {
      return false;
    }
    var segments := Split(TrimSlashes(folderName), "/");
    for n := 0 to |segments|
      invariant forall k :: 0 <= k < n ==> GoodSegment(segments[k])
    {
      var seg := segments[n];
      assert seg in segments;
      if seg == "" || seg == ".." || seg == "." {
        assert !GoodSegment(seg);
        return false;
      }
      for i := 0 to |seg|
        invariant forall k :: 0 <= k < i ==> GoodChar(seg[k])
      {
        if !GoodChar(seg[i]) {
          assert !GoodSegment(seg);
          return false;
        }
      }
      if seg[|seg| - 1] == '.' || seg[|seg| - 1] == ' ' {
        assert !GoodSegment(seg);
        return false;
      }
    }
    return true;
  }

  lemma {:induction false} KeepsAll(parts: seq<string>)
    requires "" !in parts
    ensures NonEmpty(parts) == parts
  {
    if parts != [] {
      KeepsAll(parts[1..]);
    }
  }

  /** Of a valid name the creating loop skips nothing: its path is the name's own
      segments, none of them leading upwards. */
  lemma ValidPath(folderName: string)
    requires folderName != "" && ValidName(folderName)
    ensures PathOf(folderName) == Split(TrimSlashes(folderName), "/") && PathOf(folderName) != []
    ensures forall seg :: seg in PathOf(folderName) ==> GoodSegment(seg)
  {
    KeepsAll(Split(TrimSlashes(folderName), "/"));
  }

  // ---------- the tree ----------

  /** Every directory's parent exists; the root always does. */
  predicate ParentClosed(dirs: set<Path>) {
    forall p :: p in dirs && p != [] ==> p[..|p| - 1] == [] || p[..|p| - 1] in dirs
  }

  /** In a parent-closed tree everything above a directory exists too. */
  lemma {:induction false} AllAbove(dirs: set<Path>, p: Path, n: nat)
    requires ParentClosed(dirs) && p in dirs && 0 < n <= |p|
    ensures p[..n] in dirs
    decreases |p|
  {
    if n < |p| {
      AllAbove(dirs, p[..|p| - 1], n);
      assert p[..|p| - 1][..n] == p[..n];
    } else {
      assert p[..n] == p;
    }
  }

  /** The path ahead of a level: what the components still to come will append. */
  ghost predicate Leads(current: Path, ahead: seq<string>, full: Path) {
    current + NonEmpty(ahead) == full
  }

  lemma Skips(current: Path, ahead: seq<string>, full: Path)
    requires ahead != [] && ahead[0] == "" && Leads(current, ahead, full)
    ensures Leads(current, ahead[1..], full)
  {
  }

  lemma Descends(current: Path, ahead: seq<string>, full: Path)
    requires ahead != [] && ahead[0] != "" && Leads(current, ahead, full)
    ensures Leads(current + [ahead[0]], ahead[1..], full) && current + [ahead[0]] <= full
  {
    var rest := NonEmpty(ahead[1..]);
    assert NonEmpty(ahead) == [ahead[0]] + rest;
    assert current + ([ahead[0]] + rest) == current + [ahead[0]] + rest;
  }

  /** What was created since is levels of the path that were not there before. */
  ghost predicate MissingLevels(mine: set<Path>, mineBefore: set<Path>, full: Path, before: set<Path>) {
    forall p :: p in mine && p !in mineBefore ==> p <= full && p !in before
  }

  datatype Probe = Exists | Missing | ProbeError
  datatype Create = Created | AlreadyThere | CreateError

  /** The directories of a share, whose requests all succeed if it is `reliable`: those
      that requests made here have created, and those that others have. */
  class ShareTree {
    const reliable: bool
    var dirs: set<Path>
    ghost var mine: set<Path>
    ghost var others: set<Path>

    constructor (reliable: bool)
      ensures this.reliable == reliable && dirs == mine == others == {} && Valid()
    {
      this.reliable, dirs, mine, others := reliable, {}, {}, {};
    }

    ghost predicate Valid()
      reads this
    {
      ParentClosed(dirs) && [] !in dirs && dirs == mine + others
    }

    /** Other writers add directories, keeping the tree parent-closed. */
    method OtherWriters()
      requires Valid()
      modifies `dirs, `others
      ensures Valid() && old(dirs) <= dirs
    {
      var more: set<Path> := *;
      if ParentClosed(dirs + more) && [] !in more {
        dirs, others := dirs + more, others + more;
      }
    }

    /** GetProperties: the truth, or an error. */
    method GetProperties(p: Path) returns (r: Probe)
      ensures r == Exists ==> p in dirs
      ensures r == Missing ==> p !in dirs
      ensures reliable ==> r != ProbeError
    {
      var failed: bool := *;
      r := if failed && !reliable then ProbeError else if p in dirs then Exists else Missing;
    }

    /** Create: one directory under an existing parent; an error tells nothing. */
    method CreateDirectory(p: Path) returns (r: Create)
      requires Valid() && p != [] && (|p| == 1 || p[..|p| - 1] in dirs)
      modifies `dirs, `mine
      ensures Valid()
      ensures (dirs == old(dirs) && mine == old(mine)) || (p !in old(dirs) && dirs == old(dirs) + {p} && mine == old(mine) + {p})
      ensures r == Created ==> p !in old(dirs) && p in dirs
      ensures r == AlreadyThere ==> p in old(dirs)
      ensures reliable ==> r != CreateError
    {
      if p in dirs {
        return AlreadyThere;
      }
      var applied: bool, answered: bool := *, *;
      applied, answered := applied || reliable, answered || reliable;
      if applied {
        dirs, mine := dirs + {p}, mine + {p};
      }
      r := if applied && answered then Created else CreateError;
    }

    ghost predicate AllLevels(p: Path)
      reads this
    {
      forall n :: 0 < n <= |p| ==> p[..n] in dirs
    }

    /** The levels down to `current` exist, nothing that was there is gone, and all that
        requests made here have created since are missing levels of the full path. */
    ghost predicate Progress(before: set<Path>, mineBefore: set<Path>, full: Path, current: Path)
      reads this
    {
      Valid() && before <= dirs && AllLevels(current) && MissingLevels(mine, mineBefore, full, before)
    }

    /** One round of the loop: the level exists afterwards, or the call fails. */
    method EnsureLevel(parent: Path, component: string, ghost before: set<Path>, ghost mineBefore: set<Path>, ghost full: Path)
        returns (ok: bool)
      requires parent + [component] <= full && Progress(before, mineBefore, full, parent)
      modifies this
      ensures Progress(before, mineBefore, full, if ok then parent + [component] else [])
      ensures reliable ==> ok
    {
      var current := parent + [component];
      OtherWriters();
      var probe := GetProperties(current);
      if probe == ProbeError {
        return false;
      }
      if probe == Missing {
        OtherWriters();
        assert parent[..|parent|] == parent == current[..|parent|];
        ghost var was := mine;
        var r := CreateDirectory(current);
        assert MissingLevels(mine, mineBefore, full, before) by {
          assert mine == was || (mine == was + {current} && current !in before);
        }
        if r == CreateError {
          return false;
        }
      }
      ok := true;
      forall n | 0 < n <= |current| ensures current[..n] in dirs {
        assert current[..n] == if n < |current| then parent[..n] else current;
      }
    }

    /** Makes the missing levels of the path, parents before children. It removes
        nothing and creates only missing levels of the path, none of them if the path
        was there; on success every level exists. */
    method CreateFolderIfNotExists(folderName: string) returns (ok: bool)
      requires Valid()
      modifies this
      ensures Progress(old(dirs), old(mine), PathOf(folderName), if ok then PathOf(folderName) else [])
      ensures PathOf(folderName) in old(dirs) ==> mine == old(mine)
      ensures reliable ==> ok
    {
      var full := PathOf(folderName);
      var probe := GetProperties(full);
      if probe == Exists {
        forall n | 0 < n <= |full| ensures full[..n] in dirs {
          AllAbove(dirs, full, n);
        }
        return true;
      }
      if probe == ProbeError {
        return false;
      }
      ok := CreateLevels(Split(TrimSlashes(folderName), "/"), full);
    }

    method CreateLevels(components: seq<string>, ghost full: Path) returns (ok: bool)
      requires Valid() && full == NonEmpty(components)
      modifies this
      ensures Progress(old(dirs), old(mine), full, if ok then full else [])
      ensures reliable ==> ok
    {
      ok := true;
      var current: Path, ahead := [], components;
      while ok && ahead != []
        invariant Progress(old(dirs), old(mine), full, current)
        invariant ok ==> Leads(current, ahead, full)
        invariant (!ok ==> current == []) && (reliable ==> ok)
        decreases |ahead|
      {
        if ahead[0] == "" {
          Skips(current, ahead, full);
        } else {
          Descends(current, ahead, full);
          ok := EnsureLevel(current, ahead[0], old(dirs), old(mine), full);
          current := if ok then current + [ahead[0]] else [];
        }
        ahead := ahead[1..];
      }
      assert ok ==> current == full;
    }
  }
}
