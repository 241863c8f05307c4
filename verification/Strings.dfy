/** The Go string operations the driver uses, over ASCII text. */
module Strings {

  function Lower(c: char): char {
    if 'A' <= c <= 'Z' then (c as int + 32) as char else c
  }

  function ToLower(s: string): (t: string)
    ensures |t| == |s| && forall i :: 0 <= i < |s| ==> t[i] == Lower(s[i])
  {
    seq(|s|, i requires 0 <= i < |s| => Lower(s[i]))
  }

  predicate EqualFold(a: string, b: string) {
    ToLower(a) == ToLower(b)
  }

  function TrimLeft(s: string, drop: char -> bool): string {
    if s != "" && drop(s[0]) then TrimLeft(s[1..], drop) else s
  }

  function TrimRight(s: string, drop: char -> bool): string {
    if s != "" && drop(s[|s| - 1]) then TrimRight(s[..|s| - 1], drop) else s
  }

  function Trim(s: string, drop: char -> bool): string {
    TrimRight(TrimLeft(s, drop), drop)
  }

  /** ASCII white space. */
  predicate Space(c: char) {
    c == ' ' || '\t' <= c <= '\r'
  }

  function TrimSpace(s: string): string {
    Trim(s, Space)
  }

  /** Neither end is to be trimmed. */
  predicate Tight(s: string, drop: char -> bool) {
    s != "" ==> !drop(s[0]) && !drop(s[|s| - 1])
  }

  predicate AllDrop(s: string, drop: char -> bool) {
    forall i :: 0 <= i < |s| ==> drop(s[i])
  }

  lemma {:induction false} TrimLeftCuts(s: string, drop: char -> bool) returns (n: nat)
    ensures n <= |s| && TrimLeft(s, drop) == s[n..] && AllDrop(s[..n], drop) && (n < |s| ==> !drop(s[n]))
  {
    if s != "" && drop(s[0]) {
      n := TrimLeftCuts(s[1..], drop);
      n := n + 1;
    } else {
      n := 0;
    }
  }

  lemma {:induction false} TrimRightCuts(s: string, drop: char -> bool) returns (n: nat)
    ensures n <= |s| && TrimRight(s, drop) == s[..n] && AllDrop(s[n..], drop) && (n > 0 ==> !drop(s[n - 1]))
  {
    n := |s|;
    if s != "" && drop(s[n - 1]) {
      var most := s[..n - 1];
      n := TrimRightCuts(most, drop);
      assert forall i :: 0 <= i < |most| - n ==> s[n..][i] == most[n..][i];
    }
  }

  /** Trimming takes off what is to be dropped at either end, and nothing else. */
  lemma TrimCuts(s: string, drop: char -> bool) returns (front: string, back: string)
    ensures s == front + Trim(s, drop) + back && AllDrop(front, drop) && AllDrop(back, drop) && Tight(Trim(s, drop), drop)
  {
    var n := TrimLeftCuts(s, drop);
    var rest := s[n..];
    var m := TrimRightCuts(rest, drop);
    front, back := s[..n], rest[m..];
  }

  lemma TightStays(s: string, drop: char -> bool)
    requires Tight(s, drop)
    ensures Trim(s, drop) == s
  {
  }

  /** A dropped tail does not change what trimming leaves. */
  lemma {:induction false} TrimRightTail(s: string, n: nat, drop: char -> bool)
    requires n <= |s| && AllDrop(s[n..], drop)
    ensures TrimRight(s, drop) == TrimRight(s[..n], drop)
    decreases |s|
  {
    if n < |s| {
      var most := s[..|s| - 1];
      assert s[n..][|s| - 1 - n] == s[|s| - 1];
      assert forall i :: 0 <= i < |most| - n ==> most[n..][i] == s[n..][i];
      TrimRightTail(most, n, drop);
      assert most[..n] == s[..n];
    } else {
      assert s[..n] == s;
    }
  }

  predicate HasAt(s: string, sub: string, i: nat) {
    i + |sub| <= |s| && s[i..i + |sub|] == sub
  }

  lemma OccursInTail(s: string, sep: string, k: nat)
    requires 0 < k <= |s|
    ensures HasAt(s, sep, k) <==> HasAt(s[1..], sep, k - 1)
  {
    if k + |sep| <= |s| {
      assert s[k..k + |sep|] == s[1..][k - 1..k - 1 + |sep|];
    }
  }

  /** The first position where sep occurs in s, or |s| when it does not. */
  function IndexOf(s: string, sep: string): (i: nat)
    requires sep != ""
    ensures i <= |s| && (i < |s| ==> HasAt(s, sep, i))
    ensures forall k :: 0 <= k < i ==> !HasAt(s, sep, k)
  {
    if s == "" || sep <= s then 0
    else
      var i := IndexOf(s[1..], sep);
      assert forall k :: 0 < k <= i + 1 ==> (HasAt(s, sep, k) <==> HasAt(s[1..], sep, k - 1)) by {
        forall k | 0 < k <= i + 1 ensures HasAt(s, sep, k) <==> HasAt(s[1..], sep, k - 1) {
          OccursInTail(s, sep, k);
        }
      }
      1 + i
  }

  /** strings.Split with a non-empty separator. */
  function Split(s: string, sep: string): (parts: seq<string>)
    requires sep != ""
    ensures |parts| >= 1
    decreases |s|
  {
    var i := IndexOf(s, sep);
    if i == |s| then [s] else [s[..i]] + Split(s[i + |sep|..], sep)
  }

  /** The parts, each followed by the separator, and then the rest. */
  function Chain(parts: seq<string>, sep: string, rest: string): string {
    if parts == [] then rest else parts[0] + sep + Chain(parts[1..], sep, rest)
  }

  /** strings.Join. */
  function Join(parts: seq<string>, sep: string): string {
    if parts == [] then "" else Chain(parts[..|parts| - 1], sep, parts[|parts| - 1])
  }

  /** A part followed by the separator is cut exactly at its end. */
  predicate CutsAtEnd(part: string, sep: string)
    requires sep != ""
  {
    IndexOf(part + sep, sep) == |part|
  }

  /** The separator does not occur in the part. */
  predicate Lacks(part: string, sep: string)
    requires sep != ""
  {
    IndexOf(part, sep) == |part|
  }

  lemma FoundAt(part: string, sep: string, rest: string)
    requires sep != "" && CutsAtEnd(part, sep)
    ensures IndexOf(part + sep + rest, sep) == |part|
  {
    var s := part + sep + rest;
    assert s[|part|..|part| + |sep|] == sep;
    assert HasAt(s, sep, |part|);
    forall k | 0 <= k < |part| ensures !HasAt(s, sep, k) {
      if HasAt(s, sep, k) {
        assert (part + sep)[k..k + |sep|] == s[k..k + |sep|];
        assert HasAt(part + sep, sep, k);
      }
    }
  }

  /** The first part of a split is what stands before the first separator. */
  lemma SplitFirst(part: string, sep: string, rest: string)
    requires sep != "" && CutsAtEnd(part, sep)
    ensures Split(part + sep + rest, sep) == [part] + Split(rest, sep)
  {
    var s := part + sep + rest;
    FoundAt(part, sep, rest);
    assert s[..|part|] == part && s[|part| + |sep|..] == rest;
  }

  lemma ConsAppend<T>(xs: seq<T>, ys: seq<T>)
    requires xs != []
    ensures [xs[0]] + (xs[1..] + ys) == xs + ys
  {
  }

  /** Splitting at the separator undoes chaining with it. */
  lemma {:induction false} SplitChain(parts: seq<string>, sep: string, rest: string)
    requires sep != "" && forall p :: p in parts ==> CutsAtEnd(p, sep)
    ensures Split(Chain(parts, sep, rest), sep) == parts + Split(rest, sep)
  {
    if parts == [] {
      assert parts + Split(rest, sep) == Split(rest, sep);
    } else {
      SplitChain(parts[1..], sep, rest);
      SplitFirst(parts[0], sep, Chain(parts[1..], sep, rest));
      ConsAppend(parts, Split(rest, sep));
    }
  }

  /** Splitting undoes joining parts that are each cut at their end. */
  lemma SplitJoin(parts: seq<string>, sep: string)
    requires sep != "" && |parts| > 0 && forall p :: p in parts ==> CutsAtEnd(p, sep)
    requires Lacks(parts[|parts| - 1], sep)
    ensures Split(Join(parts, sep), sep) == parts
  {
    var n := |parts| - 1;
    var most, last := parts[..n], parts[n];
    assert most + [last] == parts;
    assert Split(last, sep) == [last];
    SplitChain(most, sep, last);
  }

  /** A separator whose first character does not come back inside it is found
      only where it stands whole. */
  lemma FoundWhole(part: string, sep: string)
    requires sep != "" && (forall i :: 0 < i < |sep| ==> sep[i] != sep[0]) && Lacks(part, sep)
    ensures CutsAtEnd(part, sep)
  {
    forall k | 0 <= k < |part| ensures !HasAt(part + sep, sep, k) {
      if k + |sep| <= |part| {
        assert !HasAt(part, sep, k);
        assert part[k..k + |sep|] == (part + sep)[k..k + |sep|];
      } else {
        assert k + |sep| <= |part + sep| ==> (part + sep)[k..k + |sep|][|part| - k] == sep[0];
      }
    }
    assert HasAt(part + sep, sep, |part|);
  }

  /** For a one-character separator it is enough that the parts avoid it. */
  lemma AvoidsChar(part: string, c: char)
    requires c !in part
    ensures CutsAtEnd(part, [c]) && Lacks(part, [c])
  {
    forall k | 0 <= k < |part| ensures !HasAt(part + [c], [c], k) && !HasAt(part, [c], k) {
      assert (part + [c])[k..k + 1] == [part[k]] == part[k..k + 1];
    }
    assert HasAt(part + [c], [c], |part|);
  }

  lemma SplitJoinChar(parts: seq<string>, c: char)
    requires |parts| > 0 && forall p :: p in parts ==> c !in p
    ensures Split(Join(parts, [c]), [c]) == parts
  {
    forall p | p in parts ensures CutsAtEnd(p, [c]) && Lacks(p, [c]) {
      AvoidsChar(p, c);
    }
    SplitJoin(parts, [c]);
  }

  lemma JoinCons(parts: seq<string>, sep: string)
    requires |parts| > 1
    ensures Join(parts, sep) == parts[0] + sep + Join(parts[1..], sep)
  {
    var n := |parts| - 1;
    assert parts[..n][1..] == parts[1..][..n - 1];
  }

  lemma ThreePieces(s: string, i: nat, j: nat)
    requires i <= j <= |s|
    ensures s == s[..i] + s[i..j] + s[j..]
  {
  }

  lemma JoinFirst(part: string, parts: seq<string>, sep: string)
    requires parts != []
    ensures Join([part] + parts, sep) == part + sep + Join(parts, sep)
  {
    JoinCons([part] + parts, sep);
    assert ([part] + parts)[1..] == parts;
  }

  lemma JoinOne(part: string, sep: string)
    ensures Join([part], sep) == part
  {
  }

  /** Joining undoes splitting. */
  lemma {:induction false} JoinSplit(s: string, sep: string)
    requires sep != ""
    ensures Join(Split(s, sep), sep) == s
    decreases |s|
  {
    var i := IndexOf(s, sep);
    if i < |s| {
      var rest := s[i + |sep|..];
      JoinSplit(rest, sep);
      JoinFirst(s[..i], Split(rest, sep), sep);
      ThreePieces(s, i, i + |sep|);
    } else {
      JoinOne(s, sep);
    }
  }

  lemma Regroup(a: string, b: string, c: string)
    ensures a + b + c == a + (b + c)
  {
  }

  lemma {:induction false} JoinSnoc(parts: seq<string>, sep: string)
    requires |parts| > 1
    ensures Join(parts, sep) == Join(parts[..|parts| - 1], sep) + sep + parts[|parts| - 1]
  {
    var n := |parts| - 1;
    JoinCons(parts, sep);
    if n > 1 {
      var most, rest, last := parts[..n], parts[1..], parts[n];
      JoinSnoc(rest, sep);
      JoinCons(most, sep);
      assert most[1..] == rest[..n - 1] && rest[n - 1] == last;
      var middle := Join(most[1..], sep);
      Regroup(parts[0] + sep, middle + sep, last);
      Regroup(parts[0] + sep, middle, sep);
    }
  }
}
