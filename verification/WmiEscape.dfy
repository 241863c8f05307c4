/** The strings handed to WMI: the credential of an SMB mapping and the WHERE clause
    of a query, and the readers on the other side that recover what went in. */
module WmiEscape {
  import opened Results
  import opened Strings

  /** strings.ReplaceAll for a single character. */
  function ReplaceAll(s: string, c: char, with: string): string {
    if s == "" then "" else (if s[0] == c then with else [s[0]]) + ReplaceAll(s[1..], c, with)
  }

  /** Each of two characters replaced, in one pass. */
  function ReplaceEach(s: string, c: char, byC: string, d: char, byD: string): string {
    if s == "" then ""
    else (if s[0] == c then byC else if s[0] == d then byD else [s[0]]) + ReplaceEach(s[1..], c, byC, d, byD)
  }

  lemma {:induction false} ReplaceAllAppend(a: string, b: string, c: char, with: string)
    ensures ReplaceAll(a + b, c, with) == ReplaceAll(a, c, with) + ReplaceAll(b, c, with)
  {
    if a == "" {
      assert a + b == b;
    } else {
      assert (a + b)[1..] == a[1..] + b;
      ReplaceAllAppend(a[1..], b, c, with);
    }
  }

  /** One replacement after the other is one pass over the characters, as long as
      the second leaves alone what the first puts in. */
  lemma {:induction false} TwoPassesAreOne(s: string, c: char, byC: string, d: char, byD: string)
    requires c != d && ReplaceAll(byC, d, byD) == byC
    ensures ReplaceAll(ReplaceAll(s, c, byC), d, byD) == ReplaceEach(s, c, byC, d, byD)
  {
    if s != "" {
      TwoPassesAreOne(s[1..], c, byC, d, byD);
      ReplaceAllAppend(if s[0] == c then byC else [s[0]], ReplaceAll(s[1..], c, byC), d, byD);
    }
  }

  lemma {:induction false} Untouched(s: string, c: char, with: string)
    requires c !in s
    ensures ReplaceAll(s, c, with) == s
  {
    if s != "" {
      Untouched(s[1..], c, with);
    }
  }

  // ---------- credentials ----------

  /** escapeUserName */
  function EscapeUserName(userName: string): string {
    ReplaceAll(ReplaceAll(userName, '\\', "\\\\"), ':', "\\:")
  }

  /** The credential of NewSmbGlobalMapping; an empty user name passes none. */
  function Credential(userName: string, password: string): Option<string> {
    if userName == "" then None else Some(EscapeUserName(userName) + ":" + password)
  }

  /** Reads a user name up to the first colon that no backslash escapes; the rest is
      the password. */
  function ReadCredential(s: string): Option<(string, string)> {
    if s == "" then None
    else if s[0] == ':' then Some(("", s[1..]))
    else if s[0] == '\\' && |s| == 1 then None
    else
      var n := if s[0] == '\\' then 2 else 1;
      match ReadCredential(s[n..])
      case None => None
      case Some(pair) => Some(([s[n - 1]] + pair.0, pair.1))
  }

  function EscapedUser(user: string): string {
    ReplaceEach(user, '\\', "\\\\", ':', "\\:")
  }

  lemma ReadsOne(c: char, tail: string, user: string, password: string)
    requires ReadCredential(tail) == Some((user, password))
    ensures ReadCredential((if c == '\\' then "\\\\" else if c == ':' then "\\:" else [c]) + tail) == Some(([c] + user, password))
  {
    var piece := if c == '\\' then "\\\\" else if c == ':' then "\\:" else [c];
    assert (piece + tail)[|piece|..] == tail;
  }

  lemma {:induction false} ReadsEscaped(user: string, password: string)
    ensures ReadCredential(EscapedUser(user) + (":" + password)) == Some((user, password))
  {
    var rest := ":" + password;
    if user == "" {
      assert EscapedUser(user) + rest == rest && rest[1..] == password;
    } else {
      var c := user[0];
      var piece := if c == '\\' then "\\\\" else if c == ':' then "\\:" else [c];
      ReadsEscaped(user[1..], password);
      ReadsOne(c, EscapedUser(user[1..]) + rest, user[1..], password);
      Regroup(piece, EscapedUser(user[1..]), rest);
      assert [c] + user[1..] == user;
    }
  }

  /** Escaping twice in turn escapes each character once. */
  lemma UserEscapedOnce(user: string)
    ensures EscapeUserName(user) == EscapedUser(user)
  {
    Untouched("\\\\", ':', "\\:");
    TwoPassesAreOne(user, '\\', "\\\\", ':', "\\:");
  }

  /** Reading gives back exactly the user name and the password, whatever colons and
      backslashes they hold. */
  lemma CredentialRoundTrip(user: string, password: string)
    requires user != ""
    ensures ReadCredential(Credential(user, password).value) == Some((user, password))
  {
    UserEscapedOnce(user);
    ReadsEscaped(user, password);
    var escaped := EscapedUser(user);
    assert escaped + ":" + password == escaped + (":" + password);
  }

  /** Only callers that pass no user name share a credential. */
  lemma CredentialInjective(u1: string, p1: string, u2: string, p2: string)
    ensures Credential(u1, p1) == Credential(u2, p2) <==> (u1 == "" && u2 == "") || (u1 == u2 && p1 == p2)
  {
    if u1 != "" {
      CredentialRoundTrip(u1, p1);
    }
    if u2 != "" {
      CredentialRoundTrip(u2, p2);
    }
  }

  // ---------- query values ----------

  /** The values queries compare with: strings, integers of any width, booleans. */
  datatype Value = Text(s: string) | Number(n: int) | Truth(b: bool)

  function Decimal(n: nat): (s: string)
    ensures s != "" && forall i :: 0 <= i < |s| ==> '0' <= s[i] <= '9'
  {
    var last := [('0' as int + n % 10) as char];
    if n < 10 then last else Decimal(n / 10) + last
  }

  function Quoted(s: string): string {
    "'" + ReplaceAll(ReplaceAll(s, '\'', "''"), '\\', "\\\\") + "'"
  }

  /** formatValue */
  function FormatValue(v: Value): string {
    match v
    case Text(s) => Quoted(s)
    case Number(n) => if n < 0 then "-" + Decimal(-n) else Decimal(n)
    case Truth(b) => if b then "TRUE" else "FALSE"
  }

  /** Reads a string literal after its opening quote: a backslash stands for the
      character after it, a doubled quote for a quote, a single one ends it. */
  function ReadLiteral(s: string): (r: Option<(string, string)>)
    ensures r.Some? ==> |r.value.0| + |r.value.1| < |s|
  {
    if s == "" then None
    else if s[0] == '\'' && (|s| == 1 || s[1] != '\'') then Some(("", s[1..]))
    else if s[0] == '\\' && |s| == 1 then None
    else
      var n := if s[0] in "'\\" then 2 else 1;
      match ReadLiteral(s[n..])
      case None => None
      case Some(pair) => Some(([s[n - 1]] + pair.0, pair.1))
  }

  function Escaped(s: string): string {
    ReplaceEach(s, '\'', "''", '\\', "\\\\")
  }

  lemma LiteralStep(c: char, tail: string)
    ensures
      var piece := if c == '\'' then "''" else if c == '\\' then "\\\\" else [c];
      ReadLiteral(piece + tail) ==
      match ReadLiteral(tail)
      case None => None
      case Some(pair) => Some(([c] + pair.0, pair.1))
  {
    var piece := if c == '\'' then "''" else if c == '\\' then "\\\\" else [c];
    assert (piece + tail)[|piece|..] == tail;
  }

  lemma SameTail<T>(x: T, a: seq<T>, b: seq<T>)
    ensures [x] + a == [x] + b <==> a == b
  {
    assert ([x] + a)[1..] == a && ([x] + b)[1..] == b;
  }

  lemma {:induction false} ReadsQuoted(s: string, rest: string)
    ensures ReadLiteral(Escaped(s) + ("'" + rest)) == Some((s, rest)) <==> (rest == "" || rest[0] != '\'')
  {
    var end := "'" + rest;
    if s == "" {
      assert Escaped(s) + end == end && end[1..] == rest;
    } else {
      var tail := Escaped(s[1..]) + end;
      var piece := if s[0] == '\'' then "''" else if s[0] == '\\' then "\\\\" else [s[0]];
      Regroup(piece, Escaped(s[1..]), end);
      LiteralStep(s[0], tail);
      ReadsQuoted(s[1..], rest);
      assert s == [s[0]] + s[1..];
      if ReadLiteral(tail).Some? {
        SameTail(s[0], ReadLiteral(tail).value.0, s[1..]);
      }
    }
  }

  lemma QuotedOnce(s: string)
    ensures Quoted(s) == "'" + Escaped(s) + "'"
  {
    Untouched("''", '\\', "\\\\");
    TwoPassesAreOne(s, '\'', "''", '\\', "\\\\");
  }

  lemma Opened(text: string, rest: string)
    ensures ("'" + text + "'")[1..] + rest == text + ("'" + rest)
  {
  }

  /** A quoted value is read back whole, leaving what follows it, exactly when what
      follows is not another quote. */
  lemma LiteralRoundTrip(s: string, rest: string)
    ensures ReadLiteral(Quoted(s)[1..] + rest) == Some((s, rest)) <==> (rest == "" || rest[0] != '\'')
  {
    QuotedOnce(s);
    ReadsQuoted(s, rest);
    Opened(Escaped(s), rest);
  }

  // ---------- conditions ----------

  datatype Condition = Condition(field: string, operator: string, value: Value)

  function ConditionString(c: Condition): string {
    (c.field + " ") + (c.operator + " ") + FormatValue(c.value)
  }

  /** Fields and operators are single words. */
  predicate Plain(c: Condition) {
    ' ' !in c.field && ' ' !in c.operator
  }

  class QueryBuilder {
    const className: string
    var namespace: string
    var selectors: seq<string>
    var conditions: seq<Condition>

    constructor (className: string)
      ensures this.className == className && namespace == "Root\\CimV2" && selectors == [] && conditions == []
    {
      this.className, namespace, selectors, conditions := className, "Root\\CimV2", [], [];
    }

    method WithNamespace(ns: string)
      modifies `namespace
      ensures namespace == ns
    {
      namespace := ns;
    }

    method WithCondition(field: string, operator: string, value: Value)
      modifies `conditions
      ensures conditions == old(conditions) + [Condition(field, operator, value)]
    {
      conditions := conditions + [Condition(field, operator, value)];
    }

    method BuildWhereClause() returns (clause: string)
      ensures clause == WhereClause(conditions)
    {
      if |conditions| == 0 {
        return "";
      }
      var texts: seq<string> := [];
      for i := 0 to |conditions|
        invariant |texts| == i && forall k :: 0 <= k < i ==> texts[k] == ConditionString(conditions[k])
      {
        texts := texts + [ConditionString(conditions[i])];
      }
      assert texts == ConditionStrings(conditions);
      clause := "WHERE " + Join(texts, " AND ");
    }

    method Build() returns (query: string)
      ensures query == Query(className, selectors, conditions)
    {
      var selectPart := "*";
      if |selectors| > 0 {
        selectPart := Join(selectors, ", ");
      }
      query := "SELECT " + selectPart + " FROM " + className;
      var whereClause := BuildWhereClause();
      if whereClause != "" {
        query := query + " " + whereClause;
      }
    }
  }

  function ConditionStrings(cs: seq<Condition>): (texts: seq<string>)
    ensures |texts| == |cs|
  {
    seq(|cs|, k requires 0 <= k < |cs| => ConditionString(cs[k]))
  }

  function Joined(cs: seq<Condition>): string {
    Join(ConditionStrings(cs), " AND ")
  }

  function WhereClause(cs: seq<Condition>): string {
    if cs == [] then "" else "WHERE " + Joined(cs)
  }

  function QueryHead(className: string, selectors: seq<string>): string {
    "SELECT " + (if selectors == [] then "*" else Join(selectors, ", ")) + " FROM " + className
  }

  function Query(className: string, selectors: seq<string>, cs: seq<Condition>): string {
    QueryHead(className, selectors) + if cs == [] then "" else " " + WhereClause(cs)
  }

  // ---------- reading conditions back ----------

  predicate Digits(s: string) {
    s != "" && forall i :: 0 <= i < |s| ==> '0' <= s[i] <= '9'
  }

  function ReadDecimal(s: string): nat
    requires Digits(s)
  {
    var last := s[|s| - 1] as int - '0' as int;
    if |s| == 1 then last else 10 * ReadDecimal(s[..|s| - 1]) + last
  }

  function ReadWord(w: string): Option<Value> {
    if w == "TRUE" then Some(Truth(true))
    else if w == "FALSE" then Some(Truth(false))
    else if Digits(w) then Some(Number(ReadDecimal(w)))
    else if w != "" && w[0] == '-' && Digits(w[1..]) then Some(Number(0 - ReadDecimal(w[1..])))
    else None
  }

  function ReadValue(s: string): (r: Option<(Value, string)>)
    ensures r.Some? ==> |r.value.1| <= |s|
  {
    if s != "" && s[0] == '\'' then
      match ReadLiteral(s[1..])
      case None => None
      case Some(pair) => Some((Text(pair.0), pair.1))
    else
      var n := IndexOf(s, " ");
      match ReadWord(s[..n])
      case None => None
      case Some(v) => Some((v, s[n..]))
  }

  /** The word up to the next space, and what follows that space. */
  function NextWord(s: string): (r: Option<(string, string)>)
    ensures r.Some? ==> |r.value.1| < |s|
  {
    var i := IndexOf(s, " ");
    if i == |s| then None else Some((s[..i], s[i + 1..]))
  }

  function ReadCondition(s: string): (r: Option<(Condition, string)>)
    ensures r.Some? ==> |r.value.1| < |s|
  {
    match NextWord(s)
    case None => None
    case Some(field) =>
      match NextWord(field.1)
      case None => None
      case Some(operator) =>
        match ReadValue(operator.1)
        case None => None
        case Some(value) => Some((Condition(field.0, operator.0, value.0), value.1))
  }

  function ReadConditions(s: string): Option<seq<Condition>>
    decreases |s|
  {
    match ReadCondition(s)
    case None => None
    case Some(pair) =>
      if pair.1 == "" then Some([pair.0])
      else if " AND " <= pair.1 then
        match ReadConditions(pair.1[5..])
        case None => None
        case Some(more) => Some([pair.0] + more)
      else None
  }

  lemma {:induction false} DecimalRoundTrip(n: nat)
    ensures ReadDecimal(Decimal(n)) == n
  {
    if n >= 10 {
      DecimalRoundTrip(n / 10);
      assert Decimal(n)[..|Decimal(n)| - 1] == Decimal(n / 10);
    }
  }

  lemma DigitsAreOneWord(s: string)
    requires Digits(s)
    ensures ReadWord(s) == Some(Number(ReadDecimal(s))) && ' ' !in s
    ensures ReadWord("-" + s) == Some(Number(0 - ReadDecimal(s))) && ' ' !in "-" + s
  {
    assert s[0] != 'T' && s[0] != 'F';
    var t := "-" + s;
    assert t[0] == '-' && t[1..] == s;
  }

  lemma WordRoundTrip(v: Value)
    requires !v.Text?
    ensures ReadWord(FormatValue(v)) == Some(v) && ' ' !in FormatValue(v) && FormatValue(v) != "" && FormatValue(v)[0] != '\''
  {
    if v.Number? {
      var n := if v.n < 0 then -v.n else v.n;
      var digits := Decimal(n);
      assert Digits(digits);
      DecimalRoundTrip(n);
      DigitsAreOneWord(digits);
    }
  }

  /** What may follow a condition. */
  predicate Follows(rest: string) {
    rest == "" || rest[0] == ' '
  }

  lemma CutWord(word: string, rest: string)
    requires ' ' !in word && Follows(rest)
    ensures IndexOf(word + rest, " ") == |word|
    ensures (word + rest)[..|word|] == word && (word + rest)[|word|..] == rest
  {
    AvoidsChar(word, ' ');
    if rest == "" {
      assert word + rest == word;
    } else {
      var tail := rest[1..];
      FoundAt(word, " ", tail);
      assert rest == " " + tail;
      Regroup(word, " ", tail);
    }
  }

  lemma ReadsValue(v: Value, rest: string)
    requires Follows(rest)
    ensures ReadValue(FormatValue(v) + rest) == Some((v, rest))
  {
    var text := FormatValue(v);
    if v.Text? {
      LiteralRoundTrip(v.s, rest);
      assert (text + rest)[1..] == text[1..] + rest;
    } else {
      WordRoundTrip(v);
      CutWord(text, rest);
    }
  }

  lemma NextWordIs(word: string, rest: string)
    requires ' ' !in word
    ensures NextWord(word + " " + rest) == Some((word, rest))
  {
    AvoidsChar(word, ' ');
    FoundAt(word, " ", rest);
    assert (word + " " + rest)[..|word|] == word && (word + " " + rest)[|word| + 1..] == rest;
  }

  lemma ReadsCondition(c: Condition, rest: string)
    requires Plain(c) && Follows(rest)
    ensures ReadCondition(ConditionString(c) + rest) == Some((c, rest))
  {
    var value := FormatValue(c.value) + rest;
    NextWordIs(c.field, c.operator + " " + value);
    NextWordIs(c.operator, value);
    ReadsValue(c.value, rest);
    Regroup(c.field + " " + (c.operator + " "), FormatValue(c.value), rest);
    Regroup(c.field + " ", c.operator + " ", value);
  }

  lemma ReadsMore(c: Condition, more: string, ds: seq<Condition>)
    requires Plain(c) && ReadConditions(more) == Some(ds)
    ensures ReadConditions(ConditionString(c) + " AND " + more) == Some([c] + ds)
  {
    var rest := " AND " + more;
    ReadsCondition(c, rest);
    assert ConditionString(c) + " AND " + more == ConditionString(c) + rest;
    assert rest[5..] == more;
  }

  lemma ReadsLast(c: Condition)
    requires Plain(c)
    ensures ReadConditions(ConditionString(c)) == Some([c])
  {
    ReadsCondition(c, "");
    assert ConditionString(c) + "" == ConditionString(c);
  }

  lemma JoinedOne(c: Condition)
    ensures Joined([c]) == ConditionString(c)
  {
    assert ConditionStrings([c]) == [ConditionString(c)];
  }

  lemma JoinedMore(c: Condition, cs: seq<Condition>)
    requires cs != []
    ensures Joined([c] + cs) == ConditionString(c) + " AND " + Joined(cs)
  {
    var texts := ConditionStrings([c] + cs);
    assert texts[1..] == ConditionStrings(cs);
    JoinCons(texts, " AND ");
  }

  /** Joined conditions read back one by one: no value, whatever it holds, ends its
      literal early or runs into the next condition. */
  lemma {:induction false} ConditionsRoundTrip(cs: seq<Condition>)
    requires cs != [] && forall c :: c in cs ==> Plain(c)
    ensures ReadConditions(Joined(cs)) == Some(cs)
  {
    var c, more := cs[0], cs[1..];
    assert cs == [c] + more;
    if more == [] {
      assert cs == [c];
      JoinedOne(c);
      ReadsLast(c);
    } else {
      ConditionsRoundTrip(more);
      JoinedMore(c, more);
      ReadsMore(c, Joined(more), more);
    }
  }

  lemma WhereInjective(cs: seq<Condition>, ds: seq<Condition>)
    requires (forall c :: c in cs ==> Plain(c)) && (forall d :: d in ds ==> Plain(d))
    requires WhereClause(cs) == WhereClause(ds)
    ensures cs == ds
  {
    if cs != [] && ds != [] {
      assert WhereClause(cs)[6..] == Joined(cs);
      assert WhereClause(ds)[6..] == Joined(ds);
      ConditionsRoundTrip(cs);
      ConditionsRoundTrip(ds);
    }
  }

  lemma SameRest<T>(a: seq<T>, x: seq<T>, y: seq<T>)
    requires a + x == a + y
    ensures x == y
  {
    assert (a + x)[|a|..] == x && (a + y)[|a|..] == y;
  }

  /** Queries on one class and selection have the same text only if they have the
      same conditions. */
  lemma QueryInjective(className: string, selectors: seq<string>, cs: seq<Condition>, ds: seq<Condition>)
    requires (forall c :: c in cs ==> Plain(c)) && (forall d :: d in ds ==> Plain(d))
    requires Query(className, selectors, cs) == Query(className, selectors, ds)
    ensures cs == ds
  {
    var restC := if cs == [] then "" else " " + WhereClause(cs);
    var restD := if ds == [] then "" else " " + WhereClause(ds);
    SameRest(QueryHead(className, selectors), restC, restD);
    if cs != [] && ds != [] {
      SameRest(" ", WhereClause(cs), WhereClause(ds));
      WhereInjective(cs, ds);
    }
  }

  // ---------- the mapping's query ----------

  function MappingCondition(remotePath: string): Condition {
    Condition("RemotePath", "=", Text(remotePath))
  }

  function MappingQuery(remotePath: string): string {
    Query("MSFT_SmbGlobalMapping", [], [MappingCondition(remotePath)])
  }

  /** What stands before the condition. */
  const MAPPING_HEAD := "SELECT " + "*" + " FROM " + "MSFT_SmbGlobalMapping" + " " + "WHERE "

  lemma MappingQueryReads(remotePath: string)
    ensures MAPPING_HEAD <= MappingQuery(remotePath)
    ensures ReadConditions(MappingQuery(remotePath)[|MAPPING_HEAD|..]) == Some([Condition("RemotePath", "=", Text(remotePath))])
  {
    var clause := Joined([MappingCondition(remotePath)]);
    ConditionsRoundTrip([MappingCondition(remotePath)]);
    var head := QueryHead("MSFT_SmbGlobalMapping", []);
    Regroup(head, " ", "WHERE " + clause);
    Regroup(head + " ", "WHERE ", clause);
    assert MAPPING_HEAD == head + " " + "WHERE ";
    SameRest(MAPPING_HEAD, MappingQuery(remotePath)[|MAPPING_HEAD|..], clause);
  }

  /** The query by which a global mapping is found, and by which one is removed. */
  method SmbMappingQuery(remotePath: string) returns (namespace: string, query: string)
    ensures namespace == "Root\\Microsoft\\Windows\\Smb" && query == MappingQuery(remotePath)
    ensures MAPPING_HEAD <= query
    ensures ReadConditions(query[|MAPPING_HEAD|..]) == Some([Condition("RemotePath", "=", Text(remotePath))])
  {
    MappingQueryReads(remotePath);
    var q := new QueryBuilder("MSFT_SmbGlobalMapping");
    q.WithNamespace("Root\\Microsoft\\Windows\\Smb");
    q.WithCondition("RemotePath", "=", Text(remotePath));
    namespace := q.namespace;
    query := q.Build();
  }

  /** No two remote paths share the query that finds or removes their mapping, and
      the text of its condition gives the path back. */
  lemma MappingQueryRoundTrip(a: string, b: string)
    ensures MappingQuery(a) == MappingQuery(b) <==> a == b
    ensures ReadConditions(Joined([MappingCondition(a)])) == Some([MappingCondition(a)])
  {
    if MappingQuery(a) == MappingQuery(b) {
      QueryInjective("MSFT_SmbGlobalMapping", [], [MappingCondition(a)], [MappingCondition(b)]);
    }
    ConditionsRoundTrip([MappingCondition(a)]);
  }
}
