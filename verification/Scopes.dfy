/** internal/live/subscription.go and internal/live/live_scopes.go: what a client subscribes to and may see, as a filter
    in memory and as a condition on the event table. */
module Scopes {
  import opened Options
  import opened Permutations
  import opened LiveEvents
  import opened SqlConditions
  import opened Utf8

  const MAX_SCOPES := 16
  const MAX_ID_LENGTH := 200

  datatype Kind =
    | PlatformSummary | Runs | Queues | Workers | Schedules | Alerts | PiiSummary | Monitoring | Components
    | Run | Chain | Queue | Worker

  datatype Scope = Scope(kind: Kind, id: string)

  function KindText(kind: Kind): string {
    match kind
    case PlatformSummary => "platform.summary"
    case Runs => "runs"
    case Queues => "queues"
    case Workers => "workers"
    case Schedules => "schedules"
    case Alerts => "alerts"
    case PiiSummary => "pii.summary"
    case Monitoring => "monitoring.health"
    case Components => "components"
    case Run => "run"
    case Chain => "execution-chain"
    case Queue => "queue"
    case Worker => "worker"
  }

  predicate TakesId(kind: Kind) {
    kind == Run || kind == Chain || kind == Queue || kind == Worker
  }

  function Prefixes(kind: Kind): seq<string> {
    match kind
    case Runs => ["task.", "run.", "attempt."]
    case Run => ["task.", "run.", "attempt."]
    case Queues => ["queue."]
    case Queue => ["queue."]
    case Workers => ["worker."]
    case Worker => ["worker."]
    case Schedules => ["schedule."]
    case Alerts => ["alert."]
    case PiiSummary => ["pii."]
    case Monitoring => ["monitoring."]
    case Components => ["component."]
    case _ => []
  }

  /** What the parser lets through. */
  predicate WellFormed(s: Scope) {
    if TakesId(s.kind) then s.id != "" && |Encoded(s.id)| <= MAX_ID_LENGTH else s.id == ""
  }

  // ---------------------------------------------------------------------------------------------------------
  // Reading a scope
  // ---------------------------------------------------------------------------------------------------------

  datatype Parsed = Ok(scope: Scope) | UnknownScope | NeedsId | TakesNoId | IdTooLong

  predicate IsSpace(c: char) {
    || '\t' <= c <= '\r' || c == ' ' || c == '\U{85}' || c == '\U{A0}' || c == '\U{1680}'
    || '\U{2000}' <= c <= '\U{200A}' || c == '\U{2028}' || c == '\U{2029}' || c == '\U{202F}' || c == '\U{205F}' || c == '\U{3000}'
  }

  function TrimLeft(s: string): string {
    if s != "" && IsSpace(s[0]) then TrimLeft(s[1..]) else s
  }

  function TrimRight(s: string): string {
    if s != "" && IsSpace(s[|s| - 1]) then TrimRight(s[..|s| - 1]) else s
  }

  function Trim(s: string): string {
    TrimRight(TrimLeft(s))
  }

  function AfterColon(id: Option<string>): string {
    if id.Some? then ":" + id.value else ""
  }

  /** The text before the first colon, and the text after it if there is one. */
  function Cut(s: string): (r: (string, Option<string>))
    ensures ':' !in r.0
    ensures s == r.0 + AfterColon(r.1)
  {
    if s == "" then ("", None)
    else if s[0] == ':' then ("", Some(s[1..]))
    else
      var (kind, id) := Cut(s[1..]);
      assert s == [s[0]] + (kind + AfterColon(id));
      ([s[0]] + kind, id)
  }

  lemma {:induction false} CutIsUnique(kind: string, id: Option<string>)
    requires ':' !in kind
    ensures Cut(kind + AfterColon(id)) == (kind, id)
  {
    var rest := AfterColon(id);
    if kind == "" {
      assert kind + rest == rest;
      assert id.Some? ==> rest[1..] == id.value;
    } else {
      CutIsUnique(kind[1..], id);
      Peel(kind, rest);
    }
  }

  lemma Peel(kind: string, rest: string)
    requires kind != ""
    ensures (kind + rest)[0] == kind[0] && kind[0] in kind && (kind + rest)[1..] == kind[1..] + rest && [kind[0]] + kind[1..] == kind
  {
  }

  const ALL_KINDS: seq<Kind> :=
    [PlatformSummary, Runs, Queues, Workers, Schedules, Alerts, PiiSummary, Monitoring, Components, Run, Chain, Queue, Worker]

  function FindKind(text: string, kinds: seq<Kind>): (r: Option<Kind>)
    ensures r.Some? ==> KindText(r.value) == text && r.value in kinds
    ensures r == None ==> forall k :: k in kinds ==> KindText(k) != text
  {
    if kinds == [] then None
    else if KindText(kinds[0]) == text then Some(kinds[0])
    else FindKind(text, kinds[1..])
  }

  function ParseScope(raw: string): Parsed {
    var (text, id) := Cut(Trim(raw));
    match FindKind(text, ALL_KINDS)
    case None => UnknownScope
    case Some(kind) =>
      if !TakesId(kind) then (if id == None then Ok(Scope(kind, "")) else TakesNoId)
      else if id == None || id.value == "" then NeedsId
      else if |Encoded(id.value)| > MAX_ID_LENGTH then IdTooLong
      else Ok(Scope(kind, id.value))
  }

  /** A scope as the client writes it. */
  function Text(s: Scope): string {
    if s.id == "" then KindText(s.kind) else KindText(s.kind) + ":" + s.id
  }

  lemma AllKindsListed(kind: Kind)
    ensures kind in ALL_KINDS
  {
    match kind
    case PlatformSummary => assert ALL_KINDS[0] == kind;
    case Runs => assert ALL_KINDS[1] == kind;
    case Queues => assert ALL_KINDS[2] == kind;
    case Workers => assert ALL_KINDS[3] == kind;
    case Schedules => assert ALL_KINDS[4] == kind;
    case Alerts => assert ALL_KINDS[5] == kind;
    case PiiSummary => assert ALL_KINDS[6] == kind;
    case Monitoring => assert ALL_KINDS[7] == kind;
    case Components => assert ALL_KINDS[8] == kind;
    case Run => assert ALL_KINDS[9] == kind;
    case Chain => assert ALL_KINDS[10] == kind;
    case Queue => assert ALL_KINDS[11] == kind;
    case Worker => assert ALL_KINDS[12] == kind;
  }

  /** The first letters and the length tell the kinds apart. */
  lemma KindTextIsInjective(a: Kind, b: Kind)
    requires KindText(a) == KindText(b)
    ensures a == b
  {
    var s := KindText(a);
    assert s[0] == KindText(b)[0] && s[|s| - 1] == KindText(b)[|s| - 1];
  }

  lemma KindTextHasNoColon(kind: Kind)
    ensures ':' !in KindText(kind)
  {
  }

  /** ParseScope accepts exactly the trimmed texts of well-formed scopes, and reads each back as that scope. */
  lemma ParseScopeExact(raw: string, s: Scope)
    ensures ParseScope(raw) == Ok(s) <==> WellFormed(s) && Text(s) == Trim(raw)
  {
    if ParseScope(raw) == Ok(s) {
      ReadIsWritten(raw, s);
    }
    if WellFormed(s) && Text(s) == Trim(raw) {
      WrittenIsRead(raw, s);
    }
  }

  lemma ReadIsWritten(raw: string, s: Scope)
    requires ParseScope(raw) == Ok(s)
    ensures WellFormed(s) && Text(s) == Trim(raw)
  {
    var (text, id) := Cut(Trim(raw));
    assert KindText(s.kind) == text;
    assert Trim(raw) == text + AfterColon(id);
    SameText(s, id);
  }

  lemma WrittenIsRead(raw: string, s: Scope)
    requires WellFormed(s) && Text(s) == Trim(raw)
    ensures ParseScope(raw) == Ok(s)
  {
    var given := if s.id == "" then None else Some(s.id);
    KindTextHasNoColon(s.kind);
    CutIsUnique(KindText(s.kind), given);
    SameText(s, given);
    KindIsFound(s.kind);
  }

  lemma KindIsFound(kind: Kind)
    ensures FindKind(KindText(kind), ALL_KINDS) == Some(kind)
  {
    AllKindsListed(kind);
    var found := FindKind(KindText(kind), ALL_KINDS);
    assert found.Some?;
    KindTextIsInjective(found.value, kind);
  }

  lemma SameText(s: Scope, given: Option<string>)
    requires given == if s.id == "" then None else Some(s.id)
    ensures Text(s) == KindText(s.kind) + AfterColon(given)
  {
    assert KindText(s.kind) + "" == KindText(s.kind);
    assert KindText(s.kind) + ":" + s.id == KindText(s.kind) + (":" + s.id);
  }

  function ParseAll(raw: seq<string>): seq<Parsed> {
    seq(|raw|, i requires 0 <= i < |raw| => ParseScope(raw[i]))
  }

  /** The scopes these readings name, once each. */
  ghost predicate Collected(parsed: seq<Parsed>, out: seq<Scope>) {
    && (forall p :: p in parsed ==> p.Ok?)
    && Distinct(out)
    && (forall s :: s in out <==> Ok(s) in parsed)
  }

  /** ParseScopes: the distinct scopes the texts name, all well-formed; refused exactly when a text is no scope or when
      there are more than the limit. */
  method ParseScopes(raw: seq<string>) returns (result: Option<seq<Scope>>)
    ensures result.Some? ==> Collected(ParseAll(raw), result.value) && |result.value| <= 16
    ensures result.Some? ==> forall s :: s in result.value ==> WellFormed(s)
    ensures result == None ==>
              || (exists p :: p in ParseAll(raw) && !p.Ok?)
              || (exists scopes :: Collected(ParseAll(raw), scopes) && |scopes| > 16)
  {
    var parsed := ParseAll(raw);
    result := Collect(parsed);
    if result.Some? {
      forall s | s in result.value ensures WellFormed(s) {
        assert Ok(s) in parsed;
        var i :| 0 <= i < |parsed| && parsed[i] == Ok(s);
        ParseScopeExact(raw[i], s);
      }
    }
  }

  method Collect(parsed: seq<Parsed>) returns (result: Option<seq<Scope>>)
    ensures result.Some? ==> Collected(parsed, result.value) && |result.value| <= 16
    ensures result == None ==>
              || (exists p :: p in parsed && !p.Ok?)
              || (exists scopes :: Collected(parsed, scopes) && |scopes| > 16)
  {
    var out: seq<Scope> := [];
    ghost var done: seq<Parsed> := [];
    for i := 0 to |parsed|
      invariant done == parsed[..i] && Collected(done, out)
    {
      if !parsed[i].Ok? {
        assert parsed[i] in parsed;
        return None;
      }
      CollectedGrows(done, out, parsed[i].scope);
      if parsed[i].scope !in out {
        out := out + [parsed[i].scope];
      }
      done := done + [parsed[i]];
    }
    assert done == parsed;
    return if |out| > MAX_SCOPES then None else Some(out);
  }

  lemma CollectedGrows(parsed: seq<Parsed>, out: seq<Scope>, s: Scope)
    requires Collected(parsed, out)
    ensures Collected(parsed + [Ok(s)], if s in out then out else out + [s])
  {
  }

  // ---------------------------------------------------------------------------------------------------------
  // One scope, in memory and in the database
  // ---------------------------------------------------------------------------------------------------------

  predicate HasAnyPrefix(text: string, prefixes: seq<string>) {
    exists p :: p in prefixes && p <= text
  }

  predicate Matches(s: Scope, e: Event) {
    if s.kind == PlatformSummary then e.kind == SUMMARY
    else if s.kind == Chain then e.chainId != "" && e.chainId == s.id
    else HasAnyPrefix(e.kind, Prefixes(s.kind)) && (s.id != "" ==> e.subject == s.id)
  }

  function Likes(prefixes: seq<string>): seq<Cond> {
    seq(|prefixes|, i requires 0 <= i < |prefixes| => TypeLike(prefixes[i] + "%"))
  }

  function Sql(s: Scope): Option<Cond> {
    if s.kind == PlatformSummary then None
    else if s.kind == Chain then Some(ChainIs(s.id))
    else
      var types := AnyOf(Likes(Prefixes(s.kind)));
      Some(if s.id != "" then And(types, JobIs(s.id)) else types)
  }

  lemma PrefixesAreLiteral(kind: Kind, i: nat)
    requires i < |Prefixes(kind)|
    ensures Literal(Prefixes(kind)[i])
  {
  }

  lemma LikesHold(kind: Kind, e: Event)
    requires Prefixes(kind) != []
    ensures Holds(AnyOf(Likes(Prefixes(kind))), e) <==> HasAnyPrefix(e.kind, Prefixes(kind))
  {
    var prefixes := Prefixes(kind);
    var parts := Likes(prefixes);
    AnyOfHolds(parts, e);
    forall i | 0 <= i < |prefixes| ensures Holds(parts[i], e) <==> prefixes[i] <= e.kind {
      PrefixesAreLiteral(kind, i);
      LikeIsPrefix(e.kind, prefixes[i]);
    }
    if HasAnyPrefix(e.kind, prefixes) {
      var p :| p in prefixes && p <= e.kind;
      var i :| 0 <= i < |prefixes| && prefixes[i] == p;
      assert parts[i] in parts;
    }
    if exists c :: c in parts && Holds(c, e) {
      var c :| c in parts && Holds(c, e);
      var i :| 0 <= i < |parts| && parts[i] == c;
      assert prefixes[i] in prefixes;
    }
  }

  /** A scope's condition selects exactly the stored rows the scope matches in memory; the summary scope has no
      condition and matches no stored row. */
  lemma ScopeSqlIsMatches(s: Scope, e: Event)
    requires WellFormed(s) && e.kind != SUMMARY
    ensures Sql(s).Some? ==> (Holds(Sql(s).value, e) <==> Matches(s, e))
    ensures Sql(s) == None ==> !Matches(s, e)
  {
    if s.kind != PlatformSummary && s.kind != Chain {
      LikesHold(s.kind, e);
    }
  }

  /** The id is what makes it so: a chain scope without one would select the rows that belong to no chain. */
  lemma ChainNeedsAnId(e: Event)
    requires e.chainId == ""
    ensures Holds(Sql(Scope(Chain, "")).value, e) && !Matches(Scope(Chain, ""), e)
  {
  }

  // ---------------------------------------------------------------------------------------------------------
  // Subscriptions
  // ---------------------------------------------------------------------------------------------------------

  /** The hub's filter; no scope at all means no narrowing. */
  predicate SubscriptionMatches(scopes: seq<Scope>, e: Event) {
    scopes == [] || exists s :: s in scopes && Matches(s, e)
  }

  /** ReplaySQL: one condition for all the scopes that have stored rows. */
  method ReplaySql(scopes: seq<Scope>) returns (cond: Option<Cond>)
    ensures cond == None <==> OnlySummaries(scopes)
    ensures forall e: Event ::
              (forall s :: s in scopes ==> WellFormed(s)) && e.kind != SUMMARY && scopes != [] ==>
                (SubscriptionMatches(scopes, e) <==> cond.Some? && Holds(cond.value, e))
  {
    var parts: seq<Cond> := [];
    for i := 0 to |scopes|
      invariant parts == Conditions(scopes[..i])
    {
      var c := Sql(scopes[i]);
      if c.Some? {
        parts := parts + [c.value];
      }
      assert scopes[..i + 1][..i] == scopes[..i];
    }
    assert scopes[..|scopes|] == scopes;
    ConditionsEmpty(scopes);
    cond := if parts == [] then None else Some(AnyOf(parts));
    forall e: Event | (forall s :: s in scopes ==> WellFormed(s)) && e.kind != SUMMARY && scopes != []
      ensures SubscriptionMatches(scopes, e) <==> cond.Some? && Holds(cond.value, e)
    {
      ConditionsHold(scopes, e);
      if parts != [] {
        AnyOfHolds(parts, e);
      }
    }
  }

  function Conditions(scopes: seq<Scope>): seq<Cond> {
    if scopes == [] then []
    else
      var n := |scopes| - 1;
      Conditions(scopes[..n]) + (if Sql(scopes[n]).Some? then [Sql(scopes[n]).value] else [])
  }

  ghost predicate OnlySummaries(scopes: seq<Scope>) {
    forall s :: s in scopes ==> s.kind == PlatformSummary
  }

  lemma OnlySummariesSnoc(scopes: seq<Scope>, s: Scope)
    ensures OnlySummaries(scopes + [s]) <==> OnlySummaries(scopes) && s.kind == PlatformSummary
  {
    assert s in scopes + [s];
    assert forall x :: x in scopes ==> x in scopes + [s];
  }

  lemma HasSql(s: Scope)
    ensures Sql(s) == None <==> s.kind == PlatformSummary
  {
  }

  lemma {:induction false} ConditionsEmpty(scopes: seq<Scope>)
    ensures Conditions(scopes) == [] <==> OnlySummaries(scopes)
  {
    if scopes != [] {
      var n := |scopes| - 1;
      ConditionsEmpty(scopes[..n]);
      OnlySummariesSnoc(scopes[..n], scopes[n]);
      HasSql(scopes[n]);
      assert scopes == scopes[..n] + [scopes[n]];
    }
  }

  lemma {:induction false} ConditionsHold(scopes: seq<Scope>, e: Event)
    requires (forall s :: s in scopes ==> WellFormed(s)) && e.kind != SUMMARY
    ensures (exists c :: c in Conditions(scopes) && Holds(c, e)) <==> (exists s :: s in scopes && Matches(s, e))
  {
    if scopes != [] {
      var n := |scopes| - 1;
      ConditionsHold(scopes[..n], e);
      assert scopes == scopes[..n] + [scopes[n]];
      ScopeSqlIsMatches(scopes[n], e);
      var before, all := Conditions(scopes[..n]), Conditions(scopes);
      assert forall c :: c in before ==> c in all;
      if Sql(scopes[n]).Some? {
        assert all == before + [Sql(scopes[n]).value];
      } else {
        assert all == before;
      }
    }
  }

  // ---------------------------------------------------------------------------------------------------------
  // Permissions
  // ---------------------------------------------------------------------------------------------------------

  datatype Rule = Rule(prefix: string, scope: string)

  const EVENT_SCOPE_RULES: seq<Rule> :=
    [Rule("alert.", "alerts.read"), Rule("pii.policy", "pii.policy.read"), Rule("pii.", "pii.findings.read")]

  /** First match wins. */
  function RequiredScope(rules: seq<Rule>, kind: string): string {
    if rules == [] then ""
    else if rules[0].prefix <= kind then rules[0].scope
    else RequiredScope(rules[1..], kind)
  }

  predicate CanSee(rules: seq<Rule>, has: string -> bool, kind: string) {
    RequiredScope(rules, kind) == "" || has(RequiredScope(rules, kind))
  }

  ghost predicate Proper(rules: seq<Rule>) {
    forall i :: 0 <= i < |rules| ==> Literal(rules[i].prefix) && rules[i].scope != ""
  }

  /** A rule applies to the types it names that no earlier rule does. */
  ghost predicate Claims(rules: seq<Rule>, i: nat, kind: string)
    requires i < |rules|
  {
    rules[i].prefix <= kind && forall j :: 0 <= j < i ==> !(rules[j].prefix <= kind)
  }

  lemma {:induction false} RequiredScopeIsClaimed(rules: seq<Rule>, kind: string)
    ensures (exists i :: 0 <= i < |rules| && Claims(rules, i, kind) && rules[i].scope == RequiredScope(rules, kind))
            || (RequiredScope(rules, kind) == "" && forall i :: 0 <= i < |rules| ==> !(rules[i].prefix <= kind))
  {
    if rules != [] {
      if rules[0].prefix <= kind {
        assert Claims(rules, 0, kind);
      } else {
        var rest := rules[1..];
        RequiredScopeIsClaimed(rest, kind);
        if i :| 0 <= i < |rest| && Claims(rest, i, kind) && rest[i].scope == RequiredScope(rest, kind) {
          assert rules[i + 1] == rest[i];
          assert Claims(rules, i + 1, kind);
        } else {
          forall i | 0 <= i < |rules| ensures !(rules[i].prefix <= kind) {
            assert i > 0 ==> rules[i] == rest[i - 1];
          }
        }
      }
    }
  }

  /** The condition of one rule, minus what earlier rules claim. */
  method HiddenByRule(rules: seq<Rule>, i: nat) returns (cond: Cond)
    requires i < |rules|
    ensures Proper(rules) ==> forall e: Event :: Holds(cond, e) <==> Claims(rules, i, e.kind)
  {
    cond := TypeLike(rules[i].prefix + "%");
    for j := 0 to i
      invariant Proper(rules) ==> forall e: Event :: Holds(cond, e) <==> SoFar(rules, i, j, e)
    {
      ghost var before := cond;
      cond := And(cond, TypeNotLike(rules[j].prefix + "%"));
      forall e: Event | Proper(rules) ensures Holds(cond, e) <==> SoFar(rules, i, j + 1, e) {
        assert Holds(before, e) <==> SoFar(rules, i, j, e);
        assert Literal(rules[j].prefix);
        LikeIsPrefix(e.kind, rules[j].prefix);
      }
    }
    forall e: Event | Proper(rules) ensures Holds(cond, e) <==> Claims(rules, i, e.kind) {
      assert Literal(rules[i].prefix);
      LikeIsPrefix(e.kind, rules[i].prefix);
      assert Holds(cond, e) <==> SoFar(rules, i, i, e);
    }
  }

  ghost predicate SoFar(rules: seq<Rule>, i: nat, j: nat, e: Event)
    requires j <= i < |rules|
  {
    Like(e.kind, rules[i].prefix + "%") && forall k :: 0 <= k < j ==> !(rules[k].prefix <= e.kind)
  }

  /** HiddenEventSQL selects exactly the event types whose first matching rule names a scope the caller lacks, for every
      rule list with literal prefixes and named scopes, and every caller. */
  method HiddenEventSql(rules: seq<Rule>, has: string -> bool) returns (hidden: seq<Cond>)
    ensures Proper(rules) ==>
              forall e: Event :: (exists c :: c in hidden && Holds(c, e)) <==> !CanSee(rules, has, e.kind)
  {
    hidden := [];
    for i := 0 to |rules|
      invariant Proper(rules) ==>
                  forall e: Event :: (exists c :: c in hidden && Holds(c, e)) <==> HiddenUpTo(rules, has, i, e.kind)
    {
      if !has(rules[i].scope) {
        ghost var before := hidden;
        var cond := HiddenByRule(rules, i);
        hidden := hidden + [cond];
        forall e: Event | Proper(rules) ensures (exists c :: c in hidden && Holds(c, e)) <==> HiddenUpTo(rules, has, i + 1, e.kind) {
          HiddenGrows(rules, has, i, e.kind);
          assert Holds(cond, e) <==> Claims(rules, i, e.kind);
          assert forall c :: c in hidden <==> c in before || c == cond;
        }
      } else {
        forall e: Event | Proper(rules) ensures HiddenUpTo(rules, has, i, e.kind) <==> HiddenUpTo(rules, has, i + 1, e.kind) {
          HiddenGrows(rules, has, i, e.kind);
        }
      }
    }
    forall e: Event | Proper(rules) ensures HiddenUpTo(rules, has, |rules|, e.kind) <==> !CanSee(rules, has, e.kind) {
      HiddenMeansCannotSee(rules, has, e.kind);
    }
  }

  ghost predicate HiddenUpTo(rules: seq<Rule>, has: string -> bool, n: nat, kind: string)
    requires n <= |rules|
  {
    exists i :: 0 <= i < n && Claims(rules, i, kind) && !has(rules[i].scope)
  }

  lemma HiddenGrows(rules: seq<Rule>, has: string -> bool, n: nat, kind: string)
    requires n < |rules|
    ensures HiddenUpTo(rules, has, n + 1, kind) <==> HiddenUpTo(rules, has, n, kind) || (Claims(rules, n, kind) && !has(rules[n].scope))
  {
  }

  lemma HiddenMeansCannotSee(rules: seq<Rule>, has: string -> bool, kind: string)
    requires Proper(rules)
    ensures HiddenUpTo(rules, has, |rules|, kind) <==> !CanSee(rules, has, kind)
  {
    RequiredScopeIsClaimed(rules, kind);
    if i :| 0 <= i < |rules| && Claims(rules, i, kind) && rules[i].scope == RequiredScope(rules, kind) {
      forall j | 0 <= j < |rules| && Claims(rules, j, kind) ensures j == i {
      }
    }
  }

  // ---------------------------------------------------------------------------------------------------------
  // The scopes and permissions by name
  // ---------------------------------------------------------------------------------------------------------

  lemma {:induction false} TrimRightOf(s: string) returns (tail: string)
    ensures s == TrimRight(s) + tail && forall c :: c in tail ==> IsSpace(c)
    ensures TrimRight(s) != "" ==> !IsSpace(TrimRight(s)[|TrimRight(s)| - 1])
    ensures TrimRight(s) != "" ==> s != "" && TrimRight(s)[0] == s[0]
  {
    tail := "";
    if s != "" && IsSpace(s[|s| - 1]) {
      var n := |s| - 1;
      var rest := TrimRightOf(s[..n]);
      tail := rest + [s[n]];
      assert s == s[..n] + [s[n]];
      assert TrimRight(s) + (rest + [s[n]]) == TrimRight(s) + rest + [s[n]];
    }
  }

  lemma {:induction false} TrimLeftOf(s: string) returns (head: string)
    ensures s == head + TrimLeft(s) && forall c :: c in head ==> IsSpace(c)
    ensures TrimLeft(s) != "" ==> !IsSpace(TrimLeft(s)[0])
  {
    head := "";
    if s != "" && IsSpace(s[0]) {
      var rest := TrimLeftOf(s[1..]);
      head := [s[0]] + rest;
      assert s == [s[0]] + s[1..];
      assert [s[0]] + (rest + TrimLeft(s)) == [s[0]] + rest + TrimLeft(s);
    }
  }

  /** Trimming takes white space off both ends, all of it and nothing else. */
  lemma TrimExact(s: string) returns (head: string, tail: string)
    ensures s == head + Trim(s) + tail && forall c :: c in head || c in tail ==> IsSpace(c)
    ensures Trim(s) != "" ==> !IsSpace(Trim(s)[0]) && !IsSpace(Trim(s)[|Trim(s)| - 1])
  {
    head := TrimLeftOf(s);
    tail := TrimRightOf(TrimLeft(s));
    assert head + (Trim(s) + tail) == head + Trim(s) + tail;
  }

  lemma NothingToTrim(s: string)
    requires s != "" && !IsSpace(s[0]) && !IsSpace(s[|s| - 1])
    ensures Trim(s) == s
  {
  }

  lemma ReadsAs(raw: string, s: Scope)
    requires raw != "" && !IsSpace(raw[0]) && !IsSpace(raw[|raw| - 1]) && WellFormed(s) && Text(s) == raw
    ensures ParseScope(raw) == Ok(s)
  {
    NothingToTrim(raw);
    ParseScopeExact(raw, s);
  }

  /** How each scope begins as the client writes it; where it takes an id, that follows. */
  function Spelled(kind: Kind): string {
    match kind
    case PlatformSummary => "platform.summary"
    case Runs => "runs"
    case Queues => "queues"
    case Workers => "workers"
    case Schedules => "schedules"
    case Alerts => "alerts"
    case PiiSummary => "pii.summary"
    case Monitoring => "monitoring.health"
    case Components => "components"
    case Run => "run:"
    case Chain => "execution-chain:"
    case Queue => "queue:"
    case Worker => "worker:"
  }

  lemma SpelledIs(kind: Kind)
    ensures Spelled(kind) == if TakesId(kind) then KindText(kind) + ":" else KindText(kind)
    ensures Spelled(kind) != "" && !IsSpace(Spelled(kind)[0]) && !IsSpace(Spelled(kind)[|Spelled(kind)| - 1])
  {
  }

  /** A scope as it is spelled is read back, with every id of at most 200 bytes that does not end in white space. */
  lemma ScopeTexts(kind: Kind, id: string)
    requires if TakesId(kind) then id != "" && !IsSpace(id[|id| - 1]) && |Encoded(id)| <= 200 else id == ""
    ensures ParseScope(Spelled(kind) + id) == Ok(Scope(kind, id))
  {
    SpelledIs(kind);
    var raw := Spelled(kind) + id;
    assert raw[0] == Spelled(kind)[0];
    assert raw[|raw| - 1] == if id == "" then Spelled(kind)[|Spelled(kind)| - 1] else id[|id| - 1];
    assert raw == Text(Scope(kind, id));
    ReadsAs(raw, Scope(kind, id));
  }

  /** A longer id is refused, however the text is written. */
  lemma LongIdsAreRefused(raw: string, kind: Kind, id: string)
    requires |Encoded(id)| > 200
    ensures ParseScope(raw) != Ok(Scope(kind, id))
  {
    ParseScopeExact(raw, Scope(kind, id));
  }

  lemma OneOf(text: string, prefix: string)
    ensures HasAnyPrefix(text, [prefix]) <==> prefix <= text
  {
    assert prefix in [prefix];
  }

  lemma OneOfThree(text: string, a: string, b: string, c: string)
    ensures HasAnyPrefix(text, [a, b, c]) <==> a <= text || b <= text || c <= text
  {
    assert a in [a, b, c] && b in [a, b, c] && c in [a, b, c];
  }

  /** Which events each scope selects. */
  lemma ScopesSelect(s: Scope, e: Event)
    requires WellFormed(s)
    ensures Matches(s, e) <==>
            match s.kind
            case PlatformSummary => e.kind == "platform.summary"
            case Runs => "task." <= e.kind || "run." <= e.kind || "attempt." <= e.kind
            case Run => ("task." <= e.kind || "run." <= e.kind || "attempt." <= e.kind) && e.subject == s.id
            case Chain => e.chainId == s.id
            case Queues => "queue." <= e.kind
            case Queue => "queue." <= e.kind && e.subject == s.id
            case Workers => "worker." <= e.kind
            case Worker => "worker." <= e.kind && e.subject == s.id
            case Schedules => "schedule." <= e.kind
            case Alerts => "alert." <= e.kind
            case PiiSummary => "pii." <= e.kind
            case Monitoring => "monitoring." <= e.kind
            case Components => "component." <= e.kind
  {
    match s.kind
    case PlatformSummary =>
    case Chain =>
    case Runs => OneOfThree(e.kind, "task.", "run.", "attempt.");
    case Run => OneOfThree(e.kind, "task.", "run.", "attempt.");
    case Queues => OneOf(e.kind, "queue.");
    case Queue => OneOf(e.kind, "queue.");
    case Workers => OneOf(e.kind, "worker.");
    case Worker => OneOf(e.kind, "worker.");
    case Schedules => OneOf(e.kind, "schedule.");
    case Alerts => OneOf(e.kind, "alert.");
    case PiiSummary => OneOf(e.kind, "pii.");
    case Monitoring => OneOf(e.kind, "monitoring.");
    case Components => OneOf(e.kind, "component.");
  }

  lemma FirstOfThree(a: Rule, b: Rule, c: Rule, kind: string)
    ensures RequiredScope([a, b, c], kind) ==
            if a.prefix <= kind then a.scope else if b.prefix <= kind then b.scope else if c.prefix <= kind then c.scope else ""
  {
    assert [a, b, c][1..] == [b, c] && [b, c][1..] == [c] && [c][1..] == [];
    assert RequiredScope([c], kind) == if c.prefix <= kind then c.scope else "";
    assert RequiredScope([b, c], kind) == if b.prefix <= kind then b.scope else RequiredScope([c], kind);
  }

  /** What a caller needs to see an event: alerts, the policy events and the other personal-data events each have their
      permission, and nothing else needs one. */
  lemma NeededToSee(kind: string)
    ensures RequiredScope(EVENT_SCOPE_RULES, kind) ==
            if "alert." <= kind then "alerts.read"
            else if "pii.policy" <= kind then "pii.policy.read"
            else if "pii." <= kind then "pii.findings.read"
            else ""
  {
    FirstOfThree(Rule("alert.", "alerts.read"), Rule("pii.policy", "pii.policy.read"), Rule("pii.", "pii.findings.read"), kind);
  }

  /** So an event is seen unless the caller lacks the permission for it. */
  lemma SeenByName(has: string -> bool, kind: string)
    ensures CanSee(EVENT_SCOPE_RULES, has, kind) <==>
            && ("alert." <= kind ==> has("alerts.read"))
            && ("pii.policy" <= kind ==> has("pii.policy.read"))
            && ("pii." <= kind && !("pii.policy" <= kind) ==> has("pii.findings.read"))
  {
    NeededToSee(kind);
    if "alert." <= kind {
      assert kind[0] == 'a';
    }
    if "pii.policy" <= kind || "pii." <= kind {
      assert kind[0] == 'p';
    }
  }
}
