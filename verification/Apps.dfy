/**
 What a developer app may name in a pattern and what it may receive: its own project's events in its environment, and public
 production ones.
 */
module Apps {
  import opened Archive
  import opened Wrappers
  import opened Topics

  /** An app's scope: its project and environment, and the key its event types carry. */
  datatype Scope = Scope(projectId: string, env: string, projectKey: string)

  /** The columns of an event that decide who may see it. */
  datatype Audience = Audience(eventType: string, projectId: Option<string>, env: string, visibility: string)

  function AudienceOf(r: Row): Audience { Audience(r.c.eventType, r.c.projectId, r.c.env, r.c.visibility) }

  datatype Refusal = BadPattern | WildcardFirst | OtherProject

  function PatternScopeError(pattern: string, app: Scope): Option<Refusal> {
    var segs := Split(pattern);
    if !IsValidPattern(pattern) then Some(BadPattern)
    else if segs[0] == STAR then Some(WildcardFirst)
    else if segs[0] == "app" && (|segs| < 2 || segs[1] != app.projectKey) then Some(OtherProject)
    else None
  }

  predicate VisibleToApp(row: Audience, projectId: string, env: string) {
    if row.projectId.Some? then row.projectId.value == projectId && row.env == env
    else row.visibility == "public" && row.env == "production"
  }

  predicate ServiceMatches(pattern: string, row: Audience) {
    row.env == "production" && (row.projectId.Some? ==> "app." <= pattern) && Matches(pattern, row.eventType)
  }

  /** A subscription's own scope; a first-party one has no project. */
  datatype Subscriber = Subscriber(pattern: string, projectId: Option<string>, env: string)

  predicate Deliverable(s: Subscriber, row: Audience) {
    if s.projectId.Some? then Matches(s.pattern, row.eventType) && VisibleToApp(row, s.projectId.value, s.env)
    else ServiceMatches(s.pattern, row)
  }

  predicate AppType(eventType: string) { Split(eventType)[0] == "app" }

  /** An allowed pattern matches app types of its own project and non-app types only. */
  lemma AllowedPatternsStayInProject(pattern: string, app: Scope, eventType: string)
    requires PatternScopeError(pattern, app).None? && Word(app.projectKey)
    requires Matches(pattern, eventType) && AppType(eventType)
    ensures |Split(eventType)| >= 2 && Split(eventType)[1] == app.projectKey
  {
    MatchesIffSelects(pattern, eventType);
    var ps, ts := Split(pattern), Split(eventType);
    assert !WordChar(STAR[0]);
    var a, b := ExpandsParts(ps, ts);
    assert ts[0] == a[0] == ps[0];
    var c, d := ExpandsParts(ps[1..], b);
    assert ts[1] == b[0] == c[0] == ps[1];
  }

  /** Why a leading wildcard is refused: the lone `*` would match any project's app types. */
  lemma WildcardWouldLeave(key: string, name: string)
    requires Word(key) && Word(name)
    ensures Matches(STAR, "app." + key + "." + name)
  {
    var ts := ["app", key, name];
    assert ts[1..] == [key, name] && ts[1..][1..] == [name];
    assert "app" + "." + (key + "." + name) == "app." + key + "." + name;
    assert Join(ts) == "app" + "." + Join(ts[1..]) && Join(ts[1..]) == key + "." + name;
    assert WordChar('a') && WordChar('p');
    SplitJoin(ts);
    SplitStar();
    assert ts[..3] == ts && ts[3..] == [];
    assert Expands(Split(STAR)[1..], []);
    MatchesIffSelects(STAR, Join(ts));
  }

  lemma SplitStar()
    ensures Split(STAR) == [STAR] && IsValidPattern(STAR)
  {
    assert STAR[1..] == "";
    assert [STAR[0]] + "" == STAR;
  }

  /** No first-party subscription receives a sandbox event, and an app receives only its own project's or public first-party ones. */
  lemma DeliveriesStayInScope(s: Subscriber, row: Audience)
    requires Deliverable(s, row)
    ensures IsValidPattern(s.pattern) && Selects(s.pattern, row.eventType)
    ensures s.projectId.None? ==> row.env == "production"
    ensures s.projectId.Some? && row.projectId.Some? ==> row.projectId == s.projectId && row.env == s.env
    ensures s.projectId.Some? && row.projectId.None? ==> row.visibility == "public" && row.env == "production"
  {
    MatchesIffSelects(s.pattern, row.eventType);
  }

  /** A first-party pattern starting with a wildcard never receives a developer app's event. */
  lemma WildcardsSkipApps(s: Subscriber, row: Audience)
    requires s.projectId.None? && row.projectId.Some? && IsValidPattern(s.pattern) && Split(s.pattern)[0] != "app"
    ensures !Deliverable(s, row)
  {
    if "app." <= s.pattern {
      var rest := s.pattern[4..];
      assert s.pattern == "app" + "." + rest;
      SplitFirst("app", rest);
    }
  }
}
