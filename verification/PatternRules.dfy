/** What a topic pattern is, letter by letter, and which patterns a developer app may name, by what they match. */
module PatternRules {
  import opened Wrappers
  import opened Topics
  import Apps

  // ---------------------------------------------------------------- valid patterns

  predicate IsWord(s: string) { s != "" && forall i | 0 <= i < |s| :: 'a' <= s[i] <= 'z' || '0' <= s[i] <= '9' || s[i] == '_' }

  /** Segments are words or the wildcard, and no two wildcards stand side by side. */
  predicate IsPattern(segs: seq<string>) {
    && (forall i | 0 <= i < |segs| :: segs[i] == "*" || IsWord(segs[i]))
    && (forall i | 0 < i < |segs| :: segs[i - 1] != "*" || segs[i] != "*")
  }

  predicate EndsInStar(s: string) { s != "" && s[|s| - 1] == '*' }

  predicate StartsWithStar(s: string) { s != "" && s[0] == '*' }

  /** Some segment ends in a star and the next begins with one. */
  predicate StarsMeet(segs: seq<string>) {
    |segs| >= 2 && ((EndsInStar(segs[0]) && StartsWithStar(segs[1])) || StarsMeet(segs[1..]))
  }

  predicate Begins(s: string) { |s| >= 3 && s[0] == '*' && s[1] == '.' && s[2] == '*' }

  predicate StarDotStar(s: string) { |s| >= 3 && (Begins(s) || StarDotStar(s[1..])) }

  lemma BeginsIff(s: string)
    ensures OccursAt(s, "*.*", 0) <==> Begins(s)
  {
    if Begins(s) { assert s[0..3] == "*.*"; }
    if OccursAt(s, "*.*", 0) { assert s[0] == s[0..3][0] && s[1] == s[0..3][1] && s[2] == s[0..3][2]; }
  }

  lemma {:induction false} IncludesIff(s: string)
    ensures Includes(s, "*.*") <==> StarDotStar(s)
  {
    if |s| >= 3 {
      IncludesIff(s[1..]);
      if i: nat :| i <= |s| && OccursAt(s, "*.*", i) {
        if i > 0 { assert s[i..i + 3] == s[1..][i - 1..i + 2] && OccursAt(s[1..], "*.*", i - 1); }
      }
      BeginsIff(s);
      if i: nat :| i <= |s[1..]| && OccursAt(s[1..], "*.*", i) {
        assert s[1..][i..i + 3] == s[i + 1..i + 4] && OccursAt(s, "*.*", i + 1);
      }
    }
  }

  lemma SplitHead(s: string)
    ensures Split(s)[0] == "" <==> s == "" || s[0] == '.'
    ensures s != "" && s[0] != '.' ==> Split(s)[0][0] == s[0]
    ensures s != "" && s[0] == '.' ==> Split(s)[1..] == Split(s[1..])
  {
  }

  /** A star, a dot and a star stand together exactly when the stars of two neighbouring segments meet. */
  lemma {:induction false} MeetIff(s: string)
    ensures StarDotStar(s) <==> StarsMeet(Split(s))
  {
    if s != "" {
      var rest := s[1..];
      MeetIff(rest);
      if s[0] == '.' {
        assert Split(s)[1..] == Split(rest);
      } else if rest != "" {
        if rest[0] == '.' { ShortHead(s); } else { LongHead(s); }
      }
    }
  }

  /** Where the first segment is longer than one letter, its end and what follows are those of the rest. */
  lemma LongHead(s: string)
    requires |s| > 1 && s[0] != '.' && s[1] != '.'
    ensures EndsInStar(Split(s)[0]) == EndsInStar(Split(s[1..])[0]) && Split(s)[1..] == Split(s[1..])[1..] && !Begins(s)
  {
    SplitHead(s[1..]);
  }

  lemma ShortHead(s: string)
    requires |s| > 1 && s[0] != '.' && s[1] == '.'
    ensures |Split(s)| >= 2 && (EndsInStar(Split(s)[0]) && StartsWithStar(Split(s)[1]) <==> Begins(s)) && !EndsInStar(Split(s[1..])[0])
    ensures Split(s)[1..] == Split(s[1..])[1..]
  {
    var rest := s[1..];
    assert Split(rest) == [""] + Split(rest[1..]);
    assert Split(s) == [[s[0]] + ""] + Split(rest)[1..];
    SplitHead(rest[1..]);
  }

  lemma {:induction false} NeighboursMeet(segs: seq<string>)
    requires forall i | 0 <= i < |segs| :: segs[i] == "*" || IsWord(segs[i])
    ensures StarsMeet(segs) <==> exists i | 0 < i < |segs| :: segs[i - 1] == "*" && segs[i] == "*"
  {
    if |segs| >= 2 {
      var rest := segs[1..];
      NeighboursMeet(rest);
      if i :| 0 < i < |rest| && rest[i - 1] == "*" && rest[i] == "*" { assert segs[i] == "*" && segs[i + 1] == "*"; }
      if i :| 0 < i < |segs| && segs[i - 1] == "*" && segs[i] == "*" {
        if i > 1 { assert rest[i - 2] == "*" && rest[i - 1] == "*"; }
      }
    }
  }

  /** A pattern is valid exactly when it has 1 to 200 characters and its segments are words or wildcards, no two wildcards side by side. */
  lemma ValidIff(p: string)
    ensures IsValidPattern(p) <==> 0 < |p| <= 200 && IsPattern(Split(p))
  {
    IncludesIff(p);
    MeetIff(p);
    if forall i | 0 <= i < |Split(p)| :: Split(p)[i] == "*" || IsWord(Split(p)[i]) { NeighboursMeet(Split(p)); }
  }

  // ---------------------------------------------------------------- the ILIKE form

  /** A star stands for any text, every other letter for itself. */
  predicate Globs(p: string, s: string) {
    if p == "" then s == ""
    else if p[0] == '*' then exists i | 0 <= i <= |s| :: Globs(p[1..], s[i..])
    else s != "" && s[0] == p[0] && Globs(p[1..], s[1..])
  }

  predicate Plain(p: string) { forall i | 0 <= i < |p| :: p[i] != '%' && p[i] != '\\' }

  lemma {:induction false} LikeIsGlob(p: string, s: string)
    requires Plain(p)
    ensures Like(ToLike(p), s) <==> Globs(p, s)
  {
    if p != "" {
      var rest := ToLike(p[1..]);
      if p[0] == '*' {
        assert ToLike(p)[1..] == rest;
        forall i | 0 <= i <= |s| ensures Like(rest, s[i..]) <==> Globs(p[1..], s[i..]) { LikeIsGlob(p[1..], s[i..]); }
      } else {
        if p[0] == '_' { assert ToLike(p)[2..] == rest; } else { assert ToLike(p)[1..] == rest; }
        if s != "" { LikeIsGlob(p[1..], s[1..]); }
      }
    }
  }

  lemma {:induction false} SplitLetters(s: string, i: nat)
    requires i < |s| && s[i] != '.'
    ensures exists j | 0 <= j < |Split(s)| :: s[i] in Split(s)[j]
  {
    if i > 0 {
      SplitLetters(s[1..], i - 1);
      var j :| 0 <= j < |Split(s[1..])| && s[1..][i - 1] in Split(s[1..])[j];
      if s[0] == '.' {
        assert Split(s)[j + 1] == Split(s[1..])[j];
      } else {
        assert j > 0 ==> Split(s)[j] == Split(s[1..])[j];
        assert s[i] in Split(s)[j];
      }
    } else {
      assert s[0] in Split(s)[0];
    }
  }

  /** The letters of a valid pattern. */
  lemma ValidLetters(p: string, i: nat)
    requires IsValidPattern(p) && i < |p|
    ensures p[i] == '.' || p[i] == '*' || WordChar(p[i])
  {
    if p[i] != '.' {
      SplitLetters(p, i);
      var j :| 0 <= j < |Split(p)| && p[i] in Split(p)[j];
    }
  }

  lemma {:induction false} LowerToLike(p: string)
    requires Lower(p)
    ensures Lower(ToLike(p))
  {
    if p != "" {
      LowerToLike(p[1..]);
      var one, rest := LikeOf(p[0]), ToLike(p[1..]);
      forall i | 0 <= i < |ToLike(p)| ensures !('A' <= ToLike(p)[i] <= 'Z') {
        assert ToLike(p)[i] == if i < |one| then one[i] else rest[i - |one|];
      }
    }
  }

  /** On lower-case texts the ILIKE form of a valid pattern selects exactly what the pattern does when a star may stand for any text. */
  lemma ILikeIsGlob(p: string, s: string)
    requires IsValidPattern(p) && Lower(s)
    ensures ILike(ToLike(p), s) <==> Globs(p, s)
  {
    forall i | 0 <= i < |p| ensures p[i] != '%' && p[i] != '\\' && !('A' <= p[i] <= 'Z') { ValidLetters(p, i); }
    LowerToLike(p);
    ILikeIsExactOnLower(ToLike(p), s);
    LikeIsGlob(p, s);
  }

  // ---------------------------------------------------------------- what an app may name

  /** Each wildcard stands for one short word. */
  function Filled(ps: seq<string>): seq<string> { seq(|ps|, i requires 0 <= i < |ps| => if ps[i] == STAR then "a" else ps[i]) }

  lemma {:induction false} FilledExpands(ps: seq<string>)
    requires forall i | 0 <= i < |ps| :: ps[i] == STAR || Word(ps[i])
    ensures Words(Filled(ps)) && Expands(ps, Filled(ps))
  {
    if ps != [] {
      FilledExpands(ps[1..]);
      var ts := Filled(ps);
      assert ts[1..] == Filled(ps[1..]);
      assert ps[0] == STAR ==> Words(ts[..1]);
    }
  }

  /** A project key other than the app's. */
  function OtherKey(key: string): string { if key == "a" then "b" else "a" }

  /** A type in another project, or in none, that a refused pattern matches. */
  function Stray(ps: seq<string>, key: string): seq<string>
    requires ps != []
  {
    if ps[0] == STAR then ["app", OtherKey(key)] + Filled(ps[1..])
    else if |ps| < 2 then ["app"]
    else ["app", if ps[1] == STAR then OtherKey(key) else ps[1]] + Filled(ps[2..])
  }

  lemma KeysAreWords(key: string)
    ensures Word("app") && Word(OtherKey(key))
  {
    assert WordChar('a') && WordChar('p') && WordChar('b');
  }

  lemma FromStar(ps: seq<string>, other: string)
    requires PatternSegments(ps) && ps[0] == STAR && Word(other) && Word("app")
    ensures var ts := ["app", other] + Filled(ps[1..]); Words(ts) && Expands(ps, ts)
  {
    var ts := ["app", other] + Filled(ps[1..]);
    FilledExpands(ps[1..]);
    assert ts[2..] == Filled(ps[1..]) && ts[..2] == ["app", other];
  }

  lemma FromApp(ps: seq<string>, second: string)
    requires |ps| >= 2 && PatternSegments(ps) && ps[0] == "app" && Word(second) && Word("app") && (ps[1] == STAR || ps[1] == second)
    ensures var ts := ["app", second] + Filled(ps[2..]); Words(ts) && Expands(ps, ts)
  {
    var ts, rest := ["app", second] + Filled(ps[2..]), [second] + Filled(ps[2..]);
    FilledExpands(ps[2..]);
    assert rest[1..] == Filled(ps[2..]) && rest[..1] == [second] && ps[1..][1..] == ps[2..];
    assert Expands(ps[1..], rest);
    assert ts[1..] == rest;
  }

  lemma StrayExpands(ps: seq<string>, key: string)
    requires PatternSegments(ps) && (ps[0] == STAR || (ps[0] == "app" && (|ps| < 2 || ps[1] != key)))
    ensures Words(Stray(ps, key)) && Expands(ps, Stray(ps, key))
  {
    KeysAreWords(key);
    if ps[0] == STAR {
      FromStar(ps, OtherKey(key));
    } else if |ps| >= 2 {
      FromApp(ps, if ps[1] == STAR then OtherKey(key) else ps[1]);
    } else {
      assert ps[1..] == [] && Stray(ps, key)[1..] == [];
    }
  }

  lemma RefusedStrays(pattern: string, app: Apps.Scope)
    requires IsValidPattern(pattern) && Apps.PatternScopeError(pattern, app) != None
    ensures var t := Join(Stray(Split(pattern), app.projectKey));
      Matches(pattern, t) && Apps.AppType(t) && (|Split(t)| < 2 || Split(t)[1] != app.projectKey)
  {
    var ps := Split(pattern);
    StrayExpands(ps, app.projectKey);
    SplitJoin(Stray(ps, app.projectKey));
    MatchesIffSelects(pattern, Join(Stray(ps, app.projectKey)));
  }

  /** An app may name a pattern exactly when it is valid and matches no app type outside the app's own project. */
  lemma AllowedIff(pattern: string, app: Apps.Scope)
    requires Word(app.projectKey)
    ensures Apps.PatternScopeError(pattern, app) == None <==>
              && IsValidPattern(pattern)
              && forall t | Matches(pattern, t) && Apps.AppType(t) :: |Split(t)| >= 2 && Split(t)[1] == app.projectKey
  {
    if Apps.PatternScopeError(pattern, app) == None {
      forall t | Matches(pattern, t) && Apps.AppType(t) ensures |Split(t)| >= 2 && Split(t)[1] == app.projectKey {
        Apps.AllowedPatternsStayInProject(pattern, app, t);
      }
    } else if IsValidPattern(pattern) {
      RefusedStrays(pattern, app);
    }
  }
}
