/** What a reader gets, in the columns of the tables: by pattern, by who reads, and within the page's limit. */
module ReadRules {
  import opened Wrappers
  import opened Archive
  import opened Scan
  import Apps
  import Cursor
  import Pull
  import Topics

  /** Some listed pattern selects the type. */
  predicate Chosen(patterns: seq<string>, eventType: string) { exists i | 0 <= i < |patterns| :: Topics.Selects(patterns[i], eventType) }

  predicate AllValid(patterns: seq<string>) { forall i | 0 <= i < |patterns| :: Topics.IsValidPattern(patterns[i]) }

  /** A query wants a row exactly when one of its patterns selects the row's type and its filter lets the row through. */
  lemma WantedIff(q: Query, r: Row)
    requires AllValid(q.patterns)
    ensures Wanted(q, r) <==> Chosen(q.patterns, r.c.eventType) && q.accept(r)
  {
    forall i | 0 <= i < |q.patterns| ensures Topics.Matches(q.patterns[i], r.c.eventType) <==> Topics.Selects(q.patterns[i], r.c.eventType) {
      Topics.MatchesIffSelects(q.patterns[i], r.c.eventType);
    }
    if Wanted(q, r) {
      var i :| 0 <= i < |q.patterns| && Topics.Matches(q.patterns[i], r.c.eventType);
      assert Topics.Selects(q.patterns[i], r.c.eventType);
    }
    if Chosen(q.patterns, r.c.eventType) && q.accept(r) {
      var i :| 0 <= i < |q.patterns| && Topics.Selects(q.patterns[i], r.c.eventType);
      assert Topics.Matches(q.patterns[i], r.c.eventType);
    }
  }

  // ---------------------------------------------------------------- a scan

  lemma {:induction false} SelectCounts(q: Query, rows: seq<Row>)
    ensures |Select(q, rows)| <= |rows|
    ensures rows != [] ==> |Select(q, rows)| <= |Select(q, rows[..|rows| - 1])| + 1
  {
    if rows != [] { SelectCounts(q, rows[..|rows| - 1]); }
  }

  /** What is examined of a page brings the rows to the limit and no further. */
  lemma {:induction false} ReachStops(q: Query, page: seq<Row>, have: nat, scanned: nat, i: nat)
    requires i <= |page| && have + |Select(q, page[..i])| < q.limit
    ensures have + |Select(q, page[..Reach(q, page, have, scanned, i)])| <= q.limit
    decreases |page| - i
  {
    if i < |page| {
      SelectCounts(q, page[..i + 1]);
      assert page[..i + 1][..i] == page[..i];
      if have + |Select(q, page[..i + 1])| < q.limit && scanned + i + 1 < q.scanMax { ReachStops(q, page, have, scanned, i + 1); }
    }
  }

  lemma {:induction false} ScanStops(at: nat -> Snapshot, n: nat, q: Query, rows: seq<Row>, cursor: nat, scanned: nat)
    requires |rows| < q.limit
    ensures |ScanFrom(at, n, q, rows, cursor, scanned).rows| <= q.limit
    decreases q.scanMax - scanned
  {
    var page, taken := Fetch(at(n), Narrowing(q), cursor, PAGE), Taken(at(n), q, |rows|, cursor, scanned);
    var more, next, seen := rows + Select(q, taken), LastOf(taken, cursor), scanned + |taken|;
    ReachStops(q, page, |rows|, scanned, 0);
    ScanUnfolds(at, n, q, rows, cursor, scanned, more, next, seen);
    if |more| < q.limit && seen < q.scanMax && |page| >= PAGE { ScanStops(at, n + 1, q, more, next, seen); }
  }

  lemma {:induction false} SpanJoins(rows: map<nat, Row>, a: nat, b: nat, c: nat)
    requires a <= b <= c
    ensures Span(rows, a, c) == Span(rows, a, b) + Span(rows, b, c)
  {
    if c > b { SpanJoins(rows, a, b, c - 1); }
  }

  lemma {:induction false} FewerThanSpan(s: Snapshot, rows: seq<Row>, from: nat, to: nat)
    requires Ascending(rows) && forall i | 0 <= i < |rows| :: SeenAt(s, rows[i]) && from < rows[i].c.pos <= to
    ensures |rows| <= |Span(s.rows, from, to)|
  {
    if rows != [] {
      FewerThanSpan(s, if rows[|rows| - 1].c.pos == to then rows[..|rows| - 1] else rows, from, to - 1);
    }
  }

  /** The examined rows of a page are among those it passes. */
  lemma PagePasses(s: Snapshot, q: Query, have: nat, cursor: nat, scanned: nat, from: nat)
    requires Sane(s) && from <= cursor && scanned <= |Span(s.rows, from, cursor)|
    ensures var taken := Taken(s, q, have, cursor, scanned);
      cursor <= LastOf(taken, cursor) && scanned + |taken| <= |Span(s.rows, from, LastOf(taken, cursor))|
  {
    var taken := Taken(s, q, have, cursor, scanned);
    FetchIsSound(s, Narrowing(q), cursor, PAGE);
    FewerThanSpan(s, taken, cursor, LastOf(taken, cursor));
    SpanJoins(s.rows, from, cursor, LastOf(taken, cursor));
  }

  /** A scan that stops short of the end has its limit of rows, or has passed as many stored rows as it may examine. */
  lemma {:induction false} ScanWorks(s: Snapshot, n: nat, q: Query, rows: seq<Row>, cursor: nat, scanned: nat, from: nat) returns (out: Scanned)
    requires Sane(s) && from <= cursor && scanned <= |Span(s.rows, from, cursor)|
    ensures out == ScanFrom(_ => s, n, q, rows, cursor, scanned)
    ensures out.end.AtLimit? ==> |out.rows| >= q.limit || |Span(s.rows, from, out.cursor)| >= q.scanMax
    decreases q.scanMax - scanned
  {
    var page, taken := Fetch(s, Narrowing(q), cursor, PAGE), Taken(s, q, |rows|, cursor, scanned);
    var more, next, seen := rows + Select(q, taken), LastOf(taken, cursor), scanned + |taken|;
    PagePasses(s, q, |rows|, cursor, scanned, from);
    ScanUnfolds(_ => s, n, q, rows, cursor, scanned, more, next, seen);
    if |more| < q.limit && seen < q.scanMax && |page| >= PAGE {
      out := ScanWorks(s, n + 1, q, more, next, seen, from);
    } else {
      out := ScanFrom(_ => s, n, q, rows, cursor, scanned);
    }
  }

  /** The rows from `from` to `to` that are chosen and let through, in order. */
  ghost predicate Returns(s: Snapshot, q: Query, rows: seq<Row>, from: nat, to: nat) {
    && Ascending(rows)
    && forall r :: r in rows <==>
         && r.c.pos in s.rows && s.rows[r.c.pos] == r && from < r.c.pos <= to
         && Chosen(q.patterns, r.c.eventType) && q.accept(r)
  }

  lemma SelectedAre(s: Snapshot, q: Query, from: nat, to: nat)
    requires Sane(s) && AllValid(q.patterns)
    ensures Returns(s, q, Select(q, Span(s.rows, from, to)), from, to)
  {
    var span := Span(s.rows, from, to);
    SpanIsSorted(s, from, to);
    SelectIn(q, span);
    SelectAscends(q, span);
    forall r ensures r in Select(q, span) <==>
        r.c.pos in s.rows && s.rows[r.c.pos] == r && from < r.c.pos <= to && Chosen(q.patterns, r.c.eventType) && q.accept(r)
    {
      WantedIff(q, r);
      if r in Select(q, span) { assert r in span && SeenAt(s, r); }
      if r.c.pos in s.rows && s.rows[r.c.pos] == r && from < r.c.pos <= to { assert r in span; }
    }
  }

  /**
   Over one snapshot a scan returns, in order, exactly the stored rows above its start and up to its cursor whose type one of the listed
   patterns selects and which the reader's filter lets through, no more of them than the limit. It leaves something only with that many
   rows, or with as many stored rows passed as it may examine.
   */
  lemma ScanReturns(s: Snapshot, q: Query, from: nat, start: nat)
    requires Sane(s) && AllValid(q.patterns) && q.limit > 0
    ensures var out := ScanFrom(_ => s, start, q, [], from, 0);
      && Returns(s, q, out.rows, from, out.cursor) && |out.rows| <= q.limit
      && (|out.rows| < q.limit && |Span(s.rows, from, out.cursor)| < q.scanMax ==> forall k | k in s.rows :: k <= out.cursor)
  {
    var out := ScanWorks(s, start, q, [], from, 0, from);
    ScanIsExact(s, q, from, start);
    ScanStops(_ => s, start, q, [], from, 0);
    SelectedAre(s, q, from, ScanFrom(_ => s, start, q, [], from, 0).cursor);
  }

  // ---------------------------------------------------------------- a pull

  /** What an app may read: its own project's events of its environment, and public first-party production ones. */
  predicate AppReads(scope: Apps.Scope, c: Columns) {
    if c.projectId == None then c.visibility == "public" && c.env == "production" else c.projectId == Some(scope.projectId) && c.env == scope.env
  }

  /** What a service may read with a pattern: production events, and app events only by a pattern that starts with app. */
  predicate ServiceReads(pattern: string, c: Columns) {
    c.env == "production" && (c.projectId == None || (|pattern| >= 4 && pattern[..4] == "app."))
  }

  /** The row is one the reader asked for and may have. */
  predicate Readable(who: Pull.Principal, patterns: seq<string>, c: Columns) {
    match who
    case App(scope) => Chosen(patterns, c.eventType) && AppReads(scope, c)
    case Service => exists i | 0 <= i < |patterns| :: Topics.Selects(patterns[i], c.eventType) && ServiceReads(patterns[i], c)
  }

  lemma PrefixIff(pattern: string)
    ensures "app." <= pattern <==> |pattern| >= 4 && pattern[..4] == "app."
  {
  }

  lemma ServiceIff(patterns: seq<string>, r: Row, i: int)
    requires AllValid(patterns) && 0 <= i < |patterns|
    ensures Apps.ServiceMatches(patterns[i], Apps.AudienceOf(r)) <==>
              Topics.Selects(patterns[i], r.c.eventType) && ServiceReads(patterns[i], r.c)
  {
    Topics.MatchesIffSelects(patterns[i], r.c.eventType);
    PrefixIff(patterns[i]);
  }

  lemma ServicesIff(patterns: seq<string>, r: Row)
    requires AllValid(patterns)
    ensures Pull.AcceptFor(Pull.Service, patterns, r) <==> Readable(Pull.Service, patterns, r.c)
  {
    if i :| 0 <= i < |patterns| && Apps.ServiceMatches(patterns[i], Apps.AudienceOf(r)) {
      ServiceIff(patterns, r, i);
    }
    if i :| 0 <= i < |patterns| && Topics.Selects(patterns[i], r.c.eventType) && ServiceReads(patterns[i], r.c) {
      ServiceIff(patterns, r, i);
      assert Apps.ServiceMatches(patterns[i], Apps.AudienceOf(r));
    }
  }

  /** A pull wants a row exactly when its reader asked for it by some pattern and may have it. */
  lemma PullWantsIff(who: Pull.Principal, patterns: seq<string>, limit: nat, r: Row)
    requires AllValid(patterns)
    ensures Wanted(Pull.QueryOf(who, patterns, limit), r) <==> Readable(who, patterns, r.c)
  {
    WantedIff(Pull.QueryOf(who, patterns, limit), r);
    if who.Service? {
      ServicesIff(patterns, r);
      if i :| 0 <= i < |patterns| && Topics.Selects(patterns[i], r.c.eventType) && ServiceReads(patterns[i], r.c) {
        assert Chosen(patterns, r.c.eventType);
      }
    }
  }

  /** Where a pull's scan starts: at its cursor, or further on with nothing stored in between. */
  lemma PullStart(s: Snapshot, epoch: nat, after: Cursor.Position) returns (from: nat)
    requires Sane(s) && after.epoch == epoch
    ensures from == Pull.StartOf(epoch, Some(after), Pull.Oldest(s, s))
    ensures after.pos <= from && forall k | k in s.rows && after.pos < k :: from < k
  {
    Pull.LeastIsFirst(s, 0);
    from := Pull.StartOf(epoch, Some(after), Pull.Oldest(s, s));
  }

  lemma PullIsScan(s: Snapshot, epoch: nat, after: Cursor.Position, q: Query, from: nat)
    requires Sane(s) && AllValid(q.patterns) && q.limit > 0 && from == Pull.StartOf(epoch, Some(after), Pull.Oldest(s, s))
    ensures var page := Pull.PullOnce(s, epoch, after, q);
      && Returns(s, q, page.rows, from, page.next) && |page.rows| <= q.limit && from <= page.next
      && (|page.rows| < q.limit && |Span(s.rows, from, page.next)| < q.scanMax ==> forall k | k in s.rows :: k <= page.next)
  {
    ScanReturns(s, q, from, 2);
    Pull.ConstantGrows(s, q);
    var out := ScanIsComplete(_ => s, 2, q, from, [], from, 0);
  }

  /**
   One quiet pull returns, in order, exactly the stored rows above its cursor and up to the next one that its reader asked for by some
   pattern and may have. It leaves something only with a full page or after passing 5000 stored rows.
   */
  lemma PullReturns(s: Snapshot, epoch: nat, after: Cursor.Position, who: Pull.Principal, patterns: seq<string>, limit: nat, r: Row)
    requires Sane(s) && after.epoch == epoch && AllValid(patterns) && limit > 0
    ensures var page := Pull.PullOnce(s, epoch, after, Pull.QueryOf(who, patterns, limit));
      && |page.rows| <= limit && Ascending(page.rows)
      && (|page.rows| < limit && |Span(s.rows, after.pos, page.next)| < 5000 ==> forall k | k in s.rows :: k <= page.next)
      && (r in page.rows <==> r.c.pos in s.rows && s.rows[r.c.pos] == r && after.pos < r.c.pos <= page.next && Readable(who, patterns, r.c))
  {
    var q := Pull.QueryOf(who, patterns, limit);
    var from := PullStart(s, epoch, after);
    PullIsScan(s, epoch, after, q, from);
    SpanJoins(s.rows, after.pos, from, Pull.PullOnce(s, epoch, after, q).next);
    WantedIff(q, r);
    PullWantsIff(who, patterns, limit, r);
  }
}
