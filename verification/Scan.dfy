/** The paged scan over both tiers, compared with one filtered log in position order. */
module Scan {
  import opened Wrappers
  import opened Archive
  import opened Topics
  import Redaction

  const PAGE := 500

  /** What one statement sees: the merged log of both tiers by position, and the last position handed out. */
  datatype Snapshot = Snapshot(rows: map<nat, Row>, head: nat)

  predicate Sane(s: Snapshot) { forall k | k in s.rows :: k <= s.head && s.rows[k].c.pos == k }

  /** `q` is seen after `p`: commits appended rows above p's head, retention removed some, redactions emptied some. */
  predicate Later(p: Snapshot, q: Snapshot) {
    p.head <= q.head && forall k | k in q.rows && k <= p.head :: k in p.rows && Redaction.SameEnvelope(q.rows[k], p.rows[k])
  }

  /** `accept`: what the reader may see. */
  datatype Query = Query(patterns: seq<string>, accept: Row -> bool, limit: nat, scanMax: nat)

  predicate Topical(q: Query, r: Row) { exists i | 0 <= i < |q.patterns| :: Matches(q.patterns[i], r.c.eventType) }

  predicate Wanted(q: Query, r: Row) { Topical(q, r) && q.accept(r) }

  /** Later, and no redaction in between made a row visible to the reader. */
  predicate LaterTo(q: Query, s: Snapshot, t: Snapshot) {
    Later(s, t) && forall k | k in t.rows && k <= s.head && Wanted(q, t.rows[k]) :: Wanted(q, s.rows[k])
  }

  /** What a reader's successive statements see of a store that commits, prunes and redacts in between. */
  ghost predicate Growing(at: nat -> Snapshot, q: Query) {
    && (forall i {:trigger Sane(at(i))} | 0 <= i :: Sane(at(i)))
    && (forall i, j {:trigger LaterTo(q, at(i), at(j))} | 0 <= i <= j :: LaterTo(q, at(i), at(j)))
  }

  /** A tombstone shows a reader nothing its event did not. */
  ghost predicate NeverReveals(q: Query) { forall r, who, at :: q.accept(Redaction.Tombstone(r, who, at)) ==> q.accept(r) }

  /** The rows above `from` up to `to`, in order; with Select, the reference a scan is compared with. */
  function Span(rows: map<nat, Row>, from: nat, to: nat): seq<Row> {
    if to <= from then [] else Span(rows, from, to - 1) + if to in rows then [rows[to]] else []
  }

  function Select(q: Query, rows: seq<Row>): seq<Row> {
    if rows == [] then []
    else Select(q, rows[..|rows| - 1]) + if Wanted(q, rows[|rows| - 1]) then [rows[|rows| - 1]] else []
  }

  /** One pattern other than `*` narrows the query to its ILIKE form. */
  function Narrowing(q: Query): Option<string> {
    if |q.patterns| == 1 && q.patterns[0] != STAR then Some(ToLike(q.patterns[0])) else None
  }

  predicate Fetched(like: Option<string>, r: Row) { like.Some? ==> ILike(like.value, r.c.eventType) }

  /** The first n fetched rows above `after`, in position order. */
  function Fetch(s: Snapshot, like: Option<string>, after: nat, n: nat): seq<Row>
    decreases s.head - after
  {
    if n == 0 || after >= s.head then []
    else if after + 1 in s.rows && Fetched(like, s.rows[after + 1]) then [s.rows[after + 1]] + Fetch(s, like, after + 1, n - 1)
    else Fetch(s, like, after + 1, n)
  }

  /** How many of a page's rows are examined, from the i-th: through the first at which a limit is reached. */
  function Reach(q: Query, page: seq<Row>, have: nat, scanned: nat, i: nat): (n: nat)
    requires i <= |page|
    ensures i <= n <= |page| && (i < |page| ==> i < n)
    ensures n == i || n == |page| || have + |Select(q, page[..n])| >= q.limit || scanned + n >= q.scanMax
    decreases |page| - i
  {
    if i == |page| then i
    else if have + |Select(q, page[..i + 1])| >= q.limit || scanned + i + 1 >= q.scanMax then i + 1
    else Reach(q, page, have, scanned, i + 1)
  }

  function LastOf(page: seq<Row>, cursor: nat): nat { if page == [] then cursor else page[|page| - 1].c.pos }

  /** The rows of a page that are examined. */
  function Taken(s: Snapshot, q: Query, have: nat, cursor: nat, scanned: nat): seq<Row> {
    var page := Fetch(s, Narrowing(q), cursor, PAGE);
    page[..Reach(q, page, have, scanned, 0)]
  }

  /** Where a scan stopped: at its limits, or on a short page. `page`: the last statement that fetched rows. */
  datatype End = AtLimit | AtEnd
  datatype Scanned = Scanned(rows: seq<Row>, cursor: nat, end: End, page: nat)

  /**
   The scan from its n-th statement on. Each statement sees its own snapshot; a narrowed scan that reaches the end reads the
   head in one more statement and moves its cursor there.
   */
  function ScanFrom(at: nat -> Snapshot, n: nat, q: Query, rows: seq<Row>, cursor: nat, scanned: nat): Scanned
    decreases q.scanMax - scanned
  {
    var page, taken := Fetch(at(n), Narrowing(q), cursor, PAGE), Taken(at(n), q, |rows|, cursor, scanned);
    var more, next, seen := rows + Select(q, taken), LastOf(taken, cursor), scanned + |taken|;
    if |more| >= q.limit || seen >= q.scanMax then Scanned(more, next, AtLimit, n)
    else if |page| < PAGE then
      Scanned(more, if Narrowing(q).Some? && next < at(n + 1).head then at(n + 1).head else next, AtEnd, n)
    else ScanFrom(at, n + 1, q, more, next, seen)
  }

  // ---------------------------------------------------------------- the loops

  lemma SelectNext(q: Query, page: seq<Row>, i: nat)
    requires i < |page|
    ensures Select(q, page[..i + 1]) == Select(q, page[..i]) + if Wanted(q, page[i]) then [page[i]] else []
  {
    assert page[..i + 1][..i] == page[..i];
  }

  /** One pass over a page. */
  method Examine(page: seq<Row>, q: Query, rows0: seq<Row>, cursor0: nat, scanned0: nat) returns (rows: seq<Row>, cursor: nat, scanned: nat)
    ensures var taken := page[..Reach(q, page, |rows0|, scanned0, 0)];
      rows == rows0 + Select(q, taken) && cursor == LastOf(taken, cursor0) && scanned == scanned0 + |taken|
  {
    rows, cursor, scanned := rows0, cursor0, scanned0;
    ghost var whole := Reach(q, page, |rows0|, scanned0, 0);
    for i := 0 to |page|
      invariant rows == rows0 + Select(q, page[..i]) && cursor == LastOf(page[..i], cursor0) && scanned == scanned0 + i
      invariant Reach(q, page, |rows0|, scanned0, i) == whole
    {
      var row := page[i];
      SelectNext(q, page, i);
      scanned := scanned + 1;
      cursor := row.c.pos;
      if Wanted(q, row) { rows := rows + [row]; }
      assert rows == rows0 + Select(q, page[..i + 1]) && cursor == LastOf(page[..i + 1], cursor0);
      if |rows| >= q.limit || scanned >= q.scanMax { return; }
    }
  }

  method Scan(at: nat -> Snapshot, start: nat, from: nat, q: Query) returns (out: Scanned)
    ensures out == ScanFrom(at, start, q, [], from, 0)
  {
    var rows: seq<Row>, cursor: nat, scanned: nat, n: nat := [], from, 0, start;
    while true
      invariant ScanFrom(at, n, q, rows, cursor, scanned) == ScanFrom(at, start, q, [], from, 0)
      decreases q.scanMax - scanned
    {
      var page := Fetch(at(n), Narrowing(q), cursor, PAGE);
      rows, cursor, scanned := Examine(page, q, rows, cursor, scanned);
      if |rows| >= q.limit || scanned >= q.scanMax { return Scanned(rows, cursor, AtLimit, n); }
      if |page| < PAGE {
        if Narrowing(q).Some? && cursor < at(n + 1).head { cursor := at(n + 1).head; }
        return Scanned(rows, cursor, AtEnd, n);
      }
      n := n + 1;
    }
  }

  // ---------------------------------------------------------------- what a page is

  predicate Ascending(rows: seq<Row>) { forall i, j | 0 <= i < j < |rows| :: rows[i].c.pos < rows[j].c.pos }

  lemma {:induction false} FetchIsSound(s: Snapshot, like: Option<string>, after: nat, n: nat)
    requires Sane(s)
    ensures var page := Fetch(s, like, after, n);
      && |page| <= n && Ascending(page)
      && forall i | 0 <= i < |page| :: after < page[i].c.pos <= s.head && page[i].c.pos in s.rows && s.rows[page[i].c.pos] == page[i]
    decreases s.head - after
  {
    if n > 0 && after < s.head {
      if after + 1 in s.rows && Fetched(like, s.rows[after + 1]) { FetchIsSound(s, like, after + 1, n - 1); }
      else { FetchIsSound(s, like, after + 1, n); }
    }
  }

  /** No fetched row is skipped: up to the last returned one, and to the head when the page is short, all are there. */
  lemma {:induction false} FetchIsComplete(s: Snapshot, like: Option<string>, after: nat, n: nat, k: nat)
    requires Sane(s) && k in s.rows && after < k && Fetched(like, s.rows[k]) && n > 0
    requires var page := Fetch(s, like, after, n); |page| < n || k <= page[|page| - 1].c.pos
    ensures s.rows[k] in Fetch(s, like, after, n)
    decreases s.head - after
  {
    var page := Fetch(s, like, after, n);
    if after + 1 in s.rows && Fetched(like, s.rows[after + 1]) {
      var rest := Fetch(s, like, after + 1, n - 1);
      assert page == [s.rows[after + 1]] + rest;
      if k > after + 1 {
        FetchIsSound(s, like, after + 1, n - 1);
        assert rest != [] ==> page[|page| - 1] == rest[|rest| - 1];
        FetchIsComplete(s, like, after + 1, n - 1, k);
      }
    } else {
      FetchIsComplete(s, like, after + 1, n, k);
    }
  }

  /** Narrowing loses nothing the patterns match. */
  lemma WantedIsFetched(q: Query, r: Row)
    requires Wanted(q, r)
    ensures Fetched(Narrowing(q), r)
  {
    var i :| 0 <= i < |q.patterns| && Matches(q.patterns[i], r.c.eventType);
    if Narrowing(q).Some? { LikeIsASuperset(q.patterns[0], r.c.eventType); }
  }

  lemma {:induction false} SelectIn(q: Query, rows: seq<Row>)
    ensures forall r | r in Select(q, rows) :: r in rows && Wanted(q, r)
    ensures forall r | r in rows && Wanted(q, r) :: r in Select(q, rows)
  {
    if rows != [] {
      SelectIn(q, rows[..|rows| - 1]);
      assert rows == rows[..|rows| - 1] + [rows[|rows| - 1]];
    }
  }

  lemma FrontIsBelow(rows: seq<Row>, r: Row)
    requires Ascending(rows) && rows != [] && r in rows[..|rows| - 1]
    ensures r.c.pos < rows[|rows| - 1].c.pos
  {
    var j :| 0 <= j < |rows| - 1 && rows[..|rows| - 1][j] == r;
    assert rows[j] == r;
  }

  lemma {:induction false} SelectAscends(q: Query, rows: seq<Row>)
    requires Ascending(rows)
    ensures Ascending(Select(q, rows))
  {
    if rows != [] {
      var front := rows[..|rows| - 1];
      SelectAscends(q, front);
      SelectIn(q, front);
      var mine := Select(q, front);
      forall i | 0 <= i < |mine| ensures mine[i].c.pos < rows[|rows| - 1].c.pos {
        assert mine[i] in mine;
        FrontIsBelow(rows, mine[i]);
      }
    }
  }

  // ---------------------------------------------------------------- what a scan gathers

  predicate SeenAt(s: Snapshot, r: Row) { r.c.pos in s.rows && s.rows[r.c.pos] == r }

  predicate SeenBefore(at: nat -> Snapshot, n: nat, r: Row) { exists j | 0 <= j < n :: SeenAt(at(j), r) }

  /** `rows` are wanted rows above `from` up to `cursor`, in order, each as a statement before the n-th saw it. */
  predicate Gathered(at: nat -> Snapshot, n: nat, q: Query, from: nat, rows: seq<Row>, cursor: nat) {
    && Ascending(rows) && from <= cursor
    && forall r | r in rows :: Wanted(q, r) && from < r.c.pos <= cursor && SeenBefore(at, n, r)
  }

  predicate Has(rows: seq<Row>, k: nat) { exists i | 0 <= i < |rows| :: rows[i].c.pos == k }

  /** Every wanted row of `s` above `from` up to `to` is there. */
  predicate NothingMissed(s: Snapshot, q: Query, from: nat, rows: seq<Row>, to: nat) {
    forall k | k in s.rows && from < k <= to && Wanted(q, s.rows[k]) :: Has(rows, k)
  }

  /** A scan may go on at statement n: it has not begun, or it is complete up to its cursor. */
  predicate Resumable(at: nat -> Snapshot, n: nat, q: Query, from: nat, rows: seq<Row>, cursor: nat) {
    && Gathered(at, n, q, from, rows, cursor)
    && ((rows == [] && cursor == from) || (n > 0 && cursor <= at(n - 1).head && NothingMissed(at(n - 1), q, from, rows, cursor)))
  }

  lemma NewRowsGathered(at: nat -> Snapshot, n: nat, q: Query, from: nat, rows: seq<Row>, cursor: nat, taken: seq<Row>, next: nat)
    requires Gathered(at, n, q, from, rows, cursor) && cursor <= next && Ascending(taken)
    requires forall r | r in taken :: cursor < r.c.pos <= next && SeenAt(at(n), r)
    ensures Gathered(at, n + 1, q, from, rows + Select(q, taken), next)
  {
    SelectIn(q, taken);
    SelectAscends(q, taken);
    var mine := Select(q, taken);
    var more := rows + mine;
    forall r | r in more ensures SeenBefore(at, n + 1, r) {
      if r in rows {
        var j :| 0 <= j < n && SeenAt(at(j), r);
      } else {
        assert r in taken;
      }
    }
    forall i, j | 0 <= i < j < |more| ensures more[i].c.pos < more[j].c.pos {
      if j >= |rows| { assert mine[j - |rows|] in taken; }
      if i < |rows| { assert rows[i] in rows; }
    }
  }

  lemma HasJoined(a: seq<Row>, b: seq<Row>, k: nat)
    requires Has(a, k) || Has(b, k)
    ensures Has(a + b, k)
  {
    if i :| 0 <= i < |a| && a[i].c.pos == k {
      assert (a + b)[i].c.pos == k;
    } else {
      var i :| 0 <= i < |b| && b[i].c.pos == k;
      assert (a + b)[|a| + i].c.pos == k;
    }
  }

  /** A wanted row of statement n at or below the cursor was gathered before. */
  lemma OldIsHad(at: nat -> Snapshot, n: nat, q: Query, from: nat, rows: seq<Row>, cursor: nat, k: nat)
    requires Growing(at, q) && Resumable(at, n, q, from, rows, cursor)
    requires k in at(n).rows && from < k <= cursor && Wanted(q, at(n).rows[k])
    ensures Has(rows, k)
  {
    assert LaterTo(q, at(n - 1), at(n));
  }

  /** A wanted row above the cursor is among the rows taken from the page, up to the last of them or the end of a short page. */
  lemma NewIsTaken(s: Snapshot, q: Query, cursor: nat, seen: nat, k: nat)
    requires Sane(s) && k in s.rows && cursor < k && Wanted(q, s.rows[k])
    requires var page := Fetch(s, Narrowing(q), cursor, PAGE);
      seen <= |page| && (k <= LastOf(page[..seen], cursor) || (seen == |page| < PAGE))
    ensures Has(Select(q, Fetch(s, Narrowing(q), cursor, PAGE)[..seen]), k)
  {
    var page := Fetch(s, Narrowing(q), cursor, PAGE);
    var taken := page[..seen];
    FetchIsSound(s, Narrowing(q), cursor, PAGE);
    WantedIsFetched(q, s.rows[k]);
    FetchIsComplete(s, Narrowing(q), cursor, PAGE, k);
    var i :| 0 <= i < |page| && page[i] == s.rows[k];
    assert taken[i] in taken;
    SelectIn(q, taken);
    var j :| 0 <= j < |Select(q, taken)| && Select(q, taken)[j] == s.rows[k];
  }

  lemma PageMissesNothing(at: nat -> Snapshot, n: nat, q: Query, from: nat, rows: seq<Row>, cursor: nat, seen: nat, to: nat)
    requires Growing(at, q) && Resumable(at, n, q, from, rows, cursor)
    requires var page := Fetch(at(n), Narrowing(q), cursor, PAGE);
      seen <= |page| && (to <= LastOf(page[..seen], cursor) || (seen == |page| < PAGE))
    ensures NothingMissed(at(n), q, from, rows + Select(q, Fetch(at(n), Narrowing(q), cursor, PAGE)[..seen]), to)
  {
    var s, mine := at(n), Select(q, Fetch(at(n), Narrowing(q), cursor, PAGE)[..seen]);
    forall k | k in s.rows && from < k <= to && Wanted(q, s.rows[k]) ensures Has(rows + mine, k) {
      if k <= cursor { OldIsHad(at, n, q, from, rows, cursor, k); } else { NewIsTaken(s, q, cursor, seen, k); }
      HasJoined(rows, mine, k);
    }
  }

  /** What a scan guarantees over a store that commits, prunes and redacts between its statements. */
  predicate Complete(at: nat -> Snapshot, q: Query, from: nat, out: Scanned) {
    && Gathered(at, out.page + 1, q, from, out.rows, out.cursor)
    && (out.end.AtLimit? ==> NothingMissed(at(out.page), q, from, out.rows, out.cursor) && (out.cursor <= at(out.page).head || out.cursor == from))
    && (out.end.AtEnd? ==> NothingMissed(at(out.page), q, from, out.rows, at(out.page).head))
    && (out.end.AtEnd? ==> forall k | k in at(out.page).rows :: k <= out.cursor)
    && (out.cursor <= at(out.page).head || out.cursor == from || (Narrowing(q).Some? && out.end.AtEnd? && out.cursor == at(out.page + 1).head))
  }

  lemma ShortPageIsTheEnd(s: Snapshot, cursor: nat)
    requires Sane(s) && |Fetch(s, None, cursor, PAGE)| < PAGE
    ensures forall k | k in s.rows :: k <= LastOf(Fetch(s, None, cursor, PAGE), cursor)
  {
    var page := Fetch(s, None, cursor, PAGE);
    FetchIsSound(s, None, cursor, PAGE);
    forall k | k in s.rows ensures k <= LastOf(page, cursor) {
      if k > cursor { FetchIsComplete(s, None, cursor, PAGE, k); }
    }
  }

  /** After a page, the scan is complete up to its new cursor; after a short one, up to the head. */
  lemma PageStep(at: nat -> Snapshot, n: nat, q: Query, from: nat, rows: seq<Row>, cursor: nat, seen: nat)
    requires Growing(at, q) && Resumable(at, n, q, from, rows, cursor)
    requires seen <= |Fetch(at(n), Narrowing(q), cursor, PAGE)|
    ensures var page := Fetch(at(n), Narrowing(q), cursor, PAGE);
      var more, next := rows + Select(q, page[..seen]), LastOf(page[..seen], cursor);
      && Gathered(at, n + 1, q, from, more, next) && NothingMissed(at(n), q, from, more, next)
      && (next <= at(n).head || (next == from && page[..seen] == []))
      && (seen == |page| < PAGE ==> NothingMissed(at(n), q, from, more, at(n).head))
      && (seen > 0 ==> Resumable(at, n + 1, q, from, more, next))
  {
    var page := Fetch(at(n), Narrowing(q), cursor, PAGE);
    var taken := page[..seen];
    FetchIsSound(at(n), Narrowing(q), cursor, PAGE);
    NewRowsGathered(at, n, q, from, rows, cursor, taken, LastOf(taken, cursor));
    PageMissesNothing(at, n, q, from, rows, cursor, seen, LastOf(taken, cursor));
    if seen == |page| < PAGE { PageMissesNothing(at, n, q, from, rows, cursor, seen, at(n).head); }
    if cursor != from { assert LaterTo(q, at(n - 1), at(n)); }
  }

  lemma LimitPage(at: nat -> Snapshot, n: nat, q: Query, from: nat, rows: seq<Row>, cursor: nat, scanned: nat)
    requires Growing(at, q) && Resumable(at, n, q, from, rows, cursor)
    ensures var taken := Taken(at(n), q, |rows|, cursor, scanned);
      Complete(at, q, from, Scanned(rows + Select(q, taken), LastOf(taken, cursor), AtLimit, n))
  {
    PageStep(at, n, q, from, rows, cursor, Reach(q, Fetch(at(n), Narrowing(q), cursor, PAGE), |rows|, scanned, 0));
  }

  lemma FullPage(at: nat -> Snapshot, n: nat, q: Query, from: nat, rows: seq<Row>, cursor: nat, scanned: nat)
    requires Growing(at, q) && Resumable(at, n, q, from, rows, cursor)
    ensures var taken := Taken(at(n), q, |rows|, cursor, scanned);
      taken != [] ==> Resumable(at, n + 1, q, from, rows + Select(q, taken), LastOf(taken, cursor))
  {
    PageStep(at, n, q, from, rows, cursor, Reach(q, Fetch(at(n), Narrowing(q), cursor, PAGE), |rows|, scanned, 0));
  }

  lemma LastPage(at: nat -> Snapshot, n: nat, q: Query, from: nat, rows: seq<Row>, cursor: nat)
    requires Growing(at, q) && Resumable(at, n, q, from, rows, cursor) && |Fetch(at(n), Narrowing(q), cursor, PAGE)| < PAGE
    ensures var page := Fetch(at(n), Narrowing(q), cursor, PAGE);
      var next := LastOf(page, cursor);
      Complete(at, q, from, Scanned(rows + Select(q, page), if Narrowing(q).Some? && next < at(n + 1).head then at(n + 1).head else next, AtEnd, n))
  {
    var page := Fetch(at(n), Narrowing(q), cursor, PAGE);
    assert page[..|page|] == page;
    PageStep(at, n, q, from, rows, cursor, |page|);
    if Narrowing(q).None? { ShortPageIsTheEnd(at(n), cursor); }
    assert Sane(at(n)) && LaterTo(q, at(n), at(n + 1));
  }

  /** The first statement of a scan, and the rest. */
  lemma ScanUnfolds(at: nat -> Snapshot, n: nat, q: Query, rows: seq<Row>, cursor: nat, scanned: nat, more: seq<Row>, next: nat, seen: nat)
    requires var taken := Taken(at(n), q, |rows|, cursor, scanned);
      more == rows + Select(q, taken) && next == LastOf(taken, cursor) && seen == scanned + |taken|
    ensures var short := |Fetch(at(n), Narrowing(q), cursor, PAGE)| < PAGE;
      var head := at(n + 1).head;
      ScanFrom(at, n, q, rows, cursor, scanned) ==
        if |more| >= q.limit || seen >= q.scanMax then Scanned(more, next, AtLimit, n)
        else if short then Scanned(more, if Narrowing(q).Some? && next < head then head else next, AtEnd, n)
        else ScanFrom(at, n + 1, q, more, next, seen)
  {
  }

  /** However its limits cut it, a scan returns the wanted rows in order and misses none up to what its last page saw. */
  lemma {:induction false} ScanIsComplete(at: nat -> Snapshot, n: nat, q: Query, from: nat, rows: seq<Row>, cursor: nat, scanned: nat)
    returns (out: Scanned)
    requires Growing(at, q) && Resumable(at, n, q, from, rows, cursor)
    ensures out == ScanFrom(at, n, q, rows, cursor, scanned)
    ensures Complete(at, q, from, out)
    decreases q.scanMax - scanned
  {
    var page, taken := Fetch(at(n), Narrowing(q), cursor, PAGE), Taken(at(n), q, |rows|, cursor, scanned);
    var more, next, seen := rows + Select(q, taken), LastOf(taken, cursor), scanned + |taken|;
    ScanUnfolds(at, n, q, rows, cursor, scanned, more, next, seen);
    if |more| >= q.limit || seen >= q.scanMax {
      LimitPage(at, n, q, from, rows, cursor, scanned);
      return Scanned(more, next, AtLimit, n);
    }
    if |page| < PAGE {
      assert taken == page;
      LastPage(at, n, q, from, rows, cursor);
      return Scanned(more, if Narrowing(q).Some? && next < at(n + 1).head then at(n + 1).head else next, AtEnd, n);
    }
    FullPage(at, n, q, from, rows, cursor, scanned);
    out := ScanIsComplete(at, n + 1, q, from, more, next, seen);
  }

  // ---------------------------------------------------------------- against the reference

  lemma {:induction false} SpanIsSorted(s: Snapshot, from: nat, to: nat)
    requires Sane(s)
    ensures Ascending(Span(s.rows, from, to))
    ensures forall r | r in Span(s.rows, from, to) :: from < r.c.pos <= to && SeenAt(s, r)
    ensures forall k | k in s.rows && from < k <= to :: s.rows[k] in Span(s.rows, from, to)
  {
    if to > from { SpanIsSorted(s, from, to - 1); }
  }

  predicate Within(a: seq<Row>, b: seq<Row>) { forall r | r in a :: r in b }

  lemma EmptyWithin(a: seq<Row>, b: seq<Row>)
    requires Within(a, b)
    ensures a != [] ==> b != []
  {
    if a != [] { assert a[0] in b; }
  }

  lemma FrontsWithin(a: seq<Row>, b: seq<Row>)
    requires Ascending(a) && Ascending(b) && a != [] && b != [] && Within(a, b) && a[|a| - 1] == b[|b| - 1]
    ensures Within(a[..|a| - 1], b[..|b| - 1])
  {
    var x := a[..|a| - 1];
    forall r | r in x ensures r in b[..|b| - 1] {
      WithoutLast(a, r);
      WithoutLast(b, r);
    }
  }

  lemma FrontAndLast(a: seq<Row>, b: seq<Row>)
    requires a != [] && b != [] && a[..|a| - 1] == b[..|b| - 1] && a[|a| - 1] == b[|b| - 1]
    ensures a == b
  {
    assert a == a[..|a| - 1] + [a[|a| - 1]] && b == b[..|b| - 1] + [b[|b| - 1]];
  }

  /** Two ascending sequences with the same rows are the same sequence. */
  lemma {:induction false} SameAscending(a: seq<Row>, b: seq<Row>)
    requires Ascending(a) && Ascending(b) && Within(a, b) && Within(b, a)
    ensures a == b
  {
    if a == [] || b == [] {
      EmptyWithin(a, b);
      EmptyWithin(b, a);
    } else {
      LastIsGreatest(a, b);
      LastIsGreatest(b, a);
      FrontsWithin(a, b);
      FrontsWithin(b, a);
      SameAscending(a[..|a| - 1], b[..|b| - 1]);
      FrontAndLast(a, b);
    }
  }

  lemma LastIsGreatest(a: seq<Row>, b: seq<Row>)
    requires Ascending(a) && a != [] && b != [] && forall r | r in b :: r in a
    ensures b[|b| - 1].c.pos <= a[|a| - 1].c.pos && (b[|b| - 1].c.pos == a[|a| - 1].c.pos ==> b[|b| - 1] == a[|a| - 1])
  {
    assert b[|b| - 1] in b;
    var i :| 0 <= i < |a| && a[i] == b[|b| - 1];
  }

  lemma WithoutLast(a: seq<Row>, r: Row)
    requires Ascending(a) && a != []
    ensures r in a[..|a| - 1] <==> r in a && r != a[|a| - 1]
  {
    if r in a && r != a[|a| - 1] {
      var i :| 0 <= i < |a| && a[i] == r;
      assert a[..|a| - 1][i] == r;
    }
  }

  /** Rows of one snapshot that are wanted, ascending and complete are the filtered span. */
  lemma IsTheSelection(s: Snapshot, q: Query, from: nat, rows: seq<Row>, to: nat)
    requires Sane(s) && Ascending(rows) && NothingMissed(s, q, from, rows, to)
    requires forall r | r in rows :: Wanted(q, r) && from < r.c.pos <= to && SeenAt(s, r)
    ensures rows == Select(q, Span(s.rows, from, to))
  {
    var span := Span(s.rows, from, to);
    SpanIsSorted(s, from, to);
    SelectIn(q, span);
    SelectAscends(q, span);
    forall r | r in Select(q, span) ensures r in rows {
      assert SeenAt(s, r);
      var i :| 0 <= i < |rows| && rows[i].c.pos == r.c.pos;
      assert rows[i] in rows;
    }
    SameAscending(rows, Select(q, span));
  }

  /** Over one snapshot the paged, narrowed scan returns exactly the filtered log up to its cursor, whatever its limits. */
  lemma ScanIsExact(s: Snapshot, q: Query, from: nat, start: nat)
    requires Sane(s)
    ensures var out := ScanFrom(_ => s, start, q, [], from, 0);
      && out.rows == Select(q, Span(s.rows, from, out.cursor)) && out.cursor >= from
      && (out.end.AtEnd? ==> forall k | k in s.rows :: k <= out.cursor)
      && (out.cursor <= s.head || out.cursor == from)
  {
    var at: nat -> Snapshot := _ => s;
    var out := ScanIsComplete(at, start, q, from, [], from, 0);
    IsTheSelection(s, q, from, out.rows, out.cursor);
  }

  /** A wanted row `t` has at k was committed after `s`, at or below the cursor. */
  predicate Late(s: Snapshot, t: Snapshot, q: Query, from: nat, cursor: nat, k: nat) {
    k in t.rows && from < k && s.head < k <= cursor && Wanted(q, t.rows[k])
  }

  predicate AnyLate(s: Snapshot, t: Snapshot, q: Query, from: nat, cursor: nat) { exists k | k in t.rows :: Late(s, t, q, from, cursor, k) }

  /** A wanted row `t` has at k was committed after `s`. */
  predicate Came(s: Snapshot, t: Snapshot, q: Query, from: nat, k: nat) { k in t.rows && s.head < k && from < k && Wanted(q, t.rows[k]) }

  predicate AnyCame(s: Snapshot, t: Snapshot, q: Query, from: nat) { exists k | k in t.rows :: Came(s, t, q, from, k) }

  /** The scan read the head after its last page, and some wanted row was committed between those two statements. */
  predicate LostBehindHead(at: nat -> Snapshot, q: Query, from: nat, out: Scanned) {
    && Narrowing(q).Some? && out.end.AtEnd?
    && AnyCame(at(out.page), at(out.page + 1), q, from)
  }

  /** A narrowed scan that reached the end has a cursor no lower than the head it then read. */
  lemma {:induction false} EndsAtHead(at: nat -> Snapshot, n: nat, q: Query, rows: seq<Row>, cursor: nat, scanned: nat)
    ensures var out := ScanFrom(at, n, q, rows, cursor, scanned);
      Narrowing(q).Some? && out.end.AtEnd? ==> at(out.page + 1).head <= out.cursor
    decreases q.scanMax - scanned
  {
    var page, taken := Fetch(at(n), Narrowing(q), cursor, PAGE), Taken(at(n), q, |rows|, cursor, scanned);
    var more, next, seen := rows + Select(q, taken), LastOf(taken, cursor), scanned + |taken|;
    ScanUnfolds(at, n, q, rows, cursor, scanned, more, next, seen);
    if |more| < q.limit && seen < q.scanMax && |page| >= PAGE { EndsAtHead(at, n + 1, q, more, next, seen); }
  }

  lemma LostIffLate(at: nat -> Snapshot, q: Query, from: nat, out: Scanned)
    requires Growing(at, q) && Narrowing(q).Some? && out.end.AtEnd? && at(out.page + 1).head <= out.cursor
    ensures LostBehindHead(at, q, from, out) <==> AnyLate(at(out.page), at(out.page + 1), q, from, out.cursor)
  {
    var s, t := at(out.page), at(out.page + 1);
    assert Sane(t);
    if k :| k in t.rows && Came(s, t, q, from, k) { assert Late(s, t, q, from, out.cursor, k); }
    if k :| k in t.rows && Late(s, t, q, from, out.cursor, k) { assert Came(s, t, q, from, k); }
  }

  lemma SeenIsBelow(at: nat -> Snapshot, q: Query, page: nat, r: Row)
    requires Growing(at, q) && SeenBefore(at, page + 1, r)
    ensures r.c.pos <= at(page).head
  {
    var j :| 0 <= j < page + 1 && SeenAt(at(j), r);
    assert Sane(at(j)) && LaterTo(q, at(j), at(page));
  }

  lemma NothingAboveHead(at: nat -> Snapshot, q: Query, from: nat, out: Scanned)
    requires Growing(at, q) && Complete(at, q, from, out) && at(out.page).head <= from
    ensures out.rows == []
  {
    if out.rows != [] {
      assert out.rows[0] in out.rows;
      SeenIsBelow(at, q, out.page, out.rows[0]);
    }
  }

  lemma LateIsMissed(at: nat -> Snapshot, q: Query, from: nat, out: Scanned, k: nat)
    requires Growing(at, q) && Complete(at, q, from, out)
    requires Late(at(out.page), at(out.page + 1), q, from, out.cursor, k)
    ensures !Has(out.rows, k)
  {
    if Has(out.rows, k) {
      var i :| 0 <= i < |out.rows| && out.rows[i].c.pos == k;
      assert out.rows[i] in out.rows;
      SeenIsBelow(at, q, out.page, out.rows[i]);
    }
  }

  lemma OnlyLateIsMissed(at: nat -> Snapshot, q: Query, from: nat, out: Scanned)
    requires Growing(at, q) && Complete(at, q, from, out)
    requires !AnyLate(at(out.page), at(out.page + 1), q, from, out.cursor)
    ensures NothingMissed(at(out.page + 1), q, from, out.rows, out.cursor)
  {
    var s, t := at(out.page), at(out.page + 1);
    assert LaterTo(q, s, t);
    forall k | k in t.rows && from < k <= out.cursor && Wanted(q, t.rows[k]) ensures Has(out.rows, k) {
      assert !Late(s, t, q, from, out.cursor, k);
    }
  }

  /** Only the head statement of a narrowed scan can carry the cursor past the head its pages saw. */
  lemma NoneIsLate(at: nat -> Snapshot, q: Query, from: nat, out: Scanned)
    requires Complete(at, q, from, out) && !(Narrowing(q).Some? && out.end.AtEnd?)
    ensures !AnyLate(at(out.page), at(out.page + 1), q, from, out.cursor)
  {
  }

  lemma MissesIffLate(at: nat -> Snapshot, q: Query, from: nat, out: Scanned)
    requires Growing(at, q) && Complete(at, q, from, out)
    ensures NothingMissed(at(out.page + 1), q, from, out.rows, out.cursor) <==> !AnyLate(at(out.page), at(out.page + 1), q, from, out.cursor)
  {
    var s, t := at(out.page), at(out.page + 1);
    if k :| k in t.rows && Late(s, t, q, from, out.cursor, k) {
      LateIsMissed(at, q, from, out, k);
    } else {
      OnlyLateIsMissed(at, q, from, out);
    }
  }

  /**
   Commits may fall anywhere between the statements: a scan misses a row exactly when it is narrowed, reached the end, and a wanted row
   was committed between its last page and the head it read then.
   */
  lemma ScanLosesIff(at: nat -> Snapshot, start: nat, q: Query, from: nat)
    requires Growing(at, q)
    ensures var out := ScanFrom(at, start, q, [], from, 0);
      NothingMissed(at(out.page + 1), q, from, out.rows, out.cursor) <==> !LostBehindHead(at, q, from, out)
  {
    var out := ScanIsComplete(at, start, q, from, [], from, 0);
    MissesIffLate(at, q, from, out);
    EndsAtHead(at, start, q, [], from, 0);
    if Narrowing(q).Some? && out.end.AtEnd? { LostIffLate(at, q, from, out); } else { NoneIsLate(at, q, from, out); }
  }

  lemma {:induction false} PagesForward(at: nat -> Snapshot, n: nat, q: Query, rows: seq<Row>, cursor: nat, scanned: nat)
    ensures ScanFrom(at, n, q, rows, cursor, scanned).page >= n
    decreases q.scanMax - scanned
  {
    var page, taken := Fetch(at(n), Narrowing(q), cursor, PAGE), Taken(at(n), q, |rows|, cursor, scanned);
    var more, next, seen := rows + Select(q, taken), LastOf(taken, cursor), scanned + |taken|;
    ScanUnfolds(at, n, q, rows, cursor, scanned, more, next, seen);
    if |more| < q.limit && seen < q.scanMax && |page| >= PAGE { PagesForward(at, n + 1, q, more, next, seen); }
  }

  // ---------------------------------------------------------------- that it can happen

  /** The store is empty at the first statement and holds one event from the second on. */
  function Commits(r: Row): nat -> Snapshot { n => if n == 0 then Snapshot(map[], 0) else Snapshot(map[1 := r], 1) }

  lemma CommitsGrow(r: Row, q: Query)
    requires r.c.pos == 1
    ensures Growing(Commits(r), q)
  {
    var at := Commits(r);
    forall i | 0 <= i ensures Sane(at(i)) {}
    forall i, j | 0 <= i <= j ensures LaterTo(q, at(i), at(j)) { assert at(i).head <= at(j).head; }
  }

  /** One commit between the page and the head statement: the cursor passes an event no later page returns. */
  lemma HeadReadLosesARow(r: Row, q: Query)
    requires q.patterns == ["a"] && q.accept(r) && r.c.eventType == "a" && r.c.pos == 1 && q.limit > 0 && q.scanMax > 0
    ensures Growing(Commits(r), q) && Wanted(q, r)
    ensures ScanFrom(Commits(r), 0, q, [], 0, 0) == Scanned([], 1, AtEnd, 0)
    ensures forall start | start >= 1 :: ScanFrom(Commits(r), start, q, [], 1, 0).rows == []
  {
    CommitsGrow(r, q);
    LetterMatchesItself();
    var at := Commits(r);
    assert Taken(at(0), q, 0, 0, 0) == [];
    ScanUnfolds(at, 0, q, [], 0, 0, [], 0, 0);
    forall start: nat | start >= 1 ensures ScanFrom(at, start, q, [], 1, 0).rows == [] {
      var out := ScanIsComplete(at, start, q, 1, [], 1, 0);
      NothingAboveHead(at, q, 1, out);
    }
  }

  lemma LetterMatchesItself()
    ensures Matches("a", "a")
  {
    SplitWord("a");
    assert Split("a") == ["a"];
    LiteralAccepts("a");
    assert !Includes("a", "*.*");
    assert IsValidPattern("a");
    assert "a" != STAR;
  }
}
