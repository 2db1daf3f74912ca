/** Repeated pulls over a store that changes between any two of their statements: what they return, and exactly what they lose. */
module PullFeed {
  import opened Wrappers
  import opened Archive
  import opened Scan
  import opened Pull

  /** What the scan of a pull returned whose first statement is the n-th. */
  function ScanOf(at: nat -> Snapshot, n: nat, after: Cursor.Position, q: Query): Scanned {
    ScanFrom(at, n + 2, q, [], StartOf(after.epoch, Some(after), Oldest(at(n), at(n + 1))), 0)
  }

  function PageAt(at: nat -> Snapshot, n: nat, after: Cursor.Position, q: Query): Page { PullAt(at, n, after.epoch, Some(after), q) }

  datatype Feed = Feed(rows: seq<Row>, next: Cursor.Position)

  /** Pull after pull, each resuming from the last cursor; `starts` are their first statements. */
  function Pulls(at: nat -> Snapshot, starts: seq<nat>, start: Cursor.Position, q: Query): Feed {
    if starts == [] then Feed([], start)
    else
      var feed := Pulls(at, starts[..|starts| - 1], start, q);
      var page := PageAt(at, starts[|starts| - 1], feed.next, q);
      Feed(feed.rows + page.rows, Cursor.Position(page.next, start.epoch))
  }

  predicate Ends(at: nat -> Snapshot, n: nat, after: Cursor.Position, q: Query, end: nat) { ScanOf(at, n, after, q).page + 1 <= end }

  /** Every pull was over by statement `end`. */
  predicate Over(at: nat -> Snapshot, starts: seq<nat>, start: Cursor.Position, q: Query, end: nat) {
    starts == [] ||
    (var front, n := starts[..|starts| - 1], starts[|starts| - 1];
     Over(at, front, start, q, end) && Ends(at, n, Pulls(at, front, start, q).next, q, end))
  }

  /** The pull passes position k without returning it: in its gap, or handed out after the last page and before the head was read. */
  predicate Passes(at: nat -> Snapshot, n: nat, after: Cursor.Position, q: Query, k: nat) {
    var page, out := PageAt(at, n, after, q), ScanOf(at, n, after, q);
    InGap(page.gap, k) || (after.pos < k <= page.next && at(out.page).head < k)
  }

  predicate Passed(at: nat -> Snapshot, starts: seq<nat>, start: Cursor.Position, q: Query, k: nat) {
    starts != [] &&
    (var front, n := starts[..|starts| - 1], starts[|starts| - 1];
     Passed(at, front, start, q, k) || Passes(at, n, Pulls(at, front, start, q).next, q, k))
  }

  // ---------------------------------------------------------------- one pull

  /** Rows of one stretch of the log, in order. */
  predicate Stretch(q: Query, rows: seq<Row>, from: nat, to: nat) {
    Ascending(rows) && from <= to && forall r | r in rows :: Wanted(q, r) && from < r.c.pos <= to
  }

  /** Of the wanted events `s` has there, the rows hold exactly those that were not passed. */
  ghost predicate Exactly(s: Snapshot, q: Query, rows: seq<Row>, from: nat, to: nat, passed: nat -> bool) {
    forall k: nat | k in s.rows && from < k <= to && Wanted(q, s.rows[k]) :: Has(rows, k) <==> !passed(k)
  }

  lemma StartsBelow(at: nat -> Snapshot, n: nat, after: Cursor.Position, k: nat)
    ensures var from := StartOf(after.epoch, Some(after), Oldest(at(n), at(n + 1)));
      from >= after.pos && (InGap(GapOf(after.epoch, Some(after), Oldest(at(n), at(n + 1))), k) <==> after.pos < k <= from)
  {
  }

  lemma HeadsRise(at: nat -> Snapshot, q: Query, i: nat, j: nat)
    requires Growing(at, q) && i <= j
    ensures Sane(at(i)) && Sane(at(j)) && LaterTo(q, at(i), at(j))
  {
  }

  lemma HasIsIn(rows: seq<Row>, k: nat) returns (r: Row)
    requires Has(rows, k)
    ensures r in rows && r.c.pos == k
  {
    var i :| 0 <= i < |rows| && rows[i].c.pos == k;
    r := rows[i];
  }

  /** A scan, for the events a later statement still has: it has what its last page could see. */
  lemma ScanHasIff(at: nat -> Snapshot, q: Query, from: nat, out: Scanned, end: nat, k: nat)
    requires Growing(at, q) && Complete(at, q, from, out) && out.page <= end
    requires k in at(end).rows && Wanted(q, at(end).rows[k]) && from < k <= out.cursor
    ensures Has(out.rows, k) <==> k <= at(out.page).head
  {
    HeadsRise(at, q, out.page, end);
    if Has(out.rows, k) {
      var r := HasIsIn(out.rows, k);
      SeenIsBelow(at, q, out.page, r);
    }
  }

  lemma OnePull(at: nat -> Snapshot, n: nat, after: Cursor.Position, q: Query, end: nat)
    requires Growing(at, q) && ScanOf(at, n, after, q).page <= end
    ensures var page := PageAt(at, n, after, q);
      Stretch(q, page.rows, after.pos, page.next) && Exactly(at(end), q, page.rows, after.pos, page.next, (k: nat) => Passes(at, n, after, q, k))
  {
    var page, from := PageAt(at, n, after, q), StartOf(after.epoch, Some(after), Oldest(at(n), at(n + 1)));
    StartsBelow(at, n, after, 0);
    var out := ScanIsComplete(at, n + 2, q, from, [], from, 0);
    forall k: nat | k in at(end).rows && after.pos < k <= page.next && Wanted(q, at(end).rows[k])
      ensures Has(page.rows, k) <==> !Passes(at, n, after, q, k)
    {
      StartsBelow(at, n, after, k);
      if k > from {
        ScanHasIff(at, q, from, out, end, k);
      } else if Has(page.rows, k) {
        var r := HasIsIn(page.rows, k);
      }
    }
  }

  lemma PassesWithin(at: nat -> Snapshot, n: nat, after: Cursor.Position, q: Query, k: nat)
    requires Growing(at, q) && Passes(at, n, after, q, k)
    ensures after.pos < k <= PageAt(at, n, after, q).next
  {
    var from := StartOf(after.epoch, Some(after), Oldest(at(n), at(n + 1)));
    StartsBelow(at, n, after, k);
    var out := ScanIsComplete(at, n + 2, q, from, [], from, 0);
  }

  // ---------------------------------------------------------------- pull after pull

  lemma StretchesJoin(q: Query, a: seq<Row>, b: seq<Row>, from: nat, mid: nat, to: nat)
    requires Stretch(q, a, from, mid) && Stretch(q, b, mid, to)
    ensures Stretch(q, a + b, from, to)
  {
    var all := a + b;
    forall i, j | 0 <= i < j < |all| ensures all[i].c.pos < all[j].c.pos {
      if i < |a| <= j { assert all[i] in a && all[j] in b; }
    }
  }

  lemma HasInOne(q: Query, a: seq<Row>, b: seq<Row>, from: nat, mid: nat, to: nat, k: nat)
    requires Stretch(q, a, from, mid) && Stretch(q, b, mid, to)
    ensures Has(a + b, k) <==> if k <= mid then Has(a, k) else Has(b, k)
  {
    if Has(a, k) || Has(b, k) { HasJoined(a, b, k); }
    if Has(a + b, k) {
      var i :| 0 <= i < |a + b| && (a + b)[i].c.pos == k;
      if i < |a| {
        assert a[i] in a && a[i].c.pos == k;
      } else {
        assert b[i - |a|] in b && b[i - |a|].c.pos == k;
      }
    }
  }

  lemma {:induction false} PassedWithin(at: nat -> Snapshot, starts: seq<nat>, start: Cursor.Position, q: Query, k: nat)
    requires Growing(at, q) && Passed(at, starts, start, q, k)
    ensures start.pos < k <= Pulls(at, starts, start, q).next.pos
  {
    var front, n := starts[..|starts| - 1], starts[|starts| - 1];
    var feed := Pulls(at, front, start, q);
    CursorsRise(at, front, start, q);
    if Passed(at, front, start, q, k) {
      PassedWithin(at, front, start, q, k);
      OnePull(at, n, feed.next, q, ScanOf(at, n, feed.next, q).page);
    } else {
      PassesWithin(at, n, feed.next, q, k);
    }
  }

  lemma {:induction false} CursorsRise(at: nat -> Snapshot, starts: seq<nat>, start: Cursor.Position, q: Query)
    requires Growing(at, q)
    ensures var feed := Pulls(at, starts, start, q); Stretch(q, feed.rows, start.pos, feed.next.pos) && feed.next.epoch == start.epoch
  {
    if starts != [] {
      var front, n := starts[..|starts| - 1], starts[|starts| - 1];
      var feed := Pulls(at, front, start, q);
      CursorsRise(at, front, start, q);
      OnePull(at, n, feed.next, q, ScanOf(at, n, feed.next, q).page);
      var page := PageAt(at, n, feed.next, q);
      StretchesJoin(q, feed.rows, page.rows, start.pos, feed.next.pos, page.next);
    }
  }

  /**
   Whatever is committed, pruned or redacted between any two statements of any pull: the pulls return events in order, each once,
   and of the events still stored up to the last cursor they lack exactly those a pull passed.
   */
  lemma {:induction false} PullsMissExactly(at: nat -> Snapshot, starts: seq<nat>, start: Cursor.Position, q: Query, end: nat)
    requires Growing(at, q) && Over(at, starts, start, q, end)
    ensures var feed := Pulls(at, starts, start, q);
      && Stretch(q, feed.rows, start.pos, feed.next.pos)
      && Exactly(at(end), q, feed.rows, start.pos, feed.next.pos, (k: nat) => Passed(at, starts, start, q, k))
  {
    CursorsRise(at, starts, start, q);
    if starts != [] {
      var front, n := starts[..|starts| - 1], starts[|starts| - 1];
      var feed := Pulls(at, front, start, q);
      var page := PageAt(at, n, feed.next, q);
      CursorsRise(at, front, start, q);
      PullsMissExactly(at, front, start, q, end);
      OnePull(at, n, feed.next, q, end);
      forall k: nat | k in at(end).rows && start.pos < k <= page.next && Wanted(q, at(end).rows[k])
        ensures Has(feed.rows + page.rows, k) <==> !Passed(at, starts, start, q, k)
      {
        HasInOne(q, feed.rows, page.rows, start.pos, feed.next.pos, page.next, k);
        if Passed(at, front, start, q, k) { PassedWithin(at, front, start, q, k); }
        if Passes(at, n, feed.next, q, k) { PassesWithin(at, n, feed.next, q, k); }
      }
    }
  }

  // ---------------------------------------------------------------- when nothing is passed

  /** No position is handed out from the pull's first statement to its last. */
  predicate Undisturbed(at: nat -> Snapshot, n: nat, after: Cursor.Position, q: Query) {
    at(ScanOf(at, n, after, q).page + 1).head == at(n).head
  }

  predicate Quiet(at: nat -> Snapshot, starts: seq<nat>, start: Cursor.Position, q: Query) {
    starts == [] ||
    (var front, n := starts[..|starts| - 1], starts[|starts| - 1];
     Quiet(at, front, start, q) && Undisturbed(at, n, Pulls(at, front, start, q).next, q))
  }

  /** With no commit between its two reads, a gap covers nothing that is stored later. */
  lemma NotInGap(at: nat -> Snapshot, n: nat, after: Cursor.Position, q: Query, end: nat, k: nat)
    requires Growing(at, q) && n < end && at(n + 1).head == at(n).head && k in at(end).rows
    ensures !InGap(PageAt(at, n, after, q).gap, k)
  {
    HeadsRise(at, q, n, end);
    HeadsRise(at, q, n, n + 1);
    LeastIsFirst(at(n), 0);
    if k <= at(n).head { assert k in at(n).rows; }
  }

  lemma HeadsStay(at: nat -> Snapshot, q: Query, n: nat, m: nat, last: nat)
    requires Growing(at, q) && n <= m <= last && at(last).head == at(n).head
    ensures at(m).head == at(n).head
  {
    HeadsRise(at, q, n, m);
    HeadsRise(at, q, m, last);
  }

  lemma CursorIsSeen(at: nat -> Snapshot, n: nat, after: Cursor.Position, q: Query)
    requires Growing(at, q)
    ensures var out, from := ScanOf(at, n, after, q), StartOf(after.epoch, Some(after), Oldest(at(n), at(n + 1)));
      out.page >= n + 2 && (out.cursor <= at(out.page + 1).head || out.cursor == from)
  {
    var from := StartOf(after.epoch, Some(after), Oldest(at(n), at(n + 1)));
    ScanBounds(at, n + 2, q, from);
    PagesForward(at, n + 2, q, [], from, 0);
    var page := ScanFrom(at, n + 2, q, [], from, 0).page;
    HeadsRise(at, q, page, page + 1);
  }

  lemma ScanBounds(at: nat -> Snapshot, n: nat, q: Query, from: nat)
    requires Growing(at, q)
    ensures var out := ScanFrom(at, n, q, [], from, 0);
      out.cursor <= at(out.page).head || out.cursor == from || out.cursor == at(out.page + 1).head
  {
    var out := ScanIsComplete(at, n, q, from, [], from, 0);
  }

  lemma QuietPassesNothing(at: nat -> Snapshot, n: nat, after: Cursor.Position, q: Query, end: nat, k: nat)
    requires Growing(at, q) && Ends(at, n, after, q, end) && Undisturbed(at, n, after, q) && k in at(end).rows
    ensures !Passes(at, n, after, q, k)
  {
    var page := ScanOf(at, n, after, q).page;
    CursorIsSeen(at, n, after, q);
    HeadsStay(at, q, n, n + 1, page + 1);
    HeadsStay(at, q, n, page, page + 1);
    NotInGap(at, n, after, q, end, k);
    StartsBelow(at, n, after, k);
  }

  lemma {:induction false} QuietlyPassed(at: nat -> Snapshot, starts: seq<nat>, start: Cursor.Position, q: Query, end: nat, k: nat)
    requires Growing(at, q) && Over(at, starts, start, q, end) && Quiet(at, starts, start, q)
    requires k in at(end).rows
    ensures !Passed(at, starts, start, q, k)
  {
    if starts != [] {
      var front, n := starts[..|starts| - 1], starts[|starts| - 1];
      QuietlyPassed(at, front, start, q, end, k);
      QuietPassesNothing(at, n, Pulls(at, front, start, q).next, q, end, k);
    }
  }

  /** When no event is committed during a pull, however the store changes between pulls, no event still stored is missed. */
  lemma PullsMissNothing(at: nat -> Snapshot, starts: seq<nat>, start: Cursor.Position, q: Query, end: nat)
    requires Growing(at, q) && Over(at, starts, start, q, end) && Quiet(at, starts, start, q)
    ensures var feed := Pulls(at, starts, start, q); NothingMissed(at(end), q, start.pos, feed.rows, feed.next.pos)
  {
    var feed := Pulls(at, starts, start, q);
    PullsMissExactly(at, starts, start, q, end);
    forall k | k in at(end).rows && start.pos < k <= feed.next.pos && Wanted(q, at(end).rows[k]) ensures Has(feed.rows, k) {
      QuietlyPassed(at, starts, start, q, end, k);
    }
  }

  // ---------------------------------------------------------------- one log

  /** Nothing pruned, nothing redacted. */
  predicate OnlyAppends(s: Snapshot, t: Snapshot) {
    && s.head <= t.head && s.rows.Keys <= t.rows.Keys
    && forall k | k in t.rows && k <= s.head :: k in s.rows && s.rows[k] == t.rows[k]
  }

  ghost predicate Appending(at: nat -> Snapshot) {
    && (forall i: nat {:trigger Sane(at(i))} :: Sane(at(i)))
    && (forall i: nat, j: nat {:trigger OnlyAppends(at(i), at(j))} | i <= j :: OnlyAppends(at(i), at(j)))
  }

  lemma AppendingGrows(at: nat -> Snapshot, q: Query)
    requires Appending(at)
    ensures Growing(at, q)
  {
    forall i, j | 0 <= i <= j ensures LaterTo(q, at(i), at(j)) { assert OnlyAppends(at(i), at(j)); }
  }

  lemma {:induction false} FeedIsSeen(at: nat -> Snapshot, starts: seq<nat>, start: Cursor.Position, q: Query, end: nat)
    requires Appending(at) && Over(at, starts, start, q, end)
    ensures forall r | r in Pulls(at, starts, start, q).rows :: SeenAt(at(end), r)
  {
    if starts != [] {
      var front, n := starts[..|starts| - 1], starts[|starts| - 1];
      FeedIsSeen(at, front, start, q, end);
      PageIsSeen(at, n, Pulls(at, front, start, q).next, q, end);
    }
  }

  lemma PageIsSeen(at: nat -> Snapshot, n: nat, after: Cursor.Position, q: Query, end: nat)
    requires Appending(at) && Ends(at, n, after, q, end)
    ensures forall r | r in PageAt(at, n, after, q).rows :: SeenAt(at(end), r)
  {
    AppendingGrows(at, q);
    var from := StartOf(after.epoch, Some(after), Oldest(at(n), at(n + 1)));
    var out := ScanIsComplete(at, n + 2, q, from, [], from, 0);
    forall r | r in out.rows ensures SeenAt(at(end), r) {
      var j :| 0 <= j < out.page + 1 && SeenAt(at(j), r);
      assert Sane(at(j)) && OnlyAppends(at(j), at(end));
    }
  }

  /** Over a store that only grows repeated pulls are the one filtered log exactly when no pull passes a wanted event of it. */
  lemma PullsAreOneLogIff(at: nat -> Snapshot, starts: seq<nat>, start: Cursor.Position, q: Query, end: nat)
    requires Appending(at) && Over(at, starts, start, q, end)
    ensures var feed := Pulls(at, starts, start, q);
      feed.rows == Select(q, Span(at(end).rows, start.pos, feed.next.pos)) <==>
        forall k: nat | k in at(end).rows && Wanted(q, at(end).rows[k]) :: !Passed(at, starts, start, q, k)
  {
    AppendingGrows(at, q);
    var feed := Pulls(at, starts, start, q);
    PullsMissExactly(at, starts, start, q, end);
    FeedIsSeen(at, starts, start, q, end);
    assert Sane(at(end));
    if forall k: nat | k in at(end).rows && Wanted(q, at(end).rows[k]) :: !Passed(at, starts, start, q, k) {
      IsTheSelection(at(end), q, start.pos, feed.rows, feed.next.pos);
    } else if feed.rows == Select(q, Span(at(end).rows, start.pos, feed.next.pos)) {
      var k: nat :| k in at(end).rows && Wanted(q, at(end).rows[k]) && Passed(at, starts, start, q, k);
      PassedWithin(at, starts, start, q, k);
      SelectionHas(at(end), q, start.pos, feed.next.pos, k);
    }
  }

  lemma SelectionHas(s: Snapshot, q: Query, from: nat, to: nat, k: nat)
    requires Sane(s) && k in s.rows && from < k <= to && Wanted(q, s.rows[k])
    ensures Has(Select(q, Span(s.rows, from, to)), k)
  {
    SpanIsSorted(s, from, to);
    SelectIn(q, Span(s.rows, from, to));
    var rows := Select(q, Span(s.rows, from, to));
    var i :| 0 <= i < |rows| && rows[i] == s.rows[k];
    assert rows[i].c.pos == k;
  }
}
