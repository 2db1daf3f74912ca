/** Pull consumers: a page resumed from a cursor, the gap it reports, and what repeated pulls add up to. */
module Pull {
  import opened Wrappers
  import opened Archive
  import opened Scan
  import Apps
  import Cursor
  import Redaction

  // ---------------------------------------------------------------- who may see what

  datatype Principal = App(scope: Apps.Scope) | Service

  /** The reader's row filter. */
  predicate AcceptFor(who: Principal, patterns: seq<string>, r: Row) {
    match who
    case App(scope) => Apps.VisibleToApp(Apps.AudienceOf(r), scope.projectId, scope.env)
    case Service => exists i | 0 <= i < |patterns| :: Apps.ServiceMatches(patterns[i], Apps.AudienceOf(r))
  }

  function QueryOf(who: Principal, patterns: seq<string>, limit: nat): Query {
    Query(patterns, r => AcceptFor(who, patterns, r), limit, 5000)
  }

  lemma PullsNeverReveal(who: Principal, patterns: seq<string>, limit: nat)
    ensures NeverReveals(QueryOf(who, patterns, limit))
  {
    var q := QueryOf(who, patterns, limit);
    forall r, name, at | q.accept(Redaction.Tombstone(r, name, at)) ensures q.accept(r) {
      assert Apps.AudienceOf(Redaction.Tombstone(r, name, at)) == Apps.AudienceOf(r);
    }
  }

  // ---------------------------------------------------------------- one pull

  function LeastFrom(s: Snapshot, k: nat): nat
    decreases s.head + 1 - k
  {
    if k > s.head || k in s.rows then k else LeastFrom(s, k + 1)
  }

  lemma {:induction false} LeastIsFirst(s: Snapshot, k: nat)
    requires Sane(s)
    ensures var m := LeastFrom(s, k); m >= k && (m > s.head || m in s.rows) && forall i | i in s.rows && i >= k :: m <= i
    decreases s.head + 1 - k
  {
    if k <= s.head && k !in s.rows { LeastIsFirst(s, k + 1); }
  }

  /** The oldest position stored; when none is, the next to be handed out, read in one more statement. */
  function Oldest(s: Snapshot, t: Snapshot): nat { if s.rows == map[] then t.head + 1 else LeastFrom(s, 0) }

  function Below(k: nat): nat { if k == 0 then 0 else k - 1 }

  datatype Gap = Gap(from: nat, to: nat)

  datatype Page = Page(gap: Option<Gap>, rows: seq<Row>, next: nat, latest: nat)

  function PosOf(after: Option<Cursor.Position>): nat { if after.Some? then after.value.pos else 0 }

  /** The cursor belongs to another epoch. */
  predicate Stale(epoch: nat, after: Option<Cursor.Position>) { after.Some? && after.value.epoch != epoch }

  function GapOf(epoch: nat, after: Option<Cursor.Position>, oldest: nat): Option<Gap> {
    if Stale(epoch, after) then Some(Gap(1, Below(oldest)))
    else if PosOf(after) + 1 < oldest then Some(Gap(PosOf(after) + 1, oldest - 1))
    else None
  }

  function StartOf(epoch: nat, after: Option<Cursor.Position>, oldest: nat): nat {
    var gap := GapOf(epoch, after, oldest);
    if gap.Some? then gap.value.to else PosOf(after)
  }

  function PageOf(at: nat -> Snapshot, gap: Option<Gap>, out: Scanned): Page { Page(gap, out.rows, out.cursor, at(out.page + 2).head) }

  /** A pull whose first statement is the n-th. */
  function PullAt(at: nat -> Snapshot, n: nat, epoch: nat, after: Option<Cursor.Position>, q: Query): Page {
    var oldest := Oldest(at(n), at(n + 1));
    PageOf(at, GapOf(epoch, after, oldest), ScanFrom(at, n + 2, q, [], StartOf(epoch, after, oldest), 0))
  }

  /** Where the page starts, and what it must say is missing. */
  method Resume(epoch: nat, after: Option<Cursor.Position>, oldest: nat) returns (gap: Option<Gap>, from: nat)
    ensures gap == GapOf(epoch, after, oldest) && from == StartOf(epoch, after, oldest)
  {
    var position := 0;
    var epochMismatch := false;
    if after.Some? {
      position := after.value.pos;
      epochMismatch := after.value.epoch != epoch;
    }
    gap, from := None, position;
    if epochMismatch {
      gap, from := Some(Gap(1, Below(oldest))), Below(oldest);
    } else if position + 1 < oldest {
      gap, from := Some(Gap(position + 1, oldest - 1)), oldest - 1;
    }
  }

  method Pull(at: nat -> Snapshot, n: nat, epoch: nat, after: Option<Cursor.Position>, q: Query) returns (page: Page)
    ensures page == PullAt(at, n, epoch, after, q)
  {
    var oldest := Oldest(at(n), at(n + 1));
    var gap, from := Resume(epoch, after, oldest);
    var out := Scan.Scan(at, n + 2, from, q);
    page := PageOf(at, gap, out);
  }

  predicate InGap(gap: Option<Gap>, k: nat) { gap.Some? && gap.value.from <= k <= gap.value.to }

  /**
   A gap names exactly the positions above the cursor, or from 1 on for a cursor of another epoch, that lie below the oldest stored
   event, or up to the head when nothing is stored; no stored event lies in it.
   */
  lemma GapIsExact(at: nat -> Snapshot, n: nat, epoch: nat, after: Option<Cursor.Position>, q: Query)
    requires Growing(at, q)
    ensures var page, s := PullAt(at, n, epoch, after, q), at(n);
      && (forall k | k in s.rows :: !InGap(page.gap, k))
      && (forall k: nat | InGap(page.gap, k) && !Stale(epoch, after) :: k > PosOf(after))
      && (s.rows != map[] && page.gap.Some? && page.gap.value.to > 0 ==> page.gap.value.to + 1 in s.rows)
      && (!Stale(epoch, after) && s.rows != map[] ==> (page.gap.Some? <==> forall k | k in s.rows :: k > PosOf(after) + 1))
      && (forall k: nat | k > 0 && s.rows != map[] ::
            InGap(page.gap, k) <==> (Stale(epoch, after) || k > PosOf(after)) && forall j | j in s.rows :: k < j)
      && (forall k: nat | k > 0 && s.rows == map[] :: InGap(page.gap, k) <==> (Stale(epoch, after) || k > PosOf(after)) && k <= at(n + 1).head)
  {
    assert Sane(at(n)) && LaterTo(q, at(n), at(n + 1));
    LeastIsFirst(at(n), 0);
  }

  /** The one way a gap can cover an event: the store was empty when its oldest was read, and the event came before the head was. */
  lemma GapHidesIff(at: nat -> Snapshot, n: nat, epoch: nat, after: Option<Cursor.Position>, q: Query, k: nat)
    requires Growing(at, q) && k in at(n + 1).rows && k > 0 && (Stale(epoch, after) || k > PosOf(after))
    ensures InGap(PullAt(at, n, epoch, after, q).gap, k) <==> at(n).rows == map[]
  {
    assert Sane(at(n)) && Sane(at(n + 1)) && LaterTo(q, at(n), at(n + 1));
    LeastIsFirst(at(n), 0);
  }

  /** Every wanted event above the cursor and up to the next one is on the page or in its gap, as its last page statement saw the store. */
  lemma PullIsComplete(at: nat -> Snapshot, n: nat, epoch: nat, after: Option<Cursor.Position>, q: Query, k: nat)
    requires Growing(at, q) && k > 0 && (Stale(epoch, after) || k > PosOf(after))
    ensures var from := StartOf(epoch, after, Oldest(at(n), at(n + 1)));
      var page, seen := PullAt(at, n, epoch, after, q), at(ScanFrom(at, n + 2, q, [], from, 0).page);
      k in seen.rows && Wanted(q, seen.rows[k]) && k <= page.next ==> InGap(page.gap, k) || Has(page.rows, k)
  {
    var from := StartOf(epoch, after, Oldest(at(n), at(n + 1)));
    var out := ScanIsComplete(at, n + 2, q, from, [], from, 0);
    assert Sane(at(out.page));
  }

  // ---------------------------------------------------------------- a pull moves on

  /** A pull that meets no commit in between: one snapshot. */
  function PullOnce(s: Snapshot, epoch: nat, after: Cursor.Position, q: Query): Page { PullAt(_ => s, 0, epoch, Some(after), q) }

  lemma ConstantGrows(s: Snapshot, q: Query)
    requires Sane(s)
    ensures Growing(_ => s, q)
  {
  }

  lemma {:induction false} ScanAdvances(at: nat -> Snapshot, n: nat, q: Query, rows: seq<Row>, cursor: nat, scanned: nat)
    requires Growing(at, q) && |rows| < q.limit && scanned < q.scanMax
    ensures var out := ScanFrom(at, n, q, rows, cursor, scanned); out.cursor >= cursor && (out.end.AtLimit? ==> out.cursor > cursor)
    decreases q.scanMax - scanned
  {
    var page, taken := Fetch(at(n), Narrowing(q), cursor, PAGE), Taken(at(n), q, |rows|, cursor, scanned);
    var more, next, seen := rows + Select(q, taken), LastOf(taken, cursor), scanned + |taken|;
    assert Sane(at(n));
    FetchIsSound(at(n), Narrowing(q), cursor, PAGE);
    ScanUnfolds(at, n, q, rows, cursor, scanned, more, next, seen);
    if |more| < q.limit && seen < q.scanMax && |page| >= PAGE { ScanAdvances(at, n + 1, q, more, next, seen); }
  }

  /** A consumer that keeps pulling gets past everything: its cursor moves, or nothing is stored above it. */
  lemma PullMovesOn(s: Snapshot, epoch: nat, after: Cursor.Position, q: Query)
    requires Sane(s) && after.epoch == epoch && q.limit > 0 && q.scanMax > 0
    ensures PullOnce(s, epoch, after, q).next > after.pos || forall k | k in s.rows :: k <= after.pos
  {
    var at: nat -> Snapshot := _ => s;
    var from := StartOf(epoch, Some(after), Oldest(s, s));
    ConstantGrows(s, q);
    ScanAdvances(at, 2, q, [], from, 0);
    var out := ScanIsComplete(at, 2, q, from, [], from, 0);
  }
}
