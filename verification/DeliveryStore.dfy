/** The store's delivery methods. A transaction runs alone; `locked` are the subscriptions whose row lock another one holds. */
module DeliveryStore {
  import opened Wrappers
  import opened Deliveries
  import opened ClaimRanking
  import DeliverySafety
  import ReadyRows

  predicate Sorted(q: Queue, list: seq<Candidate>) {
    && (forall i | 0 <= i < |list| :: list[i].best in q.rows)
    && forall i, j | 0 <= i < j < |list| :: Before(q.rows[list[i].best], q.rows[list[j].best])
  }

  predicate Sound(q: Queue, c: Candidate, app: bool, now: int, locked: set<string>) {
    Eligible(q, c.sub, app, now, locked) && Best(q, c.best, now) && c.best.sub == c.sub
  }

  predicate OnePerSub(pool: set<Candidate>) { forall c, d | c in pool && d in pool && c.sub == d.sub :: c == d }

  /** The `next` query: a best claimable row of `sub`. */
  method BestRow(q: Queue, sub: string, now: int) returns (r: Option<RowId>)
    ensures r.Some? ==> Best(q, r.value, now) && r.value.sub == sub
    ensures r.None? ==> forall x | x in q.rows && x.sub == sub :: !Claimable(q, x, now)
  {
    r := None;
    var todo := q.rows.Keys;
    while todo != {}
      invariant todo <= q.rows.Keys
      invariant r.Some? ==> Claimable(q, r.value, now) && r.value.sub == sub
      invariant forall x | x in q.rows && x !in todo && x.sub == sub && Claimable(q, x, now) ::
                  r.Some? && Before(q.rows[r.value], q.rows[x])
      decreases todo
    {
      var x :| x in todo;
      todo := todo - {x};
      if x.sub == sub && Claimable(q, x, now) && (r.None? || Before(q.rows[x], q.rows[r.value])) {
        r := Some(x);
      }
    }
  }

  /** The best-ranked of `pool`. */
  method First(q: Queue, pool: set<Candidate>) returns (r: Candidate)
    requires pool != {} && forall c | c in pool :: c.best in q.rows
    ensures r in pool && forall c | c in pool :: Before(q.rows[r.best], q.rows[c.best])
  {
    r :| r in pool;
    var todo := pool - {r};
    while todo != {}
      invariant todo <= pool && r in pool
      invariant forall c | c in pool && c !in todo :: Before(q.rows[r.best], q.rows[c.best])
      decreases todo
    {
      var c :| c in todo;
      todo := todo - {c};
      if Before(q.rows[c.best], q.rows[r.best]) { r := c; }
    }
  }

  /** ORDER BY p, q LIMIT n. */
  method Ranked(q: Queue, pool: set<Candidate>, n: nat) returns (list: seq<Candidate>)
    requires OnePerSub(pool) && forall c | c in pool :: c.best in q.rows
    ensures |list| <= n && Sorted(q, list) && Distinct(list)
    ensures forall i | 0 <= i < |list| :: list[i] in pool
    ensures |list| < n || n >= |pool| ==> forall c | c in pool :: c.sub in Subs(list)
    ensures forall c, i | c in pool && c.sub !in Subs(list) && 0 <= i < |list| :: Before(q.rows[list[i].best], q.rows[c.best])
  {
    list := [];
    var rest := pool;
    while |list| < n && rest != {}
      invariant rest <= pool && |list| <= n && |list| + |rest| == |pool| && Sorted(q, list)
      invariant forall i | 0 <= i < |list| :: list[i] in pool && list[i] !in rest
      invariant forall i, j | 0 <= i < j < |list| :: list[i] != list[j]
      invariant forall c | c in pool :: c in rest || c in list
      invariant forall c, i | c in rest && 0 <= i < |list| :: Before(q.rows[list[i].best], q.rows[c.best])
      decreases rest
    {
      var c := First(q, rest);
      SortedNext(q, list, c);
      list := list + [c];
      rest := rest - {c};
    }
    ListedSubs(pool, list);
  }

  lemma SortedNext(q: Queue, list: seq<Candidate>, c: Candidate)
    requires Sorted(q, list) && c.best in q.rows && forall i | 0 <= i < |list| :: Before(q.rows[list[i].best], q.rows[c.best])
    ensures Sorted(q, list + [c])
  {
  }

  lemma ListedSubs(pool: set<Candidate>, list: seq<Candidate>)
    requires OnePerSub(pool) && forall i | 0 <= i < |list| :: list[i] in pool
    requires forall i, j | 0 <= i < j < |list| :: list[i] != list[j]
    ensures Distinct(list) && forall c | c in list :: c.sub in Subs(list)
  {
  }

  /** The answer of the candidate query: the `n` best-ranked eligible subscriptions of one kind. */
  ghost predicate Queried(q: Queue, list: seq<Candidate>, app: bool, n: int, now: int, locked: set<string>) {
    && (forall i | 0 <= i < |list| :: Sound(q, list[i], app, now, locked))
    && Sorted(q, list) && Distinct(list)
    && (|list| < n ==> forall sub | Eligible(q, sub, app, now, locked) :: sub in Subs(list))
    && (forall sub, b, i | Eligible(q, sub, app, now, locked) && sub !in Subs(list)
          && b in q.rows && b.sub == sub && Best(q, b, now) && 0 <= i < |list| :: Before(q.rows[list[i].best], q.rows[b]))
  }

  /** The candidate query. */
  method Candidates(q: Queue, app: bool, n: int, now: int, locked: set<string>) returns (list: seq<Candidate>)
    ensures |list| <= if n <= 0 then 0 else n
    ensures Queried(q, list, app, n, now, locked)
  {
    list := [];
    if n <= 0 { return; }
    var pool := AllEligible(q, app, now, locked);
    list := Ranked(q, pool, n);
    RankedIsQueried(q, pool, list, app, n, now, locked);
  }

  /** FROM subscriptions WHERE …: every eligible subscription with its best row. */
  method AllEligible(q: Queue, app: bool, now: int, locked: set<string>) returns (pool: set<Candidate>)
    ensures OnePerSub(pool) && forall c | c in pool :: c.best in q.rows && Sound(q, c, app, now, locked)
    ensures forall sub | Eligible(q, sub, app, now, locked) :: exists c | c in pool :: c.sub == sub
  {
    pool := {};
    var todo := q.subs.Keys;
    while todo != {}
      invariant todo <= q.subs.Keys && OnePerSub(pool)
      invariant forall c | c in pool :: c.best in q.rows && Sound(q, c, app, now, locked) && c.sub !in todo
      invariant forall sub | Eligible(q, sub, app, now, locked) && sub !in todo :: exists c | c in pool :: c.sub == sub
      decreases todo
    {
      var sub :| sub in todo;
      todo := todo - {sub};
      var c := CandidateOf(q, sub, app, now, locked);
      if c.Some? { pool := pool + {c.value}; }
    }
  }

  method CandidateOf(q: Queue, sub: string, app: bool, now: int, locked: set<string>) returns (c: Option<Candidate>)
    requires sub in q.subs
    ensures c.Some? <==> Eligible(q, sub, app, now, locked)
    ensures c.Some? ==> c.value.sub == sub && c.value.best in q.rows && Sound(q, c.value, app, now, locked)
  {
    var best := BestRow(q, sub, now);
    c := if q.subs[sub].enabled && q.subs[sub].app == app && sub !in locked && best.Some? && Room(q, sub, now)
    then Some(Candidate(sub, best.value)) else None;
  }

  lemma RankedIsQueried(q: Queue, pool: set<Candidate>, list: seq<Candidate>, app: bool, n: int, now: int, locked: set<string>)
    requires forall c | c in pool :: c.best in q.rows && Sound(q, c, app, now, locked)
    requires forall sub | Eligible(q, sub, app, now, locked) :: exists c | c in pool :: c.sub == sub
    requires Sorted(q, list) && Distinct(list) && forall i | 0 <= i < |list| :: list[i] in pool
    requires |list| < n ==> forall c | c in pool :: c.sub in Subs(list)
    requires forall c, i | c in pool && c.sub !in Subs(list) && 0 <= i < |list| :: Before(q.rows[list[i].best], q.rows[c.best])
    ensures Queried(q, list, app, n, now, locked)
  {
    forall sub, b, i | Eligible(q, sub, app, now, locked) && sub !in Subs(list)
      && b in q.rows && b.sub == sub && Best(q, b, now) && 0 <= i < |list|
      ensures Before(q.rows[list[i].best], q.rows[b])
    {
      var c :| c in pool && c.sub == sub;
      assert Sound(q, c, app, now, locked);
      assert Before(q.rows[list[i].best], q.rows[c.best]) && Before(q.rows[c.best], q.rows[b]);
    }
  }

  /** The two candidate lists in one, by rank. */
  method Merge(q: Queue, first: seq<Candidate>, second: seq<Candidate>) returns (list: seq<Candidate>)
    requires Sorted(q, first) && Sorted(q, second) && Distinct(first) && Distinct(second)
    requires forall i, j | 0 <= i < |first| && 0 <= j < |second| :: first[i].sub != second[j].sub
    ensures Sorted(q, list) && Distinct(list)
    ensures forall i | 0 <= i < |list| :: list[i] in first || list[i] in second
    ensures Subs(first) <= Subs(list) && Subs(second) <= Subs(list)
  {
    var pool := (set c | c in first) + (set c | c in second);
    MergedPool(first, second, pool);
    list := Ranked(q, pool, |pool|);
    SubsListed(first, pool, list);
    SubsListed(second, pool, list);
  }

  lemma MergedPool(first: seq<Candidate>, second: seq<Candidate>, pool: set<Candidate>)
    requires Distinct(first) && Distinct(second)
    requires forall i, j | 0 <= i < |first| && 0 <= j < |second| :: first[i].sub != second[j].sub
    requires forall c | c in pool :: c in first || c in second
    ensures OnePerSub(pool)
  {
    forall c, d | c in pool && d in pool && c.sub == d.sub ensures c == d {
      OneEach(first, c, d);
      OneEach(second, c, d);
    }
  }

  lemma SubsListed(part: seq<Candidate>, pool: set<Candidate>, list: seq<Candidate>)
    requires forall c | c in part :: c in pool
    requires forall c | c in pool :: c.sub in Subs(list)
    ensures Subs(part) <= Subs(list)
  {
  }

  lemma OneEach(list: seq<Candidate>, c: Candidate, d: Candidate)
    requires Distinct(list) && c.sub == d.sub
    ensures c in list && d in list ==> c == d
  {
    if c in list && d in list {
      var i :| 0 <= i < |list| && list[i] == c;
      var j :| 0 <= j < |list| && list[j] == d;
    }
  }

  /** The arguments of one claim. */
  datatype Terms = Terms(now: int, limit: int, maxApp: int, owner: string, until: int, locked: set<string>) {
    function AppCap(): int { if maxApp < 0 then 0 else maxApp }

    function AppShare(): int { if AppCap() < limit then AppCap() else limit }
  }

  /** The best rows of the one subscription come before those of the other. */
  predicate RanksBefore(q: Queue, served: string, sub: string, now: int) {
    forall b, c | b in q.rows && b.sub == served && Best(q, b, now) && c in q.rows && c.sub == sub && Best(q, c, now) ::
      Before(q.rows[b], q.rows[c])
  }

  /** Passed over: an eligible first-party subscription not served ranks after every first-party one that was. */
  ghost predicate RankRespected(q: Queue, picks: seq<RowId>, t: Terms) {
    forall served, sub | served in SubsOf(picks) && Servable(q, served, false, t.locked)
      && Eligible(q, sub, false, t.now, t.locked) && sub !in SubsOf(picks) :: RanksBefore(q, served, sub, t.now)
  }

  /** What a claim pass did: `picks` are the rows it leased, `q` and `q'` the tables before and after. */
  ghost predicate Pass(q: Queue, q': Queue, picks: seq<RowId>, t: Terms) {
    && Granted(q, picks, t.now, t.owner, t.until) && q' == LeaseAll(q, picks, t.owner, t.until)
    && (forall i, j | 0 <= i < j < |picks| :: picks[i] != picks[j])
    && (forall sub | sub in SubsOf(picks) :: sub in q.subs && q.subs[sub].enabled && sub !in t.locked)
    && |picks| <= t.limit && |AppPicks(q, picks)| <= t.AppCap()
    && (|picks| < t.limit ==> forall sub | Servable(q, sub, false, t.locked) :: Drained(q', sub, t.now))
    && (|picks| < t.limit && |AppPicks(q, picks)| < t.maxApp ==> forall sub | Servable(q, sub, true, t.locked) :: Drained(q', sub, t.now))
    && RankRespected(q, picks, t)
  }

  /** The merged list: a candidate per subscription, by rank. */
  ghost predicate Listed(q: Queue, list: seq<Candidate>, t: Terms) {
    && Sorted(q, list) && Distinct(list)
    && (forall i | 0 <= i < |list| :: list[i].sub in q.subs && Sound(q, list[i], q.subs[list[i].sub].app, t.now, t.locked))
  }

  /** After the pass came to `sub`: it was served and drained, unless a limit was reached. */
  ghost predicate Visited(q: Queue, picks: seq<RowId>, sub: string, t: Terms)
    requires AllIn(q, picks)
  {
    && sub in q.subs
    && (sub in SubsOf(picks) || AppsFull(q, picks, sub, t))
    && (|picks| >= t.limit || AppsFull(q, picks, sub, t) || Drained(LeaseAll(q, picks, t.owner, t.until), sub, t.now))
  }

  predicate AppsFull(q: Queue, picks: seq<RowId>, sub: string, t: Terms) {
    sub in q.subs && q.subs[sub].app && |AppPicks(q, picks)| >= t.maxApp
  }

  /** The pass has come to the first `i` candidates. */
  ghost predicate Progress(q: Queue, list: seq<Candidate>, i: nat, picks: seq<RowId>, t: Terms) {
    && i <= |list| && Granted(q, picks, t.now, t.owner, t.until)
    && |picks| <= t.limit && |AppPicks(q, picks)| <= t.AppCap()
    && SubsOf(picks) <= Subs(list[..i])
    && (forall k | 0 <= k < i :: Visited(q, picks, list[k].sub, t))
  }

  lemma NotYetServed(list: seq<Candidate>, i: nat)
    requires i < |list| && Distinct(list)
    ensures list[i].sub !in Subs(list[..i])
    ensures Subs(list[..i + 1]) == Subs(list[..i]) + {list[i].sub}
    ensures forall k | 0 <= k < i :: list[k].sub != list[i].sub
  {
    assert list[..i + 1] == list[..i] + [list[i]];
    SubsGrow(list[..i], list[i]);
  }

  /** A subscription none of whose rows was picked is as it was at the start. */
  lemma Untouched(q: Queue, picks: seq<RowId>, t: Terms, sub: string)
    requires AllIn(q, picks) && sub !in SubsOf(picks)
    ensures Drained(LeaseAll(q, picks, t.owner, t.until), sub, t.now) == Drained(q, sub, t.now)
  {
    assert forall i | 0 <= i < |picks| :: picks[i].sub in SubsOf(picks);
    OthersDoNotMatter(q, picks, t.owner, t.until, sub);
    OwnRowsDecide(q, LeaseAll(q, picks, t.owner, t.until), sub, t.now);
  }

  lemma VisitedStays(q: Queue, picks: seq<RowId>, more: seq<RowId>, sub: string, t: Terms)
    requires AllIn(q, picks + more) && AllIn(q, picks) && AllIn(q, more) && Visited(q, picks, sub, t)
    requires sub !in SubsOf(more) && |AppPicks(q, picks)| <= |AppPicks(q, picks + more)|
    requires LeaseAll(q, picks + more, t.owner, t.until) == LeaseAll(LeaseAll(q, picks, t.owner, t.until), more, t.owner, t.until)
    ensures Visited(q, picks + more, sub, t)
  {
    SubsOfJoin(picks, more);
    Untouched(LeaseAll(q, picks, t.owner, t.until), more, t, sub);
  }

  lemma Grow(q: Queue, picks: seq<RowId>, more: seq<RowId>, sub: string, t: Terms)
    requires Granted(q, picks, t.now, t.owner, t.until) && Granted(LeaseAll(q, picks, t.owner, t.until), more, t.now, t.owner, t.until)
    requires sub in q.subs && more != [] && forall j | 0 <= j < |more| :: more[j].sub == sub
    ensures Granted(q, picks + more, t.now, t.owner, t.until)
    ensures LeaseAll(q, picks + more, t.owner, t.until) == LeaseAll(LeaseAll(q, picks, t.owner, t.until), more, t.owner, t.until)
    ensures |AppPicks(q, picks + more)| == |AppPicks(q, picks)| + if q.subs[sub].app then |more| else 0
  {
    GrantMore(q, picks, more, t.now, t.owner, t.until);
    LeaseAllJoins(q, picks, more, t.owner, t.until);
    AppPicksOfOne(q, picks, more, sub);
  }

  /** The pass serves one more subscription, up to its budget. */
  lemma Advance(q: Queue, list: seq<Candidate>, i: nat, picks: seq<RowId>, more: seq<RowId>, budget: int, t: Terms)
    requires Progress(q, list, i, picks, t) && i < |list| && Distinct(list)
    requires list[i].sub in q.subs && !Drained(q, list[i].sub, t.now)
    requires |picks| < t.limit && !AppsFull(q, picks, list[i].sub, t) && budget == Budget(q, picks, list[i].sub, t)
    requires var mid := LeaseAll(q, picks, t.owner, t.until);
      && Granted(mid, more, t.now, t.owner, t.until)
      && (forall j | 0 <= j < |more| :: more[j].sub == list[i].sub)
      && |more| <= budget
      && (|more| < budget ==> Drained(LeaseAll(mid, more, t.owner, t.until), list[i].sub, t.now))
      && (!Drained(mid, list[i].sub, t.now) ==> more != [])
    ensures Progress(q, list, i + 1, picks + more, t)
    ensures LeaseAll(q, picks + more, t.owner, t.until) == LeaseAll(LeaseAll(q, picks, t.owner, t.until), more, t.owner, t.until)
    ensures |AppPicks(q, picks + more)| == |AppPicks(q, picks)| + if q.subs[list[i].sub].app then |more| else 0
  {
    var sub, all := list[i].sub, picks + more;
    NotYetServed(list, i);
    Untouched(q, picks, t, sub);
    Grow(q, picks, more, sub, t);
    SubsOfOne(more, sub);
    SubsOfJoin(picks, more);
    forall k | 0 <= k < i ensures Visited(q, all, list[k].sub, t) {
      VisitedStays(q, picks, more, list[k].sub, t);
    }
    assert Visited(q, all, sub, t);
  }

  function Budget(q: Queue, picks: seq<RowId>, sub: string, t: Terms): int
    requires sub in q.subs
  {
    if q.subs[sub].app && t.maxApp - |AppPicks(q, picks)| < t.limit - |picks| then t.maxApp - |AppPicks(q, picks)| else t.limit - |picks|
  }

  lemma ListedIsEligible(q: Queue, list: seq<Candidate>, i: nat, t: Terms)
    requires Listed(q, list, t) && i < |list|
    ensures list[i].sub in q.subs && !Drained(q, list[i].sub, t.now) && Distinct(list)
  {
    assert Sound(q, list[i], q.subs[list[i].sub].app, t.now, t.locked);
  }

  lemma Skip(q: Queue, list: seq<Candidate>, i: nat, picks: seq<RowId>, t: Terms)
    requires Progress(q, list, i, picks, t) && i < |list| && Distinct(list)
    requires AppsFull(q, picks, list[i].sub, t)
    ensures Progress(q, list, i + 1, picks, t)
  {
    NotYetServed(list, i);
  }

  /** The pass drained the subscriptions of a kind it could serve: all candidates of the kind were served. */
  lemma KindDrained(q: Queue, list: seq<Candidate>, kind: seq<Candidate>, app: bool, n: int, served: seq<RowId>, picks: seq<RowId>, t: Terms)
    requires Progress(q, list, |list|, picks, t) && Queried(q, kind, app, n, t.now, t.locked)
    requires |picks| < t.limit && (app ==> |AppPicks(q, picks)| < t.maxApp)
    requires Subs(kind) <= Subs(list) && |served| < n
    requires forall s | s in SubsOf(picks) && s in q.subs && q.subs[s].app == app :: s in SubsOf(served)
    ensures forall sub | Servable(q, sub, app, t.locked) :: Drained(LeaseAll(q, picks, t.owner, t.until), sub, t.now)
  {
    assert list[..|list|] == list;
    forall s | s in Subs(kind) ensures s in SubsOf(served) {
      var k :| 0 <= k < |list| && list[k].sub == s;
      assert Visited(q, picks, list[k].sub, t);
      var j :| 0 <= j < |kind| && kind[j].sub == s;
      assert Sound(q, kind[j], app, t.now, t.locked);
    }
    ServedAreFew(kind, served);
    forall sub | Servable(q, sub, app, t.locked) ensures Drained(LeaseAll(q, picks, t.owner, t.until), sub, t.now) {
      if sub in Subs(list) {
        var k :| 0 <= k < |list| && list[k].sub == sub;
        assert Visited(q, picks, list[k].sub, t);
      } else {
        Untouched(q, picks, t, sub);
      }
    }
  }

  lemma FirstPartyServed(q: Queue, list: seq<Candidate>, i: nat, picks: seq<RowId>, t: Terms, k: nat)
    requires Progress(q, list, i, picks, t) && k < |list| && list[k].sub in q.subs && !q.subs[list[k].sub].app
    ensures k < i ==> list[k].sub in SubsOf(picks)
  {
    if k < i { assert Visited(q, picks, list[k].sub, t); }
  }

  lemma ServedFrom(q: Queue, list: seq<Candidate>, i: nat, picks: seq<RowId>, t: Terms, served: string) returns (h: nat)
    requires Progress(q, list, i, picks, t) && served in SubsOf(picks)
    ensures h < i && h < |list| && list[h].sub == served
  {
    h :| 0 <= h < i && list[h].sub == served;
  }

  /** A listed candidate's row ranks with every best row of its subscription. */
  lemma BestIsListed(q: Queue, list: seq<Candidate>, t: Terms, k: nat, b: RowId)
    requires Listed(q, list, t) && k < |list| && b in q.rows && b.sub == list[k].sub && Best(q, b, t.now)
    ensures list[k].best in q.rows && Before(q.rows[b], q.rows[list[k].best]) && Before(q.rows[list[k].best], q.rows[b])
  {
    assert Sound(q, list[k], q.subs[list[k].sub].app, t.now, t.locked);
  }

  lemma LeftOutIsLater(q: Queue, first: seq<Candidate>, t: Terms, c: Candidate, sub: string, row: RowId)
    requires Queried(q, first, false, t.limit, t.now, t.locked) && c in first && sub !in Subs(first)
    requires Eligible(q, sub, false, t.now, t.locked) && row in q.rows && row.sub == sub && Best(q, row, t.now)
    ensures c.best in q.rows && Before(q.rows[c.best], q.rows[row])
  {
    var g :| 0 <= g < |first| && first[g] == c;
    assert Before(q.rows[first[g].best], q.rows[row]);
  }

  lemma PassedOverIsLater(q: Queue, list: seq<Candidate>, i: nat, picks: seq<RowId>, t: Terms, h: nat, sub: string, row: RowId)
    requires Progress(q, list, i, picks, t) && Listed(q, list, t) && h < i && h < |list|
    requires sub in Subs(list) && sub !in SubsOf(picks) && Eligible(q, sub, false, t.now, t.locked)
    requires row in q.rows && row.sub == sub && Best(q, row, t.now)
    ensures list[h].best in q.rows && Before(q.rows[list[h].best], q.rows[row])
  {
    var k: nat :| k < |list| && list[k].sub == sub;
    FirstPartyServed(q, list, i, picks, t, k);
    BestIsListed(q, list, t, k, row);
    assert Before(q.rows[list[h].best], q.rows[list[k].best]);
  }

  /** A served first-party subscription's best row ranks before that of one not served. */
  lemma RankHolds(q: Queue, list: seq<Candidate>, first: seq<Candidate>, i: nat, picks: seq<RowId>, t: Terms, served: string, sub: string)
    requires Progress(q, list, i, picks, t) && Listed(q, list, t) && Queried(q, first, false, t.limit, t.now, t.locked)
    requires forall k | 0 <= k < |list| && !q.subs[list[k].sub].app :: list[k] in first
    requires Subs(first) <= Subs(list)
    requires served in SubsOf(picks) && Servable(q, served, false, t.locked) && Eligible(q, sub, false, t.now, t.locked) && sub !in SubsOf(picks)
    ensures RanksBefore(q, served, sub, t.now)
  {
    var h := ServedFrom(q, list, i, picks, t, served);
    forall b, c | b in q.rows && b.sub == served && Best(q, b, t.now) && c in q.rows && c.sub == sub && Best(q, c, t.now)
      ensures Before(q.rows[b], q.rows[c])
    {
      BestIsListed(q, list, t, h, b);
      if sub in Subs(first) {
        PassedOverIsLater(q, list, i, picks, t, h, sub, c);
      } else {
        LeftOutIsLater(q, first, t, list[h], sub, c);
      }
    }
  }

  lemma RanksHold(q: Queue, list: seq<Candidate>, first: seq<Candidate>, i: nat, picks: seq<RowId>, t: Terms)
    requires Progress(q, list, i, picks, t) && Listed(q, list, t) && Queried(q, first, false, t.limit, t.now, t.locked)
    requires forall k | 0 <= k < |list| && !q.subs[list[k].sub].app :: list[k] in first
    requires Subs(first) <= Subs(list)
    ensures RankRespected(q, picks, t)
  {
    forall served, sub | served in SubsOf(picks) && Servable(q, served, false, t.locked)
      && Eligible(q, sub, false, t.now, t.locked) && sub !in SubsOf(picks)
      ensures RanksBefore(q, served, sub, t.now)
    {
      RankHolds(q, list, first, i, picks, t, served, sub);
    }
  }

  lemma KindsDiffer(q: Queue, first: seq<Candidate>, second: seq<Candidate>, t: Terms)
    requires Queried(q, first, false, t.limit, t.now, t.locked) && Queried(q, second, true, t.AppShare(), t.now, t.locked)
    ensures forall i, j | 0 <= i < |first| && 0 <= j < |second| :: first[i].sub != second[j].sub
    ensures Sorted(q, first) && Sorted(q, second) && Distinct(first) && Distinct(second)
  {
    forall i, j | 0 <= i < |first| && 0 <= j < |second| ensures first[i].sub != second[j].sub {
      assert Sound(q, first[i], false, t.now, t.locked) && Sound(q, second[j], true, t.now, t.locked);
    }
  }

  /** A list merged from the two queries is a candidate per subscription, first-party ones from the first query. */
  lemma MergedIsListed(q: Queue, list: seq<Candidate>, first: seq<Candidate>, second: seq<Candidate>, t: Terms)
    requires Queried(q, first, false, t.limit, t.now, t.locked) && Queried(q, second, true, t.AppShare(), t.now, t.locked)
    requires Sorted(q, list) && Distinct(list) && forall k | 0 <= k < |list| :: list[k] in first || list[k] in second
    ensures Listed(q, list, t) && forall k | 0 <= k < |list| && !q.subs[list[k].sub].app :: list[k] in first
  {
    forall k | 0 <= k < |list|
      ensures list[k].sub in q.subs && Sound(q, list[k], q.subs[list[k].sub].app, t.now, t.locked)
      ensures !q.subs[list[k].sub].app ==> list[k] in first
    {
      if list[k] in first {
        var j :| 0 <= j < |first| && first[j] == list[k];
        assert Sound(q, first[j], false, t.now, t.locked);
      } else {
        var j :| 0 <= j < |second| && second[j] == list[k];
        assert Sound(q, second[j], true, t.now, t.locked);
      }
    }
  }

  lemma OnlyServablePicked(q: Queue, list: seq<Candidate>, i: nat, picks: seq<RowId>, t: Terms)
    requires i <= |list| && SubsOf(picks) <= Subs(list[..i]) && Listed(q, list, t)
    ensures forall sub | sub in SubsOf(picks) :: sub in q.subs && q.subs[sub].enabled && sub !in t.locked
  {
    forall sub | sub in SubsOf(picks) ensures sub in q.subs && q.subs[sub].enabled && sub !in t.locked {
      var h :| 0 <= h < i && list[h].sub == sub;
      assert list[h].sub == sub && Sound(q, list[h], q.subs[sub].app, t.now, t.locked);
    }
  }

  /** The pass ended at its limit or after the last candidate. */
  lemma PassDone(q: Queue, list: seq<Candidate>, first: seq<Candidate>, second: seq<Candidate>, i: nat, picks: seq<RowId>, t: Terms)
    requires Progress(q, list, i, picks, t) && (i == |list| || |picks| >= t.limit) && t.until > t.now
    requires Queried(q, first, false, t.limit, t.now, t.locked) && Queried(q, second, true, t.AppShare(), t.now, t.locked)
    requires Listed(q, list, t) && forall k | 0 <= k < |list| && !q.subs[list[k].sub].app :: list[k] in first
    requires Subs(first) <= Subs(list) && Subs(second) <= Subs(list)
    ensures Pass(q, LeaseAll(q, picks, t.owner, t.until), picks, t)
  {
    PicksAreDistinct(q, picks, t.now, t.owner, t.until);
    RanksHold(q, list, first, i, picks, t);
    AppPicksAreApps(q, picks);
    OnlyServablePicked(q, list, i, picks, t);
    if |picks| < t.limit {
      KindDrained(q, list, first, false, t.limit, picks, picks, t);
      if |AppPicks(q, picks)| < t.maxApp {
        KindDrained(q, list, second, true, t.AppShare(), AppPicks(q, picks), picks, t);
      }
    }
  }

  lemma StartOfPass(q: Queue, list: seq<Candidate>, t: Terms)
    requires t.limit > 0
    ensures Progress(q, list, 0, [], t) && LeaseAll(q, [], t.owner, t.until) == q && AppPicks(q, []) == []
  {
  }

  /** Both candidate queries, merged by rank. */
  method Plan(q: Queue, t: Terms) returns (list: seq<Candidate>, ghost first: seq<Candidate>, ghost second: seq<Candidate>)
    ensures Listed(q, list, t) && forall k | 0 <= k < |list| && !q.subs[list[k].sub].app :: list[k] in first
    ensures Queried(q, first, false, t.limit, t.now, t.locked) && Queried(q, second, true, t.AppShare(), t.now, t.locked)
    ensures Subs(first) <= Subs(list) && Subs(second) <= Subs(list)
  {
    var services := Candidates(q, false, t.limit, t.now, t.locked);
    var apps := Candidates(q, true, t.AppShare(), t.now, t.locked);
    KindsDiffer(q, services, apps, t);
    list := Merge(q, services, apps);
    MergedIsListed(q, list, services, apps, t);
    first, second := services, apps;
  }

  function ClaimActions(picks: seq<RowId>, t: Terms): (actions: seq<Action>)
    ensures |actions| == |picks|
  {
    if picks == [] then []
    else ClaimActions(picks[..|picks| - 1], t) + [Claim(picks[|picks| - 1], t.owner, t.now, t.until, t.locked)]
  }

  /** The last pick of a chain is a claim that takes its row. */
  lemma LastPickTakes(q: Queue, picks: seq<RowId>, t: Terms)
    requires picks != [] && Granted(q, picks, t.now, t.owner, t.until) && t.owner != "" && t.until > t.now
    requires forall sub | sub in SubsOf(picks) :: sub in q.subs && q.subs[sub].enabled && sub !in t.locked
    ensures var front, last := picks[..|picks| - 1], picks[|picks| - 1];
      && Granted(q, front, t.now, t.owner, t.until) && SubsOf(front) <= SubsOf(picks)
      && Takes(LeaseAll(q, front, t.owner, t.until), last, t.owner, t.now, t.until, t.locked)
      && LeaseAll(q, picks, t.owner, t.until) == Lease(LeaseAll(q, front, t.owner, t.until), last, t.owner, t.until)
  {
    var front, last := picks[..|picks| - 1], picks[|picks| - 1];
    assert picks == front + [last];
    SubsOfJoin(front, [last]);
    assert [last][0].sub in SubsOf([last]);
  }

  lemma OneMoreClaim(s: System, actions: seq<Action>, id: RowId, t: Terms)
    requires Legal(s, actions) && t.now <= Run(s, actions).clock && Takes(Run(s, actions).queue, id, t.owner, t.now, t.until, t.locked)
    ensures var more := actions + [Claim(id, t.owner, t.now, t.until, t.locked)];
      && Legal(s, more) && Run(s, more).clock == Run(s, actions).clock
      && Run(s, more).queue == Lease(Run(s, actions).queue, id, t.owner, t.until)
  {
    var a := Claim(id, t.owner, t.now, t.until, t.locked);
    assert (actions + [a])[..|actions|] == actions && (actions + [a])[|actions|] == a;
    assert Enabled(Run(s, actions), a);
  }

  /** A pass is a run of single claims, each taking its row: what holds of every run holds after every pass. */
  lemma {:induction false} PassIsARun(s: System, picks: seq<RowId>, t: Terms)
    requires Granted(s.queue, picks, t.now, t.owner, t.until)
    requires forall sub | sub in SubsOf(picks) :: sub in s.queue.subs && s.queue.subs[sub].enabled && sub !in t.locked
    requires t.owner != "" && t.until > t.now && t.now <= s.clock
    ensures var actions := ClaimActions(picks, t);
      && Legal(s, actions)
      && Run(s, actions).queue == LeaseAll(s.queue, picks, t.owner, t.until) && Run(s, actions).clock == s.clock
  {
    if picks != [] {
      var front, last := picks[..|picks| - 1], picks[|picks| - 1];
      LastPickTakes(s.queue, picks, t);
      PassIsARun(s, front, t);
      OneMoreClaim(s, ClaimActions(front, t), last, t);
    }
  }

  /** Wherever in a run it comes, a whole claim pass keeps every cap and every key's exclusion. */
  lemma PassKeepsCapsAndKeys(s: System, q': Queue, picks: seq<RowId>, t: Terms)
    requires DeliverySafety.Safe(s) && Pass(s.queue, q', picks, t)
    requires t.owner != "" && t.until > t.now && t.now <= s.clock
    ensures DeliverySafety.WithinCaps(q', s.clock) && DeliverySafety.OneLeasePerKey(q', s.clock)
  {
    PassIsARun(s, picks, t);
    DeliverySafety.RunStaysSafe(s, ClaimActions(picks, t));
  }

  /** Every row a pass claimed was ready in the tables the pass found, in an enabled subscription with room that nobody had locked. */
  lemma PassTakesReady(q: Queue, q': Queue, picks: seq<RowId>, t: Terms)
    requires Pass(q, q', picks, t) && t.until > t.now
    ensures forall i | 0 <= i < |picks| :: ReadyRows.Ready(q, picks[i], t.now) && ReadyRows.Vacant(q, picks[i].sub, t.now, t.locked)
  {
    forall i | 0 <= i < |picks| ensures ReadyRows.Ready(q, picks[i], t.now) && ReadyRows.Vacant(q, picks[i].sub, t.now, t.locked) {
      ReadyRows.GrantedAreReady(q, picks, i, t.now, t.owner, t.until);
      assert picks[i].sub in SubsOf(picks);
    }
  }

  /** `q` is what leasing `more`, best rows of one subscription in turn, makes of `q0`. */
  predicate Serves(q0: Queue, q: Queue, sub: string, more: seq<RowId>, now: int, owner: string, until: int) {
    && Granted(q0, more, now, owner, until) && q == LeaseAll(q0, more, owner, until)
    && forall i | 0 <= i < |more| :: more[i].sub == sub
  }

  lemma ServesNext(q0: Queue, q: Queue, sub: string, more: seq<RowId>, id: RowId, now: int, owner: string, until: int)
    requires Serves(q0, q, sub, more, now, owner, until) && Best(q, id, now) && id.sub == sub && Room(q, sub, now)
    ensures id in q.rows && Serves(q0, Lease(q, id, owner, until), sub, more + [id], now, owner, until)
  {
    GrantNext(q0, more, id, now, owner, until);
    LeaseNext(q0, more, id, owner, until);
  }

  class Store {
    var rows: map<RowId, Delivery>
    var subs: map<string, Subscription>

    constructor ()
      ensures rows == map[] && subs == map[]
    {
      rows, subs := map[], map[];
    }

    function Tables(): Queue
      reads this
    {
      Queue(rows, subs)
    }

    /** Up to `budget` deliveries of one subscription: until it is at its cap or has nothing claimable left. */
    method ServeOne(sub: string, budget: int, now: int, owner: string, until: int) returns (more: seq<RowId>)
      requires until > now
      modifies this`rows
      ensures Granted(old(Tables()), more, now, owner, until) && Tables() == LeaseAll(old(Tables()), more, owner, until)
      ensures forall i | 0 <= i < |more| :: more[i].sub == sub
      ensures |more| <= if budget <= 0 then 0 else budget
      ensures |more| < budget ==> Drained(Tables(), sub, now)
      ensures budget > 0 && !Drained(old(Tables()), sub, now) ==> more != []
    {
      more := [];
      ghost var q0 := Tables();
      while |more| < budget
        invariant Serves(q0, Tables(), sub, more, now, owner, until)
        invariant |more| <= if budget <= 0 then 0 else budget
        decreases budget - |more|
      {
        var best := BestRow(Tables(), sub, now);
        if best.None? || !Room(Tables(), sub, now) { return; }
        ServesNext(q0, Tables(), sub, more, best.value, now, owner, until);
        rows := Lease(Tables(), best.value, owner, until).rows;
        more := more + [best.value];
      }
    }

    /** The poll's claim. */
    method ClaimDeliveries(now: int, limit: int, owner: string, until: int, maxApp: int, locked: set<string>) returns (picked: seq<RowId>)
      modifies this`rows
      ensures owner == "" || until <= now || limit <= 0 ==> picked == [] && rows == old(rows)
      ensures owner != "" && until > now && limit > 0 ==>
                Pass(old(Tables()), Tables(), picked, Terms(now, limit, maxApp, owner, until, locked))
      ensures forall i | 0 <= i < |picked| ::
                ReadyRows.Ready(old(Tables()), picked[i], now) && ReadyRows.Vacant(old(Tables()), picked[i].sub, now, locked)
    {
      if owner == "" || until <= now || limit <= 0 { return []; }
      picked := ClaimPass(Terms(now, limit, maxApp, owner, until, locked));
      PassTakesReady(old(Tables()), Tables(), picked, Terms(now, limit, maxApp, owner, until, locked));
    }

    method ClaimPass(t: Terms) returns (picked: seq<RowId>)
      requires t.until > t.now && t.limit > 0
      modifies this`rows
      ensures Pass(old(Tables()), Tables(), picked, t)
    {
      ghost var q0 := Tables();
      var list, first, second := Plan(Tables(), t);
      var apps, i := 0, 0;
      picked := [];
      StartOfPass(q0, list, t);
      while i < |list| && |picked| < t.limit
        invariant i <= |list| && subs == q0.subs && Progress(q0, list, i, picked, t)
        invariant Tables() == LeaseAll(q0, picked, t.owner, t.until) && apps == |AppPicks(q0, picked)|
      {
        picked, apps := ServeNext(list, i, picked, apps, t, q0);
        i := i + 1;
      }
      PassDone(q0, list, first, second, i, picked, t);
    }

    /** One turn of the claim loop: the next candidate, unless it is an app's and the apps have their share. */
    method ServeNext(list: seq<Candidate>, i: nat, picked: seq<RowId>, apps: int, t: Terms, ghost q0: Queue)
      returns (picked': seq<RowId>, apps': int)
      requires i < |list| && |picked| < t.limit && t.until > t.now && subs == q0.subs
      requires Progress(q0, list, i, picked, t) && Listed(q0, list, t)
      requires Tables() == LeaseAll(q0, picked, t.owner, t.until) && apps == |AppPicks(q0, picked)|
      modifies this`rows
      ensures Progress(q0, list, i + 1, picked', t)
      ensures Tables() == LeaseAll(q0, picked', t.owner, t.until) && apps' == |AppPicks(q0, picked')|
    {
      var sub := list[i].sub;
      ListedIsEligible(q0, list, i, t);
      picked', apps' := picked, apps;
      if subs[sub].app && apps >= t.maxApp {
        Skip(q0, list, i, picked, t);
      } else {
        var budget := if subs[sub].app && t.maxApp - apps < t.limit - |picked| then t.maxApp - apps else t.limit - |picked|;
        var more := ServeOne(sub, budget, t.now, t.owner, t.until);
        Advance(q0, list, i, picked, more, budget, t);
        picked' := picked + more;
        if subs[sub].app { apps' := apps + |more|; }
      }
    }

    /** The carriers' claim of exactly one delivery. */
    method ClaimDelivery(id: RowId, owner: string, now: int, until: int, locked: set<string>) returns (row: Option<Delivery>)
      modifies this`rows
      ensures Tables() == ClaimOne(old(Tables()), id, owner, now, until, locked)
      ensures row.Some? <==>
                owner != "" && now < until && ReadyRows.Ready(old(Tables()), id, now) && ReadyRows.Vacant(old(Tables()), id.sub, now, locked)
      ensures row.Some? ==> id in rows && row.value == rows[id]
    {
      row := None;
      ReadyRows.TakesIff(Tables(), id, owner, now, until, locked);
      if owner == "" || until <= now || id.sub !in subs || !subs[id.sub].enabled || id.sub in locked { return; }
      if Grantable(Tables(), id, now) {
        rows := rows[id := rows[id].(owner := Some(owner), leaseUntil := Some(until))];
        row := Some(rows[id]);
      }
    }

    /** Record one attempt; false when the worker no longer holds the lease. */
    method RecordAttempt(id: RowId, owner: string, o: Outcome) returns (kept: bool)
      modifies this`rows
      ensures Tables() == Record(old(Tables()), id, owner, o)
      ensures kept <==> Held(old(Tables()), id, owner)
    {
      if id !in rows || rows[id].owner != Some(owner) { return false; }
      match o {
        case Success(attempt) =>
          rows := rows[id := rows[id].(status := Delivered, attempt := attempt, due := None, owner := None, leaseUntil := None)];
        case Retry(attempt, at) =>
          rows := rows[id := rows[id].(status := Failed, attempt := attempt, due := Some(at), owner := None, leaseUntil := None)];
        case DeadLetter(attempt) =>
          rows := rows[id := rows[id].(status := Dead, attempt := attempt, due := None, owner := None, leaseUntil := None)];
      }
      return true;
    }

    /** Queue the given events again for one subscription. */
    method QueueAgain(sub: string, items: seq<Replayed>, now: int)
      modifies this`rows
      ensures Tables() == RequeueAll(old(Tables()), sub, items, now)
    {
      for i := 0 to |items|
        invariant subs == old(subs) && Tables() == RequeueAll(old(Tables()), sub, items[..i], now)
      {
        assert items[..i + 1][..i] == items[..i];
        var id, r := RowId(items[i].event, sub), items[i];
        rows := rows[id :=
          if id in rows then rows[id].(status := Pending, attempt := 0, due := Some(now))
          else Fresh(r.pos, r.priority, r.key, now)];
      }
      assert items[..|items|] == items;
    }
  }
}
