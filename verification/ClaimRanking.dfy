/**
 Facts about one claim pass over the delivery tables: how rows rank, which subscriptions are drained, and what a chain of
 leases, each granted on the tables the one before it left, has in common with a single lease.
 */
module ClaimRanking {
  import opened Deliveries

  /** (priority, seq) order. */
  predicate Before(a: Delivery, b: Delivery) {
    a.priority < b.priority || (a.priority == b.priority && a.pos <= b.pos)
  }

  /** The best claimable row of its subscription. */
  predicate Best(q: Queue, id: RowId, now: int) {
    Claimable(q, id, now) && forall x | x in q.rows && x.sub == id.sub && Claimable(q, x, now) :: Before(q.rows[id], q.rows[x])
  }

  /** The subscription has no room, or nothing claimable. */
  predicate Drained(q: Queue, sub: string, now: int) {
    !Room(q, sub, now) || forall x | x in q.rows && x.sub == sub :: !Claimable(q, x, now)
  }

  /** Subscriptions a pass may serve: enabled, of the given kind, with its row lock free. */
  predicate Servable(q: Queue, sub: string, app: bool, locked: set<string>) {
    sub in q.subs && q.subs[sub].enabled && q.subs[sub].app == app && sub !in locked
  }

  predicate Eligible(q: Queue, sub: string, app: bool, now: int, locked: set<string>) {
    Servable(q, sub, app, locked) && !Drained(q, sub, now)
  }

  // ---------------------------------------------------------------- chains of leases

  /** The tables after leasing `picks` one after the other. */
  function LeaseAll(q: Queue, picks: seq<RowId>, owner: string, until: int): (r: Queue)
    requires AllIn(q, picks)
    ensures r.subs == q.subs && r.rows.Keys == q.rows.Keys
  {
    if picks == [] then q else Lease(LeaseAll(q, picks[..|picks| - 1], owner, until), picks[|picks| - 1], owner, until)
  }

  predicate AllIn(q: Queue, picks: seq<RowId>) { forall i | 0 <= i < |picks| :: picks[i] in q.rows }

  /** Each pick was, when it was made, the best claimable row of a subscription with room. */
  predicate Granted(q: Queue, picks: seq<RowId>, now: int, owner: string, until: int)
    ensures Granted(q, picks, now, owner, until) ==> AllIn(q, picks)
  {
    picks == [] ||
    (Granted(q, picks[..|picks| - 1], now, owner, until) &&
     var before := LeaseAll(q, picks[..|picks| - 1], owner, until);
     Best(before, picks[|picks| - 1], now) && Room(before, picks[|picks| - 1].sub, now))
  }

  /** A leased row stays leased, so a chain never picks a row twice. */
  lemma {:induction false} PicksAreDistinct(q: Queue, picks: seq<RowId>, now: int, owner: string, until: int)
    requires Granted(q, picks, now, owner, until) && until > now
    ensures forall i, j | 0 <= i < j < |picks| :: picks[i] != picks[j]
    ensures forall i | 0 <= i < |picks| :: Leased(LeaseAll(q, picks, owner, until).rows[picks[i]], now)
  {
    if picks != [] { PicksAreDistinct(q, picks[..|picks| - 1], now, owner, until); }
  }

  // ---------------------------------------------------------------- a subscription's own rows decide

  function RowsOf(q: Queue, sub: string): map<RowId, Delivery> { map id | id in q.rows && id.sub == sub :: q.rows[id] }

  lemma ClaimableDependsOnOwnRows(p: Queue, q: Queue, id: RowId, now: int)
    requires RowsOf(p, id.sub) == RowsOf(q, id.sub) && Claimable(p, id, now)
    ensures Claimable(q, id, now) && p.rows[id] == q.rows[id]
  {
    assert forall x: RowId | x.sub == id.sub && x in q.rows :: x in RowsOf(p, id.sub) && p.rows[x] == q.rows[x];
    assert id in RowsOf(q, id.sub);
    forall x | x in q.rows && SameKey(q, id, x) ensures x in p.rows && SameKey(p, id, x) && p.rows[x] == q.rows[x] {}
  }

  lemma OwnRowsDecide(p: Queue, q: Queue, sub: string, now: int)
    requires p.subs == q.subs && RowsOf(p, sub) == RowsOf(q, sub)
    ensures Drained(p, sub, now) == Drained(q, sub, now) && Room(p, sub, now) == Room(q, sub, now)
    ensures forall x: RowId | x.sub == sub :: Claimable(p, x, now) == Claimable(q, x, now) && (Best(p, x, now) <==> Best(q, x, now))
  {
    assert forall x: RowId | x.sub == sub && x in q.rows :: x in RowsOf(p, sub) && p.rows[x] == q.rows[x];
    assert forall x: RowId | x.sub == sub && x in p.rows :: x in RowsOf(q, sub);
    assert LiveLeases(p, sub, now) == LiveLeases(q, sub, now);
    forall x: RowId | x.sub == sub ensures Claimable(p, x, now) == Claimable(q, x, now) {
      if Claimable(p, x, now) { ClaimableDependsOnOwnRows(p, q, x, now); }
      if Claimable(q, x, now) { ClaimableDependsOnOwnRows(q, p, x, now); }
    }
  }

  /** Leasing rows of other subscriptions changes nothing for `sub`. */
  lemma {:induction false} OthersDoNotMatter(q: Queue, picks: seq<RowId>, owner: string, until: int, sub: string)
    requires forall i | 0 <= i < |picks| :: picks[i] in q.rows && picks[i].sub != sub
    ensures RowsOf(LeaseAll(q, picks, owner, until), sub) == RowsOf(q, sub)
  {
    if picks != [] { OthersDoNotMatter(q, picks[..|picks| - 1], owner, until, sub); }
  }

  // ---------------------------------------------------------------- counting served subscriptions

  function SubsOf(picks: seq<RowId>): set<string> { set p | p in picks :: p.sub }

  lemma SubsOfJoin(a: seq<RowId>, b: seq<RowId>)
    ensures SubsOf(a + b) == SubsOf(a) + SubsOf(b)
  {
  }

  lemma {:induction false} FewSubs(picks: seq<RowId>)
    ensures |SubsOf(picks)| <= |picks|
  {
    if picks != [] {
      var front, last := picks[..|picks| - 1], picks[|picks| - 1];
      FewSubs(front);
      assert picks == front + [last];
      SubsOfJoin(front, [last]);
      SubsOfOne([last], last.sub);
    }
  }

  /** One row of the candidate query: a subscription and its best claimable delivery. */
  datatype Candidate = Candidate(sub: string, best: RowId)

  function Subs(list: seq<Candidate>): set<string> { set c | c in list :: c.sub }

  predicate Distinct(list: seq<Candidate>) { forall i, j | 0 <= i < j < |list| :: list[i].sub != list[j].sub }

  lemma SubsGrow(list: seq<Candidate>, c: Candidate)
    ensures Subs(list + [c]) == Subs(list) + {c.sub}
  {
  }

  lemma {:induction false} DistinctSize(list: seq<Candidate>)
    requires Distinct(list)
    ensures |Subs(list)| == |list|
  {
    if list != [] {
      var front, last := list[..|list| - 1], list[|list| - 1];
      DistinctSize(front);
      assert list == front + [last];
      SubsGrow(front, last);
      assert last.sub !in Subs(front);
    }
  }

  /** Distinct subscriptions, each served at least once, are at most as many as the picks. */
  lemma ServedAreFew(list: seq<Candidate>, picks: seq<RowId>)
    requires Distinct(list) && Subs(list) <= SubsOf(picks)
    ensures |list| <= |picks|
  {
    FewSubs(picks);
    DistinctSize(list);
    assert SubsOf(picks) == Subs(list) + (SubsOf(picks) - Subs(list));
  }

  lemma SubsOfOne(picks: seq<RowId>, sub: string)
    requires picks != [] && forall i | 0 <= i < |picks| :: picks[i].sub == sub
    ensures SubsOf(picks) == {sub}
  {
    assert picks[0].sub == sub;
  }

  /** The picks that went to developer-app subscriptions. */
  function AppPicks(q: Queue, picks: seq<RowId>): seq<RowId> {
    if picks == [] then []
    else
      var last := picks[|picks| - 1];
      AppPicks(q, picks[..|picks| - 1]) + (if last.sub in q.subs && q.subs[last.sub].app then [last] else [])
  }

  lemma {:induction false} AppPicksOfOne(q: Queue, picks: seq<RowId>, more: seq<RowId>, sub: string)
    requires sub in q.subs && forall i | 0 <= i < |more| :: more[i].sub == sub
    ensures AppPicks(q, picks + more) == AppPicks(q, picks) + (if q.subs[sub].app then more else [])
  {
    if more == [] {
      assert picks + more == picks;
    } else {
      var front, last := more[..|more| - 1], more[|more| - 1];
      AppPicksOfOne(q, picks, front, sub);
      JoinLast(picks, more);
      assert picks + more == picks + front + [last];
      AppPicksNext(q, picks + front, last);
      if q.subs[sub].app { JoinLast(AppPicks(q, picks), more); }
    }
  }

  lemma AppPicksNext(q: Queue, picks: seq<RowId>, last: RowId)
    ensures AppPicks(q, picks + [last]) == AppPicks(q, picks) + (if last.sub in q.subs && q.subs[last.sub].app then [last] else [])
  {
    assert (picks + [last])[..|picks|] == picks;
  }

  lemma LeaseNext(q: Queue, picks: seq<RowId>, id: RowId, owner: string, until: int)
    requires AllIn(q, picks + [id])
    ensures AllIn(q, picks) && id in q.rows && LeaseAll(q, picks + [id], owner, until) == Lease(LeaseAll(q, picks, owner, until), id, owner, until)
  {
    assert (picks + [id])[..|picks|] == picks && (picks + [id])[|picks|] == id;
    assert forall i | 0 <= i < |picks| :: picks[i] == (picks + [id])[i];
  }

  lemma {:induction false} LeaseAllJoins(q: Queue, picks: seq<RowId>, more: seq<RowId>, owner: string, until: int)
    requires AllIn(q, picks) && AllIn(q, more)
    ensures LeaseAll(q, picks + more, owner, until) == LeaseAll(LeaseAll(q, picks, owner, until), more, owner, until)
  {
    if more == [] {
      assert picks + more == picks;
    } else {
      var front, last := more[..|more| - 1], more[|more| - 1];
      LeaseAllJoins(q, picks, front, owner, until);
      JoinLast(picks, more);
      LeaseNext(q, picks + front, last, owner, until);
    }
  }

  lemma JoinLast(a: seq<RowId>, b: seq<RowId>)
    requires b != []
    ensures a + b == a + b[..|b| - 1] + [b[|b| - 1]]
  {
  }

  lemma GrantNext(q: Queue, picks: seq<RowId>, id: RowId, now: int, owner: string, until: int)
    requires Granted(q, picks, now, owner, until)
    requires Best(LeaseAll(q, picks, owner, until), id, now) && Room(LeaseAll(q, picks, owner, until), id.sub, now)
    ensures Granted(q, picks + [id], now, owner, until)
  {
    assert (picks + [id])[..|picks|] == picks;
  }

  /** Two chains, one after the other, are one chain. */
  lemma {:induction false} GrantMore(q: Queue, picks: seq<RowId>, more: seq<RowId>, now: int, owner: string, until: int)
    requires Granted(q, picks, now, owner, until)
    requires Granted(LeaseAll(q, picks, owner, until), more, now, owner, until)
    ensures Granted(q, picks + more, now, owner, until)
  {
    if more == [] {
      assert picks + more == picks;
    } else {
      var front := more[..|more| - 1];
      GrantMore(q, picks, front, now, owner, until);
      LeaseAllJoins(q, picks, front, owner, until);
      GrantNext(q, picks + front, more[|more| - 1], now, owner, until);
      JoinLast(picks, more);
    }
  }

  lemma {:induction false} AppPicksAreApps(q: Queue, picks: seq<RowId>)
    ensures |AppPicks(q, picks)| <= |picks|
    ensures forall s | s in SubsOf(picks) && s in q.subs && q.subs[s].app :: s in SubsOf(AppPicks(q, picks))
  {
    if picks != [] {
      var front, last := picks[..|picks| - 1], picks[|picks| - 1];
      AppPicksAreApps(q, front);
      assert picks == front + [last];
      SubsOfJoin(front, [last]);
      assert [last][0].sub == last.sub;
      assert SubsOf([last]) == {last.sub};
      SubsOfJoin(AppPicks(q, front), [last]);
      assert AppPicks(q, picks) == if last.sub in q.subs && q.subs[last.sub].app then AppPicks(q, front) + [last] else AppPicks(q, front);
    }
  }
}
