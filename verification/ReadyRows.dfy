/** When a row may be leased, in the columns of the tables, and that a chain of leases takes only rows ready from the start. */
module ReadyRows {
  import opened Wrappers
  import opened Deliveries
  import opened ClaimRanking

  // ---------------------------------------------------------------- the rule

  predicate Free(d: Delivery, now: int) { d.leaseUntil == None || d.leaseUntil.value <= now }

  /** Pending or failed, due, under no lease; with a key, the first such row of it, and none of its rows under a lease. */
  predicate Ready(q: Queue, id: RowId, now: int) {
    && id in q.rows && (q.rows[id].status == Pending || q.rows[id].status == Failed)
    && q.rows[id].due.Some? && q.rows[id].due.value <= now && Free(q.rows[id], now)
    && (q.rows[id].key != None ==>
          forall x | x in q.rows && x.sub == id.sub && q.rows[x].key == q.rows[id].key ::
            Free(q.rows[x], now) && (q.rows[x].status == Pending || q.rows[x].status == Failed ==> q.rows[id].pos <= q.rows[x].pos))
  }

  /** How many rows of the subscription are under a lease. */
  function Busy(q: Queue, sub: string, now: int): nat {
    |set id | id in q.rows && id.sub == sub && q.rows[id].leaseUntil != None && q.rows[id].leaseUntil.value > now|
  }

  predicate Vacant(q: Queue, sub: string, now: int, locked: set<string>) {
    sub in q.subs && q.subs[sub].enabled && sub !in locked && Busy(q, sub, now) < q.subs[sub].maxInflight
  }

  lemma BusyIsLive(q: Queue, sub: string, now: int)
    ensures Busy(q, sub, now) == |LiveLeases(q, sub, now)|
  {
    assert LiveLeases(q, sub, now)
        == set id | id in q.rows && id.sub == sub && q.rows[id].leaseUntil != None && q.rows[id].leaseUntil.value > now;
  }

  lemma ReadyIff(q: Queue, id: RowId, now: int)
    ensures Ready(q, id, now) <==> Claimable(q, id, now)
  {
    if id in q.rows {
      forall x | x in q.rows ensures SameKey(q, id, x) <==> x.sub == id.sub && q.rows[id].key != None && q.rows[x].key == q.rows[id].key {}
      if Claimable(q, id, now) && q.rows[id].key != None {
        forall x | x in q.rows && x.sub == id.sub && q.rows[x].key == q.rows[id].key
          ensures Free(q.rows[x], now) && (q.rows[x].status == Pending || q.rows[x].status == Failed ==> q.rows[id].pos <= q.rows[x].pos)
        {
          assert SameKey(q, id, x);
        }
      }
    }
  }

  /** A targeted claim takes its row exactly when the row is ready and its subscription vacant. */
  lemma TakesIff(q: Queue, id: RowId, owner: string, now: int, until: int, locked: set<string>)
    ensures Takes(q, id, owner, now, until, locked) <==> owner != "" && now < until && Ready(q, id, now) && Vacant(q, id.sub, now, locked)
  {
    ReadyIff(q, id, now);
    BusyIsLive(q, id.sub, now);
  }

  // ---------------------------------------------------------------- chains of leases

  lemma {:induction false} LeasesChangeLeases(q: Queue, picks: seq<RowId>, owner: string, until: int)
    requires AllIn(q, picks)
    ensures var r := LeaseAll(q, picks, owner, until);
      forall x | x in q.rows ::
        && r.rows[x].(owner := q.rows[x].owner, leaseUntil := q.rows[x].leaseUntil) == q.rows[x]
        && (r.rows[x] == q.rows[x] || (x in picks && r.rows[x].leaseUntil == Some(until)))
  {
    if picks != [] {
      var front, last := picks[..|picks| - 1], picks[|picks| - 1];
      assert picks == front + [last];
      LeasesChangeLeases(q, front, owner, until);
    }
  }

  lemma ReadyBefore(q: Queue, picks: seq<RowId>, id: RowId, now: int, owner: string, until: int)
    requires AllIn(q, picks) && until > now && Ready(LeaseAll(q, picks, owner, until), id, now)
    ensures Ready(q, id, now)
  {
    LeasesChangeLeases(q, picks, owner, until);
  }

  /** A row without a key that the chain did not pick stays ready. */
  lemma StaysReady(q: Queue, picks: seq<RowId>, id: RowId, now: int, owner: string, until: int)
    requires AllIn(q, picks) && Ready(q, id, now) && q.rows[id].key == None && id !in picks
    ensures Ready(LeaseAll(q, picks, owner, until), id, now)
  {
    LeasesChangeLeases(q, picks, owner, until);
  }

  lemma {:induction false} EachWasGranted(q: Queue, picks: seq<RowId>, i: nat, now: int, owner: string, until: int)
    requires Granted(q, picks, now, owner, until) && i < |picks|
    ensures Granted(q, picks[..i], now, owner, until)
    ensures var before := LeaseAll(q, picks[..i], owner, until); Best(before, picks[i], now) && Room(before, picks[i].sub, now)
  {
    var front := picks[..|picks| - 1];
    if i < |front| {
      EachWasGranted(q, front, i, now, owner, until);
      assert front[..i] == picks[..i];
    } else {
      assert picks[..i] == front;
    }
  }

  lemma BusyGrows(q: Queue, picks: seq<RowId>, sub: string, now: int, owner: string, until: int)
    requires AllIn(q, picks) && until > now
    ensures Busy(q, sub, now) <= Busy(LeaseAll(q, picks, owner, until), sub, now)
  {
    LeasesChangeLeases(q, picks, owner, until);
    var r := LeaseAll(q, picks, owner, until);
    var a := set id | id in q.rows && id.sub == sub && q.rows[id].leaseUntil != None && q.rows[id].leaseUntil.value > now;
    var b := set id | id in r.rows && id.sub == sub && r.rows[id].leaseUntil != None && r.rows[id].leaseUntil.value > now;
    assert b == a + (b - a);
  }

  /** What a chain leases was ready, in a subscription with room, before the chain began. */
  lemma GrantedAreReady(q: Queue, picks: seq<RowId>, i: nat, now: int, owner: string, until: int)
    requires Granted(q, picks, now, owner, until) && until > now && i < |picks|
    ensures Ready(q, picks[i], now)
    ensures picks[i].sub in q.subs && Busy(q, picks[i].sub, now) < q.subs[picks[i].sub].maxInflight
  {
    EachWasGranted(q, picks, i, now, owner, until);
    var before := LeaseAll(q, picks[..i], owner, until);
    ReadyIff(before, picks[i], now);
    ReadyBefore(q, picks[..i], picks[i], now, owner, until);
    BusyIsLive(before, picks[i].sub, now);
    BusyGrows(q, picks[..i], picks[i].sub, now, owner, until);
  }
}
