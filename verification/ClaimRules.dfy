/** When a delivery is leased and what a requeue writes, in the columns of the tables: over every step, every run and every claim. */
module ClaimRules {
  import opened Wrappers
  import opened Deliveries
  import opened ClaimRanking
  import opened ReadyRows
  import opened DeliveryStore

  // ---------------------------------------------------------------- what a requeue writes

  predicate Names(items: seq<Replayed>, event: string) { exists i | 0 <= i < |items| :: items[i].event == event }

  /** The row of an event queued again: pending, no attempt, due at once; what it had of key, position, priority and lease stays. */
  predicate QueuedAgain(q: Queue, items: seq<Replayed>, at: int, id: RowId, d: Delivery) {
    && d.status == Pending && d.attempt == 0 && d.due == Some(at)
    && if id in q.rows then
         && d.pos == q.rows[id].pos && d.priority == q.rows[id].priority && d.key == q.rows[id].key
         && d.owner == q.rows[id].owner && d.leaseUntil == q.rows[id].leaseUntil
       else
         && d.owner == None && d.leaseUntil == None
         && exists i | 0 <= i < |items| ::
              items[i].event == id.event && d.pos == items[i].pos && d.priority == items[i].priority && d.key == items[i].key
  }

  /** A requeue writes the rows of the events it names, for its subscription, and no others. */
  lemma {:induction false} RequeueIsExact(q: Queue, sub: string, items: seq<Replayed>, at: int, id: RowId)
    ensures var q' := RequeueAll(q, sub, items, at);
      && q'.subs == q.subs
      && (if id.sub == sub && Names(items, id.event) then id in q'.rows && QueuedAgain(q, items, at, id, q'.rows[id])
          else (id in q'.rows <==> id in q.rows) && (id in q.rows ==> q'.rows[id] == q.rows[id]))
  {
    if items != [] {
      var front, last := items[..|items| - 1], items[|items| - 1];
      RequeueIsExact(q, sub, front, at, id);
      assert Names(items, id.event) <==> Names(front, id.event) || last.event == id.event by {
        if Names(front, id.event) {
          var i :| 0 <= i < |front| && front[i].event == id.event;
          assert items[i].event == id.event;
        }
        if Names(items, id.event) {
          var i :| 0 <= i < |items| && items[i].event == id.event;
          assert i < |front| ==> front[i].event == id.event;
        }
      }
      if id.sub == sub && Names(items, id.event) { LastNames(q, sub, items, at, id); }
    }
  }

  lemma LastNames(q: Queue, sub: string, items: seq<Replayed>, at: int, id: RowId)
    requires items != [] && id.sub == sub && (Names(items[..|items| - 1], id.event) || items[|items| - 1].event == id.event)
    requires var mid := RequeueAll(q, sub, items[..|items| - 1], at);
      if Names(items[..|items| - 1], id.event) then id in mid.rows && QueuedAgain(q, items[..|items| - 1], at, id, mid.rows[id])
      else (id in mid.rows <==> id in q.rows) && (id in q.rows ==> mid.rows[id] == q.rows[id])
    ensures var q' := RequeueAll(q, sub, items, at); id in q'.rows && QueuedAgain(q, items, at, id, q'.rows[id])
  {
    var front, last := items[..|items| - 1], items[|items| - 1];
    var mid, d := RequeueAll(q, sub, front, at), RequeueAll(q, sub, items, at).rows[id];
    if id !in q.rows {
      if Names(front, id.event) {
        var i :| 0 <= i < |front| && front[i].event == id.event && mid.rows[id].pos == front[i].pos
          && mid.rows[id].priority == front[i].priority && mid.rows[id].key == front[i].key;
        assert items[i] == front[i];
        assert d.pos == items[i].pos && d.priority == items[i].priority && d.key == items[i].key;
      } else {
        assert items[|items| - 1].event == id.event && d.pos == last.pos && d.priority == last.priority && d.key == last.key;
      }
    }
  }

  // ---------------------------------------------------------------- every step of every run

  /** The step gave the row a lease it did not have. */
  predicate NewLease(q: Queue, q': Queue, id: RowId) {
    && id in q'.rows && q'.rows[id].leaseUntil != None
    && (id !in q.rows || q.rows[id].leaseUntil != q'.rows[id].leaseUntil || q.rows[id].owner != q'.rows[id].owner)
  }

  /** A claim that finds its row ready and its subscription vacant at a time the run has reached. */
  predicate Finds(s: System, a: Action, id: RowId) {
    && a.Claim? && a.id == id && a.owner != "" && a.now <= s.clock && a.now < a.until
    && Ready(s.queue, id, a.now) && Vacant(s.queue, id.sub, a.now, a.locked)
  }

  lemma FindsIff(s: System, a: Action, id: RowId)
    requires Enabled(s, a) && a.Claim? && a.id == id
    ensures Finds(s, a, id) <==> Takes(s.queue, a.id, a.owner, a.now, a.until, a.locked)
  {
    TakesIff(s.queue, id, a.owner, a.now, a.until, a.locked);
  }

  /** In whatever state a run is, a step gives a row a lease exactly when it is a claim of it that finds it ready and its subscription vacant. */
  lemma LeasedIff(s: System, a: Action, id: RowId)
    requires Enabled(s, a)
    ensures NewLease(s.queue, Apply(s, a).queue, id) <==> Finds(s, a, id)
    ensures Finds(s, a, id) ==>
              Apply(s, a).queue.rows[id] == s.queue.rows[id].(owner := Some(a.owner), leaseUntil := Some(a.until))
  {
    match a
    case Claim(x, owner, now, until, locked) =>
      FindsIff(s, a, x);
    case Replay(sub, items, at) => RequeueIsExact(s.queue, sub, items, at, id);
    case _ =>
  }

  // ---------------------------------------------------------------- a retry waits

  /** The row is neither queued again nor removed. */
  predicate LeavesRow(actions: seq<Action>, id: RowId) {
    forall i | 0 <= i < |actions| ::
      && (actions[i].Replay? && actions[i].sub == id.sub ==> !Names(actions[i].items, id.event))
      && (actions[i].Prune? ==> id.event !in actions[i].events)
  }

  /** The time has come, or the row still waits for it. */
  predicate Waits(s: System, id: RowId, at: int) {
    s.clock >= at || (id in s.queue.rows && s.queue.rows[id].owner == None && s.queue.rows[id].leaseUntil == None && s.queue.rows[id].due == Some(at))
  }

  lemma StepWaits(s: System, a: Action, id: RowId, at: int)
    requires Waits(s, id, at) && Enabled(s, a) && LeavesRow([a], id)
    ensures Waits(Apply(s, a), id, at) && (NewLease(s.queue, Apply(s, a).queue, id) ==> at <= s.clock)
  {
    LeasedIff(s, a, id);
    assert [a][0] == a;
    if a.Replay? { RequeueIsExact(s.queue, a.sub, a.items, a.at, id); }
  }

  /** Every lease a run gives the row comes at a clock of at least `at`. */
  predicate LeasedFrom(s: System, actions: seq<Action>, id: RowId, at: int) {
    actions == [] ||
    (var before, a := Run(s, actions[..|actions| - 1]), actions[|actions| - 1];
     LeasedFrom(s, actions[..|actions| - 1], id, at) && (NewLease(before.queue, Apply(before, a).queue, id) ==> at <= before.clock))
  }

  lemma {:induction false} RunWaits(s: System, actions: seq<Action>, id: RowId, at: int)
    requires Waits(s, id, at) && Legal(s, actions) && LeavesRow(actions, id)
    ensures Waits(Run(s, actions), id, at) && LeasedFrom(s, actions, id, at)
  {
    if actions != [] {
      var front, a := actions[..|actions| - 1], actions[|actions| - 1];
      RunWaits(s, front, id, at);
      assert LeavesRow([a], id);
      StepWaits(Run(s, front), a, id, at);
    }
  }

  /** After a recorded failure that is to be retried at `at`, no continuation that leaves the row alone leases it before that time. */
  lemma RetryWaits(s: System, send: Send, attempt: nat, at: int, more: seq<Action>)
    requires Enabled(s, Report(send, Retry(attempt, at))) && send.id in s.queue.rows && s.queue.rows[send.id].owner == Some(send.owner)
    requires Legal(Apply(s, Report(send, Retry(attempt, at))), more) && LeavesRow(more, send.id)
    ensures LeasedFrom(Apply(s, Report(send, Retry(attempt, at))), more, send.id, at)
  {
    RunWaits(Apply(s, Report(send, Retry(attempt, at))), more, send.id, at);
  }

  // ---------------------------------------------------------------- a claim pass

  /** By priority, then position. */
  predicate NoLater(a: Delivery, b: Delivery) { a.priority < b.priority || (a.priority == b.priority && a.pos <= b.pos) }

  /** No ready row without a key that a pass left in a subscription goes before one it claimed there. */
  lemma PicksAreFirst(q: Queue, q': Queue, picks: seq<RowId>, t: Terms, i: nat, x: RowId)
    requires Pass(q, q', picks, t) && i < |picks|
    requires Ready(q, x, t.now) && q.rows[x].key == None && x.sub == picks[i].sub && x !in picks
    ensures picks[i] in q.rows && NoLater(q.rows[picks[i]], q.rows[x])
  {
    EachWasGranted(q, picks, i, t.now, t.owner, t.until);
    var before := LeaseAll(q, picks[..i], t.owner, t.until);
    StaysReady(q, picks[..i], x, t.now, t.owner, t.until);
    ReadyIff(before, x, t.now);
    LeasesChangeLeases(q, picks[..i], t.owner, t.until);
    assert Before(before.rows[picks[i]], before.rows[x]);
  }

  /** A pass below its limits leaves no ready row in a subscription it could have served. */
  lemma PassLeavesNothing(q: Queue, q': Queue, picks: seq<RowId>, t: Terms, x: RowId)
    requires Pass(q, q', picks, t) && |picks| < t.limit && Vacant(q', x.sub, t.now, t.locked)
    requires q.subs[x.sub].app ==> |AppPicks(q, picks)| < t.maxApp
    ensures !Ready(q', x, t.now)
  {
    BusyIsLive(q', x.sub, t.now);
    ReadyIff(q', x, t.now);
    assert Servable(q, x.sub, q.subs[x.sub].app, t.locked);
    assert Drained(q', x.sub, t.now);
  }

  lemma {:induction false} BestAmong(q: Queue, ids: set<RowId>) returns (b: RowId)
    requires ids != {} && forall x | x in ids :: x in q.rows
    ensures b in ids && forall x | x in ids :: Before(q.rows[b], q.rows[x])
  {
    b :| b in ids;
    if ids != {b} {
      var c := BestAmong(q, ids - {b});
      if !Before(q.rows[b], q.rows[c]) { b := c; }
    }
  }

  lemma BestExists(q: Queue, id: RowId, now: int) returns (b: RowId)
    requires Ready(q, id, now)
    ensures b.sub == id.sub && Ready(q, b, now) && Best(q, b, now) && NoLater(q.rows[b], q.rows[id])
  {
    var ids := set x | x in q.rows && x.sub == id.sub && Claimable(q, x, now);
    ReadyIff(q, id, now);
    assert id in ids;
    b := BestAmong(q, ids);
    ReadyIff(q, b, now);
  }

  /** A first-party subscription with a ready row is passed over only for subscriptions that have one no later. */
  lemma PassedOverForEarlier(q: Queue, q': Queue, picks: seq<RowId>, t: Terms, x: RowId, i: nat) returns (b: RowId)
    requires Pass(q, q', picks, t) && t.until > t.now && i < |picks| && picks[i].sub in q.subs && !q.subs[picks[i].sub].app
    requires Ready(q, x, t.now) && Vacant(q, x.sub, t.now, t.locked) && !q.subs[x.sub].app && forall j | 0 <= j < |picks| :: picks[j].sub != x.sub
    ensures b.sub == picks[i].sub && Ready(q, b, t.now) && NoLater(q.rows[b], q.rows[x])
  {
    PassTakesReady(q, q', picks, t);
    b := BestExists(q, picks[i], t.now);
    var c := BestExists(q, x, t.now);
    BusyIsLive(q, x.sub, t.now);
    ReadyIff(q, x, t.now);
    assert picks[i].sub in SubsOf(picks) && x.sub !in SubsOf(picks);
    assert Servable(q, picks[i].sub, false, t.locked) && Eligible(q, x.sub, false, t.now, t.locked);
    assert RanksBefore(q, picks[i].sub, x.sub, t.now);
    assert Before(q.rows[b], q.rows[c]);
  }
}
