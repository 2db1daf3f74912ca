/** Progress: no row can be stranded, and between replays a row takes at most as many results as it has attempts. */
module DeliveryProgress {
  import opened Wrappers
  import opened Deliveries
  import DeliveryOrder

  // ---------------------------------------------------------------- nothing is stranded

  /** A row still to be delivered is due at some time. */
  predicate AlwaysDue(q: Queue) {
    forall id | id in q.rows && Open(q.rows[id]) :: q.rows[id].due.Some?
  }

  lemma {:induction false} RequeueStaysDue(q: Queue, sub: string, items: seq<Replayed>, at: int)
    requires AlwaysDue(q)
    ensures AlwaysDue(RequeueAll(q, sub, items, at))
  {
    if items != [] { RequeueStaysDue(q, sub, items[..|items| - 1], at); }
  }

  lemma StepStaysDue(s: System, a: Action)
    requires AlwaysDue(s.queue)
    ensures AlwaysDue(Apply(s, a).queue)
  {
    if a.Replay? { RequeueStaysDue(s.queue, a.sub, a.items, a.at); }
  }

  lemma {:induction false} EveryOpenRowIsDue(s: System, actions: seq<Action>)
    requires Initial(s) && Legal(s, actions)
    ensures AlwaysDue(Run(s, actions).queue)
  {
    if actions != [] {
      EveryOpenRowIsDue(s, actions[..|actions| - 1]);
      StepStaysDue(Run(s, actions[..|actions| - 1]), actions[|actions| - 1]);
    }
  }

  /** The rows that must be settled before `id` can be: open rows of its key, or itself. */
  function Contenders(q: Queue, id: RowId): (c: set<RowId>)
    requires id in q.rows && Open(q.rows[id])
    ensures id in c
  {
    set x | x in q.rows && Open(q.rows[x]) && (x == id || SameKey(q, id, x))
  }

  lemma {:induction false} Earliest(q: Queue, c: set<RowId>) returns (h: RowId)
    requires c != {} && forall x | x in c :: x in q.rows
    ensures h in c && forall x | x in c :: q.rows[h].pos <= q.rows[x].pos
  {
    h :| h in c;
    if c != {h} {
      var g := Earliest(q, c - {h});
      if q.rows[g].pos < q.rows[h].pos { h := g; }
    }
  }

  /**
   From every reachable state, once the clock passes the due times of a row's key and the subscription's lease ends,
   some row of that key no later than it can be claimed by any worker.
   */
  lemma NothingIsStranded(s: System, actions: seq<Action>, id: RowId, now: int, owner: string, until: int)
    requires Initial(s) && Legal(s, actions)
    requires var q := Run(s, actions).queue;
      && id in q.rows && Open(q.rows[id])
      && id.sub in q.subs && q.subs[id.sub].enabled && q.subs[id.sub].maxInflight >= 1
      && (forall x | x in Contenders(q, id) :: q.rows[x].due.Some? ==> q.rows[x].due.value <= now)
      && (forall x | x in q.rows && x.sub == id.sub :: !Leased(q.rows[x], now))
      && owner != "" && now < until
    ensures var q := Run(s, actions).queue;
      exists h | h in Contenders(q, id) :: q.rows[h].pos <= q.rows[id].pos && Takes(q, h, owner, now, until, {})
  {
    EveryOpenRowIsDue(s, actions);
    var q := Run(s, actions).queue;
    var h := Earliest(q, Contenders(q, id));
    assert LiveLeases(q, id.sub, now) == {};
    if q.rows[h].key.Some? {
      forall x | x in q.rows && SameKey(q, h, x) && Open(q.rows[x]) ensures q.rows[h].pos <= q.rows[x].pos {
        assert x in Contenders(q, id);
      }
    }
    assert Takes(q, h, owner, now, until, {});
  }

  // ---------------------------------------------------------------- retries end

  /** Every row still to be delivered has attempts left. */
  predicate Retryable(q: Queue) {
    && (forall sub | sub in q.subs :: q.subs[sub].maxAttempts >= 1)
    && (forall id | id in q.rows :: id.sub in q.subs && q.rows[id].attempt <= q.subs[id.sub].maxAttempts)
    && (forall id | id in q.rows && Open(q.rows[id]) :: q.rows[id].attempt < q.subs[id.sub].maxAttempts)
  }

  /** The send that holds a row's lease read an attempt count the row has not passed. */
  predicate SendsCurrent(s: System) {
    forall x | x in s.sends && Held(s.queue, x.id, x.owner) && x.id.sub in s.queue.subs ::
      s.queue.rows[x.id].attempt <= x.attempt < s.queue.subs[x.id.sub].maxAttempts
  }

  /** A worker's send of a row is over before that worker claims the row again. */
  predicate OneSendEach(s: System, a: Action) {
    a.Claim? ==> forall x | x in s.sends && x.id == a.id :: x.owner != a.owner
  }

  predicate Exclusive(s: System, actions: seq<Action>) {
    actions == [] ||
    (Exclusive(s, actions[..|actions| - 1]) && OneSendEach(Run(s, actions[..|actions| - 1]), actions[|actions| - 1]))
  }

  lemma {:induction false} RequeueStaysRetryable(q: Queue, sub: string, items: seq<Replayed>, at: int)
    requires Retryable(q) && sub in q.subs
    ensures var q' := RequeueAll(q, sub, items, at);
      && Retryable(q') && q'.subs == q.subs && q.rows.Keys <= q'.rows.Keys
      && (forall id | id in q'.rows && q'.rows[id].owner.Some? ::
            id in q.rows && q'.rows[id].owner == q.rows[id].owner && q'.rows[id].attempt <= q.rows[id].attempt)
  {
    if items != [] { RequeueStaysRetryable(q, sub, items[..|items| - 1], at); }
  }

  lemma StepStaysRetryable(s: System, a: Action)
    requires Retryable(s.queue) && SendsCurrent(s) && Enabled(s, a) && OneSendEach(s, a)
    ensures Retryable(Apply(s, a).queue) && SendsCurrent(Apply(s, a))
  {
    match a
    case Replay(sub, items, at) => RequeueStaysRetryable(s.queue, sub, items, at);
    case Report(send, o) => ReportStaysRetryable(s, send, o);
    case Claim(id, owner, now, until, locked) => ClaimStaysRetryable(s, a);
    case Lose(send) => FewerSendsCurrent(s, Apply(s, a));
    case _ =>
  }

  lemma FewerSendsCurrent(s: System, s': System)
    requires SendsCurrent(s) && s'.queue == s.queue && forall x | x in s'.sends :: x in s.sends
    ensures SendsCurrent(s')
  {
  }

  lemma ClaimStaysRetryable(s: System, a: Action)
    requires Retryable(s.queue) && SendsCurrent(s) && a.Claim? && OneSendEach(s, a)
    ensures Retryable(Apply(s, a).queue) && SendsCurrent(Apply(s, a))
  {
  }

  lemma ReportStaysRetryable(s: System, send: Send, o: Outcome)
    requires Retryable(s.queue) && SendsCurrent(s) && Enabled(s, Report(send, o))
    ensures Retryable(Apply(s, Report(send, o)).queue) && SendsCurrent(Apply(s, Report(send, o)))
  {
    RecordStaysRetryable(s, send, o);
    var s' := Apply(s, Report(send, o));
    forall x | x in s'.sends && Held(s'.queue, x.id, x.owner) && x.id.sub in s'.queue.subs
      ensures s'.queue.rows[x.id].attempt <= x.attempt < s'.queue.subs[x.id.sub].maxAttempts
    {
      assert x in s.sends && Held(s.queue, x.id, x.owner) && s'.queue.rows[x.id] == s.queue.rows[x.id];
    }
  }

  lemma RecordStaysRetryable(s: System, send: Send, o: Outcome)
    requires Retryable(s.queue) && SendsCurrent(s) && Enabled(s, Report(send, o))
    ensures Retryable(Record(s.queue, send.id, send.owner, o))
  {
  }

  /** Results recorded for row `id`. */
  function Results(s: System, actions: seq<Action>, id: RowId): nat {
    if actions == [] then 0
    else
      var before, a := Run(s, actions[..|actions| - 1]), actions[|actions| - 1];
      Results(s, actions[..|actions| - 1], id) +
      (if a.Report? && a.send.id == id && Held(before.queue, id, a.send.owner) then 1 else 0)
  }

  predicate LeavesAlone(actions: seq<Action>) {
    forall i | 0 <= i < |actions| :: !actions[i].Replay? && !actions[i].Prune?
  }

  /** From the empty store, `Retryable` and `SendsCurrent` hold, so they hold in every state of a run. */
  lemma {:induction false} RunStaysRetryable(s: System, actions: seq<Action>)
    requires Retryable(s.queue) && SendsCurrent(s) && Legal(s, actions) && Exclusive(s, actions)
    ensures Retryable(Run(s, actions).queue) && SendsCurrent(Run(s, actions))
  {
    if actions != [] {
      RunStaysRetryable(s, actions[..|actions| - 1]);
      StepStaysRetryable(Run(s, actions[..|actions| - 1]), actions[|actions| - 1]);
    }
  }

  lemma AttemptsGrow(s: System, a: Action, id: RowId)
    requires SendsCurrent(s) && Enabled(s, a) && id in s.queue.rows && id.sub in s.queue.subs && !a.Replay? && !a.Prune?
    ensures var s' := Apply(s, a);
      && id in s'.queue.rows && id.sub in s'.queue.subs && s'.queue.subs[id.sub].maxAttempts == s.queue.subs[id.sub].maxAttempts
      && s.queue.rows[id].attempt + (if a.Report? && a.send.id == id && Held(s.queue, id, a.send.owner) then 1 else 0)
         <= s'.queue.rows[id].attempt
  {
  }

  /** Every recorded result uses up an attempt, so there are never more results than attempts left. */
  lemma {:induction false} RetriesEnd(s: System, actions: seq<Action>, id: RowId)
    requires Retryable(s.queue) && SendsCurrent(s) && id in s.queue.rows
    requires Legal(s, actions) && Exclusive(s, actions) && LeavesAlone(actions)
    ensures var s' := Run(s, actions);
      && id in s'.queue.rows && id.sub in s'.queue.subs
      && s'.queue.subs[id.sub].maxAttempts == s.queue.subs[id.sub].maxAttempts
      && s.queue.rows[id].attempt + Results(s, actions, id) <= s'.queue.rows[id].attempt
      && Results(s, actions, id) <= s.queue.subs[id.sub].maxAttempts - s.queue.rows[id].attempt
  {
    RunStaysRetryable(s, actions);
    if actions != [] {
      RetriesEnd(s, actions[..|actions| - 1], id);
      RunStaysRetryable(s, actions[..|actions| - 1]);
      AttemptsGrow(Run(s, actions[..|actions| - 1]), actions[|actions| - 1], id);
    }
  }

  /** Exactly when a recorded result uses up an attempt: its send read the row's present count, or a higher one. */
  lemma ResultCountsIff(s: System, send: Send, o: Outcome)
    requires Enabled(s, Report(send, o)) && Held(s.queue, send.id, send.owner)
    ensures var row, row' := s.queue.rows[send.id], Apply(s, Report(send, o)).queue.rows[send.id];
      row'.attempt > row.attempt <==> send.attempt >= row.attempt
  {
  }

  /** A result that comes after another worker took the lease over, or after the lease was given up, changes no row. */
  lemma LostLeaseChangesNothing(s: System, send: Send, o: Outcome)
    requires send.id in s.queue.rows ==> s.queue.rows[send.id].owner != Some(send.owner)
    ensures Apply(s, Report(send, o)).queue == s.queue
  {
  }

  // ---------------------------------------------------------------- exactly when results count

  /** Every result recorded for the row raises its attempt count. */
  predicate ResultsCount(s: System, actions: seq<Action>, id: RowId) {
    actions == [] ||
    (var before, a := Run(s, actions[..|actions| - 1]), actions[|actions| - 1];
     && ResultsCount(s, actions[..|actions| - 1], id)
     && (a.Report? && a.send.id == id && Held(before.queue, id, a.send.owner) ==>
           Apply(before, a).queue.rows[id].attempt > before.queue.rows[id].attempt))
  }

  /** An earlier send of the row by that worker, from before a result it does not know of, is still under way. */
  predicate Outdated(s: System, id: RowId, owner: string, attempt: nat) {
    exists x | x in s.sends :: x.id == id && x.owner == owner && x.attempt < attempt
  }

  /** The lease holder's sends of the row read its present count or a higher one. */
  predicate Fits(s: System, id: RowId) {
    id in s.queue.rows && forall x | x in s.sends && x.id == id && Held(s.queue, id, x.owner) :: x.attempt >= s.queue.rows[id].attempt
  }

  lemma SameRowFits(s: System, s': System, id: RowId)
    requires Fits(s, id) && id in s'.queue.rows && s'.queue.rows[id] == s.queue.rows[id] && forall x | x in s'.sends :: x in s.sends
    ensures Fits(s', id)
  {
  }

  lemma ReportFits(s: System, send: Send, o: Outcome, id: RowId)
    requires Fits(s, id) && Enabled(s, Report(send, o))
    ensures Fits(Apply(s, Report(send, o)), id)
    ensures send.id == id && Held(s.queue, id, send.owner) ==>
              Apply(s, Report(send, o)).queue.rows[id].attempt > s.queue.rows[id].attempt
  {
    if send.id == id && Held(s.queue, id, send.owner) {
      ResultCountsIff(s, send, o);
    } else {
      SameRowFits(s, Apply(s, Report(send, o)), id);
    }
  }

  lemma ClaimFits(s: System, a: Action, id: RowId)
    requires Fits(s, id) && a.Claim? && OneSendEach(s, a)
    ensures Fits(Apply(s, a), id)
  {
  }

  lemma StepFits(s: System, a: Action, id: RowId)
    requires Fits(s, id) && Enabled(s, a) && OneSendEach(s, a) && !a.Replay? && !a.Prune?
    ensures Fits(Apply(s, a), id)
    ensures a.Report? && a.send.id == id && Held(s.queue, id, a.send.owner) ==> Apply(s, a).queue.rows[id].attempt > s.queue.rows[id].attempt
  {
    match a
    case Report(send, o) => ReportFits(s, send, o, id);
    case Claim(_, _, _, _, _) => ClaimFits(s, a, id);
    case Lose(send) => SameRowFits(s, Apply(s, a), id);
    case _ => SameRowFits(s, Apply(s, a), id);
  }

  lemma {:induction false} RunFits(s: System, actions: seq<Action>, id: RowId)
    requires Fits(s, id) && Legal(s, actions) && Exclusive(s, actions) && LeavesAlone(actions)
    ensures Fits(Run(s, actions), id) && ResultsCount(s, actions, id)
  {
    if actions != [] {
      RunFits(s, actions[..|actions| - 1], id);
      StepFits(Run(s, actions[..|actions| - 1]), actions[|actions| - 1], id);
    }
  }

  /** The worker's outdated send may report at once, and its result is recorded without raising the count. */
  lemma OutdatedReports(s: System, x: Send)
    requires x in s.sends && Held(s.queue, x.id, x.owner) && x.attempt < s.queue.rows[x.id].attempt
    ensures var more := [Report(x, Success(x.attempt + 1))];
      Legal(s, more) && Exclusive(s, more) && LeavesAlone(more) && !ResultsCount(s, more, x.id)
  {
    var more := [Report(x, Success(x.attempt + 1))];
    assert more[..|more| - 1] == [] && Run(s, []) == s && more[|more| - 1] == more[0];
    assert Enabled(s, more[0]) && OneSendEach(s, more[0]);
  }

  /**
   Exactly which claims are safe: after a claim every continuation in which no worker's sends of a row overlap anew raises the count
   with each recorded result of the row, if and only if no send of the row by the same worker with a lower count is still under way.
   */
  lemma ResultsCountIff(s: System, id: RowId, owner: string, now: int, until: int, locked: set<string>)
    requires Enabled(s, Claim(id, owner, now, until, locked)) && Takes(s.queue, id, owner, now, until, locked)
    ensures var after := Apply(s, Claim(id, owner, now, until, locked));
      !Outdated(s, id, owner, s.queue.rows[id].attempt) <==>
        forall more | Legal(after, more) && Exclusive(after, more) && LeavesAlone(more) :: ResultsCount(after, more, id)
  {
    var n := s.queue.rows[id].attempt;
    var after := Apply(s, Claim(id, owner, now, until, locked));
    if Outdated(s, id, owner, n) {
      var x :| x in s.sends && x.id == id && x.owner == owner && x.attempt < n;
      assert x in after.sends;
      OutdatedReports(after, x);
    } else {
      assert Fits(after, id);
      forall more | Legal(after, more) && Exclusive(after, more) && LeavesAlone(more) ensures ResultsCount(after, more, id) {
        RunFits(after, more, id);
      }
    }
  }

  // ---------------------------------------------------------------- why a worker must finish first

  const SUBS := map["s" := Subscription(true, false, 1, 8)]
  const ROW := RowId("a", "s")

  const NEW := Fresh(1, 1, None, 0)

  /** The row of a new event, leased until 9. */
  lemma FirstLease() returns (actions: seq<Action>, claims: seq<DeliveryOrder.Claimed>)
    ensures DeliveryOrder.Reaches(actions, System(Queue(map[ROW := NEW.(owner := Some("w"), leaseUntil := Some(9))], SUBS), 0, 1,
                                                  multiset{Send("w", ROW, 0)}), claims)
  {
    var s0, s1 := System(Queue(map[], SUBS), 0, 0, multiset{}), System(Queue(map[ROW := NEW], SUBS), 0, 1, multiset{});
    var subscribe, commit := Subscribe("s", Subscription(true, false, 1, 8)), Commit("a", 1, None, {"s"}, 0);
    actions, claims := [], [];
    assert Apply(DeliveryOrder.START, subscribe) == s0;
    actions := Quiet(actions, DeliveryOrder.START, s0, claims, subscribe);
    assert Apply(s0, commit).queue.rows == s1.queue.rows;
    actions := Quiet(actions, s0, s1, claims, commit);
    actions, claims := Take(actions, s1, System(Queue(map[ROW := NEW.(owner := Some("w"), leaseUntil := Some(9))], SUBS), 0, 1,
                                                multiset{Send("w", ROW, 0)}), claims, "w", 0, 9);
  }

  /** One worker's lease has expired, and another holds the row. */
  lemma LeaseTakenOver() returns (actions: seq<Action>, claims: seq<DeliveryOrder.Claimed>)
    ensures DeliveryOrder.Reaches(actions, System(Queue(map[ROW := NEW.(owner := Some("v"), leaseUntil := Some(18))], SUBS), 9, 1,
                                                  multiset{Send("w", ROW, 0), Send("v", ROW, 0)}), claims)
  {
    var s2 := System(Queue(map[ROW := NEW.(owner := Some("w"), leaseUntil := Some(9))], SUBS), 0, 1, multiset{Send("w", ROW, 0)});
    var s3 := s2.(clock := 9);
    var s4 := System(Queue(map[ROW := NEW.(owner := Some("v"), leaseUntil := Some(18))], SUBS), 9, 1, multiset{Send("w", ROW, 0), Send("v", ROW, 0)});
    actions, claims := FirstLease();
    actions := Quiet(actions, s2, s3, claims, Tick(9));
    actions, claims := Take(actions, s3, s4, claims, "v", 9, 18);
  }

  /** The other's attempt failed, and the first worker holds the row again. */
  lemma TwoSendsOfOneWorker() returns (actions: seq<Action>, claims: seq<DeliveryOrder.Claimed>)
    ensures DeliveryOrder.Reaches(actions, System(
        Queue(map[ROW := Delivery(1, 1, None, Failed, 1, Some(9), Some("w"), Some(18))], SUBS), 9, 1, multiset{Send("w", ROW, 0), Send("w", ROW, 1)}), claims)
  {
    var failed := Settle(NEW, Retry(1, 9));
    var s4 := System(Queue(map[ROW := NEW.(owner := Some("v"), leaseUntil := Some(18))], SUBS), 9, 1, multiset{Send("w", ROW, 0), Send("v", ROW, 0)});
    var s5 := System(Queue(map[ROW := failed], SUBS), 9, 1, multiset{Send("w", ROW, 0)});
    actions, claims := LeaseTakenOver();
    actions := Quiet(actions, s4, s5, claims, Report(Send("v", ROW, 0), Retry(1, 9)));
    actions, claims := Take(actions, s5, System(Queue(map[ROW := failed.(owner := Some("w"), leaseUntil := Some(18))], SUBS), 9, 1,
                                                multiset{Send("w", ROW, 0), Send("w", ROW, 1)}), claims, "w", 9, 18);
  }

  lemma Quiet(actions: seq<Action>, s: System, t: System, claims: seq<DeliveryOrder.Claimed>, a: Action) returns (more: seq<Action>)
    requires DeliveryOrder.Reaches(actions, s, claims) && Enabled(s, a) && !a.Claim? && Apply(s, a) == t
    ensures more == actions + [a] && DeliveryOrder.Reaches(more, t, claims)
  {
    DeliveryOrder.Quietly(actions, s, claims, a);
    more := actions + [a];
  }

  lemma Take(actions: seq<Action>, s: System, t: System, claims: seq<DeliveryOrder.Claimed>, owner: string, now: int, until: int)
    returns (more: seq<Action>, mine: seq<DeliveryOrder.Claimed>)
    requires DeliveryOrder.Reaches(actions, s, claims) && now <= s.clock && now < until && owner != ""
    requires s.queue.subs == SUBS && s.queue.rows.Keys == {ROW}
    requires var d := s.queue.rows[ROW]; Open(d) && d.due.Some? && d.due.value <= now && !Leased(d, now)
    requires t == s.(queue := Lease(s.queue, ROW, owner, until), sends := s.sends + multiset{Send(owner, ROW, s.queue.rows[ROW].attempt)})
    ensures more == actions + [Claim(ROW, owner, now, until, {})] && DeliveryOrder.Reaches(more, t, mine)
  {
    DeliveryOrder.FreeHeadIsTaken(s.queue, ROW, owner, now, until);
    DeliveryOrder.Claiming(actions, s, claims, Claim(ROW, owner, now, until, {}));
    more := actions + [Claim(ROW, owner, now, until, {})];
    mine := claims + [DeliveryOrder.Claimed("s", s.queue.rows[ROW].key, s.queue.rows[ROW].pos)];
  }

  /**
   The lease check names a worker, not a claim. Without `OneSendEach` a worker's older, late result passes it and is
   recorded as attempt 1 a second time: the attempt count stands still.
   */
  lemma LateResultOfSameWorker() returns (actions: seq<Action>, late: Action)
    ensures Legal(DeliveryOrder.START, actions + [late])
    ensures var s := Run(DeliveryOrder.START, actions);
      Effective(s, late) && late.Report? && ROW in s.queue.rows &&
      Apply(s, late).queue.rows[ROW].attempt == s.queue.rows[ROW].attempt == 1
  {
    var claims;
    actions, claims := TwoSendsOfOneWorker();
    late := Report(Send("w", ROW, 0), Retry(1, 20));
    DeliveryOrder.Quietly(actions, Run(DeliveryOrder.START, actions), claims, late);
  }
}
