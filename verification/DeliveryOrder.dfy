/** Order per key: a key is claimed in publish order unless an operator's replay takes an event back, and otherwise delivered or dead rows stay so. */
module DeliveryOrder {
  import opened Wrappers
  import opened Deliveries

  predicate Finished(d: Delivery) { d.status.Delivered? || d.status.Dead? }

  /** The row was leased or attempted at some time. */
  predicate Touched(d: Delivery) { d.owner.Some? || d.leaseUntil.Some? || d.attempt > 0 || !d.status.Pending? }

  /** What orders need of a store, replays or not: rows lie within the log, and only an open row has a lease owner. */
  predicate Steady(s: System) {
    && (forall id | id in s.queue.rows :: s.queue.rows[id].pos <= s.lastSeq)
    && (forall id | id in s.queue.rows && s.queue.rows[id].owner.Some? :: Open(s.queue.rows[id]))
  }

  /** Everything before a touched row of its key is delivered or dead. */
  predicate KeyOrdered(q: Queue) {
    forall id, x | id in q.rows && x in q.rows && SameKey(q, id, x) && Touched(q.rows[id]) && q.rows[x].pos < q.rows[id].pos ::
      Finished(q.rows[x])
  }

  predicate Ordered(s: System) { Steady(s) && KeyOrdered(s.queue) }

  predicate NoReplay(actions: seq<Action>) { forall i | 0 <= i < |actions| :: !actions[i].Replay? }

  lemma CommitStaysOrdered(s: System, event: string, priority: nat, key: Option<string>, targets: set<string>, at: int)
    requires Ordered(s)
    ensures KeyOrdered(FanOut(s.queue, event, s.lastSeq + 1, priority, key, targets, at))
  {
    var q, q' := s.queue, FanOut(s.queue, event, s.lastSeq + 1, priority, key, targets, at);
    forall id, x | id in q'.rows && x in q'.rows && SameKey(q', id, x) && Touched(q'.rows[id]) && q'.rows[x].pos < q'.rows[id].pos
      ensures Finished(q'.rows[x])
    {
      if id in q.rows && x in q.rows { assert SameKey(q, id, x); }
    }
  }

  lemma LeaseStaysOrdered(q: Queue, id: RowId, owner: string, now: int, until: int)
    requires KeyOrdered(q) && Claimable(q, id, now)
    ensures KeyOrdered(Lease(q, id, owner, until))
  {
    var q' := Lease(q, id, owner, until);
    forall a, x | a in q'.rows && x in q'.rows && SameKey(q', a, x) && Touched(q'.rows[a]) && q'.rows[x].pos < q'.rows[a].pos
      ensures Finished(q'.rows[x])
    {
      assert SameKey(q, a, x);
    }
  }

  lemma RecordStaysOrdered(q: Queue, id: RowId, owner: string, o: Outcome)
    requires KeyOrdered(q) && (forall x | x in q.rows && q.rows[x].owner.Some? :: Open(q.rows[x]))
    ensures KeyOrdered(Record(q, id, owner, o))
  {
    var q' := Record(q, id, owner, o);
    forall a, x | a in q'.rows && x in q'.rows && SameKey(q', a, x) && Touched(q'.rows[a]) && q'.rows[x].pos < q'.rows[a].pos
      ensures Finished(q'.rows[x])
    {
      assert SameKey(q, a, x);
    }
  }

  lemma StepStaysOrdered(s: System, a: Action)
    requires Ordered(s) && Enabled(s, a) && !a.Replay?
    ensures Ordered(Apply(s, a))
  {
    StepStaysSteady(s, a);
    match a
    case Commit(event, priority, key, targets, at) => CommitStaysOrdered(s, event, priority, key, targets, at);
    case Claim(id, owner, now, until, locked) =>
      if Takes(s.queue, id, owner, now, until, locked) { LeaseStaysOrdered(s.queue, id, owner, now, until); }
    case Report(send, o) => RecordStaysOrdered(s.queue, send.id, send.owner, o);
    case Prune(events) => ForgetStaysOrdered(s.queue, events);
    case Subscribe(sub, n) => SameRowsStayOrdered(s.queue, Apply(s, a).queue);
    case _ =>
  }

  lemma ForgetStaysOrdered(q: Queue, events: set<string>)
    requires KeyOrdered(q)
    ensures KeyOrdered(Forget(q, events))
  {
    var q' := Forget(q, events);
    forall a, x | a in q'.rows && x in q'.rows && SameKey(q', a, x) && Touched(q'.rows[a]) && q'.rows[x].pos < q'.rows[a].pos
      ensures Finished(q'.rows[x])
    {
      assert SameKey(q, a, x);
    }
  }

  lemma SameRowsStayOrdered(q: Queue, q': Queue)
    requires KeyOrdered(q) && q'.rows == q.rows
    ensures KeyOrdered(q')
  {
    forall a, x | a in q'.rows && x in q'.rows && SameKey(q', a, x) && Touched(q'.rows[a]) && q'.rows[x].pos < q'.rows[a].pos
      ensures Finished(q'.rows[x])
    {
      assert SameKey(q, a, x);
    }
  }

  /** Delivered and dead are final: without a replay nothing changes such a row again, except that retention removes it. */
  lemma FinishedIsFinal(s: System, a: Action, id: RowId)
    requires Ordered(s) && Enabled(s, a) && !a.Replay?
    requires id in s.queue.rows && Finished(s.queue.rows[id])
    ensures id in Apply(s, a).queue.rows ==> Apply(s, a).queue.rows[id] == s.queue.rows[id]
  {
  }

  /**
   In every run without a replay a keyed row is touched only when every earlier row of its key that is still there
   is delivered or dead.
   */
  lemma {:induction false} EveryRunIsOrdered(s: System, actions: seq<Action>)
    requires Initial(s) && Legal(s, actions) && NoReplay(actions)
    ensures Ordered(Run(s, actions))
  {
    if actions != [] {
      EveryRunIsOrdered(s, actions[..|actions| - 1]);
      StepStaysOrdered(Run(s, actions[..|actions| - 1]), actions[|actions| - 1]);
    }
  }

  // ---------------------------------------------------------------- claims over time

  /** One claim that took its row. */
  datatype Claimed = Claimed(sub: string, key: Option<string>, pos: nat)

  /** The claims of a run, in the order they committed. */
  function Claims(s: System, actions: seq<Action>): seq<Claimed> {
    if actions == [] then []
    else
      var before, a := Run(s, actions[..|actions| - 1]), actions[|actions| - 1];
      Claims(s, actions[..|actions| - 1]) +
      (if a.Claim? && Takes(before.queue, a.id, a.owner, a.now, a.until, a.locked)
       then [Claimed(a.id.sub, before.queue.rows[a.id].key, before.queue.rows[a.id].pos)] else [])
  }

  /** What is still to be delivered of a claimed key is not earlier than what was claimed. */
  predicate Behind(s: System, claims: seq<Claimed>) {
    forall i, id | 0 <= i < |claims| && id in s.queue.rows && Open(s.queue.rows[id]) && claims[i].key.Some?
      && id.sub == claims[i].sub && s.queue.rows[id].key == claims[i].key :: claims[i].pos <= s.queue.rows[id].pos
  }

  predicate Known(s: System, claims: seq<Claimed>) { forall i | 0 <= i < |claims| :: claims[i].pos <= s.lastSeq }

  predicate InPublishOrder(claims: seq<Claimed>) {
    forall i, j | 0 <= i < j < |claims| && claims[i].key.Some? && claims[i].sub == claims[j].sub && claims[i].key == claims[j].key ::
      claims[i].pos <= claims[j].pos
  }

  lemma StepStaysSteady(s: System, a: Action)
    requires Steady(s) && Enabled(s, a)
    ensures Steady(Apply(s, a))
  {
    if a.Replay? { RequeueStaysSteady(s, a.sub, a.items, a.at); }
  }

  lemma {:induction false} RequeueStaysSteady(s: System, sub: string, items: seq<Replayed>, at: int)
    requires Steady(s) && forall i | 0 <= i < |items| :: items[i].pos <= s.lastSeq
    ensures Steady(s.(queue := RequeueAll(s.queue, sub, items, at)))
  {
    if items != [] { RequeueStaysSteady(s, sub, items[..|items| - 1], at); }
  }

  lemma {:induction false} EveryRunIsSteady(s: System, actions: seq<Action>)
    requires Initial(s) && Legal(s, actions)
    ensures Steady(Run(s, actions))
  {
    if actions != [] {
      EveryRunIsSteady(s, actions[..|actions| - 1]);
      StepStaysSteady(Run(s, actions[..|actions| - 1]), actions[|actions| - 1]);
    }
  }

  lemma ClaimKeepsOrder(s: System, a: Action, claims: seq<Claimed>)
    requires Steady(s) && Enabled(s, a) && !a.Replay?
    requires Behind(s, claims) && Known(s, claims) && InPublishOrder(claims)
    ensures var s' := Apply(s, a);
      && (a.Claim? && Takes(s.queue, a.id, a.owner, a.now, a.until, a.locked) ==>
          var more := claims + [Claimed(a.id.sub, s.queue.rows[a.id].key, s.queue.rows[a.id].pos)];
          Behind(s', more) && Known(s', more) && InPublishOrder(more))
      && Behind(s', claims) && Known(s', claims)
  {
    var q, s' := s.queue, Apply(s, a);
    if a.Claim? && Takes(q, a.id, a.owner, a.now, a.until, a.locked) {
      var c := Claimed(a.id.sub, q.rows[a.id].key, q.rows[a.id].pos);
      forall id | id in s'.queue.rows && Open(s'.queue.rows[id]) && c.key.Some? && id.sub == c.sub && s'.queue.rows[id].key == c.key
        ensures c.pos <= s'.queue.rows[id].pos
      {
        assert SameKey(q, a.id, id);
      }
    }
  }

  // ---------------------------------------------------------------- what a replay does to the order

  /** The first of the items that names its event; the later ones find its row there. */
  predicate First(items: seq<Replayed>, i: int)
    requires 0 <= i < |items|
  {
    forall j | 0 <= j < i :: items[j].event != items[i].event
  }

  /** Where a replayed event will stand: with the key and position of its row, or those of the event when retention took the row. */
  function Placed(q: Queue, sub: string, r: Replayed): Claimed {
    var id := RowId(r.event, sub);
    if id in q.rows then Claimed(sub, q.rows[id].key, q.rows[id].pos) else Claimed(sub, r.key, r.pos)
  }

  predicate LiesBehind(a: Claimed, c: Claimed) { a.sub == c.sub && a.key.Some? && a.key == c.key && a.pos < c.pos }

  /** None of the replayed events will stand before a claimed one of its key. */
  predicate NoneGoesBack(q: Queue, sub: string, items: seq<Replayed>, claims: seq<Claimed>) {
    forall i, j | 0 <= i < |items| && 0 <= j < |claims| && First(items, i) :: !LiesBehind(Placed(q, sub, items[i]), claims[j])
  }

  lemma {:induction false} StandsAsPlaced(q: Queue, sub: string, items: seq<Replayed>, at: int, i: int)
    requires 0 <= i < |items| && First(items, i)
    ensures var q', id := RequeueAll(q, sub, items, at), RowId(items[i].event, sub);
      id in q'.rows && Open(q'.rows[id]) && Claimed(sub, q'.rows[id].key, q'.rows[id].pos) == Placed(q, sub, items[i])
  {
    var front := items[..|items| - 1];
    if i < |front| {
      assert First(front, i);
      StandsAsPlaced(q, sub, front, at, i);
    } else {
      forall j | 0 <= j < |front| ensures front[j].event != items[i].event { assert items[j] == front[j]; }
      OthersStay(q, sub, front, at, RowId(items[i].event, sub));
    }
  }

  lemma {:induction false} OthersStay(q: Queue, sub: string, items: seq<Replayed>, at: int, id: RowId)
    requires id.sub != sub || forall j | 0 <= j < |items| :: items[j].event != id.event
    ensures var q' := RequeueAll(q, sub, items, at); (id in q'.rows <==> id in q.rows) && (id in q.rows ==> q'.rows[id] == q.rows[id])
  {
    if items != [] {
      assert items[|items| - 1].event != id.event || id.sub != sub;
      OthersStay(q, sub, items[..|items| - 1], at, id);
    }
  }

  lemma {:induction false} FirstNaming(items: seq<Replayed>, j: int) returns (i: int)
    requires 0 <= j < |items|
    ensures 0 <= i <= j && First(items, i) && items[i].event == items[j].event
    decreases j
  {
    i := j;
    if !First(items, j) {
      var k :| 0 <= k < j && items[k].event == items[j].event;
      i := FirstNaming(items, k);
    }
  }

  /** A replay leaves everything open behind what was claimed exactly when none of its events goes back. */
  lemma ReplayKeepsOrderIff(s: System, sub: string, items: seq<Replayed>, at: int, claims: seq<Claimed>)
    requires Behind(s, claims)
    ensures Behind(Apply(s, Replay(sub, items, at)), claims) <==> NoneGoesBack(s.queue, sub, items, claims)
  {
    var q' := RequeueAll(s.queue, sub, items, at);
    if NoneGoesBack(s.queue, sub, items, claims) {
      forall j, id | 0 <= j < |claims| && id in q'.rows && Open(q'.rows[id]) && claims[j].key.Some?
        && id.sub == claims[j].sub && q'.rows[id].key == claims[j].key
        ensures claims[j].pos <= q'.rows[id].pos
      {
        if id.sub == sub && exists k :: 0 <= k < |items| && items[k].event == id.event {
          var k :| 0 <= k < |items| && items[k].event == id.event;
          var i := FirstNaming(items, k);
          StandsAsPlaced(s.queue, sub, items, at, i);
          assert !LiesBehind(Placed(s.queue, sub, items[i]), claims[j]);
        } else {
          OthersStay(s.queue, sub, items, at, id);
        }
      }
    } else {
      var i, j :| 0 <= i < |items| && 0 <= j < |claims| && First(items, i) && LiesBehind(Placed(s.queue, sub, items[i]), claims[j]);
      StandsAsPlaced(s.queue, sub, items, at, i);
    }
  }

  /** No replay of the run takes an event back behind a claim made before it. */
  predicate NoReplayGoesBack(s: System, actions: seq<Action>) {
    actions == [] ||
    (NoReplayGoesBack(s, actions[..|actions| - 1]) &&
     var a := actions[|actions| - 1];
     a.Replay? ==> NoneGoesBack(Run(s, actions[..|actions| - 1]).queue, a.sub, a.items, Claims(s, actions[..|actions| - 1])))
  }

  lemma {:induction false} WithoutReplays(s: System, actions: seq<Action>)
    requires NoReplay(actions)
    ensures NoReplayGoesBack(s, actions)
  {
    if actions != [] { WithoutReplays(s, actions[..|actions| - 1]); }
  }

  /**
   In every run whose replays take no event back the claims of one key, over all workers, carriers and expiries, come in
   publish order: no claim ever goes back behind an earlier claim of its (subscription, key).
   */
  lemma {:induction false} ClaimsFollowPublishOrder(s: System, actions: seq<Action>)
    requires Initial(s) && Legal(s, actions) && NoReplayGoesBack(s, actions)
    ensures InPublishOrder(Claims(s, actions))
    ensures Behind(Run(s, actions), Claims(s, actions)) && Known(Run(s, actions), Claims(s, actions))
  {
    if actions != [] {
      var front, a := actions[..|actions| - 1], actions[|actions| - 1];
      ClaimsFollowPublishOrder(s, front);
      EveryRunIsSteady(s, front);
      if a.Replay? {
        ReplayKeepsOrderIff(Run(s, front), a.sub, a.items, a.at, Claims(s, front));
        assert Claims(s, actions) == Claims(s, front);
      } else {
        ClaimKeepsOrder(Run(s, front), a, Claims(s, front));
      }
    }
  }

  /** `actions` is a legal run from the empty store to `s`, making `claims`. */
  predicate Reaches(actions: seq<Action>, s: System, claims: seq<Claimed>) {
    Legal(START, actions) && Run(START, actions) == s && Claims(START, actions) == claims
  }

  lemma Quietly(actions: seq<Action>, s: System, claims: seq<Claimed>, a: Action)
    requires Reaches(actions, s, claims) && Enabled(s, a) && !a.Claim?
    ensures Reaches(actions + [a], Apply(s, a), claims)
  {
    assert (actions + [a])[..|actions|] == actions;
  }

  lemma Claiming(actions: seq<Action>, s: System, claims: seq<Claimed>, a: Action)
    requires Reaches(actions, s, claims) && Enabled(s, a)
    requires a.Claim? && Takes(s.queue, a.id, a.owner, a.now, a.until, a.locked)
    ensures Reaches(actions + [a], Apply(s, a), claims + [Claimed(a.id.sub, s.queue.rows[a.id].key, s.queue.rows[a.id].pos)])
  {
    assert (actions + [a])[..|actions|] == actions;
  }

  lemma FreeHeadIsTaken(q: Queue, id: RowId, owner: string, now: int, until: int)
    requires id in q.rows && Open(q.rows[id]) && q.rows[id].due.Some? && q.rows[id].due.value <= now
    requires forall x | x in q.rows :: !Leased(q.rows[x], now) && (Open(q.rows[x]) ==> q.rows[id].pos <= q.rows[x].pos)
    requires id.sub in q.subs && q.subs[id.sub].enabled && q.subs[id.sub].maxInflight > 0 && owner != "" && now < until
    ensures Takes(q, id, owner, now, until, {})
  {
    assert LiveLeases(q, id.sub, now) == {};
  }

  const START := System(Queue(map[], map[]), 0, 0, multiset{})
  const SUBS := map["s" := Subscription(true, false, 1, 8)]
  const ROW_A := RowId("a", "s")
  const ROW_B := RowId("b", "s")
  const KEY := Some("k")

  lemma FirstFansOut(key: Option<string>)
    ensures forall q: Queue | q.rows == map[] :: FanOut(q, "a", 1, 1, key, {"s"}, 0).rows == map[ROW_A := Fresh(1, 1, key, 0)]
  {
  }

  lemma SecondFansOut(key: Option<string>)
    ensures forall q: Queue | q.rows == map[ROW_A := Fresh(1, 1, key, 0)] ::
              FanOut(q, "b", 2, 1, key, {"s"}, 0).rows == map[ROW_A := Fresh(1, 1, key, 0), ROW_B := Fresh(2, 1, key, 0)]
  {
  }

  /** Two events committed to one subscription. */
  lemma TwoCommits(key: Option<string>, cap: nat) returns (actions: seq<Action>)
    ensures Reaches(actions, System(Queue(map[ROW_A := Fresh(1, 1, key, 0), ROW_B := Fresh(2, 1, key, 0)],
                                          map["s" := Subscription(true, false, cap, 8)]), 0, 2, multiset{}), [])
  {
    var subs := map["s" := Subscription(true, false, cap, 8)];
    var s0 := System(Queue(map[], subs), 0, 0, multiset{});
    var s1 := System(Queue(map[ROW_A := Fresh(1, 1, key, 0)], subs), 0, 1, multiset{});
    var a, b, c := Subscribe("s", Subscription(true, false, cap, 8)), Commit("a", 1, key, {"s"}, 0), Commit("b", 1, key, {"s"}, 0);
    FirstFansOut(key);
    SecondFansOut(key);
    assert Apply(START, a) == s0 && Apply(s0, b) == s1;
    Quietly([], START, [], a);
    Quietly([] + [a], s0, [], b);
    Quietly([] + [a] + [b], s1, [], c);
    actions := [] + [a] + [b] + [c];
  }

  /** Two events of one key, committed. */
  lemma BothCommitted() returns (actions: seq<Action>)
    ensures Reaches(actions, System(Queue(map[ROW_A := Fresh(1, 1, KEY, 0), ROW_B := Fresh(2, 1, KEY, 0)], SUBS), 0, 2, multiset{}), [])
  {
    actions := TwoCommits(KEY, 1);
  }

  /** Both claimed and delivered, in publish order. */
  lemma BothDelivered() returns (actions: seq<Action>)
    ensures Reaches(actions,
              System(Queue(map[ROW_A := Settle(Fresh(1, 1, KEY, 0), Success(1)), ROW_B := Settle(Fresh(2, 1, KEY, 0), Success(1))], SUBS), 0, 2, multiset{}),
              [Claimed("s", KEY, 1), Claimed("s", KEY, 2)])
  {
    var newA, newB := Fresh(1, 1, KEY, 0), Fresh(2, 1, KEY, 0);
    var rows := map[ROW_A := newA, ROW_B := newB];
    actions := BothCommitted();
    actions := ClaimAndDeliver(actions, System(Queue(rows, SUBS), 0, 2, multiset{}), [], ROW_A);
    var more := rows[ROW_A := Settle(newA, Success(1))];
    actions := ClaimAndDeliver(actions, System(Queue(more, SUBS), 0, 2, multiset{}), [Claimed("s", KEY, 1)], ROW_B);
    assert more[ROW_B := Settle(newB, Success(1))] == map[ROW_A := Settle(newA, Success(1)), ROW_B := Settle(newB, Success(1))];
  }

  lemma ClaimAndDeliver(actions: seq<Action>, s: System, claims: seq<Claimed>, id: RowId) returns (more: seq<Action>)
    requires Reaches(actions, s, claims) && s.clock == 0 && s.sends == multiset{}
    requires id in s.queue.rows && s.queue.rows[id] == Fresh(s.queue.rows[id].pos, 1, KEY, 0)
    requires id.sub in s.queue.subs && s.queue.subs[id.sub].enabled && s.queue.subs[id.sub].maxInflight > 0
    requires forall x | x in s.queue.rows ::
               s.queue.rows[x].leaseUntil == None && (Open(s.queue.rows[x]) ==> s.queue.rows[id].pos <= s.queue.rows[x].pos)
    ensures Reaches(more, s.(queue := s.queue.(rows := s.queue.rows[id := Settle(s.queue.rows[id], Success(1))])),
              claims + [Claimed(id.sub, KEY, s.queue.rows[id].pos)])
  {
    var a, b := Claim(id, "w", 0, 9, {}), Report(Send("w", id, 0), Success(1));
    FreeHeadIsTaken(s.queue, id, "w", 0, 9);
    Claiming(actions, s, claims, a);
    var t := Apply(s, a);
    Quietly(actions + [a], t, claims + [Claimed(id.sub, KEY, s.queue.rows[id].pos)], b);
    more := actions + [a] + [b];
    assert Apply(t, b).queue.rows == s.queue.rows[id := Settle(s.queue.rows[id], Success(1))];
  }

  /** A replay that takes an event back: requeueing a delivered row puts it in front of a later one already delivered. */
  lemma ReplayGoesBack() returns (actions: seq<Action>)
    ensures Initial(START) && Legal(START, actions) && !InPublishOrder(Claims(START, actions))
  {
    var claims := [Claimed("s", KEY, 1), Claimed("s", KEY, 2)];
    var rows := map[ROW_A := Settle(Fresh(1, 1, KEY, 0), Success(1)), ROW_B := Settle(Fresh(2, 1, KEY, 0), Success(1))];
    var s := System(Queue(rows, SUBS), 0, 2, multiset{});
    actions := BothDelivered();
    var a := Replay("s", [Replayed("a", 1, 1, KEY)], 0);
    var t := s.(queue := s.queue.(rows := rows[ROW_A := Fresh(1, 1, KEY, 0)]));
    assert RequeueAll(s.queue, "s", [], 0) == s.queue;
    assert Apply(s, a) == t;
    Quietly(actions, s, claims, a);
    actions := ClaimAndDeliver(actions + [a], t, claims, ROW_A);
    assert Claims(START, actions)[1].pos == 2 && Claims(START, actions)[2].pos == 1;
  }
}
