/** An operator's replay and the order per key: from every reachable state, exactly which replays can send a key backwards. */
module DeliveryReplay {
  import opened Deliveries
  import opened DeliveryOrder
  import opened DeliveryProgress

  /** `more` is a legal run after `actions`, with no replay of its own. */
  predicate Continues(s: System, actions: seq<Action>, more: seq<Action>) { Legal(s, actions + more) && NoReplay(more) }

  lemma {:induction false} StaysInOrder(s: System, actions: seq<Action>, more: seq<Action>)
    requires Initial(s) && Continues(s, actions, more) && NoReplayGoesBack(s, actions)
    ensures InPublishOrder(Claims(s, actions + more))
  {
    NeverGoesBack(s, actions, more);
    ClaimsFollowPublishOrder(s, actions + more);
  }

  lemma {:induction false} NeverGoesBack(s: System, actions: seq<Action>, more: seq<Action>)
    requires NoReplay(more) && NoReplayGoesBack(s, actions)
    ensures NoReplayGoesBack(s, actions + more)
  {
    if more == [] {
      assert actions + more == actions;
    } else {
      NeverGoesBack(s, actions, more[..|more| - 1]);
      assert (actions + more)[..|actions + more| - 1] == actions + more[..|more| - 1];
    }
  }

  // ---------------------------------------------------------------- a replay that goes back is claimed

  /** What was claimed from has room for one lease, and every subscription allows an attempt. */
  predicate Usable(s: System, claims: seq<Claimed>) {
    && (forall sub | sub in s.queue.subs :: s.queue.subs[sub].maxAttempts >= 1)
    && (forall i | 0 <= i < |claims| :: claims[i].sub in s.queue.subs && s.queue.subs[claims[i].sub].maxInflight >= 1)
  }

  lemma {:induction false} RequeueKeepsSubscriptions(q: Queue, sub: string, items: seq<Replayed>, at: int)
    ensures RequeueAll(q, sub, items, at).subs == q.subs
  {
    if items != [] { RequeueKeepsSubscriptions(q, sub, items[..|items| - 1], at); }
  }

  lemma StepStaysUsable(s: System, claims: seq<Claimed>, a: Action)
    requires Usable(s, claims) && Enabled(s, a)
    ensures Usable(Apply(s, a), claims)
    ensures a.Claim? && Takes(s.queue, a.id, a.owner, a.now, a.until, a.locked) ==>
              Usable(Apply(s, a), claims + [Claimed(a.id.sub, s.queue.rows[a.id].key, s.queue.rows[a.id].pos)])
  {
    if a.Replay? { RequeueKeepsSubscriptions(s.queue, a.sub, a.items, a.at); }
  }

  lemma {:induction false} EveryRunIsUsable(s: System, actions: seq<Action>)
    requires Initial(s) && Legal(s, actions)
    ensures Usable(Run(s, actions), Claims(s, actions))
  {
    if actions != [] {
      var front, a := actions[..|actions| - 1], actions[|actions| - 1];
      EveryRunIsUsable(s, front);
      StepStaysUsable(Run(s, front), Claims(s, front), a);
      assert Claims(s, front) + [] == Claims(s, front);
    }
  }

  /** A time by which every row is due and every lease has ended. */
  lemma {:induction false} TimesPass(rows: map<RowId, Delivery>, from: int) returns (time: int)
    ensures from <= time
    ensures forall id | id in rows :: (rows[id].due.Some? ==> rows[id].due.value <= time) && !Leased(rows[id], time)
    decreases |rows|
  {
    time := from;
    if rows != map[] {
      var id :| id in rows;
      var rest := rows - {id};
      assert rest.Keys < rows.Keys;
      SmallerKeys(rows, id);
      time := TimesPass(rest, from);
      forall x | x in rest ensures rest[x] == rows[x] {}
      if rows[id].due.Some? && rows[id].due.value > time { time := rows[id].due.value; }
      if rows[id].leaseUntil.Some? && rows[id].leaseUntil.value > time { time := rows[id].leaseUntil.value; }
    }
  }

  lemma SmallerKeys(rows: map<RowId, Delivery>, id: RowId)
    requires id in rows
    ensures |rows - {id}| < |rows|
  {
    assert (rows - {id}).Keys == rows.Keys - {id};
    assert |rows.Keys - {id}| == |rows.Keys| - 1;
  }

  lemma Extends(s: System, actions: seq<Action>, a: Action)
    requires Legal(s, actions) && Enabled(Run(s, actions), a)
    ensures Legal(s, actions + [a]) && Run(s, actions + [a]) == Apply(Run(s, actions), a)
    ensures !a.Claim? ==> Claims(s, actions + [a]) == Claims(s, actions)
    ensures a.Claim? && Takes(Run(s, actions).queue, a.id, a.owner, a.now, a.until, a.locked) ==>
              Claims(s, actions + [a])
              == Claims(s, actions) + [Claimed(a.id.sub, Run(s, actions).queue.rows[a.id].key, Run(s, actions).queue.rows[a.id].pos)]
  {
    assert (actions + [a])[..|actions|] == actions;
  }

  /** Every row is due, nothing is leased any more, and `sub` is enabled. */
  predicate Awake(s: System, sub: string) {
    && sub in s.queue.subs && s.queue.subs[sub].enabled
    && forall id | id in s.queue.rows ::
         (s.queue.rows[id].due.Some? ==> s.queue.rows[id].due.value <= s.clock) && !Leased(s.queue.rows[id], s.clock)
  }

  /** An operator enables the subscription, and time passes. */
  lemma WakesUp(s: System, actions: seq<Action>, sub: string) returns (ready: seq<Action>, on: Action, tick: Action)
    requires Legal(s, actions) && sub in Run(s, actions).queue.subs && Run(s, actions).queue.subs[sub].maxAttempts >= 1
    ensures ready == actions + [on] + [tick] && on.Subscribe? && tick.Tick? && Legal(s, ready) && Claims(s, ready) == Claims(s, actions)
    ensures var t := Run(s, ready);
      && t.queue.rows == Run(s, actions).queue.rows && Awake(t, sub)
      && t.queue.subs[sub].maxInflight == Run(s, actions).queue.subs[sub].maxInflight
  {
    var t := Run(s, actions);
    var time := TimesPass(t.queue.rows, t.clock);
    on, tick := Subscribe(sub, t.queue.subs[sub].(enabled := true)), Tick(time);
    Extends(s, actions, on);
    Extends(s, actions + [on], tick);
    ready := actions + [on] + [tick];
  }

  lemma ClaimGoesBack(claims: seq<Claimed>, c: Claimed, j: int)
    requires 0 <= j < |claims| && LiesBehind(c, claims[j])
    ensures !InPublishOrder(claims + [c])
  {
    var all := claims + [c];
    assert all[j] == claims[j] && all[|claims|] == c;
  }

  /** Of an awake subscription's key, the head is claimed. */
  lemma HeadIsClaimed(s: System, ready: seq<Action>, id: RowId) returns (claim: Action, h: RowId)
    requires Initial(s) && Legal(s, ready) && Awake(Run(s, ready), id.sub) && Run(s, ready).queue.subs[id.sub].maxInflight >= 1
    requires id in Run(s, ready).queue.rows && Open(Run(s, ready).queue.rows[id]) && Run(s, ready).queue.rows[id].key.Some?
    ensures claim.Claim? && Legal(s, ready + [claim])
    ensures var q := Run(s, ready).queue;
      && h in q.rows && h.sub == id.sub && q.rows[h].key == q.rows[id].key && q.rows[h].pos <= q.rows[id].pos
      && Claims(s, ready + [claim]) == Claims(s, ready) + [Claimed(h.sub, q.rows[h].key, q.rows[h].pos)]
  {
    var t := Run(s, ready);
    NothingIsStranded(s, ready, id, t.clock, "w", t.clock + 1);
    h :| h in Contenders(t.queue, id) && t.queue.rows[h].pos <= t.queue.rows[id].pos && Takes(t.queue, h, "w", t.clock, t.clock + 1, {});
    claim := Claim(h, "w", t.clock, t.clock + 1, {});
    Extends(s, ready, claim);
  }

  lemma ThreeMore(s: System, actions: seq<Action>, a: Action, b: Action, c: Action)
    requires Legal(s, actions + [a] + [b] + [c]) && !a.Replay? && !b.Replay? && !c.Replay?
    ensures actions + [a, b, c] == actions + [a] + [b] + [c] && Continues(s, actions, [a, b, c])
  {
    assert actions + [a, b, c] == actions + [a] + [b] + [c];
  }

  /** An open row of a key that a claim has passed is claimed in the end, behind that claim. */
  lemma OpenRowIsClaimed(s: System, actions: seq<Action>, id: RowId, j: int) returns (more: seq<Action>)
    requires Initial(s) && Legal(s, actions) && 0 <= j < |Claims(s, actions)|
    requires id in Run(s, actions).queue.rows && Open(Run(s, actions).queue.rows[id])
    requires LiesBehind(Claimed(id.sub, Run(s, actions).queue.rows[id].key, Run(s, actions).queue.rows[id].pos), Claims(s, actions)[j])
    ensures Continues(s, actions, more) && !InPublishOrder(Claims(s, actions + more))
  {
    EveryRunIsUsable(s, actions);
    var ready, on, tick := WakesUp(s, actions, id.sub);
    var claim, h := HeadIsClaimed(s, ready, id);
    more := [on, tick, claim];
    ThreeMore(s, actions, on, tick, claim);
    var row := Run(s, ready).queue.rows[h];
    ClaimGoesBack(Claims(s, actions), Claimed(h.sub, row.key, row.pos), j);
  }

  /**
   Exactly which replays are safe, from any state reached in order: after a replay some run claims a key backwards if and only
   if one of the replayed events stands, by its stored key and position, behind an earlier claim of its key.
   */
  lemma ReplayIsSafeIff(s: System, actions: seq<Action>, sub: string, items: seq<Replayed>, at: int)
    requires Initial(s) && NoReplayGoesBack(s, actions) && Legal(s, actions + [Replay(sub, items, at)])
    ensures NoneGoesBack(Run(s, actions).queue, sub, items, Claims(s, actions)) <==>
              forall more | Continues(s, actions + [Replay(sub, items, at)], more) ::
                InPublishOrder(Claims(s, actions + [Replay(sub, items, at)] + more))
  {
    var a := Replay(sub, items, at);
    var after, claims, q := actions + [a], Claims(s, actions), Run(s, actions).queue;
    assert after[..|actions|] == actions;
    Extends(s, actions, a);
    if NoneGoesBack(q, sub, items, claims) {
      assert NoReplayGoesBack(s, after);
      forall more | Continues(s, after, more) ensures InPublishOrder(Claims(s, after + more)) { StaysInOrder(s, after, more); }
    } else {
      var i, j :| 0 <= i < |items| && 0 <= j < |claims| && First(items, i) && LiesBehind(Placed(q, sub, items[i]), claims[j]);
      StandsAsPlaced(q, sub, items, at, i);
      var more := OpenRowIsClaimed(s, after, RowId(items[i].event, sub), j);
      assert Continues(s, after, more);
    }
  }
}
