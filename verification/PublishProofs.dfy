/** Publishing over whole runs: unique ids and positions, repeats that change nothing, and an exact fan-out. */
module PublishProofs {
  import opened Wrappers
  import opened Archive
  import opened Redaction
  import opened EventLog
  import Deliveries

  // ---------------------------------------------------------------- invariants

  /** Rewriting rows in place keeps consistency when ids, positions and epochs stay. */
  lemma SamePositions(log: Log, after: Log)
    requires Consistent(log)
    requires after.hot.Keys == log.hot.Keys && after.replay.Keys == log.replay.Keys
    requires after.lastSeq == log.lastSeq && after.epoch == log.epoch && after.queue == log.queue
    requires forall id | id in log.hot :: after.hot[id].c.id == id && after.hot[id].c.pos == log.hot[id].c.pos
    requires forall id | id in log.replay ::
               after.replay[id].c.id == id && after.replay[id].c.pos == log.replay[id].c.pos && after.replay[id].epoch == log.replay[id].epoch
    ensures Consistent(after)
  {
  }

  lemma RewriteIsConsistent(log: Log, targets: set<string>, who: string, now: int)
    requires Consistent(log)
    ensures Consistent(Rewrite(log, targets, who, now))
  {
    SamePositions(log, Rewrite(log, targets, who, now));
  }

  /** A row under a new id at the next position keeps consistency. */
  lemma NewPosition(log: Log, after: Log, id: string, r: Row)
    requires Consistent(log) && !Known(log, id) && r.c.id == id && r.c.pos == log.lastSeq + 1
    requires after.hot == log.hot[id := r] && after.replay == log.replay && after.lastSeq == log.lastSeq + 1 && after.epoch == log.epoch
    ensures Keyed(after) && OnePosition(after)
  {
  }

  lemma InsertStaysAttached(log: Log, e: Envelope, ctx: Publish)
    requires Attached(log) && e.id !in log.hot
    ensures Attached(Insert(log, e, ctx))
  {
    var next := Insert(log, e, ctx);
    forall id | id in next.queue.rows ensures id.event in next.hot && next.queue.rows[id].pos == next.hot[id.event].c.pos {
      if id in log.queue.rows { assert id.event in log.hot; }
    }
  }

  lemma InsertIsConsistent(log: Log, e: Envelope, ctx: Publish)
    requires Consistent(log) && !Known(log, e.id)
    ensures Consistent(Insert(log, e, ctx))
  {
    NewPosition(log, Insert(log, e, ctx), e.id, NewRow(log, e, ctx));
    InsertStaysAttached(log, e, ctx);
  }

  /** An accepted new event is inserted, and then perhaps rewrites rows. */
  lemma PublishOneShape(log: Log, e: Envelope, ctx: Publish)
    requires PublishOne(log, e, ctx).Ok? && !Known(log, e.id) && e.id !in log.receipts
    ensures var after := PublishOne(log, e, ctx).value.0; var next := Insert(log, e, ctx);
      after == next || exists targets :: after == Rewrite(next, targets, e.id, ctx.now)
  {
    var next := Insert(log, e, ctx);
    if ParseDirective(e.payload).Redacts? {
      var targets := Targets(next, NewRow(log, e, ctx).c, ParseDirective(e.payload).directive);
      assert PublishOne(log, e, ctx).value.0 == Rewrite(next, targets, e.id, ctx.now);
    }
  }

  lemma PublishOneIsConsistent(log: Log, e: Envelope, ctx: Publish)
    requires Consistent(log) && PublishOne(log, e, ctx).Ok?
    ensures var after := PublishOne(log, e, ctx).value.0; Consistent(after) && after.lastSeq >= log.lastSeq && after.epoch == log.epoch
  {
    if !Known(log, e.id) && e.id !in log.receipts {
      InsertIsConsistent(log, e, ctx);
      PublishOneShape(log, e, ctx);
      var after, next := PublishOne(log, e, ctx).value.0, Insert(log, e, ctx);
      if after != next {
        var targets :| after == Rewrite(next, targets, e.id, ctx.now);
        RewriteIsConsistent(next, targets, e.id, ctx.now);
      }
    }
  }

  lemma {:induction false} PublishAllIsConsistent(log: Log, items: seq<Envelope>, ctx: Publish)
    requires Consistent(log) && PublishAll(log, items, ctx).Ok?
    ensures var after := PublishAll(log, items, ctx).value.0; Consistent(after) && after.lastSeq >= log.lastSeq && after.epoch == log.epoch
  {
    if items != [] {
      PublishAllIsConsistent(log, items[..|items| - 1], ctx);
      PublishOneIsConsistent(PublishAll(log, items[..|items| - 1], ctx).value.0, items[|items| - 1], ctx);
    }
  }

  lemma MoveIsConsistent(log: Log, ids: set<string>, at: int)
    requires Consistent(log)
    ensures Consistent(Move(log, ids, at))
  {
  }

  lemma DropIsConsistent(log: Log, hot: set<string>, replay: set<string>, receipts: set<string>)
    requires Consistent(log)
    ensures Consistent(Drop(log, hot, replay, receipts))
  {
  }

  lemma BatchIsConsistent(log: Log, items: seq<Envelope>, ctx: Publish)
    requires Consistent(log)
    ensures var after := Apply(log, Batch(items, ctx)); Consistent(after) && after.lastSeq >= log.lastSeq && after.epoch == log.epoch
  {
    if PublishAll(log, items, ctx).Ok? { PublishAllIsConsistent(log, items, ctx); }
  }

  lemma RedactionIsConsistent(log: Log, who: Columns, d: Directive, at: int)
    requires Consistent(log)
    ensures var after := Apply(log, Step.Redaction(who, d, at)); Consistent(after) && after.lastSeq == log.lastSeq && after.epoch == log.epoch
  {
    RewriteIsConsistent(log, Targets(log, who, d), who.id, at);
  }

  lemma StepIsConsistent(log: Log, s: Step)
    requires Consistent(log)
    ensures Consistent(Apply(log, s)) && Apply(log, s).lastSeq >= log.lastSeq && Apply(log, s).epoch == log.epoch
  {
    match s
    case Batch(items, ctx) => BatchIsConsistent(log, items, ctx);
    case Redaction(who, d, at) => RedactionIsConsistent(log, who, d, at);
    case MoveOut(ids, at) => MoveIsConsistent(log, ids, at);
    case Retire(hot, replay, receipts) => DropIsConsistent(log, hot, replay, receipts);
  }

  /** In every run of publishes, redactions, moves and prunes an id is stored once and a position is used once. */
  lemma {:induction false} EveryRunIsConsistent(log: Log, steps: seq<Step>)
    requires Consistent(log)
    ensures Consistent(Run(log, steps)) && Run(log, steps).lastSeq >= log.lastSeq && Run(log, steps).epoch == log.epoch
  {
    if steps != [] {
      EveryRunIsConsistent(log, steps[..|steps| - 1]);
      StepIsConsistent(Run(log, steps[..|steps| - 1]), steps[|steps| - 1]);
    }
  }

  // ---------------------------------------------------------------- positions

  function StoredCount(answers: seq<Answer>): nat {
    if answers == [] then 0 else StoredCount(answers[..|answers| - 1]) + if answers[|answers| - 1].Stored? then 1 else 0
  }

  /** The positions a batch's answers say were handed out. */
  function StoredAt(answers: seq<Answer>): seq<nat> {
    if answers == [] then []
    else StoredAt(answers[..|answers| - 1]) + if answers[|answers| - 1].Stored? then [answers[|answers| - 1].pos] else []
  }

  lemma OnePositionEach(log: Log, e: Envelope, ctx: Publish)
    requires PublishOne(log, e, ctx).Ok?
    ensures var (after, answer) := PublishOne(log, e, ctx).value;
      after.lastSeq == log.lastSeq + (if answer.Stored? then 1 else 0) && (answer.Stored? ==> answer.pos == log.lastSeq + 1)
  {
  }

  /** A batch hands out the next positions one by one, in item order; so none is ever handed out twice, whatever was pruned. */
  lemma {:induction false} PositionsAreHandedOutInOrder(log: Log, items: seq<Envelope>, ctx: Publish)
    requires PublishAll(log, items, ctx).Ok?
    ensures var (after, answers) := PublishAll(log, items, ctx).value;
      && |answers| == |items| && after.lastSeq == log.lastSeq + StoredCount(answers)
      && forall i | 0 <= i < |answers| && answers[i].Stored? :: answers[i].pos == log.lastSeq + StoredCount(answers[..i]) + 1
  {
    if items != [] {
      var front, last := items[..|items| - 1], items[|items| - 1];
      PositionsAreHandedOutInOrder(log, front, ctx);
      var (mid, before) := PublishAll(log, front, ctx).value;
      var (after, answer) := PublishOne(mid, last, ctx).value;
      OnePositionEach(mid, last, ctx);
      CountNext(log.lastSeq, before, answer);
      assert PublishAll(log, items, ctx) == Ok((after, before + [answer]));
    }
  }

  lemma CountNext(start: nat, before: seq<Answer>, answer: Answer)
    requires forall i | 0 <= i < |before| && before[i].Stored? :: before[i].pos == start + StoredCount(before[..i]) + 1
    requires answer.Stored? ==> answer.pos == start + StoredCount(before) + 1
    ensures var all := before + [answer];
      && StoredCount(all) == StoredCount(before) + (if answer.Stored? then 1 else 0)
      && forall i | 0 <= i < |all| && all[i].Stored? :: all[i].pos == start + StoredCount(all[..i]) + 1
  {
    var all := before + [answer];
    assert all[..|before|] == before;
    forall i | 0 <= i < |all| && all[i].Stored? ensures all[i].pos == start + StoredCount(all[..i]) + 1 {
      if i < |before| { assert all[..i] == before[..i] && all[i] == before[i]; }
    }
  }

  // ---------------------------------------------------------------- repeats

  /** The store still knows the event, or that it once accepted its id. */
  predicate Remembers(log: Log, e: Envelope) {
    if Known(log, e.id)
    then Lookup(log, e.id).value.c.source == e.source && Lookup(log, e.id).value.c.eventType == e.eventType
    else e.id in log.receipts
  }

  function RepeatAnswer(log: Log, id: string): Answer {
    if Known(log, id) then Duplicate(id, Lookup(log, id).value.c.pos, if id in log.hot then log.epoch else log.replay[id].epoch) else Pruned(id)
  }

  lemma RewriteKeepsEnvelopes(log: Log, targets: set<string>, who: string, now: int, id: string)
    ensures var after := Rewrite(log, targets, who, now);
      && Known(after, id) == Known(log, id) && after.receipts == log.receipts
      && (Known(log, id) ==> SameEnvelope(Lookup(after, id).value, Lookup(log, id).value))
  {
  }

  lemma RewriteRemembers(log: Log, targets: set<string>, who: string, now: int, e: Envelope)
    requires Remembers(log, e)
    ensures Remembers(Rewrite(log, targets, who, now), e)
  {
    RewriteKeepsEnvelopes(log, targets, who, now, e.id);
  }

  lemma InsertRemembers(log: Log, e: Envelope, f: Envelope, ctx: Publish)
    requires !Known(log, f.id)
    ensures Remembers(log, e) && f.id !in log.receipts ==> Remembers(Insert(log, f, ctx), e)
    ensures Remembers(Insert(log, f, ctx), f)
  {
  }

  lemma OneIsRemembered(log: Log, e: Envelope, f: Envelope, ctx: Publish)
    requires PublishOne(log, f, ctx).Ok?
    ensures Remembers(log, e) ==> Remembers(PublishOne(log, f, ctx).value.0, e)
    ensures Remembers(PublishOne(log, f, ctx).value.0, f)
  {
    if !Known(log, f.id) && f.id !in log.receipts {
      InsertRemembers(log, e, f, ctx);
      PublishOneShape(log, f, ctx);
      var after, next := PublishOne(log, f, ctx).value.0, Insert(log, f, ctx);
      if after != next {
        var targets :| after == Rewrite(next, targets, f.id, ctx.now);
        if Remembers(log, e) { RewriteRemembers(next, targets, f.id, ctx.now, e); }
        RewriteRemembers(next, targets, f.id, ctx.now, f);
      }
    }
  }

  lemma InFrontOrLast(items: seq<Envelope>, e: Envelope)
    requires e in items && e !in items[..|items| - 1]
    ensures e == items[|items| - 1]
  {
    assert items == items[..|items| - 1] + [items[|items| - 1]];
  }

  /** After an accepted batch every event of it, and everything known before, is remembered. */
  lemma {:induction false} BatchIsRemembered(log: Log, items: seq<Envelope>, ctx: Publish, e: Envelope)
    requires PublishAll(log, items, ctx).Ok?
    ensures e in items || Remembers(log, e) ==> Remembers(PublishAll(log, items, ctx).value.0, e)
  {
    if items != [] {
      var front, last := items[..|items| - 1], items[|items| - 1];
      BatchIsRemembered(log, front, ctx, e);
      var mid := PublishAll(log, front, ctx).value.0;
      OneIsRemembered(mid, e, last, ctx);
      if e in items && e !in front {
        InFrontOrLast(items, e);
      } else if e in front || Remembers(log, e) {
        assert Remembers(mid, e);
      }
    }
  }

  /** What a step may forget: with both its rows and its receipt gone an event is new again. */
  predicate Keeps(log: Log, s: Step, e: Envelope) {
    s.Retire? ==>
      var after := Apply(log, s);
      Known(after, e.id) || e.id in after.receipts
  }

  lemma StillRemembered(log: Log, s: Step, e: Envelope)
    requires Consistent(log) && Remembers(log, e) && Keeps(log, s, e)
    ensures Remembers(Apply(log, s), e)
  {
    match s
    case Batch(items, ctx) => if PublishAll(log, items, ctx).Ok? { BatchIsRemembered(log, items, ctx, e); }
    case Redaction(who, d, at) => RewriteRemembers(log, Targets(log, who, d), who.id, at, e);
    case MoveOut(_, _) =>
    case Retire(_, _, _) =>
  }

  /**
   Publishing a remembered batch again, after any steps, changes no table: each answer names the stored position, or says
   the copy was pruned.
   */
  lemma {:induction false} RepeatChangesNothing(log: Log, items: seq<Envelope>, ctx: Publish)
    requires forall i | 0 <= i < |items| :: Remembers(log, items[i])
    ensures PublishAll(log, items, ctx).Ok? && PublishAll(log, items, ctx).value.0 == log
    ensures var answers := PublishAll(log, items, ctx).value.1;
      |answers| == |items| && forall i | 0 <= i < |items| :: answers[i] == RepeatAnswer(log, items[i].id)
  {
    if items != [] { RepeatChangesNothing(log, items[..|items| - 1], ctx); }
  }

  /** Exactly when an accepted publish stores a row: the id is in neither tier and its receipt is gone or never was. */
  lemma StoresIff(log: Log, e: Envelope, ctx: Publish)
    requires PublishOne(log, e, ctx).Ok?
    ensures var (after, answer) := PublishOne(log, e, ctx).value;
      && (answer.Stored? <==> !Known(log, e.id) && e.id !in log.receipts)
      && (!answer.Stored? ==> after == log)
      && (answer.Stored? ==>
            && e.id in after.hot && e.id in after.receipts
            && answer == Stored(e.id, after.hot[e.id].c.pos, after.epoch) && after.hot[e.id].c.pos == after.lastSeq)
  {
  }

  // ---------------------------------------------------------------- fan-out

  /** Delivery `id` of a store after event `e` was fanned out to `receivers` of the store before. */
  predicate FannedOut(before: Log, after: Log, e: Envelope, ctx: Publish, id: Deliveries.RowId) {
    var receivers := Receivers(before, NewRow(before, e, ctx));
    if id.event == e.id then
      && (id in after.queue.rows <==> id.sub in receivers)
      && (id in after.queue.rows ==>
            after.queue.rows[id] == Deliveries.Fresh(before.lastSeq + 1, e.priority, ctx.keyOf(e), ctx.now))
    else
      && (id in after.queue.rows <==> id in before.queue.rows)
      && (id in before.queue.rows ==> after.queue.rows[id] == before.queue.rows[id])
  }

  /**
   A newly stored event gets one pending delivery, with its position and key, for exactly the enabled subscriptions that
   may receive it, and no other delivery changes.
   */
  lemma FanOutIsExact(log: Log, e: Envelope, ctx: Publish)
    requires Consistent(log) && PublishOne(log, e, ctx).Ok? && PublishOne(log, e, ctx).value.1.Stored?
    ensures forall id :: FannedOut(log, PublishOne(log, e, ctx).value.0, e, ctx, id)
  {
    QueueIsInserted(log, e, ctx);
    forall id ensures FannedOut(log, PublishOne(log, e, ctx).value.0, e, ctx, id) { InsertFansOut(log, e, ctx, id); }
  }

  lemma QueueIsInserted(log: Log, e: Envelope, ctx: Publish)
    requires PublishOne(log, e, ctx).Ok? && PublishOne(log, e, ctx).value.1.Stored?
    ensures !Known(log, e.id) && PublishOne(log, e, ctx).value.0.queue == Insert(log, e, ctx).queue
  {
    PublishOneShape(log, e, ctx);
  }

  lemma InsertFansOut(log: Log, e: Envelope, ctx: Publish, id: Deliveries.RowId)
    requires Consistent(log) && !Known(log, e.id)
    ensures FannedOut(log, Insert(log, e, ctx), e, ctx, id)
  {
    if id in log.queue.rows { assert id.event in log.hot; }
  }
}
