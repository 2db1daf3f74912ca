/** Publishing over whole runs: an event keeps the position it was answered with, repeats change nothing, positions only rise. */
module RepeatProofs {
  import opened EventLog
  import opened PublishProofs

  // ---------------------------------------------------------------- an event keeps its position

  /** The event stands at `pos` of `epoch`, hot or replay, or its row is gone and its receipt is not. */
  predicate Holds(log: Log, e: Envelope, pos: nat, epoch: nat) {
    if Known(log, e.id) then
      var r := Lookup(log, e.id).value;
      && r.c.source == e.source && r.c.eventType == e.eventType && r.c.pos == pos
      && epoch == (if e.id in log.hot then log.epoch else log.replay[e.id].epoch)
    else e.id in log.receipts
  }

  predicate Gone(log: Log, e: Envelope) { !Known(log, e.id) && e.id in log.receipts }

  /** What an answer to a publish said still holds. */
  predicate Holding(log: Log, e: Envelope, a: Answer) {
    match a
    case Stored(id, pos, epoch) => id == e.id && Holds(log, e, pos, epoch)
    case Duplicate(id, pos, epoch) => id == e.id && Holds(log, e, pos, epoch)
    case Pruned(id) => id == e.id && Gone(log, e)
  }

  lemma RewriteHolds(log: Log, targets: set<string>, who: string, now: int, e: Envelope, a: Answer)
    requires Holding(log, e, a)
    ensures Holding(Rewrite(log, targets, who, now), e, a)
  {
    RewriteKeepsEnvelopes(log, targets, who, now, e.id);
  }

  lemma InsertHolds(log: Log, f: Envelope, ctx: Publish, e: Envelope, a: Answer)
    requires Holding(log, e, a) && !Known(log, f.id) && f.id !in log.receipts
    ensures Holding(Insert(log, f, ctx), e, a)
  {
  }

  lemma PublishOneHolds(log: Log, f: Envelope, ctx: Publish, e: Envelope, a: Answer)
    requires PublishOne(log, f, ctx).Ok? && Holding(log, e, a)
    ensures Holding(PublishOne(log, f, ctx).value.0, e, a)
  {
    if !Known(log, f.id) && f.id !in log.receipts {
      var after, next := PublishOne(log, f, ctx).value.0, Insert(log, f, ctx);
      PublishOneShape(log, f, ctx);
      InsertHolds(log, f, ctx, e, a);
      if after != next {
        var targets :| after == Rewrite(next, targets, f.id, ctx.now);
        RewriteHolds(next, targets, f.id, ctx.now, e, a);
      }
    }
  }

  lemma {:induction false} PublishAllHolds(log: Log, items: seq<Envelope>, ctx: Publish, e: Envelope, a: Answer)
    requires PublishAll(log, items, ctx).Ok? && Holding(log, e, a)
    ensures Holding(PublishAll(log, items, ctx).value.0, e, a)
  {
    if items != [] {
      PublishAllHolds(log, items[..|items| - 1], ctx, e, a);
      PublishOneHolds(PublishAll(log, items[..|items| - 1], ctx).value.0, items[|items| - 1], ctx, e, a);
    }
  }

  lemma MoveHolds(log: Log, ids: set<string>, at: int, e: Envelope, a: Answer)
    requires Consistent(log) && Holding(log, e, a)
    ensures Holding(Move(log, ids, at), e, a)
  {
  }

  lemma StepHolds(log: Log, s: Step, e: Envelope, a: Answer)
    requires Consistent(log) && Holding(log, e, a) && Keeps(log, s, e)
    ensures Holding(Apply(log, s), e, a)
  {
    match s
    case Batch(items, ctx) => if PublishAll(log, items, ctx).Ok? { PublishAllHolds(log, items, ctx, e, a); }
    case Redaction(who, d, at) => RewriteHolds(log, Targets(log, who, d), who.id, at, e, a);
    case MoveOut(ids, at) => MoveHolds(log, ids, at, e, a);
    case Retire(_, _, _) =>
  }

  /** No retirement of the run takes both the event's row and its receipt. */
  predicate KeepsThrough(log: Log, steps: seq<Step>, e: Envelope) {
    steps == [] ||
    (KeepsThrough(log, steps[..|steps| - 1], e) && Keeps(Run(log, steps[..|steps| - 1]), steps[|steps| - 1], e))
  }

  /** Through any run that keeps its row or its receipt, what a publish was answered stays true. */
  lemma {:induction false} RunHolds(log: Log, steps: seq<Step>, e: Envelope, a: Answer)
    requires Consistent(log) && Holding(log, e, a) && KeepsThrough(log, steps, e)
    ensures Holding(Run(log, steps), e, a)
  {
    if steps != [] {
      RunHolds(log, steps[..|steps| - 1], e, a);
      EveryRunIsConsistent(log, steps[..|steps| - 1]);
      StepHolds(Run(log, steps[..|steps| - 1]), steps[|steps| - 1], e, a);
    }
  }

  // ---------------------------------------------------------------- repeats

  lemma OneAnswerHolds(log: Log, e: Envelope, ctx: Publish)
    requires PublishOne(log, e, ctx).Ok?
    ensures var (after, answer) := PublishOne(log, e, ctx).value; Holding(after, e, answer)
  {
    if !Known(log, e.id) && e.id !in log.receipts {
      var after, next := PublishOne(log, e, ctx).value.0, Insert(log, e, ctx);
      PublishOneShape(log, e, ctx);
      assert Holding(next, e, Stored(e.id, log.lastSeq + 1, log.epoch));
      if after != next {
        var targets :| after == Rewrite(next, targets, e.id, ctx.now);
        RewriteHolds(next, targets, e.id, ctx.now, e, Stored(e.id, log.lastSeq + 1, log.epoch));
      }
    }
  }

  lemma {:induction false} AnswersHold(log: Log, items: seq<Envelope>, ctx: Publish)
    requires PublishAll(log, items, ctx).Ok?
    ensures var (after, answers) := PublishAll(log, items, ctx).value;
      |answers| == |items| && forall i | 0 <= i < |items| :: Holding(after, items[i], answers[i])
  {
    if items != [] {
      var front, last := items[..|items| - 1], items[|items| - 1];
      AnswersHold(log, front, ctx);
      var (mid, before) := PublishAll(log, front, ctx).value;
      OneAnswerHolds(mid, last, ctx);
      forall i | 0 <= i < |front| ensures Holding(PublishOne(mid, last, ctx).value.0, items[i], before[i]) {
        assert front[i] == items[i];
        PublishOneHolds(mid, last, ctx, items[i], before[i]);
      }
    }
  }

  /** A later answer names the position of the first, or says the copy was pruned. */
  predicate SameAnswer(first: Answer, again: Answer) {
    match first
    case Stored(id, pos, epoch) => again == Duplicate(id, pos, epoch) || again == Pruned(id)
    case Duplicate(id, pos, epoch) => again == Duplicate(id, pos, epoch) || again == Pruned(id)
    case Pruned(id) => again == Pruned(id)
  }

  lemma HoldingRepeats(log: Log, e: Envelope, a: Answer)
    requires Holding(log, e, a)
    ensures Remembers(log, e) && SameAnswer(a, RepeatAnswer(log, e.id))
  {
  }

  /**
   Publishing is idempotent over whole runs: a batch published again, after any publishes, redactions, moves and prunes that
   left each of its events a row or a receipt, changes no table and is answered with the positions of the first time.
   */
  lemma RepeatsAnswerAlike(log: Log, items: seq<Envelope>, ctx: Publish, steps: seq<Step>, again: Publish)
    requires Consistent(log) && PublishAll(log, items, ctx).Ok?
    requires forall i | 0 <= i < |items| :: KeepsThrough(PublishAll(log, items, ctx).value.0, steps, items[i])
    ensures var (after, first) := PublishAll(log, items, ctx).value;
      var end := Run(after, steps);
      var second := PublishAll(end, items, again);
      && second.Ok? && second.value.0 == end && |second.value.1| == |first| == |items|
      && forall i | 0 <= i < |items| :: SameAnswer(first[i], second.value.1[i])
  {
    var (after, first) := PublishAll(log, items, ctx).value;
    var end := Run(after, steps);
    AnswersHold(log, items, ctx);
    PublishAllIsConsistent(log, items, ctx);
    forall i | 0 <= i < |items| ensures Remembers(end, items[i]) && SameAnswer(first[i], RepeatAnswer(end, items[i].id)) {
      RunHolds(after, steps, items[i], first[i]);
      HoldingRepeats(end, items[i], first[i]);
    }
    RepeatChangesNothing(end, items, again);
  }

  // ---------------------------------------------------------------- positions of a run

  /** The positions a run handed out, in the order of its batches. */
  function HandedOut(log: Log, steps: seq<Step>): seq<nat> {
    if steps == [] then []
    else
      var before, s := Run(log, steps[..|steps| - 1]), steps[|steps| - 1];
      HandedOut(log, steps[..|steps| - 1]) +
      if s.Batch? && PublishAll(before, s.items, s.ctx).Ok? then StoredAt(PublishAll(before, s.items, s.ctx).value.1) else []
  }

  predicate Rising(ps: seq<nat>, above: nat, to: nat) {
    (forall i | 0 <= i < |ps| :: above < ps[i] <= to) && forall i, j | 0 <= i < j < |ps| :: ps[i] < ps[j]
  }

  lemma {:induction false} BatchRises(log: Log, items: seq<Envelope>, ctx: Publish)
    requires PublishAll(log, items, ctx).Ok?
    ensures var (after, answers) := PublishAll(log, items, ctx).value; log.lastSeq <= after.lastSeq && Rising(StoredAt(answers), log.lastSeq, after.lastSeq)
  {
    if items != [] {
      var front, last := items[..|items| - 1], items[|items| - 1];
      BatchRises(log, front, ctx);
      var (mid, before) := PublishAll(log, front, ctx).value;
      var (after, answer) := PublishOne(mid, last, ctx).value;
      OnePositionEach(mid, last, ctx);
      assert (before + [answer])[..|before|] == before;
    }
  }

  lemma RisesOn(a: seq<nat>, b: seq<nat>, from: nat, mid: nat, to: nat)
    requires Rising(a, from, mid) && Rising(b, mid, to) && from <= mid <= to
    ensures Rising(a + b, from, to)
  {
  }

  /** Positions strictly increase over a whole run, whatever was moved, redacted or pruned in between: none is ever used again. */
  lemma {:induction false} PositionsRise(log: Log, steps: seq<Step>)
    requires Consistent(log)
    ensures log.lastSeq <= Run(log, steps).lastSeq && Rising(HandedOut(log, steps), log.lastSeq, Run(log, steps).lastSeq)
  {
    if steps != [] {
      var front, s := steps[..|steps| - 1], steps[|steps| - 1];
      PositionsRise(log, front);
      EveryRunIsConsistent(log, front);
      var before := Run(log, front);
      StepIsConsistent(before, s);
      var more := if s.Batch? && PublishAll(before, s.items, s.ctx).Ok? then StoredAt(PublishAll(before, s.items, s.ctx).value.1) else [];
      if s.Batch? && PublishAll(before, s.items, s.ctx).Ok? { BatchRises(before, s.items, s.ctx); }
      RisesOn(HandedOut(log, front), more, log.lastSeq, before.lastSeq, Run(log, steps).lastSeq);
    }
  }
}
