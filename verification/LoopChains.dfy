/** The loop guard over both tiers: it counts hot rows only, so what it keeps depends on which rows of a trace were moved. */
module LoopChains {
  import opened Wrappers
  import opened Archive
  import opened Redaction
  import opened EventLog
  import opened Envelopes
  import Deliveries
  import EventStore
  import LoopGuard
  import PublishProofs

  // ---------------------------------------------------------------- chains of retained events

  function RowOf(log: Log, id: string): Row
    requires Known(log, id)
  {
    Lookup(log, id).value
  }

  function EpochOf(log: Log, id: string): nat
    requires Known(log, id)
  {
    if id in log.hot then log.epoch else log.replay[id].epoch
  }

  predicate Earlier(log: Log, a: string, b: string)
    requires Known(log, a) && Known(log, b)
  {
    EpochOf(log, a) < EpochOf(log, b) || (EpochOf(log, a) == EpochOf(log, b) && RowOf(log, a).c.pos < RowOf(log, b).c.pos)
  }

  /** `b` is a later first-party event than `a`, in its trace and of another source. */
  predicate Answers(log: Log, a: string, b: string) {
    && Known(log, a) && Known(log, b) && Earlier(log, a, b)
    && RowOf(log, a).c.projectId.None? && RowOf(log, b).c.projectId.None?
    && RowOf(log, a).b.traceId == RowOf(log, b).b.traceId && RowOf(log, a).c.source != RowOf(log, b).c.source
  }

  ghost predicate Rising(log: Log) { forall a, b | Answers(log, a, b) :: RowOf(log, a).b.hops < RowOf(log, b).b.hops }

  ghost predicate Bounded(log: Log, maxHops: nat) { forall id | Known(log, id) :: 1 <= RowOf(log, id).b.hops <= maxHops }

  /** No replay row is of a later epoch than the store. */
  predicate Current(log: Log) { forall id | id in log.replay :: log.replay[id].epoch <= log.epoch }

  ghost predicate Guarded(log: Log, maxHops: nat) { Current(log) && Bounded(log, maxHops) && Rising(log) }

  /** Retained events of one trace, in order, each of another source than the one before. */
  predicate Chain(log: Log, ids: seq<string>) {
    (forall i | 0 <= i < |ids| :: Known(log, ids[i])) && forall i | 0 < i < |ids| :: Answers(log, ids[i - 1], ids[i])
  }

  lemma {:induction false} ChainDepth(log: Log, ids: seq<string>, maxHops: nat)
    requires Guarded(log, maxHops) && Chain(log, ids) && ids != []
    ensures RowOf(log, ids[|ids| - 1]).b.hops >= |ids|
  {
    if |ids| > 1 {
      var front := ids[..|ids| - 1];
      forall i | 0 < i < |front| ensures Answers(log, front[i - 1], front[i]) { assert Answers(log, ids[i - 1], ids[i]); }
      ChainDepth(log, front, maxHops);
      assert Answers(log, ids[|ids| - 2], ids[|ids| - 1]);
    }
  }

  // ---------------------------------------------------------------- what a publish must still see

  /** A hot first-party row of the same trace, at least as deep. */
  predicate Above(h: Row, r: Row) { h.c.projectId.None? && h.b.traceId == r.b.traceId && h.b.hops >= r.b.hops }

  /** Whatever other source publishes next, it counts a row at least as deep as `r`: one of r's own source, or two of different sources. */
  predicate Covers(log: Log, r: Row) {
    exists g, h | g in log.hot && h in log.hot ::
      Above(log.hot[g], r) && Above(log.hot[h], r) && (log.hot[g].c.source == r.c.source || log.hot[g].c.source != log.hot[h].c.source)
  }

  predicate CoversMoved(log: Log, id: string)
    requires id in log.replay
  {
    log.replay[id].c.projectId.None? ==> Covers(log, Unpack(log.replay[id]))
  }

  /** Every first-party row that was moved to the replay tier is covered. */
  predicate Covered(log: Log) { forall id | id in log.replay :: CoversMoved(log, id) }

  /** Those of one trace are. */
  predicate TraceCovered(log: Log, trace: string) {
    forall id | id in log.replay && Unpack(log.replay[id]).b.traceId == trace :: CoversMoved(log, id)
  }

  lemma CoveredIsCounted(log: Log, e: Envelope, ctx: Publish, r: Row)
    requires Covers(log, r) && r.b.traceId == e.traceId && r.c.source != e.source
    ensures r.b.hops < Hops(log, e, ctx)
  {
    var g, h :| g in log.hot && h in log.hot && Above(log.hot[g], r) && Above(log.hot[h], r)
      && (log.hot[g].c.source == r.c.source || log.hot[g].c.source != log.hot[h].c.source);
    if log.hot[g].c.source != e.source {
      LoopGuard.HopsCounted(log, e, ctx.project, g);
    } else {
      LoopGuard.HopsCounted(log, e, ctx.project, h);
    }
  }

  // ---------------------------------------------------------------- one transaction

  /** The rows that are left are as they were, apart from what a redaction may change, and nothing is new. */
  ghost predicate Shrinks(log: Log, after: Log) {
    && after.epoch == log.epoch
    && forall id | Known(after, id) :: Known(log, id) && SameEnvelope(RowOf(after, id), RowOf(log, id)) && EpochOf(after, id) == EpochOf(log, id)
  }

  lemma ShrinkStaysGuarded(log: Log, after: Log, maxHops: nat)
    requires Guarded(log, maxHops) && Shrinks(log, after) && Current(after)
    ensures Guarded(after, maxHops)
  {
    forall a, b | Answers(after, a, b) ensures RowOf(after, a).b.hops < RowOf(after, b).b.hops {
      assert Known(after, a) && Known(after, b);
      assert Answers(log, a, b);
    }
  }

  lemma RewriteShrinks(log: Log, targets: set<string>, who: string, now: int)
    ensures Shrinks(log, Rewrite(log, targets, who, now)) && (Current(log) ==> Current(Rewrite(log, targets, who, now)))
  {
    var after := Rewrite(log, targets, who, now);
    forall id | Known(after, id)
      ensures Known(log, id) && SameEnvelope(RowOf(after, id), RowOf(log, id)) && EpochOf(after, id) == EpochOf(log, id)
    {
      PublishProofs.RewriteKeepsEnvelopes(log, targets, who, now, id);
    }
  }

  lemma MoveKeepsRow(log: Log, ids: set<string>, at: int, id: string)
    requires Keyed(log) && Known(Move(log, ids, at), id)
    ensures var after := Move(log, ids, at);
      Known(log, id) && RowOf(after, id) == RowOf(log, id) && EpochOf(after, id) == EpochOf(log, id)
  {
    if id in log.hot { assert id !in log.replay; }
  }

  lemma MoveShrinks(log: Log, ids: set<string>, at: int)
    requires Consistent(log) && Current(log)
    ensures Shrinks(log, Move(log, ids, at)) && Current(Move(log, ids, at))
  {
    forall id | Known(Move(log, ids, at), id)
      ensures var after := Move(log, ids, at);
        Known(log, id) && SameEnvelope(RowOf(after, id), RowOf(log, id)) && EpochOf(after, id) == EpochOf(log, id)
    {
      MoveKeepsRow(log, ids, at, id);
    }
  }

  lemma DropShrinks(log: Log, hot: set<string>, replay: set<string>, receipts: set<string>)
    requires Consistent(log) && Current(log)
    ensures Shrinks(log, Drop(log, hot, replay, receipts)) && Current(Drop(log, hot, replay, receipts))
  {
  }

  lemma RewriteStaysGuarded(log: Log, targets: set<string>, who: string, now: int, maxHops: nat)
    requires Guarded(log, maxHops)
    ensures Guarded(Rewrite(log, targets, who, now), maxHops)
  {
    RewriteShrinks(log, targets, who, now);
    ShrinkStaysGuarded(log, Rewrite(log, targets, who, now), maxHops);
  }

  lemma NewAnswer(log: Log, e: Envelope, ctx: Publish, a: string)
    requires Consistent(log) && !Known(log, e.id) && (ctx.project.None? ==> TraceCovered(log, e.traceId))
    requires Answers(Insert(log, e, ctx), a, e.id)
    ensures Known(log, a) && RowOf(log, a).b.hops < Hops(log, e, ctx)
  {
    assert a != e.id;
    var r := RowOf(log, a);
    assert RowOf(Insert(log, e, ctx), a) == r && RowOf(Insert(log, e, ctx), e.id) == NewRow(log, e, ctx);
    if a in log.hot {
      LoopGuard.HopsCounted(log, e, ctx.project, a);
    } else {
      assert CoversMoved(log, a);
      CoveredIsCounted(log, e, ctx, r);
    }
  }

  lemma OldAnswer(log: Log, e: Envelope, ctx: Publish, a: string, b: string)
    requires Consistent(log) && Current(log) && !Known(log, e.id) && Answers(Insert(log, e, ctx), a, b) && b != e.id
    ensures Answers(log, a, b)
  {
    assert EpochOf(log, b) <= log.epoch;
  }

  lemma InsertStaysGuarded(log: Log, e: Envelope, ctx: Publish)
    requires Consistent(log) && Guarded(log, ctx.maxHops) && !Known(log, e.id) && Hops(log, e, ctx) <= ctx.maxHops
    requires ctx.project.None? ==> TraceCovered(log, e.traceId)
    ensures Guarded(Insert(log, e, ctx), ctx.maxHops)
  {
    var next := Insert(log, e, ctx);
    forall id | Known(next, id) ensures 1 <= RowOf(next, id).b.hops <= ctx.maxHops {
      if id != e.id { assert Known(log, id) && RowOf(next, id) == RowOf(log, id); }
    }
    forall a, b | Answers(next, a, b) ensures RowOf(next, a).b.hops < RowOf(next, b).b.hops {
      if b == e.id { NewAnswer(log, e, ctx, a); } else { OldAnswer(log, e, ctx, a, b); }
    }
  }

  /** A batch or a redaction takes no cover away. */
  ghost predicate Covering(log: Log, after: Log) {
    && after.replay.Keys == log.replay.Keys
    && (forall id | id in log.replay :: SameEnvelope(Unpack(after.replay[id]), Unpack(log.replay[id])))
    && (forall id | id in log.hot :: id in after.hot && SameEnvelope(after.hot[id], log.hot[id]))
  }

  lemma StillCovers(log: Log, after: Log, id: string)
    requires Covering(log, after) && id in log.replay && CoversMoved(log, id)
    ensures CoversMoved(after, id)
  {
    var r := Unpack(log.replay[id]);
    if r.c.projectId.None? {
      var g, h :| g in log.hot && h in log.hot && Above(log.hot[g], r) && Above(log.hot[h], r)
        && (log.hot[g].c.source == r.c.source || log.hot[g].c.source != log.hot[h].c.source);
      assert Above(after.hot[g], Unpack(after.replay[id])) && Above(after.hot[h], Unpack(after.replay[id]));
    }
  }

  lemma CoveringTwice(log: Log, mid: Log, after: Log)
    requires Covering(log, mid) && Covering(mid, after)
    ensures Covering(log, after)
  {
  }

  lemma InsertCovers(log: Log, e: Envelope, ctx: Publish)
    requires !Known(log, e.id)
    ensures Covering(log, Insert(log, e, ctx))
  {
  }

  lemma RewriteCovers(log: Log, targets: set<string>, who: string, now: int)
    ensures Covering(log, Rewrite(log, targets, who, now))
  {
  }

  lemma PublishOneCovers(log: Log, e: Envelope, ctx: Publish)
    requires PublishOne(log, e, ctx).Ok?
    ensures Covering(log, PublishOne(log, e, ctx).value.0)
  {
    if !Known(log, e.id) && e.id !in log.receipts {
      var after, next := PublishOne(log, e, ctx).value.0, Insert(log, e, ctx);
      PublishProofs.PublishOneShape(log, e, ctx);
      InsertCovers(log, e, ctx);
      if after != next {
        var targets :| after == Rewrite(next, targets, e.id, ctx.now);
        RewriteCovers(next, targets, e.id, ctx.now);
        CoveringTwice(log, next, after);
      }
    }
  }

  lemma PublishOneStaysGuarded(log: Log, e: Envelope, ctx: Publish)
    requires Consistent(log) && Guarded(log, ctx.maxHops) && PublishOne(log, e, ctx).Ok?
    requires ctx.project.None? ==> TraceCovered(log, e.traceId)
    ensures Guarded(PublishOne(log, e, ctx).value.0, ctx.maxHops)
  {
    if !Known(log, e.id) && e.id !in log.receipts {
      InsertStaysGuarded(log, e, ctx);
      var after, next := PublishOne(log, e, ctx).value.0, Insert(log, e, ctx);
      PublishProofs.PublishOneShape(log, e, ctx);
      if after != next {
        var targets :| after == Rewrite(next, targets, e.id, ctx.now);
        RewriteStaysGuarded(next, targets, e.id, ctx.now, ctx.maxHops);
      }
    }
  }

  lemma {:induction false} PublishAllCovers(log: Log, items: seq<Envelope>, ctx: Publish)
    requires PublishAll(log, items, ctx).Ok?
    ensures Covering(log, PublishAll(log, items, ctx).value.0)
  {
    if items != [] {
      var mid := PublishAll(log, items[..|items| - 1], ctx).value.0;
      PublishAllCovers(log, items[..|items| - 1], ctx);
      PublishOneCovers(mid, items[|items| - 1], ctx);
      CoveringTwice(log, mid, PublishAll(log, items, ctx).value.0);
    }
  }

  lemma TraceStaysCovered(log: Log, after: Log, trace: string)
    requires Covering(log, after) && TraceCovered(log, trace)
    ensures TraceCovered(after, trace)
  {
    forall id | id in after.replay && Unpack(after.replay[id]).b.traceId == trace ensures CoversMoved(after, id) {
      StillCovers(log, after, id);
    }
  }

  /** The traces a batch publishes into as a first party are covered. */
  predicate BatchCovered(log: Log, items: seq<Envelope>, ctx: Publish) {
    ctx.project.None? ==> forall i | 0 <= i < |items| :: TraceCovered(log, items[i].traceId)
  }

  lemma {:induction false} PublishAllStaysGuarded(log: Log, items: seq<Envelope>, ctx: Publish)
    requires Consistent(log) && Guarded(log, ctx.maxHops) && PublishAll(log, items, ctx).Ok? && BatchCovered(log, items, ctx)
    ensures Guarded(PublishAll(log, items, ctx).value.0, ctx.maxHops)
  {
    if items != [] {
      var front, last := items[..|items| - 1], items[|items| - 1];
      PublishAllStaysGuarded(log, front, ctx);
      PublishProofs.PublishAllIsConsistent(log, front, ctx);
      PublishAllCovers(log, front, ctx);
      var mid := PublishAll(log, front, ctx).value.0;
      if ctx.project.None? { TraceStaysCovered(log, mid, last.traceId); }
      PublishOneStaysGuarded(mid, last, ctx);
    }
  }

  predicate StepCovered(log: Log, s: Step, maxHops: nat) { s.Batch? ==> s.ctx.maxHops == maxHops && BatchCovered(log, s.items, s.ctx) }

  lemma StepStaysGuarded(log: Log, s: Step, maxHops: nat)
    requires Consistent(log) && Guarded(log, maxHops) && StepCovered(log, s, maxHops)
    ensures Guarded(Apply(log, s), maxHops)
  {
    match s
    case Batch(items, ctx) => if PublishAll(log, items, ctx).Ok? { PublishAllStaysGuarded(log, items, ctx); }
    case Redaction(who, d, at) => RewriteStaysGuarded(log, Targets(log, who, d), who.id, at, maxHops);
    case MoveOut(ids, at) =>
      MoveShrinks(log, ids, at);
      ShrinkStaysGuarded(log, Move(log, ids, at), maxHops);
    case Retire(hot, replay, receipts) =>
      DropShrinks(log, hot, replay, receipts);
      ShrinkStaysGuarded(log, Drop(log, hot, replay, receipts), maxHops);
  }

  // ---------------------------------------------------------------- whole runs

  /** Whenever a first party published, the moved rows of its trace were covered. */
  predicate RunCovered(log: Log, steps: seq<Step>, maxHops: nat) {
    steps == [] ||
    (RunCovered(log, steps[..|steps| - 1], maxHops) && StepCovered(Run(log, steps[..|steps| - 1]), steps[|steps| - 1], maxHops))
  }

  /** In such a run hops rise from every retained first-party event to every later one of another source in its trace, in both tiers. */
  lemma {:induction false} EveryRunIsGuarded(log: Log, steps: seq<Step>, maxHops: nat)
    requires Consistent(log) && Guarded(log, maxHops) && RunCovered(log, steps, maxHops)
    ensures Guarded(Run(log, steps), maxHops)
  {
    if steps != [] {
      EveryRunIsGuarded(log, steps[..|steps| - 1], maxHops);
      PublishProofs.EveryRunIsConsistent(log, steps[..|steps| - 1]);
      StepStaysGuarded(Run(log, steps[..|steps| - 1]), steps[|steps| - 1], maxHops);
    }
  }

  /** And services answer one another in one trace no more than maxHops times deep, over all retained events. */
  lemma ChainsAreBounded(log: Log, steps: seq<Step>, maxHops: nat, ids: seq<string>)
    requires Consistent(log) && Guarded(log, maxHops) && RunCovered(log, steps, maxHops) && Chain(Run(log, steps), ids)
    ensures |ids| <= maxHops
  {
    EveryRunIsGuarded(log, steps, maxHops);
    if ids != [] { ChainDepth(Run(log, steps), ids, maxHops); }
  }

  /** No first-party row of a trace is in the replay tier when a first party publishes into the trace. */
  predicate MovedTracesAreOver(log: Log, steps: seq<Step>, maxHops: nat) {
    steps == [] ||
    (var before, s := Run(log, steps[..|steps| - 1]), steps[|steps| - 1];
     && MovedTracesAreOver(log, steps[..|steps| - 1], maxHops)
     && (s.Batch? ==> s.ctx.maxHops == maxHops)
     && (s.Batch? && s.ctx.project.None? ==>
           forall i, id | 0 <= i < |s.items| && id in before.replay && before.replay[id].c.projectId.None? ::
             Unpack(before.replay[id]).b.traceId != s.items[i].traceId))
  }

  /** A run that moves a trace's rows only after the trace's last publish is such a run. */
  lemma {:induction false} OverIsCovered(log: Log, steps: seq<Step>, maxHops: nat)
    requires MovedTracesAreOver(log, steps, maxHops)
    ensures RunCovered(log, steps, maxHops)
  {
    if steps != [] { OverIsCovered(log, steps[..|steps| - 1], maxHops); }
  }

  // ---------------------------------------------------------------- exactly which moves are safe

  /** Traces and sources are those of validated envelopes. */
  ghost predicate Lawful(log: Log) { forall id | Known(log, id) :: TraceId(RowOf(log, id).b.traceId) && SourceName(RowOf(log, id).c.source) }

  /** Publishes, redactions and prunes that take no hot row. */
  predicate Quiet(s: Step, maxHops: nat) {
    match s
    case Batch(items, ctx) => ctx.maxHops == maxHops && forall i | 0 <= i < |items| :: Valid(items[i])
    case Redaction(_, _, _) => true
    case MoveOut(_, _) => false
    case Retire(hot, _, _) => hot == {}
  }

  predicate AllQuiet(steps: seq<Step>, maxHops: nat) { forall i | 0 <= i < |steps| :: Quiet(steps[i], maxHops) }

  lemma CoveredEverywhere(log: Log, items: seq<Envelope>, ctx: Publish)
    requires Covered(log)
    ensures BatchCovered(log, items, ctx)
  {
  }

  lemma QuietStaysCovered(log: Log, s: Step, maxHops: nat)
    requires Covered(log) && Quiet(s, maxHops)
    ensures Covered(Apply(log, s))
  {
    match s
    case Batch(items, ctx) =>
      if PublishAll(log, items, ctx).Ok? {
        PublishAllCovers(log, items, ctx);
        AllStayCovered(log, Apply(log, s));
      }
    case Redaction(who, d, at) =>
      RewriteCovers(log, Targets(log, who, d), who.id, at);
      AllStayCovered(log, Rewrite(log, Targets(log, who, d), who.id, at));
    case Retire(hot, replay, receipts) => DropStaysCovered(log, replay, receipts);
  }

  lemma AllStayCovered(log: Log, after: Log)
    requires Covered(log) && Covering(log, after)
    ensures Covered(after)
  {
    forall id | id in after.replay ensures CoversMoved(after, id) { StillCovers(log, after, id); }
  }

  lemma DropStaysCovered(log: Log, replay: set<string>, receipts: set<string>)
    requires Covered(log)
    ensures Covered(Drop(log, {}, replay, receipts))
  {
    var after := Drop(log, {}, replay, receipts);
    assert after.hot == log.hot;
    forall id | id in after.replay ensures CoversMoved(after, id) { assert CoversMoved(log, id); }
  }

  lemma {:induction false} QuietRunStaysGuarded(log: Log, steps: seq<Step>, maxHops: nat)
    requires Consistent(log) && Guarded(log, maxHops) && Covered(log) && AllQuiet(steps, maxHops)
    ensures Guarded(Run(log, steps), maxHops) && Covered(Run(log, steps))
  {
    if steps != [] {
      var front, s := steps[..|steps| - 1], steps[|steps| - 1];
      QuietRunStaysGuarded(log, front, maxHops);
      PublishProofs.EveryRunIsConsistent(log, front);
      assert Quiet(s, maxHops);
      if s.Batch? { CoveredEverywhere(Run(log, front), s.items, s.ctx); }
      StepStaysGuarded(Run(log, front), s, maxHops);
      QuietStaysCovered(Run(log, front), s, maxHops);
    }
  }

  /** The source that sees nothing as deep as an uncovered row: the one that has all the hot rows as deep, or any other. */
  lemma BlindSource(log: Log, r: Row) returns (source: string)
    requires Lawful(log) && !Covers(log, r)
    ensures SourceName(source) && source != r.c.source
    ensures forall h | h in log.hot && Above(log.hot[h], r) :: log.hot[h].c.source == source
  {
    if g :| g in log.hot && Above(log.hot[g], r) {
      source := log.hot[g].c.source;
      assert Known(log, g) && RowOf(log, g) == log.hot[g];
      forall h | h in log.hot && Above(log.hot[h], r) ensures log.hot[h].c.source == source { assert Above(log.hot[g], r); }
    } else {
      source := if r.c.source == "aa" then "bb" else "aa";
    }
  }

  lemma ChainHopsAtMost(log: Log, e: Envelope, p: Option<Project>, n: nat)
    requires forall id | id in log.hot && log.hot[id].b.traceId == e.traceId && log.hot[id].c.source != e.source
               && CountsFor(p, log.hot[id]) :: log.hot[id].b.hops <= n
    ensures ChainHops(log, e, p) <= n
  {
    var counted := set id | id in log.hot && log.hot[id].b.traceId == e.traceId && log.hot[id].c.source != e.source
      && CountsFor(p, log.hot[id]) :: log.hot[id].b.hops;
    GreatestBounds(counted);
    assert ChainHops(log, e, p) == Greatest(counted);
  }

  /** What that source publishes is no deeper than the row it answers. */
  lemma BlindHops(log: Log, e: Envelope, ctx: Publish, r: Row)
    requires ctx.project.None? && e.traceId == r.b.traceId && r.b.hops >= 1
    requires forall h | h in log.hot && Above(log.hot[h], r) :: log.hot[h].c.source == e.source
    requires forall id | id in log.hot :: log.hot[id].c.subjectId != e.subjectId
    ensures Hops(log, e, ctx) <= r.b.hops
  {
    ChainHopsAtMost(log, e, ctx.project, r.b.hops - 1);
    assert Repeats(log, e, ctx.requestId) == {};
  }

  /** An uncovered row is answered by some validated event that is accepted with no more hops. */
  lemma UncoveredIsAnswered(log: Log, moved: string, maxHops: nat, id: string) returns (steps: seq<Step>)
    requires Consistent(log) && Guarded(log, maxHops) && Lawful(log) && moved in log.replay && !CoversMoved(log, moved)
    requires EventId(id) && !Known(log, id) && id !in log.receipts
    ensures AllQuiet(steps, maxHops) && !Rising(Run(log, steps))
  {
    var r := RowOf(log, moved);
    var source := BlindSource(log, r);
    var subject := NewSubject(log);
    var e := Plain(id, r.b.traceId, source, subject, map[]);
    var ctx := Publish(None, "", 0, maxHops, (e: Envelope) => None);
    PlainIsValid(id, r.b.traceId, source, subject, map[]);
    BlindHops(log, e, ctx, r);
    PublishedAlone(log, e, ctx);
    AnsweredTooShallow(log, e, ctx, moved);
    OneBatch(log, e, ctx);
    steps := [Batch([e], ctx)];
  }

  lemma OneBatch(log: Log, e: Envelope, ctx: Publish)
    requires Valid(e)
    ensures AllQuiet([Batch([e], ctx)], ctx.maxHops) && Run(log, [Batch([e], ctx)]) == Apply(log, Batch([e], ctx))
  {
    assert [Batch([e], ctx)][..0] == [];
  }

  lemma AnsweredTooShallow(log: Log, e: Envelope, ctx: Publish, moved: string)
    requires Consistent(log) && Current(log) && moved in log.replay && !Known(log, e.id) && ctx.project.None?
    requires var r := RowOf(log, moved);
      r.c.projectId.None? && r.b.traceId == e.traceId && r.c.source != e.source && Hops(log, e, ctx) <= r.b.hops
    ensures !Rising(Insert(log, e, ctx))
  {
    var next := Insert(log, e, ctx);
    assert RowOf(next, moved) == RowOf(log, moved) && RowOf(next, e.id) == NewRow(log, e, ctx);
    assert Answers(next, moved, e.id);
  }

  /**
   Exactly which stores are safe, from any store whose hops rise: every continuation by publishes, redactions and prunes of the
   replay tier keeps them rising if and only if every first-party row in the replay tier is covered by hot rows of its trace.
   */
  lemma StaysRisingIff(log: Log, maxHops: nat, unused: string)
    requires Consistent(log) && Guarded(log, maxHops) && Lawful(log)
    requires EventId(unused) && !Known(log, unused) && unused !in log.receipts
    ensures Covered(log) <==> forall steps | AllQuiet(steps, maxHops) :: Rising(Run(log, steps))
  {
    if Covered(log) {
      forall steps | AllQuiet(steps, maxHops) ensures Rising(Run(log, steps)) { QuietRunStaysGuarded(log, steps, maxHops); }
    } else {
      var moved :| moved in log.replay && !CoversMoved(log, moved);
      var steps := UncoveredIsAnswered(log, moved, maxHops, unused);
    }
  }

  // ---------------------------------------------------------------- a run that goes too deep

  const EMPTY := Log(map[], map[], 0, 0, map[], Deliveries.Queue(map[], map[]), map[])

  /** The first publish of a trace, a prune's move of it once it is old, and an answer to it. */
  function AnsweredLate(a: Envelope, b: Envelope, first: Publish, second: Publish, at: int): seq<Step> {
    [Batch([a], first), MoveOut({a.id}, at), Batch([b], second)]
  }

  lemma HopsWithoutRows(log: Log, e: Envelope, ctx: Publish)
    requires log.hot == map[]
    ensures Hops(log, e, ctx) == 1
  {
    ChainHopsAtMost(log, e, ctx.project, 0);
    assert Repeats(log, e, ctx.requestId) == {};
  }

  lemma ThreeSteps(log: Log, x: Step, y: Step, z: Step)
    ensures Run(log, [x, y, z][..1]) == Apply(log, x) && Run(log, [x, y, z]) == Apply(Apply(Apply(log, x), y), z)
  {
    assert [x, y, z][..1] == [x] && [x][..0] == [] && [x, y, z][..2] == [x, y] && [x, y][..1] == [x];
    assert Run(log, [x]) == Apply(log, x);
    assert Run(log, [x, y]) == Apply(Run(log, [x]), y);
  }

  lemma InsertedAndMoved(a: Envelope, ctx: Publish, at: int)
    ensures var s := Move(Insert(EMPTY, a, ctx), {a.id}, at);
      s.hot == map[] && s.replay == map[a.id := Store(NewRow(EMPTY, a, ctx), 0, at)] && s.lastSeq == 1 && s.receipts.Keys == {a.id}
  {
  }

  /**
   The guard counts hot rows only. Any two events of one trace and different sources, the first of them moved to the replay tier
   by age before the second is published, are both retained with one hop each: a chain of two under a limit of one.
   */
  lemma MovedRowsAreNotCounted(a: Envelope, b: Envelope, now: int, at: int, retention: nat)
    requires Valid(a) && Valid(b) && ParseDirective(a.payload).Absent? && ParseDirective(b.payload).Absent?
    requires a.id != b.id && a.traceId == b.traceId && a.source != b.source && now < at - retention
    ensures var first := Publish(None, "r1", now, 1, (e: Envelope) => None);
      var steps := AnsweredLate(a, b, first, first.(requestId := "r2", now := at), at);
      var after := Run(EMPTY, steps);
      && a.id in EventStore.Movable(Run(EMPTY, steps[..1]).hot, at - retention, {})
      && Answers(after, a.id, b.id) && Chain(after, [a.id, b.id])
      && RowOf(after, a.id).b.hops == RowOf(after, b.id).b.hops == 1
  {
    var first := Publish(None, "r1", now, 1, (e: Envelope) => None);
    var second := first.(requestId := "r2", now := at);
    var steps := AnsweredLate(a, b, first, second, at);
    ThreeSteps(EMPTY, steps[0], steps[1], steps[2]);
    PublishedFirst(a, first, at, retention);
    var s2 := Move(Insert(EMPTY, a, first), {a.id}, at);
    InsertedAndMoved(a, first, at);
    HopsWithoutRows(s2, b, second);
    PublishedAlone(s2, b, second);
    AnsweredAfterMove(a, b, first, second, at, s2);
  }

  lemma PublishedFirst(a: Envelope, first: Publish, at: int, retention: nat)
    requires ParseDirective(a.payload).Absent? && first.project.None? && first.maxHops >= 1 && first.now < at - retention
    ensures Apply(EMPTY, Batch([a], first)) == Insert(EMPTY, a, first) && Hops(EMPTY, a, first) == 1
    ensures a.id in EventStore.Movable(Insert(EMPTY, a, first).hot, at - retention, {})
  {
    HopsWithoutRows(EMPTY, a, first);
    PublishedAlone(EMPTY, a, first);
  }

  lemma AnsweredAfterMove(a: Envelope, b: Envelope, first: Publish, second: Publish, at: int, s: Log)
    requires s.hot == map[] && s.replay == map[a.id := Store(NewRow(EMPTY, a, first), 0, at)] && s.lastSeq == 1 && s.epoch == 0
    requires a.id != b.id && a.traceId == b.traceId && a.source != b.source && first.project.None? && second.project.None?
    ensures var after := Insert(s, b, second);
      && Answers(after, a.id, b.id) && Chain(after, [a.id, b.id])
      && RowOf(after, a.id).b.hops == Hops(EMPTY, a, first) && RowOf(after, b.id).b.hops == Hops(s, b, second)
  {
    var after := Insert(s, b, second);
    assert RowOf(after, a.id) == NewRow(EMPTY, a, first) && RowOf(after, b.id) == NewRow(s, b, second);
    assert Answers(after, a.id, b.id);
  }
}
