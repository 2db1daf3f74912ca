/**
 The loop guard over the hot tier, the only rows it counts, and what apps cannot do to it; `LoopChains` has what it keeps over both
 tiers.
 */
module LoopGuard {
  import opened Wrappers
  import opened Archive
  import opened Redaction
  import opened EventLog
  import PublishProofs
  import opened RedactionProofs

  /** A first-party row of the trace that a later row of another source counts. */
  predicate Counts(a: Row, b: Row) {
    a.c.projectId.None? && b.c.projectId.None? && a.b.traceId == b.b.traceId && a.c.source != b.c.source && a.c.pos < b.c.pos
  }

  predicate Guarded(log: Log, maxHops: nat) {
    && (forall id | id in log.hot :: 1 <= log.hot[id].b.hops <= maxHops)
    && (forall a, b | a in log.hot && b in log.hot && Counts(log.hot[a], log.hot[b]) :: log.hot[a].b.hops < log.hot[b].b.hops)
  }

  lemma HopsCounted(log: Log, e: Envelope, p: Option<Project>, id: string)
    requires id in log.hot && log.hot[id].b.traceId == e.traceId && log.hot[id].c.source != e.source && CountsFor(p, log.hot[id])
    ensures log.hot[id].b.hops <= ChainHops(log, e, p)
  {
    var counted := set x | x in log.hot && log.hot[x].b.traceId == e.traceId && log.hot[x].c.source != e.source && CountsFor(p, log.hot[x])
      :: log.hot[x].b.hops;
    GreatestBounds(counted);
    assert log.hot[id].b.hops in counted;
  }

  lemma InsertIsGuarded(log: Log, e: Envelope, ctx: Publish)
    requires Keyed(log) && Guarded(log, ctx.maxHops) && !Known(log, e.id) && Hops(log, e, ctx) <= ctx.maxHops
    ensures Guarded(Insert(log, e, ctx), ctx.maxHops)
  {
    var next, r := Insert(log, e, ctx), NewRow(log, e, ctx);
    forall a, b | a in next.hot && b in next.hot && Counts(next.hot[a], next.hot[b]) ensures next.hot[a].b.hops < next.hot[b].b.hops {
      if b == e.id && a != e.id {
        assert log.hot[a].c.source != e.source && CountsFor(ctx.project, log.hot[a]);
        HopsCounted(log, e, ctx.project, a);
      }
    }
  }

  lemma RewriteIsGuarded(log: Log, targets: set<string>, who: string, now: int, maxHops: nat)
    requires Guarded(log, maxHops)
    ensures Guarded(Rewrite(log, targets, who, now), maxHops)
  {
    var next := Rewrite(log, targets, who, now);
    forall a, b | a in next.hot && b in next.hot && Counts(next.hot[a], next.hot[b]) ensures next.hot[a].b.hops < next.hot[b].b.hops {
      assert Counts(log.hot[a], log.hot[b]);
    }
  }

  lemma PublishOneIsGuarded(log: Log, e: Envelope, ctx: Publish)
    requires Consistent(log) && Guarded(log, ctx.maxHops) && PublishOne(log, e, ctx).Ok?
    ensures Guarded(PublishOne(log, e, ctx).value.0, ctx.maxHops)
  {
    if !Known(log, e.id) && e.id !in log.receipts {
      InsertIsGuarded(log, e, ctx);
      var next, who := Insert(log, e, ctx), NewRow(log, e, ctx).c;
      if ParseDirective(e.payload).Redacts? {
        RewriteIsGuarded(next, Targets(next, who, ParseDirective(e.payload).directive), who.id, ctx.now, ctx.maxHops);
      }
    }
  }

  lemma {:induction false} PublishAllIsGuarded(log: Log, items: seq<Envelope>, ctx: Publish)
    requires Consistent(log) && Guarded(log, ctx.maxHops) && PublishAll(log, items, ctx).Ok?
    ensures Guarded(PublishAll(log, items, ctx).value.0, ctx.maxHops)
  {
    if items != [] {
      PublishAllIsGuarded(log, items[..|items| - 1], ctx);
      PublishProofs.PublishAllIsConsistent(log, items[..|items| - 1], ctx);
      PublishOneIsGuarded(PublishAll(log, items[..|items| - 1], ctx).value.0, items[|items| - 1], ctx);
    }
  }

  lemma StepIsGuarded(log: Log, s: Step, maxHops: nat)
    requires Consistent(log) && Guarded(log, maxHops) && (s.Batch? ==> s.ctx.maxHops == maxHops)
    ensures Guarded(Apply(log, s), maxHops)
  {
    match s
    case Batch(items, ctx) => if PublishAll(log, items, ctx).Ok? { PublishAllIsGuarded(log, items, ctx); }
    case Redaction(who, d, at) => RewriteIsGuarded(log, Targets(log, who, d), who.id, at, maxHops);
    case MoveOut(_, _) =>
    case Retire(_, _, _) =>
  }

  /** In every run, hops of hot events are within the limit and rise from a first-party one to every later hot one of another source in its trace. */
  lemma {:induction false} HotRunsAreGuarded(log: Log, steps: seq<Step>, maxHops: nat)
    requires Consistent(log) && Guarded(log, maxHops)
    requires forall i | 0 <= i < |steps| :: steps[i].Batch? ==> steps[i].ctx.maxHops == maxHops
    ensures Guarded(Run(log, steps), maxHops)
  {
    if steps != [] {
      HotRunsAreGuarded(log, steps[..|steps| - 1], maxHops);
      PublishProofs.EveryRunIsConsistent(log, steps[..|steps| - 1]);
      StepIsGuarded(Run(log, steps[..|steps| - 1]), steps[|steps| - 1], maxHops);
    }
  }

  /** Hot events of one trace, in order, each of another source than the one before. */
  predicate Chain(log: Log, ids: seq<string>) {
    && (forall i | 0 <= i < |ids| :: ids[i] in log.hot)
    && (forall i | 0 < i < |ids| :: Counts(log.hot[ids[i - 1]], log.hot[ids[i]]))
  }

  lemma {:induction false} ChainDepth(log: Log, ids: seq<string>, maxHops: nat)
    requires Guarded(log, maxHops) && Chain(log, ids) && ids != []
    ensures log.hot[ids[|ids| - 1]].b.hops >= |ids|
  {
    if |ids| > 1 {
      var front := ids[..|ids| - 1];
      assert forall i | 0 < i < |front| :: Counts(log.hot[front[i - 1]], log.hot[front[i]]) by {
        forall i | 0 < i < |front| ensures Counts(log.hot[front[i - 1]], log.hot[front[i]]) {
          assert Counts(log.hot[ids[i - 1]], log.hot[ids[i]]);
        }
      }
      ChainDepth(log, front, maxHops);
      assert Counts(log.hot[ids[|ids| - 2]], log.hot[ids[|ids| - 1]]);
    }
  }

  /** No run lets hot events answer one another in one trace more than maxHops times deep. */
  lemma HotChainsAreBounded(log: Log, steps: seq<Step>, maxHops: nat, ids: seq<string>)
    requires Consistent(log) && Guarded(log, maxHops)
    requires forall i | 0 <= i < |steps| :: steps[i].Batch? ==> steps[i].ctx.maxHops == maxHops
    requires Chain(Run(log, steps), ids)
    ensures |ids| <= maxHops
  {
    HotRunsAreGuarded(log, steps, maxHops);
    if ids != [] { ChainDepth(Run(log, steps), ids, maxHops); }
  }

  // ---------------------------------------------------------------- apps cannot poison a trace

  function FirstParty(log: Log): map<string, Row> { map id | id in log.hot && log.hot[id].c.projectId.None? :: log.hot[id] }

  /** The event's directive names, by id, a stored event of another owner. */
  predicate NamesForeign(log: Log, e: Envelope, ctx: Publish) {
    ParseDirective(e.payload).Redacts? &&
    exists id | id in ParseDirective(e.payload).directive.eventIds :: id != e.id && Known(log, id) && !SameOwner(NewRow(log, e, ctx).c, Lookup(log, id).value.c)
  }

  lemma DirectiveRefusedIff(log: Log, e: Envelope, ctx: Publish)
    requires !Known(log, e.id) && ParseDirective(e.payload).Redacts?
    ensures Redact(Insert(log, e, ctx), NewRow(log, e, ctx).c, ParseDirective(e.payload).directive, ctx.now).Err? <==> NamesForeign(log, e, ctx)
  {
    var d, next, who := ParseDirective(e.payload).directive, Insert(log, e, ctx), NewRow(log, e, ctx).c;
    RefusedIff(next, who, d, ctx.now);
    assert next.hot[e.id].c == who;
    assert forall id | id != e.id :: Known(next, id) == Known(log, id) && Lookup(next, id) == Lookup(log, id);
  }

  lemma AcceptedIff(log: Log, e: Envelope, ctx: Publish)
    requires !Known(log, e.id) && e.id !in log.receipts
    ensures PublishOne(log, e, ctx).Ok? <==>
              Hops(log, e, ctx) <= ctx.maxHops && !ParseDirective(e.payload).Malformed? && !NamesForeign(log, e, ctx)
  {
    if ParseDirective(e.payload).Redacts? { DirectiveRefusedIff(log, e, ctx); }
  }

  /**
   Two stores whose first-party events agree judge a first-party publish alike, whatever apps published in between; one that
   redacts they judge alike exactly when its directive names another owner's event in both or in neither, or another rule decides.
   */
  lemma AppsDoNotMatter(p: Log, q: Log, e: Envelope, ctx: Publish)
    requires ctx.project.None? && FirstParty(p) == FirstParty(q)
    requires !Known(p, e.id) && !Known(q, e.id) && (e.id in p.receipts <==> e.id in q.receipts)
    requires forall id | id in p.hot && p.hot[id].c.projectId.Some? :: p.hot[id].c.source != e.source
    requires forall id | id in q.hot && q.hot[id].c.projectId.Some? :: q.hot[id].c.source != e.source
    ensures Hops(p, e, ctx) == Hops(q, e, ctx)
    ensures (PublishOne(p, e, ctx).Ok? <==> PublishOne(q, e, ctx).Ok?) <==>
              (NamesForeign(p, e, ctx) <==> NamesForeign(q, e, ctx)) || e.id in p.receipts || Hops(p, e, ctx) > ctx.maxHops
  {
    SameHops(p, q, e, ctx);
    if e.id !in p.receipts {
      AcceptedIff(p, e, ctx);
      AcceptedIff(q, e, ctx);
    }
  }

  lemma AddsNoFirstParty(p: Log, id: string, r: Row)
    requires id !in p.hot && r.c.projectId.Some?
    ensures FirstParty(p.(hot := p.hot[id := r])) == FirstParty(p)
  {
  }

  /** With an app's event stored under an id it names, a directive accepted without it is refused. */
  lemma NamedAppEventRefuses(p: Log, e: Envelope, ctx: Publish, id: string, r: Row)
    requires ctx.project.None? && !Known(p, e.id) && e.id !in p.receipts && PublishOne(p, e, ctx).Ok?
    requires ParseDirective(e.payload).Redacts? && id in ParseDirective(e.payload).directive.eventIds
    requires !Known(p, id) && id != e.id && r.c.projectId.Some?
    ensures var q := p.(hot := p.hot[id := r]); FirstParty(q) == FirstParty(p) && PublishOne(q, e, ctx).Err?
  {
    var q := p.(hot := p.hot[id := r]);
    AddsNoFirstParty(p, id, r);
    assert Lookup(q, id) == Some(r) && NewRow(q, e, ctx).c.projectId == None;
    assert NamesForeign(q, e, ctx);
    AcceptedIff(q, e, ctx);
  }

  lemma SameHops(p: Log, q: Log, e: Envelope, ctx: Publish)
    requires ctx.project.None? && FirstParty(p) == FirstParty(q)
    requires forall id | id in p.hot && p.hot[id].c.projectId.Some? :: p.hot[id].c.source != e.source
    requires forall id | id in q.hot && q.hot[id].c.projectId.Some? :: q.hot[id].c.source != e.source
    ensures Hops(p, e, ctx) == Hops(q, e, ctx)
  {
    HopsReadFirstParty(p, q, e, ctx);
    HopsReadFirstParty(q, p, e, ctx);
    assert Repeats(p, e, ctx.requestId) == Repeats(q, e, ctx.requestId);
    var a := set id | id in p.hot && p.hot[id].b.traceId == e.traceId && p.hot[id].c.source != e.source && CountsFor(None, p.hot[id]) :: p.hot[id].b.hops;
    var b := set id | id in q.hot && q.hot[id].b.traceId == e.traceId && q.hot[id].c.source != e.source && CountsFor(None, q.hot[id]) :: q.hot[id].b.hops;
    assert a == b;
  }

  lemma HopsReadFirstParty(p: Log, q: Log, e: Envelope, ctx: Publish)
    requires FirstParty(p) == FirstParty(q) && ctx.project.None?
    ensures forall id | id in p.hot && p.hot[id].c.projectId.None? :: id in q.hot && q.hot[id] == p.hot[id]
  {
    forall id | id in p.hot && p.hot[id].c.projectId.None? ensures id in q.hot && q.hot[id] == p.hot[id] {
      assert id in FirstParty(p) && FirstParty(p)[id] == FirstParty(q)[id];
    }
  }
}
