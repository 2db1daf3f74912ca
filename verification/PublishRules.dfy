/** Who a published event reaches, what refuses it and what it may redact, in the columns of the tables. */
module PublishRules {
  import opened Wrappers
  import opened Archive
  import opened Redaction
  import opened EventLog
  import Apps
  import Deliveries
  import PublishProofs
  import RedactionProofs
  import Topics

  // ---------------------------------------------------------------- what refuses a publish

  /** The row is another source's, another project's or of another environment. */
  predicate Others(source: string, projectId: Option<string>, env: string, c: Columns) {
    c.source != source || c.projectId != projectId || c.env != env
  }

  function ProjectOf(ctx: Publish): Option<string> { if ctx.project == None then None else Some(ctx.project.value.id) }

  function EnvOf(ctx: Publish): string { if ctx.project == None then "production" else ctx.project.value.env }

  /** A directive is refused exactly when some id it names is stored with another source, project or environment. */
  lemma DirectiveRefusedIff(log: Log, who: Columns, d: Directive, now: int)
    ensures Redact(log, who, d, now).Err? <==>
              exists id | id in d.eventIds :: Known(log, id) && Others(who.source, who.projectId, who.env, Lookup(log, id).value.c)
  {
    RedactionProofs.RefusedIff(log, who, d, now);
    if Redact(log, who, d, now).Err? {
      var id :| id in d.eventIds && Known(log, id) && !SameOwner(who, Lookup(log, id).value.c);
      assert Others(who.source, who.projectId, who.env, Lookup(log, id).value.c);
    }
  }

  /** The event names, by id, a stored event that is not its publisher's. */
  predicate NamesOthers(log: Log, e: Envelope, ctx: Publish) {
    && ParseDirective(e.payload).Redacts?
    && exists id | id in ParseDirective(e.payload).directive.eventIds ::
         id != e.id && Known(log, id) && Others(e.source, ProjectOf(ctx), EnvOf(ctx), Lookup(log, id).value.c)
  }

  /** A hot event of another source in the trace, first-party or of the publisher's own project and environment, is at the limit. */
  predicate AnswersTooDeep(log: Log, e: Envelope, ctx: Publish) {
    exists id | id in log.hot ::
      && log.hot[id].b.traceId == e.traceId && log.hot[id].c.source != e.source && log.hot[id].b.hops >= ctx.maxHops
      && (log.hot[id].c.projectId == None || (ctx.project != None && log.hot[id].c.projectId == ProjectOf(ctx) && log.hot[id].c.env == EnvOf(ctx)))
  }

  /** How often this source already published this type about this subject in the trace, in other calls. */
  function SaidBefore(log: Log, e: Envelope, requestId: string): nat {
    |set id | id in log.hot && log.hot[id].b.traceId == e.traceId && log.hot[id].c.source == e.source && log.hot[id].c.eventType == e.eventType
       && log.hot[id].c.subjectType == e.subjectType && log.hot[id].c.subjectId == e.subjectId && log.hot[id].b.requestId != Some(requestId)|
  }

  predicate Loops(log: Log, e: Envelope, ctx: Publish) {
    ctx.maxHops == 0 || AnswersTooDeep(log, e, ctx) || SaidBefore(log, e, ctx.requestId) >= ctx.maxHops
  }

  lemma LoopsIff(log: Log, e: Envelope, ctx: Publish)
    ensures Hops(log, e, ctx) > ctx.maxHops <==> Loops(log, e, ctx)
  {
    assert Repeats(log, e, ctx.requestId)
        == set id | id in log.hot && log.hot[id].b.traceId == e.traceId && log.hot[id].c.source == e.source && log.hot[id].c.eventType == e.eventType
             && log.hot[id].c.subjectType == e.subjectType && log.hot[id].c.subjectId == e.subjectId && log.hot[id].b.requestId != Some(ctx.requestId);
    assert |Repeats(log, e, ctx.requestId)| == SaidBefore(log, e, ctx.requestId);
    ChainIff(log, e, ctx);
  }

  lemma ChainIff(log: Log, e: Envelope, ctx: Publish)
    ensures ctx.maxHops > 0 ==> (ChainHops(log, e, ctx.project) >= ctx.maxHops <==> AnswersTooDeep(log, e, ctx))
  {
    var counted := set id | id in log.hot && log.hot[id].b.traceId == e.traceId && log.hot[id].c.source != e.source
      && CountsFor(ctx.project, log.hot[id]) :: log.hot[id].b.hops;
    GreatestBounds(counted);
    assert ChainHops(log, e, ctx.project) == Greatest(counted);
    if AnswersTooDeep(log, e, ctx) {
      var id :| id in log.hot && log.hot[id].b.traceId == e.traceId && log.hot[id].c.source != e.source && log.hot[id].b.hops >= ctx.maxHops
        && (log.hot[id].c.projectId == None || (ctx.project != None && log.hot[id].c.projectId == ProjectOf(ctx) && log.hot[id].c.env == EnvOf(ctx)));
      assert CountsFor(ctx.project, log.hot[id]);
      assert log.hot[id].b.hops in counted;
    }
    if ctx.maxHops > 0 && Greatest(counted) >= ctx.maxHops {
      var id :| id in log.hot && log.hot[id].b.traceId == e.traceId && log.hot[id].c.source != e.source
        && CountsFor(ctx.project, log.hot[id]) && log.hot[id].b.hops == Greatest(counted);
      assert AnswersTooDeep(log, e, ctx);
    }
  }

  lemma NamesOthersIff(log: Log, e: Envelope, ctx: Publish)
    requires !Known(log, e.id) && ParseDirective(e.payload).Redacts?
    ensures Redact(Insert(log, e, ctx), NewRow(log, e, ctx).c, ParseDirective(e.payload).directive, ctx.now).Err? <==> NamesOthers(log, e, ctx)
  {
    var next, who, d := Insert(log, e, ctx), NewRow(log, e, ctx).c, ParseDirective(e.payload).directive;
    DirectiveRefusedIff(next, who, d, ctx.now);
    assert Lookup(next, e.id).value.c == who;
    assert forall id | id != e.id :: Known(next, id) == Known(log, id) && Lookup(next, id) == Lookup(log, id);
  }

  /** Exactly which publishes are refused, and with what. */
  lemma RefusedIff(log: Log, e: Envelope, ctx: Publish)
    ensures var r := PublishOne(log, e, ctx);
      if Known(log, e.id) then
        var c := Lookup(log, e.id).value.c;
        if c.source != e.source || c.eventType != e.eventType then r == Err(IdConflict(e.id)) else r.Ok?
      else if e.id in log.receipts then r.Ok?
      else if Loops(log, e, ctx) then r == Err(LoopDetected(e.id))
      else
        match ParseDirective(e.payload)
        case Malformed(fault) => r == Err(InvalidRedaction(e.id, fault))
        case Absent => r.Ok?
        case Redacts(d) => if NamesOthers(log, e, ctx) then r.Err? && r.error.RedactionNotAllowed? && r.error.id == e.id else r.Ok?
  {
    LoopsIff(log, e, ctx);
    if !Known(log, e.id) && ParseDirective(e.payload).Redacts? { NamesOthersIff(log, e, ctx); }
  }

  // ---------------------------------------------------------------- what a directive changes

  /** The directive names the row: by id, or by its subject when the row is the publisher's. */
  predicate Named(who: Columns, d: Directive, id: string, c: Columns) {
    || id in d.eventIds
    || (d.subjectType == Some(c.subjectType) && c.subjectId in d.subjectIds && !Others(who.source, who.projectId, who.env, c))
  }

  /** The source of a developer app: its id of 26 letters and digits, none of i, l, o and u. */
  predicate FromApp(source: string) {
    && |source| == 30 && source[..4] == "app-"
    && forall i | 4 <= i < 30 ::
         var c := source[i];
         '0' <= c <= '9' || 'a' <= c <= 'h' || c == 'j' || c == 'k' || c == 'm' || c == 'n' || 'p' <= c <= 't' || 'v' <= c <= 'z'
  }

  /** The app of that source: the same id in capitals. */
  predicate IsAppOf(actor: Actor, source: string) {
    && actor.kind == "app" && |actor.id| == |source| >= 4 && actor.id[..4] == "app_"
    && forall i | 4 <= i < |source| ::
         if 'a' <= source[i] <= 'z' then actor.id[i] as int == source[i] as int - 32 else actor.id[i] == source[i]
  }

  /** What is left of a redacted row. */
  predicate Emptied(r: Row, was: Row, name: string, now: int) {
    && r.c == was.c.(redactedAt := Some(now))
    && r.b == was.b.(payload := r.b.payload, actor := r.b.actor, redactedBy := Some(name))
    && r.b.payload == Obj(map["redacted" := Bool(true), "redacted_at" := Time(now), "redacted_by" := Str(name)])
    && (if was.c.projectId != None && FromApp(was.c.source) then IsAppOf(r.b.actor, was.c.source) else r.b.actor == Actor("service", was.c.source))
  }

  lemma AppActor(r: Row)
    ensures if r.c.projectId != None && FromApp(r.c.source) then IsAppOf(TombstoneActor(r), r.c.source)
            else TombstoneActor(r) == Actor("service", r.c.source)
  {
    assert FromApp(r.c.source) <==> AppSource(r.c.source);
    if FromApp(r.c.source) {
      var id := "app_" + Upper(r.c.source[4..]);
      assert id[..4] == "app_" && forall i | 4 <= i < 30 :: id[i] == Upper(r.c.source[4..])[i - 4];
    }
  }

  /** Exactly what an accepted directive does to any stored row, in whichever tier it is. */
  lemma RedactedExactly(log: Log, who: Columns, d: Directive, now: int, id: string)
    requires Keyed(log) && Redact(log, who, d, now).Ok? && Known(log, id)
    ensures var after, was := Redact(log, who, d, now).value, Lookup(log, id).value;
      && (id in after.hot <==> id in log.hot) && (id in after.replay <==> id in log.replay)
      && if id != who.id && was.c.redactedAt == None && !was.c.redacts && Named(who, d, id, was.c)
         then Emptied(Lookup(after, id).value, was, who.id, now)
         else Lookup(after, id).value == was
  {
    var was := Lookup(log, id).value;
    AppActor(was);
    assert was.c.id == id;
    assert id in Targets(log, who, d) <==> id != who.id && was.c.redactedAt == None && !was.c.redacts && Named(who, d, id, was.c);
  }

  lemma RedactedIsOwn(log: Log, who: Columns, d: Directive, now: int, id: string)
    requires Keyed(log) && Redact(log, who, d, now).Ok? && Known(log, id)
    ensures var after := Redact(log, who, d, now).value;
      && Known(after, id) && SameEnvelope(Lookup(after, id).value, Lookup(log, id).value)
      && (Lookup(after, id) == Lookup(log, id) || !Others(who.source, who.projectId, who.env, Lookup(log, id).value.c))
  {
    RedactedExactly(log, who, d, now, id);
    DirectiveRefusedIff(log, who, d, now);
  }

  lemma InsertKeepsOthers(log: Log, e: Envelope, ctx: Publish, id: string)
    requires !Known(log, e.id) && Known(log, id)
    ensures Known(Insert(log, e, ctx), id) && Lookup(Insert(log, e, ctx), id) == Lookup(log, id)
  {
  }

  /** What a publish leaves: the store as it was, the event inserted, or the inserted event's directive applied. */
  lemma PublishLeaves(log: Log, e: Envelope, ctx: Publish)
    requires PublishOne(log, e, ctx).Ok?
    ensures var after, next := PublishOne(log, e, ctx).value.0, Insert(log, e, ctx);
      || after == log
      || (!Known(log, e.id) && after == next)
      || (!Known(log, e.id) && ParseDirective(e.payload).Redacts?
            && Redact(next, NewRow(log, e, ctx).c, ParseDirective(e.payload).directive, ctx.now) == Ok(after))
  {
  }

  predicate Own(log: Log, after: Log, id: string, e: Envelope, ctx: Publish)
    requires Known(log, id)
  {
    && Known(after, id) && SameEnvelope(Lookup(after, id).value, Lookup(log, id).value)
    && (Lookup(after, id) == Lookup(log, id) || !Others(e.source, ProjectOf(ctx), EnvOf(ctx), Lookup(log, id).value.c))
  }

  lemma RedactingIsOwn(log: Log, e: Envelope, ctx: Publish, d: Directive, after: Log, id: string)
    requires Consistent(log) && !Known(log, e.id) && Known(log, id)
    requires Redact(Insert(log, e, ctx), NewRow(log, e, ctx).c, d, ctx.now) == Ok(after)
    ensures Own(log, after, id, e, ctx)
  {
    PublishProofs.InsertIsConsistent(log, e, ctx);
    InsertKeepsOthers(log, e, ctx, id);
    RedactedIsOwn(Insert(log, e, ctx), NewRow(log, e, ctx).c, d, ctx.now, id);
  }

  lemma ChangedIsOwn(log: Log, e: Envelope, ctx: Publish, id: string)
    requires Consistent(log) && PublishOne(log, e, ctx).Ok? && Known(log, id)
    ensures Own(log, PublishOne(log, e, ctx).value.0, id, e, ctx)
  {
    var after := PublishOne(log, e, ctx).value.0;
    PublishLeaves(log, e, ctx);
    if after != log {
      InsertKeepsOthers(log, e, ctx, id);
      if after != Insert(log, e, ctx) { RedactingIsOwn(log, e, ctx, ParseDirective(e.payload).directive, after, id); }
    }
  }

  /** Some event of the batch has the row's source, project and environment. */
  predicate OwnedByOne(items: seq<Envelope>, ctx: Publish, c: Columns) {
    exists i | 0 <= i < |items| :: !Others(items[i].source, ProjectOf(ctx), EnvOf(ctx), c)
  }

  lemma OneMoreOwner(items: seq<Envelope>, ctx: Publish, c: Columns)
    requires items != []
    ensures OwnedByOne(items, ctx, c) <==>
              OwnedByOne(items[..|items| - 1], ctx, c) || !Others(items[|items| - 1].source, ProjectOf(ctx), EnvOf(ctx), c)
  {
    var front := items[..|items| - 1];
    if i :| 0 <= i < |front| && !Others(front[i].source, ProjectOf(ctx), EnvOf(ctx), c) { assert items[i] == front[i]; }
    if i :| 0 <= i < |items| && !Others(items[i].source, ProjectOf(ctx), EnvOf(ctx), c) { assert i < |front| ==> front[i] == items[i]; }
  }

  lemma {:induction false} BatchChangesOwn(log: Log, items: seq<Envelope>, ctx: Publish, id: string)
    requires Consistent(log) && PublishAll(log, items, ctx).Ok? && Known(log, id)
    ensures var after := PublishAll(log, items, ctx).value.0;
      && Known(after, id) && SameEnvelope(Lookup(after, id).value, Lookup(log, id).value)
      && (Lookup(after, id) == Lookup(log, id) || OwnedByOne(items, ctx, Lookup(log, id).value.c))
  {
    if items != [] {
      var front, last := items[..|items| - 1], items[|items| - 1];
      var mid := PublishAll(log, front, ctx).value.0;
      BatchChangesOwn(log, front, ctx, id);
      PublishProofs.PublishAllIsConsistent(log, front, ctx);
      ChangedIsOwn(mid, last, ctx, id);
      OneMoreOwner(items, ctx, Lookup(log, id).value.c);
      OneMoreOwner(items, ctx, Lookup(mid, id).value.c);
    }
  }

  /**
   In every run of the store, whatever came before: a row of either tier that a publish changes has the source, the project and the
   environment of an event of that publish.
   */
  lemma PublishChangesOwn(log: Log, steps: seq<Step>, items: seq<Envelope>, ctx: Publish, id: string)
    requires Consistent(log) && Known(Run(log, steps), id)
    ensures var before, after := Run(log, steps), Apply(Run(log, steps), Batch(items, ctx));
      Known(after, id) && (Lookup(after, id) == Lookup(before, id) || OwnedByOne(items, ctx, Lookup(before, id).value.c))
  {
    PublishProofs.EveryRunIsConsistent(log, steps);
    if PublishAll(Run(log, steps), items, ctx).Ok? { BatchChangesOwn(Run(log, steps), items, ctx, id); }
  }

  // ---------------------------------------------------------------- what is stored

  /** What a reader is given of a row. */
  function EnvelopeOf(r: Row): Envelope {
    Envelope(r.c.id, r.b.traceId, r.c.eventType, r.c.source, r.b.actor, r.c.subjectType, r.c.subjectId, r.b.priority, r.c.visibility,
      r.b.payload, r.b.other)
  }

  /** A newly stored event reads back as it was published, under the next position, as its publisher's and received now. */
  lemma StoredAsPublished(log: Log, e: Envelope, ctx: Publish)
    requires PublishOne(log, e, ctx).Ok? && PublishOne(log, e, ctx).value.1.Stored?
    ensures var after := PublishOne(log, e, ctx).value.0;
      e.id in after.hot && after.lastSeq == log.lastSeq + 1 && e.id in after.receipts && after.receipts[e.id] == ctx.now
    ensures var r := PublishOne(log, e, ctx).value.0.hot[e.id];
      && EnvelopeOf(r) == e && r.c.pos == log.lastSeq + 1
      && r.c.projectId == ProjectOf(ctx) && r.c.env == EnvOf(ctx) && r.c.receivedAt == ctx.now && r.c.redactedAt == None
      && (r.c.redacts <==> ParseDirective(e.payload).Redacts?)
      && r.b.requestId == (if ctx.requestId == "" then None else Some(ctx.requestId))
  {
    PublishLeaves(log, e, ctx);
  }

  // ---------------------------------------------------------------- who receives a new event

  /** A developer project's subscription sees its own project's events of its environment, and public first-party ones. */
  predicate AppMayHave(s: Apps.Subscriber, e: Envelope, ctx: Publish) {
    if ctx.project == None then e.visibility == "public"
    else s.projectId == Some(ctx.project.value.id) && s.env == ctx.project.value.env
  }

  /** A first-party one sees production events, and app events only when it asks for them by name. */
  predicate ServiceMayHave(s: Apps.Subscriber, ctx: Publish) {
    ctx.project == None || (ctx.project.value.env == "production" && |s.pattern| >= 4 && s.pattern[..4] == "app.")
  }

  predicate MayHave(s: Apps.Subscriber, e: Envelope, ctx: Publish) {
    Topics.Selects(s.pattern, e.eventType) && if s.projectId == None then ServiceMayHave(s, ctx) else AppMayHave(s, e, ctx)
  }

  lemma DeliverableIff(s: Apps.Subscriber, log: Log, e: Envelope, ctx: Publish)
    requires Topics.IsValidPattern(s.pattern)
    ensures Apps.Deliverable(s, Apps.AudienceOf(NewRow(log, e, ctx))) <==> MayHave(s, e, ctx)
  {
    Topics.MatchesIffSelects(s.pattern, e.eventType);
    assert "app." <= s.pattern <==> |s.pattern| >= 4 && s.pattern[..4] == "app.";
  }

  /**
   A newly stored event has one delivery for a subscription exactly when the subscription is enabled, its pattern selects the event's
   type, and its project, environment and the event's visibility allow it; the delivery is pending, due at once and under no lease.
   */
  lemma ReceivedIff(log: Log, e: Envelope, ctx: Publish, sub: string)
    requires Consistent(log) && PublishOne(log, e, ctx).Ok? && PublishOne(log, e, ctx).value.1.Stored?
    requires forall s | s in log.subscribers :: Topics.IsValidPattern(log.subscribers[s].pattern)
    ensures var rows, id := PublishOne(log, e, ctx).value.0.queue.rows, Deliveries.RowId(e.id, sub);
      && (id in rows <==>
            sub in log.subscribers && sub in log.queue.subs && log.queue.subs[sub].enabled && MayHave(log.subscribers[sub], e, ctx))
      && (id in rows ==>
            rows[id] == Deliveries.Delivery(log.lastSeq + 1, e.priority, ctx.keyOf(e), Deliveries.Pending, 0, Some(ctx.now), None, None))
  {
    PublishProofs.FanOutIsExact(log, e, ctx);
    assert PublishProofs.FannedOut(log, PublishOne(log, e, ctx).value.0, e, ctx, Deliveries.RowId(e.id, sub));
    if sub in log.subscribers { DeliverableIff(log.subscribers[sub], log, e, ctx); }
  }
}
