/** The event store in two tiers, and each transaction that writes it as one function from contents to contents. */
module EventLog {
  import opened Wrappers
  import opened Archive
  import Apps
  import Deliveries
  import opened Redaction

  /** `receipts`: when each id was accepted. `subscribers`: the scope of each row of queue.subs. */
  datatype Log = Log(
    hot: map<string, Row>,
    replay: map<string, Archived>,
    lastSeq: nat,
    epoch: nat,
    receipts: map<string, int>,
    queue: Deliveries.Queue,
    subscribers: map<string, Apps.Subscriber>)

  /** The stored row of an id, in whichever tier holds it. */
  function Lookup(log: Log, id: string): Option<Row> {
    if id in log.hot then Some(log.hot[id]) else if id in log.replay then Some(Unpack(log.replay[id])) else None
  }

  predicate Known(log: Log, id: string) { id in log.hot || id in log.replay }

  // ---------------------------------------------------------------- publish

  /** A validated envelope, defaults filled. */
  datatype Envelope = Envelope(
    id: string,
    traceId: string,
    eventType: string,
    source: string,
    actor: Actor,
    subjectType: string,
    subjectId: string,
    priority: nat,
    visibility: string,
    payload: Json,
    other: string)

  datatype Project = Project(id: string, env: string)

  /** Who publishes and when; `keyOf` is the delivery policy's ordering key. */
  datatype Publish = Publish(project: Option<Project>, requestId: string, now: int, maxHops: nat, keyOf: Envelope -> Option<string>)

  datatype Refusal =
    | IdConflict(id: string)
    | LoopDetected(id: string)
    | InvalidRedaction(id: string, fault: Fault)
    | RedactionNotAllowed(id: string, target: string)

  datatype Answer = Stored(id: string, pos: nat, epoch: nat) | Duplicate(id: string, pos: nat, epoch: nat) | Pruned(id: string)

  /** The greatest of a set, 0 when it is empty. */
  function Greatest(s: set<nat>): nat {
    if s == {} then 0
    else
      GreatestExists(s);
      var m :| m in s && forall x | x in s :: x <= m;
      m
  }

  lemma GreatestBounds(s: set<nat>)
    ensures forall x | x in s :: x <= Greatest(s)
    ensures if s == {} then Greatest(s) == 0 else Greatest(s) in s
  {
    if s != {} { GreatestExists(s); }
  }

  lemma {:induction false} GreatestExists(s: set<nat>)
    requires s != {}
    ensures exists m :: m in s && forall x | x in s :: x <= m
  {
    var a :| a in s;
    if s != {a} {
      GreatestExists(s - {a});
      var b :| b in s - {a} && forall x | x in s - {a} :: x <= b;
      var m := if a <= b then b else a;
      assert s == (s - {a}) + {a};
      assert m in s && forall x | x in s :: x <= m;
    }
  }

  /** The publisher's tenancy can have caused this row: first-party rows, and for an app its own project's. */
  predicate CountsFor(p: Option<Project>, r: Row) {
    r.c.projectId.None? || (p.Some? && r.c.projectId == Some(p.value.id) && r.c.env == p.value.env)
  }

  function ChainHops(log: Log, e: Envelope, p: Option<Project>): nat {
    Greatest(set id | id in log.hot && log.hot[id].b.traceId == e.traceId && log.hot[id].c.source != e.source && CountsFor(p, log.hot[id])
      :: log.hot[id].b.hops)
  }

  /** This source, type and subject in the trace, from other publish calls. */
  function Repeats(log: Log, e: Envelope, requestId: string): set<string> {
    set id | id in log.hot && log.hot[id].b.traceId == e.traceId && log.hot[id].c.source == e.source
      && log.hot[id].c.eventType == e.eventType && log.hot[id].c.subjectType == e.subjectType && log.hot[id].c.subjectId == e.subjectId
      && log.hot[id].b.requestId != Some(requestId)
  }

  function Hops(log: Log, e: Envelope, ctx: Publish): nat {
    var chain, repeats := ChainHops(log, e, ctx.project) + 1, |Repeats(log, e, ctx.requestId)| + 1;
    if chain >= repeats then chain else repeats
  }

  function NewRow(log: Log, e: Envelope, ctx: Publish): Row {
    Row(
      Columns(e.id, log.lastSeq + 1, e.eventType, e.source, e.subjectType, e.subjectId, e.visibility,
        if ctx.project.Some? then Some(ctx.project.value.id) else None,
        if ctx.project.Some? then ctx.project.value.env else "production",
        ctx.now, None, ParseDirective(e.payload).Redacts?),
      Body(e.actor, e.traceId, e.priority, e.payload, Hops(log, e, ctx),
        if ctx.requestId == "" then None else Some(ctx.requestId), None, e.other))
  }

  /** The enabled subscriptions that may receive a row. */
  function Receivers(log: Log, r: Row): set<string> {
    set s | s in log.subscribers && s in log.queue.subs && log.queue.subs[s].enabled && Apps.Deliverable(log.subscribers[s], Apps.AudienceOf(r))
  }

  /** The event, its receipt and its deliveries, before any redaction it asks for. */
  function Insert(log: Log, e: Envelope, ctx: Publish): Log {
    var r := NewRow(log, e, ctx);
    log.(
      hot := log.hot[e.id := r],
      lastSeq := log.lastSeq + 1,
      receipts := log.receipts[e.id := ctx.now],
      queue := Deliveries.FanOut(log.queue, e.id, log.lastSeq + 1, e.priority, ctx.keyOf(e), Receivers(log, r), ctx.now))
  }

  // ---------------------------------------------------------------- redaction

  /** Ids the directive names directly that another owner holds. */
  function Foreign(log: Log, who: Columns, d: Directive): set<string> {
    set id | id in d.eventIds && Known(log, id) && !SameOwner(who, Lookup(log, id).value.c)
  }

  predicate NamedBy(who: Columns, d: Directive, r: Row) {
    r.c.id in d.eventIds ||
    (d.subjectType == Some(r.c.subjectType) && r.c.subjectId in d.subjectIds && SameOwner(who, r.c))
  }

  /** What the directive turns into tombstones, in either tier. */
  function Targets(log: Log, who: Columns, d: Directive): set<string> {
    set id | id in log.hot.Keys + log.replay.Keys && id != who.id
      && Redactable(Lookup(log, id).value) && NamedBy(who, d, Lookup(log, id).value)
  }

  /** UPDATE events: the targets become tombstones where they are. */
  function RewriteHot(hot: map<string, Row>, targets: set<string>, who: string, now: int): map<string, Row> {
    map id | id in hot :: if id in targets then Tombstone(hot[id], who, now) else hot[id]
  }

  /** tombstoneArchived for targets that are not hot: the body is packed again. */
  function RewriteReplay(replay: map<string, Archived>, hot: set<string>, targets: set<string>, who: string, now: int): map<string, Archived> {
    map id | id in replay ::
      if id in targets && id !in hot then Repack(replay[id], Tombstone(Unpack(replay[id]), who, now)) else replay[id]
  }

  function Rewrite(log: Log, targets: set<string>, who: string, now: int): Log {
    log.(hot := RewriteHot(log.hot, targets, who, now), replay := RewriteReplay(log.replay, log.hot.Keys, targets, who, now))
  }

  /** applyRedaction: everything named, or nothing. */
  function Redact(log: Log, who: Columns, d: Directive, now: int): Result<Log, Refusal> {
    var foreign := Foreign(log, who, d);
    if foreign != {} then Err(RedactionNotAllowed(who.id, FirstOf(d.eventIds, foreign)))
    else Ok(Rewrite(log, Targets(log, who, d), who.id, now))
  }

  /** The first listed id that is in the set: the one the refusal names. */
  function FirstOf(ids: seq<string>, bad: set<string>): string {
    if ids == [] then "" else if ids[0] in bad then ids[0] else FirstOf(ids[1..], bad)
  }

  // ---------------------------------------------------------------- one batch

  function PublishOne(log: Log, e: Envelope, ctx: Publish): Result<(Log, Answer), Refusal> {
    if Known(log, e.id) then
      var r := Lookup(log, e.id).value;
      if r.c.source != e.source || r.c.eventType != e.eventType then Err(IdConflict(e.id))
      else Ok((log, Duplicate(e.id, r.c.pos, if e.id in log.hot then log.epoch else log.replay[e.id].epoch)))
    else if e.id in log.receipts then Ok((log, Pruned(e.id)))
    else if Hops(log, e, ctx) > ctx.maxHops then Err(LoopDetected(e.id))
    else
      var asked := ParseDirective(e.payload);
      if asked.Malformed? then Err(InvalidRedaction(e.id, asked.fault))
      else
        var next := Insert(log, e, ctx);
        var answer := Stored(e.id, log.lastSeq + 1, log.epoch);
        if asked.Absent? then Ok((next, answer))
        else
          match Redact(next, NewRow(log, e, ctx).c, asked.directive, ctx.now)
          case Err(f) => Err(f)
          case Ok(after) => Ok((after, answer))
  }

  function PublishAll(log: Log, items: seq<Envelope>, ctx: Publish): Result<(Log, seq<Answer>), Refusal> {
    if items == [] then Ok((log, []))
    else
      match PublishAll(log, items[..|items| - 1], ctx)
      case Err(f) => Err(f)
      case Ok((mid, answers)) =>
        match PublishOne(mid, items[|items| - 1], ctx)
        case Err(f) => Err(f)
        case Ok((end, answer)) => Ok((end, answers + [answer]))
  }

  // ---------------------------------------------------------------- retention

  function Without<T>(m: map<string, T>, ids: set<string>): map<string, T> { map id | id in m && id !in ids :: m[id] }

  /** INSERT … ON CONFLICT DO NOTHING: a replay row already there stays. */
  function WithArchived(replay: map<string, Archived>, hot: map<string, Row>, ids: set<string>, epoch: nat, at: int): map<string, Archived> {
    (map id | id in hot && id in ids :: Store(hot[id], epoch, at)) + replay
  }

  /** The rows of `ids` go to the replay tier in the current epoch; their deliveries go. */
  function Move(log: Log, ids: set<string>, at: int): Log {
    log.(
      hot := Without(log.hot, ids),
      replay := WithArchived(log.replay, log.hot, ids, log.epoch, at),
      queue := Deliveries.Forget(log.queue, ids * log.hot.Keys))
  }

  /** Rows deleted from either tier, and receipts from theirs. */
  function Drop(log: Log, hot: set<string>, replay: set<string>, receipts: set<string>): Log {
    log.(
      hot := Without(log.hot, hot),
      replay := Without(log.replay, replay),
      receipts := Without(log.receipts, receipts),
      queue := Deliveries.Forget(log.queue, hot * log.hot.Keys))
  }

  // ---------------------------------------------------------------- what every transaction keeps

  predicate Keyed(log: Log) {
    && (forall id | id in log.hot :: log.hot[id].c.id == id && log.hot[id].c.pos <= log.lastSeq)
    && (forall id | id in log.replay :: log.replay[id].c.id == id && (log.replay[id].epoch == log.epoch ==> log.replay[id].c.pos <= log.lastSeq))
    && log.hot.Keys !! log.replay.Keys
  }

  predicate OnePosition(log: Log) {
    && (forall a, b | a in log.hot && b in log.hot && log.hot[a].c.pos == log.hot[b].c.pos :: a == b)
    && (forall a, b | a in log.replay && b in log.replay && log.replay[a].epoch == log.replay[b].epoch
          && log.replay[a].c.pos == log.replay[b].c.pos :: a == b)
    && (forall a, b | a in log.hot && b in log.replay && log.replay[b].epoch == log.epoch :: log.hot[a].c.pos != log.replay[b].c.pos)
  }

  /** A delivery belongs to a hot event and carries its position. */
  predicate Attached(log: Log) {
    forall id | id in log.queue.rows :: id.event in log.hot && log.queue.rows[id].pos == log.hot[id.event].c.pos
  }

  /** Ids are unique over both tiers, positions within an epoch, and deliveries follow their events. */
  predicate Consistent(log: Log) { Keyed(log) && OnePosition(log) && Attached(log) }

  // ---------------------------------------------------------------- whole runs

  datatype Step =
    | Batch(items: seq<Envelope>, ctx: Publish)
    | Redaction(who: Columns, directive: Directive, at: int)
    | MoveOut(ids: set<string>, at: int)
    | Retire(hot: set<string>, replay: set<string>, receipts: set<string>)

  /** A refused transaction leaves the store as it was. */
  function Apply(log: Log, s: Step): Log {
    match s
    case Batch(items, ctx) => (match PublishAll(log, items, ctx) case Ok((after, _)) => after case Err(_) => log)
    case Redaction(who, d, at) => (match Redact(log, who, d, at) case Ok(after) => after case Err(_) => log)
    case MoveOut(ids, at) => Move(log, ids, at)
    case Retire(hot, replay, receipts) => Drop(log, hot, replay, receipts)
  }

  function Run(log: Log, steps: seq<Step>): Log {
    if steps == [] then log else Apply(Run(log, steps[..|steps| - 1]), steps[|steps| - 1])
  }
}
