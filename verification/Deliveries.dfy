/** The `deliveries` and `subscriptions` tables, and each transaction on them as one function. Times are in milliseconds. */
module Deliveries {
  import opened Wrappers

  datatype Status = Pending | Failed | Delivered | Dead

  /** Primary key of `deliveries`. */
  datatype RowId = RowId(event: string, sub: string)

  /** `pos` is the event's seq; `due`, `owner` and `leaseUntil` are next_attempt_at, lease_owner and lease_until. */
  datatype Delivery = Delivery(
    pos: nat,
    priority: nat,
    key: Option<string>,
    status: Status,
    attempt: nat,
    due: Option<int>,
    owner: Option<string>,
    leaseUntil: Option<int>)

  /** `app`: the subscription belongs to a developer project (project_id is not NULL). */
  datatype Subscription = Subscription(enabled: bool, app: bool, maxInflight: nat, maxAttempts: nat)

  datatype Queue = Queue(rows: map<RowId, Delivery>, subs: map<string, Subscription>)

  // ---------------------------------------------------------------- the claim's conditions

  predicate Open(d: Delivery) { d.status.Pending? || d.status.Failed? }

  predicate Leased(d: Delivery, now: int) { d.leaseUntil.Some? && d.leaseUntil.value > now }

  /** `a` and `b` are rows of one subscription with one ordering key. */
  predicate SameKey(q: Queue, a: RowId, b: RowId)
    requires a in q.rows && b in q.rows
  {
    a.sub == b.sub && q.rows[a].key.Some? && q.rows[a].key == q.rows[b].key
  }

  /** No pending or failed row of the key has a lower seq. */
  predicate HeadOfKey(q: Queue, id: RowId)
    requires id in q.rows
  {
    forall x | x in q.rows && SameKey(q, id, x) && Open(q.rows[x]) :: q.rows[id].pos <= q.rows[x].pos
  }

  /** Nothing of the key is leased. */
  predicate KeyFree(q: Queue, id: RowId, now: int)
    requires id in q.rows
  {
    forall y | y in q.rows && SameKey(q, id, y) :: !Leased(q.rows[y], now)
  }

  predicate Claimable(q: Queue, id: RowId, now: int) {
    && id in q.rows
    && Open(q.rows[id])
    && q.rows[id].due.Some? && q.rows[id].due.value <= now
    && !Leased(q.rows[id], now)
    && (q.rows[id].key.Some? ==> HeadOfKey(q, id) && KeyFree(q, id, now))
  }

  function LiveLeases(q: Queue, sub: string, now: int): set<RowId> {
    set id | id in q.rows && id.sub == sub && Leased(q.rows[id], now)
  }

  /** The subscription is under its inflight cap. */
  predicate Room(q: Queue, sub: string, now: int) {
    sub in q.subs && |LiveLeases(q, sub, now)| < q.subs[sub].maxInflight
  }

  /** Everything the leasing UPDATE re-checks. */
  predicate Grantable(q: Queue, id: RowId, now: int) {
    Claimable(q, id, now) && Room(q, id.sub, now)
  }

  // ---------------------------------------------------------------- the transactions

  /** The leasing UPDATE itself. */
  function Lease(q: Queue, id: RowId, owner: string, until: int): Queue
    requires id in q.rows
  {
    q.(rows := q.rows[id := q.rows[id].(owner := Some(owner), leaseUntil := Some(until))])
  }

  /** When a targeted claim takes its row: the subscription's lock is free and it is enabled, and the re-check holds. */
  predicate Takes(q: Queue, id: RowId, owner: string, now: int, until: int, locked: set<string>) {
    && owner != "" && until > now
    && id.sub in q.subs && q.subs[id.sub].enabled && id.sub !in locked
    && Grantable(q, id, now)
  }

  function ClaimOne(q: Queue, id: RowId, owner: string, now: int, until: int, locked: set<string>): Queue {
    if Takes(q, id, owner, now, until, locked) then Lease(q, id, owner, until) else q
  }

  /** What one attempt came to: the columns `recordAttempt` writes. */
  datatype Outcome = Success(attempt: nat) | Retry(attempt: nat, at: int) | DeadLetter(attempt: nat)

  /** The worker still holds the lease of the row. */
  predicate Held(q: Queue, id: RowId, owner: string) {
    id in q.rows && q.rows[id].owner == Some(owner)
  }

  function Settle(d: Delivery, o: Outcome): Delivery {
    var free := d.(attempt := o.attempt, owner := None, leaseUntil := None);
    match o
    case Success(_) => free.(status := Delivered, due := None)
    case Retry(_, at) => free.(status := Failed, due := Some(at))
    case DeadLetter(_) => free.(status := Dead, due := None)
  }

  function Record(q: Queue, id: RowId, owner: string, o: Outcome): Queue {
    if Held(q, id, owner) then q.(rows := q.rows[id := Settle(q.rows[id], o)]) else q
  }

  function Fresh(pos: nat, priority: nat, key: Option<string>, now: int): Delivery {
    Delivery(pos, priority, key, Pending, 0, Some(now), None, None)
  }

  /** One pending row per target subscription; a row already there is kept. */
  function FanOut(q: Queue, event: string, pos: nat, priority: nat, key: Option<string>, targets: set<string>, now: int): Queue {
    q.(rows := (map s | s in targets :: RowId(event, s) := Fresh(pos, priority, key, now)) + q.rows)
  }

  /** One event an operator queues again. */
  datatype Replayed = Replayed(event: string, pos: nat, priority: nat, key: Option<string>)

  /** The requeue upsert: an existing row keeps its key, position and lease columns. */
  function Requeue(q: Queue, sub: string, r: Replayed, now: int): Queue {
    var id := RowId(r.event, sub);
    q.(rows := q.rows[id :=
      if id in q.rows then q.rows[id].(status := Pending, attempt := 0, due := Some(now))
      else Fresh(r.pos, r.priority, r.key, now)])
  }

  function RequeueAll(q: Queue, sub: string, items: seq<Replayed>, now: int): Queue {
    if items == [] then q
    else Requeue(RequeueAll(q, sub, items[..|items| - 1], now), sub, items[|items| - 1], now)
  }

  /** Retention removed events: their rows go with them (ON DELETE CASCADE). */
  function Forget(q: Queue, events: set<string>): Queue {
    q.(rows := map id | id in q.rows && id.event !in events :: q.rows[id])
  }

  // ---------------------------------------------------------------- whole runs

  /** A send under way: the worker, the row, and the attempt count it read when it claimed the row. */
  datatype Send = Send(owner: string, id: RowId, attempt: nat)

  /** A worker may have several sends of one row under way, even at the same count. */
  datatype System = System(queue: Queue, clock: int, lastSeq: nat, sends: multiset<Send>)

  /** The steps any number of publishers, workers, carriers and operators interleave. */
  datatype Action =
    | Commit(event: string, priority: nat, key: Option<string>, targets: set<string>, at: int)
    | Claim(id: RowId, owner: string, now: int, until: int, locked: set<string>)
    | Report(send: Send, outcome: Outcome)
    | Lose(send: Send)
    | Tick(time: int)
    | Replay(sub: string, items: seq<Replayed>, at: int)
    | Prune(events: set<string>)
    | Subscribe(sub: string, settings: Subscription)

  /** What a worker may report about a send: attempts count up by one, and a retry is below the limit. */
  predicate Reportable(s: System, send: Send, o: Outcome) {
    && o.attempt == send.attempt + 1
    && (o.Retry? && send.id.sub in s.queue.subs ==> o.attempt < s.queue.subs[send.id.sub].maxAttempts)
  }

  /** A claim's `now` is never ahead of the clock; a subscription's caps and kind are set once. */
  predicate Enabled(s: System, a: Action) {
    match a
    case Commit(_, _, _, targets, _) => targets <= s.queue.subs.Keys
    case Claim(_, _, now, _, _) => now <= s.clock
    case Report(send, o) => send in s.sends && Reportable(s, send, o)
    case Lose(send) => true
    case Tick(time) => s.clock <= time
    case Replay(sub, items, _) => sub in s.queue.subs && forall i | 0 <= i < |items| :: items[i].pos <= s.lastSeq
    case Prune(_) => true
    case Subscribe(sub, n) =>
      n.maxAttempts >= 1 && (sub in s.queue.subs ==> n == s.queue.subs[sub].(enabled := n.enabled))
  }

  predicate Effective(s: System, a: Action) {
    match a
    case Claim(id, owner, now, until, locked) => Takes(s.queue, id, owner, now, until, locked)
    case Report(send, _) => Held(s.queue, send.id, send.owner)
    case _ => true
  }

  function Apply(s: System, a: Action): System {
    match a
    case Commit(event, priority, key, targets, at) =>
      s.(queue := FanOut(s.queue, event, s.lastSeq + 1, priority, key, targets, at), lastSeq := s.lastSeq + 1)
    case Claim(id, owner, now, until, locked) =>
      if Takes(s.queue, id, owner, now, until, locked)
      then s.(queue := Lease(s.queue, id, owner, until), sends := s.sends + multiset{Send(owner, id, s.queue.rows[id].attempt)})
      else s
    case Report(send, o) => s.(queue := Record(s.queue, send.id, send.owner, o), sends := s.sends - multiset{send})
    case Lose(send) => s.(sends := s.sends - multiset{send})
    case Tick(time) => s.(clock := time)
    case Replay(sub, items, at) => s.(queue := RequeueAll(s.queue, sub, items, at))
    case Prune(events) => s.(queue := Forget(s.queue, events))
    case Subscribe(sub, n) => s.(queue := s.queue.(subs := s.queue.subs[sub := n]))
  }

  predicate Initial(s: System) {
    s.queue.rows == map[] && s.queue.subs == map[] && s.sends == multiset{}
  }

  function Run(s: System, actions: seq<Action>): System {
    if actions == [] then s else Apply(Run(s, actions[..|actions| - 1]), actions[|actions| - 1])
  }

  predicate Legal(s: System, actions: seq<Action>) {
    actions == [] ||
    (Legal(s, actions[..|actions| - 1]) && Enabled(Run(s, actions[..|actions| - 1]), actions[|actions| - 1]))
  }
}
