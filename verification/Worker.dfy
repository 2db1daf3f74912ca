/** The delivery worker: what one attempt comes to, and the accounting of its slots. */
module Worker {
  import opened Wrappers
  import opened Deliveries
  import ClaimRanking
  import DeliveryStore

  // ---------------------------------------------------------------- one attempt

  /** A subscription's stored retry_policy after JSON.parse; a field that is missing or of another type is None. */
  datatype StoredPolicy = StoredPolicy(maxAttempts: Option<int>, backoffMs: Option<seq<int>>)

  datatype Policy = Policy(maxAttempts: nat, backoffMs: seq<nat>)

  predicate Usable(p: Policy) { p.maxAttempts >= 1 && p.backoffMs != [] }

  /** Steps a stored policy may have. */
  predicate InForce(steps: seq<int>) { steps != [] && forall i | 0 <= i < |steps| :: 0 <= steps[i] <= 86400000 }

  /** The stored policy where it is well-formed, the configured one elsewhere. */
  function PolicyOf(stored: Option<StoredPolicy>, configured: Policy): (p: Policy)
    requires Usable(configured)
    ensures Usable(p)
    ensures p.maxAttempts == configured.maxAttempts || p.maxAttempts <= 20
    ensures p.backoffMs == configured.backoffMs || forall i | 0 <= i < |p.backoffMs| :: p.backoffMs[i] <= 86400000
    ensures forall n: nat | stored.Some? && stored.value.maxAttempts == Some(n) && 1 <= n <= 20 :: p.maxAttempts == n
    ensures forall steps: seq<int> | stored.Some? && stored.value.backoffMs == Some(steps) && InForce(steps) ::
              |p.backoffMs| == |steps| && forall i | 0 <= i < |steps| :: p.backoffMs[i] == steps[i]
  {
    if stored.None? then configured
    else
      var attempts := stored.value.maxAttempts;
      var backoff := stored.value.backoffMs;
      Policy(
        if attempts.Some? && 1 <= attempts.value <= 20 then attempts.value else configured.maxAttempts,
        if backoff.Some? && backoff.value != [] && forall i | 0 <= i < |backoff.value| :: 0 <= backoff.value[i] <= 86400000
        then seq(|backoff.value|, i requires 0 <= i < |backoff.value| => backoff.value[i] as nat)
        else configured.backoffMs)
  }

  /** How the request ended: an HTTP status, or an error that may be permanent. */
  datatype Answer = Status(code: int) | Failure(permanent: bool)

  predicate Accepted(a: Answer) { a.Status? && 200 <= a.code < 300 }

  function Decide(a: Answer, atMostOnce: bool, claimed: nat, p: Policy, now: int): Outcome
    requires Usable(p)
  {
    var attempt := claimed + 1;
    if Accepted(a) then Success(attempt)
    else if (a.Failure? && a.permanent) || atMostOnce || attempt >= p.maxAttempts then DeadLetter(attempt)
    else Retry(attempt, now + p.backoffMs[if attempt <= |p.backoffMs| then attempt - 1 else |p.backoffMs| - 1])
  }

  /**
   What an answer comes to: delivered by any 2xx; dead by a permanent failure, for a row sent at most once, and at the last attempt; else
   to be sent again after the attempt's step of the back-off, the last step for all later ones.
   */
  lemma OutcomeIff(a: Answer, atMostOnce: bool, claimed: nat, p: Policy, now: int)
    requires Usable(p)
    ensures var o := Decide(a, atMostOnce, claimed, p, now);
      && o.attempt == claimed + 1
      && (o.Success? <==> a.Status? && 200 <= a.code <= 299)
      && (o.DeadLetter? <==> !o.Success? && (a == Failure(true) || atMostOnce || claimed + 1 >= p.maxAttempts))
      && (o.Retry? && claimed < |p.backoffMs| ==> o.at == now + p.backoffMs[claimed])
      && (o.Retry? && claimed >= |p.backoffMs| ==> o.at == now + p.backoffMs[|p.backoffMs| - 1])
  {
  }

  /** What a worker decides is what a run of the delivery store allows a worker to report. */
  lemma DecisionsAreReportable(s: System, send: Send, a: Answer, atMostOnce: bool, p: Policy, now: int)
    requires Usable(p) && send.id.sub in s.queue.subs && s.queue.subs[send.id.sub].maxAttempts == p.maxAttempts
    ensures Reportable(s, send, Decide(a, atMostOnce, send.attempt, p, now))
  {
  }

  /** The row after each of a series of answers was recorded, the attempts claimed in turn. */
  function Recorded(d: Delivery, answers: seq<Answer>, times: seq<int>, p: Policy): Delivery
    requires Usable(p) && |answers| == |times|
  {
    if answers == [] then d
    else
      var n := |answers| - 1;
      var before := Recorded(d, answers[..n], times[..n], p);
      if Open(before) then Settle(before, Decide(answers[n], false, before.attempt, p, times[n])) else before
  }

  /**
   The retry ladder, for any series of temporary failures of a new row: failure n < maxAttempts is due again after
   backoff[min(n, length) - 1], and failure maxAttempts is dead, for good.
   */
  lemma {:induction false} Ladder(d: Delivery, answers: seq<Answer>, times: seq<int>, p: Policy)
    requires Usable(p) && |answers| == |times| && Open(d) && d.attempt == 0
    requires forall i | 0 <= i < |answers| :: !Accepted(answers[i]) && answers[i] != Failure(true)
    ensures var r, n := Recorded(d, answers, times, p), |answers|;
      && (0 < n < p.maxAttempts ==>
            && r.status.Failed? && r.attempt == n
            && r.due == Some(times[n - 1] + p.backoffMs[if n <= |p.backoffMs| then n - 1 else |p.backoffMs| - 1]))
      && (n >= p.maxAttempts ==> r.status.Dead? && r.attempt == p.maxAttempts && r.due == None)
      && (n == 0 ==> r == d)
  {
    if answers != [] { Ladder(d, answers[..|answers| - 1], times[..|times| - 1], p); }
  }

  /** An accepted answer delivers; a permanent one, or any failure of an at-most-once type, is dead at once. */
  lemma FinalAnswers(d: Delivery, a: Answer, atMostOnce: bool, p: Policy, now: int)
    requires Usable(p)
    ensures var r := Settle(d, Decide(a, atMostOnce, d.attempt, p, now));
      && (r.status.Delivered? <==> Accepted(a))
      && (r.status.Dead? <==> !Accepted(a) && (a == Failure(true) || atMostOnce || d.attempt + 1 >= p.maxAttempts))
      && (r.due.Some? <==> r.status.Failed?) && r.owner == None && r.leaseUntil == None
  {
  }

  // ---------------------------------------------------------------- slots

  /** A send this worker started; `app` is a developer app's endpoint. */
  datatype Slot = Slot(token: nat, app: bool)

  /** `carriers`: the consuming carriers, each of which sends one delivery at a time. */
  datatype Limits = Limits(maxInflight: nat, maxApp: nat, carriers: nat)

  /** Room the pass under way read before it asked the store: `room` deliveries, of which `apps` may be apps'. */
  datatype Asked = Asked(room: int, apps: int)

  /** `direct`: sends a carrier started through deliver(), which no slot counts. */
  datatype Slots = Slots(inflight: set<Slot>, appInflight: int, next: nat, pass: Option<Asked>, queued: bool, stopping: bool, direct: nat)

  function Apps(slots: set<Slot>): set<Slot> { set s | s in slots && s.app }

  predicate Balanced(w: Slots, l: Limits) {
    && |w.inflight| <= l.maxInflight && w.appInflight == |Apps(w.inflight)| <= l.maxApp
    && (forall s | s in w.inflight :: s.token < w.next) && w.direct <= l.carriers
    && (w.pass.Some? ==>
          && w.pass.value.apps >= 0 && |w.inflight| + w.pass.value.room <= l.maxInflight
          && w.appInflight + w.pass.value.apps <= l.maxApp)
    && (w.queued ==> w.pass.Some?)
  }

  /** dispatch(): begin a pass, or have one more follow the pass under way. */
  function BeginPass(w: Slots, l: Limits): Slots {
    if w.pass.Some? then w.(queued := true)
    else if w.stopping || l.maxInflight - |w.inflight| <= 0 then w
    else w.(pass := Some(Asked(l.maxInflight - |w.inflight|, if l.maxApp > w.appInflight then l.maxApp - w.appInflight else 0)))
  }

  function Start(w: Slots, app: bool): Slots {
    w.(inflight := w.inflight + {Slot(w.next, app)}, next := w.next + 1, appInflight := w.appInflight + if app then 1 else 0)
  }

  function StartAll(w: Slots, apps: seq<bool>): Slots {
    if apps == [] then w else Start(StartAll(w, apps[..|apps| - 1]), apps[|apps| - 1])
  }

  function Count(apps: seq<bool>): nat {
    if apps == [] then 0 else Count(apps[..|apps| - 1]) + if apps[|apps| - 1] then 1 else 0
  }

  /** The store answered the pass: every claimed delivery starts; a queued pass begins. */
  function Answered(w: Slots, apps: seq<bool>, l: Limits): Slots {
    var done := StartAll(w, apps).(pass := None, queued := false);
    if w.queued then BeginPass(done, l) else done
  }

  function Finish(w: Slots, s: Slot): Slots {
    if s in w.inflight then w.(inflight := w.inflight - {s}, appInflight := w.appInflight - if s.app then 1 else 0) else w
  }

  datatype Event = Poll | Claimed(apps: seq<bool>) | Ended(slot: Slot) | Carried | CarriedEnded | Stop | Restart

  /** The store's answer keeps to what the pass asked for, and a carrier begins a send when its last one is over. */
  predicate Possible(w: Slots, e: Event, l: Limits) {
    match e
    case Claimed(apps) => w.pass.Some? && |apps| <= w.pass.value.room && Count(apps) <= w.pass.value.apps
    case Carried => w.direct < l.carriers
    case CarriedEnded => w.direct > 0
    case _ => true
  }

  function Next(w: Slots, e: Event, l: Limits): Slots {
    match e
    case Poll => BeginPass(w, l)
    case Claimed(apps) => Answered(w, apps, l)
    case Ended(slot) => Finish(w, slot)
    case Carried => w.(direct := w.direct + 1)
    case CarriedEnded => if w.direct > 0 then w.(direct := w.direct - 1) else w
    case Stop => w.(stopping := true)
    case Restart => w.(stopping := false)
  }

  lemma {:induction false} StartAllCounts(w: Slots, apps: seq<bool>)
    requires w.appInflight == |Apps(w.inflight)| && forall s | s in w.inflight :: s.token < w.next
    ensures var r := StartAll(w, apps);
      && |r.inflight| == |w.inflight| + |apps| && r.appInflight == |Apps(r.inflight)| == w.appInflight + Count(apps)
      && (forall s | s in r.inflight :: s.token < r.next)
      && r.pass == w.pass && r.queued == w.queued && r.stopping == w.stopping && r.direct == w.direct
  {
    if apps != [] {
      var mid := StartAll(w, apps[..|apps| - 1]);
      StartAllCounts(w, apps[..|apps| - 1]);
      var s := Slot(mid.next, apps[|apps| - 1]);
      assert Apps(mid.inflight + {s}) == if s.app then Apps(mid.inflight) + {s} else Apps(mid.inflight);
    }
  }

  lemma FinishCounts(w: Slots, s: Slot)
    requires w.appInflight == |Apps(w.inflight)|
    ensures var r := Finish(w, s);
      r.appInflight == |Apps(r.inflight)| && |r.inflight| <= |w.inflight| && r.appInflight <= w.appInflight && r.inflight <= w.inflight
  {
    if s in w.inflight {
      assert Apps(w.inflight - {s}) == Apps(w.inflight) - {s};
      assert !s.app ==> s !in Apps(w.inflight);
    }
  }

  lemma NextStaysBalanced(w: Slots, e: Event, l: Limits)
    requires Balanced(w, l) && Possible(w, e, l)
    ensures Balanced(Next(w, e, l), l)
  {
    match e
    case Claimed(apps) => StartAllCounts(w, apps);
    case Ended(slot) => FinishCounts(w, slot);
    case _ =>
  }

  const IDLE := Slots({}, 0, 0, None, false, false, 0)

  predicate Happens(events: seq<Event>, l: Limits) {
    events == [] || (Happens(events[..|events| - 1], l) && Possible(After(events[..|events| - 1], l), events[|events| - 1], l))
  }

  function After(events: seq<Event>, l: Limits): Slots {
    if events == [] then IDLE else Next(After(events[..|events| - 1], l), events[|events| - 1], l)
  }

  /** Whatever passes, answers, ends, stops and carrier sends interleave, the dispatch loop keeps to its two limits. */
  lemma {:induction false} DispatchKeepsItsLimits(events: seq<Event>, l: Limits)
    requires Happens(events, l)
    ensures Balanced(After(events, l), l)
  {
    if events == [] {
      assert Apps({}) == {};
    } else {
      DispatchKeepsItsLimits(events[..|events| - 1], l);
      NextStaysBalanced(After(events[..|events| - 1], l), events[|events| - 1], l);
    }
  }

  /** The kinds of the deliveries a claim pass picked. */
  function Kinds(q: Queue, picks: seq<RowId>): seq<bool> {
    seq(|picks|, i requires 0 <= i < |picks| => picks[i].sub in q.subs && q.subs[picks[i].sub].app)
  }

  lemma {:induction false} KindsCount(q: Queue, picks: seq<RowId>)
    ensures Count(Kinds(q, picks)) == |ClaimRanking.AppPicks(q, picks)|
  {
    if picks != [] {
      var front := picks[..|picks| - 1];
      KindsCount(q, front);
      assert Kinds(q, picks)[..|front|] == Kinds(q, front);
    }
  }

  /** What the store's claim pass answers to what a dispatch pass asked is always possible: it fits the free slots. */
  lemma PassIsPossible(w: Slots, l: Limits, q: Queue, q': Queue, picks: seq<RowId>, t: DeliveryStore.Terms)
    requires Balanced(w, l) && w.pass == Some(Asked(t.limit, t.maxApp)) && DeliveryStore.Pass(q, q', picks, t)
    ensures Possible(w, Claimed(Kinds(q, picks)), l)
  {
    KindsCount(q, picks);
  }

  // ---------------------------------------------------------------- the carriers' sends

  function Sends(w: Slots): nat { |w.inflight| + w.direct }

  lemma Extends(events: seq<Event>, e: Event, l: Limits)
    requires Happens(events, l) && Possible(After(events, l), e, l)
    ensures Happens(events + [e], l) && After(events + [e], l) == Next(After(events, l), e, l)
  {
    assert (events + [e])[..|events|] == events;
  }

  function FirstParty(n: nat): seq<bool> { seq(n, i requires 0 <= i < n => false) }

  lemma {:induction false} NoneCount(n: nat)
    ensures Count(FirstParty(n)) == 0
  {
    if n > 0 {
      NoneCount(n - 1);
      assert FirstParty(n)[..n - 1] == FirstParty(n - 1);
    }
  }

  /** A run that fills every slot. */
  lemma Filled(l: Limits) returns (events: seq<Event>)
    ensures Happens(events, l) && |After(events, l).inflight| == l.maxInflight && After(events, l).direct == 0
  {
    events := [];
    assert Apps({}) == {};
    if l.maxInflight > 0 {
      Extends([], Poll, l);
      assert [] + [Poll] == [Poll];
      var w := After([Poll], l);
      assert w.pass.Some? && w.pass.value.room == l.maxInflight;
      NoneCount(l.maxInflight);
      Extends([Poll], Claimed(FirstParty(l.maxInflight)), l);
      StartAllCounts(w, FirstParty(l.maxInflight));
      events := [Poll] + [Claimed(FirstParty(l.maxInflight))];
    }
  }

  lemma {:induction false} AllCarrying(l: Limits, n: nat) returns (events: seq<Event>)
    requires n <= l.carriers
    ensures Happens(events, l) && |After(events, l).inflight| == l.maxInflight && After(events, l).direct == n
  {
    if n == 0 {
      events := Filled(l);
    } else {
      events := AllCarrying(l, n - 1);
      Extends(events, Carried, l);
      events := events + [Carried];
    }
  }

  /** The sends under way at once never exceed the limit and the number of carriers, and some run reaches that. */
  lemma MostSends(l: Limits) returns (most: seq<Event>)
    ensures forall events | Happens(events, l) :: Sends(After(events, l)) <= l.maxInflight + l.carriers
    ensures Happens(most, l) && Sends(After(most, l)) == l.maxInflight + l.carriers
  {
    most := AllCarrying(l, l.carriers);
    forall events | Happens(events, l) ensures Sends(After(events, l)) <= l.maxInflight + l.carriers {
      DispatchKeepsItsLimits(events, l);
    }
  }

  /** The promise of at most maxInflight sends overall holds of every run exactly when no carrier consumes. */
  lemma LimitIsOverallIff(l: Limits)
    ensures (forall events | Happens(events, l) :: Sends(After(events, l)) <= l.maxInflight) <==> l.carriers == 0
  {
    var most := MostSends(l);
  }

  // ---------------------------------------------------------------- the worker object

  class DispatchLoop {
    const limits: Limits
    var inflight: set<Slot>
    var appInflight: int
    var next: nat
    var pass: Option<Asked>
    var queued: bool
    var stopping: bool
    var direct: nat

    constructor (l: Limits)
      ensures limits == l && State() == IDLE
    {
      limits := l;
      inflight, appInflight, next, pass, queued, stopping, direct := {}, 0, 0, None, false, false, 0;
    }

    function State(): Slots
      reads this
    {
      Slots(inflight, appInflight, next, pass, queued, stopping, direct)
    }

    /** Begins a pass; `ask` is what it asks the store for, if anything. */
    method Dispatch() returns (ask: Option<Asked>)
      modifies this`pass, this`queued
      ensures State() == BeginPass(old(State()), limits)
      ensures ask.Some? ==> old(pass).None? && pass == ask
    {
      ask := None;
      if pass.Some? { queued := true; return; }
      if stopping { return; }
      var room := limits.maxInflight - |inflight|;
      if room <= 0 { return; }
      ask := Some(Asked(room, if limits.maxApp > appInflight then limits.maxApp - appInflight else 0));
      pass := ask;
    }

    /** The store's answer: start every claimed delivery, then run the queued pass if there is one. */
    method Claimed(apps: seq<bool>) returns (ask: Option<Asked>)
      requires Possible(State(), Event.Claimed(apps), limits)
      modifies this
      ensures State() == Answered(old(State()), apps, limits)
    {
      for i := 0 to |apps|
        invariant State() == StartAll(old(State()), apps[..i])
      {
        assert apps[..i + 1][..i] == apps[..i];
        inflight := inflight + {Slot(next, apps[i])};
        if apps[i] { appInflight := appInflight + 1; }
        next := next + 1;
      }
      assert apps[..|apps|] == apps;
      StartAllKeepsPass(old(State()), apps);
      var again := queued;
      pass, queued, ask := None, false, None;
      if again { ask := Dispatch(); }
    }

    method Settled(s: Slot)
      modifies this`inflight, this`appInflight
      ensures State() == Finish(old(State()), s)
    {
      if s in inflight {
        if s.app { appInflight := appInflight - 1; }
        inflight := inflight - {s};
      }
    }
  }

  lemma {:induction false} StartAllKeepsPass(w: Slots, apps: seq<bool>)
    ensures StartAll(w, apps).queued == w.queued && StartAll(w, apps).pass == w.pass
  {
    if apps != [] { StartAllKeepsPass(w, apps[..|apps| - 1]); }
  }
}
