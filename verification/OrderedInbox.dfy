/** The ordered inbox of a consumer: each event once, and per key only newer revisions take effect. */
module OrderedInbox {
  import opened Wrappers

  const MAX_KEY_LENGTH := 200
  const MAX_SAFE := 9007199254740991

  /** One attempt to apply an event. `fails`: the handler would throw if it ran. */
  datatype Attempt = Attempt(consumer: string, id: string, key: Option<string>, revision: Option<nat>, fails: bool)

  datatype Head = Head(revision: nat, id: string)

  /** One committed apply: its event, the key and revision it was ordered by, and whether its handler took effect. */
  datatype Commit = Commit(consumer: string, id: string, order: Option<(string, nat)>, effect: bool)

  /** `commits` is the history of the two tables. */
  datatype State = State(receipts: set<(string, string)>, heads: map<(string, string), Head>, commits: seq<Commit>)

  datatype Answer = Rejected | Duplicate | Stale(head: Head) | Applied | Failed

  /** Both a key and a revision: the event is ordered; otherwise it is only deduplicated. */
  function OrderOf(a: Attempt): Option<(string, nat)> {
    if a.key.Some? && a.revision.Some? then Some((a.key.value, a.revision.value)) else None
  }

  predicate Acceptable(a: Attempt) {
    a.id != "" && (OrderOf(a).Some? ==> 0 < |a.key.value| <= MAX_KEY_LENGTH && a.revision.value <= MAX_SAFE)
  }

  /** The head row moves only upwards. */
  predicate Moves(s: State, a: Attempt)
    requires OrderOf(a).Some?
  {
    (a.consumer, a.key.value) !in s.heads || s.heads[(a.consumer, a.key.value)].revision < a.revision.value
  }

  predicate IsStale(s: State, a: Attempt) { OrderOf(a).Some? && !Moves(s, a) }

  function Landed(s: State, a: Attempt, effect: bool): State {
    State(
      s.receipts + {(a.consumer, a.id)},
      if effect && OrderOf(a).Some? then s.heads[(a.consumer, a.key.value) := Head(a.revision.value, a.id)] else s.heads,
      s.commits + [Commit(a.consumer, a.id, OrderOf(a), effect)])
  }

  /** Receipt, head and handler are one transaction: a handler that throws undoes all three. */
  function Apply(s: State, a: Attempt): (State, Answer) {
    if !Acceptable(a) then (s, Rejected)
    else if (a.consumer, a.id) in s.receipts then (s, Duplicate)
    else if IsStale(s, a) then (Landed(s, a, false), Stale(s.heads[(a.consumer, a.key.value)]))
    else if a.fails then (s, Failed)
    else (Landed(s, a, true), Applied)
  }

  function Run(attempts: seq<Attempt>): State {
    if attempts == [] then State({}, map[], []) else Apply(Run(attempts[..|attempts| - 1]), attempts[|attempts| - 1]).0
  }

  // ---------------------------------------------------------------- the object

  class Inbox {
    var receipts: set<(string, string)>
    var heads: map<(string, string), Head>
    ghost var commits: seq<Commit>

    constructor ()
      ensures Now() == State({}, map[], [])
    {
      receipts, heads, commits := {}, map[], [];
    }

    ghost function Now(): State
      reads this
    {
      State(receipts, heads, commits)
    }

    method ApplyEvent(a: Attempt) returns (answer: Answer)
      modifies this
      ensures (Now(), answer) == Apply(old(Now()), a)
    {
      if a.id == "" { return Rejected; }
      var ordered := a.key.Some? && a.revision.Some?;
      if ordered && !(0 < |a.key.value| <= MAX_KEY_LENGTH && a.revision.value <= MAX_SAFE) { return Rejected; }
      var receiptsBefore, headsBefore := receipts, heads;
      if (a.consumer, a.id) in receipts { return Duplicate; }
      receipts := receipts + {(a.consumer, a.id)};
      if ordered {
        var row := (a.consumer, a.key.value);
        if row in heads && heads[row].revision >= a.revision.value {
          commits := commits + [Commit(a.consumer, a.id, OrderOf(a), false)];
          return Stale(heads[row]);
        }
        heads := heads[row := Head(a.revision.value, a.id)];
      }
      if a.fails {
        receipts, heads := receiptsBefore, headsBefore;
        return Failed;
      }
      commits := commits + [Commit(a.consumer, a.id, OrderOf(a), true)];
      answer := Applied;
    }
  }

  // ---------------------------------------------------------------- what every run keeps

  predicate OnKey(c: Commit, consumer: string, key: string) { c.consumer == consumer && c.order.Some? && c.order.value.0 == key }

  /** Each event committed once, and it has its receipt. */
  predicate CommittedOnce(s: State) {
    && (forall c | c in s.commits :: (c.consumer, c.id) in s.receipts)
    && (forall r | r in s.receipts :: exists i | 0 <= i < |s.commits| :: (s.commits[i].consumer, s.commits[i].id) == r)
    && (forall i, j | 0 <= i < j < |s.commits| :: (s.commits[i].consumer, s.commits[i].id) != (s.commits[j].consumer, s.commits[j].id))
  }

  /** A head is the last effect on its key, and no commit on the key has a higher revision. */
  predicate HeadsAreLast(s: State) {
    && (forall c | c in s.commits && c.order.Some? ::
          (c.consumer, c.order.value.0) in s.heads && c.order.value.1 <= s.heads[(c.consumer, c.order.value.0)].revision)
    && (forall k | k in s.heads :: Commit(k.0, s.heads[k].id, Some((k.1, s.heads[k].revision)), true) in s.commits)
  }

  /** Effects on one key come in strictly increasing revisions. */
  predicate RevisionsIncrease(s: State) {
    forall i, j | 0 <= i < j < |s.commits| && s.commits[i].effect && s.commits[j].effect
      && s.commits[j].order.Some? && OnKey(s.commits[i], s.commits[j].consumer, s.commits[j].order.value.0) ::
      s.commits[i].order.value.1 < s.commits[j].order.value.1
  }

  predicate Sound(s: State) { CommittedOnce(s) && HeadsAreLast(s) && RevisionsIncrease(s) }

  lemma LandedOnce(s: State, a: Attempt, effect: bool)
    requires CommittedOnce(s) && (a.consumer, a.id) !in s.receipts
    ensures CommittedOnce(Landed(s, a, effect))
  {
    var t := Landed(s, a, effect);
    assert t.commits[|s.commits|] == Commit(a.consumer, a.id, OrderOf(a), effect);
    forall r | r in t.receipts ensures exists i | 0 <= i < |t.commits| :: (t.commits[i].consumer, t.commits[i].id) == r {
      if r in s.receipts {
        var i :| 0 <= i < |s.commits| && (s.commits[i].consumer, s.commits[i].id) == r;
        assert t.commits[i] == s.commits[i];
      }
    }
    forall i | 0 <= i < |s.commits| ensures (s.commits[i].consumer, s.commits[i].id) != (a.consumer, a.id) {
      assert s.commits[i] in s.commits;
    }
  }

  lemma LandedHeads(s: State, a: Attempt, effect: bool)
    requires HeadsAreLast(s) && (OrderOf(a).Some? ==> effect == Moves(s, a))
    ensures HeadsAreLast(Landed(s, a, effect))
  {
  }

  lemma LandedIncreases(s: State, a: Attempt, effect: bool)
    requires HeadsAreLast(s) && RevisionsIncrease(s) && (OrderOf(a).Some? ==> effect == Moves(s, a))
    ensures RevisionsIncrease(Landed(s, a, effect))
  {
    var t, n := Landed(s, a, effect), |s.commits|;
    forall i, j | 0 <= i < j < |t.commits| && t.commits[i].effect && t.commits[j].effect
      && t.commits[j].order.Some? && OnKey(t.commits[i], t.commits[j].consumer, t.commits[j].order.value.0)
      ensures t.commits[i].order.value.1 < t.commits[j].order.value.1
    {
      if j == n { assert s.commits[i] in s.commits; }
    }
  }

  /** Whatever the order, duplication and failures: each event takes effect at most once, revisions of a key only rise, and its head is the last and highest. */
  lemma {:induction false} EveryRunIsSound(attempts: seq<Attempt>)
    ensures Sound(Run(attempts))
  {
    if attempts != [] {
      var s, a := Run(attempts[..|attempts| - 1]), attempts[|attempts| - 1];
      EveryRunIsSound(attempts[..|attempts| - 1]);
      if Acceptable(a) && (a.consumer, a.id) !in s.receipts && (IsStale(s, a) || !a.fails) {
        LandedOnce(s, a, !IsStale(s, a));
        LandedHeads(s, a, !IsStale(s, a));
        LandedIncreases(s, a, !IsStale(s, a));
      }
    }
  }

  // ---------------------------------------------------------------- convergence

  /** An event is itself in every attempt: same key and revision. */
  predicate Stable(attempts: seq<Attempt>) {
    forall a, b | a in attempts && b in attempts && a.consumer == b.consumer && a.id == b.id :: a.key == b.key && a.revision == b.revision
  }

  predicate Delivers(a: Attempt, consumer: string, key: string, revision: nat) {
    && a.consumer == consumer && a.key == Some(key) && a.revision == Some(revision) && !a.fails
    && a.id != "" && 0 < |key| <= 200 && revision <= 9007199254740991
  }

  /** Some attempt on this key, at this revision, whose handler does not fail. */
  predicate Delivered(attempts: seq<Attempt>, consumer: string, key: string, revision: nat) {
    exists i | 0 <= i < |attempts| :: Delivers(attempts[i], consumer, key, revision)
  }

  predicate Has(s: State, consumer: string, key: string, revision: nat) {
    exists c | c in s.commits :: OnKey(c, consumer, key) && c.order.value.1 == revision
  }

  predicate Made(c: Commit, a: Attempt) {
    a.consumer == c.consumer && a.id == c.id && OrderOf(a) == c.order && Acceptable(a) && (c.effect ==> !a.fails)
  }

  predicate CommitsCameFrom(s: State, attempts: seq<Attempt>) {
    forall c | c in s.commits :: exists i | 0 <= i < |attempts| :: Made(c, attempts[i])
  }

  lemma {:induction false} CommitsWereAttempts(attempts: seq<Attempt>)
    ensures CommitsCameFrom(Run(attempts), attempts)
  {
    if attempts != [] {
      var front := attempts[..|attempts| - 1];
      CommitsWereAttempts(front);
      var s, t := Run(front), Run(attempts);
      forall c | c in t.commits ensures exists i | 0 <= i < |attempts| :: Made(c, attempts[i]) {
        if c in s.commits {
          var i :| 0 <= i < |front| && Made(c, front[i]);
          assert attempts[i] == front[i];
        } else {
          assert Made(c, attempts[|attempts| - 1]);
        }
      }
    }
  }

  lemma {:induction false} ReceiptsStay(attempts: seq<Attempt>, n: nat)
    requires n <= |attempts|
    ensures Run(attempts[..n]).receipts <= Run(attempts).receipts
  {
    if n == |attempts| {
      assert attempts[..n] == attempts;
    } else {
      assert attempts[..|attempts| - 1][..n] == attempts[..n];
      ReceiptsStay(attempts[..|attempts| - 1], n);
    }
  }

  /** An attempt that does not fail leaves its event's receipt. */
  lemma DeliveryIsReceipted(attempts: seq<Attempt>, i: nat)
    requires i < |attempts| && Acceptable(attempts[i]) && !attempts[i].fails
    ensures (attempts[i].consumer, attempts[i].id) in Run(attempts).receipts
  {
    assert attempts[..i + 1][..i] == attempts[..i];
    ReceiptsStay(attempts, i + 1);
  }

  lemma DeliversIff(a: Attempt, consumer: string, key: string, revision: nat)
    ensures Delivers(a, consumer, key, revision) <==>
              Acceptable(a) && !a.fails && a.consumer == consumer && OrderOf(a) == Some((key, revision))
  {
  }

  /** A receipt's commit carries the order of every attempt of that event. */
  lemma CommitOf(attempts: seq<Attempt>, i: nat) returns (c: Commit)
    requires Stable(attempts) && i < |attempts| && (attempts[i].consumer, attempts[i].id) in Run(attempts).receipts
    ensures c in Run(attempts).commits && c.consumer == attempts[i].consumer && c.order == OrderOf(attempts[i])
  {
    EveryRunIsSound(attempts);
    CommitsWereAttempts(attempts);
    var s := Run(attempts);
    var j :| 0 <= j < |s.commits| && (s.commits[j].consumer, s.commits[j].id) == (attempts[i].consumer, attempts[i].id);
    c := s.commits[j];
    assert c in s.commits;
    var k :| 0 <= k < |attempts| && Made(c, attempts[k]);
    assert attempts[k] in attempts && attempts[i] in attempts;
  }

  lemma DeliveredIsCommitted(attempts: seq<Attempt>, consumer: string, key: string, revision: nat)
    requires Stable(attempts) && Delivered(attempts, consumer, key, revision)
    ensures Has(Run(attempts), consumer, key, revision)
  {
    var i :| 0 <= i < |attempts| && Delivers(attempts[i], consumer, key, revision);
    DeliversIff(attempts[i], consumer, key, revision);
    DeliveryIsReceipted(attempts, i);
    var c := CommitOf(attempts, i);
    assert OnKey(c, consumer, key) && c.order.value.1 == revision;
  }

  lemma HeadWasDelivered(attempts: seq<Attempt>, consumer: string, key: string)
    requires (consumer, key) in Run(attempts).heads
    ensures Delivered(attempts, consumer, key, Run(attempts).heads[(consumer, key)].revision)
  {
    EveryRunIsSound(attempts);
    CommitsWereAttempts(attempts);
    var h := Run(attempts).heads[(consumer, key)];
    var c := Commit(consumer, h.id, Some((key, h.revision)), true);
    assert c in Run(attempts).commits;
    var i :| 0 <= i < |attempts| && Made(c, attempts[i]);
    DeliversIff(attempts[i], consumer, key, h.revision);
    assert Delivers(attempts[i], consumer, key, h.revision);
  }

  lemma DeliveredIsBelow(attempts: seq<Attempt>, consumer: string, key: string, r: nat)
    requires Stable(attempts) && Delivered(attempts, consumer, key, r)
    ensures (consumer, key) in Run(attempts).heads && r <= Run(attempts).heads[(consumer, key)].revision
  {
    EveryRunIsSound(attempts);
    DeliveredIsCommitted(attempts, consumer, key, r);
    var c :| c in Run(attempts).commits && OnKey(c, consumer, key) && c.order.value.1 == r;
  }

  /** A key's final head is the highest revision delivered on it, and there is none exactly when nothing was. */
  lemma HeadIsHighestDelivered(attempts: seq<Attempt>, consumer: string, key: string)
    requires Stable(attempts)
    ensures var heads := Run(attempts).heads;
      if (consumer, key) in heads then
        && Delivered(attempts, consumer, key, heads[(consumer, key)].revision)
        && (forall r: nat | Delivered(attempts, consumer, key, r) :: r <= heads[(consumer, key)].revision)
      else forall r: nat :: !Delivered(attempts, consumer, key, r)
  {
    var heads := Run(attempts).heads;
    forall r: nat | Delivered(attempts, consumer, key, r) ensures (consumer, key) in heads && r <= heads[(consumer, key)].revision {
      DeliveredIsBelow(attempts, consumer, key, r);
    }
    if (consumer, key) in heads { HeadWasDelivered(attempts, consumer, key); }
  }

  /** Two consumers' views converge: the same events delivered in any two orders leave every head at the same revision. */
  lemma HeadsConverge(p: seq<Attempt>, q: seq<Attempt>, consumer: string, key: string)
    requires Stable(p) && Stable(q)
    requires forall r: nat :: Delivered(p, consumer, key, r) <==> Delivered(q, consumer, key, r)
    ensures (consumer, key) in Run(p).heads <==> (consumer, key) in Run(q).heads
    ensures (consumer, key) in Run(p).heads ==> Run(p).heads[(consumer, key)].revision == Run(q).heads[(consumer, key)].revision
  {
    HeadIsHighestDelivered(p, consumer, key);
    HeadIsHighestDelivered(q, consumer, key);
  }
}
