/**
 Requests over one NATS connection: a promise waits under its token until a reply, a timeout, a failed publish or the
 close of the connection settles it.
 */
module NatsRequests {
  import opened Archive
  import Cursor

  datatype Outcome = Reply(body: Json) | TimedOut | Refused | Closed

  /** `settled`: what each request's promise became, in order. */
  datatype State = State(pending: set<string>, nextToken: nat, settled: seq<(string, Outcome)>)

  /** Ask: a request whose publish works or throws. Receive: any reply, late, repeated or not ours. */
  datatype Action = Ask(connected: bool) | Receive(token: string, body: Json) | Expire(token: string) | CloseAll

  function TokenOf(n: nat): string { Cursor.Decimal(n) }

  function Settle(s: State, token: string, o: Outcome): State {
    if token in s.pending then State(s.pending - {token}, s.nextToken, s.settled + [(token, o)]) else s
  }

  /** The tokens handed out, oldest first, that still wait. */
  function Waiting(s: State, below: nat): seq<string> {
    if below <= 1 then []
    else Waiting(s, below - 1) + if TokenOf(below - 1) in s.pending then [TokenOf(below - 1)] else []
  }

  function SettleAll(s: State, tokens: seq<string>, o: Outcome): State {
    if tokens == [] then s else Settle(SettleAll(s, tokens[..|tokens| - 1], o), tokens[|tokens| - 1], o)
  }

  function Apply(s: State, a: Action): State {
    match a
    case Ask(connected) =>
      var asked := State(s.pending + {TokenOf(s.nextToken)}, s.nextToken + 1, s.settled);
      if connected then asked else Settle(asked, TokenOf(s.nextToken), Refused)
    case Receive(token, body) => Settle(s, token, Reply(body))
    case Expire(token) => Settle(s, token, TimedOut)
    case CloseAll => SettleAll(s, Waiting(s, s.nextToken), Closed)
  }

  function Run(actions: seq<Action>): State {
    if actions == [] then State({}, 1, []) else Apply(Run(actions[..|actions| - 1]), actions[|actions| - 1])
  }

  // ---------------------------------------------------------------- settled once

  predicate Asked(s: State, token: string) { exists n | 1 <= n < s.nextToken :: token == TokenOf(n) }

  predicate IsSettled(s: State, token: string) { exists i | 0 <= i < |s.settled| :: s.settled[i].0 == token }

  /** A token asked for waits or is settled, never both; nothing else is either; no promise settled twice. */
  predicate Sound(s: State) {
    && s.nextToken >= 1
    && (forall t | t in s.pending :: Asked(s, t) && !IsSettled(s, t))
    && (forall n | 1 <= n < s.nextToken :: TokenOf(n) in s.pending || IsSettled(s, TokenOf(n)))
    && (forall i | 0 <= i < |s.settled| :: Asked(s, s.settled[i].0))
    && (forall i, j | 0 <= i < j < |s.settled| :: s.settled[i].0 != s.settled[j].0)
  }

  lemma TokensDiffer(m: nat, n: nat)
    ensures TokenOf(m) == TokenOf(n) ==> m == n
  {
    Cursor.DecimalReadsBack(m);
    Cursor.DecimalReadsBack(n);
  }

  lemma SettleIsSound(s: State, token: string, o: Outcome)
    requires Sound(s)
    ensures Sound(Settle(s, token, o)) && token !in Settle(s, token, o).pending && Settle(s, token, o).nextToken == s.nextToken
  {
    if token in s.pending {
      var t := Settle(s, token, o);
      assert t.settled[|s.settled|].0 == token;
      forall x ensures Asked(t, x) == Asked(s, x) {}
      forall x ensures IsSettled(t, x) <==> IsSettled(s, x) || x == token {
        if IsSettled(s, x) {
          var i :| 0 <= i < |s.settled| && s.settled[i].0 == x;
          assert t.settled[i].0 == x;
        }
      }
    }
  }

  lemma AskIsSound(s: State)
    requires Sound(s)
    ensures Sound(State(s.pending + {TokenOf(s.nextToken)}, s.nextToken + 1, s.settled))
  {
    var token, t := TokenOf(s.nextToken), State(s.pending + {TokenOf(s.nextToken)}, s.nextToken + 1, s.settled);
    forall n: nat ensures TokenOf(n) == token ==> n == s.nextToken { TokensDiffer(n, s.nextToken); }
    assert !Asked(s, token);
    forall x ensures Asked(s, x) ==> Asked(t, x) {}
    assert Asked(t, token);
    forall x ensures IsSettled(t, x) == IsSettled(s, x) {}
  }

  lemma {:induction false} SettleAllIsSound(s: State, tokens: seq<string>, o: Outcome)
    requires Sound(s)
    ensures var t := SettleAll(s, tokens, o);
      Sound(t) && t.nextToken == s.nextToken && t.pending <= s.pending && forall x | x in tokens :: x !in t.pending
  {
    if tokens != [] {
      SettleAllIsSound(s, tokens[..|tokens| - 1], o);
      SettleIsSound(SettleAll(s, tokens[..|tokens| - 1], o), tokens[|tokens| - 1], o);
    }
  }

  lemma {:induction false} WaitingIsAll(s: State, below: nat)
    ensures forall n | 1 <= n < below && TokenOf(n) in s.pending :: TokenOf(n) in Waiting(s, below)
  {
    if below > 1 { WaitingIsAll(s, below - 1); }
  }

  /** In every run of requests, replies, timeouts and a close, each promise settles at most once, and a close leaves none waiting. */
  lemma {:induction false} EveryRequestSettlesOnce(actions: seq<Action>)
    ensures Sound(Run(actions))
    ensures actions != [] && actions[|actions| - 1].CloseAll? ==> Run(actions).pending == {}
  {
    if actions != [] {
      var s := Run(actions[..|actions| - 1]);
      EveryRequestSettlesOnce(actions[..|actions| - 1]);
      match actions[|actions| - 1]
      case Ask(connected) =>
        AskIsSound(s);
        SettleIsSound(State(s.pending + {TokenOf(s.nextToken)}, s.nextToken + 1, s.settled), TokenOf(s.nextToken), Refused);
      case Receive(token, body) => SettleIsSound(s, token, Reply(body));
      case Expire(token) => SettleIsSound(s, token, TimedOut);
      case CloseAll =>
        SettleAllIsSound(s, Waiting(s, s.nextToken), Closed);
        WaitingIsAll(s, s.nextToken);
        assert forall t | t in s.pending :: t in Waiting(s, s.nextToken);
    }
  }

  /** A settled promise never changes: a late, repeated or foreign reply does nothing. */
  lemma {:induction false} SettledIsFinal(s: State, a: Action, i: nat)
    requires i < |s.settled|
    ensures |s.settled| <= |Apply(s, a).settled| && Apply(s, a).settled[i] == s.settled[i]
  {
    if a.CloseAll? { SettleAllKeeps(s, Waiting(s, s.nextToken), Closed); }
  }

  lemma {:induction false} SettleAllKeeps(s: State, tokens: seq<string>, o: Outcome)
    ensures s.settled <= SettleAll(s, tokens, o).settled
  {
    if tokens != [] { SettleAllKeeps(s, tokens[..|tokens| - 1], o); }
  }

  predicate Received(actions: seq<Action>, token: string, body: Json) { exists i | 0 <= i < |actions| :: actions[i] == Receive(token, body) }

  lemma {:induction false} SettleAllReplies(s: State, tokens: seq<string>, i: nat)
    requires |s.settled| <= i < |SettleAll(s, tokens, Closed).settled|
    ensures SettleAll(s, tokens, Closed).settled[i].1 == Closed
  {
    var less := SettleAll(s, tokens[..|tokens| - 1], Closed);
    SettleAllKeeps(s, tokens[..|tokens| - 1], Closed);
    if i < |less.settled| { SettleAllReplies(s, tokens[..|tokens| - 1], i); }
  }

  /** A request is answered only by a reply that carried its own token. */
  lemma {:induction false} AnsweredByItsOwnReply(actions: seq<Action>, i: nat)
    requires i < |Run(actions).settled| && Run(actions).settled[i].1.Reply?
    ensures Received(actions, Run(actions).settled[i].0, Run(actions).settled[i].1.body)
  {
    var front, last := actions[..|actions| - 1], actions[|actions| - 1];
    var s := Run(front);
    if i < |s.settled| {
      SettledIsFinal(s, last, i);
      AnsweredByItsOwnReply(front, i);
      var j :| 0 <= j < |front| && front[j] == Receive(s.settled[i].0, s.settled[i].1.body);
      assert actions[j] == front[j];
    } else if last.CloseAll? {
      SettleAllReplies(s, Waiting(s, s.nextToken), i);
    }
  }

  // ---------------------------------------------------------------- the object

  /** The request side of a connection. */
  class Requests {
    var pending: set<string>
    var nextToken: nat
    var settled: seq<(string, Outcome)>

    constructor ()
      ensures Now() == State({}, 1, [])
    {
      pending, nextToken, settled := {}, 1, [];
    }

    function Now(): State
      reads this
    {
      State(pending, nextToken, settled)
    }

    method Resolve(token: string, o: Outcome)
      modifies this`pending, this`settled
      ensures Now() == Settle(old(Now()), token, o)
    {
      if token in pending {
        pending := pending - {token};
        settled := settled + [(token, o)];
      }
    }

    method Request(connected: bool)
      modifies this
      ensures Now() == Apply(old(Now()), Ask(connected))
    {
      var token := TokenOf(nextToken);
      nextToken := nextToken + 1;
      pending := pending + {token};
      if !connected { Resolve(token, Refused); }
    }

    method OnReply(token: string, body: Json)
      modifies this`pending, this`settled
      ensures Now() == Apply(old(Now()), Receive(token, body))
    {
      Resolve(token, Reply(body));
    }

    method OnTimeout(token: string)
      modifies this`pending, this`settled
      ensures Now() == Apply(old(Now()), Expire(token))
    {
      Resolve(token, TimedOut);
    }

    /** Every waiting request is rejected, oldest first. */
    method Close()
      modifies this`pending, this`settled
      ensures Now() == Apply(old(Now()), CloseAll)
    {
      ghost var before := Now();
      var tokens := Waiting(Now(), nextToken);
      for i := 0 to |tokens|
        invariant Now() == SettleAll(before, tokens[..i], Closed)
      {
        assert tokens[..i + 1][..i] == tokens[..i];
        Resolve(tokens[i], Closed);
      }
      assert tokens[..|tokens|] == tokens;
    }
  }
}
