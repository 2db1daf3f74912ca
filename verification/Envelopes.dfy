/**
 What a published envelope must look like before the store sees it, and envelopes made to order: an event type, a trace, a subject no
 hot event is about.
 */
module Envelopes {
  import opened Wrappers
  import opened Archive
  import opened Redaction
  import opened EventLog
  import Topics

  predicate TraceId(s: string) { |s| == 32 && forall i | 0 <= i < 32 :: '0' <= s[i] <= '9' || 'a' <= s[i] <= 'f' }

  predicate SourceName(s: string) {
    2 <= |s| <= 40 && 'a' <= s[0] <= 'z' && forall i | 0 <= i < |s| :: 'a' <= s[i] <= 'z' || '0' <= s[i] <= '9' || s[i] == '-'
  }

  /** Three or more segments, the first one starting with a letter. */
  predicate EventType(s: string) {
    s != "" && 'a' <= s[0] <= 'z' && |Topics.Split(s)| >= 3 && Topics.Words(Topics.Split(s))
  }

  predicate Valid(e: Envelope) {
    && EventId(e.id) && TraceId(e.traceId) && EventType(e.eventType) && SourceName(e.source)
    && e.visibility in {"public", "subject", "internal"} && e.payload.Obj?
  }

  const TYPE := "a.b.c"

  lemma TypeIsValid()
    ensures EventType(TYPE)
  {
    assert TYPE == "a" + "." + ("b" + "." + "c");
    Topics.SplitFirst("a", "b" + "." + "c");
    Topics.SplitFirst("b", "c");
    Topics.SplitWord("c");
    assert Topics.Split(TYPE) == ["a", "b", "c"];
  }

  const TRACE := "00000000000000000000000000000000"

  lemma TraceIsValid()
    ensures TraceId(TRACE) && SourceName("chat")
  {
  }

  /** An event that asks for no redaction. */
  function Plain(id: string, trace: string, source: string, subject: string, fields: map<string, Json>): Envelope {
    Envelope(id, trace, TYPE, source, Actor("service", source), "thing", subject, 1, "internal", Obj(fields), "")
  }

  lemma PlainIsValid(id: string, trace: string, source: string, subject: string, fields: map<string, Json>)
    requires EventId(id) && TraceId(trace) && SourceName(source) && "redacts" !in fields
    ensures Valid(Plain(id, trace, source, subject, fields)) && ParseDirective(Plain(id, trace, source, subject, fields).payload).Absent?
  {
    TypeIsValid();
  }

  function Xs(n: nat): (s: string)
    ensures |s| == n
  {
    seq(n, i => 'x')
  }

  lemma {:induction false} LongerThanAll(words: set<string>) returns (n: nat)
    ensures forall w | w in words :: |w| < n
  {
    n := 0;
    if words != {} {
      var w :| w in words;
      n := LongerThanAll(words - {w});
      if n <= |w| { n := |w| + 1; }
    }
  }

  /** A subject no hot event is about. */
  lemma NewSubject(log: Log) returns (subject: string)
    ensures forall id | id in log.hot :: log.hot[id].c.subjectId != subject
  {
    var used := set id | id in log.hot :: log.hot[id].c.subjectId;
    var n := LongerThanAll(used);
    subject := Xs(n);
    forall id | id in log.hot ensures log.hot[id].c.subjectId != subject { assert log.hot[id].c.subjectId in used; }
  }

  /** Alone in a batch, an accepted event that asks for no redaction is simply inserted. */
  lemma PublishedAlone(log: Log, e: Envelope, ctx: Publish)
    requires !Known(log, e.id) && e.id !in log.receipts && Hops(log, e, ctx) <= ctx.maxHops && ParseDirective(e.payload).Absent?
    ensures Apply(log, Batch([e], ctx)) == Insert(log, e, ctx)
  {
    assert [e][..0] == [];
    assert PublishAll(log, [], ctx) == Ok((log, []));
    assert PublishOne(log, e, ctx) == Ok((Insert(log, e, ctx), Stored(e.id, log.lastSeq + 1, log.epoch)));
  }
}
