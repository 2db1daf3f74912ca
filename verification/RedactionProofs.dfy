/** Redaction: refused as a whole or complete, limited to the owner's rows, the same in both tiers. */
module RedactionProofs {
  import opened Wrappers
  import opened Archive
  import opened Redaction
  import opened EventLog

  /** A directive is refused exactly when it names, by id, a stored event of another owner. */
  lemma RefusedIff(log: Log, who: Columns, d: Directive, now: int)
    ensures Redact(log, who, d, now).Err? <==> exists id | id in d.eventIds :: Known(log, id) && !SameOwner(who, Lookup(log, id).value.c)
  {
    if id :| id in d.eventIds && Known(log, id) && !SameOwner(who, Lookup(log, id).value.c) {
      assert id in Foreign(log, who, d);
    }
    if Foreign(log, who, d) != {} {
      var id :| id in Foreign(log, who, d);
    }
  }

  /** An accepted redaction reaches every row it names, hot or replay, except the redacting event and rows that carry a directive. */
  lemma RedactionIsComplete(log: Log, who: Columns, d: Directive, now: int, id: string)
    requires Keyed(log) && Redact(log, who, d, now).Ok?
    requires Known(log, id) && id != who.id && NamedBy(who, d, Lookup(log, id).value) && !Lookup(log, id).value.c.redacts
    ensures var after := Lookup(Redact(log, who, d, now).value, id).value;
      && after.c.redactedAt.Some?
      && (Redactable(Lookup(log, id).value) ==> after == Tombstone(Lookup(log, id).value, who.id, now))
  {
  }

  /** It changes nothing else: rows of other owners, unnamed rows, rows already redacted and rows with a directive stay as they are. */
  lemma RedactionIsConfined(log: Log, who: Columns, d: Directive, now: int, id: string)
    requires Keyed(log) && Redact(log, who, d, now).Ok?
    ensures var after := Redact(log, who, d, now).value;
      && Known(after, id) == Known(log, id) && (id in after.hot <==> id in log.hot)
      && (Known(log, id) ==>
            var r, r' := Lookup(log, id).value, Lookup(after, id).value;
            && SameEnvelope(r', r)
            && (r' != r ==> SameOwner(who, r.c) && NamedBy(who, d, r) && Redactable(r) && id != who.id))
      && after.queue == log.queue && after.receipts == log.receipts && after.lastSeq == log.lastSeq
  {
    if Known(log, id) {
      var r := Lookup(log, id).value;
      assert id in Targets(log, who, d) && id in d.eventIds ==> id !in Foreign(log, who, d);
    }
  }

  /** A tombstone names the producer, never a person, and keeps nothing of the payload. */
  lemma TombstoneForgets(r: Row, s: Row, who: string, at: int)
    ensures Tombstone(r, who, at).b.actor.kind != "user"
    ensures Tombstone(r, who, at).b.payload == Tombstone(s, who, at).b.payload
    ensures SameEnvelope(Tombstone(r, who, at), r) && !Redactable(Tombstone(r, who, at))
  {
  }

  lemma NoTargetLeft(log: Log, who: Columns, d: Directive, now: int, id: string)
    requires Keyed(log) && Redact(log, who, d, now).Ok?
    ensures id !in Targets(Redact(log, who, d, now).value, who, d) && id !in Foreign(Redact(log, who, d, now).value, who, d)
  {
    RedactionIsConfined(log, who, d, now, id);
    if Known(log, id) {
      assert id !in Foreign(log, who, d);
      if id != who.id && NamedBy(who, d, Lookup(log, id).value) && !Lookup(log, id).value.c.redacts {
        RedactionIsComplete(log, who, d, now, id);
      }
    }
  }

  lemma NothingToRewrite(log: Log, who: string, now: int)
    ensures Rewrite(log, {}, who, now) == log
  {
    assert RewriteHot(log.hot, {}, who, now) == log.hot;
    assert RewriteReplay(log.replay, log.hot.Keys, {}, who, now) == log.replay;
  }

  /** A second redaction by the same directive changes nothing. */
  lemma RedactionIsIdempotent(log: Log, who: Columns, d: Directive, now: int, later: int)
    requires Keyed(log) && Redact(log, who, d, now).Ok?
    ensures Redact(Redact(log, who, d, now).value, who, d, later) == Ok(Redact(log, who, d, now).value)
  {
    var after := Redact(log, who, d, now).value;
    forall id ensures id !in Targets(after, who, d) && id !in Foreign(after, who, d) { NoTargetLeft(log, who, d, now, id); }
    assert Targets(after, who, d) == {} && Foreign(after, who, d) == {};
    NothingToRewrite(after, who.id, later);
  }
}
