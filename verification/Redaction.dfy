/** Redaction directives: what a payload may ask for, who may ask, and what a redacted row becomes. */
module Redaction {
  import opened Wrappers
  import opened Archive

  const MAX_IDS := 1000

  datatype Directive = Directive(eventIds: seq<string>, subjectType: Option<string>, subjectIds: seq<string>)

  datatype Fault = NotAnObject | UnknownField | BadEventIds | HalfASubject | BadSubjectType | BadSubjectIds | NamesNothing

  datatype Parsed = Absent | Malformed(fault: Fault) | Redacts(directive: Directive)

  predicate Base32(c: char) { '0' <= c <= '9' || ('A' <= c <= 'Z' && c != 'I' && c != 'L' && c != 'O' && c != 'U') }

  predicate EventId(s: string) { |s| == 30 && s[..4] == "evt_" && forall i | 4 <= i < 30 :: Base32(s[i]) }

  predicate SubjectType(s: string) {
    0 < |s| <= 64 && 'a' <= s[0] <= 'z' && forall i | 0 <= i < |s| :: 'a' <= s[i] <= 'z' || '0' <= s[i] <= '9' || s[i] == '_'
  }

  /** An array of at most MAX_IDS strings. */
  predicate Ids(j: Json) { j.Arr? && |j.items| <= MAX_IDS && forall i | 0 <= i < |j.items| :: j.items[i].Str? }

  function Texts(items: seq<Json>): (r: seq<string>)
    requires forall i | 0 <= i < |items| :: items[i].Str?
    ensures |r| == |items| && forall i | 0 <= i < |r| :: r[i] == items[i].s
  {
    seq(|items|, i requires 0 <= i < |items| => items[i].s)
  }

  predicate Distinct(ids: seq<string>) { forall i, j | 0 <= i < j < |ids| :: ids[i] != ids[j] }

  /** [...new Set(ids)]: each id once, where it first stood. */
  function Dedupe(ids: seq<string>): (r: seq<string>)
    ensures Distinct(r) && |r| <= |ids| && (forall s :: s in r <==> s in ids)
    ensures Distinct(ids) ==> r == ids
  {
    if ids == [] then []
    else
      var front, last := Dedupe(ids[..|ids| - 1]), ids[|ids| - 1];
      assert ids == ids[..|ids| - 1] + [last];
      if last in front then front else front + [last]
  }

  /** The event ids named directly; None when the field is malformed. */
  function EventIdsOf(fields: map<string, Json>): Option<seq<string>> {
    if "event_ids" !in fields then Some([])
    else if !Ids(fields["event_ids"]) then None
    else
      var ids := Texts(fields["event_ids"].items);
      if forall i | 0 <= i < |ids| :: EventId(ids[i]) then Some(Dedupe(ids)) else None
  }

  datatype Subjects = Unnamed | Named(subjectType: string, ids: seq<string>) | Faulty(fault: Fault)

  function SubjectsOf(fields: map<string, Json>): Subjects {
    if ("subject_type" in fields) != ("subject_ids" in fields) then Faulty(HalfASubject)
    else if "subject_type" !in fields then Unnamed
    else
      var t, ids := fields["subject_type"], fields["subject_ids"];
      if !(t.Str? && SubjectType(t.s)) then Faulty(BadSubjectType)
      else if !(Ids(ids) && forall i | 0 <= i < |ids.items| :: 0 < |ids.items[i].s| <= 200) then Faulty(BadSubjectIds)
      else Named(t.s, Dedupe(Texts(ids.items)))
  }

  function ParseFields(fields: map<string, Json>): Parsed {
    if !(fields.Keys <= {"event_ids", "subject_type", "subject_ids"}) then Malformed(UnknownField)
    else
      var events, subjects := EventIdsOf(fields), SubjectsOf(fields);
      if events.None? then Malformed(BadEventIds)
      else if subjects.Faulty? then Malformed(subjects.fault)
      else if events.value == [] && (subjects.Unnamed? || subjects.ids == []) then Malformed(NamesNothing)
      else if subjects.Unnamed? then Redacts(Directive(events.value, None, []))
      else Redacts(Directive(events.value, Some(subjects.subjectType), subjects.ids))
  }

  function ParseDirective(payload: Json): Parsed {
    if !payload.Obj? || "redacts" !in payload.fields then Absent
    else if !payload.fields["redacts"].Obj? then Malformed(NotAnObject)
    else ParseFields(payload.fields["redacts"].fields)
  }

  predicate WellFormed(d: Directive) {
    && |d.eventIds| <= 1000 && |d.subjectIds| <= 1000 && Distinct(d.eventIds) && Distinct(d.subjectIds)
    && (forall i | 0 <= i < |d.eventIds| :: EventId(d.eventIds[i]))
    && (forall i | 0 <= i < |d.subjectIds| :: 0 < |d.subjectIds[i]| <= 200)
    && (if d.subjectType.Some? then SubjectType(d.subjectType.value) else d.subjectIds == [])
    && (d.eventIds != [] || d.subjectIds != [])
  }

  lemma AcceptedEvents(fields: map<string, Json>)
    requires EventIdsOf(fields).Some?
    ensures var ids := EventIdsOf(fields).value; |ids| <= MAX_IDS && Distinct(ids) && forall i | 0 <= i < |ids| :: EventId(ids[i])
  {
    if "event_ids" in fields {
      var given, ids := Texts(fields["event_ids"].items), EventIdsOf(fields).value;
      assert forall i | 0 <= i < |ids| :: ids[i] in given;
    }
  }

  lemma AcceptedSubjects(fields: map<string, Json>)
    requires SubjectsOf(fields).Named?
    ensures var s := SubjectsOf(fields);
      SubjectType(s.subjectType) && |s.ids| <= MAX_IDS && Distinct(s.ids) && forall i | 0 <= i < |s.ids| :: 0 < |s.ids[i]| <= 200
  {
    var given, ids := Texts(fields["subject_ids"].items), SubjectsOf(fields).ids;
    assert forall i | 0 <= i < |ids| :: ids[i] in given;
  }

  /** Whatever is accepted is well-formed. */
  lemma AcceptedIsWellFormed(payload: Json)
    requires ParseDirective(payload).Redacts?
    ensures WellFormed(ParseDirective(payload).directive)
  {
    var fields := payload.fields["redacts"].fields;
    AcceptedEvents(fields);
    if SubjectsOf(fields).Named? { AcceptedSubjects(fields); }
  }

  /** The ids a field lists. */
  function Listed(fields: map<string, Json>, name: string): seq<Json> {
    if name in fields && fields[name].Arr? then fields[name].items else []
  }

  predicate AllIds(items: seq<Json>) { |items| <= 1000 && forall i | 0 <= i < |items| :: items[i].Str? }

  const CROCKFORD := "0123456789ABCDEFGHJKMNPQRSTVWXYZ"

  /** evt_ and 26 letters of Crockford's alphabet. */
  predicate IsEventId(s: string) { |s| == 30 && s[..4] == "evt_" && forall i | 4 <= i < 30 :: s[i] in CROCKFORD }

  lemma Crockford(c: char)
    requires Base32(c)
    ensures c in CROCKFORD
  {
    var n := c as int;
    var k := n - (if n < 65 then 48 else if n < 73 then 55 else if n < 76 then 56 else if n < 79 then 57 else if n < 85 then 58 else 59);
    assert CROCKFORD[k] == c;
  }

  lemma CrockfordIs(c: char)
    ensures c in CROCKFORD <==> Base32(c)
  {
    if Base32(c) { Crockford(c); }
  }

  lemma EventIdIs(s: string)
    ensures IsEventId(s) <==> EventId(s)
  {
    if |s| == 30 {
      forall i | 4 <= i < 30 ensures s[i] in CROCKFORD <==> Base32(s[i]) { CrockfordIs(s[i]); }
    }
  }

  /** A lower-case word of at most 64 letters that begins with one of a to z. */
  predicate IsTypeName(s: string) {
    s != "" && |s| <= 64 && !('0' <= s[0] <= '9') && s[0] != '_' && forall c | c in s :: 'a' <= c <= 'z' || '0' <= c <= '9' || c == '_'
  }

  /** A directive as it must be written. */
  predicate AsksWell(fields: map<string, Json>) {
    && (forall name | name in fields :: name == "event_ids" || name == "subject_type" || name == "subject_ids")
    && ("event_ids" in fields ==>
          fields["event_ids"].Arr? && AllIds(fields["event_ids"].items) && forall j | j in fields["event_ids"].items :: IsEventId(j.s))
    && ("subject_type" in fields <==> "subject_ids" in fields)
    && ("subject_type" in fields ==>
          && fields["subject_type"].Str? && IsTypeName(fields["subject_type"].s)
          && fields["subject_ids"].Arr? && AllIds(fields["subject_ids"].items)
          && forall j | j in fields["subject_ids"].items :: 0 < |j.s| <= 200)
    && (Listed(fields, "event_ids") != [] || Listed(fields, "subject_ids") != [])
  }

  lemma EventsRead(fields: map<string, Json>)
    ensures EventIdsOf(fields) != None <==>
              ("event_ids" in fields ==>
                fields["event_ids"].Arr? && AllIds(fields["event_ids"].items) && forall j | j in fields["event_ids"].items :: IsEventId(j.s))
    ensures EventIdsOf(fields) != None ==>
              && (EventIdsOf(fields).value == [] <==> Listed(fields, "event_ids") == [])
              && forall id :: id in EventIdsOf(fields).value <==> Str(id) in Listed(fields, "event_ids")
  {
    if "event_ids" in fields && Ids(fields["event_ids"]) {
      TextsAre(fields["event_ids"].items);
      forall j | j in fields["event_ids"].items ensures IsEventId(j.s) <==> EventId(j.s) { EventIdIs(j.s); }
    }
  }

  lemma TextsAre(items: seq<Json>)
    requires forall i | 0 <= i < |items| :: items[i].Str?
    ensures forall id :: id in Texts(items) <==> Str(id) in items
    ensures Dedupe(Texts(items)) == [] <==> items == []
  {
    var ids := Texts(items);
    forall id ensures id in ids <==> Str(id) in items {
      if id in ids {
        var i :| 0 <= i < |ids| && ids[i] == id;
        assert items[i] == Str(id);
      }
      if Str(id) in items {
        var i :| 0 <= i < |items| && items[i] == Str(id);
        assert ids[i] == id;
      }
    }
    if items != [] { assert ids[0] in Dedupe(ids); }
  }

  lemma TypeNameIs(s: string)
    ensures IsTypeName(s) <==> SubjectType(s)
  {
    if IsTypeName(s) {
      forall i | 0 <= i < |s| ensures 'a' <= s[i] <= 'z' || '0' <= s[i] <= '9' || s[i] == '_' { assert s[i] in s; }
    }
  }

  lemma SubjectsRead(fields: map<string, Json>)
    ensures !SubjectsOf(fields).Faulty? <==>
              && ("subject_type" in fields <==> "subject_ids" in fields)
              && ("subject_type" in fields ==>
                    && fields["subject_type"].Str? && IsTypeName(fields["subject_type"].s)
                    && fields["subject_ids"].Arr? && AllIds(fields["subject_ids"].items)
                    && forall j | j in fields["subject_ids"].items :: 0 < |j.s| <= 200)
    ensures SubjectsOf(fields).Unnamed? <==> "subject_type" !in fields && "subject_ids" !in fields
    ensures SubjectsOf(fields).Named? ==>
              && SubjectsOf(fields).subjectType == fields["subject_type"].s
              && (SubjectsOf(fields).ids == [] <==> Listed(fields, "subject_ids") == [])
              && forall id :: id in SubjectsOf(fields).ids <==> Str(id) in Listed(fields, "subject_ids")
  {
    if "subject_type" in fields && fields["subject_type"].Str? { TypeNameIs(fields["subject_type"].s); }
    if "subject_ids" in fields && Ids(fields["subject_ids"]) { TextsAre(fields["subject_ids"].items); }
  }

  /** Exactly which payloads ask for a redaction, and that the directive read names exactly the ids they list. */
  lemma ParsedIff(payload: Json)
    ensures ParseDirective(payload).Absent? <==> !payload.Obj? || "redacts" !in payload.fields
    ensures ParseDirective(payload).Redacts? <==>
              payload.Obj? && "redacts" in payload.fields && payload.fields["redacts"].Obj? && AsksWell(payload.fields["redacts"].fields)
    ensures ParseDirective(payload).Redacts? ==>
              var d, fields := ParseDirective(payload).directive, payload.fields["redacts"].fields;
              && (forall id :: id in d.eventIds <==> Str(id) in Listed(fields, "event_ids"))
              && (forall id :: id in d.subjectIds <==> Str(id) in Listed(fields, "subject_ids"))
              && d.subjectType == if "subject_type" in fields then Some(fields["subject_type"].s) else None
  {
    if payload.Obj? && "redacts" in payload.fields && payload.fields["redacts"].Obj? {
      var fields := payload.fields["redacts"].fields;
      EventsRead(fields);
      SubjectsRead(fields);
    }
  }

  function Strings(ids: seq<string>): Json { Arr(seq(|ids|, i requires 0 <= i < |ids| => Str(ids[i]))) }

  /** The fields that ask for a directive. */
  function Render(d: Directive): map<string, Json> {
    if d.subjectType.Some?
    then map["event_ids" := Strings(d.eventIds), "subject_type" := Str(d.subjectType.value), "subject_ids" := Strings(d.subjectIds)]
    else map["event_ids" := Strings(d.eventIds)]
  }

  lemma TextsOfStrings(ids: seq<string>)
    ensures Strings(ids).items == [] <==> ids == []
    ensures Texts(Strings(ids).items) == ids
  {
  }

  lemma RenderedEvents(d: Directive)
    requires WellFormed(d)
    ensures EventIdsOf(Render(d)) == Some(d.eventIds)
  {
    TextsOfStrings(d.eventIds);
  }

  lemma RenderedSubjects(d: Directive)
    requires WellFormed(d)
    ensures SubjectsOf(Render(d)) == if d.subjectType.Some? then Named(d.subjectType.value, d.subjectIds) else Unnamed
  {
    TextsOfStrings(d.subjectIds);
  }

  /** Every well-formed directive can be asked for, and is read back as it is. */
  lemma DirectiveRoundTrip(d: Directive)
    requires WellFormed(d)
    ensures ParseDirective(Obj(map["redacts" := Obj(Render(d))])) == Redacts(d)
  {
    RenderedEvents(d);
    RenderedSubjects(d);
    assert ParseFields(Render(d)) == Redacts(d);
  }

  // ---------------------------------------------------------------- owners and tombstones

  predicate SameOwner(who: Columns, target: Columns) {
    target.source == who.source && target.projectId == who.projectId && target.env == who.env
  }

  predicate AppSource(s: string) {
    |s| == 30 && s[..4] == "app-" &&
    forall i | 4 <= i < 30 :: '0' <= s[i] <= '9' || ('a' <= s[i] <= 'z' && s[i] != 'i' && s[i] != 'l' && s[i] != 'o' && s[i] != 'u')
  }

  function Upper(s: string): string {
    seq(|s|, i requires 0 <= i < |s| => if 'a' <= s[i] <= 'z' then s[i] - 'a' + 'A' else s[i])
  }

  function TombstoneActor(r: Row): Actor {
    if r.c.projectId.Some? && AppSource(r.c.source) then Actor("app", "app_" + Upper(r.c.source[4..])) else Actor("service", r.c.source)
  }

  function TombstonePayload(who: string, at: int): Json {
    Obj(map["redacted" := Bool(true), "redacted_at" := Time(at), "redacted_by" := Str(who)])
  }

  /** The row with its tombstone columns. */
  function Tombstone(r: Row, who: string, at: int): Row {
    Row(r.c.(redactedAt := Some(at)), r.b.(payload := TombstonePayload(who, at), actor := TombstoneActor(r), redactedBy := Some(who)))
  }

  /** The row was never redacted and carries no directive itself. */
  predicate Redactable(r: Row) { r.c.redactedAt.None? && !r.c.redacts }

  /** What no redaction may touch: identity, position, topic, subject, owner, visibility, times, trace and depth. */
  predicate SameEnvelope(a: Row, b: Row) {
    a.c == b.c.(redactedAt := a.c.redactedAt) &&
    a.b == b.b.(payload := a.b.payload, actor := a.b.actor, redactedBy := a.b.redactedBy)
  }
}
