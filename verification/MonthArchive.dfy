/**
 The month archive: the replay rows of a month are read page by page and exported to one object, checked as it was stored, deleted
 where they did not change, and restored from it.
 */
module MonthArchive {
  import opened Wrappers
  import opened Archive

  const FORMAT := "openvibe.events.archive@1"
  const CHUNK := 1000
  const DAY_MS := 86400000

  type Table = map<string, Archived>

  /** One line of an object: the hot row's columns, its epoch and when it left the hot store. */
  datatype Line = Line(row: Row, epoch: nat, archivedAt: int)

  datatype Manifest = Manifest(format: string, month: string, count: nat, digest: string)

  /** What the storage holds for one month. */
  datatype Stored = Stored(lines: Option<seq<Line>>, manifest: Option<Manifest>)

  datatype Fault = NotEnded | BadAge | OnlyOne | NotThisMonth | DigestMismatch | CountMismatch | NotTheOneWritten | RowMissing(id: string) | NoObject

  datatype Report = Report(exported: nat, count: nat, deleted: nat, changed: nat)

  function ToLine(a: Archived): Line { Line(Unpack(a), a.epoch, a.archivedAt) }

  function FromLine(l: Line, hold: int): Archived { Archived(l.row.c, Pack(l.row), l.epoch, l.archivedAt, Some(hold)) }

  function IdOf(l: Line): string { l.row.c.id }

  /** Lines by id; a later line replaces an earlier one. */
  function ById(lines: seq<Line>): map<string, Line> {
    if lines == [] then map[] else ById(lines[..|lines| - 1])[IdOf(lines[|lines| - 1]) := lines[|lines| - 1]]
  }

  function LinesOf(t: Table): map<string, Line> { map id | id in t :: ToLine(t[id]) }

  // ---------------------------------------------------------------- reading the month

  predicate Named(t: Table) { forall id | id in t :: t[id].c.id == id }

  predicate Before(a: Archived, b: Archived) { a.epoch < b.epoch || (a.epoch == b.epoch && a.c.pos < b.c.pos) }

  /** The unique index: one position per epoch. */
  predicate Unique(t: Table) { forall a, b | a in t && b in t && a != b :: Before(t[a], t[b]) || Before(t[b], t[a]) }

  predicate InMonth(a: Archived, start: int, cutoff: int) { start <= a.c.receivedAt < cutoff }

  function MonthIds(t: Table, start: int, cutoff: int): set<string> { set id | id in t && InMonth(t[id], start, cutoff) }

  predicate IsFirst(t: Table, ids: set<string>, id: string)
    requires ids <= t.Keys
  {
    id in ids && forall x | x in ids && x != id :: Before(t[id], t[x])
  }

  lemma {:induction false} FirstExists(t: Table, ids: set<string>)
    requires Unique(t) && ids <= t.Keys && ids != {}
    ensures exists id :: IsFirst(t, ids, id)
  {
    var a :| a in ids;
    if ids != {a} {
      FirstExists(t, ids - {a});
      var b :| IsFirst(t, ids - {a}, b);
      if Before(t[a], t[b]) { assert IsFirst(t, ids, a); } else { assert IsFirst(t, ids, b); }
    } else {
      assert IsFirst(t, ids, a);
    }
  }

  function First(t: Table, ids: set<string>): (id: string)
    requires Unique(t) && ids <= t.Keys && ids != {}
    ensures IsFirst(t, ids, id)
  {
    FirstExists(t, ids);
    var id :| IsFirst(t, ids, id);
    id
  }

  /** The first n rows of `ids`, by epoch and position. */
  function Page(t: Table, ids: set<string>, n: nat): seq<string>
    requires Unique(t) && ids <= t.Keys
  {
    if n == 0 || ids == {} then [] else [First(t, ids)] + Page(t, ids - {First(t, ids)}, n - 1)
  }

  /** Rows strictly after a position. */
  function After(t: Table, ids: set<string>, last: Archived): set<string>
    requires ids <= t.Keys
  {
    set id | id in ids && Before(last, t[id])
  }

  function SetOf(ids: seq<string>): set<string> { set id | id in ids }

  /** Nothing before the last row of the rest is after it, the first row included. */
  lemma AfterFirst(t: Table, ids: set<string>, last: string)
    requires Unique(t) && ids <= t.Keys && ids != {} && last in ids - {First(t, ids)}
    ensures After(t, ids, t[last]) == After(t, ids - {First(t, ids)}, t[last])
  {
    assert Before(t[First(t, ids)], t[last]);
  }

  lemma AfterAlone(t: Table, ids: set<string>)
    requires Unique(t) && ids <= t.Keys && ids != {}
    ensures After(t, ids, t[First(t, ids)]) == ids - {First(t, ids)}
  {
  }

  lemma SetOfBoth(a: seq<string>, b: seq<string>)
    ensures SetOf(a + b) == SetOf(a) + SetOf(b)
  {
  }

  lemma LastIsIn(a: seq<string>)
    requires a != []
    ensures a[|a| - 1] in SetOf(a)
  {
  }

  lemma BothCount<T>(a: set<T>, b: set<T>)
    requires a !! b
    ensures |a + b| == |a| + |b|
  {
  }

  /** A page is part of what is left, and a short page is all of it. */
  lemma {:induction false} PageIsPart(t: Table, ids: set<string>, n: nat)
    requires Unique(t) && ids <= t.Keys
    ensures var page := Page(t, ids, n);
      SetOf(page) <= ids && |SetOf(page)| == |page| <= n && (|page| < n ==> SetOf(page) == ids)
  {
    if n > 0 && ids != {} {
      var rest := ids - {First(t, ids)};
      PageIsPart(t, rest, n - 1);
      SetOfBoth([First(t, ids)], Page(t, rest, n - 1));
      assert SetOf([First(t, ids)]) == {First(t, ids)};
      BothCount({First(t, ids)}, SetOf(Page(t, rest, n - 1)));
    }
  }

  /** What follows a page's last row is the rest. */
  lemma {:induction false} PageSplits(t: Table, ids: set<string>, n: nat)
    requires Unique(t) && ids <= t.Keys && n > 0 && ids != {}
    ensures var page := Page(t, ids, n); page != [] && page[|page| - 1] in ids && After(t, ids, t[page[|page| - 1]]) == ids - SetOf(page)
  {
    var id, rest := First(t, ids), ids - {First(t, ids)};
    var tail := Page(t, rest, n - 1);
    SetOfBoth([id], tail);
    assert SetOf([id]) == {id};
    if tail == [] {
      AfterAlone(t, ids);
    } else {
      PageSplits(t, rest, n - 1);
      assert ([id] + tail)[|tail|] == tail[|tail| - 1];
      AfterFirst(t, ids, tail[|tail| - 1]);
    }
  }

  function LinesFor(t: Table, ids: set<string>): map<string, Line> { map id | id in ids && id in t :: ToLine(t[id]) }

  lemma LinesForEach(t: Table, ids: set<string>)
    requires ids <= t.Keys
    ensures |LinesFor(t, ids)| == |ids|
  {
    assert LinesFor(t, ids).Keys == ids;
  }

  lemma NextLine(t: Table, ids: set<string>, lines: seq<Line>, id: string)
    requires Named(t) && id in t && ById(lines) == LinesFor(t, ids)
    ensures ById(lines + [ToLine(t[id])]) == LinesFor(t, ids + {id})
  {
    assert (lines + [ToLine(t[id])])[..|lines|] == lines;
  }

  method AddLines(t: Table, found: seq<Line>, page: seq<string>, ghost read: set<string>) returns (more: seq<Line>)
    requires Named(t) && SetOf(page) <= t.Keys && ById(found) == LinesFor(t, read)
    ensures ById(more) == LinesFor(t, read + SetOf(page)) && |more| == |found| + |page|
  {
    more := found;
    for i := 0 to |page|
      invariant ById(more) == LinesFor(t, read + SetOf(page[..i])) && |more| == |found| + i
    {
      assert page[i] in SetOf(page);
      NextLine(t, read + SetOf(page[..i]), more, page[i]);
      assert read + SetOf(page[..i + 1]) == read + SetOf(page[..i]) + {page[i]};
      more := more + [ToLine(t[page[i]])];
    }
    assert page[..|page|] == page;
  }

  /** What was read, and what is left to read. */
  predicate Reading(t: Table, all: set<string>, read: set<string>, left: set<string>) { left <= t.Keys && all == read + left && read !! left }

  predicate Holds(t: Table, found: seq<Line>, read: set<string>) { ById(found) == LinesFor(t, read) && |found| == |read| }

  lemma PageCounts(t: Table, read: set<string>, left: set<string>, n: nat)
    requires Unique(t) && left <= t.Keys && read !! left
    ensures |read + SetOf(Page(t, left, n))| == |read| + |Page(t, left, n)|
  {
    PageIsPart(t, left, n);
    BothCount(read, SetOf(Page(t, left, n)));
  }

  /** What a page leaves to read: nothing after a short one, else the rows after its last. */
  lemma PageLeaves(t: Table, left: set<string>, n: nat)
    requires n > 0 && Unique(t) && left <= t.Keys
    ensures var page := Page(t, left, n);
      && SetOf(page) <= left && (|page| < n ==> SetOf(page) == left)
      && (|page| >= n ==> SetOf(page) != {} && page[|page| - 1] in t && After(t, left, t[page[|page| - 1]]) == left - SetOf(page))
  {
    var page := Page(t, left, n);
    PageIsPart(t, left, n);
    if |page| >= n {
      LastIsIn(page);
      PageSplits(t, left, n);
    }
  }

  lemma PartIsRead(t: Table, all: set<string>, read: set<string>, left: set<string>, part: set<string>)
    requires Reading(t, all, read, left) && part <= left
    ensures Reading(t, all, read + part, left - part) && (part == left ==> read + part == all) && (part != {} ==> left - part < left)
  {
  }

  lemma PageIsRead(t: Table, all: set<string>, read: set<string>, left: set<string>, page: seq<string>, n: nat)
    requires n > 0 && Unique(t) && Reading(t, all, read, left) && page == Page(t, left, n)
    ensures SetOf(page) <= t.Keys && (|page| < n ==> read + SetOf(page) == all)
    ensures |page| >= n ==>
              page[|page| - 1] in t &&
              var rest := After(t, left, t[page[|page| - 1]]); Reading(t, all, read + SetOf(page), rest) && rest < left
  {
    PageLeaves(t, left, n);
    PartIsRead(t, all, read, left, SetOf(page));
  }

  lemma NothingHeld(t: Table)
    ensures Holds(t, [], {})
  {
  }

  /** One more page of lines. */
  method ReadPage(t: Table, found: seq<Line>, page: seq<string>, ghost read: set<string>, ghost left: set<string>, ghost n: nat) returns (more: seq<Line>)
    requires Unique(t) && Named(t) && left <= t.Keys && read !! left && page == Page(t, left, n) && SetOf(page) <= t.Keys
    requires Holds(t, found, read)
    ensures Holds(t, more, read + SetOf(page))
  {
    PageCounts(t, read, left, n);
    more := AddLines(t, found, page, read);
  }

  /** The rows of the month, page after page from a moving position. */
  method ReadMonth(t: Table, start: int, cutoff: int) returns (found: seq<Line>)
    requires Unique(t) && Named(t)
    ensures ById(found) == LinesFor(t, MonthIds(t, start, cutoff)) && |found| == |ById(found)|
  {
    found := [];
    var left := MonthIds(t, start, cutoff);
    ghost var all, read := left, {};
    NothingHeld(t);
    while true
      invariant Reading(t, all, read, left) && Holds(t, found, read)
      decreases left
    {
      var page := Page(t, left, CHUNK);
      PageIsRead(t, all, read, left, page, CHUNK);
      found := ReadPage(t, found, page, read, left, CHUNK);
      read := read + SetOf(page);
      if |page| < CHUNK {
        LinesForEach(t, all);
        return;
      }
      left := After(t, left, t[page[|page| - 1]]);
    }
  }

  // ---------------------------------------------------------------- the object

  function ReadObject(s: Stored, month: string, digest: seq<Line> -> string): Result<Option<seq<Line>>, Fault> {
    if s.lines.None? && s.manifest.None? then Ok(None)
    else if s.lines.None? || s.manifest.None? then Err(OnlyOne)
    else if s.manifest.value.format != FORMAT || s.manifest.value.month != month then Err(NotThisMonth)
    else if digest(s.lines.value) != s.manifest.value.digest then Err(DigestMismatch)
    else if |s.lines.value| != s.manifest.value.count then Err(CountMismatch)
    else Ok(Some(s.lines.value))
  }

  function Written(lines: seq<Line>, month: string, digest: seq<Line> -> string): Stored {
    Stored(Some(lines), Some(Manifest(FORMAT, month, |lines|, digest(lines))))
  }

  ghost predicate Injective(digest: seq<Line> -> string) { forall a, b :: digest(a) == digest(b) ==> a == b }

  /** An object reads back what was written, and only that carries its digest. */
  lemma ReadsBackWritten(s: Stored, lines: seq<Line>, month: string, digest: seq<Line> -> string)
    requires Injective(digest)
    ensures ReadObject(Written(lines, month, digest), month, digest) == Ok(Some(lines))
    ensures ReadObject(s, month, digest).Ok? && s.manifest.Some? && s.manifest.value.digest == digest(lines) ==>
              ReadObject(s, month, digest) == Ok(Some(lines))
    ensures ReadObject(s, month, digest) == Ok(Some(lines)) <==>
              s == Stored(Some(lines), Some(Manifest("openvibe.events.archive@1", month, |lines|, digest(lines))))
    ensures ReadObject(s, month, digest) == Ok(None) <==> s == Stored(None, None)
  {
  }

  predicate LineBefore(a: Line, b: Line) { a.epoch < b.epoch || (a.epoch == b.epoch && a.row.c.pos <= b.row.c.pos) }

  predicate Keyed(m: map<string, Line>) { forall id | id in m :: IdOf(m[id]) == id }

  lemma {:induction false} ByIdIsKeyed(lines: seq<Line>)
    ensures Keyed(ById(lines)) && forall id | id in ById(lines) :: ById(lines)[id] in lines
  {
    if lines != [] { ByIdIsKeyed(lines[..|lines| - 1]); }
  }

  predicate Sorted(lines: seq<Line>) { forall i, j | 0 <= i < j < |lines| :: LineBefore(lines[i], lines[j]) }

  predicate AllBefore(lines: seq<Line>, l: Line) { forall i | 0 <= i < |lines| :: LineBefore(lines[i], l) }

  predicate IsLeast(m: map<string, Line>, ids: set<string>, id: string)
    requires ids <= m.Keys
  {
    id in ids && forall x | x in ids :: LineBefore(m[id], m[x])
  }

  lemma OneMoreSorted(m: map<string, Line>, lines: seq<Line>, left: set<string>, id: string)
    requires left <= m.Keys && IsLeast(m, left, id) && Sorted(lines) && forall x | x in left :: AllBefore(lines, m[x])
    ensures Sorted(lines + [m[id]]) && forall x | x in left - {id} :: AllBefore(lines + [m[id]], m[x])
  {
    assert AllBefore(lines, m[id]);
  }

  lemma OneMore(m: map<string, Line>, lines: seq<Line>, done: set<string>, id: string)
    requires Keyed(m) && id in m && id !in done
    requires ById(lines) == (map x | x in m && x in done :: m[x]) && |lines| == |done|
    ensures var more := lines + [m[id]]; ById(more) == (map x | x in m && x in done + {id} :: m[x]) && |more| == |done + {id}|
  {
    assert (lines + [m[id]])[..|lines|] == lines;
  }

  /** The merged lines in order of epoch and position, each once. */
  method Arrange(m: map<string, Line>) returns (lines: seq<Line>)
    requires Keyed(m)
    ensures ById(lines) == m && |lines| == |m| && Sorted(lines)
    ensures forall i, j | 0 <= i < j < |lines| ::
              lines[i].epoch < lines[j].epoch || (lines[i].epoch == lines[j].epoch && lines[i].row.c.pos <= lines[j].row.c.pos)
  {
    lines := [];
    var left := m.Keys;
    ghost var done: set<string> := {};
    while left != {}
      invariant done !! left && done + left == m.Keys
      invariant ById(lines) == (map x | x in m && x in done :: m[x]) && |lines| == |done|
      invariant Sorted(lines) && forall x | x in left :: AllBefore(lines, m[x])
      decreases left
    {
      LeastExists(m, left);
      var id :| id in left && IsLeast(m, left, id);
      OneMoreSorted(m, lines, left, id);
      OneMore(m, lines, done, id);
      lines := lines + [m[id]];
      left := left - {id};
      done := done + {id};
    }
    assert done == m.Keys;
    assert (map x | x in m && x in done :: m[x]) == m;
  }

  lemma {:induction false} LeastExists(m: map<string, Line>, ids: set<string>)
    requires ids <= m.Keys && ids != {}
    ensures exists id :: id in ids && IsLeast(m, ids, id)
  {
    var a :| a in ids;
    if ids != {a} {
      LeastExists(m, ids - {a});
      var b :| b in ids - {a} && IsLeast(m, ids - {a}, b);
      assert ids == (ids - {a}) + {a};
      if LineBefore(m[a], m[b]) { assert IsLeast(m, ids, a); } else { assert IsLeast(m, ids, b); }
    } else {
      assert IsLeast(m, ids, a);
    }
  }

  // ---------------------------------------------------------------- deleting what was exported

  /** Rows that still are as they were read, by their redaction marker. */
  function Unchanged(t: Table, found: map<string, Line>): set<string> {
    set id | id in found && id in t && t[id].c.redactedAt == found[id].row.c.redactedAt
  }

  function Without(t: Table, ids: set<string>): Table { map id | id in t && id !in ids :: t[id] }

  /** A chunk's rows that are as they were read. */
  function Same(t: Table, lines: map<string, Line>, part: set<string>): set<string>
    requires part <= lines.Keys
  {
    set id | id in part && id in t && t[id].c.redactedAt == lines[id].row.c.redactedAt
  }

  /** What the chunks so far deleted, and what they found. */
  predicate Counted(t: Table, lines: map<string, Line>, left: set<string>, deleted: nat, changed: nat) {
    deleted == |Unchanged(t, lines) - left| && deleted + changed == |(lines.Keys - left) * t.Keys|
  }

  lemma NothingCounted(t: Table, lines: map<string, Line>)
    ensures Counted(t, lines, lines.Keys, 0, 0) && Without(t, Unchanged(t, lines) - lines.Keys) == t
  {
    assert Unchanged(t, lines) - lines.Keys == {} && (lines.Keys - lines.Keys) * t.Keys == {};
  }

  lemma AllCounted(t: Table, lines: map<string, Line>, deleted: nat, changed: nat)
    requires Counted(t, lines, {}, deleted, changed)
    ensures deleted == |Unchanged(t, lines)| && deleted + changed == |lines.Keys * t.Keys|
    ensures Unchanged(t, lines) - {} == Unchanged(t, lines)
  {
    assert Unchanged(t, lines) - {} == Unchanged(t, lines) && lines.Keys - {} == lines.Keys;
  }

  lemma ChunkDeletes(t: Table, lines: map<string, Line>, left: set<string>, part: set<string>)
    requires part <= left <= lines.Keys
    ensures |Unchanged(t, lines) - left| + |Same(t, lines, part)| == |Unchanged(t, lines) - (left - part)|
  {
    assert Unchanged(t, lines) - (left - part) == (Unchanged(t, lines) - left) + Same(t, lines, part);
    BothCount(Unchanged(t, lines) - left, Same(t, lines, part));
  }

  lemma ChunkFinds(keys: set<string>, lines: set<string>, left: set<string>, part: set<string>)
    requires part <= left <= lines
    ensures |(lines - left) * keys| + |part * keys| == |(lines - (left - part)) * keys|
  {
    assert (lines - (left - part)) * keys == ((lines - left) * keys) + (part * keys);
    BothCount((lines - left) * keys, part * keys);
  }

  lemma ChunkCounted(t: Table, lines: map<string, Line>, left: set<string>, part: set<string>, deleted: nat, changed: nat)
    requires part <= left <= lines.Keys && Counted(t, lines, left, deleted, changed)
    ensures var same := Same(t, lines, part);
      Counted(t, lines, left - part, deleted + |same|, changed + |(part * t.Keys) - same|)
  {
    var same := Same(t, lines, part);
    ChunkDeletes(t, lines, left, part);
    ChunkFinds(t.Keys, lines.Keys, left, part);
    BothCount(same, (part * t.Keys) - same);
    assert part * t.Keys == same + ((part * t.Keys) - same);
  }

  /** A chunk finds its rows as they were before the earlier chunks, and leaves the table without its own. */
  lemma ChunkDeleted(t: Table, lines: map<string, Line>, left: set<string>, part: set<string>)
    requires part <= left <= lines.Keys
    ensures var now := Without(t, Unchanged(t, lines) - left);
      && Same(now, lines, part) == Same(t, lines, part) && part * now.Keys == part * t.Keys
      && Without(now, Same(t, lines, part)) == Without(t, Unchanged(t, lines) - (left - part))
  {
  }

  /** Chunk after chunk: lock the rows, delete those whose marker did not move. */
  method DeleteExported(t: Table, found: seq<Line>) returns (after: Table, deleted: nat, changed: nat)
    ensures after == Without(t, Unchanged(t, ById(found)))
    ensures deleted == |Unchanged(t, ById(found))| && deleted + changed == |ById(found).Keys * t.Keys|
  {
    after, deleted, changed := t, 0, 0;
    var lines := ById(found);
    var left := lines.Keys;
    NothingCounted(t, lines);
    while left != {}
      invariant left <= lines.Keys
      invariant after == Without(t, Unchanged(t, lines) - left)
      invariant Counted(t, lines, left, deleted, changed)
      decreases |left|
    {
      var part := TakeSome(left);
      var same := Same(after, lines, part);
      ChunkDeleted(t, lines, left, part);
      ChunkCounted(t, lines, left, part, deleted, changed);
      changed := changed + |(part * after.Keys) - same|;
      deleted := deleted + |same|;
      after := Without(after, same);
      left := left - part;
    }
    AllCounted(t, lines, deleted, changed);
  }

  /** At most a chunk of what is left, and something. */
  method TakeSome(left: set<string>) returns (part: set<string>)
    requires left != {}
    ensures part <= left && part != {} && |part| <= CHUNK && |left - part| < |left|
  {
    part := {};
    var n := 0;
    while n < CHUNK && left - part != {}
      invariant part <= left && |part| == n <= CHUNK && (n > 0 ==> part != {})
    {
      var id :| id in left - part;
      part := part + {id};
      n := n + 1;
    }
    assert left == part + (left - part);
  }

  // ---------------------------------------------------------------- export and restore

  /** What an export finds in the table. */
  function Found(t: Table, start: int, cutoff: int): map<string, Line> { LinesFor(t, MonthIds(t, start, cutoff)) }

  /** Restored rows are held; a row still in the table stays as it is. */
  function Restored(t: Table, lines: map<string, Line>, hold: int): Table { Held(lines, hold) + t }

  function LinesIn(read: Option<seq<Line>>): map<string, Line> { if read.Some? then ById(read.value) else map[] }

  function Cutoff(end: int, now: int, days: int): int { if end <= now - days * DAY_MS then end else now - days * DAY_MS }

  /** The row was received in the month and longer ago than the given days. */
  predicate IsOldEnough(a: Archived, start: int, end: int, now: int, days: int) {
    start <= a.c.receivedAt < end && a.c.receivedAt < now - days * 86400000
  }

  /**
   What an export took from the table, in columns: rows that were there when it read, received in the month and old enough, and not
   redacted since.
   */
  predicate TakesOldEnough(before: Table, meanwhile: Table, after: Table, start: int, end: int, now: int, days: int) {
    && after.Keys <= meanwhile.Keys
    && forall id | id in meanwhile ::
         && (id !in after <==>
               id in before && IsOldEnough(before[id], start, end, now, days) && before[id].c.redactedAt == meanwhile[id].c.redactedAt)
         && (id in after ==> after[id] == meanwhile[id])
  }

  lemma OldEnoughIsTaken(before: Table, meanwhile: Table, start: int, end: int, now: int, days: int)
    requires Named(before)
    ensures var found := Found(before, start, Cutoff(end, now, days));
      TakesOldEnough(before, meanwhile, Without(meanwhile, Unchanged(meanwhile, found)), start, end, now, days)
  {
  }

  lemma NothingTaken(meanwhile: Table)
    ensures Without(meanwhile, Unchanged(meanwhile, map[])) == meanwhile
  {
    assert Unchanged(meanwhile, map[]) == {};
  }

  /** What an export reports: rows read, lines stored, rows deleted, and rows left because they changed. */
  predicate Tallies(r: Report, had: map<string, Line>, found: map<string, Line>, meanwhile: Table) {
    && r.exported == |found| && r.count == |had + found|
    && r.deleted == |Unchanged(meanwhile, found)| && r.deleted + r.changed == |found.Keys * meanwhile.Keys|
  }

  lemma NothingTallied(meanwhile: Table)
    ensures Tallies(Report(0, 0, 0, 0), map[], map[], meanwhile)
  {
    var none: map<string, Line> := map[];
    assert none + none == none && none.Keys * meanwhile.Keys == {} && Unchanged(meanwhile, none) == {};
  }

  method FindMonth(t: Table, start: int, cutoff: int) returns (found: seq<Line>)
    requires Unique(t) && Named(t)
    ensures ById(found) == Found(t, start, cutoff) && |found| == |ById(found)|
  {
    found := [];
    if cutoff > start { found := ReadMonth(t, start, cutoff); }
    assert cutoff <= start ==> Found(t, start, cutoff) == map[];
  }

  class Job {
    var replay: Table
    var storage: Stored

    constructor (t: Table, s: Stored)
      ensures replay == t && storage == s
    {
      replay, storage := t, s;
    }

    /**
     Export one month. Other transactions leave the table as `meanwhile` between the reads and the deletes; the storage
     holds `kept` after the two writes.
     */
    method Export(month: string, start: int, end: int, now: int, days: int, digest: seq<Line> -> string, meanwhile: Table, kept: Stored)
      returns (r: Result<Report, Fault>)
      requires Unique(replay) && Named(replay) && Injective(digest)
      modifies this
      ensures r.Err? ==> replay == meanwhile
      ensures end > now ==> r == Err(NotEnded)
      ensures r.Ok? ==>
                var found, had := Found(old(replay), start, Cutoff(end, now, days)), ReadObject(old(storage), month, digest);
                && had.Ok? && days >= 0
                && (if found == map[] && had.value.None? then replay == meanwhile && storage == old(storage)
                    else
                      && storage == kept && kept.lines.Some? && ById(kept.lines.value) == LinesIn(had.value) + found
                      && replay == Without(meanwhile, Unchanged(meanwhile, found)))
                && Tallies(r.value, LinesIn(had.value), found, meanwhile)
      ensures r.Ok? ==> TakesOldEnough(old(replay), meanwhile, replay, start, end, now, days)
    {
      var table := replay;
      replay := meanwhile;
      if end > now { return Err(NotEnded); }
      if days < 0 { return Err(BadAge); }
      var cutoff := Cutoff(end, now, days);
      var found := FindMonth(table, start, cutoff);
      SomeFound(found);
      OldEnoughIsTaken(table, meanwhile, start, end, now, days);
      var had := ReadObject(storage, month, digest);
      if had.Err? { return Err(had.error); }
      if found == [] && had.value.None? {
        NothingTallied(meanwhile);
        NothingTaken(meanwhile);
        return Ok(Report(0, 0, 0, 0));
      }
      r := StoreAndDelete(month, had.value, found, digest, kept);
    }

    /** Nothing is deleted before what is stored was read back and compared. */
    method StoreAndDelete(month: string, had: Option<seq<Line>>, found: seq<Line>, digest: seq<Line> -> string, kept: Stored)
      returns (r: Result<Report, Fault>)
      requires Injective(digest) && |found| == |ById(found)|
      modifies this
      ensures r.Err? ==> replay == old(replay)
      ensures r.Ok? ==>
                && storage == kept && kept.lines.Some? && ById(kept.lines.value) == LinesIn(had) + ById(found)
                && replay == Without(old(replay), Unchanged(old(replay), ById(found)))
                && Tallies(r.value, LinesIn(had), ById(found), old(replay))
    {
      var count := WriteAndVerify(month, had, found, digest, kept);
      if count.Err? { return Err(count.error); }
      var deleted, changed;
      replay, deleted, changed := DeleteExported(replay, found);
      r := Ok(Report(|found|, count.value, deleted, changed));
    }

    /** The month's object is written whole, read back, and compared with what the database gave. */
    method WriteAndVerify(month: string, had: Option<seq<Line>>, found: seq<Line>, digest: seq<Line> -> string, kept: Stored)
      returns (r: Result<nat, Fault>)
      requires Injective(digest)
      modifies this`storage
      ensures r.Ok? ==>
                storage == kept && kept.lines.Some? && ById(kept.lines.value) == LinesIn(had) + ById(found) && r.value == |kept.lines.value|
                && r.value == |LinesIn(had) + ById(found)|
    {
      var merged := Merge(LinesIn(had), found);
      MergedIsKeyed(had, found);
      var lines := Arrange(merged);
      storage := kept;
      var back := ReadObject(kept, month, digest);
      if back.Err? { return Err(back.error); }
      if back.value.None? || kept.manifest.value.digest != digest(lines) { return Err(NotTheOneWritten); }
      ReadsBackWritten(kept, lines, month, digest);
      var missing := FirstMissing(found, ById(back.value.value));
      if missing.Some? { return Err(RowMissing(missing.value)); }
      r := Ok(|lines|);
    }

    /** Restore one month: the object's lines go in where no row has their id. */
    method Restore(month: string, digest: seq<Line> -> string, hold: int) returns (r: Result<(nat, nat), Fault>)
      modifies this`replay
      ensures r.Ok? ==>
                var read := ReadObject(storage, month, digest);
                && read.Ok? && read.value.Some?
                && (|read.value.value| == |ById(read.value.value)| ==> replay == Restored(old(replay), ById(read.value.value), hold))
                && r.value.0 <= |read.value.value| && r.value.1 == |read.value.value| - r.value.0
      ensures r.Err? ==> replay == old(replay)
    {
      var read := ReadObject(storage, month, digest);
      if read.Err? { return Err(read.error); }
      if read.value.None? { return Err(NoObject); }
      var inserted;
      replay, inserted := PutBack(replay, read.value.value, hold);
      r := Ok((inserted, |read.value.value| - inserted));
    }
  }

  function Held(lines: map<string, Line>, hold: int): Table { map id | id in lines :: FromLine(lines[id], hold) }

  lemma HeldNext(lines: map<string, Line>, l: Line, hold: int)
    ensures Held(lines[IdOf(l) := l], hold) == Held(lines, hold)[IdOf(l) := FromLine(l, hold)]
  {
  }

  lemma ByIdNext(lines: seq<Line>, i: nat)
    requires i < |lines|
    ensures ById(lines[..i + 1]) == ById(lines[..i])[IdOf(lines[i]) := lines[i]]
  {
    assert lines[..i + 1][..i] == lines[..i];
  }

  lemma PutOne(t: Table, m: map<string, Line>, l: Line, hold: int)
    requires IdOf(l) !in m
    ensures var before := Restored(t, m, hold);
      Restored(t, m[IdOf(l) := l], hold) == if IdOf(l) in before then before else before[IdOf(l) := FromLine(l, hold)]
  {
    HeldNext(m, l, hold);
    OverNext(Held(m, hold), t, IdOf(l), FromLine(l, hold));
  }

  lemma PutNext(t: Table, lines: seq<Line>, i: nat, hold: int)
    requires i < |lines| && |lines| == |ById(lines)|
    ensures var l, before := lines[i], Restored(t, ById(lines[..i]), hold);
      Restored(t, ById(lines[..i + 1]), hold) == if IdOf(l) in before then before else before[IdOf(l) := FromLine(l, hold)]
  {
    EachOnce(lines, i);
    ByIdNext(lines, i);
    PutOne(t, ById(lines[..i]), lines[i], hold);
  }

  lemma OverNext(a: Table, t: Table, id: string, row: Archived)
    requires id !in a
    ensures a[id := row] + t == if id in a + t then a + t else (a + t)[id := row]
  {
  }

  /** INSERT … ON CONFLICT DO NOTHING, line by line. */
  method PutBack(t: Table, lines: seq<Line>, hold: int) returns (after: Table, inserted: nat)
    ensures |lines| == |ById(lines)| ==> after == Restored(t, ById(lines), hold)
    ensures inserted <= |lines|
  {
    after, inserted := t, 0;
    assert Restored(t, map[], hold) == t;
    for i := 0 to |lines|
      invariant inserted <= i
      invariant |lines| == |ById(lines)| ==> after == Restored(t, ById(lines[..i]), hold)
    {
      if |lines| == |ById(lines)| { PutNext(t, lines, i, hold); }
      var l := lines[i];
      if IdOf(l) !in after {
        after := after[IdOf(l) := FromLine(l, hold)];
        inserted := inserted + 1;
      }
    }
    assert lines[..|lines|] == lines;
  }

  lemma MergedIsKeyed(had: Option<seq<Line>>, found: seq<Line>)
    ensures Keyed(LinesIn(had) + ById(found))
  {
    if had.Some? { ByIdIsKeyed(had.value); }
    ByIdIsKeyed(found);
  }

  lemma SomeFound(found: seq<Line>)
    ensures found == [] <==> ById(found) == map[]
  {
    if found != [] { assert IdOf(found[|found| - 1]) in ById(found); }
  }

  /** What the database still has replaces its line. */
  method Merge(had: map<string, Line>, found: seq<Line>) returns (merged: map<string, Line>)
    ensures merged == had + ById(found)
  {
    merged := had;
    for i := 0 to |found|
      invariant merged == had + ById(found[..i])
    {
      assert found[..i + 1][..i] == found[..i];
      merged := merged[IdOf(found[i]) := found[i]];
    }
    assert found[..|found|] == found;
  }

  method FirstMissing(found: seq<Line>, stored: map<string, Line>) returns (id: Option<string>)
    ensures id.None? <==> forall l | l in found :: IdOf(l) in stored && stored[IdOf(l)] == l
    ensures id.Some? ==> exists l | l in found :: IdOf(l) == id.value && (id.value !in stored || stored[id.value] != l)
  {
    for i := 0 to |found|
      invariant forall j | 0 <= j < i :: IdOf(found[j]) in stored && stored[IdOf(found[j])] == found[j]
    {
      var l := found[i];
      if IdOf(l) !in stored || stored[IdOf(l)] != l { return Some(IdOf(l)); }
    }
    id := None;
  }

  lemma {:induction false} FewerIds(lines: seq<Line>)
    ensures |ById(lines)| <= |lines|
  {
    if lines != [] {
      var front, l := lines[..|lines| - 1], lines[|lines| - 1];
      FewerIds(front);
      assert ById(lines).Keys == ById(front).Keys + {IdOf(l)};
    }
  }

  /** When there are as many ids as lines, each line brings a new id. */
  lemma {:induction false} EachOnce(lines: seq<Line>, i: nat)
    requires |lines| == |ById(lines)| && i < |lines|
    ensures IdOf(lines[i]) !in ById(lines[..i])
  {
    var front, l := lines[..|lines| - 1], lines[|lines| - 1];
    FewerIds(front);
    assert ById(lines).Keys == ById(front).Keys + {IdOf(l)};
    if i < |front| {
      EachOnce(front, i);
      assert front[..i] == lines[..i];
    } else {
      assert lines[..i] == front;
    }
  }
}
