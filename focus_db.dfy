/** The data layer of `app/db.py` over in-memory tables. Its three tables carry a `date`
    column of their own and no unique constraint; ids come from `AUTOINCREMENT`, so every
    table is kept in id order and `lastId` plays the part of `sqlite_sequence`. */
module FocusDb {
  import opened Wrappers
  import opened Seqs
  import opened Text

  datatype GoalRow = GoalRow(id: int, date: string, title: string, done: int)
  datatype SessionRow = SessionRow(id: int, date: string, startTs: string, endTs: string, minutes: int)
  datatype DistractionRow = DistractionRow(id: int, date: string, ts: string, note: string)

  /** The longest note `add_distraction` stores (`note[:200]`). */
  const MaxNote := 200

  /** `(t or "")`: a missing value reads as the empty string. */
  function OrEmpty(t: Option<string>): string {
    if t.Some? then t.value else ""
  }

  // ---------------------------------------------------------------------------
  // Table invariants

  predicate GoalIdBelow(a: GoalRow, b: GoalRow) { a.id < b.id }
  predicate SessionIdBelow(a: SessionRow, b: SessionRow) { a.id < b.id }
  predicate DistractionIdBelow(a: DistractionRow, b: DistractionRow) { a.id < b.id }

  /** Goals: ids increasing and issued, non-empty titles, `done` in {0, 1}. */
  ghost predicate GoalsOk(rows: seq<GoalRow>, lastId: int) {
    SortedBy(rows, GoalIdBelow) &&
    forall g :: g in rows ==> g.id <= lastId && g.title != "" && (g.done == 0 || g.done == 1)
  }

  /** Sessions: ids increasing and issued, a positive number of minutes. */
  ghost predicate SessionsOk(rows: seq<SessionRow>, lastId: int) {
    SortedBy(rows, SessionIdBelow) &&
    forall s :: s in rows ==> s.id <= lastId && s.minutes > 0
  }

  /** Distractions: ids increasing and issued, a non-empty note of at most 200 characters. */
  ghost predicate DistractionsOk(rows: seq<DistractionRow>, lastId: int) {
    SortedBy(rows, DistractionIdBelow) &&
    forall x :: x in rows ==> x.id <= lastId && x.note != "" && |x.note| <= MaxNote
  }

  lemma GoalAppendOk(rows: seq<GoalRow>, lastId: int, g: GoalRow)
    requires GoalsOk(rows, lastId)
    requires g.id == lastId + 1 && g.title != "" && (g.done == 0 || g.done == 1)
    ensures GoalsOk(rows + [g], lastId + 1)
  {
    var r := rows + [g];
    forall i, j | 0 <= i < j < |r| ensures GoalIdBelow(r[i], r[j]) {
      assert r[i] == rows[i] && rows[i] in rows;
      if j < |rows| {
        assert r[j] == rows[j];
      }
    }
  }

  lemma SessionAppendOk(rows: seq<SessionRow>, lastId: int, s: SessionRow)
    requires SessionsOk(rows, lastId)
    requires s.id == lastId + 1 && s.minutes > 0
    ensures SessionsOk(rows + [s], lastId + 1)
  {
    var r := rows + [s];
    forall i, j | 0 <= i < j < |r| ensures SessionIdBelow(r[i], r[j]) {
      assert r[i] == rows[i] && rows[i] in rows;
      if j < |rows| {
        assert r[j] == rows[j];
      }
    }
  }

  lemma DistractionAppendOk(rows: seq<DistractionRow>, lastId: int, x: DistractionRow)
    requires DistractionsOk(rows, lastId)
    requires x.id == lastId + 1 && x.note != "" && |x.note| <= MaxNote
    ensures DistractionsOk(rows + [x], lastId + 1)
  {
    var r := rows + [x];
    forall i, j | 0 <= i < j < |r| ensures DistractionIdBelow(r[i], r[j]) {
      assert r[i] == rows[i] && rows[i] in rows;
      if j < |rows| {
        assert r[j] == rows[j];
      }
    }
  }

  // ---------------------------------------------------------------------------
  // `WHERE date = ?`

  function GoalOn(d: string): GoalRow -> bool {
    (g: GoalRow) => g.date == d
  }

  function GoalOff(d: string): GoalRow -> bool {
    (g: GoalRow) => g.date != d
  }

  function SessionOn(d: string): SessionRow -> bool {
    (s: SessionRow) => s.date == d
  }

  function DistractionOn(d: string): DistractionRow -> bool {
    (x: DistractionRow) => x.date == d
  }

  // ---------------------------------------------------------------------------
  // `upsert_goals`

  function CleanTitle(t: Option<string>): string {
    Strip(OrEmpty(t))
  }

  function NonEmpty(t: string): bool {
    t != ""
  }

  /** The titles the loop of `upsert_goals` inserts: each input stripped, the empty ones
      skipped, in input order. */
  function Kept(titles: seq<Option<string>>): seq<string> {
    Filter(MapSeq(titles, CleanTitle), NonEmpty)
  }

  /** The rows inserted for `titles`, with the ids that follow `lastId` and `done` 0. */
  function NewGoals(lastId: int, d: string, titles: seq<string>): (r: seq<GoalRow>)
    ensures |r| == |titles|
    decreases |titles|
  {
    if titles == [] then []
    else NewGoals(lastId, d, titles[..|titles| - 1]) + [GoalRow(lastId + |titles|, d, titles[|titles| - 1], 0)]
  }

  /** One more title adds one more row. */
  lemma NewGoalsSnoc(lastId: int, d: string, titles: seq<string>, t: string)
    ensures NewGoals(lastId, d, titles + [t]) ==
            NewGoals(lastId, d, titles) + [GoalRow(lastId + 1 + |titles|, d, t, 0)]
  {
    assert (titles + [t])[..|titles|] == titles;
  }

  /** Row `k` of the inserted rows carries title `k`, the `k`-th id after `lastId` and `done` 0. */
  lemma {:induction false} NewGoalsAt(lastId: int, d: string, titles: seq<string>, k: int)
    requires 0 <= k < |titles|
    ensures NewGoals(lastId, d, titles)[k] == GoalRow(lastId + 1 + k, d, titles[k], 0)
    decreases |titles|
  {
    if k < |titles| - 1 {
      NewGoalsAt(lastId, d, titles[..|titles| - 1], k);
    }
  }

  /** The loop step of `upsert_goals`: one more insert extends the inserted rows by one. */
  lemma InsertStep(g0: seq<GoalRow>, id0: int, d: string, added: seq<string>, t: string,
                   before: seq<GoalRow>, after: seq<GoalRow>)
    requires before == g0 + NewGoals(id0, d, added)
    requires after == before + [GoalRow(id0 + 1 + |added|, d, t, 0)]
    ensures after == g0 + NewGoals(id0, d, added + [t])
  {
    NewGoalsSnoc(id0, d, added, t);
    ConcatAssociative(g0, NewGoals(id0, d, added), [GoalRow(id0 + 1 + |added|, d, t, 0)]);
  }

  /** The goals table after `upsert_goals(d, titles)`. */
  function Upserted(rows: seq<GoalRow>, lastId: int, d: string, titles: seq<Option<string>>): seq<GoalRow> {
    Filter(rows, GoalOff(d)) + NewGoals(lastId, d, Kept(Take(titles, 3)))
  }

  /** One more input adds its stripped title when it is not empty. */
  lemma KeptSnoc(titles: seq<Option<string>>, i: int)
    requires 0 <= i < |titles|
    ensures Kept(titles[..i + 1]) ==
            Kept(titles[..i]) + (if CleanTitle(titles[i]) != "" then [CleanTitle(titles[i])] else [])
  {
    MapSeqSnoc(titles, CleanTitle, i);
    FilterConcat(MapSeq(titles[..i], CleanTitle), [CleanTitle(titles[i])], NonEmpty);
    FilterSingleton(CleanTitle(titles[i]), NonEmpty);
  }

  /** After `upsert_goals`, the goals of `d` are exactly the new rows: the kept titles in input
      order, with fresh increasing ids and `done` 0. */
  lemma UpsertedGoalsOfDate(rows: seq<GoalRow>, lastId: int, d: string, titles: seq<Option<string>>)
    ensures ListGoals(Upserted(rows, lastId, d, titles), d) == NewGoals(lastId, d, Kept(Take(titles, 3)))
  {
    var kept := Filter(rows, GoalOff(d));
    var ts := Kept(Take(titles, 3));
    var added := NewGoals(lastId, d, ts);
    FilterConcat(kept, added, GoalOn(d));
    FilterDropsAll(kept, GoalOn(d));
    forall k | 0 <= k < |added| ensures added[k].date == d {
      NewGoalsAt(lastId, d, ts, k);
    }
    FilterKeepsAll(added, GoalOn(d));
  }

  /** `upsert_goals` leaves the goals of every other date as they were. */
  lemma UpsertedOtherDate(rows: seq<GoalRow>, lastId: int, d: string, titles: seq<Option<string>>, e: string)
    requires e != d
    ensures ListGoals(Upserted(rows, lastId, d, titles), e) == ListGoals(rows, e)
  {
    var kept := Filter(rows, GoalOff(d));
    var ts := Kept(Take(titles, 3));
    var added := NewGoals(lastId, d, ts);
    FilterConcat(kept, added, GoalOn(e));
    forall k | 0 <= k < |added| ensures added[k].date == d {
      NewGoalsAt(lastId, d, ts, k);
    }
    FilterDropsAll(added, GoalOn(e));
    FilterNarrow(rows, GoalOff(d), GoalOn(e));
  }

  /** Deleting the goals of a date keeps the table invariant. */
  lemma GoalDeleteOk(rows: seq<GoalRow>, lastId: int, d: string)
    requires GoalsOk(rows, lastId)
    ensures GoalsOk(Filter(rows, GoalOff(d)), lastId)
  {
    FilterSorted(rows, GoalOff(d), GoalIdBelow);
  }

  // ---------------------------------------------------------------------------
  // `toggle_goal`

  /** `CASE done WHEN 0 THEN 1 ELSE 0 END`. */
  function FlipDone(done: int): (r: int)
    ensures r == 0 || r == 1
    ensures done == 0 <==> r == 1
  {
    if done == 0 then 1 else 0
  }

  /** The table after `UPDATE goals SET done = ... WHERE id = ?`. */
  function Toggled(rows: seq<GoalRow>, id: int): (r: seq<GoalRow>)
    ensures |r| == |rows|
    ensures forall k :: 0 <= k < |rows| && rows[k].id != id ==> r[k] == rows[k]
    ensures forall k :: 0 <= k < |rows| && rows[k].id == id ==> r[k] == rows[k].(done := FlipDone(rows[k].done))
  {
    seq(|rows|, k requires 0 <= k < |rows| =>
      if rows[k].id == id then rows[k].(done := FlipDone(rows[k].done)) else rows[k])
  }

  /** Toggling keeps the table invariant; in particular `done` stays in {0, 1}. */
  lemma ToggleOk(rows: seq<GoalRow>, lastId: int, id: int)
    requires GoalsOk(rows, lastId)
    ensures GoalsOk(Toggled(rows, id), lastId)
  {
    var r := Toggled(rows, id);
    forall i, j | 0 <= i < j < |r| ensures GoalIdBelow(r[i], r[j]) {
      assert GoalIdBelow(rows[i], rows[j]);
    }
    forall g | g in r ensures g.id <= lastId && g.title != "" && (g.done == 0 || g.done == 1) {
      var k :| 0 <= k < |r| && r[k] == g;
      assert rows[k] in rows;
    }
  }

  /** On a table whose `done` values are in {0, 1}, toggling twice restores it. */
  lemma ToggleTwice(rows: seq<GoalRow>, lastId: int, id: int)
    requires GoalsOk(rows, lastId)
    ensures Toggled(Toggled(rows, id), id) == rows
  {
    var r := Toggled(Toggled(rows, id), id);
    forall k | 0 <= k < |rows| ensures r[k] == rows[k] {
      assert rows[k] in rows;
    }
  }

  // ---------------------------------------------------------------------------
  // The listings

  /** `list_goals`: the goals of `d`, by id ascending (the order the table is kept in). */
  function ListGoals(rows: seq<GoalRow>, d: string): (r: seq<GoalRow>)
    ensures forall g :: g in r <==> g in rows && g.date == d
  {
    Filter(rows, GoalOn(d))
  }

  /** `list_distractions`: the distractions of `d`, by id descending. */
  function ListDistractions(rows: seq<DistractionRow>, d: string): (r: seq<DistractionRow>)
    ensures forall x :: x in r <==> x in rows && x.date == d
  {
    ReverseMembers(Filter(rows, DistractionOn(d)));
    Reverse(Filter(rows, DistractionOn(d)))
  }

  /** `list_sessions`: the sessions of `d`, by id descending. */
  function ListSessions(rows: seq<SessionRow>, d: string): (r: seq<SessionRow>)
    ensures forall s :: s in r <==> s in rows && s.date == d
  {
    ReverseMembers(Filter(rows, SessionOn(d)));
    Reverse(Filter(rows, SessionOn(d)))
  }

  lemma ListGoalsAscending(rows: seq<GoalRow>, lastId: int, d: string)
    requires GoalsOk(rows, lastId)
    ensures var r := ListGoals(rows, d); forall i, j :: 0 <= i < j < |r| ==> r[i].id < r[j].id
  {
    FilterSorted(rows, GoalOn(d), GoalIdBelow);
  }

  lemma ListDistractionsDescending(rows: seq<DistractionRow>, lastId: int, d: string)
    requires DistractionsOk(rows, lastId)
    ensures var r := ListDistractions(rows, d); forall i, j :: 0 <= i < j < |r| ==> r[i].id > r[j].id
  {
    var f := Filter(rows, DistractionOn(d));
    FilterSorted(rows, DistractionOn(d), DistractionIdBelow);
    var r := ListDistractions(rows, d);
    forall i, j | 0 <= i < j < |r| ensures r[i].id > r[j].id {
      assert DistractionIdBelow(f[|f| - 1 - j], f[|f| - 1 - i]);
    }
  }

  lemma ListSessionsDescending(rows: seq<SessionRow>, lastId: int, d: string)
    requires SessionsOk(rows, lastId)
    ensures var r := ListSessions(rows, d); forall i, j :: 0 <= i < j < |r| ==> r[i].id > r[j].id
  {
    var f := Filter(rows, SessionOn(d));
    FilterSorted(rows, SessionOn(d), SessionIdBelow);
    var r := ListSessions(rows, d);
    forall i, j | 0 <= i < j < |r| ensures r[i].id > r[j].id {
      assert SessionIdBelow(f[|f| - 1 - j], f[|f| - 1 - i]);
    }
  }

  // ---------------------------------------------------------------------------
  // Top distractions: `GROUP BY note ORDER BY c DESC, note ASC LIMIT 5`

  datatype NoteCount = NoteCount(note: string, count: int)

  /** The distinct notes of `notes`, in the order of their first occurrence. */
  function DistinctNotes(notes: seq<string>): (r: seq<string>)
    ensures forall n :: n in r <==> n in notes
    ensures NoDuplicates(r)
    decreases |notes|
  {
    if notes == [] then []
    else
      var init := notes[..|notes| - 1];
      var last := notes[|notes| - 1];
      assert notes == init + [last];
      var r := DistinctNotes(init);
      if last in r then r else r + [last]
  }

  /** `SELECT note, COUNT(*) AS c ... GROUP BY note`: one group per distinct note. */
  function Tally(notes: seq<string>): (r: seq<NoteCount>)
    ensures forall e :: e in r ==> e.note in notes && e.count == multiset(notes)[e.note]
    ensures forall n :: n in notes ==> NoteCount(n, multiset(notes)[n]) in r
    ensures NoDuplicates(r)
    ensures |r| == |DistinctNotes(notes)|
  {
    var ds := DistinctNotes(notes);
    var r := seq(|ds|, k requires 0 <= k < |ds| => NoteCount(ds[k], multiset(notes)[ds[k]]));
    forall n | n in notes ensures NoteCount(n, multiset(notes)[n]) in r {
      var k :| 0 <= k < |ds| && ds[k] == n;
      assert r[k] == NoteCount(n, multiset(notes)[n]);
    }
    assert forall i, j :: 0 <= i < j < |r| ==> r[i].note == ds[i] && r[j].note == ds[j];
    r
  }

  /** `ORDER BY c DESC, note ASC`. */
  predicate RankLe(a: NoteCount, b: NoteCount) {
    a.count > b.count || (a.count == b.count && LexLe(a.note, b.note))
  }

  lemma RankLeOrder()
    ensures Total(RankLe) && Transitive(RankLe)
  {
    forall a: NoteCount, b: NoteCount ensures RankLe(a, b) || RankLe(b, a) {
      LexLeTotal(a.note, b.note);
    }
    forall a: NoteCount, b: NoteCount, c: NoteCount | RankLe(a, b) && RankLe(b, c) ensures RankLe(a, c) {
      if a.count == b.count && b.count == c.count {
        LexLeTransitive(a.note, b.note, c.note);
      }
    }
  }

  /** The `top distractions` of the notes of one date. */
  function TopDistractions(notes: seq<string>): seq<NoteCount> {
    Take(Sort(Tally(notes), RankLe), 5)
  }

  /** Five groups, or one per distinct note when there are fewer; each with the number of
      occurrences of its note, no note twice, ranked by count descending and then note ascending. */
  lemma TopDistractionsRanked(notes: seq<string>)
    ensures var top := TopDistractions(notes);
            var distinct := |DistinctNotes(notes)|;
            |top| == (if distinct < 5 then distinct else 5) &&
            (forall e :: e in top ==> e.note in notes && e.count == multiset(notes)[e.note]) &&
            (forall i, j :: 0 <= i < j < |top| ==> top[i].note != top[j].note) &&
            SortedBy(top, RankLe)
  {
    var t := Tally(notes);
    var s := Sort(t, RankLe);
    RankLeOrder();
    SortSorted(t, RankLe);
    SameMembers(s, t);
    PermutationNoDuplicates(t, s);
    var top := TopDistractions(notes);
    forall e | e in top ensures e in t {
      var k :| 0 <= k < |top| && top[k] == e;
      assert s[k] == e;
    }
    forall i, j | 0 <= i < j < |top| ensures top[i].note != top[j].note {
      assert top[i] in top && top[j] in top;
    }
  }

  /** A note is left out only of a full top five, and ranks below every note in it; with at most five
      distinct notes none is left out. */
  lemma TopDistractionsComplete(notes: seq<string>, n: string)
    requires n in notes
    ensures var top := TopDistractions(notes);
            var g := NoteCount(n, multiset(notes)[n]);
            (g !in top ==> |top| == 5 && forall e :: e in top ==> RankLe(e, g) && e.count >= g.count) &&
            (|DistinctNotes(notes)| <= 5 ==> g in top)
  {
    var t := Tally(notes);
    var s := Sort(t, RankLe);
    var g := NoteCount(n, multiset(notes)[n]);
    var top := TopDistractions(notes);
    RankLeOrder();
    SortSorted(t, RankLe);
    SameMembers(s, t);
    var j :| 0 <= j < |s| && s[j] == g;
    if j < 5 {
      assert top[j] == g;
    } else {
      forall e | e in top ensures RankLe(e, g) {
        var i :| 0 <= i < |top| && top[i] == e;
        assert s[i] == e;
      }
    }
  }

  // ---------------------------------------------------------------------------
  // `report_summary`

  datatype Summary = Summary(date: string, totalMinutes: int, sessionCount: int,
                             distractionCount: int, topDistractions: seq<NoteCount>,
                             goalsDone: int, goalsTotal: int)

  function MinutesOf(s: SessionRow): int { s.minutes }
  function DoneOf(g: GoalRow): int { g.done }
  function NoteOf(x: DistractionRow): string { x.note }

  function WithNote(n: string): DistractionRow -> bool {
    (x: DistractionRow) => x.note == n
  }

  /** The notes of the distractions of `d`. */
  function NotesOn(rows: seq<DistractionRow>, d: string): seq<string> {
    MapSeq(Filter(rows, DistractionOn(d)), NoteOf)
  }

  /** `report_summary(d)`: `COALESCE(SUM(...), 0)` is a sum that is 0 over no rows. */
  function ReportSummary(goals: seq<GoalRow>, sessions: seq<SessionRow>,
                         distractions: seq<DistractionRow>, d: string): (r: Summary)
    ensures r.date == d
    ensures r.sessionCount == 0 ==> r.totalMinutes == 0
  {
    var ss := Filter(sessions, SessionOn(d));
    var gs := Filter(goals, GoalOn(d));
    Summary(d, SumOf(ss, MinutesOf), |ss|, |Filter(distractions, DistractionOn(d))|,
            TopDistractions(NotesOn(distractions, d)), SumOf(gs, DoneOf), |gs|)
  }

  /** On tables that keep their invariants, the counts are those of the listings, every
      session adds at least a minute, and the goals done never exceed the goals set. */
  lemma SummaryBounds(goals: seq<GoalRow>, goalId: int, sessions: seq<SessionRow>, sessionId: int,
                      distractions: seq<DistractionRow>, d: string)
    requires GoalsOk(goals, goalId) && SessionsOk(sessions, sessionId)
    ensures var r := ReportSummary(goals, sessions, distractions, d);
            r.sessionCount == |ListSessions(sessions, d)| &&
            r.distractionCount == |ListDistractions(distractions, d)| &&
            r.goalsTotal == |ListGoals(goals, d)| &&
            r.totalMinutes == SumOf(ListSessions(sessions, d), MinutesOf) &&
            r.totalMinutes >= r.sessionCount &&
            0 <= r.goalsDone <= r.goalsTotal
  {
    var ss := Filter(sessions, SessionOn(d));
    var gs := Filter(goals, GoalOn(d));
    assert forall k :: 0 <= k < |ss| ==> ss[k] in sessions;
    assert forall k :: 0 <= k < |gs| ==> gs[k] in goals;
    SumOfReverse(ss, MinutesOf);
    SumOfBounds(ss, MinutesOf, 1);
    SumOfBounds(gs, DoneOf, 0);
    SumOfAtMost(gs, DoneOf, 1);
  }

  /** One more session adds its minutes and one to the count of its own date's summary, and
      leaves the summary of every other date as it was. */
  lemma SummaryAfterSession(goals: seq<GoalRow>, sessions: seq<SessionRow>,
                            distractions: seq<DistractionRow>, d: string, row: SessionRow)
    ensures var r := ReportSummary(goals, sessions, distractions, d);
            ReportSummary(goals, sessions + [row], distractions, d) ==
              if row.date == d then r.(totalMinutes := r.totalMinutes + row.minutes,
                                       sessionCount := r.sessionCount + 1)
              else r
  {
    var r := ReportSummary(goals, sessions, distractions, d);
    var after := ReportSummary(goals, sessions + [row], distractions, d);
    var ss := Filter(sessions, SessionOn(d));
    SessionsOnSnoc(sessions, d, row);
    if row.date == d {
      SumOfConcat(ss, [row], MinutesOf);
      assert [row][..0] == [];
      assert after.totalMinutes == r.totalMinutes + row.minutes;
      assert after.sessionCount == r.sessionCount + 1;
      assert after == r.(totalMinutes := after.totalMinutes, sessionCount := after.sessionCount);
    } else {
      assert after.totalMinutes == r.totalMinutes && after.sessionCount == r.sessionCount;
    }
  }

  /** The sessions of `d` after one more row. */
  lemma SessionsOnSnoc(sessions: seq<SessionRow>, d: string, row: SessionRow)
    ensures Filter(sessions + [row], SessionOn(d)) ==
            if row.date == d then Filter(sessions, SessionOn(d)) + [row] else Filter(sessions, SessionOn(d))
  {
    FilterConcat(sessions, [row], SessionOn(d));
    FilterSingleton(row, SessionOn(d));
    assert Filter(sessions, SessionOn(d)) + [] == Filter(sessions, SessionOn(d));
  }

  /** The top distractions are those of the date's listing: the notes are the listed ones, each
      as often, and every group counts the listed distractions that carry its note. */
  lemma SummaryDistractions(goals: seq<GoalRow>, sessions: seq<SessionRow>,
                            distractions: seq<DistractionRow>, d: string)
    ensures var r := ReportSummary(goals, sessions, distractions, d);
            var listed := ListDistractions(distractions, d);
            r.topDistractions == TopDistractions(NotesOn(distractions, d)) &&
            multiset(NotesOn(distractions, d)) == multiset(MapSeq(listed, NoteOf)) &&
            r.distractionCount == |listed| &&
            forall e :: e in r.topDistractions ==>
                          e.count == |Filter(listed, WithNote(e.note))| && e.count >= 1
  {
    var notes := NotesOn(distractions, d);
    var listed := ListDistractions(distractions, d);
    MapSeqReverseMultiset(Filter(distractions, DistractionOn(d)), NoteOf);
    TopDistractionsRanked(notes);
    forall e | e in TopDistractions(notes)
      ensures e.count == |Filter(listed, WithNote(e.note))| && e.count >= 1
    {
      NoteCountIsRows(listed, e.note);
    }
  }

  /** The count of a note is the number of distraction rows of the date that carry it. */
  lemma {:induction false} NoteCountIsRows(rows: seq<DistractionRow>, n: string)
    ensures multiset(MapSeq(rows, NoteOf))[n] == |Filter(rows, WithNote(n))|
    decreases |rows|
  {
    if rows != [] {
      var init := rows[..|rows| - 1];
      var last := rows[|rows| - 1];
      NoteCountIsRows(init, n);
      assert rows == init + [last];
      FilterConcat(init, [last], WithNote(n));
      FilterSingleton(last, WithNote(n));
    }
  }

  // ---------------------------------------------------------------------------
  // The tables

  class Database {
    var goals: seq<GoalRow>
    var sessions: seq<SessionRow>
    var distractions: seq<DistractionRow>
    var lastGoalId: int
    var lastSessionId: int
    var lastDistractionId: int

    ghost predicate Valid()
      reads this
    {
      GoalsOk(goals, lastGoalId) && SessionsOk(sessions, lastSessionId) &&
      DistractionsOk(distractions, lastDistractionId)
    }

    /** `init_db` on a new file: three empty tables. */
    constructor ()
      ensures Valid() && goals == [] && sessions == [] && distractions == []
    {
      goals, sessions, distractions := [], [], [];
      lastGoalId, lastSessionId, lastDistractionId := 0, 0, 0;
    }

    method UpsertGoals(d: string, titles: seq<Option<string>>)
      requires Valid()
      modifies this
      ensures goals == Upserted(old(goals), old(lastGoalId), d, titles)
      ensures lastGoalId == old(lastGoalId) + |Kept(Take(titles, 3))|
      ensures sessions == old(sessions) && distractions == old(distractions)
      ensures lastSessionId == old(lastSessionId) && lastDistractionId == old(lastDistractionId)
      ensures Valid()
    {
      DeleteGoalsOf(d);
      InsertTitles(d, Take(titles, 3));
    }

    /** `DELETE FROM goals WHERE date = ?`. */
    method DeleteGoalsOf(d: string)
      requires Valid()
      modifies this
      ensures goals == Filter(old(goals), GoalOff(d)) && lastGoalId == old(lastGoalId)
      ensures sessions == old(sessions) && distractions == old(distractions)
      ensures lastSessionId == old(lastSessionId) && lastDistractionId == old(lastDistractionId)
      ensures Valid()
    {
      GoalDeleteOk(goals, lastGoalId, d);
      goals := Filter(goals, GoalOff(d));
    }

    /** The loop of `upsert_goals` over the (at most three) titles. */
    method InsertTitles(d: string, ts: seq<Option<string>>)
      requires Valid()
      modifies this
      ensures goals == old(goals) + NewGoals(old(lastGoalId), d, Kept(ts))
      ensures lastGoalId == old(lastGoalId) + |Kept(ts)|
      ensures sessions == old(sessions) && distractions == old(distractions)
      ensures lastSessionId == old(lastSessionId) && lastDistractionId == old(lastDistractionId)
      ensures Valid()
    {
      ghost var added: seq<string> := [];
      for i := 0 to |ts|
        invariant added == Kept(ts[..i])
        invariant goals == old(goals) + NewGoals(old(lastGoalId), d, added)
        invariant lastGoalId == old(lastGoalId) + |added|
        invariant sessions == old(sessions) && distractions == old(distractions)
        invariant lastSessionId == old(lastSessionId) && lastDistractionId == old(lastDistractionId)
        invariant Valid()
      {
        KeptSnoc(ts, i);
        var t := CleanTitle(ts[i]);
        if t != "" {
          InsertGoal(d, t, old(goals), old(lastGoalId), added);
          added := added + [t];
        } else {
          assert added + [] == added;
        }
      }
      assert ts[..|ts|] == ts;
    }

    /** `INSERT INTO goals(date, title, done) VALUES(?, ?, 0)`, the `added`-th insert of the
        loop that started on `g0` with `id0`. */
    method InsertGoal(d: string, t: string, ghost g0: seq<GoalRow>, ghost id0: int, ghost added: seq<string>)
      requires Valid() && t != ""
      requires goals == g0 + NewGoals(id0, d, added) && lastGoalId == id0 + |added|
      modifies this
      ensures goals == g0 + NewGoals(id0, d, added + [t]) && lastGoalId == id0 + |added| + 1
      ensures sessions == old(sessions) && distractions == old(distractions)
      ensures lastSessionId == old(lastSessionId) && lastDistractionId == old(lastDistractionId)
      ensures Valid()
    {
      var row := GoalRow(lastGoalId + 1, d, t, 0);
      GoalAppendOk(goals, lastGoalId, row);
      InsertStep(g0, id0, d, added, t, goals, goals + [row]);
      goals, lastGoalId := goals + [row], lastGoalId + 1;
    }

    method ToggleGoal(id: int)
      requires Valid()
      modifies this
      ensures goals == Toggled(old(goals), id)
      ensures lastGoalId == old(lastGoalId)
      ensures sessions == old(sessions) && distractions == old(distractions)
      ensures lastSessionId == old(lastSessionId) && lastDistractionId == old(lastDistractionId)
      ensures Valid()
    {
      ToggleOk(goals, lastGoalId, id);
      goals := Toggled(goals, id);
    }

    /** `add_distraction(d, note)` at local time `nowTs`. */
    method AddDistraction(d: string, note: Option<string>, nowTs: string)
      requires Valid()
      modifies this
      ensures var n := Strip(OrEmpty(note));
              if n == "" then distractions == old(distractions) && lastDistractionId == old(lastDistractionId)
              else distractions == old(distractions) + [DistractionRow(old(lastDistractionId) + 1, d, nowTs, Prefix(n, MaxNote))] &&
                   lastDistractionId == old(lastDistractionId) + 1
      ensures goals == old(goals) && sessions == old(sessions)
      ensures lastGoalId == old(lastGoalId) && lastSessionId == old(lastSessionId)
      ensures Valid()
    {
      var n := Strip(OrEmpty(note));
      if n == "" {
        return;
      }
      var row := DistractionRow(lastDistractionId + 1, d, nowTs, Prefix(n, MaxNote));
      DistractionAppendOk(distractions, lastDistractionId, row);
      distractions, lastDistractionId := distractions + [row], lastDistractionId + 1;
    }

    /** `add_session(d, start, end, minutes)`; the caller has already applied `int()`. */
    method AddSession(d: string, startTs: string, endTs: string, minutes: int)
      requires Valid()
      modifies this
      ensures if minutes <= 0 then sessions == old(sessions) && lastSessionId == old(lastSessionId)
              else sessions == old(sessions) + [SessionRow(old(lastSessionId) + 1, d, startTs, endTs, minutes)] &&
                   lastSessionId == old(lastSessionId) + 1
      ensures goals == old(goals) && distractions == old(distractions)
      ensures lastGoalId == old(lastGoalId) && lastDistractionId == old(lastDistractionId)
      ensures Valid()
    {
      if minutes <= 0 {
        return;
      }
      var row := SessionRow(lastSessionId + 1, d, startTs, endTs, minutes);
      SessionAppendOk(sessions, lastSessionId, row);
      sessions, lastSessionId := sessions + [row], lastSessionId + 1;
    }
  }
}
