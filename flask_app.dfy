/** The record rules of the Flask server in `run.py`, over in-memory tables: the per-date
    queries, the goal and session statistics, the writes behind the form posts, and the
    7-day report. A table is a sequence of rows in insertion order; each table keeps the last
    id it handed out (`AUTOINCREMENT`). */
module FlaskApp {
  import opened Wrappers
  import opened Seqs
  import opened Text

  datatype Session = Session(id: int, startTs: string, endTs: string, minutes: int)
  datatype Distraction = Distraction(id: int, ts: string, note: string)
  datatype Goal = Goal(id: int, goalDate: string, slot: int, title: string, done: int)

  // ---------------------------------------------------------------------------
  // Per-date queries (`q_sessions_for_date`, `q_distractions_for_date`, `q_goals_for_date`)

  /** `substr(ts, 1, 10)`: the date part of an ISO timestamp. */
  function DatePart(ts: string): (r: string)
    ensures r <= ts && |r| == if |ts| < 10 then |ts| else 10
  {
    Prefix(ts, 10)
  }

  function SessionOn(d: string): Session -> bool {
    (s: Session) => DatePart(s.startTs) == d
  }

  function DistractionOn(d: string): Distraction -> bool {
    (x: Distraction) => DatePart(x.ts) == d
  }

  function GoalOn(d: string): Goal -> bool {
    (g: Goal) => g.goalDate == d
  }

  /** `ORDER BY start_ts DESC`: `a` may come before `b`. */
  predicate StartsNoEarlier(a: Session, b: Session) {
    LexLe(b.startTs, a.startTs)
  }

  /** `ORDER BY ts DESC`. */
  predicate LoggedNoEarlier(a: Distraction, b: Distraction) {
    LexLe(b.ts, a.ts)
  }

  /** `ORDER BY slot ASC`. */
  predicate SlotNoLater(a: Goal, b: Goal) {
    a.slot <= b.slot
  }

  lemma SessionOrderIsTotal()
    ensures Total(StartsNoEarlier) && Transitive(StartsNoEarlier)
  {
    forall a: Session, b: Session ensures StartsNoEarlier(a, b) || StartsNoEarlier(b, a) {
      LexLeTotal(a.startTs, b.startTs);
    }
    forall a: Session, b: Session, c: Session | StartsNoEarlier(a, b) && StartsNoEarlier(b, c)
      ensures StartsNoEarlier(a, c)
    {
      LexLeTransitive(c.startTs, b.startTs, a.startTs);
    }
  }

  lemma DistractionOrderIsTotal()
    ensures Total(LoggedNoEarlier) && Transitive(LoggedNoEarlier)
  {
    forall a: Distraction, b: Distraction ensures LoggedNoEarlier(a, b) || LoggedNoEarlier(b, a) {
      LexLeTotal(a.ts, b.ts);
    }
    forall a: Distraction, b: Distraction, c: Distraction | LoggedNoEarlier(a, b) && LoggedNoEarlier(b, c)
      ensures LoggedNoEarlier(a, c)
    {
      LexLeTransitive(c.ts, b.ts, a.ts);
    }
  }

  /** The sessions started on date `d`, latest first. */
  function SessionsForDate(rows: seq<Session>, d: string): (r: seq<Session>)
    ensures multiset(r) == multiset(Filter(rows, SessionOn(d)))
    ensures forall s :: s in r <==> s in rows && DatePart(s.startTs) == d
    ensures SortedBy(r, StartsNoEarlier)
  {
    var on := Filter(rows, SessionOn(d));
    SessionOrderIsTotal();
    SortSorted(on, StartsNoEarlier);
    SameMembers(Sort(on, StartsNoEarlier), on);
    Sort(on, StartsNoEarlier)
  }

  /** The distractions logged on date `d`, latest first. */
  function DistractionsForDate(rows: seq<Distraction>, d: string): (r: seq<Distraction>)
    ensures multiset(r) == multiset(Filter(rows, DistractionOn(d)))
    ensures forall x :: x in r <==> x in rows && DatePart(x.ts) == d
    ensures SortedBy(r, LoggedNoEarlier)
  {
    var on := Filter(rows, DistractionOn(d));
    DistractionOrderIsTotal();
    SortSorted(on, LoggedNoEarlier);
    SameMembers(Sort(on, LoggedNoEarlier), on);
    Sort(on, LoggedNoEarlier)
  }

  /** The goals of date `d`, by slot. */
  function GoalsForDate(rows: seq<Goal>, d: string): (r: seq<Goal>)
    ensures multiset(r) == multiset(Filter(rows, GoalOn(d)))
    ensures forall g :: g in r <==> g in rows && g.goalDate == d
    ensures SortedBy(r, SlotNoLater)
  {
    var on := Filter(rows, GoalOn(d));
    SortSorted(on, SlotNoLater);
    SameMembers(Sort(on, SlotNoLater), on);
    Sort(on, SlotNoLater)
  }

  // ---------------------------------------------------------------------------
  // Statistics (`calc_goal_stats`, `calc_session_stats`)

  /** Python's `round` on the exact quotient `n / d`: the nearest integer, ties to the even one. */
  function RoundHalfEven(n: int, d: int): (r: int)
    requires d > 0
    ensures -d <= 2 * (n - d * r) <= d
    ensures (2 * (n - d * r) == d || 2 * (n - d * r) == -d) ==> r % 2 == 0
  {
    var q := n / d;
    var m := n % d;
    assert n - d * q == m;
    assert n - d * (q + 1) == m - d;
    if 2 * m > d then q + 1
    else if 2 * m < d then q
    else if q % 2 == 0 then q
    else q + 1
  }

  /** A percentage rounded as `int(round(done / total * 100))`, 0 for an empty total. */
  function Percent(done: int, total: int): (pct: int)
    ensures total <= 0 ==> pct == 0
    ensures 0 < total ==> -total <= 2 * (100 * done - total * pct) <= total
  {
    if total > 0 then RoundHalfEven(100 * done, total) else 0
  }

  lemma MulBounds(a: int, b: int)
    requires a > 0
    ensures b <= -1 ==> a * b <= -a
    ensures b >= 1 ==> a * b >= a
  {
  }

  /** A share of a positive total is a percentage in 0..100, and all of it is 100. */
  lemma PercentRange(done: int, total: int)
    requires 0 <= done <= total
    ensures 0 <= Percent(done, total) <= 100
    ensures 0 < done == total ==> Percent(done, total) == 100
  {
    if total > 0 {
      var pct := Percent(done, total);
      var e := 100 * done - total * pct;
      MulBounds(total, pct);
      MulBounds(total, pct - 100);
      assert total * pct == total * (pct - 100) + 100 * total;
      if done == total {
        assert e == total * (100 - pct);
        MulBounds(total, 100 - pct);
      }
    }
  }

  predicate IsDone(g: Goal) {
    g.done == 1
  }

  function DoneOne(g: Goal): int {
    if g.done == 1 then 1 else 0
  }

  /** `sum(1 for g in goals if int(g["done"]) == 1)` counts the goals marked done. */
  lemma {:induction false} DoneCount(goals: seq<Goal>)
    ensures SumOf(goals, DoneOne) == |Filter(goals, IsDone)|
    decreases |goals|
  {
    if goals != [] {
      SumOfFront(goals, DoneOne);
      DoneCount(goals[1..]);
    }
  }

  datatype GoalStats = GoalStats(done: int, total: int, pct: int)

  function CalcGoalStats(goals: seq<Goal>): (st: GoalStats)
    ensures st.total == |goals|
    ensures st.done == |Filter(goals, IsDone)|
    ensures 0 <= st.done <= st.total
    ensures st.total == 0 ==> st.pct == 0
    ensures 0 <= st.pct <= 100
    ensures st.done == st.total > 0 ==> st.pct == 100
  {
    DoneCount(goals);
    var done := SumOf(goals, DoneOne);
    PercentRange(done, |goals|);
    GoalStats(done, |goals|, Percent(done, |goals|))
  }

  function Minutes(s: Session): int {
    s.minutes
  }

  datatype SessionStats = SessionStats(count: int, totalMin: int)

  function CalcSessionStats(sessions: seq<Session>): (st: SessionStats)
    ensures st.count == |sessions|
    ensures sessions == [] ==> st == SessionStats(0, 0)
    ensures |sessions| == 1 ==> st == SessionStats(1, sessions[0].minutes)
    ensures (forall k :: 0 <= k < |sessions| ==> sessions[k].minutes > 0) ==> st.totalMin >= st.count
  {
    var st := SessionStats(|sessions|, SumOf(sessions, Minutes));
    assert |sessions| == 1 ==> st.totalMin == sessions[0].minutes by {
      if |sessions| == 1 {
        assert sessions[..|sessions| - 1] == [];
        assert SumOf(sessions, Minutes) == SumOf(sessions[..|sessions| - 1], Minutes) + Minutes(sessions[0]);
      }
    }
    assert (forall k :: 0 <= k < |sessions| ==> sessions[k].minutes > 0) ==> st.totalMin >= st.count by {
      if forall k :: 0 <= k < |sessions| ==> sessions[k].minutes > 0 {
        SumOfBounds(sessions, Minutes, 1);
      }
    }
    st
  }

  /** Session statistics over two batches of sessions add up. */
  lemma SessionStatsAdd(a: seq<Session>, b: seq<Session>)
    ensures CalcSessionStats(a + b).count == CalcSessionStats(a).count + CalcSessionStats(b).count
    ensures CalcSessionStats(a + b).totalMin == CalcSessionStats(a).totalMin + CalcSessionStats(b).totalMin
  {
    SumOfConcat(a, b, Minutes);
  }

  // ---------------------------------------------------------------------------
  // Table invariants

  predicate SessionIdBefore(a: Session, b: Session) {
    a.id < b.id
  }

  predicate DistractionIdBefore(a: Distraction, b: Distraction) {
    a.id < b.id
  }

  predicate GoalIdBefore(a: Goal, b: Goal) {
    a.id < b.id
  }

  /** Rows in id order, no id above the last one handed out, and only rows `add_session` accepts. */
  ghost predicate SessionsOk(rows: seq<Session>, lastId: int) {
    SortedBy(rows, SessionIdBefore) &&
    forall s :: s in rows ==> s.id <= lastId && s.startTs != "" && s.endTs != "" && s.minutes > 0
  }

  ghost predicate DistractionsOk(rows: seq<Distraction>, lastId: int) {
    SortedBy(rows, DistractionIdBefore) &&
    forall x :: x in rows ==> x.id <= lastId && x.note != ""
  }

  /** As above, with `UNIQUE(goal_date, slot)`, slots 1..3, non-empty titles and `done` in {0, 1}. */
  ghost predicate GoalsOk(rows: seq<Goal>, lastId: int) {
    SortedBy(rows, GoalIdBefore) &&
    (forall g :: g in rows ==>
       g.id <= lastId && 1 <= g.slot <= 3 && g.title != "" && (g.done == 0 || g.done == 1)) &&
    forall a, b :: a in rows && b in rows && a.goalDate == b.goalDate && a.slot == b.slot ==> a == b
  }

  /** Appending a row with the next id keeps a table in id order. */
  lemma SessionAppendOk(rows: seq<Session>, lastId: int, s: Session)
    requires SessionsOk(rows, lastId)
    requires s.id == lastId + 1 && s.startTs != "" && s.endTs != "" && s.minutes > 0
    ensures SessionsOk(rows + [s], lastId + 1)
  {
    var r := rows + [s];
    forall i, j | 0 <= i < j < |r| ensures SessionIdBefore(r[i], r[j]) {
      assert r[i] == rows[i] && rows[i] in rows;
      if j < |rows| {
        assert r[j] == rows[j];
      }
    }
  }

  lemma DistractionAppendOk(rows: seq<Distraction>, lastId: int, x: Distraction)
    requires DistractionsOk(rows, lastId)
    requires x.id == lastId + 1 && x.note != ""
    ensures DistractionsOk(rows + [x], lastId + 1)
  {
    var r := rows + [x];
    forall i, j | 0 <= i < j < |r| ensures DistractionIdBefore(r[i], r[j]) {
      assert r[i] == rows[i] && rows[i] in rows;
      if j < |rows| {
        assert r[j] == rows[j];
      }
    }
  }

  function InSlot(d: string, slot: int): Goal -> bool {
    (g: Goal) => g.goalDate == d && g.slot == slot
  }

  function OutsideSlot(d: string, slot: int): Goal -> bool {
    (g: Goal) => !(g.goalDate == d && g.slot == slot)
  }

  lemma FirstTwo<T>(s: seq<T>)
    requires |s| > 1
    ensures s[0] in s && s[1] in s
  {
  }

  /** Under the unique constraint a (date, slot) holds at most one row. */
  lemma AtMostOnePerSlot(rows: seq<Goal>, lastId: int, d: string, slot: int)
    requires GoalsOk(rows, lastId)
    ensures |Filter(rows, InSlot(d, slot))| <= 1
  {
    var f := Filter(rows, InSlot(d, slot));
    FilterSorted(rows, InSlot(d, slot), GoalIdBefore);
    if |f| > 1 {
      FirstTwo(f);
      assert false;
    }
  }

  // ---------------------------------------------------------------------------
  // `save_goals`

  datatype GoalTable = GoalTable(rows: seq<Goal>, lastId: int)

  /** `{int(r["slot"]): r for r in rows}`: a later row for the same slot wins. */
  function SlotMap(rows: seq<Goal>): (m: map<int, Goal>)
    ensures m.Keys == set g | g in rows :: g.slot
    ensures forall k :: k in m ==> m[k] in rows && m[k].slot == k
    decreases |rows|
  {
    if rows == [] then map[]
    else
      var init := rows[..|rows| - 1];
      var last := rows[|rows| - 1];
      assert rows == init + [last];
      SlotMap(init)[last.slot := last]
  }

  /** The `done` value that `int(existing.get(slot, {}).get("done", 0)) if slot in existing else 0`
      is meant to read: that of the row already in the slot, or 0. As written it only ever
      yields the 0, see `ReadsStoredRow`. */
  function PreviousDone(existing: map<int, Goal>, slot: int): int {
    if slot in existing then existing[slot].done else 0
  }

  /** One pass of the loop in `save_goals`: `INSERT OR REPLACE` of a non-empty title (the
      conflicting row is deleted and a row with a new id appended), `DELETE` of an empty one. */
  function SaveSlot(t: GoalTable, d: string, existing: map<int, Goal>, slot: int, title: string): (r: GoalTable)
    ensures r.lastId == t.lastId + (if title != "" then 1 else 0)
  {
    var kept := Filter(t.rows, OutsideSlot(d, slot));
    if title != "" then
      GoalTable(kept + [Goal(t.lastId + 1, d, slot, title, PreviousDone(existing, slot))], t.lastId + 1)
    else
      GoalTable(kept, t.lastId)
  }

  /** The loop of `save_goals` over slots 1..|titles|. */
  function SaveAll(t: GoalTable, d: string, existing: map<int, Goal>, titles: seq<string>): (r: GoalTable)
    decreases |titles|
  {
    if titles == [] then t
    else SaveSlot(SaveAll(t, d, existing, titles[..|titles| - 1]), d, existing, |titles|, titles[|titles| - 1])
  }

  /** A pass leaves every row outside its (date, slot) where it was. */
  lemma SaveSlotKeeps(t: GoalTable, d: string, existing: map<int, Goal>, slot: int, title: string,
                      q: Goal -> bool)
    requires forall g :: q(g) ==> !(g.goalDate == d && g.slot == slot)
    ensures Filter(SaveSlot(t, d, existing, slot, title).rows, q) == Filter(t.rows, q)
  {
    var kept := Filter(t.rows, OutsideSlot(d, slot));
    assert forall x :: q(x) ==> OutsideSlot(d, slot)(x);
    FilterNarrow(t.rows, OutsideSlot(d, slot), q);
    if title != "" {
      var g := Goal(t.lastId + 1, d, slot, title, PreviousDone(existing, slot));
      assert SaveSlot(t, d, existing, slot, title).rows == kept + [g];
      FilterConcat(kept, [g], q);
      FilterSingleton(g, q);
      assert Filter([g], q) == [];
    } else {
      assert SaveSlot(t, d, existing, slot, title).rows == kept;
    }
  }

  /** A pass leaves exactly the new row in its (date, slot), or none for an empty title. */
  lemma SaveSlotWrites(t: GoalTable, d: string, existing: map<int, Goal>, slot: int, title: string)
    ensures Filter(SaveSlot(t, d, existing, slot, title).rows, InSlot(d, slot)) ==
            if title != "" then [Goal(t.lastId + 1, d, slot, title, PreviousDone(existing, slot))] else []
  {
    var kept := Filter(t.rows, OutsideSlot(d, slot));
    assert forall k :: 0 <= k < |kept| ==> !InSlot(d, slot)(kept[k]);
    FilterDropsAll(kept, InSlot(d, slot));
    if title != "" {
      var g := Goal(t.lastId + 1, d, slot, title, PreviousDone(existing, slot));
      assert SaveSlot(t, d, existing, slot, title).rows == kept + [g];
      FilterConcat(kept, [g], InSlot(d, slot));
      FilterSingleton(g, InSlot(d, slot));
      assert Filter([g], InSlot(d, slot)) == [g];
    } else {
      assert SaveSlot(t, d, existing, slot, title).rows == kept;
    }
  }

  /** A pass keeps the table invariant. */
  lemma SaveSlotOk(t: GoalTable, d: string, existing: map<int, Goal>, slot: int, title: string)
    requires GoalsOk(t.rows, t.lastId)
    requires 1 <= slot <= 3
    requires forall k :: k in existing ==> existing[k].done == 0 || existing[k].done == 1
    ensures var r := SaveSlot(t, d, existing, slot, title); GoalsOk(r.rows, r.lastId)
  {
    var kept := Filter(t.rows, OutsideSlot(d, slot));
    GoalFilterOk(t.rows, t.lastId, OutsideSlot(d, slot));
    if title != "" {
      var g := Goal(t.lastId + 1, d, slot, title, PreviousDone(existing, slot));
      assert SaveSlot(t, d, existing, slot, title) == GoalTable(kept + [g], t.lastId + 1);
      assert forall x :: x in kept ==> OutsideSlot(d, slot)(x);
      GoalAppendOk(kept, t.lastId, g);
    } else {
      assert SaveSlot(t, d, existing, slot, title) == GoalTable(kept, t.lastId);
    }
  }

  /** Deleting rows keeps the table invariant. */
  lemma GoalFilterOk(rows: seq<Goal>, lastId: int, p: Goal -> bool)
    requires GoalsOk(rows, lastId)
    ensures GoalsOk(Filter(rows, p), lastId)
  {
    FilterSorted(rows, p, GoalIdBefore);
  }

  /** Appending a row with the next id to a free (date, slot) keeps the table invariant. */
  lemma GoalAppendOk(rows: seq<Goal>, lastId: int, g: Goal)
    requires GoalsOk(rows, lastId)
    requires g.id == lastId + 1 && 1 <= g.slot <= 3 && g.title != "" && (g.done == 0 || g.done == 1)
    requires forall x :: x in rows ==> !(x.goalDate == g.goalDate && x.slot == g.slot)
    ensures GoalsOk(rows + [g], lastId + 1)
  {
    var r := rows + [g];
    forall i, j | 0 <= i < j < |r| ensures GoalIdBefore(r[i], r[j]) {
      assert r[i] == rows[i] && rows[i] in rows;
      if j < |rows| {
        assert r[j] == rows[j];
      }
    }
  }

  /** After the loop, slot `j` of date `d` holds one row with title `titles[j - 1]` and the
      previous `done` of that slot when the title is non-empty, and no row when it is empty. */
  lemma {:induction false} SaveAllSlots(t: GoalTable, d: string, existing: map<int, Goal>,
                                        titles: seq<string>, j: int)
    requires 1 <= j <= |titles|
    ensures var f := Filter(SaveAll(t, d, existing, titles).rows, InSlot(d, j));
            (titles[j - 1] == "" ==> f == []) &&
            (titles[j - 1] != "" ==>
               |f| == 1 && f[0].goalDate == d && f[0].slot == j && f[0].title == titles[j - 1] &&
               f[0].done == PreviousDone(existing, j))
    decreases |titles|
  {
    var n := |titles|;
    var init := titles[..n - 1];
    var before := SaveAll(t, d, existing, init);
    if j == n {
      SaveSlotWrites(before, d, existing, n, titles[n - 1]);
    } else {
      SaveSlotKeeps(before, d, existing, n, titles[n - 1], InSlot(d, j));
      SaveAllSlots(t, d, existing, init, j);
      assert init[j - 1] == titles[j - 1];
    }
  }

  /** The loop leaves alone every row that is not in one of its slots of date `d`. */
  lemma {:induction false} SaveAllKeeps(t: GoalTable, d: string, existing: map<int, Goal>,
                                        titles: seq<string>, q: Goal -> bool)
    requires forall g :: q(g) ==> g.goalDate != d || !(1 <= g.slot <= |titles|)
    ensures Filter(SaveAll(t, d, existing, titles).rows, q) == Filter(t.rows, q)
    decreases |titles|
  {
    if titles != [] {
      var n := |titles|;
      var init := titles[..n - 1];
      var before := SaveAll(t, d, existing, init);
      assert SaveAll(t, d, existing, titles) == SaveSlot(before, d, existing, n, titles[n - 1]);
      SaveSlotKeeps(before, d, existing, n, titles[n - 1], q);
      assert forall g :: q(g) ==> g.goalDate != d || !(1 <= g.slot <= |init|);
      SaveAllKeeps(t, d, existing, init, q);
    }
  }

  /** The loop keeps the table invariant for up to three slots. */
  lemma {:induction false} SaveAllOk(t: GoalTable, d: string, existing: map<int, Goal>, titles: seq<string>)
    requires GoalsOk(t.rows, t.lastId)
    requires |titles| <= 3
    requires forall k :: k in existing ==> existing[k].done == 0 || existing[k].done == 1
    ensures var r := SaveAll(t, d, existing, titles); GoalsOk(r.rows, r.lastId)
    decreases |titles|
  {
    if titles != [] {
      var n := |titles|;
      SaveAllOk(t, d, existing, titles[..n - 1]);
      SaveSlotOk(SaveAll(t, d, existing, titles[..n - 1]), d, existing, n, titles[n - 1]);
    }
  }

  function OtherDate(d: string): Goal -> bool {
    (g: Goal) => g.goalDate != d
  }

  /** The done values `save_goals` reads back are in {0, 1}. */
  lemma ExistingDoneOk(rows: seq<Goal>, lastId: int, d: string)
    requires GoalsOk(rows, lastId)
    ensures var existing := SlotMap(GoalsForDate(rows, d));
            forall k :: k in existing ==> existing[k].done == 0 || existing[k].done == 1
  {
    var existing := SlotMap(GoalsForDate(rows, d));
    forall k | k in existing ensures existing[k].done == 0 || existing[k].done == 1 {
      assert existing[k] in GoalsForDate(rows, d);
    }
  }

  /** The done value `save_goals` carries into slot `j` is that of the row already in the slot,
      or 0 when the slot is empty. */
  lemma CarriedDone(rows: seq<Goal>, lastId: int, d: string, j: int)
    requires GoalsOk(rows, lastId)
    ensures var existing := SlotMap(GoalsForDate(rows, d));
            (Filter(rows, InSlot(d, j)) == [] ==> PreviousDone(existing, j) == 0) &&
            (forall g :: g in rows && g.goalDate == d && g.slot == j ==> PreviousDone(existing, j) == g.done)
  {
    var existing := SlotMap(GoalsForDate(rows, d));
    if j in existing {
      var g := existing[j];
      assert g in GoalsForDate(rows, d);
      assert g in Filter(rows, InSlot(d, j));
    }
  }

  // ---------------------------------------------------------------------------
  // `save_goals` as written

  /** Whether the loop of `save_goals` evaluates `existing.get(slot, {}).get("done", 0)` on a
      stored row: some non-empty title goes to a slot that already holds a goal. The values of
      `existing` are `sqlite3.Row`s, which have no `get`, so that pass raises `AttributeError`. */
  predicate ReadsStoredRow(existing: map<int, Goal>, titles: seq<string>) {
    exists k :: 0 <= k < |titles| && titles[k] != "" && k + 1 in existing
  }

  /** One more slot raises exactly when the earlier ones did or its own pass does. */
  lemma StoredRowSnoc(existing: map<int, Goal>, titles: seq<string>, i: int)
    requires 0 <= i < |titles|
    ensures ReadsStoredRow(existing, titles[..i + 1]) <==>
            ReadsStoredRow(existing, titles[..i]) || (titles[i] != "" && i + 1 in existing)
  {
    var upTo := titles[..i + 1];
    assert upTo[..i] == titles[..i];
    if ReadsStoredRow(existing, upTo) {
      var k :| 0 <= k < |upTo| && upTo[k] != "" && k + 1 in existing;
      if k < i {
        assert titles[..i][k] == upTo[k];
      }
    }
    if ReadsStoredRow(existing, titles[..i]) {
      var k :| 0 <= k < i && titles[..i][k] != "" && k + 1 in existing;
      assert upTo[k] == titles[..i][k];
    }
    if titles[i] != "" && i + 1 in existing {
      assert upTo[i] == titles[i];
    }
  }

  /** A pass that raises on a prefix raises on the whole form. */
  lemma StoredRowPrefix(existing: map<int, Goal>, titles: seq<string>, n: int)
    requires 0 <= n <= |titles| && ReadsStoredRow(existing, titles[..n])
    ensures ReadsStoredRow(existing, titles)
  {
    var k :| 0 <= k < n && titles[..n][k] != "" && k + 1 in existing;
    assert titles[k] == titles[..n][k];
  }

  /** The goals table after `POST /goals` as the route is written: when a pass raises, the
      connection's context manager rolls the whole transaction back; otherwise every pass commits. */
  function SaveGoalsAsWritten(t: GoalTable, d: string, titles: seq<string>): GoalTable {
    var existing := SlotMap(GoalsForDate(t.rows, d));
    if ReadsStoredRow(existing, titles) then t else SaveAll(t, d, existing, titles)
  }

  /** What a save does as written: nothing at all once a filled slot gets a title; otherwise
      each slot ends with its new title and `done` 0, or empty. The previous `done` is never
      carried over. */
  lemma SaveGoalsAsWrittenSlots(t: GoalTable, d: string, titles: seq<string>, j: int)
    requires 1 <= j <= |titles|
    ensures var existing := SlotMap(GoalsForDate(t.rows, d));
            var f := Filter(SaveGoalsAsWritten(t, d, titles).rows, InSlot(d, j));
            (ReadsStoredRow(existing, titles) ==> SaveGoalsAsWritten(t, d, titles) == t) &&
            (!ReadsStoredRow(existing, titles) && titles[j - 1] == "" ==> f == []) &&
            (!ReadsStoredRow(existing, titles) && titles[j - 1] != "" ==>
               |f| == 1 && f[0].slot == j && f[0].title == titles[j - 1] && f[0].done == 0)
  {
    var existing := SlotMap(GoalsForDate(t.rows, d));
    SaveAllSlots(t, d, existing, titles, j);
    if !ReadsStoredRow(existing, titles) && titles[j - 1] != "" {
      assert j !in existing;
    }
  }

  /** The input that shows it: a goal marked done in slot 1, whose title is then edited. The
      route leaves the table as it was (the request fails), where the intended save replaces the
      row and keeps it done. */
  lemma FilledSlotSaveIsLost(d: string)
    ensures var t := GoalTable([Goal(1, d, 1, "read", 1)], 1);
            var titles := ["read more", "", ""];
            SaveGoalsAsWritten(t, d, titles) == t &&
            SaveAll(t, d, SlotMap(GoalsForDate(t.rows, d)), titles) ==
              GoalTable([Goal(2, d, 1, "read more", 1)], 2)
  {
    var g := Goal(1, d, 1, "read", 1);
    var t := GoalTable([g], 1);
    var titles := ["read more", "", ""];
    assert Filter([g], GoalOn(d)) == [g];
    assert Sort([g], SlotNoLater) == [g];
    assert GoalsForDate(t.rows, d) == [g];
    assert [g][..0] == [];
    var existing := SlotMap([g]);
    assert existing == map[1 := g];
    assert titles[0] != "" && 0 + 1 in existing;
    var row := Goal(2, d, 1, "read more", 1);
    assert Filter([g], OutsideSlot(d, 1)) == [];
    assert Filter([row], OutsideSlot(d, 2)) == [row];
    assert Filter([row], OutsideSlot(d, 3)) == [row];
    assert titles[..0] == [] && titles[..1] == ["read more"] && titles[..2] == ["read more", ""];
    assert titles[..1][..0] == [] && titles[..2][..1] == titles[..1] && titles[..3] == titles;
    assert SaveAll(t, d, existing, titles[..1]) == GoalTable([row], 2);
    assert SaveAll(t, d, existing, titles[..2]) == GoalTable([row], 2);
  }

  // ---------------------------------------------------------------------------
  // `toggle_goal`

  /** `SELECT * FROM goals WHERE id=?`: the position of the row with that id. */
  function FindGoal(rows: seq<Goal>, id: int): (k: Option<nat>)
    ensures k.Some? ==> k.value < |rows| && rows[k.value].id == id
    ensures k.None? ==> forall g :: g in rows ==> g.id != id
    decreases |rows|
  {
    if rows == [] then None
    else if rows[0].id == id then Some(0)
    else
      var k := FindGoal(rows[1..], id);
      if k.Some? then Some(k.value + 1) else None
  }

  /** `new_done = 0 if int(row["done"]) == 1 else 1`. */
  function FlipDone(done: int): (r: int)
    ensures r == 0 || r == 1
    ensures done == 1 <==> r == 0
  {
    if done == 1 then 0 else 1
  }

  /** The table after `toggle_goal(id)`, as a set operation: every row with that id flips. */
  function Toggled(rows: seq<Goal>, id: int): (r: seq<Goal>)
    ensures |r| == |rows|
    ensures forall k :: 0 <= k < |rows| ==> r[k] == if rows[k].id == id then rows[k].(done := FlipDone(rows[k].done)) else rows[k]
  {
    seq(|rows|, k requires 0 <= k < |rows| =>
      if rows[k].id == id then rows[k].(done := FlipDone(rows[k].done)) else rows[k])
  }

  /** An unknown id leaves the table as it was. */
  lemma ToggleUnknown(rows: seq<Goal>, id: int)
    requires forall g :: g in rows ==> g.id != id
    ensures Toggled(rows, id) == rows
  {
    assert forall k :: 0 <= k < |rows| ==> rows[k] in rows;
  }

  /** Toggling keeps the table invariant. */
  lemma ToggleOk(rows: seq<Goal>, lastId: int, id: int)
    requires GoalsOk(rows, lastId)
    ensures GoalsOk(Toggled(rows, id), lastId)
  {
    ToggleKeepsOrder(rows, id);
    ToggleKeepsFields(rows, lastId, id);
    ToggleKeepsSlots(rows, id);
  }

  lemma ToggleKeepsOrder(rows: seq<Goal>, id: int)
    requires SortedBy(rows, GoalIdBefore)
    ensures SortedBy(Toggled(rows, id), GoalIdBefore)
  {
    var r := Toggled(rows, id);
    forall i, j | 0 <= i < j < |r| ensures GoalIdBefore(r[i], r[j]) {
      assert GoalIdBefore(rows[i], rows[j]);
    }
  }

  lemma ToggleKeepsFields(rows: seq<Goal>, lastId: int, id: int)
    requires forall g :: g in rows ==>
               g.id <= lastId && 1 <= g.slot <= 3 && g.title != "" && (g.done == 0 || g.done == 1)
    ensures forall g :: g in Toggled(rows, id) ==>
               g.id <= lastId && 1 <= g.slot <= 3 && g.title != "" && (g.done == 0 || g.done == 1)
  {
    var r := Toggled(rows, id);
    forall g | g in r ensures g.id <= lastId && 1 <= g.slot <= 3 && g.title != "" && (g.done == 0 || g.done == 1) {
      var k :| 0 <= k < |r| && r[k] == g;
      assert rows[k] in rows;
    }
  }

  lemma ToggleKeepsSlots(rows: seq<Goal>, id: int)
    requires forall a, b :: a in rows && b in rows && a.goalDate == b.goalDate && a.slot == b.slot ==> a == b
    ensures var r := Toggled(rows, id);
            forall a, b :: a in r && b in r && a.goalDate == b.goalDate && a.slot == b.slot ==> a == b
  {
    var r := Toggled(rows, id);
    forall a, b | a in r && b in r && a.goalDate == b.goalDate && a.slot == b.slot ensures a == b {
      var i :| 0 <= i < |r| && r[i] == a;
      var j :| 0 <= j < |r| && r[j] == b;
      assert rows[i] in rows && rows[j] in rows;
      assert rows[i] == rows[j];
    }
  }

  /** With `done` in {0, 1}, toggling twice restores the table. */
  lemma ToggleTwice(rows: seq<Goal>, id: int)
    requires forall k :: 0 <= k < |rows| ==> rows[k].done == 0 || rows[k].done == 1
    ensures Toggled(Toggled(rows, id), id) == rows
  {
    var r := Toggled(Toggled(rows, id), id);
    forall k | 0 <= k < |rows| ensures r[k] == rows[k] {
      assert Toggled(rows, id)[k].id == rows[k].id;
    }
  }

  // ---------------------------------------------------------------------------
  // Reports (`report`)

  /** One row of the report: the statistics of one date. */
  datatype DayRow = DayRow(date: string, goalDone: int, goalTotal: int, goalPct: int,
                           sessionCount: int, focusMin: int, distractions: int)

  /** The report of one date: the queries and statistics of `report`'s loop body (and of its
      day mode). */
  function DayReport(ss: seq<Session>, ds: seq<Distraction>, gs: seq<Goal>, d: string): DayRow {
    var g := CalcGoalStats(GoalsForDate(gs, d));
    var s := CalcSessionStats(SessionsForDate(ss, d));
    DayRow(d, g.done, g.total, g.pct, s.count, s.totalMin, |DistractionsForDate(ds, d)|)
  }

  /** What the report of a date counts: the rows of that date, whatever order the queries
      return them in. */
  lemma DayReportCounts(ss: seq<Session>, ds: seq<Distraction>, gs: seq<Goal>, d: string)
    ensures var r := DayReport(ss, ds, gs, d);
            r.sessionCount == |Filter(ss, SessionOn(d))| &&
            r.focusMin == SumOf(Filter(ss, SessionOn(d)), Minutes) &&
            r.distractions == |Filter(ds, DistractionOn(d))| &&
            r.goalTotal == |Filter(gs, GoalOn(d))| &&
            r.goalDone == SumOf(Filter(gs, GoalOn(d)), DoneOne) &&
            r.goalPct == Percent(r.goalDone, r.goalTotal)
  {
    SumOfSort(Filter(ss, SessionOn(d)), StartsNoEarlier, Minutes);
    SumOfSort(Filter(gs, GoalOn(d)), SlotNoLater, DoneOne);
    DoneCount(GoalsForDate(gs, d));
  }

  function ReportOf(ss: seq<Session>, ds: seq<Distraction>, gs: seq<Goal>): string -> DayRow {
    (d: string) => DayReport(ss, ds, gs, d)
  }

  /** The report rows of the given dates, in their order (the loop of `report`). */
  function DayReports(ss: seq<Session>, ds: seq<Distraction>, gs: seq<Goal>, days: seq<string>): seq<DayRow> {
    MapSeq(days, ReportOf(ss, ds, gs))
  }

  function FocusMinOf(r: DayRow): int { r.focusMin }
  function SessionCountOf(r: DayRow): int { r.sessionCount }
  function DistractionsOf(r: DayRow): int { r.distractions }
  function GoalDoneOf(r: DayRow): int { r.goalDone }
  function GoalTotalOf(r: DayRow): int { r.goalTotal }

  datatype WeekSummary = WeekSummary(focusMin: int, sessionCount: int, distractions: int,
                                     goalDone: int, goalTotal: int, goalPct: int)

  /** The weekly totals: sums of the daily values, the goal percentage of the summed goals. */
  function Summarize(rows: seq<DayRow>): (s: WeekSummary)
    ensures s.goalTotal <= 0 ==> s.goalPct == 0
  {
    var done := SumOf(rows, GoalDoneOf);
    var total := SumOf(rows, GoalTotalOf);
    WeekSummary(SumOf(rows, FocusMinOf), SumOf(rows, SessionCountOf), SumOf(rows, DistractionsOf),
                done, total, Percent(done, total))
  }

  /** `[(end - timedelta(days=i)).isoformat() for i in range(6, -1, -1)]`, with the calendar
      given as a function from day numbers to ISO dates. */
  function WeekDays(endDay: int, dayName: int -> string): (days: seq<string>)
    ensures |days| == 7 && days[6] == dayName(endDay)
    ensures forall k :: 0 <= k < 7 ==> days[k] == dayName(endDay - 6 + k)
  {
    seq(7, k => dayName(endDay - 6 + k))
  }

  ghost predicate Distinct(days: seq<string>) {
    forall i, j :: 0 <= i < |days| && 0 <= j < |days| && i != j ==> days[i] != days[j]
  }

  function SessionInDays(days: seq<string>): Session -> bool {
    (s: Session) => DatePart(s.startTs) in days
  }

  function DistractionInDays(days: seq<string>): Distraction -> bool {
    (x: Distraction) => DatePart(x.ts) in days
  }

  function GoalInDays(days: seq<string>): Goal -> bool {
    (g: Goal) => g.goalDate in days
  }

  /** The last of distinct dates is not among the others, which stay distinct. */
  lemma DistinctSplit(days: seq<string>)
    requires Distinct(days) && days != []
    ensures days == days[..|days| - 1] + [days[|days| - 1]]
    ensures days[|days| - 1] !in days[..|days| - 1]
    ensures Distinct(days[..|days| - 1])
  {
    var init := days[..|days| - 1];
    forall i | 0 <= i < |init| ensures init[i] != days[|days| - 1] {
      assert init[i] == days[i];
    }
    forall i, j | 0 <= i < |init| && 0 <= j < |init| && i != j ensures init[i] != init[j] {
      assert init[i] == days[i] && init[j] == days[j];
    }
  }

  /** Over distinct dates, summed daily session values are those of the whole window. */
  lemma {:induction false} WindowSessions(ss: seq<Session>, ds: seq<Distraction>, gs: seq<Goal>, days: seq<string>)
    requires Distinct(days)
    ensures SumOf(DayReports(ss, ds, gs, days), SessionCountOf) == |Filter(ss, SessionInDays(days))|
    ensures SumOf(DayReports(ss, ds, gs, days), FocusMinOf) == SumOf(Filter(ss, SessionInDays(days)), Minutes)
    decreases |days|
  {
    if days == [] {
      FilterDropsAll(ss, SessionInDays(days));
    } else {
      var n := |days|;
      var init := days[..n - 1];
      DistinctSplit(days);
      WindowSessions(ss, ds, gs, init);
      var rows := DayReports(ss, ds, gs, days);
      assert rows[..n - 1] == DayReports(ss, ds, gs, init);
      DayReportCounts(ss, ds, gs, days[n - 1]);
      FilterSplitLength(ss, SessionInDays(days), SessionInDays(init), SessionOn(days[n - 1]));
      FilterSplitSum(ss, SessionInDays(days), SessionInDays(init), SessionOn(days[n - 1]), Minutes);
    }
  }

  /** Over distinct dates, summed daily distraction counts are that of the whole window. */
  lemma {:induction false} WindowDistractions(ss: seq<Session>, ds: seq<Distraction>, gs: seq<Goal>, days: seq<string>)
    requires Distinct(days)
    ensures SumOf(DayReports(ss, ds, gs, days), DistractionsOf) == |Filter(ds, DistractionInDays(days))|
    decreases |days|
  {
    if days == [] {
      FilterDropsAll(ds, DistractionInDays(days));
    } else {
      var n := |days|;
      var init := days[..n - 1];
      DistinctSplit(days);
      WindowDistractions(ss, ds, gs, init);
      var rows := DayReports(ss, ds, gs, days);
      assert rows[..n - 1] == DayReports(ss, ds, gs, init);
      DayReportCounts(ss, ds, gs, days[n - 1]);
      FilterSplitLength(ds, DistractionInDays(days), DistractionInDays(init), DistractionOn(days[n - 1]));
    }
  }

  /** Over distinct dates, summed daily goal values are those of the whole window. */
  lemma {:induction false} WindowGoals(ss: seq<Session>, ds: seq<Distraction>, gs: seq<Goal>, days: seq<string>)
    requires Distinct(days)
    ensures SumOf(DayReports(ss, ds, gs, days), GoalTotalOf) == |Filter(gs, GoalInDays(days))|
    ensures SumOf(DayReports(ss, ds, gs, days), GoalDoneOf) == SumOf(Filter(gs, GoalInDays(days)), DoneOne)
    decreases |days|
  {
    if days == [] {
      FilterDropsAll(gs, GoalInDays(days));
    } else {
      var n := |days|;
      var init := days[..n - 1];
      DistinctSplit(days);
      WindowGoals(ss, ds, gs, init);
      var rows := DayReports(ss, ds, gs, days);
      assert rows[..n - 1] == DayReports(ss, ds, gs, init);
      DayReportCounts(ss, ds, gs, days[n - 1]);
      FilterSplitLength(gs, GoalInDays(days), GoalInDays(init), GoalOn(days[n - 1]));
      FilterSplitSum(gs, GoalInDays(days), GoalInDays(init), GoalOn(days[n - 1]), DoneOne);
    }
  }

  /** The goals done in a window never exceed the goals set in it. */
  lemma WindowGoalShare(gs: seq<Goal>, days: seq<string>)
    ensures 0 <= SumOf(Filter(gs, GoalInDays(days)), DoneOne) <= |Filter(gs, GoalInDays(days))|
  {
    DoneCount(Filter(gs, GoalInDays(days)));
  }

  // ---------------------------------------------------------------------------
  // The tables

  class Tables {
    var sessions: seq<Session>
    var distractions: seq<Distraction>
    var goals: seq<Goal>
    var lastSessionId: int        // `sqlite_sequence` of each table
    var lastDistractionId: int
    var lastGoalId: int

    ghost predicate Valid()
      reads this
    {
      SessionsOk(sessions, lastSessionId) && DistractionsOk(distractions, lastDistractionId) &&
      GoalsOk(goals, lastGoalId)
    }

    /** Empty tables. */
    constructor ()
      ensures Valid() && sessions == [] && distractions == [] && goals == []
    {
      sessions, distractions, goals := [], [], [];
      lastSessionId, lastDistractionId, lastGoalId := 0, 0, 0;
    }

    /** `POST /goals` on date `d` with the form fields `g1`, `g2`, `g3`; `raised` tells whether the
        request failed on a filled slot (`ReadsStoredRow`). */
    method SaveGoals(d: string, g1: string, g2: string, g3: string) returns (raised: bool)
      requires Valid()
      modifies this
      ensures raised <==> ReadsStoredRow(SlotMap(GoalsForDate(old(goals), d)), [Strip(g1), Strip(g2), Strip(g3)])
      ensures GoalTable(goals, lastGoalId) ==
              SaveGoalsAsWritten(GoalTable(old(goals), old(lastGoalId)), d, [Strip(g1), Strip(g2), Strip(g3)])
      ensures sessions == old(sessions) && lastSessionId == old(lastSessionId)
      ensures distractions == old(distractions) && lastDistractionId == old(lastDistractionId)
      ensures Valid()
    {
      var titles := [Strip(g1), Strip(g2), Strip(g3)];
      var existing := SlotMap(GoalsForDate(goals, d));
      ExistingDoneOk(goals, lastGoalId, d);
      SaveAllOk(GoalTable(goals, lastGoalId), d, existing, titles);
      raised := SaveTitles(d, existing, titles);
    }

    /** The loop of `save_goals` over the slots `1..|titles|`, in one transaction: a pass that
        raises ends the loop, and the rollback restores the goals table. */
    method SaveTitles(d: string, existing: map<int, Goal>, titles: seq<string>) returns (raised: bool)
      modifies this
      ensures raised <==> ReadsStoredRow(existing, titles)
      ensures raised ==> goals == old(goals) && lastGoalId == old(lastGoalId)
      ensures !raised ==>
                GoalTable(goals, lastGoalId) == SaveAll(GoalTable(old(goals), old(lastGoalId)), d, existing, titles)
      ensures sessions == old(sessions) && lastSessionId == old(lastSessionId)
      ensures distractions == old(distractions) && lastDistractionId == old(lastDistractionId)
    {
      ghost var t0 := GoalTable(goals, lastGoalId);
      var savedGoals, savedId := goals, lastGoalId;  // what the rollback returns to
      for i := 0 to |titles|
        invariant GoalTable(goals, lastGoalId) == SaveAll(t0, d, existing, titles[..i])
        invariant !ReadsStoredRow(existing, titles[..i])
        invariant savedGoals == old(goals) && savedId == old(lastGoalId)
        invariant sessions == old(sessions) && lastSessionId == old(lastSessionId)
        invariant distractions == old(distractions) && lastDistractionId == old(lastDistractionId)
      {
        raised := SaveSlotRow(d, existing, i + 1, titles[i]);
        if raised {
          StoredRowSnoc(existing, titles, i);
          StoredRowPrefix(existing, titles, i + 1);
          goals, lastGoalId := savedGoals, savedId;
          return;
        }
        StoredRowSnoc(existing, titles, i);
        assert titles[..i + 1][..i] == titles[..i];
      }
      assert titles[..|titles|] == titles;
      raised := false;
    }

    /** One pass of the loop in `save_goals`. A non-empty title for a slot already in `existing`
        raises before anything is written; otherwise the conditional reads `done` 0. */
    method SaveSlotRow(d: string, existing: map<int, Goal>, slot: int, title: string) returns (raised: bool)
      modifies this
      ensures raised <==> title != "" && slot in existing
      ensures raised ==> goals == old(goals) && lastGoalId == old(lastGoalId)
      ensures !raised ==>
                GoalTable(goals, lastGoalId) == SaveSlot(GoalTable(old(goals), old(lastGoalId)), d, existing, slot, title)
      ensures sessions == old(sessions) && lastSessionId == old(lastSessionId)
      ensures distractions == old(distractions) && lastDistractionId == old(lastDistractionId)
    {
      raised := false;
      if title != "" {
        if slot in existing {
          raised := true;  // `existing[slot]` is a `sqlite3.Row`: `.get` raises `AttributeError`
          return;
        }
        var done := 0;
        goals := Filter(goals, OutsideSlot(d, slot)) + [Goal(lastGoalId + 1, d, slot, title, done)];
        lastGoalId := lastGoalId + 1;
      } else {
        goals := Filter(goals, OutsideSlot(d, slot));
      }
    }

    /** `POST /goals/<id>/toggle`. */
    method ToggleGoal(goalId: int)
      requires Valid()
      modifies this
      ensures goals == Toggled(old(goals), goalId)
      ensures sessions == old(sessions) && distractions == old(distractions)
      ensures lastSessionId == old(lastSessionId) && lastDistractionId == old(lastDistractionId)
      ensures lastGoalId == old(lastGoalId)
      ensures Valid()
    {
      ToggleOk(goals, lastGoalId, goalId);
      var k := FindGoal(goals, goalId);
      if k.Some? {
        var row := goals[k.value];
        var newDone := if row.done == 1 then 0 else 1;
        forall j | 0 <= j < |goals| && j != k.value ensures goals[j].id != goalId {
          if j < k.value {
            assert GoalIdBefore(goals[j], goals[k.value]);
          } else {
            assert GoalIdBefore(goals[k.value], goals[j]);
          }
        }
        goals := goals[k.value := row.(done := newDone)];
      } else {
        ToggleUnknown(goals, goalId);
      }
    }

    /** `POST /distractions` at local time `nowTs`. */
    method AddDistraction(noteField: string, nowTs: string)
      requires Valid()
      modifies this
      ensures var note := Strip(noteField);
              if note == "" then distractions == old(distractions) && lastDistractionId == old(lastDistractionId)
              else distractions == old(distractions) + [Distraction(old(lastDistractionId) + 1, nowTs, note)] &&
                   lastDistractionId == old(lastDistractionId) + 1
      ensures sessions == old(sessions) && lastSessionId == old(lastSessionId)
      ensures goals == old(goals) && lastGoalId == old(lastGoalId)
      ensures Valid()
    {
      var note := Strip(noteField);
      if note == "" {
        return;
      }
      var row := Distraction(lastDistractionId + 1, nowTs, note);
      DistractionAppendOk(distractions, lastDistractionId, row);
      distractions, lastDistractionId := distractions + [row], lastDistractionId + 1;
    }

    /** `POST /sessions` with the form fields and the already converted minutes. */
    method AddSession(startField: string, endField: string, minutes: int)
      requires Valid()
      modifies this
      ensures var st := Strip(startField);
              var en := Strip(endField);
              if st == "" || en == "" || minutes <= 0 then
                sessions == old(sessions) && lastSessionId == old(lastSessionId)
              else
                sessions == old(sessions) + [Session(old(lastSessionId) + 1, st, en, minutes)] &&
                lastSessionId == old(lastSessionId) + 1
      ensures distractions == old(distractions) && lastDistractionId == old(lastDistractionId)
      ensures goals == old(goals) && lastGoalId == old(lastGoalId)
      ensures Valid()
    {
      var st := Strip(startField);
      var en := Strip(endField);
      if st == "" || en == "" || minutes <= 0 {
        return;
      }
      var row := Session(lastSessionId + 1, st, en, minutes);
      SessionAppendOk(sessions, lastSessionId, row);
      sessions, lastSessionId := sessions + [row], lastSessionId + 1;
    }

    /** `GET /report?range=week&date=...` for the date with day number `endDay`: one row per
        day of the 7 days ending there, oldest first, and the weekly totals. */
    method WeekReport(endDay: int, dayName: int -> string) returns (rows: seq<DayRow>, summary: WeekSummary)
      ensures rows == DayReports(sessions, distractions, goals, WeekDays(endDay, dayName))
      ensures summary == Summarize(rows)
    {
      var days := WeekDays(endDay, dayName);
      rows := [];
      for i := 0 to 7
        invariant rows == DayReports(sessions, distractions, goals, days[..i])
      {
        MapSeqSnoc(days, ReportOf(sessions, distractions, goals), i);
        rows := rows + [DayReport(sessions, distractions, goals, days[i])];
      }
      assert days[..7] == days;
      summary := Summarize(rows);
    }
  }

  /** The weekly totals are those of the whole 7-day window, as long as the calendar gives the
      seven days distinct dates; the goal percentage is then in 0..100. */
  lemma WeekTotals(ss: seq<Session>, ds: seq<Distraction>, gs: seq<Goal>, endDay: int, dayName: int -> string)
    requires Distinct(WeekDays(endDay, dayName))
    ensures var days := WeekDays(endDay, dayName);
            var s := Summarize(DayReports(ss, ds, gs, days));
            s.sessionCount == |Filter(ss, SessionInDays(days))| &&
            s.focusMin == SumOf(Filter(ss, SessionInDays(days)), Minutes) &&
            s.distractions == |Filter(ds, DistractionInDays(days))| &&
            s.goalTotal == |Filter(gs, GoalInDays(days))| &&
            s.goalDone == SumOf(Filter(gs, GoalInDays(days)), DoneOne) &&
            0 <= s.goalPct <= 100
  {
    var days := WeekDays(endDay, dayName);
    var rows := DayReports(ss, ds, gs, days);
    WindowSessions(ss, ds, gs, days);
    WindowDistractions(ss, ds, gs, days);
    WindowGoals(ss, ds, gs, days);
    WindowGoalShare(gs, days);
    PercentRange(SumOf(rows, GoalDoneOf), SumOf(rows, GoalTotalOf));
  }
}
