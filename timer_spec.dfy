/** The focus/break timer of `app/static/app.js` as pure transitions over one state record.
    The class in `timer.dfy` updates its fields in place exactly as these functions say;
    the lemmas at the end state what the transitions guarantee over several steps. */
module TimerSpec {
  import opened Wrappers
  import opened JsNumber
  import opened LocalStore

  datatype Mode = Focus | Break

  /** The three form fields submitted to the server when a focus interval ends. */
  datatype SessionRecord = SessionRecord(startTs: string, endTs: string, minutes: int)

  /** The module variables of the script, plus the store and what it has submitted.
      `running` stands for `timerId !== null`; `sessionStart == ""` stands for `null`
      (the script only tests it for truthiness); `autoSaves` counts the automatic
      submissions of this page instance. */
  datatype TimerState = TimerState(
    mode: Mode,
    remainingSec: int,
    running: bool,
    sessionStart: string,
    plannedFocusMin: int,
    plannedBreakMin: int,
    isSubmitting: bool,
    store: Store,
    submitted: seq<SessionRecord>,
    autoSaves: nat)

  /** The invariant every transition keeps: the countdown is never negative and the
      submission guard is set exactly when an automatic submission has happened, so
      there is at most one per page instance. */
  ghost predicate Inv(s: TimerState) {
    s.remainingSec >= 0 && s.plannedFocusMin >= 0 && s.plannedBreakMin >= 0 &&
    s.autoSaves == (if s.isSubmitting then 1 else 0)
  }

  /** The module variables when the script is loaded, over the store that survived the reload. */
  function Initial(store: Store): (r: TimerState)
    ensures Inv(r) && !r.running && r.mode == Focus && r.store == store && r.submitted == []
  {
    TimerState(Focus, 25 * 60, false, "", 25, 5, false, store, [], 0)
  }

  function Max(a: int, b: int): int {
    if a >= b then a else b
  }

  // ---------------------------------------------------------------------------
  // fmt

  /** `fmt(sec)`: minutes and seconds, each padded to two digits, around a colon. */
  function Fmt(sec: int): string {
    PadStart2(IntToStr(sec / 60)) + ":" + PadStart2(IntToStr(JsRem(sec, 60)))
  }

  /** Reads an `mm:ss` display back into seconds. */
  function ParseClock(t: string): Option<int> {
    if |t| == 5 && IsDigit(t[0]) && IsDigit(t[1]) && t[2] == ':' && IsDigit(t[3]) && IsDigit(t[4]) then
      Some((DigitValue(t[0]) * 10 + DigitValue(t[1])) * 60 + DigitValue(t[3]) * 10 + DigitValue(t[4]))
    else None
  }

  /** Below 100 minutes the display has exactly five characters and determines the seconds. */
  lemma FmtRoundTrip(sec: int)
    requires 0 <= sec < 6000
    ensures |Fmt(sec)| == 5
    ensures Fmt(sec)[2] == ':'
    ensures ParseClock(Fmt(sec)) == Some(sec)
  {
    var m := sec / 60;
    var s := sec % 60;
    TwoDigits(m);
    TwoDigits(s);
    var t := Fmt(sec);
    assert t == [DigitChar(m / 10), DigitChar(m % 10)] + ":" + [DigitChar(s / 10), DigitChar(s % 10)];
    assert (m / 10) * 10 + m % 10 == m;
    assert (s / 10) * 10 + s % 10 == s;
  }

  // ---------------------------------------------------------------------------
  // Store helpers

  /** Every key other than the ones a helper writes keeps its presence and its value. */
  ghost predicate Untouched(before: Store, after: Store, k: string) {
    (k in before <==> k in after) && (k in before ==> after[k] == before[k])
  }

  /** `prepareBreakPending(sec)`: a break waiting for a manual Start. */
  function BreakPendingStore(st: Store, sec: int): (r: Store)
    ensures ModeKey in r && r[ModeKey] == "break"
    ensures BreakReadySecKey in r && r[BreakReadySecKey] == IntToStr(sec)
    ensures PendingBreakKey !in r && BreakStartMsKey !in r && BreakTotalSecKey !in r
    ensures forall k :: k !in BreakKeys && k != ModeKey ==> Untouched(st, r, k)
  {
    st[ModeKey := "break"][BreakReadySecKey := IntToStr(sec)]
      - {PendingBreakKey} - {BreakStartMsKey} - {BreakTotalSecKey}
  }

  /** `prepareBreakAutoStart(totalSec)` at wall-clock time `nowMs`: a break that the next
      page load starts by itself. */
  function BreakAutoStartStore(st: Store, totalSec: int, nowMs: int): (r: Store)
    ensures ModeKey in r && r[ModeKey] == "break"
    ensures PendingBreakKey in r && r[PendingBreakKey] == "1"
    ensures BreakStartMsKey in r && r[BreakStartMsKey] == IntToStr(nowMs)
    ensures BreakTotalSecKey in r && r[BreakTotalSecKey] == IntToStr(totalSec)
    ensures BreakReadySecKey in r && r[BreakReadySecKey] == IntToStr(totalSec)
    ensures forall k :: k !in BreakKeys && k != ModeKey ==> Untouched(st, r, k)
  {
    st[ModeKey := "break"][PendingBreakKey := "1"][BreakStartMsKey := IntToStr(nowMs)]
      [BreakTotalSecKey := IntToStr(totalSec)][BreakReadySecKey := IntToStr(totalSec)]
  }

  /** `clearBreakStored()`: forgets the break-resume state. */
  function ClearedBreakStore(st: Store): (r: Store)
    ensures forall k :: k in BreakKeys ==> k !in r
    ensures forall k :: k !in BreakKeys ==> Untouched(st, r, k)
  {
    st - {PendingBreakKey} - {BreakStartMsKey} - {BreakTotalSecKey} - {BreakReadySecKey}
  }

  /** The store after `switchToFocusPending()`. */
  function FocusPendingStore(st: Store): (r: Store)
    ensures ModeKey in r && r[ModeKey] == "focus"
    ensures forall k :: k in BreakKeys ==> k !in r
    ensures forall k :: k !in BreakKeys && k != ModeKey ==> Untouched(st, r, k)
  {
    ClearedBreakStore(st)[ModeKey := "focus"]
  }

  /** The store once a focus interval ends: the auto-break setting only decides whether the
      break is prepared to start by itself. */
  function NextBreakStore(st: Store, totalSec: int, nowMs: int): (r: Store)
    ensures ModeKey in r && r[ModeKey] == "break"
    ensures BreakReadySecKey in r && r[BreakReadySecKey] == IntToStr(totalSec)
    ensures GetBool(st, AutoBreakKey, false) ==> r == BreakAutoStartStore(st, totalSec, nowMs)
    ensures !GetBool(st, AutoBreakKey, false) ==> r == BreakPendingStore(st, totalSec)
  {
    if GetBool(st, AutoBreakKey, false) then BreakAutoStartStore(st, totalSec, nowMs)
    else BreakPendingStore(st, totalSec)
  }

  // ---------------------------------------------------------------------------
  // Transitions

  /** `switchToFocusPending()` with the focus-minutes field holding `focusMin`. */
  function FocusPending(s: TimerState, focusMin: nat): (r: TimerState)
    ensures r.mode == Focus && !r.running && r.sessionStart == ""
    ensures r.remainingSec == focusMin * 60 && r.plannedFocusMin == focusMin
    ensures r.store == FocusPendingStore(s.store)
    ensures r.plannedBreakMin == s.plannedBreakMin && r.isSubmitting == s.isSubmitting
    ensures r.submitted == s.submitted && r.autoSaves == s.autoSaves
    ensures Inv(s) ==> Inv(r)
  {
    s.(running := false, store := FocusPendingStore(s.store), mode := Focus, sessionStart := "",
       plannedFocusMin := focusMin, remainingSec := focusMin * 60)
  }

  /** `startTimer()` with the minute fields holding `focusMin` and `breakMin`, at local time `nowIso`. */
  function Started(s: TimerState, focusMin: nat, breakMin: nat, nowIso: string): (r: TimerState)
    ensures s.running ==> r == s
    ensures !s.running ==> r.running && r.plannedBreakMin == breakMin
    ensures r.mode == s.mode && r.store == s.store && r.submitted == s.submitted
    ensures r.isSubmitting == s.isSubmitting && r.autoSaves == s.autoSaves
    ensures !s.running && s.mode == Focus && s.sessionStart == "" ==>
              r.remainingSec == focusMin * 60 && r.plannedFocusMin == focusMin && r.sessionStart == nowIso
    ensures !s.running && s.mode == Focus && s.sessionStart != "" ==>
              r.remainingSec == s.remainingSec && r.plannedFocusMin == s.plannedFocusMin &&
              r.sessionStart == s.sessionStart
    ensures !s.running && s.mode == Break ==>
              r.remainingSec == (if s.remainingSec <= 0 then breakMin * 60 else s.remainingSec) &&
              r.plannedFocusMin == s.plannedFocusMin && r.sessionStart == s.sessionStart
    ensures Inv(s) ==> Inv(r)
  {
    if s.running then s
    else
      var b := s.(plannedBreakMin := breakMin);
      var c :=
        if b.mode == Focus then
          if b.sessionStart == "" then
            b.(plannedFocusMin := focusMin, remainingSec := focusMin * 60, sessionStart := nowIso)
          else b
        else if b.remainingSec <= 0 then b.(remainingSec := b.plannedBreakMin * 60)
        else b;
      c.(running := true)
  }

  /** `sessionStart || nowIsoLocal()`. */
  function StartOr(sessionStart: string, nowIso: string): string {
    if sessionStart != "" then sessionStart else nowIso
  }

  /** `autoSaveFocusThenSwitchToBreak()` at local time `nowIso` and wall-clock time `nowMs`. */
  function AutoSaved(s: TimerState, nowIso: string, nowMs: int): (r: TimerState)
    ensures s.isSubmitting ==> r == s
    ensures !s.isSubmitting ==>
              r.isSubmitting && r.autoSaves == s.autoSaves + 1 &&
              r.submitted == s.submitted + [SessionRecord(StartOr(s.sessionStart, nowIso), nowIso, s.plannedFocusMin)] &&
              r.mode == Break && r.remainingSec == s.plannedBreakMin * 60 && r.sessionStart == "" &&
              r.store == NextBreakStore(s.store, s.plannedBreakMin * 60, nowMs) &&
              r.running == s.running && r.plannedFocusMin == s.plannedFocusMin &&
              r.plannedBreakMin == s.plannedBreakMin
    ensures Inv(s) ==> Inv(r)
  {
    if s.isSubmitting then s
    else
      var total := s.plannedBreakMin * 60;
      s.(isSubmitting := true, autoSaves := s.autoSaves + 1,
         submitted := s.submitted + [SessionRecord(StartOr(s.sessionStart, nowIso), nowIso, s.plannedFocusMin)],
         sessionStart := "", store := NextBreakStore(s.store, total, nowMs),
         mode := Break, remainingSec := total)
  }

  /** One call of the interval callback installed by `startTimer()`; it only runs while the
      interval is open. */
  function Ticked(s: TimerState, focusMin: nat, nowIso: string, nowMs: int): (r: TimerState)
    requires s.running
    ensures s.remainingSec > 1 ==> r == s.(remainingSec := s.remainingSec - 1)
    ensures s.remainingSec <= 1 ==> !r.running
    ensures s.remainingSec <= 1 && s.mode == Break ==>
              r == FocusPending(s.(remainingSec := 0, running := false), focusMin)
    ensures s.remainingSec <= 1 && s.mode == Focus ==>
              r == AutoSaved(s.(remainingSec := 0, running := false), nowIso, nowMs)
    ensures s.mode == Break ==> r.submitted == s.submitted
    ensures Inv(s) ==> Inv(r)
  {
    var dec := s.(remainingSec := s.remainingSec - 1);
    if dec.remainingSec > 0 then dec
    else
      var stopped := dec.(remainingSec := 0, running := false);
      if stopped.mode == Focus then AutoSaved(stopped, nowIso, nowMs) else FocusPending(stopped, focusMin)
  }

  /** `pauseTimer()`. */
  function Paused(s: TimerState): (r: TimerState)
    ensures !r.running
    ensures r.mode == s.mode && r.remainingSec == s.remainingSec && r.sessionStart == s.sessionStart
    ensures r.store == s.store && r.submitted == s.submitted
    ensures r.(running := s.running) == s
    ensures Inv(s) ==> Inv(r)
  {
    s.(running := false)
  }

  /** The minutes a manual Finish records: the elapsed part of the planned interval, floored to
      whole minutes, at least one. */
  function UsedMinutes(plannedFocusMin: int, remainingSec: int): (m: int)
    ensures m >= 1
    ensures var used := plannedFocusMin * 60 - remainingSec;
            used >= 60 ==> m * 60 <= used < m * 60 + 60
    ensures plannedFocusMin * 60 - remainingSec < 120 ==> m == 1
  {
    Max(1, (plannedFocusMin * 60 - remainingSec) / 60)
  }

  /** `finishBtnAction()`: Finish in focus mode, Skip in break mode. */
  function Finished(s: TimerState, focusMin: nat, nowIso: string, nowMs: int): (r: TimerState)
    ensures s.mode == Focus ==>
              r.submitted == s.submitted + [SessionRecord(StartOr(s.sessionStart, nowIso), nowIso,
                                                          UsedMinutes(s.plannedFocusMin, s.remainingSec))] &&
              r.mode == Break && r.remainingSec == s.plannedBreakMin * 60 && r.sessionStart == "" &&
              r.store == NextBreakStore(s.store, s.plannedBreakMin * 60, nowMs) &&
              r.running == s.running && r.isSubmitting == s.isSubmitting &&
              r.plannedFocusMin == s.plannedFocusMin && r.plannedBreakMin == s.plannedBreakMin &&
              r.autoSaves == s.autoSaves
    ensures s.mode == Break ==> r == FocusPending(s, focusMin)
    ensures s.mode == Break ==> r.submitted == s.submitted
    ensures Inv(s) ==> Inv(r)
  {
    if s.mode == Focus then
      var used := UsedMinutes(s.plannedFocusMin, s.remainingSec);
      var total := s.plannedBreakMin * 60;
      s.(store := NextBreakStore(s.store, total, nowMs), sessionStart := "", mode := Break,
         remainingSec := total,
         submitted := s.submitted + [SessionRecord(StartOr(s.sessionStart, nowIso), nowIso, used)])
    else
      FocusPending(s.(running := false), focusMin)
  }

  predicate Positive(n: Option<int>) {
    n.Some? && n.value > 0
  }

  /** The conditions under which a page load resumes a break by itself: the auto-break setting is
      still on, the pending flag is "1", and the start instant and total parse to positive numbers. */
  predicate AutoResumeDue(st: Store) {
    GetBool(st, AutoBreakKey, false) &&
    GetStr(st, PendingBreakKey, "0") == "1" &&
    Positive(ParseInt(GetStr(st, BreakStartMsKey, "0"))) &&
    Positive(ParseInt(GetStr(st, BreakTotalSecKey, "0")))
  }

  /** What is left of an auto-started break at wall-clock time `nowMs`. */
  function ResumeLeft(st: Store, nowMs: int): (left: int)
    requires AutoResumeDue(st)
    ensures left >= 0
    ensures var total := ParseInt(GetStr(st, BreakTotalSecKey, "0")).value;
            var start := ParseInt(GetStr(st, BreakStartMsKey, "0")).value;
            left == 0 <==> (nowMs - start) / 1000 >= total
  {
    var total := ParseInt(GetStr(st, BreakTotalSecKey, "0")).value;
    var start := ParseInt(GetStr(st, BreakStartMsKey, "0")).value;
    Max(0, total - (nowMs - start) / 1000)
  }

  /** The auto-start path of `restoreModeOnLoad()`: the break resumes with what is left of it,
      or, when nothing is left, the timer switches to a focus interval waiting for Start. */
  function ResumedBreak(b: TimerState, focusMin: nat, breakMin: nat, nowMs: int, nowIso: string): (r: TimerState)
    requires b.mode == Break && AutoResumeDue(b.store)
    ensures var left := ResumeLeft(b.store, nowMs);
            (left == 0 ==> r == FocusPending(b.(remainingSec := 0), focusMin)) &&
            (left > 0 && !b.running ==>
               r.mode == b.mode && r.running && r.remainingSec == left && r.store == b.store &&
               r.plannedBreakMin == breakMin && r.submitted == b.submitted)
    ensures Inv(b) ==> Inv(r)
  {
    var c := b.(remainingSec := ResumeLeft(b.store, nowMs));
    if c.remainingSec <= 0 then FocusPending(c, focusMin) else Started(c, focusMin, breakMin, nowIso)
  }

  /** The manual path of `restoreModeOnLoad()`: the break waits for Start, showing the stored
      ready seconds when they are positive and the break-minutes field otherwise. */
  function WaitingBreak(b: TimerState, breakMin: nat): (r: TimerState)
    ensures var ready := ParseInt(GetStr(b.store, BreakReadySecKey, "0"));
            r.mode == b.mode && r.running == b.running && r.store == b.store &&
            r.submitted == b.submitted &&
            r.remainingSec == (if Positive(ready) then ready.value else breakMin * 60)
    ensures Inv(b) ==> Inv(r)
  {
    var ready := ParseInt(GetStr(b.store, BreakReadySecKey, "0"));
    if Positive(ready) then b.(remainingSec := ready.value)
    else b.(plannedBreakMin := breakMin, remainingSec := breakMin * 60)
  }

  /** `restoreModeOnLoad()` at wall-clock time `nowMs` and local time `nowIso`, with the minute
      fields holding `focusMin` and `breakMin`. */
  function Restored(s: TimerState, focusMin: nat, breakMin: nat, nowMs: int, nowIso: string): (r: TimerState)
    ensures GetStr(s.store, ModeKey, "focus") != "break" ==>
              r.mode == Focus && r.remainingSec == focusMin * 60 && r.plannedFocusMin == focusMin &&
              r.running == s.running && r.store == s.store && r.submitted == s.submitted &&
              r.sessionStart == s.sessionStart && r.plannedBreakMin == s.plannedBreakMin &&
              r.isSubmitting == s.isSubmitting && r.autoSaves == s.autoSaves
    ensures GetStr(s.store, ModeKey, "focus") == "break" && AutoResumeDue(s.store) ==>
              r == ResumedBreak(s.(mode := Break), focusMin, breakMin, nowMs, nowIso)
    ensures GetStr(s.store, ModeKey, "focus") == "break" && !AutoResumeDue(s.store) ==>
              r == WaitingBreak(s.(mode := Break), breakMin)
    ensures Inv(s) ==> Inv(r)
  {
    if GetStr(s.store, ModeKey, "focus") == "break" then
      var b := s.(mode := Break);
      if AutoResumeDue(s.store) then ResumedBreak(b, focusMin, breakMin, nowMs, nowIso)
      else WaitingBreak(b, breakMin)
    else
      s.(mode := Focus, plannedFocusMin := focusMin, remainingSec := focusMin * 60)
  }

  // ---------------------------------------------------------------------------
  // Properties over several steps

  /** `k` calls of the tick callback with the same clock readings (it stops being called once
      the interval is cleared). */
  function RunTicks(s: TimerState, k: nat, focusMin: nat, nowIso: string, nowMs: int): TimerState
    decreases k
  {
    if k == 0 || !s.running then s
    else RunTicks(Ticked(s, focusMin, nowIso, nowMs), k - 1, focusMin, nowIso, nowMs)
  }

  /** Before the countdown reaches zero, each tick lowers the remaining time by exactly one and
      changes nothing else. */
  lemma {:induction false} CountdownBeforeZero(s: TimerState, k: nat, focusMin: nat, nowIso: string, nowMs: int)
    requires s.running && k < s.remainingSec
    ensures RunTicks(s, k, focusMin, nowIso, nowMs) == s.(remainingSec := s.remainingSec - k)
    decreases k
  {
    if k > 0 {
      var t := Ticked(s, focusMin, nowIso, nowMs);
      assert t == s.(remainingSec := s.remainingSec - 1);
      CountdownBeforeZero(t, k - 1, focusMin, nowIso, nowMs);
    }
  }

  /** From a running countdown at `n >= 1` seconds, the `n`-th tick is the completing one. */
  lemma {:induction false} CountdownCompletes(s: TimerState, focusMin: nat, nowIso: string, nowMs: int)
    requires s.running && s.remainingSec >= 1
    ensures RunTicks(s, s.remainingSec, focusMin, nowIso, nowMs) ==
            Ticked(s.(remainingSec := 1), focusMin, nowIso, nowMs)
    decreases s.remainingSec
  {
    var t := Ticked(s, focusMin, nowIso, nowMs);
    if s.remainingSec > 1 {
      assert t == s.(remainingSec := s.remainingSec - 1);
      CountdownCompletes(t, focusMin, nowIso, nowMs);
      assert t.(remainingSec := 1) == s.(remainingSec := 1);
    } else {
      assert s == s.(remainingSec := 1);
    }
  }

  /** A running break of `n >= 1` seconds ends, after exactly `n` ticks, in a focus interval
      waiting for Start, with no break-resume keys left and no session recorded. */
  lemma BreakCountdownEndsInFocus(s: TimerState, focusMin: nat, nowIso: string, nowMs: int)
    requires s.running && s.mode == Break && s.remainingSec >= 1
    ensures var r := RunTicks(s, s.remainingSec, focusMin, nowIso, nowMs);
            r.mode == Focus && !r.running && r.remainingSec == focusMin * 60 &&
            r.submitted == s.submitted && (forall k :: k in BreakKeys ==> k !in r.store)
  {
    CountdownCompletes(s, focusMin, nowIso, nowMs);
  }

  /** A break that has run out leaves the store in focus mode: a reload afterwards shows an idle
      focus interval of the minutes then in the field, with no break-resume keys. */
  lemma BreakEndThenReload(s: TimerState, focusMin: nat, nowIso: string, nowMs: int,
                           loadFocusMin: nat, breakMin: nat, loadMs: int, loadIso: string)
    requires s.running && s.mode == Break && s.remainingSec >= 1
    ensures var done := RunTicks(s, s.remainingSec, focusMin, nowIso, nowMs);
            var page := Restored(Initial(done.store), loadFocusMin, breakMin, loadMs, loadIso);
            page.mode == Focus && !page.running && page.remainingSec == loadFocusMin * 60 &&
            forall k :: k in BreakKeys ==> k !in page.store
  {
    CountdownCompletes(s, focusMin, nowIso, nowMs);
    var done := RunTicks(s, s.remainingSec, focusMin, nowIso, nowMs);
    assert done.store == FocusPendingStore(s.store);
    assert GetStr(done.store, ModeKey, "focus") == "focus";
  }

  /** A running focus interval of `n >= 1` seconds submits, after exactly `n` ticks, one record
      of the planned minutes (unless this page already submitted automatically) and moves to a
      break of the planned break length. */
  lemma FocusCountdownSubmitsOnce(s: TimerState, focusMin: nat, nowIso: string, nowMs: int)
    requires s.running && s.mode == Focus && s.remainingSec >= 1
    ensures var r := RunTicks(s, s.remainingSec, focusMin, nowIso, nowMs);
            !r.running &&
            (s.isSubmitting ==> r.submitted == s.submitted && r.mode == Focus && r.remainingSec == 0) &&
            (!s.isSubmitting ==>
               r.submitted == s.submitted + [SessionRecord(StartOr(s.sessionStart, nowIso), nowIso, s.plannedFocusMin)] &&
               r.mode == Break && r.remainingSec == s.plannedBreakMin * 60)
  {
    CountdownCompletes(s, focusMin, nowIso, nowMs);
  }

  /** Pausing and starting again resumes from the same remaining time, unless nothing was left. */
  lemma PauseThenStartResumes(s: TimerState, focusMin: nat, breakMin: nat, nowIso: string)
    requires s.running
    requires s.mode == Focus ==> s.sessionStart != ""
    requires s.mode == Break ==> s.remainingSec > 0
    ensures var r := Started(Paused(s), focusMin, breakMin, nowIso);
            r.running && r.remainingSec == s.remainingSec && r.mode == s.mode && r.store == s.store
  {
  }

  /** Auto-break on: a focus interval completes at `t0`, the page reloads, and the load at
      `t0 + delayMs` either resumes the break with the whole elapsed seconds taken off, or, once
      the break is over, goes straight to a focus interval waiting for Start. */
  lemma AutoBreakSurvivesReload(s: TimerState, nowIso: string, t0: int, delayMs: int,
                                focusMin: nat, breakMin: nat, loadIso: string)
    requires s.mode == Focus && !s.isSubmitting && !s.running
    requires GetBool(s.store, AutoBreakKey, false)
    requires s.plannedBreakMin > 0 && t0 > 0
    ensures var done := AutoSaved(s, nowIso, t0);
            var page := Restored(Initial(done.store), focusMin, breakMin, t0 + delayMs, loadIso);
            var total := s.plannedBreakMin * 60;
            (delayMs / 1000 < total ==>
               page.mode == Break && page.running && page.remainingSec == total - delayMs / 1000) &&
            (delayMs / 1000 >= total ==>
               page.mode == Focus && !page.running && page.remainingSec == focusMin * 60 &&
               forall k :: k in BreakKeys ==> k !in page.store)
  {
    var total := s.plannedBreakMin * 60;
    var st := AutoSaved(s, nowIso, t0).store;
    AutoSavedStoreResumes(s, nowIso, t0);
    var b := Initial(st).(mode := Break);
    assert Restored(Initial(st), focusMin, breakMin, t0 + delayMs, loadIso)
        == ResumedBreak(b, focusMin, breakMin, t0 + delayMs, loadIso);
    assert t0 + delayMs - t0 == delayMs;
    assert ResumeLeft(st, t0 + delayMs) == Max(0, total - delayMs / 1000);
  }

  /** With auto-break on, the store an automatic save leaves behind asks the next page load to
      resume a break of the planned length, started at `t0`. */
  lemma AutoSavedStoreResumes(s: TimerState, nowIso: string, t0: int)
    requires s.mode == Focus && !s.isSubmitting
    requires GetBool(s.store, AutoBreakKey, false)
    requires s.plannedBreakMin > 0 && t0 > 0
    ensures var st := AutoSaved(s, nowIso, t0).store;
            GetStr(st, ModeKey, "focus") == "break" && AutoResumeDue(st) &&
            ParseInt(GetStr(st, BreakStartMsKey, "0")) == Some(t0) &&
            ParseInt(GetStr(st, BreakTotalSecKey, "0")) == Some(s.plannedBreakMin * 60)
  {
    var total := s.plannedBreakMin * 60;
    var st := AutoSaved(s, nowIso, t0).store;
    assert st == BreakAutoStartStore(s.store, total, t0);
    assert AutoBreakKey !in BreakKeys && AutoBreakKey != ModeKey;
    assert Untouched(s.store, st, AutoBreakKey);
    assert GetBool(st, AutoBreakKey, false);
    assert GetStr(st, PendingBreakKey, "0") == "1";
    assert GetStr(st, BreakStartMsKey, "0") == IntToStr(t0);
    assert GetStr(st, BreakTotalSecKey, "0") == IntToStr(total);
    ParseIntRoundTrip(t0);
    ParseIntRoundTrip(total);
  }

  /** Auto-break off: after a focus interval completes and the page reloads, the break waits for
      Start with the planned break length, whatever the minute fields now hold. */
  lemma ManualBreakSurvivesReload(s: TimerState, nowIso: string, t0: int,
                                  focusMin: nat, breakMin: nat, loadMs: int, loadIso: string)
    requires s.mode == Focus && !s.isSubmitting
    requires !GetBool(s.store, AutoBreakKey, false)
    requires s.plannedBreakMin > 0
    ensures var done := AutoSaved(s, nowIso, t0);
            var page := Restored(Initial(done.store), focusMin, breakMin, loadMs, loadIso);
            page.mode == Break && !page.running && page.remainingSec == s.plannedBreakMin * 60
  {
    var total := s.plannedBreakMin * 60;
    var st := AutoSaved(s, nowIso, t0).store;
    assert st == BreakPendingStore(s.store, total);
    assert AutoBreakKey !in BreakKeys && AutoBreakKey != ModeKey;
    assert Untouched(s.store, st, AutoBreakKey);
    assert !AutoResumeDue(st);
    ParseIntRoundTrip(total);
    assert ParseInt(GetStr(st, BreakReadySecKey, "0")) == Some(total);
  }

  /** The auto-start path also needs the auto-break setting to be on when the page loads: a break
      prepared to start by itself, with the setting switched off before the reload, waits for
      Start instead, showing the stored total. */
  lemma AutoBreakSwitchedOffBeforeReload(st: Store, totalSec: int, t0: int,
                                         focusMin: nat, breakMin: nat, loadMs: int, loadIso: string)
    requires totalSec > 0
    ensures var off := BreakAutoStartStore(st, totalSec, t0)[AutoBreakKey := BoolStr(false)];
            var page := Restored(Initial(off), focusMin, breakMin, loadMs, loadIso);
            page.mode == Break && !page.running && page.remainingSec == totalSec
  {
    var off := BreakAutoStartStore(st, totalSec, t0)[AutoBreakKey := BoolStr(false)];
    assert !GetBool(off, AutoBreakKey, false);
    assert GetStr(off, ModeKey, "focus") == "break";
    assert !AutoResumeDue(off);
    ParseIntRoundTrip(totalSec);
    assert ParseInt(GetStr(off, BreakReadySecKey, "0")) == Some(totalSec);
    assert Restored(Initial(off), focusMin, breakMin, loadMs, loadIso)
        == WaitingBreak(Initial(off).(mode := Break), breakMin);
  }
}
