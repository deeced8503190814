/** `updateStatusBar()` of `app/static/app.js`: the one-line "next action" shown under the
    timer. It chooses the card to highlight, a main line and a hint from the timer state and
    from three counters the server renders into the page as data attributes. The wording of
    the lines is abstracted to constructors; what they show of the state is kept. */
module StatusBar {
  import opened Wrappers
  import opened JsNumber
  import opened TimerSpec

  /** The card the bar points at (`bar.dataset.target`). */
  datatype Target = CardTimer | CardGoals

  /** The main line. Counters are shown as JavaScript would print them; `None` is `NaN`. */
  datatype MainLine =
    | Focusing(clock: string)                   // focusing, with the time left
    | Resting(clock: string)                    // resting, with the time left
    | BreakIdle                                 // break mode: press Start to rest
    | WriteOneGoal                              // no sessions, no goals: write one goal
    | StartFirstSession                         // no sessions yet, goals written
    | SessionsDone(sessions: Option<int>, goalsWritten: bool)
                                                // n sessions logged; suggests a goal when none

  /** The hint line. */
  datatype Hint =
    | NoteDistraction                           // focus: log the distraction and come back
    | RestProperly                              // break: rest, nothing else
    | BreakEndsInFocus                          // break mode switches back to focus by itself
    | OneGoalIsEnough
    | StartBeforePerfect
    | DistractionsLogged(count: Option<int>)
    | LogWhenDistracted

  datatype Status = Status(target: Target, main: MainLine, hint: Hint)

  /** `parseInt(attr || "0", 10)`: a missing or empty attribute reads as zero. */
  function Counter(attr: string): (n: Option<int>)
    ensures attr == "" ==> n == Some(0)
  {
    ParseIntRoundTrip(0);
    ParseInt(if attr == "" then "0" else attr)
  }

  /** `n === 0` on a parsed counter (`NaN === 0` is false). */
  predicate IsZero(n: Option<int>) {
    n == Some(0)
  }

  /** `n > 0` on a parsed counter (`NaN > 0` is false). */
  predicate IsPositive(n: Option<int>) {
    n.Some? && n.value > 0
  }

  /** `extra.mode || mode`. */
  function Shown(mode: Mode, extraMode: Option<Mode>): Mode {
    if extraMode.Some? then extraMode.value else mode
  }

  /** The selection of `updateStatusBar(extra)`. `extraMode` and `extraRem` are the optional
      overrides in `extra`; the counters are the parsed data attributes. */
  function Select(running: bool, mode: Mode, remainingSec: int,
                  extraMode: Option<Mode>, extraRem: Option<int>,
                  goals: Option<int>, sessions: Option<int>, distractions: Option<int>): (st: Status)
    ensures running ==> st.target == CardTimer
    ensures st.target == CardGoals <==>
              !running && Shown(mode, extraMode) == Focus && IsZero(goals)
    ensures st.hint.DistractionsLogged? <==>
              !running && Shown(mode, extraMode) == Focus &&
              !IsZero(sessions) && IsPositive(distractions)
    ensures st.hint.DistractionsLogged? ==> st.hint.count == distractions
  {
    var m := Shown(mode, extraMode);
    var rem := if extraRem.Some? then extraRem.value else remainingSec;
    if running then
      if m == Focus then Status(CardTimer, Focusing(Fmt(rem)), NoteDistraction)
      else Status(CardTimer, Resting(Fmt(rem)), RestProperly)
    else if m == Break then
      Status(CardTimer, BreakIdle, BreakEndsInFocus)
    else
      assert m == Focus;
      if IsZero(sessions) then
        if IsZero(goals) then Status(CardGoals, WriteOneGoal, OneGoalIsEnough)
        else Status(CardTimer, StartFirstSession, StartBeforePerfect)
      else
        Status(if IsZero(goals) then CardGoals else CardTimer,
               SessionsDone(sessions, IsPositive(goals)),
               if IsPositive(distractions) then DistractionsLogged(distractions) else LogWhenDistracted)
  }

  /** The status of the bar for a timer state and the three data attributes. */
  function OfState(s: TimerState, extraMode: Option<Mode>, extraRem: Option<int>,
                   goalsAttr: string, sessionsAttr: string, distractionsAttr: string): (st: Status)
    ensures s.running ==> st.main.Focusing? || st.main.Resting?
    ensures !s.running ==> !st.main.Focusing? && !st.main.Resting?
  {
    Select(s.running, s.mode, s.remainingSec, extraMode, extraRem,
           Counter(goalsAttr), Counter(sessionsAttr), Counter(distractionsAttr))
  }

  /** While the timer runs the bar shows the mode and the clock of the time left, in the same
      "mm:ss" form as the timer display. */
  lemma RunningShowsClock(mode: Mode, sec: int, goals: Option<int>, sessions: Option<int>,
                          distractions: Option<int>)
    requires 0 <= sec < 6000
    ensures var st := Select(true, mode, sec, None, None, goals, sessions, distractions);
            st.target == CardTimer &&
            (mode == Focus ==> st.main.Focusing? && ParseClock(st.main.clock) == Some(sec)) &&
            (mode == Break ==> st.main.Resting? && ParseClock(st.main.clock) == Some(sec))
  {
    FmtRoundTrip(sec);
  }

  /** With counters that are numbers, an idle focus timer suggests writing a goal exactly when
      it points at the goals card. */
  lemma GoalPromptMatchesTarget(remainingSec: int, goals: nat, sessions: nat, distractions: Option<int>)
    ensures var st := Select(false, Focus, remainingSec, None, None, Some(goals), Some(sessions), distractions);
            (st.main == WriteOneGoal || (st.main.SessionsDone? && !st.main.goalsWritten))
              <==> st.target == CardGoals
  {
  }

  /** The one place where the counters disagree with that: a `NaN` goals counter after some
      sessions points at the timer card while the main line still asks for a goal. */
  lemma NaNGoalsAfterSessions(remainingSec: int)
    ensures var st := Select(false, Focus, remainingSec, None, None, None, Some(1), Some(0));
            st.target == CardTimer && st.main == SessionsDone(Some(1), false)
  {
  }
}
