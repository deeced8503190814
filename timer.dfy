/** The timer script of `app/static/app.js` as an object: its module variables are the fields,
    `localStorage` is the `store` field, and every handler is a method that updates them in
    place. Each method is proved to leave the object in the state its `TimerSpec` function
    describes, and to keep the invariant `TimerSpec.Inv`. */
module FocusTimer {
  import opened JsNumber
  import opened LocalStore
  import opened TimerSpec

  class Timer {
    var mode: Mode
    var remainingSec: int
    var running: bool          // timerId !== null
    var sessionStart: string   // "" for null
    var plannedFocusMin: int
    var plannedBreakMin: int
    var isSubmitting: bool
    var store: Store           // localStorage
    var submitted: seq<SessionRecord>  // records handed to the session form
    ghost var autoSaves: nat   // automatic submissions so far

    /** The fields as one value. */
    ghost function State(): TimerState
      reads this
    {
      TimerState(mode, remainingSec, running, sessionStart, plannedFocusMin, plannedBreakMin,
                 isSubmitting, store, submitted, autoSaves)
    }

    ghost predicate Valid()
      reads this
    {
      Inv(State())
    }

    /** The script loaded on a page whose `localStorage` holds `saved`. */
    constructor (saved: Store)
      ensures State() == Initial(saved) && Valid()
    {
      mode := Focus;
      remainingSec := 25 * 60;
      running := false;
      sessionStart := "";
      plannedFocusMin := 25;
      plannedBreakMin := 5;
      isSubmitting := false;
      store := saved;
      submitted := [];
      autoSaves := 0;
    }

    // -------------------------------------------------------------------------
    // localStorage helpers

    method LsSetStr(key: string, val: string)
      modifies this
      ensures State() == old(State()).(store := old(store)[key := val])
    {
      store := store[key := val];
    }

    method LsSetBool(key: string, val: bool)
      modifies this
      ensures State() == old(State()).(store := old(store)[key := BoolStr(val)])
      ensures GetBool(store, key, !val) == val
    {
      LsSetStr(key, if val then "1" else "0");
    }

    method LsDel(key: string)
      modifies this
      ensures State() == old(State()).(store := old(store) - {key})
    {
      store := store - {key};
    }

    method PrepareBreakPending(sec: int)
      modifies this
      ensures State() == old(State()).(store := BreakPendingStore(old(store), sec))
    {
      LsSetStr(ModeKey, "break");
      LsSetStr(BreakReadySecKey, IntToStr(sec));
      LsDel(PendingBreakKey);
      LsDel(BreakStartMsKey);
      LsDel(BreakTotalSecKey);
    }

    method PrepareBreakAutoStart(totalSec: int, nowMs: int)
      modifies this
      ensures State() == old(State()).(store := BreakAutoStartStore(old(store), totalSec, nowMs))
    {
      LsSetStr(ModeKey, "break");
      LsSetStr(PendingBreakKey, "1");
      LsSetStr(BreakStartMsKey, IntToStr(nowMs));
      LsSetStr(BreakTotalSecKey, IntToStr(totalSec));
      LsSetStr(BreakReadySecKey, IntToStr(totalSec));
    }

    method ClearBreakStored()
      modifies this
      ensures State() == old(State()).(store := ClearedBreakStore(old(store)))
    {
      LsDel(PendingBreakKey);
      LsDel(BreakStartMsKey);
      LsDel(BreakTotalSecKey);
      LsDel(BreakReadySecKey);
    }

    // -------------------------------------------------------------------------
    // Mode switches

    method SwitchToFocusPending(focusMin: nat)
      requires Valid()
      modifies this
      ensures State() == FocusPending(old(State()), focusMin) && Valid()
    {
      if running {
        running := false;
      }
      ClearBreakStored();
      LsSetStr(ModeKey, "focus");
      mode := Focus;
      sessionStart := "";
      plannedFocusMin := focusMin;
      remainingSec := plannedFocusMin * 60;
    }

    /** Writes the break-resume state for a break of `totalSec` seconds. */
    method PrepareNextBreak(totalSec: int, nowMs: int)
      modifies this
      ensures State() == old(State()).(store := NextBreakStore(old(store), totalSec, nowMs))
    {
      if GetBool(store, AutoBreakKey, false) {
        PrepareBreakAutoStart(totalSec, nowMs);
      } else {
        PrepareBreakPending(totalSec);
      }
    }

    method AutoSaveFocusThenSwitchToBreak(nowIso: string, nowMs: int)
      requires Valid()
      modifies this
      ensures State() == AutoSaved(old(State()), nowIso, nowMs) && Valid()
    {
      if isSubmitting {
        return;
      }
      var rec := SessionRecord(StartOr(sessionStart, nowIso), nowIso, plannedFocusMin);
      var totalBreakSec := plannedBreakMin * 60;
      PrepareNextBreak(totalBreakSec, nowMs);
      isSubmitting, autoSaves := true, autoSaves + 1;
      sessionStart, mode, remainingSec := "", Break, totalBreakSec;
      submitted := submitted + [rec];
    }

    // -------------------------------------------------------------------------
    // User actions and the tick

    method StartTimer(focusMin: nat, breakMin: nat, nowIso: string)
      requires Valid()
      modifies this
      ensures State() == Started(old(State()), focusMin, breakMin, nowIso) && Valid()
    {
      if running {
        return;
      }
      plannedBreakMin := breakMin;
      if mode == Focus {
        if sessionStart == "" {
          plannedFocusMin := focusMin;
          remainingSec := plannedFocusMin * 60;
          sessionStart := nowIso;
        }
      } else {
        if remainingSec <= 0 {
          remainingSec := plannedBreakMin * 60;
        }
      }
      running := true;
    }

    /** The body of the one-second interval callback. */
    method Tick(focusMin: nat, nowIso: string, nowMs: int)
      requires Valid() && running
      modifies this
      ensures State() == Ticked(old(State()), focusMin, nowIso, nowMs) && Valid()
    {
      remainingSec := remainingSec - 1;
      if remainingSec <= 0 {
        remainingSec := 0;
        running := false;
        if mode == Focus {
          AutoSaveFocusThenSwitchToBreak(nowIso, nowMs);
        } else {
          SwitchToFocusPending(focusMin);
        }
      }
    }

    method PauseTimer()
      requires Valid()
      modifies this
      ensures State() == Paused(old(State())) && Valid()
    {
      if running {
        running := false;
      }
    }

    method FinishBtnAction(focusMin: nat, nowIso: string, nowMs: int)
      requires Valid()
      modifies this
      ensures State() == Finished(old(State()), focusMin, nowIso, nowMs) && Valid()
    {
      if mode == Focus {
        var usedSec := plannedFocusMin * 60 - remainingSec;
        var usedMin := Max(1, usedSec / 60);
        var rec := SessionRecord(StartOr(sessionStart, nowIso), nowIso, usedMin);
        var totalBreakSec := plannedBreakMin * 60;
        PrepareNextBreak(totalBreakSec, nowMs);
        sessionStart, mode, remainingSec := "", Break, totalBreakSec;
        submitted := submitted + [rec];
      } else {
        if running {
          running := false;
        }
        SwitchToFocusPending(focusMin);
      }
    }

    method RestoreModeOnLoad(focusMin: nat, breakMin: nat, nowMs: int, nowIso: string)
      requires Valid()
      modifies this
      ensures State() == Restored(old(State()), focusMin, breakMin, nowMs, nowIso) && Valid()
    {
      var savedMode := GetStr(store, ModeKey, "focus");
      if savedMode == "break" {
        if AutoResumeDue(store) {
          ResumeBreak(focusMin, breakMin, nowMs, nowIso);
        } else {
          AwaitBreak(breakMin);
        }
        return;
      }
      RestoreFocus(focusMin);
    }

    /** The focus path of `restoreModeOnLoad()`. */
    method RestoreFocus(focusMin: nat)
      requires Valid()
      modifies this
      ensures State() == old(State()).(mode := Focus, plannedFocusMin := focusMin, remainingSec := focusMin * 60)
      ensures Valid()
    {
      mode := Focus;
      plannedFocusMin := focusMin;
      remainingSec := plannedFocusMin * 60;
    }

    /** The auto-start path of `restoreModeOnLoad()`. */
    method ResumeBreak(focusMin: nat, breakMin: nat, nowMs: int, nowIso: string)
      requires Valid() && AutoResumeDue(store)
      modifies this
      ensures State() == ResumedBreak(old(State()).(mode := Break), focusMin, breakMin, nowMs, nowIso)
      ensures Valid()
    {
      mode := Break;
      remainingSec := ResumeLeft(store, nowMs);
      if remainingSec <= 0 {
        SwitchToFocusPending(focusMin);
      } else {
        StartTimer(focusMin, breakMin, nowIso);
      }
    }

    /** The manual path of `restoreModeOnLoad()`. */
    method AwaitBreak(breakMin: nat)
      requires Valid()
      modifies this
      ensures State() == WaitingBreak(old(State()).(mode := Break), breakMin)
      ensures Valid()
    {
      var readySec := ParseInt(GetStr(store, BreakReadySecKey, "0"));
      if Positive(readySec) {
        mode, remainingSec := Break, readySec.value;
      } else {
        mode, plannedBreakMin, remainingSec := Break, breakMin, breakMin * 60;
      }
    }
  }

  /** A page load: the script starts over on the surviving store and restores its mode. */
  method LoadPage(saved: Store, focusMin: nat, breakMin: nat, nowMs: int, nowIso: string) returns (t: Timer)
    ensures fresh(t) && t.Valid()
    ensures t.State() == Restored(Initial(saved), focusMin, breakMin, nowMs, nowIso)
  {
    t := new Timer(saved);
    t.RestoreModeOnLoad(focusMin, breakMin, nowMs, nowIso);
  }
}
