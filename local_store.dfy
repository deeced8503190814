/** The browser's `localStorage` as the timer uses it: a map from key to string,
    the keys of the `LS` table and the typed readers `lsGetStr` / `lsGetBool`. */
module LocalStore {

  type Store = map<string, string>

  const SoundKey := "fp_opt_sound"
  const NotifyKey := "fp_opt_notify"
  const AutoBreakKey := "fp_opt_autobreak"
  const ModeKey := "fp_mode"
  const PendingBreakKey := "fp_pending_break"
  const BreakStartMsKey := "fp_break_start_ms"
  const BreakTotalSecKey := "fp_break_total_sec"
  const BreakReadySecKey := "fp_break_ready_sec"

  /** The four keys that make up the persisted break-resume state. */
  const BreakKeys: set<string> := {PendingBreakKey, BreakStartMsKey, BreakTotalSecKey, BreakReadySecKey}

  /** `lsGetStr(key, defVal)`: the stored string, or the default when the key is absent. */
  function GetStr(store: Store, key: string, defVal: string): (r: string)
    ensures key in store ==> r == store[key]
    ensures key !in store ==> r == defVal
  {
    if key in store then store[key] else defVal
  }

  /** How `lsSetBool` writes a boolean. */
  function BoolStr(b: bool): (r: string)
    ensures r == "1" <==> b
  {
    if b then "1" else "0"
  }

  /** `lsGetBool(key, defVal)`: the default when the key is absent, otherwise true exactly
      when the stored string is "1". */
  function GetBool(store: Store, key: string, defVal: bool): (r: bool)
    ensures key !in store ==> r == defVal
    ensures key in store ==> (r <==> store[key] == "1")
  {
    if key !in store then defVal else store[key] == "1"
  }

  /** Writing a boolean and reading it back gives the same boolean, whatever the default. */
  lemma GetBoolOfSetBool(store: Store, key: string, b: bool, defVal: bool)
    ensures GetBool(store[key := BoolStr(b)], key, defVal) == b
  {
  }
}
