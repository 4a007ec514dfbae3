/** The app's persisted preferences: the theme mode and whether the
    onboarding was seen, loaded from a key/value store and written back on
    every change. */
module Preferences {
  import opened Wrappers

  const KEY_THEME_MODE: string := "theme_mode"
  const KEY_ONBOARDING_SEEN: string := "onboarding_seen"

  datatype ThemeMode = SYSTEM | LIGHT | DARK {
    /** The string a mode is stored as. */
    function Value(): string {
      match this
      case SYSTEM => "system"
      case LIGHT => "light"
      case DARK => "dark"
    }
  }

  /** `ThemeMode.values()`, in declaration order. */
  const ALL_MODES: seq<ThemeMode> := [SYSTEM, LIGHT, DARK]

  /** `firstOrNull { it.value == value }` over `modes`. */
  function FirstWithValue(modes: seq<ThemeMode>, value: Option<string>): (r: Option<ThemeMode>)
    ensures r.Some? ==> r.value in modes && value == Some(r.value.Value())
    ensures r.None? ==> forall m :: m in modes ==> value != Some(m.Value())
  {
    if modes == [] then None
    else if value == Some(modes[0].Value()) then Some(modes[0])
    else FirstWithValue(modes[1..], value)
  }

  /** `ThemeMode.fromValue`: the mode stored as `value`, and SYSTEM for an
      absent or unrecognised value. */
  function FromValue(value: Option<string>): (r: ThemeMode)
    ensures r == LIGHT <==> value == Some("light")
    ensures r == DARK <==> value == Some("dark")
    ensures r == SYSTEM <==> value != Some("light") && value != Some("dark")
  {
    assert LIGHT in ALL_MODES && DARK in ALL_MODES && SYSTEM in ALL_MODES;
    FirstWithValue(ALL_MODES, value).GetOr(SYSTEM)
  }

  /** Reading a mode's own value gives the mode back, so the stored
      strings tell the modes apart. */
  lemma FromValueOfValue(m: ThemeMode)
    ensures FromValue(Some(m.Value())) == m
  {
  }

  lemma ValuesDistinct(m1: ThemeMode, m2: ThemeMode)
    requires m1.Value() == m2.Value()
    ensures m1 == m2
  {
    FromValueOfValue(m1);
    FromValueOfValue(m2);
  }

  // ---------------------------------------------------------------------
  // The store

  /** A stored entry: the store keeps strings and booleans. */
  datatype PrefValue = StringPref(s: string) | BoolPref(b: bool)

  type Store = map<string, PrefValue>

  /** The entries this app reads have the type it reads them as; a string
      under the onboarding key, or a boolean under the theme key, would
      make the platform's typed getters throw. */
  predicate WellTyped(store: Store) {
    && (KEY_THEME_MODE in store ==> store[KEY_THEME_MODE].StringPref?)
    && (KEY_ONBOARDING_SEEN in store ==> store[KEY_ONBOARDING_SEEN].BoolPref?)
  }

  /** `getString(KEY_THEME_MODE, null)` then `fromValue`. */
  function LoadedTheme(store: Store): (r: ThemeMode)
    requires WellTyped(store)
    ensures KEY_THEME_MODE !in store ==> r == SYSTEM
  {
    FromValue(if KEY_THEME_MODE in store then Some(store[KEY_THEME_MODE].s) else None)
  }

  /** `getBoolean(KEY_ONBOARDING_SEEN, false)`. */
  function LoadedOnboarding(store: Store): (r: bool)
    requires WellTyped(store)
    ensures KEY_ONBOARDING_SEEN !in store ==> !r
  {
    KEY_ONBOARDING_SEEN in store && store[KEY_ONBOARDING_SEEN].b
  }

  /** A fresh store loads as SYSTEM, not yet onboarded. */
  lemma LoadEmpty()
    ensures LoadedTheme(map[]) == SYSTEM && !LoadedOnboarding(map[])
  {
  }

  /** Writing a mode and reloading gives that mode back, and the
      onboarding flag is untouched. */
  lemma ReloadAfterSetTheme(store: Store, mode: ThemeMode)
    requires WellTyped(store)
    ensures WellTyped(store[KEY_THEME_MODE := StringPref(mode.Value())])
    ensures LoadedTheme(store[KEY_THEME_MODE := StringPref(mode.Value())]) == mode
    ensures LoadedOnboarding(store[KEY_THEME_MODE := StringPref(mode.Value())])
            == LoadedOnboarding(store)
  {
    FromValueOfValue(mode);
  }

  /** Writing the onboarding flag and reloading gives that flag back, and
      the theme is untouched. */
  lemma ReloadAfterSetOnboarding(store: Store, seen: bool)
    requires WellTyped(store)
    ensures WellTyped(store[KEY_ONBOARDING_SEEN := BoolPref(seen)])
    ensures LoadedOnboarding(store[KEY_ONBOARDING_SEEN := BoolPref(seen)]) == seen
    ensures LoadedTheme(store[KEY_ONBOARDING_SEEN := BoolPref(seen)]) == LoadedTheme(store)
  {
    var s2 := store[KEY_ONBOARDING_SEEN := BoolPref(seen)];
    assert KEY_THEME_MODE != KEY_ONBOARDING_SEEN;
    assert (KEY_THEME_MODE in s2) == (KEY_THEME_MODE in store);
  }

  // ---------------------------------------------------------------------
  // The remembered state

  /** `rememberAppPreferencesState`: the two remembered values and the
      store they are written through. */
  class AppPreferencesState {
    var themeMode: ThemeMode
    var hasSeenOnboarding: bool
    var store: Store

    /** The remembered values are what reloading the store would give. */
    ghost predicate Synced()
      reads this
    {
      && WellTyped(store)
      && themeMode == LoadedTheme(store)
      && hasSeenOnboarding == LoadedOnboarding(store)
    }

    /** The initial load. */
    constructor(prefs: Store)
      requires WellTyped(prefs)
      ensures store == prefs && Synced()
      ensures themeMode == LoadedTheme(prefs) && hasSeenOnboarding == LoadedOnboarding(prefs)
    {
      store := prefs;
      themeMode := LoadedTheme(prefs);
      hasSeenOnboarding := LoadedOnboarding(prefs);
    }

    /** `setThemeMode`: remembers the mode and stores its value. */
    method SetThemeMode(mode: ThemeMode)
      requires Synced()
      modifies this
      ensures Synced()
      ensures themeMode == mode && hasSeenOnboarding == old(hasSeenOnboarding)
      ensures store == old(store)[KEY_THEME_MODE := StringPref(mode.Value())]
    {
      ReloadAfterSetTheme(store, mode);
      themeMode := mode;
      store := store[KEY_THEME_MODE := StringPref(mode.Value())];
    }

    /** `setOnboardingSeen`: remembers the flag and stores it. */
    method SetOnboardingSeen(seen: bool)
      requires Synced()
      modifies this
      ensures Synced()
      ensures hasSeenOnboarding == seen && themeMode == old(themeMode)
      ensures store == old(store)[KEY_ONBOARDING_SEEN := BoolPref(seen)]
    {
      ReloadAfterSetOnboarding(store, seen);
      hasSeenOnboarding := seen;
      store := store[KEY_ONBOARDING_SEEN := BoolPref(seen)];
    }
  }
}
