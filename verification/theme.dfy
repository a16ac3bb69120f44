/** The demo site's colour theme: cycling, the dark-mode decision and the
    validation of a stored value. */
module Theme {
  import opened Wrappers

  datatype Theme = Light | Dark | System

  /** `['light', 'dark', 'system']`. */
  const Themes: seq<Theme> := [Light, Dark, System]

  function Name(t: Theme): string {
    match t
    case Light => "light"
    case Dark => "dark"
    case System => "system"
  }

  /** `themes.indexOf(current)`. */
  function IndexOf(t: Theme): (r: nat)
    ensures r < |Themes| && Themes[r] == t
  {
    match t
    case Light => 0
    case Dark => 1
    case System => 2
  }

  /** `themes[(indexOf(current) + 1) % themes.length]`. */
  function Cycle(t: Theme): (r: Theme)
    ensures r != t
    ensures t == Light ==> r == Dark
    ensures t == Dark ==> r == System
    ensures t == System ==> r == Light
  {
    Themes[(IndexOf(t) + 1) % |Themes|]
  }

  /** Three steps come back to the start. */
  lemma CycleThrice(t: Theme)
    ensures Cycle(Cycle(Cycle(t))) == t
    ensures Cycle(Cycle(t)) != t
  {
  }

  /** `applyTheme`: dark iff the theme is dark, or follows a dark system preference. */
  predicate IsDark(t: Theme, systemPrefersDark: bool) {
    t == Dark || (t == System && systemPrefersDark)
  }

  lemma DarkDecision(t: Theme, systemPrefersDark: bool)
    ensures t == Light ==> !IsDark(t, systemPrefersDark)
    ensures t == Dark ==> IsDark(t, systemPrefersDark)
    ensures t == System ==> (IsDark(t, systemPrefersDark) <==> systemPrefersDark)
  {
  }

  /** `getSavedTheme`: a stored string is accepted only if it names a theme. */
  function ParseSaved(saved: Option<string>): (r: Option<Theme>)
    ensures r.Some? ==> saved == Some(Name(r.value))
    ensures saved.Some? && saved.value in {"light", "dark", "system"} ==> r.Some?
  {
    if IsPresent(saved) then
      if saved.value == "light" then Some(Light)
      else if saved.value == "dark" then Some(Dark)
      else if saved.value == "system" then Some(System)
      else None
    else None
  }

  /** Saving a theme and reading it back gives the same theme. */
  lemma SavedRoundTrip(t: Theme)
    ensures ParseSaved(Some(Name(t))) == Some(t)
  {
  }
}
