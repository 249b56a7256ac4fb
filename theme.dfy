/** The dark-mode preference: what the toggle writes to `localStorage` under
    the key "darkMode" and how the page reads it back when it loads. */
module Theme {

  const ThemeKey: string := "darkMode"

  /** `localStorage.setItem` turns the boolean it is given into its string form. */
  function PersistedText(dark: bool): (r: string)
    ensures r == "true" || r == "false"
    ensures r == "true" <==> dark
  {
    if dark then "true" else "false"
  }

  /** The load-time test: dark mode only for a stored value of exactly "true";
      a missing key, "false" or any other text leaves the page light. */
  predicate SavedDark(store: map<string, string>)
    ensures SavedDark(store) <==> ThemeKey in store && store[ThemeKey] == PersistedText(true)
    ensures ThemeKey !in store ==> !SavedDark(store)
    ensures ThemeKey in store && store[ThemeKey] == PersistedText(false) ==> !SavedDark(store)
  {
    ThemeKey in store && store[ThemeKey] == "true"
  }

  /** What a toggle stores is what the next page load reads back. */
  lemma PersistRoundTrip(store: map<string, string>, dark: bool)
    ensures SavedDark(store[ThemeKey := PersistedText(dark)]) == dark
  {
  }
}
