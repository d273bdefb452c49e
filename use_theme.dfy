/**
  * src/hooks/useTheme.ts: the dark/light theme, read from `localStorage` without checking,
  * toggled, applied to the root's classes and written back.
  */
module UseTheme {
  import opened Wrappers
  import opened Browser

  const ThemeKey: string := "gamatec-theme"

  /** `(stored as Theme) || 'dark'`: any non-empty stored text is taken as it is. */
  function InitialTheme(stored: Option<string>): (t: string)
    ensures t != ""
    ensures stored.Some? && stored.value != "" ==> t == stored.value
    ensures stored.None? || stored == Some("") ==> t == "dark"
  {
    if stored.Some? && stored.value != "" then stored.value else "dark"
  }

  /** `prev === 'dark' ? 'light' : 'dark'`. */
  function ToggleTheme(t: string): (r: string)
    ensures r == "light" <==> t == "dark"
    ensures r == "dark" <==> t != "dark"
  {
    if t == "dark" then "light" else "dark"
  }

  /** Two toggles return to the theme for "dark" and "light"; any other text becomes "dark". */
  lemma ToggleTwice(t: string)
    ensures t == "dark" || t == "light" ==> ToggleTheme(ToggleTheme(t)) == t
    ensures t != "dark" && t != "light" ==> ToggleTheme(ToggleTheme(t)) == "light"
  {
  }

  /** The effect: exactly one of `light` and `dark` on the root, then the theme stored. */
  method ApplyTheme(doc: Document, theme: string)
    modifies doc
    ensures "light" in doc.classList <==> theme == "light"
    ensures "dark" in doc.classList <==> theme != "light"
    ensures forall c :: c != "light" && c != "dark" ==> (c in doc.classList <==> c in old(doc.classList))
    ensures doc.storage == if old(doc.storageWritable) then old(doc.storage)[ThemeKey := theme] else old(doc.storage)
    ensures doc.storageWritable == old(doc.storageWritable)
  {
    if theme == "light" {
      doc.AddClass("light");
      doc.RemoveClass("dark");
    } else {
      doc.AddClass("dark");
      doc.RemoveClass("light");
    }
    var _ := doc.SetItem(ThemeKey, theme);
  }

  /** A theme the effect stored is the theme read on the next load. */
  lemma StoredThemeReloads(storage: map<string, string>, theme: string)
    requires theme != ""
    ensures var s := storage[ThemeKey := theme];
      InitialTheme(if ThemeKey in s then Some(s[ThemeKey]) else None) == theme
  {
  }
}
