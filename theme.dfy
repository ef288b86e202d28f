/** The theme rules: the value applied at load, the toggle, and the toggle's glyph. */
module Theme {
  import opened Wrappers

  const LIGHT := "light"
  const DARK := "dark"

  /** The glyph of the toggle button. */
  datatype Glyph = Moon | Sun

  /**
   * `localStorage.getItem('theme') || 'light'`: a missing entry and an empty
   * string are both falsy and give `light`; any other stored text is used as it is.
   */
  function InitialTheme(stored: Option<string>): (theme: string)
    ensures theme != ""
    ensures stored.Some? && stored.value != "" ==> theme == stored.value
    ensures stored.None? || stored.value == "" ==> theme == LIGHT
  {
    match stored
    case Some(t) => if t != "" then t else LIGHT
    case None => LIGHT
  }

  /** The toggle: `light` becomes `dark`, anything else becomes `light`. */
  function Toggled(theme: string): (next: string)
    ensures next == DARK <==> theme == LIGHT
    ensures next == LIGHT <==> theme != LIGHT
  {
    if theme == LIGHT then DARK else LIGHT
  }

  /** `updateThemeIcon`: the moon exactly for `light`, the sun for every other value. */
  function GlyphFor(theme: string): (g: Glyph)
    ensures g == Moon <==> theme == LIGHT
    ensures g == Sun <==> theme != LIGHT
  {
    if theme == LIGHT then Moon else Sun
  }

  /** Toggling twice restores the theme exactly when it was `light` or `dark`. */
  lemma ToggleTwice(theme: string)
    ensures Toggled(Toggled(theme)) == theme <==> theme in {LIGHT, DARK}
  {
  }

  /** What a toggle stores is what a later load applies. */
  lemma StoredToggleReloads(theme: string)
    ensures InitialTheme(Some(Toggled(theme))) == Toggled(theme)
  {
  }
}
