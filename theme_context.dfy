/**
 * The theme store: the chosen theme (light, dark or system) and colour
 * scheme, both persisted, and the detected system theme. Setting either
 * preference emits on the bus; the effective theme and the scheme's colours
 * are derived values.
 */
module ThemeContext {

  import opened Wrappers
  import opened Persist
  import opened Events

  datatype ColorScheme = Blue | Green | Purple | Amber

  function SchemeName(c: ColorScheme): string {
    match c
    case Blue => "blue"
    case Green => "green"
    case Purple => "purple"
    case Amber => "amber"
  }

  function SchemeOf(s: string): (r: Option<ColorScheme>)
    ensures r.Some? ==> SchemeName(r.value) == s
  {
    if s == "blue" then Some(Blue)
    else if s == "green" then Some(Green)
    else if s == "purple" then Some(Purple)
    else if s == "amber" then Some(Amber)
    else None
  }

  function ThemeNameString(t: ThemeName): string {
    match t
    case Light => "light"
    case Dark => "dark"
    case System => "system"
  }

  function ThemeOf(s: string): (r: Option<ThemeName>)
    ensures r.Some? ==> ThemeNameString(r.value) == s
  {
    if s == "light" then Some(Light)
    else if s == "dark" then Some(Dark)
    else if s == "system" then Some(System)
    else None
  }

  /** The names read back as the values they name, so the stored text identifies the value. */
  lemma NamesRoundTrip(c: ColorScheme, t: ThemeName)
    ensures SchemeOf(SchemeName(c)) == Some(c)
    ensures ThemeOf(ThemeNameString(t)) == Some(t)
    ensures PlainText(SchemeName(c)) && PlainText(ThemeNameString(t))
  {
  }

  datatype Palette = Palette(primary: string, primaryHover: string)

  /** `colorValues`: the primary and hover colours of each scheme. */
  function ColorValues(c: ColorScheme): (p: Palette)
    ensures |p.primary| == 7 && |p.primaryHover| == 7 && p.primary != p.primaryHover
  {
    match c
    case Blue => Palette("#3b82f6", "#2563eb")
    case Green => Palette("#10b981", "#059669")
    case Purple => Palette("#8b5cf6", "#7c3aed")
    case Amber => Palette("#f59e0b", "#d97706")
  }

  /** No two schemes share a primary colour. */
  lemma PalettesDistinct(a: ColorScheme, b: ColorScheme)
    ensures ColorValues(a).primary == ColorValues(b).primary ==> a == b
  {
  }

  /** `theme === 'system' ? systemTheme : theme`. */
  function Effective(theme: ThemeName, systemTheme: ThemeName): ThemeName {
    if theme == System then systemTheme else theme
  }

  /** `toggleTheme`'s choice: the opposite of light or dark, and for `system` the opposite of the detected theme. */
  function Toggled(theme: ThemeName, systemTheme: ThemeName): (r: ThemeName)
    requires systemTheme != System
    ensures r != System
  {
    if theme == Light then Dark
    else if theme == Dark then Light
    else if systemTheme == Light then Dark
    else Light
  }

  /** Toggling always flips what the user sees, and a second toggle restores it. */
  lemma ToggleFlipsEffective(theme: ThemeName, systemTheme: ThemeName)
    requires systemTheme != System
    ensures Effective(Toggled(theme, systemTheme), systemTheme) != Effective(theme, systemTheme)
    ensures Effective(Toggled(Toggled(theme, systemTheme), systemTheme), systemTheme) == Effective(theme, systemTheme)
    ensures theme != System ==> Toggled(Toggled(theme, systemTheme), systemTheme) == theme
  {
  }

  const ThemeKey := "theme"
  const SchemeKey := "colorScheme"

  function DecodeTheme(text: string): Option<ThemeName> {
    match DecodeString(text)
    case None => None
    case Some(s) => ThemeOf(s)
  }

  function DecodeScheme(text: string): Option<ColorScheme> {
    match DecodeString(text)
    case None => None
    case Some(s) => SchemeOf(s)
  }

  function EncodeTheme(t: ThemeName): string {
    NamesRoundTrip(Blue, t);
    EncodeString(ThemeNameString(t))
  }

  function EncodeScheme(c: ColorScheme): string {
    NamesRoundTrip(c, System);
    EncodeString(SchemeName(c))
  }

  /** The stored text of every theme and scheme reads back as itself. */
  lemma CodecRoundTrip(t: ThemeName, c: ColorScheme)
    ensures DecodeTheme(EncodeTheme(t)) == Some(t)
    ensures DecodeScheme(EncodeScheme(c)) == Some(c)
  {
    NamesRoundTrip(c, t);
    StringRoundTrip(ThemeNameString(t));
    StringRoundTrip(SchemeName(c));
  }

  class ThemeStore {
    var theme: ThemeName
    var colorScheme: ColorScheme
    /** What `prefers-color-scheme` reports: light or dark. */
    var systemTheme: ThemeName
    var storage: map<string, string>
    var emitted: seq<Notice>

    predicate Valid()
      reads this
    {
      systemTheme != System
      && ThemeKey in storage && storage[ThemeKey] == EncodeTheme(theme)
      && SchemeKey in storage && storage[SchemeKey] == EncodeScheme(colorScheme)
      && AllWellTyped(emitted)
    }

    /** Starts from storage, defaulting to `system` and `blue`; the system theme starts light. */
    constructor (stored: map<string, string>)
      ensures Valid()
      ensures theme == Load(stored, ThemeKey, DecodeTheme, System)
      ensures colorScheme == Load(stored, SchemeKey, DecodeScheme, Blue)
      ensures ThemeKey !in stored ==> theme == System
      ensures SchemeKey !in stored ==> colorScheme == Blue
      ensures systemTheme == Light && emitted == []
    {
      var t := Load(stored, ThemeKey, DecodeTheme, System);
      var c := Load(stored, SchemeKey, DecodeScheme, Blue);
      theme := t;
      colorScheme := c;
      systemTheme := Light;
      storage := stored[ThemeKey := EncodeTheme(t)][SchemeKey := EncodeScheme(c)];
      emitted := [];
    }

    /** `setTheme`: store the theme and emit `theme:changed`. */
    method SetTheme(t: ThemeName)
      requires Valid()
      modifies this
      ensures Valid()
      ensures theme == t && colorScheme == old(colorScheme) && systemTheme == old(systemTheme)
      ensures storage == old(storage)[ThemeKey := EncodeTheme(t)]
      ensures emitted == old(emitted) + [Notice(ThemeChanged, ThemePayload(t))]
    {
      theme := t;
      storage := storage[ThemeKey := EncodeTheme(t)];
      emitted := emitted + [Notice(ThemeChanged, ThemePayload(t))];
    }

    /** `setColorScheme`: store the scheme and emit `settings:updated` with key `colorScheme`. */
    method SetColorScheme(c: ColorScheme)
      requires Valid()
      modifies this
      ensures Valid()
      ensures colorScheme == c && theme == old(theme) && systemTheme == old(systemTheme)
      ensures storage == old(storage)[SchemeKey := EncodeScheme(c)]
      ensures emitted == old(emitted) + [Notice(SettingsUpdated, SettingPayload("colorScheme", SchemeName(c)))]
    {
      colorScheme := c;
      storage := storage[SchemeKey := EncodeScheme(c)];
      emitted := emitted + [Notice(SettingsUpdated, SettingPayload("colorScheme", SchemeName(c)))];
    }

    /** `toggleTheme`: `setTheme` with the toggled theme, which is never `system`. */
    method ToggleTheme()
      requires Valid()
      modifies this
      ensures Valid()
      ensures theme == Toggled(old(theme), systemTheme) && theme != System
      ensures Effective(theme, systemTheme) != Effective(old(theme), systemTheme)
      ensures colorScheme == old(colorScheme) && systemTheme == old(systemTheme)
      ensures storage == old(storage)[ThemeKey := EncodeTheme(theme)]
      ensures emitted == old(emitted) + [Notice(ThemeChanged, ThemePayload(theme))]
    {
      ToggleFlipsEffective(theme, systemTheme);
      SetTheme(Toggled(theme, systemTheme));
    }

    /** The `prefers-color-scheme` listener: only the detected theme changes; nothing is emitted. */
    method SystemThemeChanged(matchesDark: bool)
      requires Valid()
      modifies this
      ensures Valid()
      ensures systemTheme == (if matchesDark then Dark else Light)
      ensures theme == old(theme) && colorScheme == old(colorScheme)
      ensures storage == old(storage) && emitted == old(emitted)
    {
      systemTheme := if matchesDark then Dark else Light;
    }
  }
}
