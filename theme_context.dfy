/** The theme provider: the current theme name, the list of palettes it is
    looked up in, and the loading flag of the palette fetch. The browser's
    storage is a map owned by the store; whether a storage access throws, the
    system colour preference and the outcome of the fetch are parameters of
    the operations that meet them. */
module ThemeContext {
  import opened ExchangeRate

  /** The nineteen colour slots of a palette. */
  datatype ThemeColors = ThemeColors(
    background: string,
    backgroundAlt: string,
    backgroundElevated: string,
    border: string,
    card: string,
    chip: string,
    formBackground: string,
    formBorder: string,
    icon: string,
    primary: string,
    primaryHover: string,
    shadow: string,
    shadowHover: string,
    tag: string,
    tagText: string,
    text: string,
    textDimmed: string,
    textMuted: string,
    timeline: string)

  datatype ThemeData = ThemeData(id: int, name: string, data: ThemeColors)

  const Light: string := "light"
  const Dark: string := "dark"

  /** The storage key the chosen theme is kept under. */
  const ThemeKey: string := "theme"

  const LightColors: ThemeColors := ThemeColors(
    background := "#ffffff",
    backgroundAlt := "#f9f9f9",
    backgroundElevated := "#f0f0f0",
    border := "#e0e0e0",
    card := "#ffffff",
    chip := "#f0f0f0",
    formBackground := "#f9f9f9",
    formBorder := "#e0e0e0",
    icon := "#0070f3",
    primary := "#0060df",
    primaryHover := "#0050c7",
    shadow := "rgba(0, 0, 0, 0.1)",
    shadowHover := "rgba(0, 0, 0, 0.15)",
    tag := "#f0f0f0",
    tagText := "#555555",
    text := "#333333",
    textDimmed := "#555555",
    textMuted := "#666666",
    timeline := "#e0e0e0")

  const DarkColors: ThemeColors := ThemeColors(
    background := "#121212",
    backgroundAlt := "#1a1a1a",
    backgroundElevated := "#2a2a2a",
    border := "#444444",
    card := "#222222",
    chip := "#2a2a2a",
    formBackground := "#222222",
    formBorder := "#444444",
    icon := "#3291ff",
    primary := "#3291ff",
    primaryHover := "#2280e8",
    shadow := "rgba(0, 0, 0, 0.3)",
    shadowHover := "rgba(0, 0, 0, 0.4)",
    tag := "#333333",
    tagText := "#dddddd",
    text := "#f5f5f5",
    textDimmed := "#cccccc",
    textMuted := "#bbbbbb",
    timeline := "#444444")

  /** The built-in palettes used until (and unless) the fetch delivers others. */
  const FallbackThemes: seq<ThemeData> := [ThemeData(1, Light, LightColors), ThemeData(2, Dark, DarkColors)]

  /** `colors`: the palette data of the first entry named `name`, or nothing. */
  function FindColors(themes: seq<ThemeData>, name: string): (c: Option<ThemeColors>)
    ensures c.None? <==> forall k :: 0 <= k < |themes| ==> themes[k].name != name
    ensures c.Some? ==>
      exists k :: 0 <= k < |themes| && themes[k].name == name && themes[k].data == c.value
        && forall j :: 0 <= j < k ==> themes[j].name != name
  {
    if themes == [] then None
    else if themes[0].name == name then Some(themes[0].data)
    else
      var c := FindColors(themes[1..], name);
      assert forall k :: 1 <= k < |themes| ==> themes[k] == themes[1..][k - 1];
      c
  }

  /** The toggle's flip: "light" becomes "dark", anything else "light". */
  function Flipped(theme: string): (t: string)
    ensures t == Light || t == Dark
    ensures t != theme
  {
    if theme == Light then Dark else Light
  }

  /** The theme chosen at start-up. A saved value that is not empty wins, as
      it is, whatever it says; otherwise "dark" exactly when the system
      prefers dark. `readFails` is a storage access that throws and
      `prefersDark` is `None` when the media query throws: either gives
      "light". */
  function InitialTheme(saved: Option<string>, readFails: bool, prefersDark: Option<bool>): (t: string)
    ensures readFails ==> t == Light
    ensures !readFails && saved.Some? && saved.value != "" ==> t == saved.value
    ensures !readFails && (saved.None? || saved.value == "") ==> (t == Dark <==> prefersDark == Some(true))
    ensures t == Light || t == Dark || (!readFails && saved == Some(t))
  {
    if readFails then Light
    else if saved.Some? && saved.value != "" then saved.value
    else
      match prefersDark
      case None => Light
      case Some(dark) => if dark then Dark else Light
  }

  /** How the palette request ended: a successful response with its list, a
      response whose status is not ok, or a request or body parse that threw. */
  datatype FetchOutcome = Ok(themes: seq<ThemeData>) | HttpError(status: int) | Failed

  /** The list after the fetch settles: a successful response replaces the
      list wholesale while the provider is mounted; anything else keeps it. */
  function ThemesAfterFetch(themes: seq<ThemeData>, outcome: FetchOutcome, mounted: bool): (r: seq<ThemeData>)
    ensures outcome.Ok? && mounted ==> r == outcome.themes
    ensures !(outcome.Ok? && mounted) ==> r == themes
  {
    if outcome.Ok? && mounted then outcome.themes else themes
  }

  class ThemeStore {
    var theme: string
    var themeData: seq<ThemeData>
    var loading: bool
    /** Cleared by the fetch effect's cleanup. */
    var mounted: bool
    /** The browser's local storage. */
    var storage: map<string, string>

    /** The value stored under the theme key, if any. */
    function Saved(): Option<string>
      reads this
    {
      if ThemeKey in storage then Some(storage[ThemeKey]) else None
    }

    /** `colors`. While the list is the fallback one, both known themes
        have colours. */
    function Colors(): (c: Option<ThemeColors>)
      reads this
      ensures themeData == FallbackThemes && (theme == Light || theme == Dark) ==> c.Some?
    {
      FallbackColors(theme);
      FindColors(themeData, theme)
    }

    /** First render: "light", the fallback palettes, loading. */
    constructor(storage0: map<string, string>)
      ensures theme == Light && themeData == FallbackThemes && loading && mounted
      ensures storage == storage0
      ensures Colors() == Some(LightColors)
    {
      theme := Light;
      themeData := FallbackThemes;
      loading := true;
      mounted := true;
      storage := storage0;
    }

    /** `initializeTheme`: reads the saved theme, falling back to the system
        preference, and to "light" when anything throws. */
    method InitializeTheme(readFails: bool, prefersDark: Option<bool>)
      modifies this
      ensures theme == InitialTheme(old(Saved()), readFails, prefersDark)
      ensures themeData == old(themeData) && loading == old(loading)
      ensures mounted == old(mounted) && storage == old(storage)
    {
      var saved := Saved();
      if readFails {
        theme := Light;
      } else if saved.Some? && saved.value != "" {
        theme := saved.value;
      } else {
        match prefersDark
        case None =>
          theme := Light;
        case Some(dark) =>
          theme := if dark then Dark else Light;
      }
    }

    /** The fetch settling: the list is replaced only by a successful
        response while mounted, and loading ends in every case. */
    method FetchSettled(outcome: FetchOutcome)
      modifies this
      ensures themeData == ThemesAfterFetch(old(themeData), outcome, old(mounted))
      ensures !loading
      ensures theme == old(theme) && mounted == old(mounted) && storage == old(storage)
    {
      if outcome.Ok? && mounted {
        themeData := outcome.themes;
      }
      loading := false;
    }

    /** The fetch effect's cleanup. */
    method Unmount()
      modifies this
      ensures !mounted
      ensures theme == old(theme) && themeData == old(themeData) && loading == old(loading)
      ensures storage == old(storage)
    {
      mounted := false;
    }

    /** `toggleTheme`: flips the theme and saves it; a failed save is
        swallowed and the flip stands. */
    method ToggleTheme(writeSucceeds: bool)
      modifies this
      ensures theme == Flipped(old(theme))
      ensures storage == if writeSucceeds then old(storage)[ThemeKey := theme] else old(storage)
      ensures themeData == old(themeData) && loading == old(loading) && mounted == old(mounted)
    {
      theme := Flipped(theme);
      if writeSucceeds {
        storage := storage[ThemeKey := theme];
      }
    }
  }

  // ---------------------------------------------------------------------
  // Properties

  /** The fallback list resolves exactly the two known themes. */
  lemma FallbackColors(name: string)
    ensures FindColors(FallbackThemes, Light) == Some(LightColors)
    ensures FindColors(FallbackThemes, Dark) == Some(DarkColors)
    ensures FindColors(FallbackThemes, name).Some? <==> name == Light || name == Dark
  {
  }

  /** Toggling twice restores the theme exactly when it was one of the two
      known themes; any other saved value is lost at the first toggle. */
  lemma ToggleTwice(theme: string)
    ensures Flipped(Flipped(theme)) == theme <==> theme == Light || theme == Dark
  {
  }

  /** Unless storage holds a non-empty value other than the two known themes,
      the theme chosen at start-up has colours in the fallback list. */
  lemma InitialColorsResolve(saved: Option<string>, readFails: bool, prefersDark: Option<bool>)
    requires saved.None? || saved.value in {"", Light, Dark}
    ensures FindColors(FallbackThemes, InitialTheme(saved, readFails, prefersDark)).Some?
  {
    FallbackColors(InitialTheme(saved, readFails, prefersDark));
  }

  /** A value saved under the theme key is taken unchecked, and then no
      palette matches: `colors` is null. */
  lemma UnexpectedSavedTheme(value: string)
    requires value !in {"", Light, Dark}
    ensures InitialTheme(Some(value), false, None) == value
    ensures FindColors(FallbackThemes, value).None?
  {
    FallbackColors(value);
  }

  /** The fetched list replaces the fallback wholesale, so a successful
      response lacking a theme leaves `colors` null for it. */
  lemma FetchedListCanLackTheme(themes: seq<ThemeData>, theme: string)
    requires forall k :: 0 <= k < |themes| ==> themes[k].name != theme
    ensures FindColors(ThemesAfterFetch(FallbackThemes, Ok(themes), true), theme).None?
  {
  }
}
