/** The colour theme of src/validation/ThemeContext.tsx: a "light"/"dark"
    switch that is persisted under "ThemeColor" and mirrored as a class on the
    document's root element. */
module Theme {
  import opened Wrappers

  const StorageKey: string := "ThemeColor"
  const UseThemeError: string := "useTheme must be used within ThemeProvider"

  /** `theme === "dark" ? "light" : "dark"`. */
  function Toggled(theme: string): (r: string)
    ensures r in {"light", "dark"} && r != theme
    ensures theme in {"light", "dark"} ==> {theme, r} == {"light", "dark"}
  {
    if theme == "dark" then "light" else "dark"
  }

  /** `stored || "light"`: a missing or empty stored value falls back. */
  function InitialTheme(stored: Option<string>): (r: string)
    ensures r != ""
    ensures stored.Some? && stored.value != "" ==> r == stored.value
  {
    match stored
    case Some(s) => if s != "" then s else "light"
    case None => "light"
  }

  /** `classList.remove(token)`: every occurrence goes, the rest keep order. */
  function RemoveToken(list: seq<string>, token: string): (r: seq<string>)
    ensures token !in r
    ensures forall t :: t in r <==> t in list && t != token
  {
    if list == [] then []
    else if list[0] == token then RemoveToken(list[1..], token)
    else [list[0]] + RemoveToken(list[1..], token)
  }

  /** `classList.add(token)`: appended unless already present. */
  function AddToken(list: seq<string>, token: string): (r: seq<string>)
    ensures token in r
    ensures forall t :: t in r <==> t in list || t == token
    ensures token in list ==> r == list
  {
    if token in list then list else list + [token]
  }

  /** The provider's state: the theme, the browser's storage and the root
      element's class list. */
  class ThemeProvider {
    var theme: string
    var storage: map<string, string>
    var classList: seq<string>

    /** `useState("light")` on a page whose storage and classes are given. */
    constructor (storage0: map<string, string>, classes0: seq<string>)
      ensures theme == "light" && storage == storage0 && classList == classes0
    {
      theme := "light";
      storage := storage0;
      classList := classes0;
    }

    /** The mount effect: the stored theme, or "light", becomes the theme and
        the root's only theme class. */
    method Mount()
      modifies this
      ensures theme == InitialTheme(if StorageKey in storage then Some(storage[StorageKey]) else None)
      ensures storage == old(storage)
      ensures classList == AddToken(RemoveToken(RemoveToken(old(classList), "light"), "dark"), theme)
      ensures theme in classList && (theme != "light" ==> "light" !in classList)
      ensures theme != "dark" ==> "dark" !in classList
    {
      var stored := if StorageKey in storage then Some(storage[StorageKey]) else None;
      theme := InitialTheme(stored);
      classList := AddToken(RemoveToken(RemoveToken(classList, "light"), "dark"), theme);
    }

    /** `toggleTheme`: flip, persist, and swap the root class. */
    method Toggle()
      modifies this
      ensures theme == Toggled(old(theme))
      ensures storage == old(storage)[StorageKey := theme]
      ensures classList == AddToken(RemoveToken(old(classList), old(theme)), theme)
      ensures old(theme) !in classList && theme in classList
    {
      var newTheme := Toggled(theme);
      storage := storage[StorageKey := newTheme];
      classList := AddToken(RemoveToken(classList, theme), newTheme);
      theme := newTheme;
    }
  }

  /** Toggling twice from "light" or "dark" gives back the theme, and the
      stored value and root class agree with it. */
  method ToggleTwice(p: ThemeProvider)
    requires p.theme in {"light", "dark"}
    modifies p
    ensures p.theme == old(p.theme)
    ensures p.storage == old(p.storage)[StorageKey := p.theme]
    ensures p.theme in p.classList && Toggled(p.theme) !in p.classList
  {
    p.Toggle();
    p.Toggle();
  }

  /** `useTheme()`: the context value inside a provider, the thrown `Error`
      outside one. */
  function UseTheme(context: Option<ThemeProvider>): (r: Result<ThemeProvider>)
    ensures r.Success? <==> context.Some?
    ensures r.Failure? ==> r.error == UseThemeError
    ensures r.Success? ==> r.value == context.value
  {
    match context
    case Some(p) => Success(p)
    case None => Failure(UseThemeError)
  }
}
