/** The light/dark theme: read from storage at start, flipped by the toggle,
    and mirrored into storage and the body's class list by an effect that
    runs after every change. */
module ThemeContext {
  import opened Common

  const Light: string := "light"
  const Dark: string := "dark"
  const DarkClass: string := "dark-theme"

  /** `savedTheme || 'light'`: an absent or empty slot gives "light". */
  function InitialTheme(saved: Option<string>): (r: string)
    ensures saved.Some? && saved.value != "" ==> r == saved.value
    ensures saved.None? || saved.value == "" ==> r == Light
    ensures r != ""
  {
    if saved.Some? && saved.value != "" then saved.value else Light
  }

  /** `prevTheme === 'light' ? 'dark' : 'light'`. */
  function Toggled(theme: string): (r: string)
    ensures r == Dark <==> theme == Light
    ensures r == Light || r == Dark
  {
    if theme == Light then Dark else Light
  }

  /** Toggling twice from either theme gives it back; from any other stored
      value it ends on "dark". */
  lemma ToggleTwice(theme: string)
    ensures theme == Light || theme == Dark ==> Toggled(Toggled(theme)) == theme
    ensures theme != Light && theme != Dark ==> Toggled(Toggled(theme)) == Dark
  {
  }

  /** The theme after `n` presses of the toggle. */
  function ToggledTimes(theme: string, n: nat): string {
    if n == 0 then theme else Toggled(ToggledTimes(theme, n - 1))
  }

  lemma {:induction false} ToggledTimesNonEmpty(theme: string, n: nat)
    requires theme != ""
    ensures ToggledTimes(theme, n) != ""
  {
    if n > 0 {
      ToggledTimesNonEmpty(theme, n - 1);
    }
  }

  /** Whatever theme the provider holds is stored by the effect, and it is
      the theme the next start reads back. */
  lemma StoredThemeSurvivesReload(saved: Option<string>, toggles: nat)
    ensures InitialTheme(Some(ToggledTimes(InitialTheme(saved), toggles))) == ToggledTimes(InitialTheme(saved), toggles)
  {
    ToggledTimesNonEmpty(InitialTheme(saved), toggles);
  }

  /** The body's classes once the effect has run for `theme`. */
  function BodyClasses(theme: string, classes: set<string>): (r: set<string>)
    ensures DarkClass in r <==> theme == Dark
    ensures r - {DarkClass} == classes - {DarkClass}
  {
    if theme == Dark then classes + {DarkClass} else classes - {DarkClass}
  }

  /** The state cell `theme`, the storage slot "theme" and the class list of
      `document.body`. */
  class Theme {
    var theme: string
    var stored: Option<string>
    var bodyClasses: set<string>

    /** What the effect establishes. */
    predicate Mirrored()
      reads this
    {
      stored == Some(theme) && (DarkClass in bodyClasses <==> theme == Dark)
    }

    /** Mounting: the initial theme from storage, then the effect. */
    constructor (saved: Option<string>, classes: set<string>)
      ensures theme == InitialTheme(saved)
      ensures saved.Some? && saved.value != "" ==> theme == saved.value
      ensures saved.None? || saved.value == "" ==> theme == Light
      ensures stored == Some(theme) && bodyClasses == BodyClasses(theme, classes)
      ensures Mirrored()
    {
      theme := InitialTheme(saved);
      stored := saved;
      bodyClasses := classes;
      new;
      Effect();
    }

    /** The effect: store the theme and add or remove the dark class. */
    method Effect()
      modifies this
      ensures theme == old(theme) && stored == Some(theme)
      ensures bodyClasses == BodyClasses(theme, old(bodyClasses))
      ensures Mirrored()
    {
      stored := Some(theme);
      if theme == Dark {
        bodyClasses := bodyClasses + {DarkClass};
      } else {
        bodyClasses := bodyClasses - {DarkClass};
      }
    }

    /** `toggleTheme` followed by the effect its change triggers. */
    method ToggleTheme()
      modifies this
      ensures theme == Toggled(old(theme))
      ensures stored == Some(theme) && bodyClasses == BodyClasses(theme, old(bodyClasses))
      ensures Mirrored()
    {
      theme := Toggled(theme);
      Effect();
    }
  }
}
