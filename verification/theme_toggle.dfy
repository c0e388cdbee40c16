/** The theme switch (`ThemeToggle`): a two-valued theme read from local
    storage on mount, flipped by the checkbox, and written back to the
    document attribute and to storage by an effect. */
module Theme {

  /** The storage key holding the theme. */
  const StorageKey := "theme"

  /** The document attribute the stylesheet selects on. */
  const ThemeAttribute := "data-theme"

  /** The theme used when storage holds none. */
  const DefaultTheme := "dark"

  /** `localStorage.getItem('theme') || 'dark'`: the stored theme when it
      is present and non-empty, `dark` otherwise. */
  function InitialTheme(storage: map<string, string>): (t: string)
    ensures StorageKey in storage && storage[StorageKey] != "" ==> t == storage[StorageKey]
    ensures !(StorageKey in storage && storage[StorageKey] != "") ==> t == DefaultTheme
    ensures t != ""
  {
    if StorageKey in storage && storage[StorageKey] != "" then storage[StorageKey] else DefaultTheme
  }

  /** The toggle rule: `dark` becomes `light`, anything else becomes
      `dark`. */
  function Toggled(t: string): (r: string)
    ensures r == "light" <==> t == "dark"
    ensures r == "light" || r == "dark"
  {
    if t == "dark" then "light" else "dark"
  }

  /** Toggling twice returns to `dark` or `light`; an unexpected stored
      value ends at `light`. */
  lemma ToggleTwice(t: string)
    ensures Toggled(Toggled(t)) == if t == "dark" || t == "light" then t else "light"
  {
  }

  /** The theme after `n` toggles. */
  function ToggledTimes(t: string, n: nat): string
  {
    if n == 0 then t else Toggled(ToggledTimes(t, n - 1))
  }

  /** After at least one toggle the theme alternates between the results of
      one and of two toggles, so it is always `dark` or `light`. */
  lemma {:induction false} ToggledTimesAlternates(t: string, n: nat)
    requires n >= 1
    ensures ToggledTimes(t, n) == if n % 2 == 1 then Toggled(t) else Toggled(Toggled(t))
    ensures ToggledTimes(t, n) == "dark" || ToggledTimes(t, n) == "light"
  {
    if n > 1 {
      ToggledTimesAlternates(t, n - 1);
      ToggleTwice(Toggled(t));
    }
  }

  /** Writing a non-empty theme to storage makes the next mount start from
      it. */
  lemma StoredThemeReloads(storage: map<string, string>, t: string)
    requires t != ""
    ensures InitialTheme(storage[StorageKey := t]) == t
  {
  }

  /** The checkbox is checked exactly when the theme is `light`. */
  predicate Checked(t: string)
  {
    t == "light"
  }

  /** One toggle checks the box exactly when the theme was `dark`. */
  lemma CheckedAfterToggle(t: string)
    ensures Checked(Toggled(t)) <==> t == "dark"
  {
  }

  /** The browser state the switch touches: local storage and the
      attributes of the document element. */
  class Browser {
    var storage: map<string, string>
    var attributes: map<string, string>

    constructor (storage: map<string, string>, attributes: map<string, string>)
      ensures this.storage == storage && this.attributes == attributes
    {
      this.storage := storage;
      this.attributes := attributes;
    }
  }

  /** The mounted switch and its `theme` state hook. */
  class ThemeToggle {
    const browser: Browser
    var theme: string

    /** The theme is never the empty string. */
    ghost predicate Valid()
      reads this
    {
      theme != ""
    }

    /** Storage and the document attribute both hold the current theme. */
    ghost predicate Synced()
      reads this, browser
    {
      && StorageKey in browser.storage && browser.storage[StorageKey] == theme
      && ThemeAttribute in browser.attributes && browser.attributes[ThemeAttribute] == theme
    }

    /** Mount: the lazy initial state reads storage. */
    constructor (browser: Browser)
      ensures Valid() && this.browser == browser && theme == InitialTheme(browser.storage)
    {
      this.browser := browser;
      theme := InitialTheme(browser.storage);
    }

    /** The effect run after mount and after every change of `theme`: it
        sets the `data-theme` attribute and the `theme` storage key to the
        theme and touches nothing else. */
    method ApplyTheme()
      requires Valid()
      modifies browser
      ensures Synced()
      ensures browser.attributes == old(browser.attributes)[ThemeAttribute := theme]
      ensures browser.storage == old(browser.storage)[StorageKey := theme]
      ensures InitialTheme(browser.storage) == theme
    {
      browser.attributes := browser.attributes[ThemeAttribute := theme];
      browser.storage := browser.storage[StorageKey := theme];
      StoredThemeReloads(old(browser.storage), theme);
    }

    /** `toggleTheme`, the checkbox's change handler. */
    method Toggle()
      requires Valid()
      modifies this
      ensures Valid() && theme == Toggled(old(theme))
    {
      theme := Toggled(theme);
    }
  }
}
