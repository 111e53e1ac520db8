/**
 * `ThemeToggle` of script.js: the `data-theme` attribute of the document
 * element and the `theme` entry of localStorage. An attribute or entry that
 * is not there is None.
 */
module Theme {
  import opened Wrappers

  /** The theme `toggleTheme()` switches to: "light" from "dark", "dark" from anything else. */
  function Toggled(current: Option<string>): (r: string)
    ensures r == "light" <==> current == Some("dark")
    ensures r == "dark" <==> current != Some("dark")
  {
    if current == Some("dark") then "light" else "dark"
  }

  /** Two toggles from "dark" or "light" give the starting theme back. */
  lemma ToggleTwice(theme: string)
    requires theme == "dark" || theme == "light"
    ensures Toggled(Some(Toggled(Some(theme)))) == theme
  {
  }

  /** After the first toggle the theme alternates between the two values. */
  lemma ToggleAlternates(current: Option<string>)
    ensures Toggled(Some(Toggled(current))) != Toggled(current)
    ensures Toggled(Some(Toggled(Some(Toggled(current))))) == Toggled(current)
  {
  }

  /** The document's theme state. */
  class ThemeToggle {
    /** `document.documentElement`'s `data-theme`. */
    var attribute: Option<string>
    /** `localStorage.getItem('theme')`. */
    var stored: Option<string>

    /**
     * `init()`: a saved theme that is a non-empty string wins; otherwise the
     * system's dark preference sets "dark"; otherwise the page's own attribute
     * stays. Nothing is written to storage.
     */
    constructor (pageAttribute: Option<string>, saved: Option<string>, prefersDark: bool)
      ensures stored == saved
      ensures saved.Some? && saved.value != "" ==> attribute == saved
      ensures !(saved.Some? && saved.value != "") && prefersDark ==> attribute == Some("dark")
      ensures !(saved.Some? && saved.value != "") && !prefersDark ==> attribute == pageAttribute
    {
      attribute := pageAttribute;
      stored := saved;
      if saved.Some? && saved.value != "" {
        attribute := saved;
      } else if prefersDark {
        attribute := Some("dark");
      }
    }

    /** `toggleTheme()`: flips the attribute and stores the new value. */
    method ToggleTheme()
      modifies this
      ensures attribute == Some(Toggled(old(attribute)))
      ensures stored == attribute
    {
      var currentTheme := attribute;
      var newTheme := if currentTheme == Some("dark") then "light" else "dark";
      attribute := Some(newTheme);
      stored := Some(newTheme);
    }
  }
}
