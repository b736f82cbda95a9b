/** The settings store: one record of display and playback preferences, updated
    one field at a time, and the light/dark class it puts on the document root. */
module Settings {
  import opened Collections

  datatype FontSize = Small | Medium | Large

  datatype Theme = Light | Dark | System

  datatype AppSettings = AppSettings(
    fontSize: FontSize,
    showLatin: bool,
    showTranslation: bool,
    theme: Theme,
    autoPlayNext: bool)

  const DEFAULT_SETTINGS: AppSettings := AppSettings(Medium, true, true, System, false)

  /** The keys of AppSettings. */
  datatype SettingKey = FontSizeKey | ShowLatinKey | ShowTranslationKey | ThemeKey | AutoPlayNextKey

  /** The arguments of one `updateSetting(key, value)` call: a key together with
      a value of that key's type. */
  datatype SettingUpdate =
    | SetFontSize(fontSize: FontSize)
    | SetShowLatin(showLatin: bool)
    | SetShowTranslation(showTranslation: bool)
    | SetTheme(theme: Theme)
    | SetAutoPlayNext(autoPlayNext: bool)

  function KeyOf(u: SettingUpdate): SettingKey
  {
    match u
    case SetFontSize(_) => FontSizeKey
    case SetShowLatin(_) => ShowLatinKey
    case SetShowTranslation(_) => ShowTranslationKey
    case SetTheme(_) => ThemeKey
    case SetAutoPlayNext(_) => AutoPlayNextKey
  }

  /** `a` and `b` agree on field `k`. */
  predicate SameField(a: AppSettings, b: AppSettings, k: SettingKey)
  {
    match k
    case FontSizeKey => a.fontSize == b.fontSize
    case ShowLatinKey => a.showLatin == b.showLatin
    case ShowTranslationKey => a.showTranslation == b.showTranslation
    case ThemeKey => a.theme == b.theme
    case AutoPlayNextKey => a.autoPlayNext == b.autoPlayNext
  }

  /** Field `KeyOf(u)` of `s` holds the value `u` carries. */
  predicate Holds(s: AppSettings, u: SettingUpdate)
  {
    match u
    case SetFontSize(v) => s.fontSize == v
    case SetShowLatin(v) => s.showLatin == v
    case SetShowTranslation(v) => s.showTranslation == v
    case SetTheme(v) => s.theme == v
    case SetAutoPlayNext(v) => s.autoPlayNext == v
  }

  /** updateSetting's updater `{ ...prev, [key]: value }`. */
  function Merged(s: AppSettings, u: SettingUpdate): (r: AppSettings)
    ensures Holds(r, u)
    ensures forall k :: k != KeyOf(u) ==> SameField(r, s, k)
  {
    match u
    case SetFontSize(v) => s.(fontSize := v)
    case SetShowLatin(v) => s.(showLatin := v)
    case SetShowTranslation(v) => s.(showTranslation := v)
    case SetTheme(v) => s.(theme := v)
    case SetAutoPlayNext(v) => s.(autoPlayNext := v)
  }

  /** Two records that agree on every field are equal. */
  lemma Extensionality(a: AppSettings, b: AppSettings)
    requires forall k :: SameField(a, b, k)
    ensures a == b
  {
    assert SameField(a, b, FontSizeKey) && SameField(a, b, ShowLatinKey);
    assert SameField(a, b, ShowTranslationKey) && SameField(a, b, ThemeKey);
    assert SameField(a, b, AutoPlayNextKey);
  }

  /** Applying the same update twice is applying it once. */
  lemma MergeIdempotent(s: AppSettings, u: SettingUpdate)
    ensures Merged(Merged(s, u), u) == Merged(s, u)
  {
    var once := Merged(s, u);
    var twice := Merged(once, u);
    forall k ensures SameField(twice, once, k) {
      if k == KeyOf(u) {
        match u {
          case SetFontSize(_) =>
          case SetShowLatin(_) =>
          case SetShowTranslation(_) =>
          case SetTheme(_) =>
          case SetAutoPlayNext(_) =>
        }
      }
    }
    Extensionality(twice, once);
  }

  /** Updates of different keys commute. */
  lemma MergeCommutes(s: AppSettings, u1: SettingUpdate, u2: SettingUpdate)
    requires KeyOf(u1) != KeyOf(u2)
    ensures Merged(Merged(s, u1), u2) == Merged(Merged(s, u2), u1)
  {
  }

  /** A sequence of updateSetting calls, oldest first. */
  function ApplyAll(s: AppSettings, us: seq<SettingUpdate>): AppSettings
    decreases |us|
  {
    if us == [] then s else ApplyAll(Merged(s, us[0]), us[1..])
  }

  /** The last update in `us` that writes key `k`, if any. */
  function LastWrite(us: seq<SettingUpdate>, k: SettingKey): Option<SettingUpdate>
  {
    if us == [] then None
    else if KeyOf(us[|us| - 1]) == k then Some(us[|us| - 1])
    else LastWrite(us[..|us| - 1], k)
  }

  /** After a sequence of updates each field holds the value last written to
      it, or its starting value when nothing wrote it. */
  lemma {:induction false} LastWriteWins(s: AppSettings, us: seq<SettingUpdate>, k: SettingKey)
    ensures LastWrite(us, k).None? ==> SameField(ApplyAll(s, us), s, k)
    ensures LastWrite(us, k).Some? ==> Holds(ApplyAll(s, us), LastWrite(us, k).value)
  {
    if us != [] {
      var init := us[..|us| - 1];
      var last := us[|us| - 1];
      assert us == init + [last];
      ApplyAllSnoc(s, init, last);
      LastWriteWins(s, init, k);
      if KeyOf(last) != k {
        var before := ApplyAll(s, init);
        var after := Merged(before, last);
        assert SameField(after, before, k);
        match LastWrite(init, k) {
          case None =>
            SameFieldTrans(after, before, s, k);
          case Some(u) =>
            assert KeyOf(u) == k by { LastWriteKey(init, k); }
            HoldsAcross(before, after, u);
        }
      }
    }
  }

  lemma SameFieldTrans(a: AppSettings, b: AppSettings, c: AppSettings, k: SettingKey)
    requires SameField(a, b, k) && SameField(b, c, k)
    ensures SameField(a, c, k)
  {
  }

  lemma {:induction false} LastWriteKey(us: seq<SettingUpdate>, k: SettingKey)
    ensures LastWrite(us, k).Some? ==> KeyOf(LastWrite(us, k).value) == k
  {
    if us != [] && KeyOf(us[|us| - 1]) != k {
      LastWriteKey(us[..|us| - 1], k);
    }
  }

  lemma HoldsAcross(a: AppSettings, b: AppSettings, u: SettingUpdate)
    requires Holds(a, u) && SameField(b, a, KeyOf(u))
    ensures Holds(b, u)
  {
  }

  lemma {:induction false} ApplyAllSnoc(s: AppSettings, us: seq<SettingUpdate>, u: SettingUpdate)
    ensures ApplyAll(s, us + [u]) == Merged(ApplyAll(s, us), u)
    decreases |us|
  {
    if us != [] {
      assert (us + [u])[1..] == us[1..] + [u];
      ApplyAllSnoc(Merged(s, us[0]), us[1..], u);
    }
  }

  /** The class the theme resolves to: "system" follows the colour-scheme
      preference, an explicit theme is used as it is. */
  function ResolvedMode(theme: Theme, prefersDark: bool): (m: string)
    ensures m == "light" || m == "dark"
    ensures m == "dark" <==> theme == Dark || (theme == System && prefersDark)
  {
    match theme
    case System => if prefersDark then "dark" else "light"
    case Light => "light"
    case Dark => "dark"
  }

  const MODE_CLASSES: set<string> := {"light", "dark"}

  /** Exactly one of the two mode classes is present. */
  predicate OneMode(classes: set<string>)
  {
    ("light" in classes) != ("dark" in classes)
  }

  /** The class list after the theme effect: the resolved mode is the only
      mode class, and every other class is as before. */
  function ThemeApplied(classes: set<string>, theme: Theme, prefersDark: bool): (r: set<string>)
    ensures OneMode(r)
    ensures ResolvedMode(theme, prefersDark) in r
    ensures r - MODE_CLASSES == classes - MODE_CLASSES
  {
    (classes - MODE_CLASSES) + {ResolvedMode(theme, prefersDark)}
  }

  /** The document root element, whose class list the theme effect edits in place. */
  class DocumentRoot {
    var classList: set<string>

    constructor (classes: set<string>)
      ensures classList == classes
    {
      classList := classes;
    }

    /** classList.remove(...names) */
    method Remove(names: set<string>)
      modifies this
      ensures classList == old(classList) - names
    {
      classList := classList - names;
    }

    /** classList.add(name) */
    method Add(name: string)
      modifies this
      ensures classList == old(classList) + {name}
    {
      classList := classList + {name};
    }

    /** The theme effect: remove both mode classes, then add the resolved one.
        The colour-scheme media query is the parameter `prefersDark`. */
    method ApplyTheme(theme: Theme, prefersDark: bool)
      modifies this
      ensures classList == ThemeApplied(old(classList), theme, prefersDark)
    {
      Remove(MODE_CLASSES);
      if theme == System {
        var systemTheme := if prefersDark then "dark" else "light";
        Add(systemTheme);
      } else {
        Add(if theme == Light then "light" else "dark");
      }
    }
  }

  /** The settings hook: the record, and the root element its theme effect edits. */
  class SettingsStore {
    var settings: AppSettings
    const root: DocumentRoot
    /** The colour-scheme preference seen when the theme effect last ran. */
    ghost var appliedPrefersDark: bool

    /** The root shows the mode the current theme resolved to when the effect last ran. */
    ghost predicate Valid()
      reads this, root
    {
      OneMode(root.classList) &&
      ResolvedMode(settings.theme, appliedPrefersDark) in root.classList
    }

    /** Loading the stored record (the defaults when there is none) and running
        the theme effect once, as on mount. */
    constructor (stored: Option<AppSettings>, root: DocumentRoot, prefersDark: bool)
      modifies root
      ensures Valid()
      ensures this.root == root
      ensures settings == (if stored.Some? then stored.value else DEFAULT_SETTINGS)
      ensures root.classList == ThemeApplied(old(root.classList), settings.theme, prefersDark)
    {
      settings := if stored.Some? then stored.value else DEFAULT_SETTINGS;
      this.root := root;
      appliedPrefersDark := prefersDark;
      new;
      root.ApplyTheme(settings.theme, prefersDark);
    }

    /** Re-runs the theme effect when the theme value changed. */
    method ThemeChanged(previous: Theme, prefersDark: bool)
      requires OneMode(root.classList)
      requires previous == settings.theme ==> ResolvedMode(settings.theme, appliedPrefersDark) in root.classList
      modifies root, this`appliedPrefersDark
      ensures Valid()
      ensures previous != settings.theme ==>
                root.classList == ThemeApplied(old(root.classList), settings.theme, prefersDark)
      ensures previous == settings.theme ==> root.classList == old(root.classList)
    {
      if previous != settings.theme {
        root.ApplyTheme(settings.theme, prefersDark);
        appliedPrefersDark := prefersDark;
      }
    }

    method UpdateSetting(u: SettingUpdate, prefersDark: bool)
      requires Valid()
      modifies this, root
      ensures Valid()
      ensures settings == Merged(old(settings), u)
      ensures old(settings.theme) != settings.theme ==>
                root.classList == ThemeApplied(old(root.classList), settings.theme, prefersDark)
      ensures old(settings.theme) == settings.theme ==> root.classList == old(root.classList)
    {
      var previous := settings.theme;
      settings := Merged(settings, u);
      ThemeChanged(previous, prefersDark);
    }

    method ResetSettings(prefersDark: bool)
      requires Valid()
      modifies this, root
      ensures Valid()
      ensures settings == DEFAULT_SETTINGS
      ensures old(settings.theme) != System ==>
                root.classList == ThemeApplied(old(root.classList), System, prefersDark)
      ensures old(settings.theme) == System ==> root.classList == old(root.classList)
    {
      var previous := settings.theme;
      settings := DEFAULT_SETTINGS;
      ThemeChanged(previous, prefersDark);
    }
  }
}
