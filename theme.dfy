/** The theme and language providers (contexts/ThemeContext.tsx): the
    light/dark theme and the interface language, each read once from local
    storage and written back whenever it changes, and `t`, the lookup of a
    dotted key in the translation tables with a fallback to English and then
    to the key itself. */
module Theme {
  import opened Options
  import opened JsString
  import opened Types
  import opened Storage

  const ThemeKey := "wathiq_theme"
  const LanguageKey := "wathiq_language"

  // ---------------------------------------------------------------------
  // Theme
  // ---------------------------------------------------------------------

  datatype ThemeName = Light | Dark

  function ThemeText(t: ThemeName): string {
    match t
    case Light => "light"
    case Dark => "dark"
  }

  /** `toggleTheme`: light becomes dark and dark becomes light. */
  function Toggle(t: ThemeName): (r: ThemeName)
    ensures r != t
  {
    if t == Light then Dark else Light
  }

  lemma ToggleTwice(t: ThemeName)
    ensures Toggle(Toggle(t)) == t
  {
  }

  /** The initial theme: a stored "light" or "dark" wins, anything else
      defers to the system preference, and storage that throws gives light. */
  function InitialTheme(read: ReadOutcome, prefersDark: bool): (t: ThemeName)
    ensures read == Present("light") ==> t == Light
    ensures read == Present("dark") ==> t == Dark
    ensures read.Throws? ==> t == Light
    ensures read != Present("light") && read != Present("dark") && !read.Throws? ==>
      t == (if prefersDark then Dark else Light)
  {
    match read
    case Throws => Light
    case Present(s) =>
      if s == "light" then Light
      else if s == "dark" then Dark
      else if prefersDark then Dark else Light
    case Missing => if prefersDark then Dark else Light
  }

  /** The theme provider's state; the class on the document root element is
      not part of the model. */
  class ThemeProvider {
    var theme: ThemeName
    const storage: LocalStorage

    /** Mounting: the initial theme, then the effect stores it. */
    constructor (storage: LocalStorage, prefersDark: bool)
      modifies storage
      ensures this.storage == storage
      ensures theme == InitialTheme(old(storage.GetItem(ThemeKey)), prefersDark)
      ensures storage.items == storage.Written(old(storage.items), ThemeKey, ThemeText(theme))
    {
      theme := InitialTheme(storage.GetItem(ThemeKey), prefersDark);
      this.storage := storage;
      new;
      var _ := storage.SetItem(ThemeKey, ThemeText(theme));
    }

    method ToggleTheme()
      modifies this, storage
      ensures theme == Toggle(old(theme))
      ensures storage.items == storage.Written(old(storage.items), ThemeKey, ThemeText(theme))
    {
      theme := Toggle(theme);
      var _ := storage.SetItem(ThemeKey, ThemeText(theme));
    }
  }

  // ---------------------------------------------------------------------
  // Language
  // ---------------------------------------------------------------------

  /** The initial language: a stored "en" or "ar", otherwise English. */
  function InitialLanguage(read: ReadOutcome): (l: Language)
    ensures read.Present? && LanguageOf(read.text).Some? ==> l == LanguageOf(read.text).value
    ensures !(read.Present? && LanguageOf(read.text).Some?) ==> l == En
  {
    match read
    case Present(s) => LanguageOf(s).GetOr(En)
    case _ => En
  }

  /** The document direction for a language. */
  function Direction(l: Language): (d: string)
    ensures d == "rtl" <==> l == Ar
  {
    if l == Ar then "rtl" else "ltr"
  }

  /** A node of a translation table: a text, or a group of named nodes. */
  datatype Node = Text(text: string) | Group(children: seq<Child>)
  datatype Child = Child(key: string, node: Node)

  /** The translation tables, one per language. */
  datatype Catalog = Catalog(en: Node, ar: Node) {
    function Table(l: Language): Node {
      match l
      case En => en
      case Ar => ar
    }
  }

  /** `result?.[k]`: a group's child of that name; nothing below a text or
      below nothing. */
  function Step(n: Option<Node>, k: string): (r: Option<Node>)
    ensures n.None? ==> r.None?
  {
    match n
    case Some(Group(cs)) => Find(cs, k)
    case _ => None
  }

  function Find(cs: seq<Child>, k: string): (r: Option<Node>)
    ensures r.Some? <==> exists i :: 0 <= i < |cs| && cs[i].key == k
  {
    if cs == [] then None
    else if cs[0].key == k then Some(cs[0].node)
    else
      var r := Find(cs[1..], k);
      assert forall i :: 0 < i < |cs| ==> cs[i] == cs[1..][i - 1];
      r
  }

  /** Following a path of keys from a node. */
  function Walk(n: Option<Node>, keys: seq<string>): Option<Node>
    decreases keys
  {
    if keys == [] then n else Walk(Step(n, keys[0]), keys[1..])
  }

  /** Once a step finds nothing, the rest of the walk finds nothing. */
  lemma {:induction false} WalkNone(keys: seq<string>)
    ensures Walk(None, keys) == None
    decreases keys
  {
    if keys != [] {
      WalkNone(keys[1..]);
    }
  }

  /** Walking a path is walking its first part and then the rest. */
  lemma {:induction false} WalkAppend(n: Option<Node>, a: seq<string>, b: seq<string>)
    ensures Walk(n, a + b) == Walk(Walk(n, a), b)
    decreases a
  {
    if a == [] {
      assert a + b == b;
    } else {
      assert (a + b)[1..] == a[1..] + b;
      WalkAppend(Step(n, a[0]), a[1..], b);
    }
  }

  /** JavaScript truthiness of a found value: an empty text is falsy. */
  predicate Truthy(n: Node) {
    n.Group? || n.text != ""
  }

  /** `t(key)`: the current language's value for the dotted key; when some
      segment is missing there, the English value; when the value found is
      falsy (or English has none either), the key itself. */
  function Translate(catalog: Catalog, language: Language, key: string): (r: Node)
    ensures Truthy(r) || r == Text(key)
  {
    var keys := Split(key, ".");
    match Walk(Some(catalog.Table(language)), keys)
    case Some(n) => if Truthy(n) then n else Text(key)
    case None =>
      match Walk(Some(catalog.en), keys)
      case Some(f) => if Truthy(f) then f else Text(key)
      case None => Text(key)
  }

  /** A key that resolves in the current language to a truthy value gives
      that value, whatever English has. */
  lemma TranslateResolved(catalog: Catalog, language: Language, key: string, n: Node)
    requires Walk(Some(catalog.Table(language)), Split(key, ".")) == Some(n) && Truthy(n)
    ensures Translate(catalog, language, key) == n
  {
  }

  /** A key missing in the current language gives the English value when it
      is truthy, and otherwise the key. */
  lemma TranslateFallback(catalog: Catalog, language: Language, key: string)
    requires Walk(Some(catalog.Table(language)), Split(key, ".")) == None
    ensures var f := Walk(Some(catalog.en), Split(key, "."));
      Translate(catalog, language, key) == if f.Some? && Truthy(f.value) then f.value else Text(key)
  {
  }

  /** In English the fallback never changes the outcome: the value if truthy,
      else the key. */
  lemma TranslateEnglish(catalog: Catalog, key: string)
    ensures var w := Walk(Some(catalog.en), Split(key, "."));
      Translate(catalog, En, key) == if w.Some? && Truthy(w.value) then w.value else Text(key)
  {
  }

  /** The language provider's state; the `lang` and `dir` attributes of the
      document root are given by `Dir`. */
  class LanguageProvider {
    var language: Language
    const catalog: Catalog
    const storage: LocalStorage

    /** Mounting: the initial language, then the effect stores it. */
    constructor (storage: LocalStorage, catalog: Catalog)
      modifies storage
      ensures this.storage == storage && this.catalog == catalog
      ensures language == InitialLanguage(old(storage.GetItem(LanguageKey)))
      ensures storage.items == storage.Written(old(storage.items), LanguageKey, LanguageCode(language))
    {
      language := InitialLanguage(storage.GetItem(LanguageKey));
      this.catalog := catalog;
      this.storage := storage;
      new;
      var _ := storage.SetItem(LanguageKey, LanguageCode(language));
    }

    method SetLanguage(l: Language)
      modifies this, storage
      ensures language == l
      ensures storage.items == storage.Written(old(storage.items), LanguageKey, LanguageCode(l))
    {
      language := l;
      var _ := storage.SetItem(LanguageKey, LanguageCode(language));
    }

    function Dir(): string
      reads this
    {
      Direction(language)
    }

    /** `t(key)`, segment by segment. */
    method T(key: string) returns (r: Node)
      ensures r == Translate(catalog, language, key)
    {
      var keys := Split(key, ".");
      var result := Some(catalog.Table(language));
      var i := 0;
      while i < |keys|
        invariant 0 <= i <= |keys|
        invariant result.Some?
        invariant Walk(result, keys[i..]) == Walk(Some(catalog.Table(language)), keys)
      {
        result := Step(result, keys[i]);
        if result.None? {
          WalkNone(keys[i + 1..]);
          var fallback := Some(catalog.en);
          for j := 0 to |keys|
            invariant Walk(fallback, keys[j..]) == Walk(Some(catalog.en), keys)
          {
            fallback := Step(fallback, keys[j]);
          }
          r := if fallback.Some? && Truthy(fallback.value) then fallback.value else Text(key);
          return;
        }
        i := i + 1;
      }
      r := if Truthy(result.value) then result.value else Text(key);
    }
  }
}
