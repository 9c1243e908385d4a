/** The translation provider: the current locale, its persisted copy, and the dotted-key lookup
    into the locale's message table. */
module Translation {
  import opened Wrappers
  import opened Strings

  datatype Locale = Fr | En

  /** A value of a message table: a string leaf, a nested table, or any other JSON value. */
  datatype TValue = Text(s: string) | Table(entries: map<string, TValue>) | Other

  /** The text a locale is stored under. */
  function LocaleName(l: Locale): string
  {
    match l
    case Fr => "fr"
    case En => "en"
  }

  /** The value reached from `v` by descending one table level per segment, or None when a segment
      is missing or the value at hand is not a table. */
  function Lookup(v: TValue, segments: seq<string>): Option<TValue>
    decreases |segments|
  {
    if |segments| == 0 then Some(v)
    else if v.Table? && segments[0] in v.entries then Lookup(v.entries[segments[0]], segments[1..])
    else None
  }

  /** Descending along `a + b` is descending along `a`, then along `b`. */
  lemma {:induction false} LookupConcat(v: TValue, a: seq<string>, b: seq<string>)
    ensures Lookup(v, a + b) == match Lookup(v, a)
      case Some(w) => Lookup(w, b)
      case None => None
    decreases |a|
  {
    if |a| > 0 {
      assert (a + b)[0] == a[0];
      assert (a + b)[1..] == a[1..] + b;
      if v.Table? && a[0] in v.entries {
        LookupConcat(v.entries[a[0]], a[1..], b);
      }
    } else {
      assert a + b == b;
    }
  }

  /** `t(key)` over the table `root`: the string leaf the dotted key leads to, or else the key. */
  function Translate(root: TValue, key: string): (r: string)
    ensures r == key || Lookup(root, Split(key, '.')) == Some(Text(r))
    ensures var found := Lookup(root, Split(key, '.'));
      found.Some? && found.value.Text? ==> r == found.value.s
  {
    match Lookup(root, Split(key, '.'))
    case Some(Text(s)) => s
    case _ => key
  }

  /** A two-segment key reaches the leaf of the nested table. */
  lemma TranslateNested(root: TValue, group: string, name: string, text: string)
    requires '.' !in group && '.' !in name
    requires root.Table? && group in root.entries
    requires root.entries[group].Table? && name in root.entries[group].entries
    requires root.entries[group].entries[name] == Text(text)
    ensures Translate(root, group + "." + name) == text
  {
    SplitJoin([group, name], '.');
    assert Join([group, name], '.') == group + "." + name;
    var path := [group, name];
    assert path[1..] == [name] && [name][1..] == [];
    assert Lookup(root, path) == Lookup(root.entries[group], [name]);
  }

  /** A key that does not lead to a string leaf (a segment is missing, or it ends at a sub-table or
      at another JSON value) translates to itself. */
  lemma TranslateFallsBack(root: TValue, key: string)
    requires var found := Lookup(root, Split(key, '.'));
      !(found.Some? && found.value.Text?)
    ensures Translate(root, key) == key
  {
  }

  /** Translation never invents text: whatever `t` returns that is not the key is a leaf of the
      table reached along a path of the table. */
  lemma TranslateLeaf(root: TValue, key: string)
    requires Translate(root, key) != key
    ensures exists path :: Lookup(root, path) == Some(Text(Translate(root, key)))
  {
    var path := Split(key, '.');
    assert Lookup(root, path) == Some(Text(Translate(root, key)));
  }

  /** The locale adopted from storage on start-up: only "fr" or "en" is taken. */
  function SavedLocale(current: Locale, saved: Option<string>): (l: Locale)
    ensures l == current || (saved.Some? && saved.value == LocaleName(l))
    ensures saved.Some? && saved.value !in {"fr", "en"} ==> l == current
  {
    if saved == Some("fr") then Fr
    else if saved == Some("en") then En
    else current
  }

  /** A locale that was stored is the one read back. */
  lemma SavedLocaleRoundTrip(current: Locale, l: Locale)
    ensures SavedLocale(current, Some(LocaleName(l))) == l
  {
  }

  /** `useTranslation`: the provider's value, or the error thrown outside a provider. */
  function UseTranslation<C>(context: Option<C>): (r: Result<C>)
    ensures r.Ok? <==> context.Some?
    ensures r.Ok? ==> r.value == context.value
    ensures r.Err? ==> r.message == "useTranslation must be used within a TranslationProvider"
  {
    match context
    case Some(c) => Ok(c)
    case None => Err("useTranslation must be used within a TranslationProvider")
  }

  class TranslationProvider {
    var locale: Locale
    /** The `locale` entry of the browser's local storage. */
    var stored: Option<string>
    /** The French and the English message tables. */
    const fr: TValue
    const en: TValue

    constructor (fr: TValue, en: TValue, stored: Option<string>)
      ensures locale == Fr && this.stored == stored
      ensures this.fr == fr && this.en == en
    {
      this.fr, this.en := fr, en;
      this.stored := stored;
      locale := Fr;
    }

    function Messages(): TValue
      reads this
    {
      if locale == Fr then fr else en
    }

    /** `t`: walks the key's segments in order. */
    method T(key: string) returns (r: string)
      ensures r == Translate(Messages(), key)
    {
      var keys := Split(key, '.');
      var value := Messages();
      var i := 0;
      while i < |keys|
        invariant i <= |keys|
        invariant Lookup(value, keys[i..]) == Lookup(Messages(), keys)
      {
        var k := keys[i];
        if value.Table? && k in value.entries {
          assert keys[i..][1..] == keys[i + 1..];
          value := value.entries[k];
        } else {
          return key;
        }
        i := i + 1;
      }
      r := if value.Text? then value.s else key;
    }

    /** `changeLocale`: switches the locale and stores it. */
    method ChangeLocale(newLocale: Locale)
      modifies this`locale, this`stored
      ensures locale == newLocale && stored == Some(LocaleName(newLocale))
    {
      locale := newLocale;
      stored := Some(LocaleName(newLocale));
    }

    /** The start-up effect that adopts a valid stored locale. */
    method RestoreSavedLocale()
      modifies this`locale
      ensures locale == SavedLocale(old(locale), stored)
    {
      if stored == Some("fr") || stored == Some("en") {
        locale := if stored == Some("fr") then Fr else En;
      }
    }
  }
}
