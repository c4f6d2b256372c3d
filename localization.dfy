/**
 * The translation service of the daily-task app (`I18n` in i18n.js): a
 * current language, key lookup that falls back to the key itself, and
 * `{name}` placeholder substitution. The translation tables are a
 * parameter; their contents are not part of the model.
 */
module Localization {
  import opened Wrappers

  /** Language code to key to text. */
  type Tables = map<string, map<string, string>>

  /** `translations[lang][key] || key`: a missing or empty text falls back to the key. */
  function Lookup(tables: Tables, lang: string, key: string): (r: string)
    requires lang in tables
    ensures key in tables[lang] && tables[lang][key] != "" ==> r == tables[lang][key]
    ensures !(key in tables[lang] && tables[lang][key] != "") ==> r == key
  {
    if key in tables[lang] && tables[lang][key] != "" then tables[lang][key] else key
  }

  /** `pat` occurs in `text` at position `j`. */
  predicate At(text: string, pat: string, j: int) {
    0 <= j <= |text| - |pat| && text[j..j + |pat|] == pat
  }

  ghost predicate Contains(text: string, pat: string) {
    exists j :: At(text, pat, j)
  }

  /** The first position of `pat` in `text`, or -1 (`String.prototype.indexOf`). */
  function IndexOf(text: string, pat: string): (r: int)
    ensures r == -1 || At(text, pat, r)
    ensures r >= 0 ==> forall j :: 0 <= j < r ==> !At(text, pat, j)
    ensures r == -1 <==> forall j :: !At(text, pat, j)
    decreases |text|
  {
    if |text| < |pat| then -1
    else if text[..|pat|] == pat then 0
    else
      var r := IndexOf(text[1..], pat);
      AtTail(text, pat);
      if r == -1 then -1 else r + 1
  }

  /** An occurrence past the first character is an occurrence in the tail, one position earlier. */
  lemma AtTail(text: string, pat: string)
    requires |text| > 0
    ensures forall j :: 0 < j ==> (At(text, pat, j) <==> At(text[1..], pat, j - 1))
  {
    forall j | 0 < j
      ensures At(text, pat, j) <==> At(text[1..], pat, j - 1)
    {
      if j <= |text| - |pat| {
        var here, there := text[j..j + |pat|], text[1..][j - 1..j - 1 + |pat|];
        assert forall k :: 0 <= k < |pat| ==> here[k] == there[k];
        assert here == there;
      }
    }
  }

  /** `text.replace(pat, value)` with a string pattern: only the first occurrence is replaced. */
  function ReplaceFirst(text: string, pat: string, value: string): (r: string)
    ensures IndexOf(text, pat) == -1 ==> r == text
    ensures var i := IndexOf(text, pat);
            i >= 0 ==> r == text[..i] + value + text[i + |pat|..]
  {
    var i := IndexOf(text, pat);
    if i == -1 then text else text[..i] + value + text[i + |pat|..]
  }

  /** The placeholder a parameter fills. */
  function Placeholder(name: string): (p: string)
    ensures |p| == |name| + 2 && p[0] == '{' && p[|p| - 1] == '}'
  {
    "{" + name + "}"
  }

  /** The text after substituting the parameters one after the other, in key order. */
  function Substitute(text: string, params: seq<(string, string)>): (r: string)
    ensures params == [] ==> r == text
    decreases |params|
  {
    if params == [] then text
    else
      var last := params[|params| - 1];
      ReplaceFirst(Substitute(text, params[..|params| - 1]), Placeholder(last.0), last.1)
  }

  /** Parameter names are plain identifiers without braces. */
  predicate PlainName(name: string) {
    '{' !in name && '}' !in name
  }

  /** Where a placeholder occurs, its braces and its name are where they should be. */
  lemma PlaceholderAt(text: string, name: string, i: int)
    requires PlainName(name) && At(text, Placeholder(name), i)
    ensures text[i] == '{' && text[i + |name| + 1] == '}'
    ensures forall k :: i < k <= i + |name| ==> text[k] != '{' && text[k] != '}'
    ensures text[i + 1..i + 1 + |name|] == name
  {
    var p := Placeholder(name);
    assert forall k :: i <= k < i + |p| ==> text[k] == p[k - i];
    assert forall k :: i < k <= i + |name| ==> text[k] == name[k - i - 1];
    assert text[i + 1..i + 1 + |name|] == p[1..|p| - 1] == name;
  }

  /** Two placeholders of different plain names never overlap. */
  lemma PlaceholdersDisjoint(text: string, m: string, n: string, i: int, j: int)
    requires PlainName(m) && PlainName(n) && m != n
    requires At(text, Placeholder(m), i) && At(text, Placeholder(n), j)
    ensures i + |m| + 2 <= j || j + |n| + 2 <= i
  {
    PlaceholderAt(text, m, i);
    PlaceholderAt(text, n, j);
  }

  /** Replacing another plain placeholder keeps an occurrence of this one. */
  lemma ReplaceKeepsPlaceholder(text: string, m: string, value: string, n: string, j: int)
    requires PlainName(m) && PlainName(n) && m != n
    requires At(text, Placeholder(n), j)
    ensures Contains(ReplaceFirst(text, Placeholder(m), value), Placeholder(n))
  {
    var pm, pn := Placeholder(m), Placeholder(n);
    var i := IndexOf(text, pm);
    var r := ReplaceFirst(text, pm, value);
    if i == -1 {
      assert At(r, pn, j);
    } else {
      PlaceholdersDisjoint(text, m, n, i, j);
      if j + |pn| <= i {
        assert r[j..j + |pn|] == text[j..j + |pn|];
        assert At(r, pn, j);
      } else {
        var j' := j - |pm| + |value|;
        assert r[j'..j' + |pn|] == text[j..j + |pn|];
        assert At(r, pn, j');
      }
    }
  }

  /**
   * A placeholder with no parameter of its name survives substitution: the
   * text still contains it, whatever the other parameters' values are.
   */
  lemma {:induction false} UnfilledPlaceholderRemains(text: string, params: seq<(string, string)>, n: string)
    requires Contains(text, Placeholder(n)) && PlainName(n)
    requires forall k :: 0 <= k < |params| ==> PlainName(params[k].0) && params[k].0 != n
    ensures Contains(Substitute(text, params), Placeholder(n))
    decreases |params|
  {
    if params != [] {
      var init := params[..|params| - 1];
      var last := params[|params| - 1];
      UnfilledPlaceholderRemains(text, init, n);
      var mid := Substitute(text, init);
      var j :| At(mid, Placeholder(n), j);
      ReplaceKeepsPlaceholder(mid, last.0, last.1, n, j);
    }
  }

  class I18n {
    const translations: Tables
    var currentLang: string
    /** The persisted language choice (`evoRoutine_lang`). */
    var stored: Option<string>

    /** The stored language, or Spanish when none (or an empty one) is stored. */
    constructor (translations: Tables, stored: Option<string>)
      ensures this.translations == translations && this.stored == stored
      ensures stored.Some? && stored.value != "" ==> currentLang == stored.value
      ensures stored.None? || stored.value == "" ==> currentLang == "es"
    {
      this.translations := translations;
      this.stored := stored;
      currentLang := if stored.Some? && stored.value != "" then stored.value else "es";
    }

    /** `t(key, params)`: look the key up, then fill the parameters one by one. */
    method T(key: string, params: seq<(string, string)>) returns (text: string)
      requires currentLang in translations
      ensures text == Substitute(Lookup(translations, currentLang, key), params)
      ensures params == [] ==> text == Lookup(translations, currentLang, key)
    {
      text := Lookup(translations, currentLang, key);
      var i := 0;
      while i < |params|
        invariant 0 <= i <= |params|
        invariant text == Substitute(Lookup(translations, currentLang, key), params[..i])
      {
        assert params[..i + 1][..i] == params[..i];
        text := ReplaceFirst(text, Placeholder(params[i].0), params[i].1);
        i := i + 1;
      }
      assert params[..i] == params;
    }

    /** `setLanguage(lang)`: switch and persist only to a language that has a table. */
    method SetLanguage(lang: string) returns (ok: bool)
      modifies this
      ensures ok <==> lang in translations
      ensures ok ==> currentLang == lang && stored == Some(lang)
      ensures !ok ==> currentLang == old(currentLang) && stored == old(stored)
    {
      if lang in translations {
        currentLang := lang;
        stored := Some(lang);
        return true;
      }
      return false;
    }

    /** `getLanguage()`. */
    method GetLanguage() returns (lang: string)
      ensures lang == currentLang
    {
      return currentLang;
    }
  }
}
