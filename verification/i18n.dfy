/** The translation lookup `t(key, replacements)` of the state container and the
    language-name / message chain `setLanguage` builds its toast from
    (contexts/AppContext.tsx). The loaded dictionaries are an input: how and when
    they are fetched is not part of this model. */
module I18n {
  import opened Wrappers
  import opened Model
  import opened Text
  import Constants

  /** One locale file: a flat key-to-text map. */
  type Dictionary = map<string, string>

  /** `loadedTranslations`: the dictionaries loaded so far, by language; any of them may be missing. */
  type Catalog = map<Language, Dictionary>

  /** The language whose dictionary backs up every other one. */
  const FallbackLanguage: Language := EN

  /** `cat[lang]?.[key]` as the `||` chain reads it: a missing dictionary, a missing key
      and an empty string are all "absent". */
  function Entry(cat: Catalog, lang: Language, key: string): (r: Option<string>)
    ensures r.Some? <==> lang in cat && key in cat[lang] && cat[lang][key] != ""
    ensures r.Some? ==> r.value == cat[lang][key]
  {
    if lang in cat && key in cat[lang] && cat[lang][key] != "" then Some(cat[lang][key]) else None
  }

  /** `cat[lang]?.[key] || cat[EN]?.[key] || last`. */
  function FirstOf(cat: Catalog, lang: Language, key: string, last: string): string {
    match Entry(cat, lang, key)
    case Some(v) => v
    case None =>
      match Entry(cat, FallbackLanguage, key)
      case Some(v) => v
      case None => last
  }

  /** The text `t` starts from: active language, then English, then the key itself. */
  function Resolve(cat: Catalog, lang: Language, key: string): string {
    FirstOf(cat, lang, key, key)
  }

  /** The `{{name}}` marker a replacement named `name` substitutes. */
  function Placeholder(name: string): (r: string)
    ensures |r| == |name| + 4
  {
    "{{" + name + "}}"
  }

  /** The replacements in `Object.entries` order, each replacing its marker everywhere,
      each one applied to the result of the previous one. */
  function ApplyReplacements(s: string, reps: seq<(string, string)>): string
    decreases |reps|
  {
    if |reps| == 0 then s
    else ApplyReplacements(ReplaceAll(s, Placeholder(reps[0].0), reps[0].1), reps[1..])
  }

  /** `t(key, replacements)` with the active language `lang`. */
  function Translate(cat: Catalog, lang: Language, key: string, reps: seq<(string, string)>): string {
    ApplyReplacements(Resolve(cat, lang, key), reps)
  }

  /** Resolution order: the active language's non-empty text, else English's, else the raw key. */
  lemma ResolutionOrder(cat: Catalog, lang: Language, key: string)
    ensures Entry(cat, lang, key).Some? ==> Translate(cat, lang, key, []) == cat[lang][key]
    ensures Entry(cat, lang, key).None? && Entry(cat, EN, key).Some? ==>
              Translate(cat, lang, key, []) == cat[EN][key]
    ensures Entry(cat, lang, key).None? && Entry(cat, EN, key).None? ==> Translate(cat, lang, key, []) == key
  {
  }

  /** An empty text in the active dictionary is treated exactly like a missing key. */
  lemma EmptyTextIsMissing(cat: Catalog, lang: Language, key: string)
    requires lang in cat && key in cat[lang] && cat[lang][key] == ""
    ensures Resolve(cat, lang, key) == Resolve(cat[lang := cat[lang] - {key}], lang, key)
  {
    var cat' := cat[lang := cat[lang] - {key}];
    if lang != EN && EN in cat {
      assert cat'[EN] == cat[EN];
    }
  }

  /** The start language is the fallback language itself, so in it a text missing from its own
      dictionary has no second chance: the raw key is shown. */
  lemma DefaultLanguageHasNoFallback(cat: Catalog, key: string)
    ensures Constants.DefaultLanguage == FallbackLanguage
    ensures Entry(cat, Constants.DefaultLanguage, key).Some? ==>
              Translate(cat, Constants.DefaultLanguage, key, []) == cat[Constants.DefaultLanguage][key]
    ensures Entry(cat, Constants.DefaultLanguage, key).None? ==> Translate(cat, Constants.DefaultLanguage, key, []) == key
  {
  }

  /** Replacements whose markers do not occur in the text leave it verbatim. */
  lemma {:induction false} ReplacementsWithoutMarkers(s: string, reps: seq<(string, string)>)
    requires forall i :: 0 <= i < |reps| ==> !Contains(s, Placeholder(reps[i].0))
    ensures ApplyReplacements(s, reps) == s
    decreases |reps|
  {
    if |reps| > 0 {
      ReplaceAllAbsent(s, Placeholder(reps[0].0), reps[0].1);
      ReplacementsWithoutMarkers(s, reps[1..]);
    }
  }

  /** A `{default: d}` replacement is no fallback: for a key that no dictionary has,
      `t` still returns the key itself (unless the key holds a `{{default}}` marker). */
  lemma DefaultIsNotFallback(cat: Catalog, lang: Language, key: string, d: string)
    requires Entry(cat, lang, key).None? && Entry(cat, EN, key).None?
    requires !Contains(key, Placeholder("default"))
    ensures Translate(cat, lang, key, [("default", d)]) == key
  {
    ReplacementsWithoutMarkers(key, [("default", d)]);
  }

  /** A single replacement substitutes its first marker and carries on through the rest of the text. */
  lemma SingleReplacement(cat: Catalog, lang: Language, key: string, name: string, value: string,
                          x: string, y: string)
    requires Resolve(cat, lang, key) == x + Placeholder(name) + y
    requires FirstOccurrenceAfter(x, Placeholder(name), y)
    ensures Translate(cat, lang, key, [(name, value)]) == x + value + ReplaceAll(y, Placeholder(name), value)
  {
    var p := Placeholder(name);
    var reps := [(name, value)];
    assert reps[0].0 == name && reps[0].1 == value && reps[1..] == [];
    assert Translate(cat, lang, key, reps) == ApplyReplacements(ReplaceAll(x + p + y, p, value), []);
    ReplaceAllAtFirst(x, p, y, value);
  }

  // ---------------------------------------------------------------- language change

  /** The marker `setLanguage` fills in (once). */
  const LanguageNameMarker: string := "{{languageName}}"

  /** The message used when no dictionary has `languageChangedTo`. */
  const DefaultLanguageChangedTemplate: string := LanguageChangedPrefix + LanguageNameMarker

  const LanguageChangedPrefix: string := "Language changed to "

  /** The display name of `lang` for the language-change toast:
      `(cat[lang] || cat[EN])?.["languageName." + lang] || LANGUAGES' name || lang`.
      A dictionary counts as present even when it lacks the key, so once `lang`'s own
      dictionary is loaded the English one is never consulted for the name. */
  function LanguageDisplayName(cat: Catalog, lang: Language): string {
    if lang in cat then Or(cat[lang], NameKey(lang), TableName(lang))
    else if FallbackLanguage in cat then Or(cat[FallbackLanguage], NameKey(lang), TableName(lang))
    else TableName(lang)
  }

  /** The dictionary key of a language's display name. */
  function NameKey(lang: Language): string {
    "languageName." + LanguageCode(lang)
  }

  /** `dict[key] || alternative`. */
  function Or(dict: Dictionary, key: string, alternative: string): string {
    if key in dict && dict[key] != "" then dict[key] else alternative
  }

  /** `LANGUAGES.find(l => l.code === lang)?.name || lang`. */
  function TableName(lang: Language): string {
    match Constants.FindLanguage(LanguageCode(lang))
    case Some(e) => if e.name != "" then e.name else LanguageCode(lang)
    case None => LanguageCode(lang)
  }

  /** The table always supplies the self-name, so the raw code is never shown. */
  lemma TableNameIsSelfName(lang: Language)
    ensures exists i :: 0 <= i < |Constants.Languages| && Constants.Languages[i].code == lang
                        && TableName(lang) == Constants.Languages[i].name
    ensures TableName(lang) != ""
  {
    var e := Constants.FindLanguage(LanguageCode(lang));
    Constants.FindLanguageExactly(LanguageCode(lang));
    assert e.Some? && e.value.code == lang;
    var i :| 0 <= i < |Constants.Languages| && Constants.Languages[i] == e.value;
    Constants.LanguageNamesPresent();
    assert TableName(lang) == Constants.Languages[i].name;
  }

  /** The order in which the name is chosen; the last resort (the raw code) is never reached. */
  lemma LanguageDisplayNameOrder(cat: Catalog, lang: Language)
    ensures var key := NameKey(lang);
            && (lang in cat && key in cat[lang] && cat[lang][key] != "" ==>
                  LanguageDisplayName(cat, lang) == cat[lang][key])
            && (lang !in cat && EN in cat && key in cat[EN] && cat[EN][key] != "" ==>
                  LanguageDisplayName(cat, lang) == cat[EN][key])
            && (lang in cat && !(key in cat[lang] && cat[lang][key] != "") ==>
                  LanguageDisplayName(cat, lang) == TableName(lang))
            && (lang !in cat && !(EN in cat && key in cat[EN] && cat[EN][key] != "") ==>
                  LanguageDisplayName(cat, lang) == TableName(lang))
    ensures LanguageDisplayName(cat, lang) != ""
  {
    TableNameIsSelfName(lang);
  }

  /** The toast text: `languageChangedTo` from `lang`'s dictionary, else English's, else the
      built-in sentence, with only the first `{{languageName}}` filled in. */
  function LanguageChangedMessage(cat: Catalog, lang: Language): string {
    var template := FirstOf(cat, lang, "languageChangedTo", DefaultLanguageChangedTemplate);
    ReplaceFirst(template, LanguageNameMarker, LanguageDisplayName(cat, lang))
  }

  /** Only the first marker is filled in; a later one stays verbatim. */
  lemma LanguageChangedFillsFirstMarkerOnly(cat: Catalog, lang: Language, x: string, y: string)
    requires FirstOf(cat, lang, "languageChangedTo", DefaultLanguageChangedTemplate) == x + LanguageNameMarker + y
    requires FirstOccurrenceAfter(x, LanguageNameMarker, y)
    ensures LanguageChangedMessage(cat, lang) == x + LanguageDisplayName(cat, lang) + y
  {
    ReplaceFirstAtFirst(x, LanguageNameMarker, y, LanguageDisplayName(cat, lang));
  }

  /** With no dictionary loaded the toast reads "Language changed to " followed by the language's self-name. */
  lemma LanguageChangedWithoutDictionaries(lang: Language)
    ensures LanguageChangedMessage(map[], lang) == LanguageChangedPrefix + TableName(lang)
  {
    var x := LanguageChangedPrefix;
    assert DefaultLanguageChangedTemplate == x + LanguageNameMarker + "";
    assert LanguageNameMarker[0] == '{';
    assert forall k :: 0 <= k < |x| ==> x[k] != '{';
    FirstOccurrenceAfterFirstChar(x, LanguageNameMarker, "");
    LanguageChangedFillsFirstMarkerOnly(map[], lang, x, "");
    assert LanguageDisplayName(map[], lang) == TableName(lang);
    assert x + TableName(lang) + "" == x + TableName(lang);
  }
}
