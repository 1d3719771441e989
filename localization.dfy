/**
 * The bot's translation layer: the per-user language preferences, the
 * cache of loaded language files, and the lookup of a translated string
 * with its fallback chain (chosen language, default language, the
 * caller's fallback text, a "translation missing" placeholder) and the
 * optional formatting step.
 */
module Localization {
  import opened Wrappers
  import opened Text

  /** What a language file gives when read: not there, not valid JSON, or its key/value table. */
  datatype LangFile = NotFound | Invalid | Table(entries: map<string, string>)

  /** The preferences file: not there, empty, not valid JSON, or its table (JSON keys are already strings). */
  datatype PrefsFile = NoPrefs | EmptyPrefs | BadPrefs | Prefs(entries: map<string, string>)

  /** `_load_user_preferences`: every unreadable state gives an empty table. */
  function LoadPrefs(f: PrefsFile): (r: map<string, string>)
    ensures f.Prefs? ==> r == f.entries
    ensures !f.Prefs? ==> r == map[]
  {
    match f
    case Prefs(entries) => entries
    case _ => map[]
  }

  /** Who the caller names: a user id, a string (a user id or a language code), or nobody. */
  datatype Who = UserId(id: int) | Text(text: string) | Nobody

  /** `str(user_id_or_lang_code)`. */
  function WhoKey(w: Who): string
    requires !w.Nobody?
  {
    match w
    case UserId(id) => IntToString(id)
    case Text(s) => s
  }

  /** The translated text, or the error class named when formatting with the given arguments fails. */
  datatype Formatted = Done(text: string) | FormatError(errorName: string)

  /** `load_language` on the cache alone: a code not yet cached is read once; an unreadable file caches an empty table. */
  function Loaded(translations: map<string, map<string, string>>, files: string -> LangFile, code: string)
    : (r: map<string, map<string, string>>)
    ensures code in r
    ensures code in translations ==> r == translations
    ensures code !in translations ==> r == translations[code := if files(code).Table? then files(code).entries else map[]]
  {
    if code in translations then translations
    else
      match files(code)
      case Table(entries) => translations[code := entries]
      case _ => translations[code := map[]]
  }

  /** The language a lookup uses: the preference if loaded, else the argument itself if a loaded code, else the default. */
  function LanguageFor(prefs: map<string, string>, translations: map<string, map<string, string>>,
                       defaultLanguage: string, who: Who): (r: string)
    ensures r == defaultLanguage || r in translations
  {
    if who.Nobody? then defaultLanguage
    else
      var preferred := if WhoKey(who) in prefs then prefs[WhoKey(who)] else defaultLanguage;
      if preferred in translations then preferred
      else if WhoKey(who) in translations then WhoKey(who)
      else defaultLanguage
  }

  /** The raw entry: the chosen language's, else (for another language) the default language's when it is loaded. */
  function Entry(translations: map<string, map<string, string>>, defaultLanguage: string, lang: string, key: string)
    : (r: Option<string>)
    ensures r.None? <==>
      (!(lang in translations && key in translations[lang]) &&
       !(defaultLanguage in translations && key in translations[defaultLanguage]))
    ensures lang in translations && key in translations[lang] ==> r == Some(translations[lang][key])
  {
    var own := if lang in translations && key in translations[lang] then Some(translations[lang][key]) else None;
    if own.None? && lang != defaultLanguage && defaultLanguage in translations && key in translations[defaultLanguage] then
      Some(translations[defaultLanguage][key])
    else own
  }

  function MissingPlaceholder(key: string): string {
    "<translation_missing: " + key + ">"
  }

  function FormattingErrorText(key: string, errorName: string): string {
    "<formatting_error: " + key + " (" + errorName + ")>"
  }

  /**
   * The text of the lookup once the language is chosen: a missing entry
   * falls back to `fallback` when it is non-empty, else to the placeholder;
   * formatting is applied only when arguments were given.
   */
  function Localize(translations: map<string, map<string, string>>, defaultLanguage: string, lang: string,
                    key: string, fallback: string, hasArgs: bool, format: string -> Formatted): (r: string)
    ensures !hasArgs && Entry(translations, defaultLanguage, lang, key).Some? ==>
      r == Entry(translations, defaultLanguage, lang, key).value
    ensures Entry(translations, defaultLanguage, lang, key).None? && fallback == "" ==> r == MissingPlaceholder(key)
    ensures Entry(translations, defaultLanguage, lang, key).None? && fallback != "" && !hasArgs ==> r == fallback
  {
    match Entry(translations, defaultLanguage, lang, key)
    case None =>
      if fallback == "" then MissingPlaceholder(key)
      else Finish(key, fallback, hasArgs, format)
    case Some(text) => Finish(key, text, hasArgs, format)
  }

  /** The formatting step. */
  function Finish(key: string, text: string, hasArgs: bool, format: string -> Formatted): (r: string)
    ensures !hasArgs ==> r == text
  {
    if !hasArgs then text
    else
      match format(text)
      case Done(t) => t
      case FormatError(name) => FormattingErrorText(key, name)
  }

  /** The lookup order without arguments: own language, then the default language, then the fallback, then the placeholder. */
  lemma LookupOrder(translations: map<string, map<string, string>>, d: string, lang: string, key: string,
                    fallback: string, format: string -> Formatted)
    ensures lang in translations && key in translations[lang] ==>
      Localize(translations, d, lang, key, fallback, false, format) == translations[lang][key]
    ensures !(lang in translations && key in translations[lang]) && d in translations && key in translations[d] ==>
      Localize(translations, d, lang, key, fallback, false, format) == translations[d][key]
    ensures !(lang in translations && key in translations[lang]) && !(d in translations && key in translations[d]) ==>
      Localize(translations, d, lang, key, fallback, false, format) ==
      (if fallback != "" then fallback else MissingPlaceholder(key))
  {
  }

  /** An empty translation is an answer, not a miss: it is returned even when a fallback is offered. */
  lemma EmptyTranslationKept(translations: map<string, map<string, string>>, d: string, lang: string, key: string,
                             fallback: string, format: string -> Formatted)
    requires lang in translations && key in translations[lang] && translations[lang][key] == ""
    ensures Localize(translations, d, lang, key, fallback, false, format) == ""
  {
  }

  /** With arguments, a formatting failure names the key and the error; nothing is formatted without them. */
  lemma FormattingOnlyWithArgs(translations: map<string, map<string, string>>, d: string, lang: string, key: string,
                               format: string -> Formatted)
    requires lang in translations && key in translations[lang]
    ensures format(translations[lang][key]).FormatError? ==>
      Localize(translations, d, lang, key, "", true, format) ==
      FormattingErrorText(key, format(translations[lang][key]).errorName)
    ensures Localize(translations, d, lang, key, "", false, format) == translations[lang][key]
  {
  }

  /** The module state: preferences, the language cache, and the language files on disk. */
  class L10n {
    const defaultLanguage: string
    const supported: seq<string>
    const files: string -> LangFile
    var prefs: map<string, string>
    var translations: map<string, map<string, string>>
    /** The contents last written to the preferences file, and how many times it was written. */
    var savedPrefs: map<string, string>
    var saves: nat

    /** The import-time initialisation: preferences, then the default language, then every supported language. */
    constructor (defaultLanguage: string, supported: seq<string>, files: string -> LangFile, prefsFile: PrefsFile)
      ensures this.defaultLanguage == defaultLanguage && this.supported == supported && this.files == files
      ensures prefs == LoadPrefs(prefsFile) && saves == 0
      ensures defaultLanguage in translations
      ensures forall i :: 0 <= i < |supported| ==> supported[i] in translations
    {
      this.defaultLanguage := defaultLanguage;
      this.supported := supported;
      this.files := files;
      prefs := LoadPrefs(prefsFile);
      savedPrefs := map[];
      saves := 0;
      var t := Loaded(map[], files, defaultLanguage);
      var i := 0;
      while i < |supported|
        invariant 0 <= i <= |supported|
        invariant defaultLanguage in t
        invariant forall j :: 0 <= j < i ==> supported[j] in t
      {
        if supported[i] !in t {
          t := Loaded(t, files, supported[i]);
        }
        i := i + 1;
      }
      translations := t;
    }

    /** `load_language`. */
    method LoadLanguage(code: string)
      modifies this
      ensures translations == Loaded(old(translations), files, code)
      ensures prefs == old(prefs) && savedPrefs == old(savedPrefs) && saves == old(saves)
    {
      if code !in translations {
        match files(code)
        case Table(entries) =>
          translations := translations[code := entries];
        case _ =>
          translations := translations[code := map[]];
      }
    }

    /** `get_user_language`: the stored preference under the decimal id, else the default language. */
    function UserLanguage(key: string): (r: string)
      reads this
      ensures key in prefs ==> r == prefs[key]
      ensures key !in prefs ==> r == defaultLanguage
    {
      if key in prefs then prefs[key] else defaultLanguage
    }

    /** `set_user_language`: an unsupported code changes nothing; a supported one is stored, loaded and saved. */
    method SetUserLanguage(userId: int, code: string) returns (ok: bool)
      modifies this
      ensures ok <==> code in supported
      ensures !ok ==>
        prefs == old(prefs) && translations == old(translations)
        && savedPrefs == old(savedPrefs) && saves == old(saves)
      ensures ok ==>
        prefs == old(prefs)[IntToString(userId) := code]
        && translations == Loaded(old(translations), files, code)
        && savedPrefs == prefs && saves == old(saves) + 1
    {
      if code !in supported {
        return false;
      }
      prefs := prefs[IntToString(userId) := code];
      if code !in translations {
        LoadLanguage(code);
      }
      savedPrefs := prefs;
      saves := saves + 1;
      return true;
    }

    /**
     * `get_localized_string`: choose the language, reload it if the cache
     * is empty, then look the key up and format it.
     */
    method GetLocalizedString(who: Who, key: string, fallback: string, hasArgs: bool, format: string -> Formatted)
      returns (r: string)
      modifies this
      ensures prefs == old(prefs) && savedPrefs == old(savedPrefs) && saves == old(saves)
      ensures var lang := LanguageFor(old(prefs), old(translations), defaultLanguage, who);
        translations == (if old(translations) == map[] then Loaded(old(translations), files, lang) else old(translations))
        && r == Localize(translations, defaultLanguage, lang, key, fallback, hasArgs, format)
    {
      var lang := defaultLanguage;
      if !who.Nobody? {
        var potential := UserLanguage(WhoKey(who));
        if potential in translations {
          lang := potential;
        } else if WhoKey(who) in translations {
          lang := WhoKey(who);
        }
      }
      if translations == map[] {
        LoadLanguage(lang);
      }
      var text := Entry(translations, defaultLanguage, lang, key);
      if text.None? {
        if fallback == "" {
          return MissingPlaceholder(key);
        }
        text := Some(fallback);
      }
      if hasArgs {
        match format(text.value)
        case Done(t) => return t;
        case FormatError(name) => return FormattingErrorText(key, name);
      }
      return text.value;
    }
  }

  /** Loading is cached: a second load of the same code changes nothing, even if the file has been fixed since. */
  lemma LoadOnce(translations: map<string, map<string, string>>, files: string -> LangFile,
                 later: string -> LangFile, code: string)
    ensures Loaded(Loaded(translations, files, code), later, code) == Loaded(translations, files, code)
  {
  }

  /** A code whose file is missing or invalid is cached as an empty table, so every key in it misses. */
  lemma BadFileCachesEmpty(translations: map<string, map<string, string>>, files: string -> LangFile, code: string)
    requires code !in translations && !files(code).Table?
    ensures Loaded(translations, files, code)[code] == map[]
  {
  }

  /** After setting a supported language, the user's lookups use it. */
  lemma SetThenLookup(prefs: map<string, string>, translations: map<string, map<string, string>>,
                      files: string -> LangFile, d: string, userId: int, code: string)
    ensures LanguageFor(prefs[IntToString(userId) := code], Loaded(translations, files, code), d, UserId(userId)) == code
  {
  }

  /** A user with no stored preference whose default is loaded reads in the default language. */
  lemma UnsetUserUsesDefault(prefs: map<string, string>, translations: map<string, map<string, string>>,
                             d: string, userId: int)
    requires IntToString(userId) !in prefs && d in translations
    ensures LanguageFor(prefs, translations, d, UserId(userId)) == d
  {
  }

  /** A language code given directly is used when the caller has no loaded preference under that text. */
  lemma CodeUsedDirectly(prefs: map<string, string>, translations: map<string, map<string, string>>,
                         d: string, code: string)
    requires code !in prefs && d !in translations && code in translations
    ensures LanguageFor(prefs, translations, d, Text(code)) == code
  {
  }

  /**
   * A code given directly is first looked up as a user id, which falls back
   * to the default language: once the default language is loaded, a code
   * with no preference stored under it is never used.
   */
  lemma CodeShadowedByDefault(prefs: map<string, string>, translations: map<string, map<string, string>>,
                              d: string, code: string)
    requires code !in prefs && d in translations
    ensures LanguageFor(prefs, translations, d, Text(code)) == d
  {
  }
}
