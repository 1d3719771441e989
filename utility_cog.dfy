/**
 * The `/lang` command: the display name of a language, the normalisation
 * of the code the user typed, the check against the supported languages,
 * the confirmation text, and the autocomplete choices.
 */
module UtilityCog {
  import opened Wrappers
  import opened Text
  import Localization

  /** The fixed table of display names: (language, language shown in) -> name. */
  const DisplayNames: seq<(string, string, string)> := [
    ("en", "en", "English"),
    ("en", "zh_TW", "英語"),
    ("zh_TW", "en", "Traditional Chinese"),
    ("zh_TW", "zh_TW", "繁體中文")
  ]

  function NameIn(table: seq<(string, string, string)>, code: string, target: string): Option<string> {
    if table == [] then None
    else if table[0].0 == code && table[0].1 == target then Some(table[0].2)
    else NameIn(table[1..], code, target)
  }

  /** `get_language_display_name`: the table's name, else the code itself. */
  function DisplayName(code: string, target: string): (r: string)
    ensures NameIn(DisplayNames, code, target).None? ==> r == code
    ensures NameIn(DisplayNames, code, target).Some? ==> r == NameIn(DisplayNames, code, target).value
  {
    NameIn(DisplayNames, code, target).GetOr(code)
  }

  /** Only the two table languages have names; every other code is shown as itself. */
  lemma DisplayNameOfOthers(code: string, target: string)
    requires code != "en" && code != "zh_TW"
    ensures DisplayName(code, target) == code
  {
    var t := DisplayNames;
    assert NameIn(t, code, target) == NameIn(t[1..], code, target);
    assert NameIn(t[1..], code, target) == NameIn(t[1..][1..], code, target);
    assert NameIn(t[1..][1..], code, target) == NameIn(t[1..][1..][1..], code, target);
    assert t[1..][1..][1..][1..] == [];
  }

  lemma DisplayNamesInEnglish()
    ensures DisplayName("en", "en") == "English" && DisplayName("zh_TW", "en") == "Traditional Chinese"
  {
  }

  /** The spellings of Traditional Chinese the command accepts (after lower-casing). */
  predicate TaiwanSpelling(s: string) {
    s == "zh-tw" || s == "zh_tw" || s == "zhtw"
  }

  /** The code to check: stripped and lower-cased, with "en" and the Traditional Chinese spellings canonicalised. */
  function NormalizeCode(input: string): (r: string)
    ensures TaiwanSpelling(Lower(Strip(input))) ==> r == "zh_TW"
    ensures !TaiwanSpelling(Lower(Strip(input))) ==> r == Lower(Strip(input))
  {
    var raw := Lower(Strip(input));
    if raw == "en" then "en"
    else if TaiwanSpelling(raw) then "zh_TW"
    else raw
  }

  lemma LowerKeepsSpaces(s: string)
    ensures forall i :: 0 <= i < |s| ==> (IsSpace(Lower(s)[i]) <==> IsSpace(s[i]))
  {
  }

  /** A stripped, lower-cased string is left alone by stripping and lower-casing again. */
  lemma StrippedLowerIsFixed(input: string)
    ensures Lower(Strip(Lower(Strip(input)))) == Lower(Strip(input))
  {
    var st := Strip(input);
    var raw := Lower(st);
    LowerKeepsSpaces(st);
    assert raw == [] || (!IsSpace(raw[0]) && !IsSpace(raw[|raw| - 1]));
    StripKeepsClean(raw);
    LowerIdempotent(st);
  }

  /** Normalising twice is normalising once: every canonical code is a fixed point. */
  lemma NormalizeIdempotent(input: string)
    ensures NormalizeCode(NormalizeCode(input)) == NormalizeCode(input)
  {
    var raw := Lower(Strip(input));
    if !TaiwanSpelling(raw) && raw != "en" {
      StrippedLowerIsFixed(input);
      assert NormalizeCode(raw) == raw;
    } else if TaiwanSpelling(raw) {
      var z := "zh_TW";
      assert Strip(z) == z by {
        StripKeepsClean(z);
      }
      assert Lower(z) == "zh_tw";
    } else {
      assert Strip("en") == "en" by {
        StripKeepsClean("en");
      }
      assert Lower("en") == "en";
    }
  }

  /** Any case and surrounding spaces of a Traditional Chinese spelling select "zh_TW". */
  lemma TaiwanSpellingsSelectZhTw(input: string)
    requires TaiwanSpelling(Lower(Strip(input)))
    ensures NormalizeCode(input) == "zh_TW"
  {
  }

  /** The outcome of `/lang` with a code: accepted (the stored code) or rejected. */
  datatype LangOutcome = Accepted(code: string) | Rejected

  /** `/lang <code>`: the normalised code is stored exactly when it is supported. */
  method SetLanguage(l10n: Localization.L10n, userId: int, input: string) returns (r: LangOutcome)
    modifies l10n
    ensures r.Accepted? <==> NormalizeCode(input) in l10n.supported
    ensures r.Accepted? ==>
      r.code == NormalizeCode(input)
      && l10n.prefs == old(l10n.prefs)[IntToString(userId) := NormalizeCode(input)]
      && l10n.UserLanguage(IntToString(userId)) == NormalizeCode(input)
    ensures r.Rejected? ==> l10n.prefs == old(l10n.prefs) && l10n.translations == old(l10n.translations)
  {
    var code := NormalizeCode(input);
    if code in l10n.supported {
      var ok := l10n.SetUserLanguage(userId, code);
      return Accepted(code);
    }
    return Rejected;
  }

  // ---------------------------------------------------------------------
  // Response texts

  /** The template of a key in one language; an empty template counts as missing here. */
  function TemplateIn(translations: map<string, map<string, string>>, lang: string, key: string): Option<string> {
    if lang in translations && key in translations[lang] && translations[lang][key] != "" then
      Some(translations[lang][key])
    else None
  }

  /**
   * The confirmation and status replies: the template of the user's language,
   * else the default language's, each filled in (`fill` is None when
   * formatting raises, which gives `onError`); with no template, `ultimate`.
   */
  function Reply(translations: map<string, map<string, string>>, lang: string, defaultLanguage: string,
                 key: string, fill: string -> Option<string>, ultimate: string, onError: string): (r: string)
    ensures lang in translations && key in translations[lang] && translations[lang][key] != "" ==>
      var t := translations[lang][key];
      (fill(t).Some? ==> r == fill(t).value) && (fill(t).None? ==> r == onError)
    ensures TemplateIn(translations, lang, key).None? &&
            defaultLanguage in translations && key in translations[defaultLanguage] && translations[defaultLanguage][key] != "" ==>
      var t := translations[defaultLanguage][key];
      (fill(t).Some? ==> r == fill(t).value) && (fill(t).None? ==> r == onError)
    ensures TemplateIn(translations, lang, key).None? && TemplateIn(translations, defaultLanguage, key).None? ==>
      r == ultimate
  {
    var template :=
      if TemplateIn(translations, lang, key).Some? then TemplateIn(translations, lang, key)
      else TemplateIn(translations, defaultLanguage, key);
    match template
    case None => ultimate
    case Some(t) => fill(t).GetOr(onError)
  }

  /** The reply after a change: in the new language, falling back as above. */
  function SetSuccessReply(translations: map<string, map<string, string>>, code: string, defaultLanguage: string,
                           fill: string -> Option<string>): (r: string)
    ensures TemplateIn(translations, code, "lang_set_success").None? &&
            TemplateIn(translations, defaultLanguage, "lang_set_success").None? ==>
      r == "Language set to: " + DisplayName(code, code)
    ensures TemplateIn(translations, code, "lang_set_success").Some? &&
            fill(translations[code]["lang_set_success"]).None? ==>
      r == "Your language has been set to: **" + DisplayName(code, code) + "**."
  {
    var shown := DisplayName(code, code);
    Reply(translations, code, defaultLanguage, "lang_set_success", fill,
          "Language set to: " + shown, "Your language has been set to: **" + shown + "**.")
  }

  /** An empty template is skipped for the default language's, unlike an empty translation in the general lookup. */
  lemma EmptyTemplateSkipped(translations: map<string, map<string, string>>, code: string, d: string,
                             fill: string -> Option<string>, format: string -> Localization.Formatted)
    requires code in translations && "lang_set_success" in translations[code] && translations[code]["lang_set_success"] == ""
    requires d in translations && "lang_set_success" in translations[d] && translations[d]["lang_set_success"] != ""
    requires fill(translations[d]["lang_set_success"]).Some?
    ensures SetSuccessReply(translations, code, d, fill) == fill(translations[d]["lang_set_success"]).value
    ensures Localization.Localize(translations, d, code, "lang_set_success", "", false, format) == ""
  {
  }

  // ---------------------------------------------------------------------
  // Autocomplete

  /** One autocomplete choice: the shown name and the code it inserts. */
  datatype Choice = Choice(name: string, value: string)

  /** The typed text occurs, ignoring ASCII case, in the code or its display name. */
  predicate Offers(code: string, display: string, current: string) {
    Contains(Lower(code), Lower(current)) || Contains(Lower(display), Lower(current))
  }

  /** The codes the typed text matches, in order, each labelled "name (code)" with the name `shown` gives. */
  function MatchingBy(codes: seq<string>, shown: string -> string, current: string): (r: seq<Choice>)
    ensures |r| <= |codes|
    ensures forall k :: 0 <= k < |r| ==>
      r[k].value in codes && Offers(r[k].value, shown(r[k].value), current)
      && r[k].name == shown(r[k].value) + " (" + r[k].value + ")"
  {
    if codes == [] then []
    else
      var rest := MatchingBy(codes[1..], shown, current);
      if Offers(codes[0], shown(codes[0]), current) then [Choice(shown(codes[0]) + " (" + codes[0] + ")", codes[0])] + rest
      else rest
  }

  /** The display names in the user's language. */
  function ShownIn(target: string): string -> string {
    c => DisplayName(c, target)
  }

  /** The supported codes the typed text matches, in order, each with its name in the user's language. */
  function Matching(codes: seq<string>, target: string, current: string): (r: seq<Choice>)
    ensures |r| <= |codes|
    ensures forall k :: 0 <= k < |r| ==>
      r[k].value in codes && Offers(r[k].value, DisplayName(r[k].value, target), current)
      && r[k].name == DisplayName(r[k].value, target) + " (" + r[k].value + ")"
  {
    MatchingBy(codes, ShownIn(target), current)
  }

  /** Every matching code is offered, whatever names are shown. */
  lemma {:induction false} MatchingByComplete(codes: seq<string>, shown: string -> string, current: string, i: nat)
    requires i < |codes| && Offers(codes[i], shown(codes[i]), current)
    ensures exists k :: 0 <= k < |MatchingBy(codes, shown, current)| && MatchingBy(codes, shown, current)[k].value == codes[i]
  {
    var r := MatchingBy(codes, shown, current);
    if i == 0 {
      assert r[0].value == codes[0];
    } else {
      MatchingByComplete(codes[1..], shown, current, i - 1);
      var rest := MatchingBy(codes[1..], shown, current);
      var k :| 0 <= k < |rest| && rest[k].value == codes[1..][i - 1];
      if Offers(codes[0], shown(codes[0]), current) {
        assert r[k + 1] == rest[k];
      } else {
        assert r[k] == rest[k];
      }
    }
  }

  /** Every matching supported code is offered. */
  lemma MatchingComplete(codes: seq<string>, target: string, current: string, i: nat)
    requires i < |codes| && Offers(codes[i], DisplayName(codes[i], target), current)
    ensures exists k :: 0 <= k < |Matching(codes, target, current)| && Matching(codes, target, current)[k].value == codes[i]
  {
    MatchingByComplete(codes, ShownIn(target), current, i);
    var m := Matching(codes, target, current);
    assert m == MatchingBy(codes, ShownIn(target), current);
    var k :| 0 <= k < |m| && m[k].value == codes[i];
  }

  /** `lang_autocomplete`: the matching choices, at most 25. */
  function Autocomplete(codes: seq<string>, target: string, current: string): (r: seq<Choice>)
    ensures |r| <= 25
    ensures var m := Matching(codes, target, current); r == m[..if |m| <= 25 then |m| else 25]
  {
    var m := Matching(codes, target, current);
    if |m| <= 25 then m else m[..25]
  }

  lemma {:induction false} EverythingContainsEmpty(s: string)
    ensures Contains(s, "")
  {
    assert s[..0] == "";
  }

  /** An empty input offers every code, in order, whatever names are shown. */
  lemma {:induction false} EmptyInputOffersAllBy(codes: seq<string>, shown: string -> string)
    ensures |MatchingBy(codes, shown, "")| == |codes|
    ensures forall k :: 0 <= k < |codes| ==> MatchingBy(codes, shown, "")[k].value == codes[k]
  {
    if codes != [] {
      EmptyInputOffersAllBy(codes[1..], shown);
      EverythingContainsEmpty(Lower(codes[0]));
      assert Lower("") == "";
      var rest := MatchingBy(codes[1..], shown, "");
      var r := MatchingBy(codes, shown, "");
      assert Offers(codes[0], shown(codes[0]), "");
      assert r == [Choice(shown(codes[0]) + " (" + codes[0] + ")", codes[0])] + rest;
      forall k | 1 <= k < |codes| ensures r[k].value == codes[k] {
        assert r[k] == rest[k - 1] && codes[1..][k - 1] == codes[k];
      }
    }
  }

  /** An empty input offers every supported code (up to 25), in the configured order. */
  lemma EmptyInputOffersAll(codes: seq<string>, target: string)
    ensures |Matching(codes, target, "")| == |codes|
    ensures forall k :: 0 <= k < |codes| ==> Matching(codes, target, "")[k].value == codes[k]
  {
    EmptyInputOffersAllBy(codes, ShownIn(target));
  }
}
