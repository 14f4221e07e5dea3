/** The settings page (pages/SettingsPage.tsx): theme and language go straight to the state
    container; what is page-local is the masked display of the configured API key. */
module SettingsPage {
  import opened Wrappers
  import opened Text
  import Model
  import AppState

  /** What the page shows for a key too short to be partly revealed. */
  const ShortKeyMask: string := "********"

  /** The key as the page shows it: nothing unless the status is ok and the key itself passes the
      start-up check; otherwise its first four and last four characters around `...` when it is
      longer than eight characters, and eight stars when it is not. */
  function ApiKeyDisplay(status: AppState.ApiKeyStatus, key: Option<string>): (r: string)
    ensures r == "" <==> status != AppState.Ok || AppState.ApiKeyStatusOf(key) != AppState.Ok
    ensures r != "" && |key.value| > 8 ==> r == key.value[..4] + "..." + key.value[|key.value| - 4..]
    ensures r != "" && |key.value| <= 8 ==> r == ShortKeyMask
  {
    if status == AppState.Ok && key.Some? && key.value != "" && key.value != "YOUR_GEMINI_API_KEY"
       && Trim(key.value) != "" then
      var k := key.value;
      if |k| > 8 then k[..4] + "..." + k[|k| - 4..] else ShortKeyMask
    else ""
  }

  /** A shown key is eleven characters long when revealed in part and eight when masked, and never
      shows more than eight characters of the key. */
  lemma DisplayLength(status: AppState.ApiKeyStatus, key: Option<string>)
    ensures ApiKeyDisplay(status, key) != "" ==>
              |ApiKeyDisplay(status, key)| == (if |key.value| > 8 then 11 else 8)
    ensures |ApiKeyDisplay(status, key)| <= 11
  {
  }

  /** Two valid keys that agree on their first and last four characters are shown alike, whatever
      lies between them; two valid short keys are shown alike whatever they hold. */
  lemma DisplayHidesMiddle(k1: string, k2: string)
    requires AppState.ApiKeyStatusOf(Some(k1)) == AppState.Ok
    requires AppState.ApiKeyStatusOf(Some(k2)) == AppState.Ok
    requires (|k1| > 8) == (|k2| > 8)
    requires |k1| > 8 ==> k1[..4] == k2[..4] && k1[|k1| - 4..] == k2[|k2| - 4..]
    ensures ApiKeyDisplay(AppState.Ok, Some(k1)) == ApiKeyDisplay(AppState.Ok, Some(k2))
  {
  }

  /** A key that passes the start-up check is always shown under status ok. */
  lemma ValidKeyIsShown(key: Option<string>)
    ensures ApiKeyDisplay(AppState.Ok, key) != "" <==> AppState.ApiKeyStatusOf(key) == AppState.Ok
  {
  }

  /** `handleThemeChange`: the container switches the theme and announces it. */
  function HandleThemeChange(s: AppState.State, theme: Model.Theme, ms: nat): (r: AppState.Step)
    ensures r.state.theme == theme
    ensures r.state == s.(theme := theme, toasts := s.toasts + r.emitted)
    ensures |r.emitted| == 1
  {
    AppState.SetTheme(s, theme, ms)
  }

  /** `handleLanguageChange`: the container switches the language and announces a change. */
  function HandleLanguageChange(s: AppState.State, lang: Model.Language, ms: nat): (r: AppState.Step)
    ensures r.state.language == lang
    ensures r.state == s.(language := lang, toasts := s.toasts + r.emitted)
    ensures |r.emitted| <= 1
  {
    AppState.SetLanguage(s, lang, ms)
  }
}
