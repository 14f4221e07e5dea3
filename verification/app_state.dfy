/** The application state container of contexts/AppContext.tsx as a pure state machine.
    Every mutator takes the state (and, where the source reads the clock, the current
    millisecond `ms`) and returns the next state together with the toasts it emitted;
    the emitted toasts are always appended to the state's toast list. */
module AppState {
  import opened Wrappers
  import opened Model
  import opened Text
  import opened I18n
  import Constants
  import Roster
  import SavedList
  import Notifications
  import Seqs

  datatype ApiKeyStatus = Ok | Missing

  datatype State = State(
    theme: Theme,
    language: Language,
    brandPreferences: BrandPreferences,
    saved: seq<Influencer>,
    notifications: seq<Notification>,
    toasts: seq<ToastMessage>,
    apiKeyStatus: ApiKeyStatus,
    userProfile: Option<UserProfile>,
    catalog: Catalog)

  /** The next state and the toasts the transition emitted, oldest first. */
  datatype Step = Step(state: State, emitted: seq<ToastMessage>)

  /** What a page handler produces: its own new value and the toasts it asked `addToast` for. */
  datatype Outcome<T> = Outcome(value: T, emitted: seq<ToastMessage>)

  /** `t(key, replacements)` in the state's active language. */
  function T(s: State, key: string, reps: seq<(string, string)>): string {
    Translate(s.catalog, s.language, key, reps)
  }

  // ---------------------------------------------------------------- API key

  /** The start-up check of the configured key: present, not the placeholder, not blank. */
  function ApiKeyStatusOf(key: Option<string>): ApiKeyStatus {
    if key.Some? && key.value != "" && key.value != "YOUR_GEMINI_API_KEY" && Trim(key.value) != ""
    then Ok else Missing
  }

  /** The key counts as configured exactly when it is given, is not the placeholder of the
      constants, and has a character other than whitespace. */
  lemma ApiKeyStatusMeaning(key: Option<string>)
    ensures ApiKeyStatusOf(key) == Ok <==>
              key.Some? && key.value != Constants.MockApiKeyPlaceholder &&
              exists k :: 0 <= k < |key.value| && !IsSpace(key.value[k])
  {
    if key.Some? {
      TrimBlank(key.value);
    }
  }

  /** The state at start-up, before any action; the dictionaries loaded so far are given. */
  function Initial(key: Option<string>, catalog: Catalog): (s: State)
    ensures s.language == Constants.DefaultLanguage
    ensures s.saved == [] && s.notifications == [] && s.toasts == []
    ensures s.brandPreferences.preferredPlatforms == [Instagram]
    ensures s.apiKeyStatus == Ok <==> ApiKeyStatusOf(key) == Ok
  {
    State(Light, Constants.DefaultLanguage, BrandPreferences("", [], [], [Instagram]),
          [], [], [], ApiKeyStatusOf(key), None, catalog)
  }

  // ---------------------------------------------------------------- toasts

  /** The toast `addToast(message, kind)` creates at millisecond `ms`. */
  function NewToast(message: string, kind: Severity, ms: nat): ToastMessage {
    ToastMessage(Stamp(ms), message, kind)
  }

  /** `r` differs from `s` only by having `emitted` appended to the toasts. */
  predicate OnlyToasts(s: State, r: Step) {
    r.state == s.(toasts := s.toasts + r.emitted)
  }

  /** `addToast`: one toast appended at the end. */
  function AddToast(s: State, message: string, kind: Severity, ms: nat): (r: Step)
    ensures OnlyToasts(s, r)
    ensures |r.emitted| == 1 && r.emitted[0].message == message && r.emitted[0].kind == kind
    ensures r.state.toasts[|s.toasts|].id == Stamp(ms)
  {
    var toast := NewToast(message, kind, ms);
    Step(s.(toasts := s.toasts + [toast]), [toast])
  }

  /** `removeToast(id)`: every toast with that id goes, even two made in the same millisecond. */
  function RemoveToast(s: State, id: string): (r: State)
    ensures r == s.(toasts := r.toasts)
    ensures forall m :: m in r.toasts <==> m in s.toasts && m.id != id
    ensures Seqs.Sublist(r.toasts, s.toasts)
    ensures forall m :: multiset(r.toasts)[m] == if m.id != id then multiset(s.toasts)[m] else 0
    ensures (forall m :: m in s.toasts ==> m.id != id) ==> r == s
  {
    var keep := (m: ToastMessage) => m.id != id;
    if forall m :: m in s.toasts ==> m.id != id then
      Seqs.FilterKeepsAll(s.toasts, keep);
      s.(toasts := Seqs.Filter(s.toasts, keep))
    else
      s.(toasts := Seqs.Filter(s.toasts, keep))
  }

  // ---------------------------------------------------------------- theme, language, preferences

  /** `setTheme`: the theme is stored and an info toast names it, even when it did not change. */
  function SetTheme(s: State, theme: Theme, ms: nat): (r: Step)
    ensures r.state == s.(theme := theme, toasts := s.toasts + r.emitted)
    ensures |r.emitted| == 1 && r.emitted[0].kind == Info
    ensures r.emitted[0].message ==
              T(s, "themeChangedTo", [("theme", T(s, if theme == Dark then "darkMode" else "lightMode", []))])
  {
    var themeName := if theme == Dark then T(s, "darkMode", []) else T(s, "lightMode", []);
    AddToast(s.(theme := theme), T(s, "themeChangedTo", [("theme", themeName)]), Info, ms)
  }

  /** `setLanguage`: the language is always stored; one info toast is emitted exactly when it changed. */
  function SetLanguage(s: State, lang: Language, ms: nat): (r: Step)
    ensures r.state == s.(language := lang, toasts := s.toasts + r.emitted)
    ensures |r.emitted| == (if lang != s.language then 1 else 0)
    ensures forall m :: m in r.emitted ==> m.kind == Info && m.message == LanguageChangedMessage(s.catalog, lang)
  {
    var s' := s.(language := lang);
    if s.language != lang then AddToast(s', LanguageChangedMessage(s.catalog, lang), Info, ms)
    else Step(s', [])
  }

  /** The text of the preferences toast, whose `{default: ...}` only fills a `{{default}}` marker. */
  const PreferencesSavedDefault: string := "Preferences saved successfully!"

  /** `setBrandPreferences`: stored as given, with a success toast every time. */
  function SetBrandPreferences(s: State, prefs: BrandPreferences, ms: nat): (r: Step)
    ensures r.state == s.(brandPreferences := prefs, toasts := s.toasts + r.emitted)
    ensures |r.emitted| == 1 && r.emitted[0].kind == Success
    ensures r.emitted[0].message == T(s, "preferencesSaved", [("default", PreferencesSavedDefault)])
  {
    AddToast(s.(brandPreferences := prefs), T(s, "preferencesSaved", [("default", PreferencesSavedDefault)]), Success, ms)
  }

  /** `setUserProfile`: stored as given, silently. */
  function SetUserProfile(s: State, profile: Option<UserProfile>): (r: State)
    ensures r.userProfile == profile
    ensures r == s.(userProfile := r.userProfile)
  {
    s.(userProfile := profile)
  }

  // ---------------------------------------------------------------- saved influencers

  /** `addSavedInfluencer`: a new id is appended with a success toast; a known id changes nothing. */
  function AddSavedInfluencer(s: State, inf: Influencer, ms: nat): (r: Step)
    ensures Roster.HasId(s.saved, inf.id) ==> r == Step(s, [])
    ensures !Roster.HasId(s.saved, inf.id) ==>
              r.state == s.(saved := s.saved + [inf], toasts := s.toasts + r.emitted)
              && |r.emitted| == 1 && r.emitted[0].kind == Success
              && r.emitted[0].message == T(s, "influencerSaved", [("name", inf.name)])
    ensures Roster.HasId(r.state.saved, inf.id)
  {
    if Roster.HasId(s.saved, inf.id) then Step(s, [])
    else
      var saved := SavedList.Add(s.saved, inf);
      AddToast(s.(saved := saved), T(s, "influencerSaved", [("name", inf.name)]), Success, ms)
  }

  /** `removeSavedInfluencer(id)`: every entry with the id goes; an info toast naming the first
      such entry is emitted only when there was one. */
  function RemoveSavedInfluencer(s: State, id: string, ms: nat): (r: Step)
    ensures r.state.saved == SavedList.Remove(s.saved, id)
    ensures Seqs.Sublist(r.state.saved, s.saved)
    ensures forall x :: multiset(r.state.saved)[x] == if x.id != id then multiset(s.saved)[x] else 0
    ensures r.state == s.(saved := r.state.saved, toasts := s.toasts + r.emitted)
    ensures !Roster.HasId(r.state.saved, id)
    ensures |r.emitted| == (if Roster.HasId(s.saved, id) then 1 else 0)
    ensures forall m :: m in r.emitted ==>
              m.kind == Info &&
              (exists x :: x in s.saved && x.id == id && m.message == T(s, "influencerRemoved", [("name", x.name)]))
  {
    var emitted := RemovalToasts(s, id, ms);
    Step(s.(saved := SavedList.Remove(s.saved, id), toasts := s.toasts + emitted), emitted)
  }

  /** The toast of a removal: one info toast naming the first saved entry with the id, if any. */
  function RemovalToasts(s: State, id: string, ms: nat): (r: seq<ToastMessage>)
    ensures |r| == (if Roster.HasId(s.saved, id) then 1 else 0)
    ensures forall m :: m in r ==>
              m.kind == Info &&
              (exists x :: x in s.saved && x.id == id && m.message == T(s, "influencerRemoved", [("name", x.name)]))
  {
    match Roster.FindById(s.saved, id)
    case Some(found) => [NewToast(T(s, "influencerRemoved", [("name", found.name)]), Info, ms)]
    case None => []
  }

  /** `isInfluencerSaved(id)`. */
  predicate IsInfluencerSaved(s: State, id: string) {
    Roster.HasId(s.saved, id)
  }

  /** The answer of `isInfluencerSaved` follows the last add or remove of that id. */
  lemma IsInfluencerSavedAfterEdits(s: State, inf: Influencer, id: string, ms: nat)
    ensures IsInfluencerSaved(AddSavedInfluencer(s, inf, ms).state, id) <==> IsInfluencerSaved(s, id) || id == inf.id
    ensures !IsInfluencerSaved(RemoveSavedInfluencer(s, id, ms).state, id)
    ensures id != inf.id ==>
              (IsInfluencerSaved(RemoveSavedInfluencer(s, inf.id, ms).state, id) <==> IsInfluencerSaved(s, id))
  {
  }

  /** The save button of a card or a detail page: removes a saved influencer, saves an unsaved one. */
  function ToggleSaved(s: State, inf: Influencer, ms: nat): (r: Step)
    ensures IsInfluencerSaved(r.state, inf.id) <==> !IsInfluencerSaved(s, inf.id)
    ensures r.state.toasts == s.toasts + r.emitted
    ensures |r.emitted| == 1
    ensures forall id :: id != inf.id ==> (IsInfluencerSaved(r.state, id) <==> IsInfluencerSaved(s, id))
  {
    if IsInfluencerSaved(s, inf.id) then RemoveSavedInfluencer(s, inf.id, ms)
    else AddSavedInfluencer(s, inf, ms)
  }

  // ---------------------------------------------------------------- notifications

  /** `addNotification(message, kind = 'info')`: a new unread entry stamped `ms` goes to the front. */
  function AddNotification(s: State, message: string, kind: Option<Severity>, ms: nat): (r: State)
    ensures r == s.(notifications := r.notifications)
    ensures |r.notifications| == Notifications.Min(|s.notifications| + 1, Notifications.Cap)
    ensures r.notifications[0] == Notification(Stamp(ms), message, kind.GetOr(Info), ms, false)
    ensures |r.notifications| <= Notifications.Cap
    ensures forall i :: 1 <= i < |r.notifications| ==> r.notifications[i] == s.notifications[i - 1]
  {
    s.(notifications := Notifications.Push(s.notifications, Notification(Stamp(ms), message, kind.GetOr(Info), ms, false)))
  }

  /** `clearNotification(id)`. */
  function ClearNotification(s: State, id: string): (r: State)
    ensures r == s.(notifications := r.notifications)
    ensures forall n :: n in r.notifications <==> n in s.notifications && n.id != id
    ensures Seqs.Sublist(r.notifications, s.notifications)
    ensures forall n :: multiset(r.notifications)[n] == if n.id != id then multiset(s.notifications)[n] else 0
    ensures |r.notifications| <= |s.notifications|
    ensures !Notifications.HasId(s.notifications, id) ==> r == s
  {
    s.(notifications := Notifications.Dismiss(s.notifications, id))
  }

  /** `markNotificationAsRead(id)`. */
  function MarkNotificationAsRead(s: State, id: string): (r: State)
    ensures r == s.(notifications := r.notifications)
    ensures |r.notifications| == |s.notifications|
    ensures forall i :: 0 <= i < |s.notifications| ==>
              r.notifications[i] == if s.notifications[i].id == id then s.notifications[i].(read := true)
                                    else s.notifications[i]
  {
    s.(notifications := Notifications.MarkRead(s.notifications, id))
  }

  /** `clearAllNotifications`. */
  function ClearAllNotifications(s: State): (r: State)
    ensures r == s.(notifications := [])
  {
    s.(notifications := [])
  }

  // ---------------------------------------------------------------- all actions together

  /** Every way the rest of the application changes the state. */
  datatype Action =
    | AddToastAction(message: string, severity: Severity)
    | RemoveToastAction(toastId: string)
    | SetThemeAction(theme: Theme)
    | SetLanguageAction(lang: Language)
    | SetBrandPreferencesAction(prefs: BrandPreferences)
    | SetUserProfileAction(profile: Option<UserProfile>)
    | AddSavedAction(influencer: Influencer)
    | RemoveSavedAction(id: string)
    | AddNotificationAction(message: string, notificationKind: Option<Severity>)
    | ClearNotificationAction(id: string)
    | MarkNotificationAsReadAction(id: string)
    | ClearAllNotificationsAction

  function Perform(s: State, a: Action, ms: nat): Step {
    match a
    case AddToastAction(message, kind) => AddToast(s, message, kind, ms)
    case RemoveToastAction(id) => Step(RemoveToast(s, id), [])
    case SetThemeAction(theme) => SetTheme(s, theme, ms)
    case SetLanguageAction(lang) => SetLanguage(s, lang, ms)
    case SetBrandPreferencesAction(prefs) => SetBrandPreferences(s, prefs, ms)
    case SetUserProfileAction(profile) => Step(SetUserProfile(s, profile), [])
    case AddSavedAction(inf) => AddSavedInfluencer(s, inf, ms)
    case RemoveSavedAction(id) => RemoveSavedInfluencer(s, id, ms)
    case AddNotificationAction(message, kind) => Step(AddNotification(s, message, kind, ms), [])
    case ClearNotificationAction(id) => Step(ClearNotification(s, id), [])
    case MarkNotificationAsReadAction(id) => Step(MarkNotificationAsRead(s, id), [])
    case ClearAllNotificationsAction => Step(ClearAllNotifications(s), [])
  }

  /** The invariant the state keeps: saved ids are unique and at most `Cap` notifications are kept. */
  predicate Valid(s: State) {
    Roster.UniqueIds(s.saved) && |s.notifications| <= Notifications.Cap
  }

  /** Every action keeps the invariant, and all but `removeToast` only append to the toasts. */
  lemma PerformKeepsValid(s: State, a: Action, ms: nat)
    requires Valid(s)
    ensures Valid(Perform(s, a, ms).state)
    ensures !a.RemoveToastAction? ==> Perform(s, a, ms).state.toasts == s.toasts + Perform(s, a, ms).emitted
  {
    PerformKeepsUniqueSaved(s, a, ms);
    PerformKeepsCap(s, a, ms);
    PerformAppendsToasts(s, a, ms);
  }

  lemma PerformKeepsUniqueSaved(s: State, a: Action, ms: nat)
    requires Roster.UniqueIds(s.saved)
    ensures Roster.UniqueIds(Perform(s, a, ms).state.saved)
  {
  }

  lemma PerformKeepsCap(s: State, a: Action, ms: nat)
    requires |s.notifications| <= Notifications.Cap
    ensures |Perform(s, a, ms).state.notifications| <= Notifications.Cap
  {
  }

  lemma PerformAppendsToasts(s: State, a: Action, ms: nat)
    ensures !a.RemoveToastAction? ==> Perform(s, a, ms).state.toasts == s.toasts + Perform(s, a, ms).emitted
  {
  }

  /** The actions applied in order, each at its own millisecond; the emitted toasts are collected. */
  function Run(s: State, actions: seq<(Action, nat)>): Step
    decreases |actions|
  {
    if |actions| == 0 then Step(s, [])
    else
      var prev := Run(s, actions[..|actions| - 1]);
      var last := Perform(prev.state, actions[|actions| - 1].0, actions[|actions| - 1].1);
      Step(last.state, prev.emitted + last.emitted)
  }

  /** From the start-up state, any run of actions keeps the invariant. */
  lemma {:induction false} RunKeepsValid(s: State, actions: seq<(Action, nat)>)
    requires Valid(s)
    ensures Valid(Run(s, actions).state)
    decreases |actions|
  {
    if |actions| > 0 {
      RunKeepsValid(s, actions[..|actions| - 1]);
      var prev := Run(s, actions[..|actions| - 1]);
      PerformKeepsValid(prev.state, actions[|actions| - 1].0, actions[|actions| - 1].1);
    }
  }

  lemma InitialIsValid(key: Option<string>, catalog: Catalog)
    ensures Valid(Initial(key, catalog))
  {
  }
}
