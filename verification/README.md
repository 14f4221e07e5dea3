# Influencer Marketing Identification — the application state and the page helpers

This project models the client-side logic of the influencer-marketing web application in Dafny.

The state container (`contexts/AppContext.tsx`) is modelled as a pure state machine. It holds:

- the theme and the language
- the brand preferences and the user profile
- the saved-influencer list, unique by id
- the notification list, newest first and capped at twenty
- the toast queue
- the API-key status

Every mutator takes the current state and returns the next state together with the toasts it emitted (`AppState.Step`). Translation lookups (`t`) read a catalogue of loaded dictionaries that is part of the state. The catalogue is an input, because loading it is network I/O.

The small pure helpers of the pages are modelled next to the container. Each page is a module:

- the compare list (`ComparePage`)
- checkbox selection and CSV text (`ReportsPage`)
- the profile form's multi-selects and keyword parsing (`ProfilePage`)
- the search filter and its AI fallback (`DiscoverPage`)
- the masked API key (`SettingsPage`)
- the speech-language decision and the chat guards (`HelpPage`)
- the unread badge and notification clicks (`Header`)
- record lookup, record merge, handle and top locations (`AnalyticsPage`)

A page handler returns its own new value and the toasts it asked for (`AppState.Outcome`).

Conventions of the model:

- **Time.** `Date.now()` is a parameter `ms`. Ids are its decimal digits (`Text.Stamp`).
- **AI and speech.** What the AI assistant or the speech recogniser answered is a parameter. `None` stands for a failed call.
- **Strings.** Strings are sequences of characters. `toLowerCase`, `trim`, `includes` and the regex class `\s` are taken in their ASCII meaning.
- **The `||` operator.** Where the source uses JavaScript's `||` on strings, an empty string counts as missing, exactly as at run time.

Modules, in dependency order:

| file | module | what it holds |
|---|---|---|
| wrappers.dfy | Wrappers | `Option` |
| seqs.dfy | Seqs | filter, take, toggle, reverse, sub-list order |
| text.dfy | Text | lower-casing, trim, split/join, literal replace, whitespace removal, digit stamps |
| model.dfy | Model | the records of `types.ts` |
| constants.dfy | Constants | `LANGUAGES`, `DEFAULT_LANGUAGE`, `AVAILABLE_PLATFORMS`, `AVAILABLE_CATEGORIES`, `MOCK_API_KEY_PLACEHOLDER` |
| i18n.dfy | I18n | `t` and the language-change message |
| roster.dfy | Roster | id lookup and uniqueness on influencer lists |
| saved_list.dfy | SavedList | the saved list's add and remove, and replaying edits |
| notifications.dfy | Notifications | the capped notification list |
| app_state.dfy | AppState | the container's state, its operations, and the action loop that keeps it valid |
| compare_page.dfy … analytics_page.dfy | one per page | the page helpers |

## Model

| member | source | states |
|---|---|---|
| Model.PlatformNameRoundTrip | types.ts:41-47 | every platform reads back from its string value, so the values are distinct |
| Constants.LanguagesTable | constants.ts:37-44 | six entries with pairwise distinct codes, and every language has one |
| Constants.FindLanguageExactly | constants.ts:37-44 | a code is found exactly when some language has it, and the entry found is that language's |
| Constants.AvailablePlatformsOnce | constants.ts:25-31 | every platform is offered, each exactly once |
| I18n.ResolutionOrder | contexts/AppContext.tsx:90-94 | `t` tries the active language's text, then English, then returns the raw key |
| I18n.DefaultLanguageHasNoFallback | contexts/AppContext.tsx:91-94 | the start language is the fallback language itself, so a text missing from its dictionary shows the raw key |
| I18n.EmptyTextIsMissing | contexts/AppContext.tsx:94 | an empty text resolves exactly as if the key were absent |
| I18n.ReplacementsWithoutMarkers | contexts/AppContext.tsx:96-100 | replacements whose `{{name}}` markers do not occur leave the text verbatim |
| I18n.DefaultIsNotFallback | contexts/AppContext.tsx:94-100 | a `{default: d}` replacement does not supply a text: a key missing everywhere comes back as the key |
| I18n.SingleReplacement | contexts/AppContext.tsx:97-99 | a replacement substitutes its first marker and every later one |
| I18n.TableNameIsSelfName | contexts/AppContext.tsx:173 | the `LANGUAGES` table always supplies a non-empty self-name, so the raw code is never shown |
| I18n.LanguageDisplayNameOrder | contexts/AppContext.tsx:172-173 | the name comes from `languageName.<code>` in the new language's dictionary (English's if it is not loaded), else from the table |
| I18n.LanguageChangedFillsFirstMarkerOnly | contexts/AppContext.tsx:177 | only the first `{{languageName}}` of the template is filled in |
| I18n.LanguageChangedWithoutDictionaries | contexts/AppContext.tsx:177 | with nothing loaded the message is the built-in English template with the self-name |
| Roster.FindById | contexts/AppContext.tsx:204 | `find` by id: found exactly when some record has the id, and then a record with that id from the list |
| Roster.FindByIdPrefers | pages/AnalyticsPage.tsx:50 | an earlier record with the id shadows any later one |
| Roster.WithoutId | contexts/AppContext.tsx:205 | filtering out an id removes exactly the records with it, keeps the order, and is the identity when the id is absent |
| SavedList.Add | contexts/AppContext.tsx:193-200 | a known id leaves the list unchanged; a new one is appended; ids stay unique |
| SavedList.Remove | contexts/AppContext.tsx:203-205 | the id is gone; every other record stays, in order and as often as before; ids stay unique |
| SavedList.LiveAfterSave | contexts/AppContext.tsx:193-200 | after a save an id is live iff it was live before or is the saved one |
| SavedList.LiveAfterUnsave | contexts/AppContext.tsx:203-205 | after a removal an id is live iff it was live before and is not the removed one |
| SavedList.ReplayFromEmpty | contexts/AppContext.tsx:193-209 | any sequence of saves and removals from an empty list gives unique ids, and an id is present iff its last edit was a save |
| Notifications.Push | contexts/AppContext.tsx:223 | the new entry goes first, the older ones follow in order, and at most twenty are kept |
| Notifications.PushAllKeepsNewest | contexts/AppContext.tsx:215-224 | after any number of additions the list is the twenty newest entries, newest first |
| Notifications.Dismiss | contexts/AppContext.tsx:226-228 | exactly the entries with the id are removed; the rest keep their order and multiplicity; an absent id changes nothing |
| Notifications.MarkRead | contexts/AppContext.tsx:230-232 | entries with the id become read; all others and the length are unchanged |
| Notifications.MarkReadNoOpAndIdempotent | contexts/AppContext.tsx:230-232 | marking an absent id changes nothing; marking twice is marking once |
| Header.UnreadCountCounts | components/Header.tsx:17 | the badge number counts the unread entries, is at most the list length, and is zero iff all are read |
| Header.BadgeShownIffUnread | components/Header.tsx:59 | the badge shows iff some entry is unread |
| Header.Click | components/Header.tsx:32-38 | clicking a read entry changes nothing; clicking an unread one marks the entries with its id as read |
| Header.DismissClicked | components/Header.tsx:83 | dismissing removes exactly the entries with the clicked id; the rest keep their order and multiplicity |
| Header.MarkReadLowersUnread | components/Header.tsx:32-35 | marking an id read lowers the unread count by exactly the number of unread entries with that id |
| Header.ClickUnreadUniqueLowersByOne | components/Header.tsx:32-35 | clicking an unread entry with a unique id lowers the badge by one |
| AppState.ApiKeyStatusMeaning | contexts/AppContext.tsx:58-64 | the status is ok iff a key is given, is not the placeholder, and has a non-whitespace character |
| AppState.Initial | contexts/AppContext.tsx:41-53 | the start state: English, nothing saved, no notifications or toasts, Instagram preferred, status from the key check |
| AppState.AddToast | contexts/AppContext.tsx:80-82 | one toast with the message, the kind and the clock's id is appended; nothing else changes |
| AppState.RemoveToast | contexts/AppContext.tsx:189-191 | exactly the toasts with the id are dropped; the rest keep their order and multiplicity; an unknown id changes nothing |
| AppState.SetTheme | contexts/AppContext.tsx:84-88 | the theme is stored and one info toast names the new theme |
| AppState.SetLanguage | contexts/AppContext.tsx:168-187 | the language is always stored; one info toast with the language-change message iff the language differs |
| AppState.SetBrandPreferences | contexts/AppContext.tsx:242-245 | the preferences are stored and one success toast `preferencesSaved` follows |
| AppState.SetUserProfile | contexts/AppContext.tsx:238-240 | only the profile changes |
| AppState.AddSavedInfluencer | contexts/AppContext.tsx:193-201 | a known id changes nothing and says nothing; a new record is appended with one success toast |
| AppState.RemoveSavedInfluencer | contexts/AppContext.tsx:203-209 | the id is removed and the other saved records keep their order; one info toast naming the removed record iff it was saved |
| AppState.IsInfluencerSavedAfterEdits | contexts/AppContext.tsx:193-213 | `isInfluencerSaved` follows the last add or remove of the id and ignores edits of other ids |
| AppState.ToggleSaved | pages/DiscoverPage.tsx:92-98 | the save button flips the id's saved state, leaves every other id alone, and emits one toast |
| AppState.AddNotification | contexts/AppContext.tsx:215-224 | an unread entry stamped with the clock, of the given kind or `info`, goes first; the list keeps at most twenty |
| AppState.ClearNotification | contexts/AppContext.tsx:226-228 | exactly the entries with the id are removed; the rest keep their order and multiplicity |
| AppState.MarkNotificationAsRead | contexts/AppContext.tsx:230-232 | exactly the entries with the id become read |
| AppState.ClearAllNotifications | contexts/AppContext.tsx:234-236 | the list is emptied and nothing else changes |
| AppState.PerformKeepsValid | contexts/AppContext.tsx:80-245 | every operation keeps saved ids unique and the notifications within the cap; all but `removeToast` only append toasts |
| AppState.RunKeepsValid | contexts/AppContext.tsx:80-245 | any sequence of operations keeps those invariants |
| AppState.InitialIsValid | contexts/AppContext.tsx:41-53 | the start state satisfies them |
| ComparePage.Upsert | pages/ComparePage.tsx:24 | `Map.set`: a known id keeps its position with the new record; a new id goes last |
| ComparePage.DedupeSpec | pages/ComparePage.tsx:22-26 | the pool has unique ids, the same ids as its input, the last record for each id, in first-appearance order |
| ComparePage.SavedRecordWins | pages/ComparePage.tsx:23-24 | a saved record replaces the built-in record with the same id in the pool |
| ComparePage.Candidates | pages/ComparePage.tsx:145-146 | the offered records are those in the pool whose id is not being compared, in pool order and as often as in the pool |
| ComparePage.AddToCompare | pages/ComparePage.tsx:28-34 | below four, a new id is appended silently and a known one ignored; at four, one warning and no change; the list stays unique and within four |
| ComparePage.RemoveFromCompare | pages/ComparePage.tsx:36-38 | exactly the records with the id are removed; the rest keep their order and multiplicity |
| ComparePage.ClicksKeepLimit | pages/ComparePage.tsx:28-38 | any sequence of add and remove clicks keeps at most four unique entries |
| ReportsPage.ToggleSelection | pages/ReportsPage.tsx:14-20 | the clicked id flips, every other id keeps its state, a new id goes last, no duplicates appear |
| ReportsPage.ToggleSelectionTwice | pages/ReportsPage.tsx:14-20 | clicking twice restores the selection |
| ReportsPage.ExportSelection | pages/ReportsPage.tsx:50 | exactly the saved records whose id is ticked, in saved order and as often as saved |
| ReportsPage.CsvRowColumns | pages/ReportsPage.tsx:28 | a row without commas in its fields reads back as its six fields |
| ReportsPage.CsvRowExtraColumns | pages/ReportsPage.tsx:28 | without quoting, each comma inside a field adds a column |
| ReportsPage.HeaderColumns | pages/ReportsPage.tsx:27 | the header line reads back as the six column names |
| ReportsPage.CsvBodyLines | pages/ReportsPage.tsx:27-29 | without newlines in fields, the text has the header line then one line per influencer |
| ReportsPage.GenerateCsv | pages/ReportsPage.tsx:22-38 | no data gives a warning and no file; otherwise the data-URI text and a success toast |
| ReportsPage.GeneratePdf | pages/ReportsPage.tsx:40-47 | one toast stamped with the clock: the `noDataToExport` warning for no data, otherwise the `pdfGenerationMock` info notice |
| ReportsPage.HandleExport | pages/ReportsPage.tsx:49-60 | an empty selection only warns; CSV text exists iff the format is CSV and something is selected |
| ProfilePage.InitialForm | pages/ProfilePage.tsx:16-22 | the form starts from the stored profile or an empty one, and the stored preferences |
| ProfilePage.MultiSelectFlipsOne | pages/ProfilePage.tsx:46-67 | clicking an option flips exactly that option in exactly that field |
| ProfilePage.HandleMultiSelectChange | pages/ProfilePage.tsx:46-67 | the named list is toggled and every other field is kept |
| ProfilePage.HandleProfileChange | pages/ProfilePage.tsx:33-35 | the named profile field takes the typed text |
| ProfilePage.ParseKeywords | pages/ProfilePage.tsx:40 | one keyword per comma plus one, each trimmed and comma-free |
| ProfilePage.EmptyInputIsOneKeyword | pages/ProfilePage.tsx:40 | an empty input gives one empty keyword |
| ProfilePage.KeywordsRoundTrip | pages/ProfilePage.tsx:37-44 | keywords shown joined by `", "` parse back to the same list when they are trimmed and comma-free |
| ProfilePage.HandleBrandPreferencesChange | pages/ProfilePage.tsx:37-44 | the keyword input is parsed; the brand name is stored as typed; the profile is untouched |
| ProfilePage.HandleSubmit | pages/ProfilePage.tsx:70-74 | the profile and the preferences are stored, with one success toast |
| DiscoverPage.MockFilter | pages/DiscoverPage.tsx:79-83 | exactly the sample records matching name, platform and category, in order |
| DiscoverPage.EmptyFiltersSelectAll | pages/DiscoverPage.tsx:79-83 | an empty form lets every sample through |
| DiscoverPage.TermCaseIgnored | pages/DiscoverPage.tsx:80 | terms that differ only in letter case select the same records |
| DiscoverPage.Prefill | pages/DiscoverPage.tsx:30-36 | the form is prefilled with the joined keywords and the first preferred platform and category, or none |
| DiscoverPage.SearchToasts | pages/DiscoverPage.tsx:45-87 | one toast when the AI was asked, a success or an error by its outcome; one warning when the AI was wanted but the key status is not ok; none otherwise |
| DiscoverPage.HandleSearch | pages/DiscoverPage.tsx:39-90 | an answered AI search shows the answer with one success toast, a failed one an error toast; every other search shows exactly the sample records matching the form, in sample order; wanting the AI without a usable key status warns once |
| DiscoverPage.FallbackIsPlainSearch | pages/DiscoverPage.tsx:69-84 | a failed AI search shows exactly what the plain search shows |
| DiscoverPage.ToggleSave | pages/DiscoverPage.tsx:92-98 | the card's save button flips the saved state |
| SettingsPage.ApiKeyDisplay | pages/SettingsPage.tsx:21-32 | empty unless the status is ok and the key is valid; first and last four characters around `...` above eight characters; eight stars otherwise |
| SettingsPage.DisplayLength | pages/SettingsPage.tsx:24-28 | the display is eleven characters, or eight for a short key |
| SettingsPage.DisplayHidesMiddle | pages/SettingsPage.tsx:24-28 | keys agreeing on the first and last four characters display alike; short keys all display alike |
| SettingsPage.ValidKeyIsShown | pages/SettingsPage.tsx:22 | under status ok the display is non-empty iff the key passes the start-up check |
| SettingsPage.HandleThemeChange | pages/SettingsPage.tsx:13-15 | the theme is switched with one toast |
| SettingsPage.HandleLanguageChange | pages/SettingsPage.tsx:17-19 | the language is switched with at most one toast |
| HelpPage.DetectedCode | pages/HelpPage.tsx:51 | the detected code is a dash-free prefix of the locale |
| HelpPage.DetectedCodeOf | pages/HelpPage.tsx:49-51 | `code-REGION` and a bare `code` both give `code` |
| HelpPage.HandleSpeechLanguageDetection | pages/HelpPage.tsx:80-90 | a supported other language is switched to; the current one changes nothing; an unsupported code warns, naming it |
| HelpPage.SpeechSelectsLanguage | pages/HelpPage.tsx:47-86 | a recogniser locale naming a supported language, with or without a region, leaves the application in that language |
| HelpPage.UnsupportedKeepsLanguage | pages/HelpPage.tsx:87-89 | an unsupported code keeps the language and emits one toast |
| HelpPage.AssistantText | pages/HelpPage.tsx:125-153 | the assistant's message is the disabled notice without a usable key, the answer when one arrived, and the apology when the call failed |
| HelpPage.ExchangeToasts | pages/HelpPage.tsx:125-152 | one error toast asking for the key without a usable one, none when an answer arrived, one error toast when the call failed |
| HelpPage.HandleSendMessage | pages/HelpPage.tsx:116-157 | blank input changes nothing; otherwise the user's message stamped `ms` and one assistant message stamped `ms + 1` are appended after the old ones, the input is cleared and loading reset |
| HelpPage.MissingKeyExchange | pages/HelpPage.tsx:119-131 | without a usable key the chat grows by the user's message and the disabled notice, with one error toast |
| HelpPage.BlankInputIgnored | pages/HelpPage.tsx:117 | whitespace-only input changes nothing and emits nothing |
| HelpPage.UnavailableIgnoresReply | pages/HelpPage.tsx:125-131 | without a usable key the assistant plays no part |
| HelpPage.ClearChat | pages/HelpPage.tsx:159-162 | the conversation is emptied with one info toast |
| AnalyticsPage.MockDetailsKeyed | pages/AnalyticsPage.tsx:9-36 | each built-in detail record sits under its own id |
| AnalyticsPage.Lookup | pages/AnalyticsPage.tsx:50 | nothing is found iff neither the saved list nor the built-in details own the id; what is found has that id |
| AnalyticsPage.LookupPrefersSaved | pages/AnalyticsPage.tsx:50 | a saved record wins over the built-in details |
| AnalyticsPage.Overlay | pages/AnalyticsPage.tsx:52 | every property the found record has wins; each of the six optional ones it lacks comes from the built-in details when they have it |
| AnalyticsPage.OverlayLaws | pages/AnalyticsPage.tsx:52 | overlaying a record on itself, or twice, changes nothing; a complete record shows as it is |
| AnalyticsPage.OverlayMissing | pages/AnalyticsPage.tsx:52 | each of the six optional properties is missing only when both records lack it |
| AnalyticsPage.LoadAnalytics | pages/AnalyticsPage.tsx:46-63 | a known id shows a record with that id and says nothing; an unknown id (other than an inherited object member name) keeps what was shown and emits one error toast `influencerNotFound`; no id keeps what was shown and says nothing |
| AnalyticsPage.LoadShows | pages/AnalyticsPage.tsx:49-53 | a saved record is shown completed by the built-in details; an id known only to the details shows them unchanged, whatever was shown before |
| AnalyticsPage.UnsaveKeepsStaleRecord | pages/AnalyticsPage.tsx:46-63 | after a record known only from the saved list is unsaved, the re-run lookup keeps showing it and emits one error toast |
| AnalyticsPage.ToggleSave | pages/AnalyticsPage.tsx:65-73 | with a record shown, its saved state flips and no other id's changes; without one, nothing happens |
| AnalyticsPage.Handle | pages/AnalyticsPage.tsx:139 | the handle has no whitespace and is no longer than the name |
| AnalyticsPage.HandleIdempotent | pages/AnalyticsPage.tsx:139 | a handle is its own handle |
| AnalyticsPage.HandleOfWord | pages/AnalyticsPage.tsx:139 | a one-word name's handle is the name lower-cased |
| AnalyticsPage.HandleJoinsWords | pages/AnalyticsPage.tsx:139 | whitespace inside a name only joins the handles of the parts |
| AnalyticsPage.TopLocations | pages/AnalyticsPage.tsx:189 | the first three locations, or all of them when there are three or fewer |
| AnalyticsPage.TopLocationsFirstThree | pages/AnalyticsPage.tsx:189 | with three or more locations the display is exactly the first three, and taking the top three again changes nothing |

## Left out

- Translation fetching (`contexts/AppContext.tsx:104-165`) is network I/O. The loaded dictionaries are an input, and the `translationsLoading` flag is not modelled.
- Persistence through `useLocalStorage` is not modelled. Each piece of state starts from its default, or from what storage would give.
- The DOM effects of the theme (`contexts/AppContext.tsx:67-78`) are not modelled. Neither are the timers (`setTimeout`), the loading spinners, scrolling and rendering.
- `setApiKeyStatus` is exposed by the container but only used at start-up. The status is computed once from the key in `AppState.Initial`.
- The AI calls, prompt texts, JSON parsing, code-fence stripping and random ids of AI results (`pages/DiscoverPage.tsx:45-77`, `pages/HelpPage.tsx:133-156`) are foreign services. Their outcome is a parameter and is taken verbatim.
- Speech recognition start/stop, its error toasts, and speech synthesis (`pages/HelpPage.tsx:38-78`, `92-114`, `164-174`) are browser APIs. Only the language decision on a recognised locale is modelled.
- The suggestion buttons of the help page (`pages/HelpPage.tsx:176-180`) only copy a translated text into the input. They are not modelled.
- Floating point is not modelled: follower and engagement parsing, the highlighting of the best values (`pages/ComparePage.tsx:40-49`, `91-104`), and `growthRate`.
- The CSV download is not modelled beyond the text: `encodeURI`, the link element and the file name (`pages/ReportsPage.tsx:30-36`).
- Text handling is ASCII-only. `toLowerCase`, `trim` and `\s` cover only ASCII letters and whitespace, and there is no Unicode case folding.
- Replacement markers are literal: replacement names and values are assumed free of regex and `$` metacharacters.
- A string cast to a platform by `value as SocialPlatform` keeps any string at run time. The model only toggles real platform values, so a string that names no platform leaves the platform list unchanged.
- A record property that is present but `undefined` counts as absent, both in the record merge and in the `{...spread}` updates.
- `Date.now()` is read once per handler. Where the source reads it several times, every reading is the same `ms`, plus one where the source adds one. Ids stamped in the same millisecond can therefore coincide, as they can at run time.
- HelpPage.SpeechSelectsLanguage: the locale is an input. The page sets the recogniser's language to the application language before every start (`pages/HelpPage.tsx:104`) and reads the same setting back as the detected locale (`pages/HelpPage.tsx:49`), so at run time the detected code is the current language and speech never switches it.
- AnalyticsPage.Lookup: ids naming members every JavaScript object inherits are not modelled. These are `constructor`, `toString`, `valueOf`, `hasOwnProperty`, `isPrototypeOf`, `propertyIsEnumerable`, `toLocaleString`, `__proto__` and the four `__define…__`/`__lookup…__` accessors. For such an id, `mockInfluencerDetails[id]` at `pages/AnalyticsPage.tsx:50` is truthy. The source then shows the empty record `{}` without a toast, and the page crashes at `influencer.name.toLowerCase()` (`pages/AnalyticsPage.tsx:139`). The model treats these ids like any unknown id: `LoadAnalytics` keeps the shown record and emits `influencerNotFound`. The built-in details are a map of their own two entries only.
- AnalyticsPage.LoadAnalytics: one call is one run of the lookup effect. The effect re-runs whenever the id, the saved list or `t` changes (`pages/AnalyticsPage.tsx:63`); the model leaves the sequencing of runs to the caller, as `UnsaveKeepsStaleRecord` does.
- DiscoverPage.HandleSearch: the loading flag and the clearing of the results before the answer arrives are not modelled. Only the final results are.
- HelpPage.HandleSendMessage: the intermediate states while the assistant is asked (input cleared, loading on) are not modelled. Only the state after the handler has finished is.
