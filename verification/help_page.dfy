/** The help page (pages/HelpPage.tsx): the decision what a recognised speech language does to the
    application language, and the guards around sending a chat message. The recogniser and the
    AI assistant are foreign services; what they answered is an input here. */
module HelpPage {
  import opened Wrappers
  import opened Model
  import opened Text
  import Constants
  import AppState

  /** The base language of a recogniser locale: the part before the first `-`. */
  function DetectedCode(locale: string): (r: string)
    ensures '-' !in r
    ensures r <= locale
  {
    SplitFirstPiece(locale, '-');
    Split(locale, '-')[0]
  }

  /** A locale `code-REGION` gives `code`, and a bare code gives itself. */
  lemma DetectedCodeOf(code: string, region: string)
    requires '-' !in code
    ensures DetectedCode(code + "-" + region) == code
    ensures DetectedCode(code) == code
  {
    SplitAtFirst(code, region, '-');
    SplitNoSeparator(code, '-');
  }

  /** `handleSpeechLanguageDetection(code)`: a supported code other than the current language
      switches to it (the container announces the switch); the current language's code does
      nothing; any other code only warns, naming the code. */
  function HandleSpeechLanguageDetection(s: AppState.State, code: string, ms: nat): (r: AppState.Step)
    ensures Constants.FindLanguage(code).Some? ==>
              r.state == s.(language := Constants.FindLanguage(code).value.code, toasts := s.toasts + r.emitted)
    ensures Constants.FindLanguage(code).Some? ==>
              (|r.emitted| == 1 <==> Constants.FindLanguage(code).value.code != s.language)
    ensures Constants.FindLanguage(code).Some? && Constants.FindLanguage(code).value.code == s.language ==>
              r == AppState.Step(s, [])
    ensures Constants.FindLanguage(code).None? ==> AppState.OnlyToasts(s, r) && |r.emitted| == 1
    ensures Constants.FindLanguage(code).None? ==>
              r.emitted[0].kind == Warning &&
              r.emitted[0].message == AppState.T(s, "languageNotSupportedForSwitch", [("language", code)])
  {
    match Constants.FindLanguage(code)
    case Some(entry) =>
      if s.language != entry.code then AppState.SetLanguage(s, entry.code, ms)
      else AppState.Step(s, [])
    case None =>
      AppState.AddToast(s, AppState.T(s, "languageNotSupportedForSwitch", [("language", code)]), Warning, ms)
  }

  /** A recogniser locale naming a supported language, with or without a region, leaves the
      application in that language. The page configures the recogniser with the application
      language before every start, so in practice the locale it reports back is the current one;
      the locale is an input here. */
  lemma SpeechSelectsLanguage(s: AppState.State, l: Language, region: string, ms: nat)
    ensures HandleSpeechLanguageDetection(s, DetectedCode(LanguageCode(l) + "-" + region), ms).state.language == l
    ensures HandleSpeechLanguageDetection(s, DetectedCode(LanguageCode(l)), ms).state.language == l
  {
    assert '-' !in LanguageCode(l) by {
      match l
      case EN => case HI => case TA => case FR => case NL => case ES =>
    }
    DetectedCodeOf(LanguageCode(l), region);
    Constants.FindLanguageExactly(LanguageCode(l));
  }

  /** A code naming no supported language leaves the language as it was and warns once. */
  lemma UnsupportedKeepsLanguage(s: AppState.State, code: string, ms: nat)
    requires forall l: Language :: LanguageCode(l) != code
    ensures HandleSpeechLanguageDetection(s, code, ms).state.language == s.language
    ensures |HandleSpeechLanguageDetection(s, code, ms).emitted| == 1
  {
    Constants.FindLanguageExactly(code);
  }

  // ---------------------------------------------------------------- chat

  /** The chat as the page holds it: the conversation, the text being typed, the busy flag. */
  datatype Chat = Chat(messages: seq<ChatMessage>, input: string, loading: bool)

  /** The assistant is asked only when the key status is ok and a key is configured. */
  predicate AssistantAvailable(s: AppState.State, apiKey: Option<string>) {
    s.apiKeyStatus == AppState.Ok && apiKey.Some? && apiKey.value != ""
  }

  /** The English fallback texts of the chat's stock messages and toasts. */
  const ChatDisabledDefault: string := "AI chat is disabled. Please configure the API key."
  const KeyNeededDefault: string := "API Key is required for AI chat functionality."
  const ChatErrorDefault: string := "Error communicating with AI. Please try again."
  const ChatErrorResponseDefault: string := "Sorry, I couldn't process that request right now."
  const ChatClearedDefault: string := "Chat history cleared."

  /** The assistant's side of an exchange: the stock notice when it is not available, its answer,
      or the stock apology when it failed. */
  function AssistantText(s: AppState.State, apiKey: Option<string>, reply: Option<string>): (r: string)
    ensures !AssistantAvailable(s, apiKey) ==> r == AppState.T(s, "aiChatDisabledApiKey", [("default", ChatDisabledDefault)])
    ensures AssistantAvailable(s, apiKey) && reply.Some? ==> r == reply.value
    ensures AssistantAvailable(s, apiKey) && reply.None? ==>
              r == AppState.T(s, "aiChatErrorResponse", [("default", ChatErrorResponseDefault)])
  {
    if !AssistantAvailable(s, apiKey) then AppState.T(s, "aiChatDisabledApiKey", [("default", ChatDisabledDefault)])
    else if reply.Some? then reply.value
    else AppState.T(s, "aiChatErrorResponse", [("default", ChatErrorResponseDefault)])
  }

  /** The toasts of an exchange: an error when the key is missing or the assistant failed. */
  function ExchangeToasts(s: AppState.State, apiKey: Option<string>, reply: Option<string>, ms: nat): (r: seq<ToastMessage>)
    ensures !AssistantAvailable(s, apiKey) ==>
              |r| == 1 && r[0].kind == Error && r[0].message == AppState.T(s, "apiKeyNeededForAIChat", [("default", KeyNeededDefault)])
    ensures AssistantAvailable(s, apiKey) && reply.Some? ==> r == []
    ensures AssistantAvailable(s, apiKey) && reply.None? ==>
              |r| == 1 && r[0].kind == Error && r[0].message == AppState.T(s, "aiChatError", [("default", ChatErrorDefault)])
  {
    if !AssistantAvailable(s, apiKey) then
      [AppState.NewToast(AppState.T(s, "apiKeyNeededForAIChat", [("default", KeyNeededDefault)]), Error, ms)]
    else if reply.Some? then []
    else [AppState.NewToast(AppState.T(s, "aiChatError", [("default", ChatErrorDefault)]), Error, ms)]
  }

  /** `handleSendMessage`. Blank input is ignored. Otherwise the typed text is sent as the user's
      message, the input is cleared, and one assistant message follows: the assistant's answer
      `reply`, or a stock text when it failed (`None`) or is not available. The ids are the clock
      reading `ms` for the user's message and `ms + 1` for the assistant's. */
  function HandleSendMessage(s: AppState.State, c: Chat, apiKey: Option<string>, reply: Option<string>,
                             ms: nat): (r: AppState.Outcome<Chat>)
    ensures Trim(c.input) == "" ==> r == AppState.Outcome(c, [])
    ensures Trim(c.input) != "" ==>
              && |r.value.messages| == |c.messages| + 2
              && r.value.messages[..|c.messages|] == c.messages
              && r.value.messages[|c.messages|] == ChatMessage(Stamp(ms), User, c.input, ms)
              && r.value.messages[|c.messages| + 1] == ChatMessage(Stamp(ms + 1), Ai, AssistantText(s, apiKey, reply), ms)
              && r.value.input == ""
              && !r.value.loading
              && r.emitted == ExchangeToasts(s, apiKey, reply, ms)
  {
    if Trim(c.input) == "" then AppState.Outcome(c, [])
    else
      var user := ChatMessage(Stamp(ms), User, c.input, ms);
      var answer := ChatMessage(Stamp(ms + 1), Ai, AssistantText(s, apiKey, reply), ms);
      AppState.Outcome(Chat(c.messages + [user, answer], "", false), ExchangeToasts(s, apiKey, reply, ms))
  }

  /** Input of whitespace only, the empty input included, changes nothing and says nothing. */
  lemma BlankInputIgnored(s: AppState.State, c: Chat, apiKey: Option<string>, reply: Option<string>, ms: nat)
    requires forall k :: 0 <= k < |c.input| ==> IsSpace(c.input[k])
    ensures HandleSendMessage(s, c, apiKey, reply, ms) == AppState.Outcome(c, [])
  {
    TrimBlank(c.input);
  }

  /** Without a usable key the conversation grows by the user's message and the stock notice, and
      one error toast asks for the key. */
  lemma MissingKeyExchange(s: AppState.State, c: Chat, apiKey: Option<string>, reply: Option<string>, ms: nat)
    requires Trim(c.input) != "" && !AssistantAvailable(s, apiKey)
    ensures HandleSendMessage(s, c, apiKey, reply, ms).value ==
              Chat(c.messages + [ChatMessage(Stamp(ms), User, c.input, ms),
                                 ChatMessage(Stamp(ms + 1), Ai, AppState.T(s, "aiChatDisabledApiKey", [("default", ChatDisabledDefault)]), ms)],
                   "", false)
    ensures |HandleSendMessage(s, c, apiKey, reply, ms).emitted| == 1
    ensures HandleSendMessage(s, c, apiKey, reply, ms).emitted[0].kind == Error
  {
  }

  /** Without a usable key the assistant's answer plays no part. */
  lemma UnavailableIgnoresReply(s: AppState.State, c: Chat, apiKey: Option<string>, a: Option<string>,
                                b: Option<string>, ms: nat)
    requires !AssistantAvailable(s, apiKey)
    ensures HandleSendMessage(s, c, apiKey, a, ms) == HandleSendMessage(s, c, apiKey, b, ms)
  {
  }

  /** `clearChat`: the conversation is emptied and one info toast says so. */
  function ClearChat(s: AppState.State, c: Chat, ms: nat): (r: AppState.Outcome<Chat>)
    ensures r.value == c.(messages := [])
    ensures |r.emitted| == 1 && r.emitted[0].kind == Info
    ensures r.emitted[0].message == AppState.T(s, "chatCleared", [("default", ChatClearedDefault)])
  {
    AppState.Outcome(c.(messages := []),
                     [AppState.NewToast(AppState.T(s, "chatCleared", [("default", ChatClearedDefault)]), Info, ms)])
  }
}
