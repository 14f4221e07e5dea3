/** The discovery page (pages/DiscoverPage.tsx): the search form prefilled from the brand
    preferences, and the search over the built-in sample records. The AI search itself is a
    foreign service: its outcome is an input here. */
module DiscoverPage {
  import opened Wrappers
  import opened Model
  import opened Text
  import Seqs
  import AppState

  /** The English fallback texts of the search toasts. */
  const AiLoadedDefault: string := "AI suggestions loaded!"
  const AiFailedDefault: string := "AI search failed. Using mock data."
  const KeyMissingForAiDefault: string := "API key is missing or invalid. AI search disabled. Using mock data."

  /** The page's built-in sample records. */
  const MockInfluencers: seq<Influencer> := [
    Basic("1", "Alice Wonderland", Instagram, "1.2M", "3.5%", "Lifestyle", "https://i.pravatar.cc/300?u=alice")
      .(isVerified := Some(true), samplePostIdea := Some("My top 5 sustainable living tips!")),
    Basic("2", "Bob The Builder", YouTube, "500K", "5.1%", "DIY & Crafts", "https://i.pravatar.cc/300?u=bob")
      .(samplePostIdea := Some("Building a birdhouse from recycled materials.")),
    Basic("3", "Charlie Chaplin", TikTok, "2.5M", "10.2%", "Comedy", "https://i.pravatar.cc/300?u=charlie")
      .(isVerified := Some(true)),
    Basic("4", "Diana Prince", Twitter, "800K", "2.1%", "Activism", "https://i.pravatar.cc/300?u=diana"),
    Basic("5", "Edward Scissorhands", Instagram, "950K", "4.0%", "Art & Design", "https://i.pravatar.cc/300?u=edward")
      .(samplePostIdea := Some("Creating intricate paper art."))
  ]

  /** The search form: free text, a platform or none (`''`), a category or `''`. */
  datatype Filters = Filters(term: string, platform: Option<Platform>, category: string)

  /** The search predicate: the name contains the term ignoring case, the platform is the chosen
      one if any, and the niche contains the category ignoring case if one is chosen. */
  predicate Matches(inf: Influencer, f: Filters) {
    && Contains(Lower(inf.name), Lower(f.term))
    && (f.platform.Some? ==> inf.platform == f.platform.value)
    && (f.category != "" ==> Contains(Lower(inf.niche), Lower(f.category)))
  }

  /** The sample records that match, in their order. */
  function MockFilter(f: Filters): (r: seq<Influencer>)
    ensures forall x :: x in r <==> x in MockInfluencers && Matches(x, f)
    ensures Seqs.Sublist(r, MockInfluencers)
  {
    Seqs.Filter(MockInfluencers, MatchesFor(f))
  }

  function MatchesFor(f: Filters): Influencer -> bool {
    (x: Influencer) => Matches(x, f)
  }

  /** An empty form lets every sample through. */
  lemma EmptyFiltersSelectAll()
    ensures MockFilter(Filters("", None, "")) == MockInfluencers
  {
    var f := Filters("", None, "");
    forall i | 0 <= i < |MockInfluencers|
      ensures Matches(MockInfluencers[i], f)
    {
      ContainsEmpty(Lower(MockInfluencers[i].name));
    }
    Seqs.FilterKeepsAll(MockInfluencers, MatchesFor(f));
  }

  /** Upper- and lower-case letters in the term select the same records. */
  lemma TermCaseIgnored(f: Filters, term: string)
    requires Lower(term) == Lower(f.term)
    ensures MockFilter(f.(term := term)) == MockFilter(f)
  {
    var a := MatchesFor(f.(term := term));
    var b := MatchesFor(f);
    forall x
      ensures a(x) == b(x)
    {
      assert Matches(x, f.(term := term)) == Matches(x, f);
    }
    SameFilter(MockInfluencers, a, b);
  }

  lemma {:induction false} SameFilter(xs: seq<Influencer>, a: Influencer -> bool, b: Influencer -> bool)
    requires forall x :: a(x) == b(x)
    ensures Seqs.Filter(xs, a) == Seqs.Filter(xs, b)
    decreases |xs|
  {
    if |xs| > 0 {
      SameFilter(xs[1..], a, b);
    }
  }

  /** The form as the preferences prefill it: keywords joined by a comma and a space, the first
      preferred platform or none, the first preferred category or `''`. */
  function Prefill(prefs: BrandPreferences): (f: Filters)
    ensures f.term == Join(prefs.targetAudienceKeywords, ", ")
    ensures |prefs.preferredPlatforms| == 0 <==> f.platform.None?
    ensures f.platform.Some? ==> f.platform.value == prefs.preferredPlatforms[0]
    ensures |prefs.preferredCategories| > 0 ==> f.category == prefs.preferredCategories[0]
    ensures |prefs.preferredCategories| == 0 ==> f.category == ""
  {
    Filters(Join(prefs.targetAudienceKeywords, ", "),
            if |prefs.preferredPlatforms| > 0 then Some(prefs.preferredPlatforms[0]) else None,
            if |prefs.preferredCategories| > 0 then prefs.preferredCategories[0] else "")
  }

  /** The AI is asked only when it is switched on, the key status is ok and a key is configured. */
  predicate AiAsked(ctx: AppState.State, useAI: bool, apiKey: Option<string>) {
    useAI && ctx.apiKeyStatus == AppState.Ok && apiKey.Some? && apiKey.value != ""
  }

  /** The toasts of a search: success or failure of the AI when it was asked, a warning when it
      was wanted but the key status is not ok, and nothing otherwise. */
  function SearchToasts(ctx: AppState.State, useAI: bool, apiKey: Option<string>, aiResult: Option<seq<Influencer>>,
                        ms: nat): (r: seq<ToastMessage>)
    ensures AiAsked(ctx, useAI, apiKey) ==> |r| == 1 && r[0].kind == (if aiResult.Some? then Success else Error)
    ensures useAI && ctx.apiKeyStatus != AppState.Ok ==> |r| == 1 && r[0].kind == Warning
    ensures !useAI ==> r == []
    ensures useAI && ctx.apiKeyStatus == AppState.Ok && !AiAsked(ctx, useAI, apiKey) ==> r == []
  {
    if AiAsked(ctx, useAI, apiKey) then
      if aiResult.Some? then
        [AppState.NewToast(AppState.T(ctx, "aiSuggestionsLoaded", [("default", AiLoadedDefault)]), Success, ms)]
      else
        [AppState.NewToast(AppState.T(ctx, "aiSearchFailed", [("default", AiFailedDefault)]), Error, ms)]
    else if useAI && ctx.apiKeyStatus != AppState.Ok then
      [AppState.NewToast(AppState.T(ctx, "apiKeyMissingAI", [("default", KeyMissingForAiDefault)]), Warning, ms)]
    else []
  }

  /** `handleSearch`: the AI's answer when it was asked and answered (`aiResult` is `None` when
      the call or the parsing failed), and the sample records that match the form otherwise. */
  function HandleSearch(ctx: AppState.State, f: Filters, useAI: bool, apiKey: Option<string>,
                        aiResult: Option<seq<Influencer>>, ms: nat): (r: AppState.Outcome<seq<Influencer>>)
    ensures AiAsked(ctx, useAI, apiKey) && aiResult.Some? ==>
              r.value == aiResult.value && |r.emitted| == 1 && r.emitted[0].kind == Success
    ensures AiAsked(ctx, useAI, apiKey) && aiResult.None? ==> |r.emitted| == 1 && r.emitted[0].kind == Error
    ensures !(AiAsked(ctx, useAI, apiKey) && aiResult.Some?) ==>
              && (forall x :: x in r.value <==> x in MockInfluencers && Matches(x, f))
              && Seqs.Sublist(r.value, MockInfluencers)
              && r.value == MockFilter(f)
    ensures !AiAsked(ctx, useAI, apiKey) && useAI && ctx.apiKeyStatus != AppState.Ok ==>
              |r.emitted| == 1 && r.emitted[0].kind == Warning
    ensures !AiAsked(ctx, useAI, apiKey) && !(useAI && ctx.apiKeyStatus != AppState.Ok) ==> r.emitted == []
  {
    var shown := if AiAsked(ctx, useAI, apiKey) && aiResult.Some? then aiResult.value else MockFilter(f);
    AppState.Outcome(shown, SearchToasts(ctx, useAI, apiKey, aiResult, ms))
  }

  /** When the AI fails the page shows exactly what the search without AI shows. */
  lemma FallbackIsPlainSearch(ctx: AppState.State, f: Filters, apiKey: Option<string>,
                              other: Option<seq<Influencer>>, ms: nat)
    ensures HandleSearch(ctx, f, true, apiKey, None, ms).value == HandleSearch(ctx, f, false, apiKey, other, ms).value
    ensures forall x :: x in HandleSearch(ctx, f, true, apiKey, None, ms).value <==> x in MockInfluencers && Matches(x, f)
  {
  }

  /** `toggleSaveInfluencer` on a result card. */
  function ToggleSave(s: AppState.State, inf: Influencer, ms: nat): (r: AppState.Step)
    ensures AppState.IsInfluencerSaved(r.state, inf.id) <==> !AppState.IsInfluencerSaved(s, inf.id)
    ensures r.state.toasts == s.toasts + r.emitted
  {
    AppState.ToggleSaved(s, inf, ms)
  }
}
