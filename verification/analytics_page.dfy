/** The analytics page (pages/AnalyticsPage.tsx): which record the page shows for an id, how the
    stored record and the page's built-in details combine, the save button, and two derived
    display values. */
module AnalyticsPage {
  import opened Wrappers
  import opened Model
  import opened Text
  import Seqs
  import Roster
  import AppState

  /** The English fallback text of the not-found toast. */
  const NotFoundDefault: string := "Influencer not found."

  const AliceDetails: Influencer :=
    Influencer("1", "Alice Wonderland", Instagram, "1.2M", "3.5%", "Lifestyle", "https://i.pravatar.cc/300?u=alice",
      Some("Exploring the world one adventure at a time. Lover of tea, books, and sustainable fashion. Join my journey! ✨"),
      Some(true),
      None,
      Some(AudienceDemographics(
        [Share("18-24", 40), Share("25-34", 35), Share("35-44", 15)],
        [Share("Female", 70), Share("Male", 25), Share("Other", 5)],
        [Share("New York, USA", 20), Share("London, UK", 15), Share("Paris, FR", 10)])),
      Some(EngagementMetrics(12000, 350, 150)),
      Some([ContentExample(Image, "https://picsum.photos/seed/alice_post1/400/300", Some("Beautiful sunset views! #travel")),
            ContentExample(Video, "https://dummy-video-url.com/alice_video.mp4", Some("My morning routine #lifestyle"))]))

  const BobDetails: Influencer :=
    Influencer("2", "Bob The Builder", YouTube, "500K", "5.1%", "DIY & Crafts", "https://i.pravatar.cc/300?u=bob",
      Some("Can we fix it? Yes we can! Tutorials, tips, and tricks for all your DIY projects. Subscribe for weekly builds!"),
      None,
      None,
      Some(AudienceDemographics(
        [Share("25-34", 45), Share("35-44", 30), Share("45-54", 15)],
        [Share("Male", 65), Share("Female", 30), Share("Other", 5)],
        [Share("California, USA", 25), Share("Texas, USA", 18), Share("Ontario, CA", 12)])),
      Some(EngagementMetrics(8000, 500, 250)),
      None)

  /** The page's built-in detail records, keyed by id. Only the object's own entries are keys here:
      the names every JavaScript object inherits are not. */
  const MockDetails: map<string, Influencer> := map["1" := AliceDetails, "2" := BobDetails]

  /** Every built-in record sits under its own id. */
  lemma MockDetailsKeyed()
    ensures forall id :: id in MockDetails ==> MockDetails[id].id == id
  {
  }

  function MockFor(id: string): Option<Influencer> {
    if id in MockDetails then Some(MockDetails[id]) else None
  }

  /** `savedInfluencers.find(inf => inf.id === id) || mockInfluencerDetails[id]`. */
  function Lookup(saved: seq<Influencer>, id: string): (r: Option<Influencer>)
    ensures r.None? <==> !Roster.HasId(saved, id) && id !in MockDetails
    ensures r.Some? ==> r.value.id == id
  {
    MockDetailsKeyed();
    match Roster.FindById(saved, id)
    case Some(found) => Some(found)
    case None => MockFor(id)
  }

  /** A saved record is found ahead of the built-in one with the same id, and the built-in one
      only stands in when nothing is saved under the id. */
  lemma LookupPrefersSaved(saved: seq<Influencer>, id: string)
    ensures Roster.HasId(saved, id) ==> Lookup(saved, id) == Roster.FindById(saved, id)
    ensures Roster.HasId(saved, id) ==> Lookup(saved, id).value in saved
    ensures !Roster.HasId(saved, id) && id in MockDetails ==> Lookup(saved, id) == Some(MockDetails[id])
  {
  }

  /** `{ ...base, ...found }`: the required properties are `found`'s, and each optional one is
      `found`'s where it has it and `base`'s otherwise. */
  function Overlay(base: Option<Influencer>, found: Influencer): (r: Influencer)
    ensures r.id == found.id && r.name == found.name && r.platform == found.platform
    ensures r.followers == found.followers && r.engagementRate == found.engagementRate
    ensures r.niche == found.niche && r.profilePictureUrl == found.profilePictureUrl
    ensures found.bio.Some? ==> r.bio == found.bio
    ensures found.isVerified.Some? ==> r.isVerified == found.isVerified
    ensures found.samplePostIdea.Some? ==> r.samplePostIdea == found.samplePostIdea
    ensures found.audienceDemographics.Some? ==> r.audienceDemographics == found.audienceDemographics
    ensures found.engagementMetrics.Some? ==> r.engagementMetrics == found.engagementMetrics
    ensures found.contentExamples.Some? ==> r.contentExamples == found.contentExamples
    ensures base.Some? && found.bio.None? ==> r.bio == base.value.bio
    ensures base.Some? && found.isVerified.None? ==> r.isVerified == base.value.isVerified
    ensures base.Some? && found.samplePostIdea.None? ==> r.samplePostIdea == base.value.samplePostIdea
    ensures base.Some? && found.audienceDemographics.None? ==> r.audienceDemographics == base.value.audienceDemographics
    ensures base.Some? && found.engagementMetrics.None? ==> r.engagementMetrics == base.value.engagementMetrics
    ensures base.Some? && found.contentExamples.None? ==> r.contentExamples == base.value.contentExamples
    ensures base.None? ==> r == found
  {
    match base
    case None => found
    case Some(b) =>
      found.(bio := Either(found.bio, b.bio),
             isVerified := Either(found.isVerified, b.isVerified),
             samplePostIdea := Either(found.samplePostIdea, b.samplePostIdea),
             audienceDemographics := Either(found.audienceDemographics, b.audienceDemographics),
             engagementMetrics := Either(found.engagementMetrics, b.engagementMetrics),
             contentExamples := Either(found.contentExamples, b.contentExamples))
  }

  /** The first option if it is present, else the second. */
  function Either<T>(a: Option<T>, b: Option<T>): (r: Option<T>)
    ensures a.Some? ==> r == a
    ensures a.None? ==> r == b
  {
    if a.Some? then a else b
  }

  /** A record overlaid on itself is itself, and overlaying twice adds nothing. A record that has
      every optional property is shown exactly as it is. */
  lemma OverlayLaws(b: Influencer, found: Influencer)
    ensures Overlay(Some(b), b) == b
    ensures Overlay(Some(b), Overlay(Some(b), found)) == Overlay(Some(b), found)
    ensures found.bio.Some? && found.isVerified.Some? && found.samplePostIdea.Some? &&
            found.audienceDemographics.Some? && found.engagementMetrics.Some? && found.contentExamples.Some? ==>
              Overlay(Some(b), found) == found
  {
  }

  /** An optional property is missing from the shown record only when both records lack it. */
  lemma OverlayMissing(b: Influencer, found: Influencer)
    ensures Overlay(Some(b), found).bio.None? <==> found.bio.None? && b.bio.None?
    ensures Overlay(Some(b), found).audienceDemographics.None? <==>
              found.audienceDemographics.None? && b.audienceDemographics.None?
    ensures Overlay(Some(b), found).engagementMetrics.None? <==>
              found.engagementMetrics.None? && b.engagementMetrics.None?
    ensures Overlay(Some(b), found).isVerified.None? <==> found.isVerified.None? && b.isVerified.None?
    ensures Overlay(Some(b), found).samplePostIdea.None? <==> found.samplePostIdea.None? && b.samplePostIdea.None?
    ensures Overlay(Some(b), found).contentExamples.None? <==>
              found.contentExamples.None? && b.contentExamples.None?
  {
  }

  /** One run of the loading effect for the route parameter `id` (absent or empty means none),
      given the record the page shows so far (`None` on a fresh page). A known id shows the
      looked-up record on the built-in details of its id. An unknown id emits an error toast and,
      like a missing id, leaves the shown record as it was. The effect runs again whenever the
      saved list changes, so each run is one call. */
  function LoadAnalytics(s: AppState.State, id: Option<string>, shown: Option<Influencer>, ms: nat)
    : (r: AppState.Outcome<Option<Influencer>>)
    ensures id.None? || id.value == "" ==> r == AppState.Outcome(shown, [])
    ensures id.Some? && id.value != "" && (Roster.HasId(s.saved, id.value) || id.value in MockDetails) ==>
              r.value.Some? && r.value.value.id == id.value && r.emitted == []
    ensures id.Some? && id.value != "" && !Roster.HasId(s.saved, id.value) && id.value !in MockDetails ==>
              r.value == shown && |r.emitted| == 1 && r.emitted[0].kind == Error &&
              r.emitted[0].message == AppState.T(s, "influencerNotFound", [("default", NotFoundDefault)])
  {
    if id.None? || id.value == "" then AppState.Outcome(shown, [])
    else
      match Lookup(s.saved, id.value)
      case Some(found) => AppState.Outcome(Some(Overlay(MockFor(found.id), found)), [])
      case None => AppState.Outcome(shown, NotFoundToasts(s, ms))
  }

  /** The error toast of an unknown id. */
  function NotFoundToasts(s: AppState.State, ms: nat): (r: seq<ToastMessage>)
    ensures |r| == 1 && r[0].kind == Error
    ensures r[0].message == AppState.T(s, "influencerNotFound", [("default", NotFoundDefault)])
  {
    [AppState.NewToast(AppState.T(s, "influencerNotFound", [("default", NotFoundDefault)]), Error, ms)]
  }

  /** A saved record is shown with its own properties, completed by the built-in details of its id;
      an id known only to the built-in details shows exactly those. */
  lemma LoadShows(s: AppState.State, id: string, shown: Option<Influencer>, ms: nat)
    requires id != ""
    ensures Roster.HasId(s.saved, id) ==>
              LoadAnalytics(s, Some(id), shown, ms).value == Some(Overlay(MockFor(id), Roster.FindById(s.saved, id).value))
    ensures !Roster.HasId(s.saved, id) && id in MockDetails ==>
              LoadAnalytics(s, Some(id), shown, ms).value == Some(MockDetails[id])
  {
    if !Roster.HasId(s.saved, id) && id in MockDetails {
      OverlayLaws(MockDetails[id], MockDetails[id]);
    }
  }

  /** Unsaving, on its own page, a record that has no built-in details re-runs the effect: the
      record stays on screen and an error toast says it was not found. */
  lemma UnsaveKeepsStaleRecord(s: AppState.State, inf: Influencer, ms: nat, later: nat)
    requires inf.id != "" && inf.id !in MockDetails && Roster.HasId(s.saved, inf.id)
    ensures var after := AppState.RemoveSavedInfluencer(s, inf.id, ms).state;
            && LoadAnalytics(after, Some(inf.id), Some(inf), later).value == Some(inf)
            && |LoadAnalytics(after, Some(inf.id), Some(inf), later).emitted| == 1
            && LoadAnalytics(after, Some(inf.id), Some(inf), later).emitted[0].kind == Error
  {
  }

  /** `toggleSaveInfluencer`: nothing without a shown record, otherwise the save state of the shown
      record flips. */
  function ToggleSave(s: AppState.State, shown: Option<Influencer>, ms: nat): (r: AppState.Step)
    ensures shown.None? ==> r == AppState.Step(s, [])
    ensures shown.Some? ==>
              (AppState.IsInfluencerSaved(r.state, shown.value.id) <==> !AppState.IsInfluencerSaved(s, shown.value.id))
    ensures shown.Some? ==>
              forall id :: id != shown.value.id ==> (AppState.IsInfluencerSaved(r.state, id) <==> AppState.IsInfluencerSaved(s, id))
    ensures r.state.toasts == s.toasts + r.emitted
  {
    match shown
    case None => AppState.Step(s, [])
    case Some(inf) => AppState.ToggleSaved(s, inf, ms)
  }

  /** The `@handle` under the name: lower-cased with all whitespace removed. */
  function Handle(name: string): (r: string)
    ensures |r| <= |name|
    ensures forall k :: 0 <= k < |r| ==> !IsSpace(r[k])
  {
    DropSpaces(Lower(name))
  }

  /** A handle is its own handle. */
  lemma HandleIdempotent(name: string)
    ensures Handle(Handle(name)) == Handle(name)
  {
    var h := Handle(name);
    forall k | 0 <= k < |h|
      ensures LowerChar(h[k]) == h[k]
    {
      var j :| 0 <= j < |Lower(name)| && Lower(name)[j] == h[k];
    }
    assert Lower(h) == h;
    DropSpacesNone(h);
  }

  /** A one-word name's handle is the name lower-cased. */
  lemma HandleOfWord(name: string)
    requires forall k :: 0 <= k < |name| ==> !IsSpace(name[k])
    ensures Handle(name) == Lower(name)
  {
    DropSpacesNone(Lower(name));
  }

  /** Whitespace between two parts of a name only joins their handles. */
  lemma HandleJoinsWords(a: string, w: char, b: string)
    requires IsSpace(w)
    ensures Handle(a + [w] + b) == Handle(a) + Handle(b)
  {
    LowerAroundSpace(a, w, b);
    DropSpacesAround(Lower(a), w, Lower(b));
  }

  lemma LowerAroundSpace(a: string, w: char, b: string)
    requires IsSpace(w)
    ensures Lower(a + [w] + b) == Lower(a) + [w] + Lower(b)
  {
    LowerAppend(a + [w], b);
    LowerAppend(a, [w]);
  }

  lemma DropSpacesAround(a: string, w: char, b: string)
    requires IsSpace(w)
    ensures DropSpaces(a + [w] + b) == DropSpaces(a) + DropSpaces(b)
  {
    DropSpacesAppend(a + [w], b);
    DropSpacesAppend(a, [w]);
    assert DropSpaces([w]) == "" by {
      assert [w][1..] == "";
    }
    assert DropSpaces(a) + "" == DropSpaces(a);
  }

  /** The top-locations list shows at most the first three entries. */
  function TopLocations(d: AudienceDemographics): (r: seq<Share>)
    ensures |r| == if |d.topLocations| < 3 then |d.topLocations| else 3
    ensures r <= d.topLocations
    ensures |d.topLocations| <= 3 ==> r == d.topLocations
  {
    Seqs.Take(d.topLocations, 3)
  }

  /** With three or more locations exactly the first three are shown, and showing the shown list
      again changes nothing. */
  lemma TopLocationsFirstThree(d: AudienceDemographics)
    ensures |d.topLocations| >= 3 ==> TopLocations(d) == [d.topLocations[0], d.topLocations[1], d.topLocations[2]]
    ensures TopLocations(d.(topLocations := TopLocations(d))) == TopLocations(d)
  {
    var r := TopLocations(d);
    if |d.topLocations| >= 3 {
      assert r[0] == d.topLocations[0] && r[1] == d.topLocations[1] && r[2] == d.topLocations[2];
    }
  }
}
