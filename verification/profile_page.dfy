/** The profile page (pages/ProfilePage.tsx): a local copy of the user profile and the brand
    preferences, edited field by field and stored in the state container on submit. */
module ProfilePage {
  import opened Wrappers
  import opened Model
  import opened Text
  import Seqs
  import AppState

  /** The two records the page edits. */
  datatype Form = Form(profile: UserProfile, prefs: BrandPreferences)

  const EmptyProfile: UserProfile := UserProfile("", "", [], [])

  /** The form as the page opens it: the stored profile or an empty one, and the stored preferences. */
  function InitialForm(s: AppState.State): (f: Form)
    ensures s.userProfile.Some? ==> f.profile == s.userProfile.value
    ensures s.userProfile.None? ==> f.profile == EmptyProfile
    ensures f.prefs == s.brandPreferences
  {
    Form(s.userProfile.GetOr(EmptyProfile), s.brandPreferences)
  }

  // ---------------------------------------------------------------- multi-selects

  datatype MultiField = DefaultCategories | DefaultPlatforms | PreferredCategories | PreferredPlatforms

  /** `handleMultiSelectChange(field, value)`: the value is taken out of the named list when
      present and appended when absent; every other field keeps its value. A platform list
      only holds platforms, so a value naming none leaves it alone. */
  function HandleMultiSelectChange(f: Form, field: MultiField, value: string): (r: Form)
    ensures field == DefaultCategories ==>
              r == f.(profile := f.profile.(defaultCategories := Seqs.Toggle(f.profile.defaultCategories, value)))
    ensures field == DefaultPlatforms ==>
              r == f.(profile := f.profile.(defaultPlatforms := Seqs.Toggle(f.profile.defaultPlatforms, value)))
    ensures field == PreferredCategories ==>
              r == f.(prefs := f.prefs.(preferredCategories := Seqs.Toggle(f.prefs.preferredCategories, value)))
    ensures field == PreferredPlatforms && PlatformFromName(value).Some? ==>
              r == f.(prefs := f.prefs.(preferredPlatforms :=
                        Seqs.Toggle(f.prefs.preferredPlatforms, PlatformFromName(value).value)))
    ensures field == PreferredPlatforms && PlatformFromName(value).None? ==> r == f
  {
    match field
    case DefaultCategories =>
      f.(profile := f.profile.(defaultCategories := Seqs.Toggle(f.profile.defaultCategories, value)))
    case DefaultPlatforms =>
      f.(profile := f.profile.(defaultPlatforms := Seqs.Toggle(f.profile.defaultPlatforms, value)))
    case PreferredCategories =>
      f.(prefs := f.prefs.(preferredCategories := Seqs.Toggle(f.prefs.preferredCategories, value)))
    case PreferredPlatforms =>
      match PlatformFromName(value)
      case Some(p) => f.(prefs := f.prefs.(preferredPlatforms := Seqs.Toggle(f.prefs.preferredPlatforms, p)))
      case None => f
  }

  /** The values ticked in a multi-select field, as strings. */
  function Ticked(f: Form, field: MultiField): seq<string> {
    match field
    case DefaultCategories => f.profile.defaultCategories
    case DefaultPlatforms => f.profile.defaultPlatforms
    case PreferredCategories => f.prefs.preferredCategories
    case PreferredPlatforms => Names(f.prefs.preferredPlatforms)
  }

  /** The platforms' string values. */
  function Names(ps: seq<Platform>): (r: seq<string>)
    ensures |r| == |ps|
    ensures forall i :: 0 <= i < |ps| ==> r[i] == PlatformName(ps[i])
  {
    seq(|ps|, i requires 0 <= i < |ps| => PlatformName(ps[i]))
  }

  /** Clicking an option flips exactly that option in exactly that field. */
  lemma MultiSelectFlipsOne(f: Form, field: MultiField, value: string)
    requires field == PreferredPlatforms ==> PlatformFromName(value).Some?
    ensures value in Ticked(HandleMultiSelectChange(f, field, value), field) <==> value !in Ticked(f, field)
    ensures forall v :: v != value ==>
              (v in Ticked(HandleMultiSelectChange(f, field, value), field) <==> v in Ticked(f, field))
    ensures forall other :: other != field ==> Ticked(HandleMultiSelectChange(f, field, value), other) == Ticked(f, other)
  {
    OtherFieldsKept(f, field, value);
    if field == PreferredPlatforms {
      PlatformToggle(f.prefs.preferredPlatforms, PlatformFromName(value).value);
    }
  }

  /** A click in one multi-select field leaves the ticks of the other three as they were. */
  lemma OtherFieldsKept(f: Form, field: MultiField, value: string)
    ensures forall other :: other != field ==> Ticked(HandleMultiSelectChange(f, field, value), other) == Ticked(f, other)
  {
    var g := HandleMultiSelectChange(f, field, value);
    assert field != DefaultCategories ==> g.profile.defaultCategories == f.profile.defaultCategories;
    assert field != DefaultPlatforms ==> g.profile.defaultPlatforms == f.profile.defaultPlatforms;
    assert field != PreferredCategories ==> g.prefs.preferredCategories == f.prefs.preferredCategories;
    assert field != PreferredPlatforms ==> g.prefs.preferredPlatforms == f.prefs.preferredPlatforms;
  }

  /** Toggling a platform flips its name and no other in the list of names. */
  lemma PlatformToggle(ps: seq<Platform>, p: Platform)
    ensures PlatformName(p) in Names(Seqs.Toggle(ps, p)) <==> PlatformName(p) !in Names(ps)
    ensures forall v :: v != PlatformName(p) ==> (v in Names(Seqs.Toggle(ps, p)) <==> v in Names(ps))
  {
    var after := Seqs.Toggle(ps, p);
    PlatformNameRoundTrip(p);
    PlatformNamesIn(ps, PlatformName(p));
    PlatformNamesIn(after, PlatformName(p));
    forall v | v != PlatformName(p)
      ensures v in Names(after) <==> v in Names(ps)
    {
      PlatformNamesIn(ps, v);
      PlatformNamesIn(after, v);
    }
  }

  /** A name is listed exactly when the platform it names is. */
  lemma PlatformNamesIn(ps: seq<Platform>, v: string)
    ensures v in Names(ps) <==> PlatformFromName(v).Some? && PlatformFromName(v).value in ps
  {
    var names := Names(ps);
    if v in names {
      var i :| 0 <= i < |names| && names[i] == v;
      PlatformNameRoundTrip(ps[i]);
    }
    if PlatformFromName(v).Some? && PlatformFromName(v).value in ps {
      var i :| 0 <= i < |ps| && ps[i] == PlatformFromName(v).value;
      assert names[i] == v;
    }
  }

  // ---------------------------------------------------------------- text fields

  datatype ProfileField = ProfileBrandName | TargetAudience

  /** `handleProfileChange`: the named profile field takes the typed text. */
  function HandleProfileChange(f: Form, field: ProfileField, value: string): (r: Form)
    ensures r.prefs == f.prefs
    ensures field == ProfileBrandName ==> r.profile == f.profile.(brandName := value)
    ensures field == TargetAudience ==> r.profile == f.profile.(targetAudience := value)
  {
    match field
    case ProfileBrandName => f.(profile := f.profile.(brandName := value))
    case TargetAudience => f.(profile := f.profile.(targetAudience := value))
  }

  datatype PrefsField = PrefsBrandName | TargetAudienceKeywords

  /** `value.split(',').map(k => k.trim())`. */
  function ParseKeywords(value: string): (r: seq<string>)
    ensures |r| == Count(value, ',') + 1
    ensures forall i :: 0 <= i < |r| ==> Trimmed(r[i]) && ',' !in r[i]
  {
    var parts := Split(value, ',');
    seq(|parts|, i requires 0 <= i < |parts| => TrimNoComma(parts[i]))
  }

  function TrimNoComma(s: string): (r: string)
    requires ',' !in s
    ensures r == Trim(s) && ',' !in r
  {
    var r := TrimEnd(TrimStart(s));
    assert forall k :: 0 <= k < |r| ==> r[k] in s;
    Trim(s)
  }

  /** How the keywords are shown in the input: joined by a comma and a space. */
  function KeywordsDisplay(ks: seq<string>): string {
    Join(ks, ", ")
  }

  /** `handleBrandPreferencesChange`: the keyword input is parsed into the list; the brand name is stored as typed. */
  function HandleBrandPreferencesChange(f: Form, field: PrefsField, value: string): (r: Form)
    ensures r.profile == f.profile
    ensures field == PrefsBrandName ==> r.prefs == f.prefs.(brandName := value)
    ensures field == TargetAudienceKeywords ==> r.prefs == f.prefs.(targetAudienceKeywords := ParseKeywords(value))
  {
    match field
    case PrefsBrandName => f.(prefs := f.prefs.(brandName := value))
    case TargetAudienceKeywords => f.(prefs := f.prefs.(targetAudienceKeywords := ParseKeywords(value)))
  }

  /** An empty input parses to one empty keyword, not to no keywords. */
  lemma EmptyInputIsOneKeyword()
    ensures ParseKeywords("") == [""]
  {
  }

  function Spaced(xs: seq<string>): (r: seq<string>)
    ensures |r| == |xs|
    ensures forall i :: 0 <= i < |xs| ==> r[i] == " " + xs[i]
  {
    seq(|xs|, i requires 0 <= i < |xs| => " " + xs[i])
  }

  lemma {:induction false} JoinSpaced(xs: seq<string>)
    requires |xs| >= 1
    ensures Join(Spaced(xs), ",") == " " + Join(xs, ", ")
    decreases |xs|
  {
    if |xs| > 1 {
      JoinSpaced(xs[1..]);
      assert Spaced(xs)[1..] == Spaced(xs[1..]);
    }
  }

  /** The display splits on its commas into the first keyword and the others with a leading space. */
  lemma DisplayPieces(ks: seq<string>)
    requires |ks| >= 1
    requires forall i :: 0 <= i < |ks| ==> ',' !in ks[i]
    ensures Split(KeywordsDisplay(ks), ',') == [ks[0]] + Spaced(ks[1..])
  {
    var pieces := [ks[0]] + Spaced(ks[1..]);
    if |ks| > 1 {
      JoinSpaced(ks[1..]);
      assert pieces[1..] == Spaced(ks[1..]);
      assert Join(pieces, ",") == ks[0] + "," + (" " + Join(ks[1..], ", "));
    }
    assert Join(pieces, ",") == KeywordsDisplay(ks);
    forall i | 0 <= i < |pieces|
      ensures ',' !in pieces[i]
    {
      if i > 0 {
        assert pieces[i] == " " + ks[i];
      }
    }
    SplitJoin(pieces, ',');
  }

  /** The keywords shown in the input parse back to the same list, provided there is at least one
      and none holds a comma or surrounding whitespace. */
  lemma KeywordsRoundTrip(ks: seq<string>)
    requires |ks| >= 1
    requires forall i :: 0 <= i < |ks| ==> ',' !in ks[i] && Trimmed(ks[i])
    ensures ParseKeywords(KeywordsDisplay(ks)) == ks
  {
    DisplayPieces(ks);
    var pieces := Split(KeywordsDisplay(ks), ',');
    var r := ParseKeywords(KeywordsDisplay(ks));
    assert |r| == |pieces| == |ks|;
    forall i | 0 <= i < |ks|
      ensures r[i] == ks[i]
    {
      assert r[i] == Trim(pieces[i]);
      PieceTrimsBack(ks, i);
    }
  }

  /** Each piece of the displayed text trims back to its keyword: the first is the keyword itself,
      every later one is the keyword behind one space. */
  lemma PieceTrimsBack(ks: seq<string>, i: nat)
    requires |ks| >= 1 && i < |ks| && Trimmed(ks[i])
    ensures Trim(([ks[0]] + Spaced(ks[1..]))[i]) == ks[i]
  {
    var pieces := [ks[0]] + Spaced(ks[1..]);
    if i > 0 {
      assert pieces[i] == " " + ks[i];
      TrimSpacePrefix(" ", ks[i]);
    } else {
      assert pieces[0] == ks[0];
    }
  }

  // ---------------------------------------------------------------- submit

  /** `handleSubmit`: the profile is stored, then the preferences, which brings their success toast. */
  function HandleSubmit(s: AppState.State, f: Form, ms: nat): (r: AppState.Step)
    ensures r.state == s.(userProfile := Some(f.profile), brandPreferences := f.prefs, toasts := s.toasts + r.emitted)
    ensures |r.emitted| == 1 && r.emitted[0].kind == Success
  {
    AppState.SetBrandPreferences(AppState.SetUserProfile(s, Some(f.profile)), f.prefs, ms)
  }
}
