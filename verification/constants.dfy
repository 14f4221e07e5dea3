/** The application-wide constants of constants.ts that the modelled logic reads. */
module Constants {
  import opened Wrappers
  import opened Model
  import Seqs

  datatype LanguageEntry = LanguageEntry(code: Language, name: string)

  /** The languages offered in the settings select, each with its self-name. */
  const Languages: seq<LanguageEntry> := [
    LanguageEntry(EN, "English"),
    LanguageEntry(HI, "हिन्दी"),
    LanguageEntry(TA, "தமிழ்"),
    LanguageEntry(FR, "Français"),
    LanguageEntry(NL, "Nederlands"),
    LanguageEntry(ES, "Español")
  ]

  const DefaultLanguage: Language := EN

  const AvailablePlatforms: seq<Platform> := [Instagram, TikTok, YouTube, Twitter, Facebook]

  const AvailableCategories: seq<string> := [
    "Beauty", "Fashion", "Tech", "Gaming", "Travel", "Food", "Fitness", "Lifestyle", "Education", "Finance"
  ]

  const MockApiKeyPlaceholder: string := "YOUR_GEMINI_API_KEY"

  /** `entries.find(l => l.code === code)`, comparing the locale code as a string. */
  function FindEntry(entries: seq<LanguageEntry>, code: string): (r: Option<LanguageEntry>)
    ensures r.Some? ==> r.value in entries && LanguageCode(r.value.code) == code
    ensures r.None? ==> forall i :: 0 <= i < |entries| ==> LanguageCode(entries[i].code) != code
    decreases |entries|
  {
    if |entries| == 0 then None
    else if LanguageCode(entries[0].code) == code then Some(entries[0])
    else FindEntry(entries[1..], code)
  }

  /** `LANGUAGES.find(l => l.code === code)`. */
  function FindLanguage(code: string): Option<LanguageEntry> {
    FindEntry(Languages, code)
  }

  /** The table has six entries with distinct codes, and every language has one. */
  lemma LanguagesTable()
    ensures |Languages| == 6
    ensures forall i, j :: 0 <= i < j < |Languages| ==> Languages[i].code != Languages[j].code
    ensures forall l: Language :: FindLanguage(LanguageCode(l)).Some?
  {
    forall l: Language
      ensures FindLanguage(LanguageCode(l)).Some?
    {
      match l
      case EN => assert LanguageCode(Languages[0].code) == LanguageCode(l);
      case HI => assert LanguageCode(Languages[1].code) == LanguageCode(l);
      case TA => assert LanguageCode(Languages[2].code) == LanguageCode(l);
      case FR => assert LanguageCode(Languages[3].code) == LanguageCode(l);
      case NL => assert LanguageCode(Languages[4].code) == LanguageCode(l);
      case ES => assert LanguageCode(Languages[5].code) == LanguageCode(l);
    }
  }

  /** A code is found exactly when it is the code of some language, and then the entry is that language's. */
  lemma FindLanguageExactly(code: string)
    ensures FindLanguage(code).Some? <==> exists l: Language :: LanguageCode(l) == code
    ensures forall l: Language :: LanguageCode(l) == code ==> FindLanguage(code).Some? && FindLanguage(code).value.code == l
  {
    LanguagesTable();
    forall l: Language | LanguageCode(l) == code
      ensures FindLanguage(code).Some? && FindLanguage(code).value.code == l
    {
      var e := FindLanguage(code);
      assert e.Some?;
      LanguageCodeInjective(e.value.code, l);
    }
  }

  /** Every entry of the table carries a self-name. */
  lemma LanguageNamesPresent()
    ensures forall i :: 0 <= i < |Languages| ==> Languages[i].name != ""
  {
    forall i | 0 <= i < |Languages|
      ensures Languages[i].name != ""
    {
      assert |Languages[i].name| > 0;
    }
  }

  lemma LanguageCodeInjective(a: Language, b: Language)
    requires LanguageCode(a) == LanguageCode(b)
    ensures a == b
  {
  }

  /** Each platform appears exactly once in the platform list. */
  lemma AvailablePlatformsOnce()
    ensures Seqs.NoDuplicates(AvailablePlatforms)
    ensures forall p: Platform :: p in AvailablePlatforms
  {
    forall p: Platform
      ensures p in AvailablePlatforms
    {
      match p
      case Instagram => assert AvailablePlatforms[0] == p;
      case TikTok => assert AvailablePlatforms[1] == p;
      case YouTube => assert AvailablePlatforms[2] == p;
      case Twitter => assert AvailablePlatforms[3] == p;
      case Facebook => assert AvailablePlatforms[4] == p;
    }
  }
}
