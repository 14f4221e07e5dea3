/** The records and enumerations the application passes around (types.ts).
    Optional properties (`bio?`, `isVerified?`, ...) are `Option`s; the
    floating-point helper properties (`numericFollowers`, `numericEngagementRate`,
    `growthRate`) are not part of this model. */
module Model {
  import opened Wrappers

  datatype Platform = Instagram | TikTok | YouTube | Twitter | Facebook

  /** The enum's string value, which is what the CSV export and the selects show. */
  function PlatformName(p: Platform): string {
    match p
    case Instagram => "Instagram"
    case TikTok => "TikTok"
    case YouTube => "YouTube"
    case Twitter => "Twitter"
    case Facebook => "Facebook"
  }

  /** Reads a platform back from its string value (the `value as SocialPlatform` cast of a select). */
  function PlatformFromName(s: string): (r: Option<Platform>)
    ensures r.Some? ==> PlatformName(r.value) == s
  {
    if s == "Instagram" then Some(Instagram)
    else if s == "TikTok" then Some(TikTok)
    else if s == "YouTube" then Some(YouTube)
    else if s == "Twitter" then Some(Twitter)
    else if s == "Facebook" then Some(Facebook)
    else None
  }

  /** Every platform reads back from its own name, so the names are pairwise distinct. */
  lemma PlatformNameRoundTrip(p: Platform)
    ensures PlatformFromName(PlatformName(p)) == Some(p)
  {
  }

  datatype Language = EN | HI | TA | FR | NL | ES

  /** The enum's string value: the locale code. */
  function LanguageCode(l: Language): string {
    match l
    case EN => "en"
    case HI => "hi"
    case TA => "ta"
    case FR => "fr"
    case NL => "nl"
    case ES => "es"
  }

  datatype Theme = Light | Dark

  /** The four severities shared by `Notification['type']` and `ToastMessage['type']`. */
  datatype Severity = Success | Error | Info | Warning

  /** One bar of a demographics chart: an age range, a gender or a location with its share. */
  datatype Share = Share(item: string, percentage: int)

  datatype AudienceDemographics = AudienceDemographics(
    ageRange: seq<Share>,
    genderSplit: seq<Share>,
    topLocations: seq<Share>)

  /** Engagement counts; the fractional `growthRate` is not modelled. */
  datatype EngagementMetrics = EngagementMetrics(likes: int, comments: int, shares: int)

  datatype ContentKind = Image | Video

  datatype ContentExample = ContentExample(kind: ContentKind, url: string, caption: Option<string>)

  datatype Influencer = Influencer(
    id: string,
    name: string,
    platform: Platform,
    followers: string,
    engagementRate: string,
    niche: string,
    profilePictureUrl: string,
    bio: Option<string>,
    isVerified: Option<bool>,
    samplePostIdea: Option<string>,
    audienceDemographics: Option<AudienceDemographics>,
    engagementMetrics: Option<EngagementMetrics>,
    contentExamples: Option<seq<ContentExample>>)

  /** An influencer record with only the required properties set. */
  function Basic(id: string, name: string, platform: Platform, followers: string,
                 engagementRate: string, niche: string, picture: string): Influencer
  {
    Influencer(id, name, platform, followers, engagementRate, niche, picture,
               None, None, None, None, None, None)
  }

  datatype BrandPreferences = BrandPreferences(
    brandName: string,
    targetAudienceKeywords: seq<string>,
    preferredCategories: seq<string>,
    preferredPlatforms: seq<Platform>)

  datatype UserProfile = UserProfile(
    brandName: string,
    targetAudience: string,
    defaultCategories: seq<string>,
    defaultPlatforms: seq<string>)

  datatype Notification = Notification(
    id: string,
    message: string,
    kind: Severity,
    timestamp: int,
    read: bool)

  datatype ToastMessage = ToastMessage(id: string, message: string, kind: Severity)

  datatype Sender = User | Ai

  datatype ChatMessage = ChatMessage(id: string, sender: Sender, text: string, timestamp: int)
}
