/**
 * The shared record and enumeration types (app/lib/supabase/types.ts) and
 * the two type guards that recognise a plan name and a platform name.
 */
module Types {
  import opened Wrappers

  /** A subscription plan. */
  datatype Plan = Free | Pro | Enterprise

  /** The platform a transcript was taken from. */
  datatype Platform = YouTube | Loom | Srt | General

  /** The four counters shown on the dashboard. */
  datatype UserStats = UserStats(
    totalTranscripts: int,
    totalCharacters: int,
    monthTranscripts: int,
    monthlyApiCalls: int)

  const ZeroStats := UserStats(0, 0, 0, 0)

  const PlanNames: seq<string> := ["free", "pro", "enterprise"]
  const PlatformNames: seq<string> := ["youtube", "loom", "srt", "general"]

  /** The name under which a plan is stored. */
  function PlanName(p: Plan): string {
    match p
    case Free => "free"
    case Pro => "pro"
    case Enterprise => "enterprise"
  }

  /** The name under which a platform is stored. */
  function PlatformName(p: Platform): string {
    match p
    case YouTube => "youtube"
    case Loom => "loom"
    case Srt => "srt"
    case General => "general"
  }

  /** `isValidPlan`: the name is one of the three plan names. */
  predicate IsValidPlan(name: string) {
    name in PlanNames
  }

  /** `isValidPlatform`: the name is one of the four platform names. */
  predicate IsValidPlatform(name: string) {
    name in PlatformNames
  }

  /** The plan a name stands for, when the guard accepts it. */
  function ParsePlan(name: string): (p: Option<Plan>)
    ensures p.Some? <==> IsValidPlan(name)
    ensures p.Some? ==> PlanName(p.value) == name
  {
    if name == "free" then Some(Free)
    else if name == "pro" then Some(Pro)
    else if name == "enterprise" then Some(Enterprise)
    else None
  }

  /** The platform a name stands for, when the guard accepts it. */
  function ParsePlatform(name: string): (p: Option<Platform>)
    ensures p.Some? <==> IsValidPlatform(name)
    ensures p.Some? ==> PlatformName(p.value) == name
  {
    if name == "youtube" then Some(YouTube)
    else if name == "loom" then Some(Loom)
    else if name == "srt" then Some(Srt)
    else if name == "general" then Some(General)
    else None
  }

  /** Every plan's name passes the guard and reads back as the same plan. */
  lemma PlanNameRoundTrip(p: Plan)
    ensures IsValidPlan(PlanName(p))
    ensures ParsePlan(PlanName(p)) == Some(p)
  {
  }

  /** Every platform's name passes the guard and reads back as the same platform. */
  lemma PlatformNameRoundTrip(p: Platform)
    ensures IsValidPlatform(PlatformName(p))
    ensures ParsePlatform(PlatformName(p)) == Some(p)
  {
  }

  /** The guards accept exactly the names of the enumerations. */
  lemma GuardsAcceptExactlyTheNames(name: string)
    ensures IsValidPlan(name) <==> exists p: Plan :: PlanName(p) == name
    ensures IsValidPlatform(name) <==> exists p: Platform :: PlatformName(p) == name
  {
    if IsValidPlan(name) {
      assert PlanName(ParsePlan(name).value) == name;
    }
    if IsValidPlatform(name) {
      assert PlatformName(ParsePlatform(name).value) == name;
    }
  }
}
