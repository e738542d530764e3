/**
 * The pure parts of the transcript store (app/lib/supabase/transcripts.ts):
 * the fields `saveTranscript` derives for a new row, the defaulting of
 * `getUserStats`, the row-to-activity mapping of `getRecentActivity` and
 * the relative-time phrase of `formatTimestamp`. The database calls
 * themselves are not modelled; what they return is a `Fetch` value.
 */
module Transcripts {
  import opened Wrappers
  import opened Types
  import opened Numbers

  // ----- Relative time (formatTimestamp) -----

  const MinuteMs := 60000
  const HourMs := 3600000
  const DayMs := 86400000

  /** The unit a phrase counts in. */
  datatype Unit = Minute | Hour | Day

  /** Which branch of `formatTimestamp` an elapsed time falls in. */
  datatype Elapsed = JustNow | Ago(n: nat, unit: Unit) | OnDate

  /** The length of one unit in milliseconds. */
  function UnitMs(u: Unit): nat {
    match u
    case Minute => MinuteMs
    case Hour => HourMs
    case Day => DayMs
  }

  /**
   * The guarded returns of `formatTimestamp` on the floored minutes, hours
   * and days. `Math.floor(x / d)` for a positive `d` is Dafny's `x / d`,
   * which also floors negative elapsed times (a date in the future).
   */
  function Bucket(diffMs: int): (b: Elapsed)
    ensures b == JustNow <==> diffMs < MinuteMs
    ensures b.Ago? ==> b.n * UnitMs(b.unit) <= diffMs < (b.n + 1) * UnitMs(b.unit)
    ensures b.Ago? && b.unit == Minute <==> MinuteMs <= diffMs < HourMs
    ensures b.Ago? && b.unit == Hour <==> HourMs <= diffMs < DayMs
    ensures b.Ago? && b.unit == Day <==> DayMs <= diffMs < 7 * DayMs
    ensures b == OnDate <==> 7 * DayMs <= diffMs
  {
    var mins, hours, days := diffMs / MinuteMs, diffMs / HourMs, diffMs / DayMs;
    if mins < 1 then JustNow
    else if mins < 60 then Ago(mins, Minute)
    else if hours < 24 then Ago(hours, Hour)
    else if days < 7 then Ago(days, Day)
    else OnDate
  }

  /** The character of a decimal digit. */
  function DigitChar(d: nat): char
    requires d < 10
  {
    "0123456789"[d]
  }

  /** A number as JavaScript writes it in a template literal: decimal, no leading zero. */
  function Decimal(n: nat): (s: string)
    ensures |s| > 0
    ensures forall i :: 0 <= i < |s| ==> IsDigit(s[i])
    decreases n
  {
    if n < 10 then [DigitChar(n)] else Decimal(n / 10) + [DigitChar(n % 10)]
  }

  /** The value of a string of decimal digits. */
  function DecimalValue(s: string): nat
    requires forall i :: 0 <= i < |s| ==> IsDigit(s[i])
    decreases |s|
  {
    if s == [] then 0
    else DecimalValue(s[..|s| - 1]) * 10 + DigitValue(s[|s| - 1])
  }

  function DigitValue(c: char): nat
    requires IsDigit(c)
  {
    c as int - '0' as int
  }

  /** Reading the written number back gives the number; it starts with `0` only when it is 0. */
  lemma {:induction false} DecimalRoundTrip(n: nat)
    ensures DecimalValue(Decimal(n)) == n
    ensures Decimal(n)[0] == '0' <==> n == 0
    decreases n
  {
    var s := Decimal(n);
    if n >= 10 {
      DecimalRoundTrip(n / 10);
      assert s[..|s| - 1] == Decimal(n / 10);
      assert s[0] == Decimal(n / 10)[0];
    }
  }

  /** `${n} ${n === 1 ? 'minute' : 'minutes'} ago`, and likewise for hours and days. */
  function Phrase(n: nat, u: Unit): string {
    var word := match u case Minute => "minute" case Hour => "hour" case Day => "day";
    Decimal(n) + " " + word + (if n == 1 then "" else "s") + " ago"
  }

  /** The text of a branch; `localeDate` stands for `date.toLocaleDateString()`. */
  function Render(b: Elapsed, localeDate: string): string {
    match b
    case JustNow => "Just now"
    case Ago(n, u) => Phrase(n, u)
    case OnDate => localeDate
  }

  /**
   * `formatTimestamp`, given the elapsed milliseconds `now - date` and the
   * locale rendering of the date.
   */
  function FormatTimestamp(diffMs: int, localeDate: string): (s: string)
    ensures diffMs < MinuteMs ==> s == "Just now"
    ensures 7 * DayMs <= diffMs ==> s == localeDate
  {
    Render(Bucket(diffMs), localeDate)
  }

  /** Whole minutes from 1 to 59 give the minutes phrase, singular only for one minute. */
  lemma MinutesAgo(diffMs: int, n: nat, localeDate: string)
    requires 1 <= n < 60 && n * MinuteMs <= diffMs < (n + 1) * MinuteMs
    ensures FormatTimestamp(diffMs, localeDate) ==
      Decimal(n) + (if n == 1 then " minute ago" else " minutes ago")
  {
    var b := Bucket(diffMs);
    assert b == Ago(n, Minute) by {
      BucketCount(diffMs, n, Minute);
    }
  }

  /** Whole hours from 1 to 23 give the hours phrase, singular only for one hour. */
  lemma HoursAgo(diffMs: int, n: nat, localeDate: string)
    requires 1 <= n < 24 && n * HourMs <= diffMs < (n + 1) * HourMs
    ensures FormatTimestamp(diffMs, localeDate) ==
      Decimal(n) + (if n == 1 then " hour ago" else " hours ago")
  {
    var b := Bucket(diffMs);
    assert b == Ago(n, Hour) by {
      BucketCount(diffMs, n, Hour);
    }
  }

  /** Whole days from 1 to 6 give the days phrase, singular only for one day. */
  lemma DaysAgo(diffMs: int, n: nat, localeDate: string)
    requires 1 <= n < 7 && n * DayMs <= diffMs < (n + 1) * DayMs
    ensures FormatTimestamp(diffMs, localeDate) ==
      Decimal(n) + (if n == 1 then " day ago" else " days ago")
  {
    var b := Bucket(diffMs);
    assert b == Ago(n, Day) by {
      BucketCount(diffMs, n, Day);
    }
  }

  /** The count of a unit is the one whose interval holds the elapsed time. */
  lemma BucketCount(diffMs: int, n: nat, u: Unit)
    requires n * UnitMs(u) <= diffMs < (n + 1) * UnitMs(u)
    requires Bucket(diffMs).Ago? && Bucket(diffMs).unit == u
    ensures Bucket(diffMs) == Ago(n, u)
  {
    var m := Bucket(diffMs).n;
    var w := UnitMs(u);
    if m < n {
      MulMonotone(w, m + 1, n);
    } else if m > n {
      MulMonotone(w, n + 1, m);
    }
  }

  /** 59 minutes and 59.999 seconds is still counted in minutes. */
  lemma JustUnderAnHour(localeDate: string)
    ensures FormatTimestamp(3599999, localeDate) == "59 minutes ago"
  {
    MinutesAgo(3599999, 59, localeDate);
    assert Decimal(59) == Decimal(5) + ['9'];
  }

  /** Exactly one hour switches to hours. */
  lemma ExactlyAnHour(localeDate: string)
    ensures FormatTimestamp(3600000, localeDate) == "1 hour ago"
  {
    HoursAgo(3600000, 1, localeDate);
  }

  /** The earliest instant an elapsed-time branch stands for. */
  function Since(b: Elapsed): int {
    match b
    case JustNow => 0
    case Ago(n, u) => n * UnitMs(u)
    case OnDate => 7 * DayMs
  }

  /** An older timestamp never gets a more recent phrase. */
  lemma {:induction false} BucketMonotone(d1: int, d2: int)
    requires d1 <= d2
    ensures Since(Bucket(d1)) <= Since(Bucket(d2))
  {
    var b1, b2 := Bucket(d1), Bucket(d2);
    if b1.Ago? && b2.Ago? && b1.unit == b2.unit {
      var w := UnitMs(b1.unit);
      if b1.n > b2.n {
        MulMonotone(w, b2.n + 1, b1.n);
      }
    }
  }

  // ----- Recent activity (getRecentActivity) -----

  /**
   * A row of the activity query: its platform (possibly null or empty), its
   * character count, and its creation time given as the elapsed
   * milliseconds and the locale date text.
   */
  datatype ActivityRow = ActivityRow(platform: Option<string>, characterCount: int, elapsedMs: int, localeDate: string)

  /** An element of the activity feed. */
  datatype Activity = Activity(action: string, timestamp: string, characters: int, platform: Option<string>)

  /** `item.platform || 'general'`: a null or empty platform reads as `general`. */
  function PlatformLabel(platform: Option<string>): (name: string)
    ensures name != ""
    ensures platform.None? || platform.value == "" ==> name == "general"
    ensures platform.Some? && platform.value != "" ==> name == platform.value
  {
    match platform
    case None => "general"
    case Some(p) => if p == "" then "general" else p
  }

  /** The map callback of `getRecentActivity`. */
  function ToActivity(row: ActivityRow): Activity {
    Activity("Cleaned " + PlatformLabel(row.platform) + " transcript",
             FormatTimestamp(row.elapsedMs, row.localeDate),
             row.characterCount,
             row.platform)
  }

  /** The platform label back out of an action text. */
  function ActionLabel(action: string): string
    requires |action| >= 19
  {
    action[8..|action| - 11]
  }

  /** The action names the platform label, which can be read back out of it. */
  lemma ActionNamesPlatform(row: ActivityRow)
    ensures var a := ToActivity(row).action;
      |a| >= 19 && a[..8] == "Cleaned " && a[|a| - 11..] == " transcript" &&
      ActionLabel(a) == PlatformLabel(row.platform)
  {
    var name := PlatformLabel(row.platform);
    var a := "Cleaned " + name + " transcript";
    assert a[..8] == "Cleaned ";
    assert a[8..|a| - 11] == name;
    assert a[|a| - 11..] == " transcript";
  }

  /** `.map(...)` over the rows. */
  function Activities(rows: seq<ActivityRow>): (acts: seq<Activity>)
    ensures |acts| == |rows|
    ensures forall k :: 0 <= k < |rows| ==> acts[k] == ToActivity(rows[k])
    decreases |rows|
  {
    if rows == [] then [] else [ToActivity(rows[0])] + Activities(rows[1..])
  }

  /** `getRecentActivity`: nothing on an error; otherwise the rows mapped one by one, in order (`data || []`). */
  function RecentActivity(fetch: Fetch<seq<ActivityRow>>): (acts: seq<Activity>)
    ensures fetch.Failed? || fetch.data.None? ==> acts == []
    ensures fetch.Fetched? && fetch.data.Some? ==> acts == Activities(fetch.data.value)
    ensures fetch.Fetched? && fetch.data.Some? ==> |acts| == |fetch.data.value|
  {
    match fetch
    case Failed => []
    case Fetched(None) => []
    case Fetched(Some(rows)) => Activities(rows)
  }

  /** Mapping a concatenation maps each part, so the feed keeps the order of the rows. */
  lemma {:induction false} ActivitiesAppend(a: seq<ActivityRow>, b: seq<ActivityRow>)
    ensures Activities(a + b) == Activities(a) + Activities(b)
  {
    var l, r := Activities(a + b), Activities(a) + Activities(b);
    assert |l| == |r|;
    forall k | 0 <= k < |l|
      ensures l[k] == r[k]
    {
      if k < |a| {
        assert (a + b)[k] == a[k];
      } else {
        assert (a + b)[k] == b[k - |a|];
      }
    }
  }

  /** Each activity copies its row's count and platform and names the platform in its action. */
  lemma ActivityFields(rows: seq<ActivityRow>, k: nat)
    requires k < |rows|
    ensures var act := RecentActivity(Fetched(Some(rows)))[k];
      && act.characters == rows[k].characterCount
      && act.platform == rows[k].platform
      && act.action == "Cleaned " + PlatformLabel(rows[k].platform) + " transcript"
      && act.timestamp == FormatTimestamp(rows[k].elapsedMs, rows[k].localeDate)
  {
  }

  // ----- Dashboard counters (getUserStats) -----

  /** The one row the `get_user_stats` function returns. */
  datatype StatsRow = StatsRow(totalTranscripts: int, totalCharacters: int, monthTranscripts: int, monthlyApiCalls: int)

  /** `Number(...)` of each counter: the row's values are already integers. */
  function FromRow(r: StatsRow): UserStats {
    UserStats(r.totalTranscripts, r.totalCharacters, r.monthTranscripts, r.monthlyApiCalls)
  }

  /**
   * `getUserStats`: zeros on an error; `data[0] || zeros` otherwise, where
   * a null `data` throws and the catch also gives zeros.
   */
  function UserStatsOf(fetch: Fetch<seq<StatsRow>>): (s: UserStats)
    ensures fetch.Failed? || fetch.data.None? || fetch.data.value == [] ==> s == ZeroStats
    ensures fetch.Fetched? && fetch.data.Some? && fetch.data.value != [] ==>
      var first := fetch.data.value[0];
      && s.totalTranscripts == first.totalTranscripts
      && s.totalCharacters == first.totalCharacters
      && s.monthTranscripts == first.monthTranscripts
      && s.monthlyApiCalls == first.monthlyApiCalls
  {
    match fetch
    case Failed => ZeroStats
    case Fetched(None) => ZeroStats
    case Fetched(Some(rows)) => if rows == [] then ZeroStats else FromRow(rows[0])
  }

  /** Rows after the first are ignored, and the first row's counters come back unchanged. */
  lemma OnlyFirstRowCounts(r: StatsRow, rest: seq<StatsRow>)
    ensures UserStatsOf(Fetched(Some([r] + rest))) == UserStatsOf(Fetched(Some([r])))
    ensures UserStatsOf(Fetched(Some([r]))) ==
      UserStats(r.totalTranscripts, r.totalCharacters, r.monthTranscripts, r.monthlyApiCalls)
  {
    assert ([r] + rest)[0] == r;
  }

  // ----- New transcript row (saveTranscript) -----

  /** The number of UTF-16 code units of a character: two above the Basic Multilingual Plane. */
  function CodeUnits(c: char): nat {
    if c as int >= 0x10000 then 2 else 1
  }

  /** `inputText.length`: JavaScript counts UTF-16 code units. */
  function Utf16Length(s: string): (len: nat)
    ensures |s| <= len <= 2 * |s|
    decreases |s|
  {
    if s == [] then 0 else CodeUnits(s[0]) + Utf16Length(s[1..])
  }

  /** The UTF-16 encoding of one character: itself, or a surrogate pair. */
  function EncodeChar(c: char): (units: seq<int>)
    ensures |units| == CodeUnits(c)
  {
    var v := c as int;
    if v < 0x10000 then [v]
    else [0xD800 + (v - 0x10000) / 0x400, 0xDC00 + (v - 0x10000) % 0x400]
  }

  /** The UTF-16 encoding of a string. */
  function Utf16(s: string): seq<int>
    decreases |s|
  {
    if s == [] then [] else EncodeChar(s[0]) + Utf16(s[1..])
  }

  /** A surrogate pair decodes back to the character it encodes. */
  lemma SurrogatePairRoundTrip(c: char)
    requires c as int >= 0x10000
    ensures var u := EncodeChar(c);
      0xD800 <= u[0] < 0xDC00 && 0xDC00 <= u[1] < 0xE000 &&
      0x10000 + (u[0] - 0xD800) * 0x400 + (u[1] - 0xDC00) == c as int
  {
  }

  /** The stored length is the length of the UTF-16 encoding. */
  lemma {:induction false} Utf16LengthCounts(s: string)
    ensures |Utf16(s)| == Utf16Length(s)
    decreases |s|
  {
    if s != [] {
      Utf16LengthCounts(s[1..]);
    }
  }

  /** The stored length is between the number of characters and twice that. */
  lemma {:induction false} Utf16LengthBounds(s: string)
    ensures |s| <= Utf16Length(s) <= 2 * |s|
    ensures Utf16Length(s) == |s| <==> forall i :: 0 <= i < |s| ==> s[i] as int < 0x10000
    decreases |s|
  {
    if s != [] {
      Utf16LengthBounds(s[1..]);
      assert forall i :: 1 <= i < |s| ==> s[i] == s[1..][i - 1];
    }
  }

  /** The row `saveTranscript` inserts. */
  datatype NewTranscript = NewTranscript(
    userId: string,
    inputText: string,
    outputText: string,
    characterCount: nat,
    platform: Platform,
    processingTimeMs: Option<int>)

  /** `platform || 'general'` on the optional platform argument. */
  function PlatformOrGeneral(platform: Option<Platform>): (p: Platform)
    ensures platform.Some? ==> p == platform.value
    ensures platform.None? ==> p == General
  {
    match platform
    case None => General
    case Some(q) => q
  }

  /** The fields of the insert in `saveTranscript`. */
  function NewTranscriptRow(userId: string, inputText: string, outputText: string,
                            platform: Option<Platform>, processingTimeMs: Option<int>): NewTranscript
  {
    NewTranscript(userId, inputText, outputText, Utf16Length(inputText), PlatformOrGeneral(platform), processingTimeMs)
  }

  /**
   * The stored count is the input's UTF-16 length, so the number of
   * characters when none lies outside the Basic Multilingual Plane; the
   * platform defaults to `general`; the texts are stored unchanged.
   */
  lemma NewTranscriptFields(userId: string, inputText: string, outputText: string,
                            platform: Option<Platform>, processingTimeMs: Option<int>)
    ensures var t := NewTranscriptRow(userId, inputText, outputText, platform, processingTimeMs);
      && t.characterCount == |Utf16(inputText)|
      && |inputText| <= t.characterCount <= 2 * |inputText|
      && ((forall i :: 0 <= i < |inputText| ==> inputText[i] as int < 0x10000) ==> t.characterCount == |inputText|)
      && (platform.None? ==> t.platform == General)
      && t.inputText == inputText && t.outputText == outputText
  {
    Utf16LengthCounts(inputText);
    Utf16LengthBounds(inputText);
  }
}
