# Transcript cleaner core, modelled in Dafny

The application takes a video or subtitle transcript, strips the
timestamps from it, stores the cleaned transcript, and shows a dashboard
with usage figures. This project models the parts of that code that make
decisions:

- **The timestamp stripper** `removeTimestamps` (app/utils/timestampRemover.ts).
  - Five global regular-expression replacements run in a fixed order: bracketed, comma, dash, line start and mid-text.
  - All five share one token grammar, T = one or two digits, `:`, two digits, an optional `:dd`, and an optional `.d{1,3}` fraction.
  - Modules:
    - `TimestampToken` lists the ends of the tokens T that start at a position, in the order a backtracking JavaScript engine tries them, and proves that a position is in that list exactly when the text up to it is a token of a declarative statement of the grammar.
    - `TimestampRules` defines what one attempt of each rule's expression does at a position: its opening part, the token, and its closing part or lookahead.
    - `TimestampRemover` defines the left-to-right global replace and the five-pass pipeline, and proves what the pipeline can and cannot delete.
    - `TimestampExamples` works through concrete inputs character by character.
- **Usage post-processing** (app/lib/supabase/api-usage.ts), in module `ApiUsage`. Each operation takes the query's result as a `Fetch`, which is an error, no data, or the rows. The module covers:
  - the monthly count and the plan rate-limit decision;
  - grouping usage rows by day, written as a loop over a map accumulator;
  - counting by endpoint, also a loop over a map, followed by a descending sort;
  - the rounded average response time.
- **Transcript helpers** (app/lib/supabase/transcripts.ts), in module `Transcripts`:
  - the relative-time text of `formatTimestamp`;
  - the row-to-activity mapping of `getRecentActivity`;
  - the zero defaults of `getUserStats`;
  - the fields `saveTranscript` derives for its insert.
- **Shared types** (app/lib/supabase/types.ts), in module `Types`: plans, platforms, the stats record and the two type guards.

`Wrappers` holds `Option` and `Fetch`. `Sequences` holds generic facts about subsequences, filtering, first-seen de-duplication and occurrence counts.

Where the code and the product's documentation disagree, the model follows the code:

- The API page shows `"[00:00] Hello [00:15] World"` cleaned to `"Hello World"` (app/api/page.tsx:144-151). The code never trims, and `TimestampExamples.BracketedStamps` proves that the result is `" Hello  World"`.
- The features page shows `'[00:00] Hello world [00:15] This is a test'` cleaned to `"Hello world This is a test"` (app/features/page.tsx:116-121). `TimestampExamples.ProseBetweenStamps` proves that the code gives `" Hello world  This is a test"`: a leading space, and two spaces where the second stamp was.
- Cleaning is not idempotent. `TimestampExamples.NotIdempotent` proves that one run turns `"[00:00 - 0:00]"` into `"[0:00]"` and a second run turns that into `""`.

## Model

| member | source | states |
|---|---|---|
| TimestampToken.TokenEndsMatchGrammar | app/utils/timestampRemover.ts:19 | A position is listed as a candidate token end exactly when the text up to it is a token T of the grammar (both directions). |
| TimestampToken.IsSpace | app/utils/timestampRemover.ts:25-31 | `\s` of ECMAScript regular expressions: the WhiteSpace and LineTerminator characters. Every line terminator is whitespace, and no digit is. |
| TimestampToken.IsTokenAt | app/utils/timestampRemover.ts:19 | The token grammar T stated declaratively: one or two digits, `:` and two digits, an optional `:` and two digits, an optional `.` and one to three digits. `TokenEndsMatchGrammar` ties it to the engine's candidate list. |
| TimestampToken.EndsFrom | app/utils/timestampRemover.ts:19 | The candidate ends of the rest of a token from one of its parts on, in the order the engine tries them: a greedy `\d{1,2}` or `\d{1,3}` takes all it can and gives back one at a time, and an optional group is tried present before absent. Its properties are stated on `TokenEnds` and `TokenEndsMatchGrammar`. |
| TimestampToken.TokenEnds | app/utils/timestampRemover.ts:19 | Candidates are listed strictly longest first, which is the engine's backtracking order: two leading digits before one, seconds before none, 3 fraction digits down to 0. Every candidate is at least 4 characters long, is made of token characters, and has its colon at the second or third place. |
| TimestampToken.ShortTokenEnds | app/utils/timestampRemover.ts:19 | A `d:dd` or `dd:dd` token followed by neither `:` and two digits nor `.` and a digit has exactly one candidate end: the greedy lead has nothing to give back and both optional groups are absent. |
| TimestampRules.Deletable | app/utils/timestampRemover.ts:19-31 | The characters a match of each rule can delete: every token character for all five rules; brackets, the comma, or the dash and whitespace besides. Only the dash rule can delete whitespace. |
| TimestampRules.SkipSpaces | app/utils/timestampRemover.ts:25 | A greedy `\s*` consumes the maximal whitespace run: everything skipped is whitespace and the next character is not. |
| TimestampRules.AtLineStart | app/utils/timestampRemover.ts:28 | `^` under the `m` flag holds at the start of the text and just after a line terminator. In a text without line terminators it holds only at the start. |
| TimestampRules.AtLineEnd | app/utils/timestampRemover.ts:28 | `$` under the `m` flag holds at the end of the text and just before a line terminator. In a text without line terminators it holds only at the end. |
| TimestampRules.Opening | app/utils/timestampRemover.ts:19-31 | What each pattern needs before the token: `[` for the bracket rule, nothing for the comma and dash rules, `^(\s*)` under the `m` flag for the line-start rule, `(\s+)` for the mid-text rule. The kept part is whitespace (empty for the first three rules) and everything between it and the token can be deleted. |
| TimestampRules.Closing | app/utils/timestampRemover.ts:19-31 | What each pattern needs after the token: `]`, `,`, `\s*-\s*`, or the lookaheads for whitespace, the end of the text (of the line, under the `m` flag) or a comma, which consume nothing. The closing part stays within the text and holds only characters the rule can delete. |
| TimestampRules.FirstClosing | app/utils/timestampRemover.ts:19-31 | Backtracking over the token candidates: the first candidate after which the closing part matches, none before it in the list, and no longer candidate when the list is longest first. |
| TimestampRules.MatchAt | app/utils/timestampRemover.ts:19-31 | A match at `i` splits into a kept prefix (the `$1` capture), a token of at least 4 characters, and a closing part that ends within the text. |
| TimestampRules.MatchAtFacts | app/utils/timestampRemover.ts:19-31 | Bracketed, comma and dash matches keep nothing. The kept capture of the other two rules is whitespace. Every deleted character is one the rule can delete. The token has a colon at its second or third place. |
| TimestampRules.MatchAtDelimiters | app/utils/timestampRemover.ts:19-25 | A bracketed match starts with `[` and its token is followed by `]`. A comma match's token is followed by `,`. A dash match contains a `-` after the token. |
| TimestampRules.MatchAtIsLongest | app/utils/timestampRemover.ts:19-31 | The reported match uses a grammar token completed by the rule's closing part, and no longer token would be completed. When no match is reported, no grammar token at that start can be completed. |
| TimestampRemover.Replace | app/utils/timestampRemover.ts:19-31 | The global replace of the `g` flag resumes after each match and never lengthens the text. |
| TimestampRemover.Pass | app/utils/timestampRemover.ts:19-31 | `cleaned.replace(pattern, replacement)` with the `g` flag for one rule; it never lengthens the text. |
| TimestampRemover.RemoveTimestamps | app/utils/timestampRemover.ts:12-35 | The five passes in source order; the empty text gives the empty text. |
| TimestampRemover.ReplaceUnchanged | app/utils/timestampRemover.ts:19-31 | A global replace leaves the text unchanged exactly when the rule matches nowhere, and otherwise shortens it. |
| TimestampRemover.PassUnchanged | app/utils/timestampRemover.ts:19-31 | One rule's pass never lengthens the text, returns it unchanged exactly when the rule matches nowhere, and otherwise shortens it. |
| TimestampRemover.PassSubsequence | app/utils/timestampRemover.ts:19-31 | One rule's pass only deletes: its output is a subsequence of its input. |
| TimestampRemover.PassSpares | app/utils/timestampRemover.ts:19-31 | Each pass keeps, in order, every character its rule cannot delete. |
| TimestampRemover.PassKeepsWhitespace | app/utils/timestampRemover.ts:28-31 | Every rule except the dash rule keeps all whitespace in order, because the `$1` capture puts it back. |
| TimestampRemover.NoColonNoMatch | app/utils/timestampRemover.ts:19-31 | No rule matches a text without a colon. |
| TimestampRemover.SingleLineStart | app/utils/timestampRemover.ts:28 | In a text without line terminators, the line-start pass is the identity unless its pattern can begin at position 0. |
| TimestampRemover.LineStartNeedsTerminator | app/utils/timestampRemover.ts:28 | In a text without line terminators, the line-start rule never matches after position 0. |
| TimestampRemover.NoDelimiterNoMatch | app/utils/timestampRemover.ts:19-25 | The bracketed, comma and dash rules cannot match without a `[`, `,` or `-` respectively. |
| TimestampRemover.PassIdle | app/utils/timestampRemover.ts:19-31 | A pass is the identity when the text has no colon or lacks its rule's delimiter. |
| TimestampRemover.RemoveTimestampsDeletesOnly | app/utils/timestampRemover.ts:15-34 | The cleaned text is a subsequence of the input and no longer than it. |
| TimestampRemover.RemoveTimestampsUnchanged | app/utils/timestampRemover.ts:15-34 | The text comes back unchanged exactly when none of the five rules matches it. |
| TimestampRemover.NoColonUnchanged | app/utils/timestampRemover.ts:15-34 | A text without a colon comes back unchanged. |
| TimestampRemover.RemoveTimestampsKeepsProse | app/utils/timestampRemover.ts:15-34 | Every character other than a digit, `:`, `.`, `[`, `]`, `,`, `-` or whitespace survives, in its original order. |
| TimestampExamples.BracketedStamps | app/utils/timestampRemover.ts:19 | `"[00:00] Hello [00:15] World"` becomes `" Hello  World"`, with no trimming. |
| TimestampExamples.ProseBetweenStamps | app/utils/timestampRemover.ts:19 | `"[00:00] Hello world [00:15] This is a test"` becomes `" Hello world  This is a test"`, with no trimming. |
| TimestampExamples.CommaStamp | app/utils/timestampRemover.ts:22 | `"0:00:00.000, Hello"` becomes `" Hello"`. |
| TimestampExamples.DashStamp | app/utils/timestampRemover.ts:25 | `"00:00 - Intro text"` becomes `"Intro text"`. |
| TimestampExamples.GluedStamp | app/utils/timestampRemover.ts:22 | `"x12:34,"` becomes `"x"`: the comma rule needs no left boundary. |
| TimestampExamples.SubtitleCues | app/utils/timestampRemover.ts:22 | `"00:00:00,000 --> 00:00:05,000"` becomes `"000 --> 000"`. |
| TimestampExamples.MidTextStamp | app/utils/timestampRemover.ts:31 | `"Chapter 12:30 meeting"` becomes `"Chapter  meeting"`. |
| TimestampExamples.ClockTimeKept | app/utils/timestampRemover.ts:28-31 | `"at 12:30pm"` is unchanged, because no lookahead accepts the `p`. |
| TimestampExamples.NestedStamps | app/utils/timestampRemover.ts:19-25 | `"[00:00 - 0:00]"` becomes `"[0:00]"`: the dash rule splices a bracketed stamp together after the bracket rule has run. |
| TimestampExamples.LeftoverStamp | app/utils/timestampRemover.ts:19 | `"[0:00]"` becomes `""`. |
| TimestampExamples.NotIdempotent | app/utils/timestampRemover.ts:12-35 | Cleaning twice differs from cleaning once on `"[00:00 - 0:00]"`. |
| Types.ParsePlan | app/lib/supabase/types.ts:83-85 | A plan is recognised exactly when `isValidPlan` accepts the name, and its name reads back as the input. |
| Types.ParsePlatform | app/lib/supabase/types.ts:88-90 | A platform is recognised exactly when `isValidPlatform` accepts the name, and its name reads back as the input. |
| Types.PlanNameRoundTrip | app/lib/supabase/types.ts:83-85 | Every plan's name passes the guard and parses back to the same plan. |
| Types.PlatformNameRoundTrip | app/lib/supabase/types.ts:88-90 | Every platform's name passes the guard and parses back to the same platform. |
| Types.GuardsAcceptExactlyTheNames | app/lib/supabase/types.ts:83-90 | The guards accept exactly the names of the plan and platform enumerations. |
| ApiUsage.MonthlyApiCalls | app/lib/supabase/api-usage.ts:47-63 | The count is 0 on an error, an exception or no data, and otherwise the returned count. |
| ApiUsage.PlanLimit | app/lib/supabase/api-usage.ts:73-79 | The limits table: free 100, pro 10000, enterprise unlimited (`Infinity`). Stated per plan by `AllowedExactlyBelowLimit`. |
| ApiUsage.Below | app/lib/supabase/api-usage.ts:83 | `used < limit`, where every count is below `Infinity`. Its consequences per plan are stated by `AllowedExactlyBelowLimit` and `AllowedIsDownwardClosed`. |
| ApiUsage.CheckRateLimit | app/lib/supabase/api-usage.ts:68-95 | When the lookup throws, the answer is refused with used 0 and limit 0. Otherwise `used` and `limit` are the count and the plan's limit, and the call is allowed exactly when the count is below the limit. |
| ApiUsage.AllowedExactlyBelowLimit | app/lib/supabase/api-usage.ts:73-83 | Free is allowed exactly below 100 calls and Pro exactly below 10000. Enterprise is always allowed. A user exactly at a finite limit is refused. |
| ApiUsage.AllowedIsDownwardClosed | app/lib/supabase/api-usage.ts:83 | If a count is allowed, every smaller count is allowed. |
| ApiUsage.FailedLookupFailsOpen | app/lib/supabase/api-usage.ts:53-83 | A failed or empty lookup gives used 0 and the call allowed on every plan. |
| ApiUsage.RateLimitFor | app/lib/supabase/api-usage.ts:47-86 | `checkRateLimit` on the monthly count: `used` is the count `getMonthlyApiCalls` returns, `limit` is the plan's, and the call is allowed exactly when the count is below the limit. |
| ApiUsage.DailyUsage | app/lib/supabase/api-usage.ts:125-139 | The reference result has one entry per distinct date. |
| ApiUsage.PerDayAppend | app/lib/supabase/api-usage.ts:130-131 | One more row adds 1 call and its character count (a missing count reads as 0) to its own day, and nothing to any other day. |
| ApiUsage.AddRow | app/lib/supabase/api-usage.ts:126-132 | The reduce callback: a new day gets zero totals and is appended to the key order; then its calls go up by 1 and its characters by the row's count (0 when missing). Its effect is stated by `GroupRowsKeys`, `GroupRowsOrder` and `GroupRowsTotals`. |
| ApiUsage.Characters | app/lib/supabase/api-usage.ts:131 | `item.character_count`, or 0 when it is missing. Its effect on the per-day sums is stated by `PerDayAppend` and `DailyUsageCharactersSum`. |
| ApiUsage.RowsOr | app/lib/supabase/api-usage.ts:125 | The `data` of a query, or `[]` when it is null: null data reads as no rows (also at lines 169 and 199). `ApiUsageAnalytics`, `EndpointUsage` and `AverageResponseTime` state the null case in their contracts. |
| ApiUsage.GroupRows | app/lib/supabase/api-usage.ts:125-133 | The reduce over the rows from an empty accumulator, stated by the three lemmas below. |
| ApiUsage.GroupRowsKeys | app/lib/supabase/api-usage.ts:125-133 | After the reduce, the accumulator has a key for exactly the dates of the rows. |
| ApiUsage.GroupRowsOrder | app/lib/supabase/api-usage.ts:125-135 | Keys are inserted in first-seen order of the dates. |
| ApiUsage.GroupRowsTotals | app/lib/supabase/api-usage.ts:127-131 | Each key holds its day's row count and summed character count. |
| ApiUsage.GroupByDate | app/lib/supabase/api-usage.ts:125-139 | The loop over the rows, which updates a map and then lists its entries, returns exactly the reference per-day result. |
| ApiUsage.DayEntries | app/lib/supabase/api-usage.ts:135-139 | One entry per key, in key order, with that key's totals. |
| ApiUsage.ApiUsageAnalytics | app/lib/supabase/api-usage.ts:119-139 | An error gives `[]`. Otherwise the result is the per-day grouping of the rows, with null data read as no rows. |
| ApiUsage.DailyUsageCoversRows | app/lib/supabase/api-usage.ts:125-139 | A date has an entry exactly when some row has that date. |
| ApiUsage.DailyUsageOrderAndTotals | app/lib/supabase/api-usage.ts:125-139 | Dates are pairwise distinct and in the order of their first row. Each day's calls are its number of rows and its characters are its summed counts. |
| ApiUsage.DailyUsageCallsSum | app/lib/supabase/api-usage.ts:125-139 | The calls of all days add up to the number of rows. |
| ApiUsage.DailyUsageCharactersSum | app/lib/supabase/api-usage.ts:125-139 | The characters of all days add up to the characters of all rows. |
| ApiUsage.EndpointTally | app/lib/supabase/api-usage.ts:169-175 | The reference tally has one entry per distinct endpoint. |
| ApiUsage.AddEndpoint | app/lib/supabase/api-usage.ts:170-171 | The reduce callback: the endpoint's count, or 0 when absent, plus 1, with a new endpoint appended to the key order. Its effect is stated by `CountRowsKeys`, `CountRowsOrder` and `CountRowsCount`. |
| ApiUsage.CountRows | app/lib/supabase/api-usage.ts:169-172 | The reduce over the endpoints from an empty accumulator, stated by the three lemmas below. |
| ApiUsage.CountRowsKeys | app/lib/supabase/api-usage.ts:169-172 | After the reduce, the accumulator has a key for exactly the endpoints of the rows. |
| ApiUsage.CountRowsOrder | app/lib/supabase/api-usage.ts:169-172 | Keys are inserted in first-seen order. |
| ApiUsage.CountRowsCount | app/lib/supabase/api-usage.ts:170 | Each key's count is its number of occurrences. |
| ApiUsage.CountByEndpoint | app/lib/supabase/api-usage.ts:169-175 | The loop over the rows, which updates a map and then lists its entries, returns exactly the reference tally. |
| ApiUsage.EndpointEntries | app/lib/supabase/api-usage.ts:174-175 | One entry per key, in key order, with that key's count. |
| ApiUsage.InsertByCount | app/lib/supabase/api-usage.ts:176 | Inserting adds exactly the one element: the result is a permutation of the list plus that element. |
| ApiUsage.InsertKeepsOrder | app/lib/supabase/api-usage.ts:176 | Inserting into a list with non-increasing counts keeps it non-increasing. |
| ApiUsage.SortByCount | app/lib/supabase/api-usage.ts:176 | The sorted list is a permutation of its input with non-increasing counts. |
| ApiUsage.EndpointUsage | app/lib/supabase/api-usage.ts:163-176 | An error gives `[]`. Otherwise the result is the sorted tally of the rows, with null data read as no rows. |
| ApiUsage.TotalCountSort | app/lib/supabase/api-usage.ts:176 | Sorting keeps the sum of the counts. |
| ApiUsage.EndpointUsageCoversRows | app/lib/supabase/api-usage.ts:169-176 | An endpoint is listed exactly when some row has it. |
| ApiUsage.EndpointUsageCounts | app/lib/supabase/api-usage.ts:169-176 | Each listed count equals the endpoint's number of occurrences. |
| ApiUsage.EndpointUsageListsEachOnce | app/lib/supabase/api-usage.ts:169-176 | No endpoint is listed twice. |
| ApiUsage.EndpointUsageTotal | app/lib/supabase/api-usage.ts:169-176 | The listed counts add up to the number of rows. |
| ApiUsage.RoundHalfUp | app/lib/supabase/api-usage.ts:204 | The result is the integer nearest to `total / n`, rounding halves up: `n*r - n/2 <= total < n*r + n/2`. |
| ApiUsage.AverageResponseTime | app/lib/supabase/api-usage.ts:199-204 | The average is 0 on an error or when there are no rows. Otherwise it is the half-up rounding of the summed times over the row count, with a missing time read as 0. |
| ApiUsage.Millis | app/lib/supabase/api-usage.ts:203 | `item.response_time_ms`, or 0 when missing. |
| ApiUsage.TotalMillis | app/lib/supabase/api-usage.ts:203 | The reduce that sums the times from 0. Its bounds are stated by `TotalAtLeast` and `TotalAtMost`. |
| ApiUsage.TotalMillisAppend | app/lib/supabase/api-usage.ts:203 | The total of a concatenation is the sum of the totals, so summing from the front gives what the left-to-right reduce accumulates. |
| ApiUsage.TotalAtLeast | app/lib/supabase/api-usage.ts:203 | The total is at least the row count times the smallest time. |
| ApiUsage.TotalAtMost | app/lib/supabase/api-usage.ts:203 | The total is at most the row count times the largest time. |
| ApiUsage.RoundBetween | app/lib/supabase/api-usage.ts:204 | Rounding a quotient that lies between two integers stays between them. |
| ApiUsage.AverageBetweenFastestAndSlowest | app/lib/supabase/api-usage.ts:199-204 | The average of a non-empty month lies between its smallest and largest time. |
| Transcripts.Bucket | app/lib/supabase/transcripts.ts:219-228 | Floor division picks the branch: under a minute, including negative times, is "just now". [1 min, 1 h) is minutes, [1 h, 1 day) is hours, [1 day, 7 days) is days, and 7 days or more is the date. The count n satisfies n·unit ≤ elapsed < (n+1)·unit. |
| Transcripts.Phrase | app/lib/supabase/transcripts.ts:224-226 | The phrase `${n} ${n === 1 ? unit : units} ago` for minutes, hours or days. Its text per branch is stated by `MinutesAgo`, `HoursAgo` and `DaysAgo`. |
| Transcripts.Render | app/lib/supabase/transcripts.ts:223-228 | The text of each branch: "Just now", the phrase, or the locale date. |
| Transcripts.Decimal | app/lib/supabase/transcripts.ts:224-226 | A count is rendered as a non-empty string of decimal digits. |
| Transcripts.DecimalRoundTrip | app/lib/supabase/transcripts.ts:224-226 | The digits read back as the count, and there is a leading zero only for 0. |
| Transcripts.FormatTimestamp | app/lib/supabase/transcripts.ts:215-229 | Under 60000 ms, including the future, the text is "Just now". At 7 days or more it is the locale date. |
| Transcripts.MinutesAgo | app/lib/supabase/transcripts.ts:224 | 1 to 59 whole minutes give "N minute ago" for N = 1 and "N minutes ago" otherwise. |
| Transcripts.HoursAgo | app/lib/supabase/transcripts.ts:225 | 1 to 23 whole hours give "N hour ago" for N = 1 and "N hours ago" otherwise. |
| Transcripts.DaysAgo | app/lib/supabase/transcripts.ts:226 | 1 to 6 whole days give "N day ago" for N = 1 and "N days ago" otherwise. |
| Transcripts.JustUnderAnHour | app/lib/supabase/transcripts.ts:219-224 | 3599999 ms gives "59 minutes ago". |
| Transcripts.ExactlyAnHour | app/lib/supabase/transcripts.ts:220-225 | 3600000 ms gives "1 hour ago". |
| Transcripts.BucketMonotone | app/lib/supabase/transcripts.ts:219-228 | A longer elapsed time never gives a more recent bucket. |
| Transcripts.PlatformLabel | app/lib/supabase/transcripts.ts:201 | A null or empty platform reads as "general". Any other platform is used as given. The label is never empty. |
| Transcripts.ToActivity | app/lib/supabase/transcripts.ts:200-205 | The map callback: action, formatted time, copied character count and platform. Its fields are stated by `ActivityFields` and `ActionNamesPlatform`. |
| Transcripts.ActionNamesPlatform | app/lib/supabase/transcripts.ts:201 | The action is "Cleaned " + label + " transcript", and the label can be read back out of it. |
| Transcripts.Activities | app/lib/supabase/transcripts.ts:200-205 | The map is one-to-one and keeps order: entry k is row k's activity. |
| Transcripts.RecentActivity | app/lib/supabase/transcripts.ts:188-209 | An error or null data gives `[]`. Otherwise the result is the rows mapped one by one in order, one activity per row. |
| Transcripts.ActivitiesAppend | app/lib/supabase/transcripts.ts:200-205 | Mapping distributes over concatenation. |
| Transcripts.ActivityFields | app/lib/supabase/transcripts.ts:200-205 | Entry k copies row k's character count and platform, names its platform label in the action, and formats its time. |
| Transcripts.UserStatsOf | app/lib/supabase/transcripts.ts:140-172 | All four counters are 0 on an error, on null data or when no row comes back. Otherwise each of the four is the first row's counter. |
| Transcripts.FromRow | app/lib/supabase/transcripts.ts:158-163 | `Number(...)` of each of the four counters; the row's values are already integers. Stated by `OnlyFirstRowCounts`. |
| Transcripts.OnlyFirstRowCounts | app/lib/supabase/transcripts.ts:151-163 | Rows after the first are ignored, and the first row's four counters come back unchanged. |
| Transcripts.Utf16Length | app/lib/supabase/transcripts.ts:21 | `inputText.length` counts UTF-16 code units: between the number of characters and twice that. |
| Transcripts.EncodeChar | app/lib/supabase/transcripts.ts:21 | A character takes one UTF-16 code unit inside the Basic Multilingual Plane and two outside it. |
| Transcripts.SurrogatePairRoundTrip | app/lib/supabase/transcripts.ts:21 | A character outside the Basic Multilingual Plane becomes a high and a low surrogate that decode back to it. |
| Transcripts.Utf16LengthCounts | app/lib/supabase/transcripts.ts:21 | The counted length equals the number of code units of the encoding. |
| Transcripts.Utf16LengthBounds | app/lib/supabase/transcripts.ts:21 | The length is between the number of characters and twice that. It equals the number of characters exactly when all characters lie in the Basic Multilingual Plane. |
| Transcripts.PlatformOrGeneral | app/lib/supabase/transcripts.ts:30 | An absent platform is stored as general, and a given one unchanged. |
| Transcripts.NewTranscriptRow | app/lib/supabase/transcripts.ts:21-31 | The object `saveTranscript` inserts. Its fields are stated by `NewTranscriptFields`. |
| Transcripts.NewTranscriptFields | app/lib/supabase/transcripts.ts:21-31 | The stored character count is the input's UTF-16 length. It is the number of characters when all lie in the Basic Multilingual Plane. The platform defaults to general, and both texts are stored unchanged. |

## Left out

- Database, auth and network calls are not modelled. This covers the query builders, the `.rpc` calls and the client construction. Each operation takes the query's outcome as a value: an error or exception (`Failed`), null data, or the rows.
- The query filters are not modelled: the user, the date window, `.not(... is null)`, `.order` and `.limit`. Rows are taken in the order and number the database returns them.
- Clocks and dates are not modelled. `new Date()`, the `toISOString().split('T')[0]` day keys and the month starts are inputs: an elapsed-millisecond count and opaque date strings.
- Locale is not modelled: `toLocaleDateString()` is a string parameter.
- Floating point is not modelled. `Infinity` is the `Unlimited` limit. `Math.round(total / n)` is exact integer half-up rounding. Response times, counts and character counts are integers.
- `Number(...)` in `getUserStats` is not modelled: the row's counters are already integers.
- Ordering is simplified. The model keeps JavaScript's object-key insertion order, but not the rule that lists integer-like keys first. Day keys (`YYYY-MM-DD`) are never integer-like; for endpoint names this is an assumption about the API routes that record usage, which are not part of this model.
- ApiUsage.CountByEndpoint: assumes no endpoint name is a key the `{}` accumulator inherits from `Object.prototype` (`constructor`, `toString`, `__proto__`, ...). For such a name `acc[name] || 0` reads the inherited member, so `+ 1` yields a string rather than a count (or, for `__proto__`, the assignment does not add a key); the model's map starts empty and counts every name.
- ApiUsage.SortByCount: stability is not stated. The model is a stable insertion sort, as `Array.prototype.sort` is, but the contract says only permutation and non-increasing.
- ApiUsage.CheckRateLimit: the catch branch is modelled as a throwing lookup (`Raised`). `getMonthlyApiCalls` catches every exception itself, so `RateLimitFor` composes the two with `Returned`; that the branch is unreachable is read off the source, not proved.
- Only the derived fields of `saveTranscript`'s insert are modelled. The call itself, and its `null` result on an error, are database I/O.
- `getUserTranscripts`, `getTranscriptById`, `deleteTranscript` and `trackApiUsage` are not modelled. They are database calls with no logic of their own.
- Whitespace is modelled exactly. `\s` is the ECMAScript WhiteSpace and LineTerminator set, and `\d` is ASCII 0-9. The expressions have no `u` flag and nothing in them matches a surrogate, so working on characters rather than UTF-16 code units changes nothing.
- The cleaning examples on the API and feature pages are not modelled as behaviour. They show trimmed output that the code does not produce.
- Idempotence of `removeTimestamps` is not claimed: it does not hold (`TimestampExamples.NotIdempotent`).
- User interface, file handling, webhooks, static content and configuration are outside this model.
