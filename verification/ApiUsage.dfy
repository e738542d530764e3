/**
 * What app/lib/supabase/api-usage.ts does with the rows the database
 * returns: the monthly rate-limit decision, the per-day analytics, the
 * per-endpoint breakdown and the average response time. The queries
 * themselves are not modelled; each operation takes what the query
 * produced as a `Fetch` (an error, no data, or the rows).
 */
module ApiUsage {
  import opened Wrappers
  import opened Sequences
  import opened Types
  import opened Numbers

  // ----- Rate limit (getMonthlyApiCalls, checkRateLimit) -----

  /** A monthly allowance: a number of calls, or no limit at all (`Infinity`). */
  datatype Limit = Calls(n: nat) | Unlimited

  /** How an awaited call ended: with a value, or by throwing. */
  datatype Outcome<+T> = Returned(value: T) | Raised

  /** The answer of `checkRateLimit`. */
  datatype RateLimit = RateLimit(allowed: bool, used: nat, limit: Limit)

  /** The allowance of each plan: 100 calls, 10000 calls, or unlimited. */
  function PlanLimit(plan: Plan): Limit {
    match plan
    case Free => Calls(100)
    case Pro => Calls(10000)
    case Enterprise => Unlimited
  }

  /** `used < limit`, where every count is below `Infinity`. */
  predicate Below(used: nat, limit: Limit) {
    match limit
    case Unlimited => true
    case Calls(n) => used < n
  }

  /**
   * `getMonthlyApiCalls`: the count the database function returned; 0 when
   * the call failed, threw, or returned no data.
   */
  function MonthlyApiCalls(lookup: Fetch<nat>): (used: nat)
    ensures lookup.Failed? || lookup.data.None? ==> used == 0
    ensures lookup.Fetched? && lookup.data.Some? ==> used == lookup.data.value
  {
    match lookup
    case Failed => 0
    case Fetched(None) => 0
    case Fetched(Some(n)) => n
  }

  /**
   * `checkRateLimit` given how awaiting the monthly count ended: allowed
   * exactly when the count is below the plan's limit; when the await threw,
   * refused with both numbers 0.
   */
  function CheckRateLimit(plan: Plan, used: Outcome<nat>): (d: RateLimit)
    ensures used.Raised? ==> d == RateLimit(false, 0, Calls(0))
    ensures used.Returned? ==> d.used == used.value && d.limit == PlanLimit(plan)
    ensures used.Returned? ==> (d.allowed <==> Below(used.value, PlanLimit(plan)))
  {
    match used
    case Raised => RateLimit(false, 0, Calls(0))
    case Returned(n) =>
      var limit := PlanLimit(plan);
      RateLimit(Below(n, limit), n, limit)
  }

  /**
   * The decision `checkRateLimit` reaches from the database's answer to the
   * monthly count. `getMonthlyApiCalls` catches every exception itself and
   * returns 0, so awaiting it always returns (`Returned`): on this path the
   * limit is always the plan's and the decision is the count against it.
   */
  function RateLimitFor(plan: Plan, lookup: Fetch<nat>): (d: RateLimit)
    ensures d.used == MonthlyApiCalls(lookup) && d.limit == PlanLimit(plan)
    ensures d.allowed <==> Below(MonthlyApiCalls(lookup), PlanLimit(plan))
  {
    CheckRateLimit(plan, Returned(MonthlyApiCalls(lookup)))
  }

  /**
   * The decision per plan: a free user is allowed below 100 calls, a pro
   * user below 10000, an enterprise user always. A user exactly at the
   * limit is refused.
   */
  lemma AllowedExactlyBelowLimit(plan: Plan, used: nat)
    ensures CheckRateLimit(plan, Returned(used)).allowed <==>
      match plan
      case Free => used < 100
      case Pro => used < 10000
      case Enterprise => true
    ensures plan != Enterprise ==> !CheckRateLimit(plan, Returned(PlanLimit(plan).n)).allowed
  {
  }

  /** Fewer calls never turn an allowed request into a refused one. */
  lemma AllowedIsDownwardClosed(plan: Plan, fewer: nat, more: nat)
    requires fewer <= more && CheckRateLimit(plan, Returned(more)).allowed
    ensures CheckRateLimit(plan, Returned(fewer)).allowed
  {
  }

  /**
   * A failed or empty lookup of the monthly count reads as 0 calls, which
   * every plan allows: the rate-limit check fails open.
   */
  lemma FailedLookupFailsOpen(plan: Plan, lookup: Fetch<nat>)
    requires lookup.Failed? || lookup.data.None?
    ensures RateLimitFor(plan, lookup) == RateLimit(true, 0, PlanLimit(plan))
  {
  }

  // ----- Daily analytics (getApiUsageAnalytics) -----

  /** A row of `api_usage`: the day of its `created_at` and its `character_count`, if any. */
  datatype UsageRow = UsageRow(date: string, characterCount: Option<nat>)

  /** The dictionary value the reduce accumulates per day. */
  datatype DayStats = DayStats(calls: nat, characters: nat)

  /** An element of the analytics answer. */
  datatype DayUsage = DayUsage(date: string, calls: nat, characters: nat)

  /** `item.character_count || 0` */
  function Characters(row: UsageRow): nat {
    match row.characterCount
    case None => 0
    case Some(c) => c
  }

  function Dates(rows: seq<UsageRow>): (ds: seq<string>)
    ensures |ds| == |rows|
    decreases |rows|
  {
    if rows == [] then [] else Dates(rows[..|rows| - 1]) + [rows[|rows| - 1].date]
  }

  /** The number of rows of the day. */
  function CallsOn(rows: seq<UsageRow>, date: string): nat {
    multiset(Dates(rows))[date]
  }

  /** The characters of the rows of the day, a missing count read as 0. */
  function CharactersOn(rows: seq<UsageRow>, date: string): nat
    decreases |rows|
  {
    if rows == [] then 0
    else
      var last := rows[|rows| - 1];
      CharactersOn(rows[..|rows| - 1], date) + (if last.date == date then Characters(last) else 0)
  }

  /**
   * What the analytics answer should be: one entry per distinct day, in the
   * order the days first occur, with that day's calls and characters.
   */
  function DailyUsage(rows: seq<UsageRow>): (days: seq<DayUsage>)
    ensures |days| == |Distinct(Dates(rows))|
  {
    var ds := Distinct(Dates(rows));
    seq(|ds|, k requires 0 <= k < |ds| => DayUsage(ds[k], CallsOn(rows, ds[k]), CharactersOn(rows, ds[k])))
  }

  lemma {:induction false} CharactersOnAbsent(rows: seq<UsageRow>, date: string)
    requires date !in Dates(rows)
    ensures CharactersOn(rows, date) == 0
    decreases |rows|
  {
    if rows != [] {
      var init := rows[..|rows| - 1];
      assert Dates(rows) == Dates(init) + [rows[|rows| - 1].date];
      CharactersOnAbsent(init, date);
    }
  }

  /** Appending a row appends its day to the days of the rows. */
  lemma DatesAppend(rows: seq<UsageRow>, row: UsageRow)
    ensures Dates(rows + [row]) == Dates(rows) + [row.date]
  {
    assert (rows + [row])[..|rows|] == rows;
  }

  /** Appending a row adds one call and its characters to its own day, nothing to the others. */
  lemma PerDayAppend(rows: seq<UsageRow>, row: UsageRow, d: string)
    ensures CallsOn(rows + [row], d) == CallsOn(rows, d) + (if d == row.date then 1 else 0)
    ensures CharactersOn(rows + [row], d) == CharactersOn(rows, d) + (if d == row.date then Characters(row) else 0)
  {
    DatesAppend(rows, row);
    assert (rows + [row])[..|rows|] == rows;
  }

  /** The dictionary of the reduce together with the order its keys were inserted in. */
  datatype Groups = Groups(order: seq<string>, acc: map<string, DayStats>)

  /** The reduce callback: insert the day with zeros when it is new, then bump its entry. */
  function AddRow(g: Groups, row: UsageRow): Groups {
    var seen := if row.date in g.acc then g else Groups(g.order + [row.date], g.acc[row.date := DayStats(0, 0)]);
    var st := seen.acc[row.date];
    Groups(seen.order, seen.acc[row.date := DayStats(st.calls + 1, st.characters + Characters(row))])
  }

  /** The reduce over the rows, from the empty dictionary. */
  function GroupRows(rows: seq<UsageRow>): Groups
    decreases |rows|
  {
    if rows == [] then Groups([], map[]) else AddRow(GroupRows(rows[..|rows| - 1]), rows[|rows| - 1])
  }

  /** After the reduce, a day has a key exactly when some row is of that day. */
  lemma {:induction false} GroupRowsKeys(rows: seq<UsageRow>, d: string)
    ensures d in GroupRows(rows).acc <==> d in Dates(rows)
    decreases |rows|
  {
    if rows != [] {
      var init, row := rows[..|rows| - 1], rows[|rows| - 1];
      GroupRowsKeys(init, d);
      assert Dates(rows) == Dates(init) + [row.date];
    }
  }

  /** The keys of the reduce are inserted in the order their days first occur. */
  lemma {:induction false} GroupRowsOrder(rows: seq<UsageRow>)
    ensures GroupRows(rows).order == Distinct(Dates(rows))
    decreases |rows|
  {
    if rows != [] {
      var init, row := rows[..|rows| - 1], rows[|rows| - 1];
      GroupRowsOrder(init);
      GroupRowsKeys(init, row.date);
      assert rows == init + [row];
      DatesAppend(init, row);
      DistinctAppend(Dates(init), row.date);
    }
  }

  /** After the reduce, each day's entry holds its number of rows and their characters. */
  lemma {:induction false} GroupRowsTotals(rows: seq<UsageRow>, d: string)
    requires d in GroupRows(rows).acc
    ensures GroupRows(rows).acc[d] == DayStats(CallsOn(rows, d), CharactersOn(rows, d))
    decreases |rows|
  {
    var init, row := rows[..|rows| - 1], rows[|rows| - 1];
    assert rows == init + [row];
    PerDayAppend(init, row, d);
    GroupRowsKeys(init, d);
    if d in GroupRows(init).acc {
      GroupRowsTotals(init, d);
    } else {
      CharactersOnAbsent(init, d);
    }
  }

  /**
   * The reduce of `getApiUsageAnalytics` and the `Object.entries` that
   * follows: one pass over the rows updating a dictionary keyed by day
   * (whose keys keep their insertion order), then one entry per key.
   */
  method GroupByDate(rows: seq<UsageRow>) returns (days: seq<DayUsage>)
    ensures days == DailyUsage(rows)
  {
    var order: seq<string> := [];
    var acc: map<string, DayStats> := map[];
    var i := 0;
    while i < |rows|
      invariant 0 <= i <= |rows|
      invariant Groups(order, acc) == GroupRows(rows[..i])
    {
      var row := rows[i];
      assert rows[..i + 1][..i] == rows[..i];
      if row.date !in acc {
        acc := acc[row.date := DayStats(0, 0)];
        order := order + [row.date];
      }
      var st := acc[row.date];
      acc := acc[row.date := DayStats(st.calls + 1, st.characters + Characters(row))];
      i := i + 1;
    }
    assert rows[..i] == rows;
    GroupRowsOrder(rows);
    forall d | d in order
      ensures d in acc
    {
      GroupRowsKeys(rows, d);
    }
    days := DayEntries(order, acc);
    GroupedEntries(rows, days);
  }

  /** Listing the finished dictionary's entries in key order gives the analytics answer. */
  lemma GroupedEntries(rows: seq<UsageRow>, days: seq<DayUsage>)
    requires var g := GroupRows(rows);
      && (forall d :: d in g.order ==> d in g.acc)
      && |days| == |g.order|
      && forall k :: 0 <= k < |g.order| ==>
           days[k] == DayUsage(g.order[k], g.acc[g.order[k]].calls, g.acc[g.order[k]].characters)
    ensures days == DailyUsage(rows)
  {
    var g, want := GroupRows(rows), DailyUsage(rows);
    GroupRowsOrder(rows);
    forall k | 0 <= k < |days|
      ensures days[k] == want[k]
    {
      GroupRowsTotals(rows, g.order[k]);
    }
  }

  /** `Object.entries(grouped).map(...)`: one entry per key, in insertion order. */
  method DayEntries(order: seq<string>, acc: map<string, DayStats>) returns (days: seq<DayUsage>)
    requires forall d :: d in order ==> d in acc
    ensures |days| == |order|
    ensures forall k :: 0 <= k < |order| ==>
      days[k] == DayUsage(order[k], acc[order[k]].calls, acc[order[k]].characters)
  {
    days := [];
    var k := 0;
    while k < |order|
      invariant 0 <= k <= |order|
      invariant |days| == k
      invariant forall j :: 0 <= j < k ==>
        days[j] == DayUsage(order[j], acc[order[j]].calls, acc[order[j]].characters)
    {
      var st := acc[order[k]];
      days := days + [DayUsage(order[k], st.calls, st.characters)];
      k := k + 1;
    }
  }

  /** `getApiUsageAnalytics`: nothing on an error, the grouping of the rows otherwise. */
  method ApiUsageAnalytics(fetch: Fetch<seq<UsageRow>>) returns (days: seq<DayUsage>)
    ensures fetch.Failed? ==> days == []
    ensures fetch.Fetched? ==> days == DailyUsage(RowsOr(fetch.data))
  {
    match fetch
    case Failed =>
      days := [];
    case Fetched(data) =>
      days := GroupByDate(RowsOr(data));
  }

  /** `data || []` */
  function RowsOr<T>(data: Option<seq<T>>): seq<T> {
    match data
    case None => []
    case Some(rows) => rows
  }

  function SumCalls(days: seq<DayUsage>): nat
    decreases |days|
  {
    if days == [] then 0 else SumCalls(days[..|days| - 1]) + days[|days| - 1].calls
  }

  function SumCharacters(days: seq<DayUsage>): nat
    decreases |days|
  {
    if days == [] then 0 else SumCharacters(days[..|days| - 1]) + days[|days| - 1].characters
  }

  function TotalCharacters(rows: seq<UsageRow>): nat
    decreases |rows|
  {
    if rows == [] then 0 else TotalCharacters(rows[..|rows| - 1]) + Characters(rows[|rows| - 1])
  }

  /** Sum over the given days of the characters of their rows. */
  function SumCharactersOn(keys: seq<string>, rows: seq<UsageRow>): nat
    decreases |keys|
  {
    if keys == [] then 0
    else SumCharactersOn(keys[..|keys| - 1], rows) + CharactersOn(rows, keys[|keys| - 1])
  }

  lemma {:induction false} SumCharactersOnExtend(keys: seq<string>, rows: seq<UsageRow>, row: UsageRow)
    requires NoDuplicates(keys)
    ensures SumCharactersOn(keys, rows + [row]) ==
      SumCharactersOn(keys, rows) + (if row.date in keys then Characters(row) else 0)
    decreases |keys|
  {
    if keys != [] {
      var init := keys[..|keys| - 1];
      SumCharactersOnExtend(init, rows, row);
      assert keys == init + [keys[|keys| - 1]];
      assert (rows + [row])[..|rows|] == rows;
    }
  }

  lemma {:induction false} SumCharactersOnDistinct(rows: seq<UsageRow>)
    ensures SumCharactersOn(Distinct(Dates(rows)), rows) == TotalCharacters(rows)
    decreases |rows|
  {
    if rows != [] {
      var init := rows[..|rows| - 1];
      var row := rows[|rows| - 1];
      assert rows == init + [row];
      assert Dates(rows) == Dates(init) + [row.date];
      var xs := Dates(rows);
      assert xs[..|xs| - 1] == Dates(init);
      var di := Distinct(Dates(init));
      SumCharactersOnDistinct(init);
      SumCharactersOnExtend(di, init, row);
      if row.date !in di {
        CharactersOnAbsent(init, row.date);
        var ds := di + [row.date];
        assert ds[..|ds| - 1] == di;
      }
    }
  }

  lemma {:induction false} DailyPrefixCalls(rows: seq<UsageRow>, k: nat)
    requires k <= |DailyUsage(rows)|
    ensures SumCalls(DailyUsage(rows)[..k]) == SumCounts(Distinct(Dates(rows))[..k], Dates(rows))
    decreases k
  {
    if k > 0 {
      DailyPrefixCalls(rows, k - 1);
      var days, ds := DailyUsage(rows), Distinct(Dates(rows));
      assert days[..k][..k - 1] == days[..k - 1];
      assert ds[..k][..k - 1] == ds[..k - 1];
      assert SumCalls(days[..k]) == SumCalls(days[..k - 1]) + days[k - 1].calls;
      assert SumCounts(ds[..k], Dates(rows)) == SumCounts(ds[..k - 1], Dates(rows)) + multiset(Dates(rows))[ds[k - 1]];
      assert days[k - 1].calls == multiset(Dates(rows))[ds[k - 1]];
    }
  }

  lemma {:induction false} DailyPrefixCharacters(rows: seq<UsageRow>, k: nat)
    requires k <= |DailyUsage(rows)|
    ensures SumCharacters(DailyUsage(rows)[..k]) == SumCharactersOn(Distinct(Dates(rows))[..k], rows)
    decreases k
  {
    if k > 0 {
      DailyPrefixCharacters(rows, k - 1);
      var days, ds := DailyUsage(rows), Distinct(Dates(rows));
      assert days[..k][..k - 1] == days[..k - 1];
      assert ds[..k][..k - 1] == ds[..k - 1];
      assert SumCharacters(days[..k]) == SumCharacters(days[..k - 1]) + days[k - 1].characters;
      assert SumCharactersOn(ds[..k], rows) == SumCharactersOn(ds[..k - 1], rows) + CharactersOn(rows, ds[k - 1]);
      assert days[k - 1].characters == CharactersOn(rows, ds[k - 1]);
    }
  }

  /** Some entry of the analytics is for the day. */
  predicate HasDay(days: seq<DayUsage>, d: string) {
    exists k :: 0 <= k < |days| && days[k].date == d
  }

  /** The analytics have an entry for every day of the rows and for no other day. */
  lemma DailyUsageCoversRows(rows: seq<UsageRow>)
    ensures forall d :: d in Dates(rows) <==> HasDay(DailyUsage(rows), d)
  {
    var days, ds := DailyUsage(rows), Distinct(Dates(rows));
    forall d
      ensures d in Dates(rows) <==> HasDay(days, d)
    {
      if d in Dates(rows) {
        var k :| 0 <= k < |ds| && ds[k] == d;
        assert days[k].date == d;
      }
      if HasDay(days, d) {
        var k :| 0 <= k < |days| && days[k].date == d;
        assert ds[k] == d;
      }
    }
  }

  /**
   * The analytics list each day once, in the order the days first occur,
   * with that day's number of rows and sum of characters.
   */
  lemma DailyUsageOrderAndTotals(rows: seq<UsageRow>)
    ensures var days := DailyUsage(rows);
      && (forall i, j :: 0 <= i < j < |days| ==> days[i].date != days[j].date)
      && (forall i, j :: 0 <= i < j < |days| ==>
            FirstIndex(Dates(rows), days[i].date) < FirstIndex(Dates(rows), days[j].date))
      && (forall k :: 0 <= k < |days| ==>
            days[k].calls == multiset(Dates(rows))[days[k].date] &&
            days[k].characters == CharactersOn(rows, days[k].date))
  {
    DistinctFirstSeen(Dates(rows));
  }

  /** Together the days count every row. */
  lemma DailyUsageCallsSum(rows: seq<UsageRow>)
    ensures SumCalls(DailyUsage(rows)) == |rows|
  {
    var days, ds := DailyUsage(rows), Distinct(Dates(rows));
    DailyPrefixCalls(rows, |days|);
    assert days[..|days|] == days;
    assert ds[..|ds|] == ds;
    SumCountsDistinct(Dates(rows));
  }

  /** Together the days' characters add up to the characters of all rows. */
  lemma DailyUsageCharactersSum(rows: seq<UsageRow>)
    ensures SumCharacters(DailyUsage(rows)) == TotalCharacters(rows)
  {
    var days, ds := DailyUsage(rows), Distinct(Dates(rows));
    DailyPrefixCharacters(rows, |days|);
    assert days[..|days|] == days;
    assert ds[..|ds|] == ds;
    SumCharactersOnDistinct(rows);
  }

  // ----- Endpoint breakdown (getEndpointUsage) -----

  /** An element of the endpoint breakdown. */
  datatype EndpointCount = EndpointCount(endpoint: string, count: nat)

  /** One entry per distinct endpoint, in first-seen order, with its number of occurrences. */
  function EndpointTally(endpoints: seq<string>): (tally: seq<EndpointCount>)
    ensures |tally| == |Distinct(endpoints)|
  {
    var es := Distinct(endpoints);
    seq(|es|, k requires 0 <= k < |es| => EndpointCount(es[k], multiset(endpoints)[es[k]]))
  }

  /** The dictionary of counts together with the order its keys were inserted in. */
  datatype Counts = Counts(order: seq<string>, acc: map<string, nat>)

  /** The reduce callback: the endpoint's count, or 0 when it is new, plus one. */
  function AddEndpoint(c: Counts, e: string): Counts {
    Counts(if e in c.acc then c.order else c.order + [e],
           c.acc[e := (if e in c.acc then c.acc[e] else 0) + 1])
  }

  /** The reduce over the endpoints, from the empty dictionary. */
  function CountRows(endpoints: seq<string>): Counts
    decreases |endpoints|
  {
    if endpoints == [] then Counts([], map[])
    else AddEndpoint(CountRows(endpoints[..|endpoints| - 1]), endpoints[|endpoints| - 1])
  }

  /** After the reduce, an endpoint has a key exactly when some row names it. */
  lemma {:induction false} CountRowsKeys(endpoints: seq<string>, e: string)
    ensures e in CountRows(endpoints).acc <==> e in endpoints
    decreases |endpoints|
  {
    if endpoints != [] {
      var init := endpoints[..|endpoints| - 1];
      CountRowsKeys(init, e);
      assert endpoints == init + [endpoints[|endpoints| - 1]];
    }
  }

  /** The keys of the reduce are inserted in the order their endpoints first occur. */
  lemma {:induction false} CountRowsOrder(endpoints: seq<string>)
    ensures CountRows(endpoints).order == Distinct(endpoints)
    decreases |endpoints|
  {
    if endpoints != [] {
      var init, e := endpoints[..|endpoints| - 1], endpoints[|endpoints| - 1];
      CountRowsOrder(init);
      CountRowsKeys(init, e);
      assert endpoints == init + [e];
      DistinctAppend(init, e);
    }
  }

  /** After the reduce, each endpoint's count is its number of occurrences. */
  lemma {:induction false} CountRowsCount(endpoints: seq<string>, e: string)
    requires e in CountRows(endpoints).acc
    ensures CountRows(endpoints).acc[e] == multiset(endpoints)[e]
    decreases |endpoints|
  {
    var init, last := endpoints[..|endpoints| - 1], endpoints[|endpoints| - 1];
    assert endpoints == init + [last];
    assert multiset(endpoints) == multiset(init) + multiset{last};
    CountRowsKeys(init, e);
    if e in CountRows(init).acc {
      CountRowsCount(init, e);
    }
  }

  /**
   * The reduce of `getEndpointUsage` and the `Object.entries` that follows:
   * one pass over the rows updating a dictionary of counts, then one entry
   * per key.
   */
  method CountByEndpoint(endpoints: seq<string>) returns (tally: seq<EndpointCount>)
    ensures tally == EndpointTally(endpoints)
  {
    var order: seq<string> := [];
    var acc: map<string, nat> := map[];
    var i := 0;
    while i < |endpoints|
      invariant 0 <= i <= |endpoints|
      invariant Counts(order, acc) == CountRows(endpoints[..i])
    {
      var e := endpoints[i];
      assert endpoints[..i + 1][..i] == endpoints[..i];
      if e !in acc {
        order := order + [e];
      }
      acc := acc[e := (if e in acc then acc[e] else 0) + 1];
      i := i + 1;
    }
    assert endpoints[..i] == endpoints;
    CountRowsOrder(endpoints);
    forall e | e in order
      ensures e in acc
    {
      CountRowsKeys(endpoints, e);
    }
    tally := EndpointEntries(order, acc);
    CountedEntries(endpoints, tally);
  }

  /** Listing the finished dictionary's entries in key order gives the tally. */
  lemma CountedEntries(endpoints: seq<string>, tally: seq<EndpointCount>)
    requires var c := CountRows(endpoints);
      && (forall e :: e in c.order ==> e in c.acc)
      && |tally| == |c.order|
      && forall k :: 0 <= k < |c.order| ==> tally[k] == EndpointCount(c.order[k], c.acc[c.order[k]])
    ensures tally == EndpointTally(endpoints)
  {
    var c, want := CountRows(endpoints), EndpointTally(endpoints);
    CountRowsOrder(endpoints);
    forall k | 0 <= k < |tally|
      ensures tally[k] == want[k]
    {
      CountRowsCount(endpoints, c.order[k]);
    }
  }

  /** `Object.entries(counts).map(...)`: one entry per key, in insertion order. */
  method EndpointEntries(order: seq<string>, acc: map<string, nat>) returns (tally: seq<EndpointCount>)
    requires forall e :: e in order ==> e in acc
    ensures |tally| == |order|
    ensures forall k :: 0 <= k < |order| ==> tally[k] == EndpointCount(order[k], acc[order[k]])
  {
    tally := [];
    var k := 0;
    while k < |order|
      invariant 0 <= k <= |order|
      invariant |tally| == k
      invariant forall j :: 0 <= j < k ==> tally[j] == EndpointCount(order[j], acc[order[j]])
    {
      tally := tally + [EndpointCount(order[k], acc[order[k]])];
      k := k + 1;
    }
  }

  /** Counts never increase along the sequence. */
  predicate NonIncreasing(xs: seq<EndpointCount>) {
    forall i, j :: 0 <= i < j < |xs| ==> xs[i].count >= xs[j].count
  }

  /** Places `x` after every entry whose count is at least its own. */
  function InsertByCount(x: EndpointCount, ys: seq<EndpointCount>): (r: seq<EndpointCount>)
    ensures multiset(r) == multiset(ys) + multiset{x}
    decreases |ys|
  {
    if ys == [] then [x]
    else if ys[0].count >= x.count then
      assert ys == [ys[0]] + ys[1..];
      [ys[0]] + InsertByCount(x, ys[1..])
    else
      [x] + ys
  }

  /** An entry whose count bounds both `x` and every entry of `ys` bounds all of their insertion. */
  lemma InsertBounded(x: EndpointCount, ys: seq<EndpointCount>, bound: nat)
    requires x.count <= bound
    requires forall k :: 0 <= k < |ys| ==> ys[k].count <= bound
    ensures forall k :: 0 <= k < |InsertByCount(x, ys)| ==> InsertByCount(x, ys)[k].count <= bound
  {
    var r := InsertByCount(x, ys);
    forall k | 0 <= k < |r|
      ensures r[k].count <= bound
    {
      assert r[k] in multiset(ys) + multiset{x};
      if r[k] != x {
        assert r[k] in ys;
      }
    }
  }

  /** An entry placed in front of a non-increasing sequence with no larger count keeps it non-increasing. */
  lemma PrependKeepsOrder(x: EndpointCount, ys: seq<EndpointCount>)
    requires NonIncreasing(ys)
    requires forall k :: 0 <= k < |ys| ==> ys[k].count <= x.count
    ensures NonIncreasing([x] + ys)
  {
    var r := [x] + ys;
    forall i, j | 0 <= i < j < |r|
      ensures r[i].count >= r[j].count
    {
      assert r[j] == ys[j - 1];
      if i > 0 {
        assert r[i] == ys[i - 1];
      }
    }
  }

  lemma {:induction false} InsertKeepsOrder(x: EndpointCount, ys: seq<EndpointCount>)
    requires NonIncreasing(ys)
    ensures NonIncreasing(InsertByCount(x, ys))
    decreases |ys|
  {
    if ys == [] {
    } else if ys[0].count >= x.count {
      InsertKeepsOrder(x, ys[1..]);
      InsertBounded(x, ys[1..], ys[0].count);
      PrependKeepsOrder(ys[0], InsertByCount(x, ys[1..]));
    } else {
      PrependKeepsOrder(x, ys);
    }
  }

  /**
   * `.sort((a, b) => b.count - a.count)`: a stable sort by count, largest
   * first; the result is a permutation of the input.
   */
  function SortByCount(xs: seq<EndpointCount>): (r: seq<EndpointCount>)
    ensures multiset(r) == multiset(xs)
    ensures NonIncreasing(r)
    decreases |xs|
  {
    if xs == [] then []
    else
      var init := xs[..|xs| - 1];
      assert xs == init + [xs[|xs| - 1]];
      InsertKeepsOrder(xs[|xs| - 1], SortByCount(init));
      InsertByCount(xs[|xs| - 1], SortByCount(init))
  }

  /** `getEndpointUsage`: nothing on an error, the sorted tally of the rows otherwise. */
  method EndpointUsage(fetch: Fetch<seq<string>>) returns (usage: seq<EndpointCount>)
    ensures fetch.Failed? ==> usage == []
    ensures fetch.Fetched? ==> usage == SortByCount(EndpointTally(RowsOr(fetch.data)))
  {
    match fetch
    case Failed =>
      usage := [];
    case Fetched(data) =>
      var tally := CountByEndpoint(RowsOr(data));
      usage := SortByCount(tally);
  }

  function TotalCount(xs: seq<EndpointCount>): nat
    decreases |xs|
  {
    if xs == [] then 0 else TotalCount(xs[..|xs| - 1]) + xs[|xs| - 1].count
  }

  lemma {:induction false} TotalCountAppend(a: seq<EndpointCount>, b: seq<EndpointCount>)
    ensures TotalCount(a + b) == TotalCount(a) + TotalCount(b)
    decreases |b|
  {
    if b == [] {
      assert a + b == a;
    } else {
      var ab := a + b;
      assert ab[..|ab| - 1] == a + b[..|b| - 1];
      TotalCountAppend(a, b[..|b| - 1]);
    }
  }

  lemma {:induction false} TotalCountInsert(x: EndpointCount, ys: seq<EndpointCount>)
    ensures TotalCount(InsertByCount(x, ys)) == TotalCount(ys) + x.count
    decreases |ys|
  {
    if ys == [] {
      assert TotalCount([x]) == TotalCount([x][..0]) + x.count;
    } else {
      assert ys == [ys[0]] + ys[1..];
      TotalCountAppend([ys[0]], ys[1..]);
      assert TotalCount([ys[0]]) == TotalCount([ys[0]][..0]) + ys[0].count;
      assert TotalCount([x]) == TotalCount([x][..0]) + x.count;
      if ys[0].count >= x.count {
        TotalCountInsert(x, ys[1..]);
        TotalCountAppend([ys[0]], InsertByCount(x, ys[1..]));
      } else {
        TotalCountAppend([x], ys);
      }
    }
  }

  lemma {:induction false} TotalCountSort(xs: seq<EndpointCount>)
    ensures TotalCount(SortByCount(xs)) == TotalCount(xs)
    decreases |xs|
  {
    if xs != [] {
      var init := xs[..|xs| - 1];
      TotalCountSort(init);
      TotalCountInsert(xs[|xs| - 1], SortByCount(init));
    }
  }

  lemma {:induction false} TallyPrefixTotal(endpoints: seq<string>, k: nat)
    requires k <= |EndpointTally(endpoints)|
    ensures TotalCount(EndpointTally(endpoints)[..k]) == SumCounts(Distinct(endpoints)[..k], endpoints)
    decreases k
  {
    if k > 0 {
      TallyPrefixTotal(endpoints, k - 1);
      var t, es := EndpointTally(endpoints), Distinct(endpoints);
      assert t[..k][..k - 1] == t[..k - 1];
      assert es[..k][..k - 1] == es[..k - 1];
    }
  }

  /** The tally holds one entry per distinct endpoint, so no entry twice. */
  lemma TallyNoDuplicates(endpoints: seq<string>)
    ensures NoDuplicates(EndpointTally(endpoints))
  {
    var tally, es := EndpointTally(endpoints), Distinct(endpoints);
    forall a, b | 0 <= a < b < |tally|
      ensures tally[a] != tally[b]
    {
      assert tally[a].endpoint == es[a] && tally[b].endpoint == es[b];
    }
  }

  /** Some entry of the breakdown is for the endpoint. */
  predicate Listed(usage: seq<EndpointCount>, e: string) {
    exists k :: 0 <= k < |usage| && usage[k].endpoint == e
  }

  /** An endpoint of the rows has an entry in the breakdown. */
  lemma EndpointListed(endpoints: seq<string>, e: string)
    requires e in endpoints
    ensures Listed(SortByCount(EndpointTally(endpoints)), e)
  {
    var tally := EndpointTally(endpoints);
    var usage := SortByCount(tally);
    var j :| 0 <= j < |Distinct(endpoints)| && Distinct(endpoints)[j] == e;
    assert tally[j] in multiset(usage);
    var k :| 0 <= k < |usage| && usage[k] == tally[j];
    assert usage[k].endpoint == e;
  }

  /** An entry of the breakdown is for an endpoint of the rows. */
  lemma ListedEndpoint(endpoints: seq<string>, e: string)
    requires Listed(SortByCount(EndpointTally(endpoints)), e)
    ensures e in endpoints
  {
    var tally := EndpointTally(endpoints);
    var usage := SortByCount(tally);
    var k :| 0 <= k < |usage| && usage[k].endpoint == e;
    assert usage[k] in multiset(tally);
    var j :| 0 <= j < |tally| && tally[j] == usage[k];
    assert e == Distinct(endpoints)[j];
  }

  /** Every endpoint of the rows has an entry in the breakdown, and every entry is one of them. */
  lemma EndpointUsageCoversRows(endpoints: seq<string>)
    ensures forall e :: e in endpoints <==> Listed(SortByCount(EndpointTally(endpoints)), e)
  {
    forall e
      ensures e in endpoints <==> Listed(SortByCount(EndpointTally(endpoints)), e)
    {
      if e in endpoints {
        EndpointListed(endpoints, e);
      }
      if Listed(SortByCount(EndpointTally(endpoints)), e) {
        ListedEndpoint(endpoints, e);
      }
    }
  }

  /** Each entry of the breakdown carries the number of occurrences of its endpoint. */
  lemma EndpointUsageCounts(endpoints: seq<string>)
    ensures var usage := SortByCount(EndpointTally(endpoints));
      forall k :: 0 <= k < |usage| ==> usage[k].count == multiset(endpoints)[usage[k].endpoint]
  {
    var usage := SortByCount(EndpointTally(endpoints));
    assert forall k :: 0 <= k < |usage| ==> usage[k] in multiset(EndpointTally(endpoints));
  }

  /** No endpoint has two entries in the breakdown. */
  lemma EndpointUsageListsEachOnce(endpoints: seq<string>)
    ensures var usage := SortByCount(EndpointTally(endpoints));
      forall i, j :: 0 <= i < j < |usage| ==> usage[i].endpoint != usage[j].endpoint
  {
    var tally := EndpointTally(endpoints);
    var usage := SortByCount(tally);
    EndpointUsageCounts(endpoints);
    TallyNoDuplicates(endpoints);
    forall i, j | 0 <= i < j < |usage|
      ensures usage[i].endpoint != usage[j].endpoint
    {
      if usage[i].endpoint == usage[j].endpoint {
        RepeatedCount(usage, i, j);
        NoDuplicatesCount(tally, usage[i]);
      }
    }
  }

  /** The counts of the endpoint breakdown add up to the number of rows. */
  lemma EndpointUsageTotal(endpoints: seq<string>)
    ensures TotalCount(SortByCount(EndpointTally(endpoints))) == |endpoints|
  {
    var tally := EndpointTally(endpoints);
    TotalCountSort(tally);
    TallyPrefixTotal(endpoints, |tally|);
    assert tally[..|tally|] == tally;
    assert Distinct(endpoints)[..|tally|] == Distinct(endpoints);
    SumCountsDistinct(endpoints);
  }

  // ----- Average response time (getAverageResponseTime) -----

  /**
   * `Math.round(total / n)` on exact quotients: the nearest integer, a tie
   * rounded up.
   */
  function RoundHalfUp(total: int, n: nat): (r: int)
    requires n > 0
    ensures 2 * n * r <= 2 * total + n < 2 * n * r + 2 * n
  {
    (2 * total + n) / (2 * n)
  }

  /** `item.response_time_ms || 0` */
  function Millis(v: Option<nat>): nat {
    match v
    case None => 0
    case Some(ms) => ms
  }

  function TotalMillis(times: seq<Option<nat>>): nat
    decreases |times|
  {
    if times == [] then 0 else Millis(times[0]) + TotalMillis(times[1..])
  }

  /**
   * The total of a concatenation is the sum of the totals, so summing from
   * the front gives what the reduce accumulates from the left.
   */
  lemma {:induction false} TotalMillisAppend(a: seq<Option<nat>>, b: seq<Option<nat>>)
    ensures TotalMillis(a + b) == TotalMillis(a) + TotalMillis(b)
    decreases |a|
  {
    if a == [] {
      assert a + b == b;
    } else {
      assert (a + b)[0] == a[0] && (a + b)[1..] == a[1..] + b;
      TotalMillisAppend(a[1..], b);
    }
  }

  /**
   * `getAverageResponseTime`: 0 on an error or when there are no rows;
   * otherwise the rounded mean, a missing time read as 0.
   */
  function AverageResponseTime(fetch: Fetch<seq<Option<nat>>>): (avg: nat)
    ensures avg != 0 ==> fetch.Fetched? && RowsOr(fetch.data) != []
    ensures fetch.Fetched? && RowsOr(fetch.data) != [] ==>
      var times := RowsOr(fetch.data);
      2 * |times| * avg <= 2 * TotalMillis(times) + |times| < 2 * |times| * avg + 2 * |times|
  {
    match fetch
    case Failed => 0
    case Fetched(None) => 0
    case Fetched(Some(times)) =>
      if |times| == 0 then 0
      else
        var r := RoundHalfUp(TotalMillis(times), |times|);
        MulMonotone(2 * |times|, r + 1, 0);
        r
  }

  function MinMillis(times: seq<Option<nat>>): nat
    requires times != []
    decreases |times|
  {
    if |times| == 1 then Millis(times[0])
    else var m := MinMillis(times[1..]); if Millis(times[0]) < m then Millis(times[0]) else m
  }

  function MaxMillis(times: seq<Option<nat>>): nat
    requires times != []
    decreases |times|
  {
    if |times| == 1 then Millis(times[0])
    else var m := MaxMillis(times[1..]); if Millis(times[0]) > m then Millis(times[0]) else m
  }

  lemma {:induction false} TotalAtLeast(times: seq<Option<nat>>)
    requires times != []
    ensures |times| * MinMillis(times) <= TotalMillis(times)
    decreases |times|
  {
    if |times| > 1 {
      var rest := times[1..];
      var m, m' := MinMillis(times), MinMillis(rest);
      TotalAtLeast(rest);
      MulMonotone(|rest|, m, m');
      MulSucc(|rest|, m);
    }
  }

  lemma {:induction false} TotalAtMost(times: seq<Option<nat>>)
    requires times != []
    ensures TotalMillis(times) <= |times| * MaxMillis(times)
    decreases |times|
  {
    if |times| > 1 {
      var rest := times[1..];
      var m, m' := MaxMillis(times), MaxMillis(rest);
      TotalAtMost(rest);
      MulMonotone(|rest|, m', m);
      MulSucc(|rest|, m);
    }
  }

  /** Rounding a mean keeps it between the smallest and the largest value. */
  lemma RoundBetween(total: int, n: nat, lo: int, hi: int)
    requires n > 0 && n * lo <= total <= n * hi
    ensures lo <= RoundHalfUp(total, n) <= hi
  {
    var r := RoundHalfUp(total, n);
    assert 2 * n * lo == 2 * (n * lo) && 2 * n * hi == 2 * (n * hi);
    assert 2 * n * lo < 2 * n * (r + 1);
    assert 2 * n * r < 2 * n * (hi + 1);
    MulMonotone(2 * n, r + 1, lo);
    MulMonotone(2 * n, hi + 1, r);
  }

  /** The average lies between the fastest and the slowest response. */
  lemma AverageBetweenFastestAndSlowest(times: seq<Option<nat>>)
    requires times != []
    ensures MinMillis(times) <= AverageResponseTime(Fetched(Some(times))) <= MaxMillis(times)
  {
    TotalAtLeast(times);
    TotalAtMost(times);
    RoundBetween(TotalMillis(times), |times|, MinMillis(times), MaxMillis(times));
  }
}
