/** `getEnhancedChartData`: one point per poll day for each party, the
    weighted average of that day's corrected shares, ending in the forecast on
    the election day; beside them, dashed lines of the plain averages of the
    shares as reported. */
module EnhancedChart {
  import opened Wrappers
  import opened Host
  import Sorting
  import Numbers
  import Engine
  import Composables

  /** A chart value: a number, `null`, or `NaN`. */
  datatype Point = Value(v: real) | Missing | NotANumber

  /** One line of the chart; `dashed` lines are the raw averages. */
  datatype Series = Series(name: string, data: seq<Point>, width: nat, dashed: bool)

  datatype Chart = Chart(xAxis: seq<Day>, series: seq<Series>)

  const EmptyChart := Chart([], [])

  predicate Distinct(s: seq<Day>)
  {
    forall i, j :: 0 <= i < j < |s| ==> s[i] != s[j]
  }

  predicate Ascending(s: seq<Day>)
  {
    forall i, j :: 0 <= i < j < |s| ==> s[i] < s[j]
  }

  // ------------------------------------------------------ one day's polls

  /** The polls of `details` dated `day`, in their order. */
  function OnDay(details: seq<Engine.WeightedPoll>, day: Day): (r: seq<Engine.WeightedPoll>)
    ensures |r| <= |details|
  {
    if details == [] then []
    else
      var last := details[|details| - 1];
      OnDay(details[..|details| - 1], day) + (if last.day == day then [last] else [])
  }

  /** A day's polls are polls of `details`, all dated that day. */
  lemma {:induction false} OnDayElements(details: seq<Engine.WeightedPoll>, day: Day)
    ensures forall p :: p in OnDay(details, day) ==> p in details && p.day == day
  {
    if details != [] {
      OnDayElements(details[..|details| - 1], day);
    }
  }

  /** A day has polls exactly when some poll is dated that day. */
  lemma {:induction false} OnDayNonEmpty(details: seq<Engine.WeightedPoll>, day: Day)
    ensures OnDay(details, day) != [] <==> exists k :: 0 <= k < |details| && details[k].day == day
  {
    if details != [] {
      var init := details[..|details| - 1];
      OnDayNonEmpty(init, day);
      if exists k :: 0 <= k < |init| && init[k].day == day {
        var k :| 0 <= k < |init| && init[k].day == day;
        assert details[k] == init[k];
      }
      if exists k :: 0 <= k < |details| && details[k].day == day {
        var k :| 0 <= k < |details| && details[k].day == day;
        if k < |init| {
          assert init[k] == details[k];
        }
      }
    }
  }

  /** The weighted total of the corrected shares; `None` once a poll without
      a corrected triple (a NaN one) has entered it. */
  function CorrectedTotal(g: seq<Engine.WeightedPoll>, party: Engine.Party): Option<real>
  {
    if g == [] then Some(0.0)
    else
      AddCorrected(CorrectedTotal(g[..|g| - 1], party), g[|g| - 1], party)
  }

  /** Adds a poll's corrected share of `party`, times its weight, to the
      running total; a `NaN` on either side gives `NaN`. */
  function AddCorrected(total: Option<real>, p: Engine.WeightedPoll, party: Engine.Party): Option<real>
  {
    if total.Some? && p.corrected.Some? then Some(total.value + p.corrected.value.Get(party) * p.weight)
    else None
  }

  /** The enhanced point of a day: the weighted mean of the corrected shares
      to two decimals, `NaN` when a corrected share is `NaN`, and `null` when
      the weights do not add up to something positive. */
  function DayPoint(g: seq<Engine.WeightedPoll>, party: Engine.Party): Point
  {
    if Engine.TotalWeight(g) > 0.0 then
      match CorrectedTotal(g, party)
      case None => NotANumber
      case Some(t) => Value(Numbers.ToFixed2(t / Engine.TotalWeight(g)))
    else Missing
  }

  function OriginalTotal(g: seq<Engine.WeightedPoll>, party: Engine.Party): real
  {
    if g == [] then 0.0 else OriginalTotal(g[..|g| - 1], party) + g[|g| - 1].original.Get(party)
  }

  /** The raw point of a day: the plain mean of the reported shares to two
      decimals (`0 / 0`, a `NaN`, for no polls). */
  function RawPoint(g: seq<Engine.WeightedPoll>, party: Engine.Party): Point
  {
    if g == [] then NotANumber else Value(Numbers.ToFixed2(OriginalTotal(g, party) / |g| as real))
  }

  /** A poll with a positive weight and a corrected share in `[lo, hi]`. */
  ghost predicate CorrectedWithin(p: Engine.WeightedPoll, party: Engine.Party, lo: real, hi: real)
  {
    p.weight > 0.0 && p.corrected.Some? && lo <= p.corrected.value.Get(party) <= hi
  }

  /** With positive weights and corrected shares in `[lo, hi]`, a day's
      enhanced point is a number in that range, up to rounding. */
  lemma DayPointWithinRange(g: seq<Engine.WeightedPoll>, party: Engine.Party, lo: real, hi: real)
    requires g != []
    requires forall k :: 0 <= k < |g| ==> CorrectedWithin(g[k], party, lo, hi)
    ensures DayPoint(g, party).Value?
    ensures lo - 0.005 <= DayPoint(g, party).v <= hi + 0.005
  {
    CorrectedTotalBounds(g, party, lo, hi);
    var t := CorrectedTotal(g, party).value;
    Numbers.DivBounds(lo, hi, t, Engine.TotalWeight(g));
  }

  lemma {:induction false} CorrectedTotalBounds(g: seq<Engine.WeightedPoll>, party: Engine.Party, lo: real, hi: real)
    requires forall k :: 0 <= k < |g| ==> CorrectedWithin(g[k], party, lo, hi)
    ensures CorrectedTotal(g, party).Some?
    ensures g != [] ==> Engine.TotalWeight(g) > 0.0
    ensures lo * Engine.TotalWeight(g) <= CorrectedTotal(g, party).value
    ensures CorrectedTotal(g, party).value <= hi * Engine.TotalWeight(g)
  {
    if g != [] {
      var init := g[..|g| - 1];
      assert CorrectedWithin(g[|g| - 1], party, lo, hi);
      CorrectedTotalBounds(init, party, lo, hi);
      CorrectedTotalStep(g, party, lo, hi, Engine.TotalWeight(init), CorrectedTotal(init, party).value);
    }
  }

  /** One poll more keeps the bounds of the weighted total. */
  lemma CorrectedTotalStep(g: seq<Engine.WeightedPoll>, party: Engine.Party, lo: real, hi: real, t: real, s: real)
    requires g != [] && CorrectedWithin(g[|g| - 1], party, lo, hi)
    requires Engine.TotalWeight(g[..|g| - 1]) == t && CorrectedTotal(g[..|g| - 1], party) == Some(s)
    requires lo * t <= s <= hi * t && (|g| == 1 ==> t == 0.0) && t >= 0.0
    ensures CorrectedTotal(g, party).Some?
    ensures Engine.TotalWeight(g) > 0.0
    ensures lo * Engine.TotalWeight(g) <= CorrectedTotal(g, party).value <= hi * Engine.TotalWeight(g)
  {
    var last := g[|g| - 1];
    var v, w := last.corrected.value.Get(party), last.weight;
    assert CorrectedTotal(g, party) == AddCorrected(Some(s), last, party);
    assert AddCorrected(Some(s), last, party).value == s + v * w;
    assert Engine.TotalWeight(g) == t + w;
    Numbers.WeightedStepLower(lo, t, s, v, w);
    Numbers.WeightedStepUpper(hi, t, s, v, w);
  }

  /** With reported shares in `[lo, hi]`, a day's raw point is a number in
      that range, up to rounding. */
  lemma RawPointWithinRange(g: seq<Engine.WeightedPoll>, party: Engine.Party, lo: real, hi: real)
    requires g != []
    requires forall k :: 0 <= k < |g| ==> lo <= g[k].original.Get(party) <= hi
    ensures RawPoint(g, party).Value?
    ensures lo - 0.005 <= RawPoint(g, party).v <= hi + 0.005
  {
    OriginalTotalBounds(g, party, lo, hi);
    Numbers.DivBounds(lo, hi, OriginalTotal(g, party), |g| as real);
  }

  lemma {:induction false} OriginalTotalBounds(g: seq<Engine.WeightedPoll>, party: Engine.Party, lo: real, hi: real)
    requires forall k :: 0 <= k < |g| ==> lo <= g[k].original.Get(party) <= hi
    ensures lo * |g| as real <= OriginalTotal(g, party) <= hi * |g| as real
  {
    if g != [] {
      OriginalTotalBounds(g[..|g| - 1], party, lo, hi);
      Numbers.WeightedStepLower(lo, (|g| - 1) as real, OriginalTotal(g[..|g| - 1], party), g[|g| - 1].original.Get(party), 1.0);
      Numbers.WeightedStepUpper(hi, (|g| - 1) as real, OriginalTotal(g[..|g| - 1], party), g[|g| - 1].original.Get(party), 1.0);
    }
  }

  /** The inner loop over one day's polls for one party. */
  method DayAverage(polls: seq<Engine.WeightedPoll>, party: Engine.Party) returns (pt: Point)
    ensures pt == DayPoint(polls, party)
  {
    var total: Option<real> := Some(0.0);
    var weight := 0.0;
    var i := 0;
    while i < |polls|
      invariant 0 <= i <= |polls|
      invariant total == CorrectedTotal(polls[..i], party)
      invariant weight == Engine.TotalWeight(polls[..i])
    {
      var p := polls[i];
      assert polls[..i + 1][..i] == polls[..i] && polls[..i + 1][i] == p;
      total := AddCorrected(total, p, party);
      weight := weight + p.weight;
      i := i + 1;
    }
    assert polls[..i] == polls;
    if weight > 0.0 {
      pt := if total.Some? then Value(Numbers.ToFixed2(total.value / weight)) else NotANumber;
    } else {
      pt := Missing;
    }
  }

  // ------------------------------------------------------------- grouping

  /** `groups` holds, for each day of `details`, that day's polls in order;
      `keys` lists those days once each. */
  ghost predicate Grouped(groups: map<Day, seq<Engine.WeightedPoll>>, keys: seq<Day>, details: seq<Engine.WeightedPoll>)
  {
    KeysListed(groups, keys) && GroupsOf(groups, details)
  }

  /** `keys` lists the days of `groups` once each. */
  ghost predicate KeysListed(groups: map<Day, seq<Engine.WeightedPoll>>, keys: seq<Day>)
  {
    (forall d :: d in groups <==> d in keys) && Distinct(keys)
  }

  /** `groups` holds, for each day of `details`, that day's polls in order. */
  ghost predicate GroupsOf(groups: map<Day, seq<Engine.WeightedPoll>>, details: seq<Engine.WeightedPoll>)
  {
    && (forall d :: d in groups <==> OnDay(details, d) != [])
    && (forall d :: d in groups ==> groups[d] == OnDay(details, d))
  }

  /** `groups`, keyed by poll day: each day's polls in order, with the days
      in the order they first appear. */
  method GroupByDay(details: seq<Engine.WeightedPoll>) returns (groups: map<Day, seq<Engine.WeightedPoll>>, keys: seq<Day>)
    ensures Grouped(groups, keys, details)
  {
    groups, keys := map[], [];
    var i := 0;
    while i < |details|
      invariant 0 <= i <= |details|
      invariant Grouped(groups, keys, details[..i])
    {
      var p := details[i];
      ghost var before, beforeKeys := groups, keys;
      if p.day !in groups {
        groups := groups[p.day := [p]];
        keys := keys + [p.day];
      } else {
        groups := groups[p.day := groups[p.day] + [p]];
      }
      GroupedSnoc(before, beforeKeys, details, i, groups, keys);
      i := i + 1;
    }
    assert details[..i] == details;
  }

  /** One more poll joins its day's group, opening it if it is new. */
  lemma GroupedSnoc(groups: map<Day, seq<Engine.WeightedPoll>>, keys: seq<Day>, details: seq<Engine.WeightedPoll>,
                    i: nat, groups': map<Day, seq<Engine.WeightedPoll>>, keys': seq<Day>)
    requires i < |details| && Grouped(groups, keys, details[..i])
    requires var p := details[i];
      if p.day !in groups then groups' == groups[p.day := [p]] && keys' == keys + [p.day]
      else groups' == groups[p.day := groups[p.day] + [p]] && keys' == keys
    ensures Grouped(groups', keys', details[..i + 1])
  {
    var p := details[i];
    assert groups' == groups[p.day := if p.day in groups then groups[p.day] + [p] else [p]];
    assert keys' == if p.day in groups then keys else keys + [p.day];
    GroupedKeys(groups, keys, p.day, groups', keys');
    GroupedPolls(groups, details, i, groups');
  }

  lemma GroupedKeys(groups: map<Day, seq<Engine.WeightedPoll>>, keys: seq<Day>, day: Day,
                    groups': map<Day, seq<Engine.WeightedPoll>>, keys': seq<Day>)
    requires KeysListed(groups, keys)
    requires forall d :: d in groups' <==> d in groups || d == day
    requires keys' == if day in groups then keys else keys + [day]
    ensures KeysListed(groups', keys')
  {
    if day !in groups {
      forall a, b | 0 <= a < b < |keys'| ensures keys'[a] != keys'[b] {
        if b == |keys| {
          assert keys'[a] == keys[a] && keys[a] in keys;
        } else {
          assert keys'[a] == keys[a] && keys'[b] == keys[b];
        }
      }
    }
  }

  lemma GroupedPolls(groups: map<Day, seq<Engine.WeightedPoll>>, details: seq<Engine.WeightedPoll>, i: nat,
                     groups': map<Day, seq<Engine.WeightedPoll>>)
    requires i < |details|
    requires GroupsOf(groups, details[..i])
    requires var p := details[i];
      groups' == groups[p.day := if p.day in groups then groups[p.day] + [p] else [p]]
    ensures GroupsOf(groups', details[..i + 1])
  {
    var post := details[..i + 1];
    forall d ensures d in groups' <==> OnDay(post, d) != [] {
      OnDaySnoc(details, i, d);
    }
    forall d | d in groups' ensures groups'[d] == OnDay(post, d) {
      OnDaySnoc(details, i, d);
    }
  }

  lemma OnDaySnoc(details: seq<Engine.WeightedPoll>, i: nat, d: Day)
    requires i < |details|
    ensures OnDay(details[..i + 1], d) == OnDay(details[..i], d) + (if details[i].day == d then [details[i]] else [])
  {
    assert details[..i + 1][..i] == details[..i];
  }

  function DayKey(d: Day): real
  {
    d as real
  }

  /** A value that occurs twice in a sequence is counted twice. */
  lemma RepeatCount(s: seq<Day>, i: nat, j: nat)
    requires i < j < |s| && s[i] == s[j]
    ensures multiset(s)[s[i]] >= 2
  {
    assert s == s[..j] + [s[j]] + s[j + 1..];
    assert s[i] in s[..j];
  }

  lemma {:induction false} DistinctCount(s: seq<Day>, x: Day)
    requires Distinct(s)
    ensures multiset(s)[x] <= 1
  {
    if s != [] {
      var init := s[..|s| - 1];
      DistinctCount(init, x);
      assert s == init + [s[|s| - 1]];
      if x == s[|s| - 1] {
        assert x !in init;
      }
    }
  }

  /** Sorting distinct days by time gives them in strictly ascending order. */
  lemma SortedDays(keys: seq<Day>)
    requires Distinct(keys)
    ensures var s := Sorting.SortBy(keys, DayKey);
      Ascending(s) && forall d :: d in s <==> d in keys
  {
    var s := Sorting.SortBy(keys, DayKey);
    Sorting.SortByPermutes(keys, DayKey);
    Sorting.SortBySorted(keys, DayKey);
    forall i, j | 0 <= i < j < |s| ensures s[i] < s[j] {
      assert DayKey(s[i]) <= DayKey(s[j]);
      if s[i] == s[j] {
        RepeatCount(s, i, j);
        DistinctCount(keys, s[i]);
      }
    }
    forall d ensures d in s <==> d in keys {
      assert d in s <==> d in multiset(s);
      assert d in keys <==> d in multiset(keys);
    }
  }

  /** The keys of the day groups, put in chronological order. */
  method SortDays(keys: seq<Day>) returns (dates: seq<Day>)
    requires Distinct(keys)
    ensures Ascending(dates)
    ensures forall d :: d in dates <==> d in keys
  {
    var a := new Day[|keys|](k requires 0 <= k < |keys| => keys[k]);
    assert a[..] == keys;
    Sorting.SortInPlace(a, DayKey);
    dates := a[..];
    SortedDays(keys);
  }

  // ---------------------------------------------------------------- lines

  /** `line` holds one enhanced point of `party` per date, each from that
      date's group. */
  predicate EnhancedLine(groups: map<Day, seq<Engine.WeightedPoll>>, dates: seq<Day>, line: seq<Point>, party: Engine.Party)
  {
    && |line| == |dates|
    && forall i :: 0 <= i < |dates| ==> dates[i] in groups && line[i] == DayPoint(groups[dates[i]], party)
  }

  /** `line` holds one raw point of `party` per date: the average of that
      date's group, `null` for a date without one. */
  predicate RawLine(groups: map<Day, seq<Engine.WeightedPoll>>, dates: seq<Day>, line: seq<Point>, party: Engine.Party)
  {
    && |line| == |dates|
    && forall i :: 0 <= i < |dates| ==>
         line[i] == (if dates[i] in groups then RawPoint(groups[dates[i]], party) else Missing)
  }

  /** "1. Per-date averages": one enhanced point per date and party. */
  method EnhancedLines(groups: map<Day, seq<Engine.WeightedPoll>>, dates: seq<Day>)
    returns (dpp: seq<Point>, kmt: seq<Point>, tpp: seq<Point>)
    requires Keyed(groups, dates)
    ensures EnhancedLine(groups, dates, dpp, Engine.Dpp)
    ensures EnhancedLine(groups, dates, kmt, Engine.Kmt)
    ensures EnhancedLine(groups, dates, tpp, Engine.Tpp)
  {
    dpp, kmt, tpp := [], [], [];
    var i := 0;
    while i < |dates|
      invariant 0 <= i <= |dates|
      invariant EnhancedLine(groups, dates[..i], dpp, Engine.Dpp)
      invariant EnhancedLine(groups, dates[..i], kmt, Engine.Kmt)
      invariant EnhancedLine(groups, dates[..i], tpp, Engine.Tpp)
    {
      var polls := groups[dates[i]];
      var v := DayAverage(polls, Engine.Dpp);
      dpp := dpp + [v];
      v := DayAverage(polls, Engine.Kmt);
      kmt := kmt + [v];
      v := DayAverage(polls, Engine.Tpp);
      tpp := tpp + [v];
      i := i + 1;
    }
    assert dates[..i] == dates;
  }

  /** The raw averages over the given dates, `null` for a date without a
      group. */
  method RawLines(groups: map<Day, seq<Engine.WeightedPoll>>, dates: seq<Day>)
    returns (dpp: seq<Point>, kmt: seq<Point>, tpp: seq<Point>)
    ensures RawLine(groups, dates, dpp, Engine.Dpp)
    ensures RawLine(groups, dates, kmt, Engine.Kmt)
    ensures RawLine(groups, dates, tpp, Engine.Tpp)
  {
    dpp, kmt, tpp := [], [], [];
    var i := 0;
    while i < |dates|
      invariant 0 <= i <= |dates|
      invariant RawLine(groups, dates[..i], dpp, Engine.Dpp)
      invariant RawLine(groups, dates[..i], kmt, Engine.Kmt)
      invariant RawLine(groups, dates[..i], tpp, Engine.Tpp)
    {
      if dates[i] !in groups {
        dpp, kmt, tpp := dpp + [Missing], kmt + [Missing], tpp + [Missing];
      } else {
        var polls := groups[dates[i]];
        dpp := dpp + [RawPoint(polls, Engine.Dpp)];
        kmt := kmt + [RawPoint(polls, Engine.Kmt)];
        tpp := tpp + [RawPoint(polls, Engine.Tpp)];
      }
      i := i + 1;
    }
    assert dates[..i] == dates;
  }

  /** What a chart of a forecast shows. The axis holds every poll day and the
      election day, strictly ascending, ending on the election day. There are
      three solid "(Enhanced)" lines, then three dashed "(Average)" lines. */
  ghost predicate DrawsForecast(c: Chart, pr: Engine.Prediction)
  {
    var n := |c.xAxis|;
    && n > 0
    && c.xAxis[n - 1] == ElectionDay
    && Ascending(c.xAxis)
    && (forall d :: d in c.xAxis <==> d == ElectionDay || OnDay(pr.details, d) != [])
    && |c.series| == 6
    && DrawsParty(c.xAxis, c.series[0], c.series[3], pr, Engine.Dpp)
    && DrawsParty(c.xAxis, c.series[1], c.series[4], pr, Engine.Kmt)
    && DrawsParty(c.xAxis, c.series[2], c.series[5], pr, Engine.Tpp)
  }

  /** The two lines of one party, one point per axis day. */
  ghost predicate DrawsParty(xAxis: seq<Day>, enhanced: Series, raw: Series, pr: Engine.Prediction, party: Engine.Party)
  {
    && enhanced == EnhancedSeries(party, enhanced.data)
    && raw == AverageSeries(party, raw.data)
    && DrawsEnhanced(xAxis, enhanced.data, pr, party)
    && DrawsRaw(xAxis, raw.data, pr, party)
  }

  /** Before the election day, each enhanced point is that day's `DayPoint`;
      on the election day it is the forecast. */
  ghost predicate DrawsEnhanced(xAxis: seq<Day>, data: seq<Point>, pr: Engine.Prediction, party: Engine.Party)
  {
    var n := |xAxis|;
    && n > 0
    && |data| == n
    && (forall i :: 0 <= i < n - 1 ==> data[i] == DayPoint(OnDay(pr.details, xAxis[i]), party))
    && data[n - 1] == Value(pr.predictions.Get(party))
  }

  /** Before the election day, each raw point is that day's `RawPoint`; on the
      election day it is `null`. */
  ghost predicate DrawsRaw(xAxis: seq<Day>, data: seq<Point>, pr: Engine.Prediction, party: Engine.Party)
  {
    var n := |xAxis|;
    && n > 0
    && |data| == n
    && (forall i :: 0 <= i < n - 1 ==> data[i] == RawPoint(OnDay(pr.details, xAxis[i]), party))
    && data[n - 1] == Missing
  }

  /** The solid line of a party's weighted daily averages. */
  function EnhancedSeries(party: Engine.Party, data: seq<Point>): Series
  {
    Series(party.Name() + " (Enhanced)", data, 3, false)
  }

  /** The dashed line of a party's raw daily averages. */
  function AverageSeries(party: Engine.Party, data: seq<Point>): Series
  {
    Series(party.Name() + " (Average)", data, 2, true)
  }

  /** The election-day sync of the axis: it gains the election day unless it
      already ends there. */
  predicate SyncedAxis(polled: seq<Day>, dates: seq<Day>)
  {
    dates == if |polled| == 0 || polled[|polled| - 1] != ElectionDay then polled + [ElectionDay] else polled
  }

  /** The election-day sync of an enhanced line: it gains, or ends with, the
      forecast, as the axis gains or ends with the election day. */
  predicate Synced(polled: seq<Day>, before: seq<Point>, after: seq<Point>, forecast: real)
    requires |before| == |polled|
  {
    if |polled| == 0 || polled[|polled| - 1] != ElectionDay then
      after == before + [Value(forecast)]
    else
      after == before[|before| - 1 := Value(forecast)]
  }

  /** Every day listed has a group. */
  predicate Keyed(groups: map<Day, seq<Engine.WeightedPoll>>, days: seq<Day>)
  {
    forall i :: 0 <= i < |days| ==> days[i] in groups
  }

  /** Grouping, sorting the days, and "1. Per-date averages". */
  method DailyLines(details: seq<Engine.WeightedPoll>)
    returns (groups: map<Day, seq<Engine.WeightedPoll>>, dates: seq<Day>, dpp: seq<Point>, kmt: seq<Point>, tpp: seq<Point>)
    ensures GroupsOf(groups, details)
    ensures forall d :: d in groups <==> d in dates
    ensures Ascending(dates)
    ensures Keyed(groups, dates)
    ensures EnhancedLine(groups, dates, dpp, Engine.Dpp)
    ensures EnhancedLine(groups, dates, kmt, Engine.Kmt)
    ensures EnhancedLine(groups, dates, tpp, Engine.Tpp)
  {
    var keys;
    groups, keys := GroupByDay(details);
    dates := SortDays(keys);
    assert forall i :: 0 <= i < |dates| ==> dates[i] in dates;
    dpp, kmt, tpp := EnhancedLines(groups, dates);
  }

  /** "2. Election Day Sync". */
  method SyncElectionDay(polled: seq<Day>, dpp: seq<Point>, kmt: seq<Point>, tpp: seq<Point>, forecast: Engine.Shares)
    returns (dates: seq<Day>, dpp': seq<Point>, kmt': seq<Point>, tpp': seq<Point>)
    requires |dpp| == |kmt| == |tpp| == |polled|
    ensures SyncedAxis(polled, dates)
    ensures Synced(polled, dpp, dpp', forecast.Get(Engine.Dpp))
    ensures Synced(polled, kmt, kmt', forecast.Get(Engine.Kmt))
    ensures Synced(polled, tpp, tpp', forecast.Get(Engine.Tpp))
  {
    if |polled| == 0 || polled[|polled| - 1] != ElectionDay {
      dates := polled + [ElectionDay];
      dpp' := dpp + [Value(forecast.Get(Engine.Dpp))];
      kmt' := kmt + [Value(forecast.Get(Engine.Kmt))];
      tpp' := tpp + [Value(forecast.Get(Engine.Tpp))];
    } else {
      dates := polled;
      dpp' := dpp[|dpp| - 1 := Value(forecast.Get(Engine.Dpp))];
      kmt' := kmt[|kmt| - 1 := Value(forecast.Get(Engine.Kmt))];
      tpp' := tpp[|tpp| - 1 := Value(forecast.Get(Engine.Tpp))];
    }
  }

  /** `getEnhancedChartData`: the chart of the forecast from the polls of
      the selected institutions, or the empty chart when no poll is selected
      or no forecast can be made of them. */
  method GetEnhancedChartData(data: seq<Option<Composables.RawPoll>>, selected: seq<string>, h: Host) returns (c: Chart)
    requires Engine.WellDefined(h)
    ensures var filtered := Composables.FilterByInstitutions(data, selected, h.parseDate);
            var pr := Composables.Predictions(Composables.LiftAll(filtered), h);
            if filtered == [] || pr.None? then c == EmptyChart else DrawsForecast(c, pr.value)
  {
    var filtered := Composables.FilterByInstitutions(data, selected, h.parseDate);
    if |filtered| == 0 {
      return EmptyChart;
    }
    var pr := Composables.GeneratePredictions(Composables.LiftAll(filtered), h);
    if pr.None? {
      return EmptyChart;
    }
    Composables.PredictionsWellFormed(Composables.LiftAll(filtered), h);
    c := Draw(pr.value);
  }

  /** The chart of a forecast, from its weighted polls. */
  method Draw(pr: Engine.Prediction) returns (c: Chart)
    requires forall d :: d in pr.details ==> d.day <= ElectionDay
    ensures DrawsForecast(c, pr)
  {
    var groups, polled, dpp0, kmt0, tpp0 := DailyLines(pr.details);
    var dates, dpp, kmt, tpp := SyncElectionDay(polled, dpp0, kmt0, tpp0, pr.predictions);
    DrawnAxis(pr, groups, polled, dates);
    SyncedEnhanced(pr, groups, polled, dates, Engine.Dpp, dpp0, dpp);
    SyncedEnhanced(pr, groups, polled, dates, Engine.Kmt, kmt0, kmt);
    SyncedEnhanced(pr, groups, polled, dates, Engine.Tpp, tpp0, tpp);
    var rawDpp, rawKmt, rawTpp := RawSeries(pr, groups, polled, dates);
    var series := [
      EnhancedSeries(Engine.Dpp, dpp), EnhancedSeries(Engine.Kmt, kmt), EnhancedSeries(Engine.Tpp, tpp),
      AverageSeries(Engine.Dpp, rawDpp), AverageSeries(Engine.Kmt, rawKmt), AverageSeries(Engine.Tpp, rawTpp)];
    c := Chart(dates, series);
    Assembled(c, pr, dpp, kmt, tpp, rawDpp, rawKmt, rawTpp);
  }

  /** "3. Raw average series": the raw averages over the poll days of the
      axis, padded with `null` for the election day. */
  method RawSeries(pr: Engine.Prediction, groups: map<Day, seq<Engine.WeightedPoll>>, polled: seq<Day>, dates: seq<Day>)
    returns (dpp: seq<Point>, kmt: seq<Point>, tpp: seq<Point>)
    requires GroupsOf(groups, pr.details)
    requires Keyed(groups, polled)
    requires SyncedAxis(polled, dates)
    ensures DrawsRaw(dates, dpp, pr, Engine.Dpp)
    ensures DrawsRaw(dates, kmt, pr, Engine.Kmt)
    ensures DrawsRaw(dates, tpp, pr, Engine.Tpp)
  {
    var pollDatesOnly := if ElectionDay in dates then dates[..|dates| - 1] else dates;
    PollDatesKeyed(groups, polled, dates, pollDatesOnly);
    var rawDpp, rawKmt, rawTpp := RawLines(groups, pollDatesOnly);
    PaddedRaw(pr, groups, dates, pollDatesOnly, Engine.Dpp, rawDpp);
    PaddedRaw(pr, groups, dates, pollDatesOnly, Engine.Kmt, rawKmt);
    PaddedRaw(pr, groups, dates, pollDatesOnly, Engine.Tpp, rawTpp);
    dpp, kmt, tpp := rawDpp + [Missing], rawKmt + [Missing], rawTpp + [Missing];
  }

  /** The six lines of `Draw` in chart order. */
  lemma Assembled(c: Chart, pr: Engine.Prediction, dpp: seq<Point>, kmt: seq<Point>, tpp: seq<Point>,
                  rawDpp: seq<Point>, rawKmt: seq<Point>, rawTpp: seq<Point>)
    requires c.series == [
      EnhancedSeries(Engine.Dpp, dpp), EnhancedSeries(Engine.Kmt, kmt), EnhancedSeries(Engine.Tpp, tpp),
      AverageSeries(Engine.Dpp, rawDpp), AverageSeries(Engine.Kmt, rawKmt), AverageSeries(Engine.Tpp, rawTpp)]
    requires |c.xAxis| > 0 && c.xAxis[|c.xAxis| - 1] == ElectionDay && Ascending(c.xAxis)
    requires forall d :: d in c.xAxis <==> d == ElectionDay || OnDay(pr.details, d) != []
    requires DrawsEnhanced(c.xAxis, dpp, pr, Engine.Dpp) && DrawsRaw(c.xAxis, rawDpp, pr, Engine.Dpp)
    requires DrawsEnhanced(c.xAxis, kmt, pr, Engine.Kmt) && DrawsRaw(c.xAxis, rawKmt, pr, Engine.Kmt)
    requires DrawsEnhanced(c.xAxis, tpp, pr, Engine.Tpp) && DrawsRaw(c.xAxis, rawTpp, pr, Engine.Tpp)
    ensures DrawsForecast(c, pr)
  {
  }

  /** The enhanced line after the sync, against the axis after the sync. */
  lemma SyncedEnhanced(pr: Engine.Prediction, groups: map<Day, seq<Engine.WeightedPoll>>, polled: seq<Day>,
                       dates: seq<Day>, party: Engine.Party, before: seq<Point>, after: seq<Point>)
    requires GroupsOf(groups, pr.details)
    requires EnhancedLine(groups, polled, before, party)
    requires SyncedAxis(polled, dates)
    requires Synced(polled, before, after, pr.predictions.Get(party))
    ensures DrawsEnhanced(dates, after, pr, party)
  {
    forall i | 0 <= i < |dates| - 1
      ensures after[i] == DayPoint(OnDay(pr.details, dates[i]), party)
    {
      assert dates[i] == polled[i] && after[i] == before[i];
    }
  }

  /** The days of the raw lines are the axis without its last day, the
      election day, and each has a group. */
  lemma PollDatesKeyed(groups: map<Day, seq<Engine.WeightedPoll>>, polled: seq<Day>, dates: seq<Day>, pollDatesOnly: seq<Day>)
    requires Keyed(groups, polled)
    requires SyncedAxis(polled, dates)
    requires pollDatesOnly == if ElectionDay in dates then dates[..|dates| - 1] else dates
    ensures |dates| > 0 && pollDatesOnly == dates[..|dates| - 1]
    ensures Keyed(groups, pollDatesOnly)
  {
    assert dates[|dates| - 1] == ElectionDay;
    forall i | 0 <= i < |pollDatesOnly| ensures pollDatesOnly[i] in groups {
      assert pollDatesOnly[i] == polled[i];
    }
  }

  /** A raw line padded with `null` for the election day, against the axis. */
  lemma PaddedRaw(pr: Engine.Prediction, groups: map<Day, seq<Engine.WeightedPoll>>, dates: seq<Day>,
                  pollDatesOnly: seq<Day>, party: Engine.Party, raw: seq<Point>)
    requires GroupsOf(groups, pr.details)
    requires |dates| > 0 && pollDatesOnly == dates[..|dates| - 1]
    requires Keyed(groups, pollDatesOnly)
    requires RawLine(groups, pollDatesOnly, raw, party)
    ensures DrawsRaw(dates, raw + [Missing], pr, party)
  {
    forall i | 0 <= i < |dates| - 1
      ensures (raw + [Missing])[i] == RawPoint(OnDay(pr.details, dates[i]), party)
    {
      assert pollDatesOnly[i] == dates[i] && dates[i] in groups;
    }
  }

  /** The axis of `Draw` and its correspondence with the groups. */
  lemma DrawnAxis(pr: Engine.Prediction, groups: map<Day, seq<Engine.WeightedPoll>>, polled: seq<Day>, dates: seq<Day>)
    requires forall d :: d in pr.details ==> d.day <= ElectionDay
    requires forall d :: d in groups <==> d in polled
    requires GroupsOf(groups, pr.details)
    requires Ascending(polled)
    requires SyncedAxis(polled, dates)
    ensures Ascending(dates) && |dates| > 0 && dates[|dates| - 1] == ElectionDay
    ensures forall d :: d in dates <==> d == ElectionDay || OnDay(pr.details, d) != []
  {
    PolledNotAfterElection(pr, groups, polled);
    if |polled| == 0 || polled[|polled| - 1] != ElectionDay {
      AscendingSnoc(polled, ElectionDay);
    }
    forall d ensures d in dates <==> d == ElectionDay || OnDay(pr.details, d) != [] {
      assert d in groups <==> OnDay(pr.details, d) != [];
    }
  }

  /** Every grouped day is a day of some poll, so none is after the election. */
  lemma PolledNotAfterElection(pr: Engine.Prediction, groups: map<Day, seq<Engine.WeightedPoll>>, polled: seq<Day>)
    requires forall d :: d in pr.details ==> d.day <= ElectionDay
    requires forall d :: d in groups <==> d in polled
    requires GroupsOf(groups, pr.details)
    ensures forall i :: 0 <= i < |polled| ==> polled[i] <= ElectionDay
  {
    forall i | 0 <= i < |polled| ensures polled[i] <= ElectionDay {
      var d := polled[i];
      assert d in groups;
      OnDayElements(pr.details, d);
      var g := OnDay(pr.details, d);
      assert g[0] in g;
    }
  }

  /** Appending a day later than or equal to all, and different from the last, keeps the order strict. */
  lemma AscendingSnoc(s: seq<Day>, x: Day)
    requires Ascending(s)
    requires forall i :: 0 <= i < |s| ==> s[i] <= x
    requires |s| == 0 || s[|s| - 1] != x
    ensures Ascending(s + [x])
  {
    var r := s + [x];
    forall i, j | 0 <= i < j < |r| ensures r[i] < r[j] {
      if j == |s| {
        assert r[i] == s[i] && s[i] <= x;
        assert i == |s| - 1 || s[i] < s[|s| - 1];
      }
    }
  }
}
