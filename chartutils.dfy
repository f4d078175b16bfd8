/** The simple chart of the poll table: the names of the selected sources, and
    one line per party over the distinct poll dates of the selected
    institutions. Dates are kept as the strings the table holds and ordered as
    JavaScript orders strings with `>`. */
module ChartUtils {
  import opened Wrappers
  import Seqs
  import Engine

  // ------------------------------------------------------------ sources

  /** A poll source the user can switch on or off. */
  datatype SourceItem = SourceItem(code: string, name: string, value: bool)

  const DefaultSources: seq<SourceItem> := [
    SourceItem("taiwan_public_opinion_foundation", "台灣民意基金會", true),
    SourceItem("udn", "聯合報", true),
    SourceItem("quickseek", "影響力數據顧問（QuickseeK）", true),
    SourceItem("cmmedia", "匯流新聞網（精確）", true),
    SourceItem("media_storm", "鋒燦傳媒", true),
    SourceItem("apec", "中華亞太菁英交流協會", true),
    SourceItem("mirror_media", "菱傳媒", true),
    SourceItem("tvbs", "TVBS", true),
    SourceItem("zhen_media", "震傳媒", true)
  ]

  /** `getFilter`: the names of the sources switched on. */
  function GetFilter(sources: seq<SourceItem>): (r: seq<string>)
    ensures |r| <= |sources|
  {
    if sources == [] then []
    else
      var last := sources[|sources| - 1];
      GetFilter(sources[..|sources| - 1]) + (if last.value then [last.name] else [])
  }

  /** A name is in the filter exactly when some source switched on has it. */
  lemma {:induction false} GetFilterSelects(sources: seq<SourceItem>)
    ensures forall n :: n in GetFilter(sources) <==>
      exists i :: 0 <= i < |sources| && sources[i].value && sources[i].name == n
  {
    if sources != [] {
      var m := |sources| - 1;
      GetFilterSelects(sources[..m]);
      forall n ensures n in GetFilter(sources) <==>
        exists i :: 0 <= i < |sources| && sources[i].value && sources[i].name == n
      {
        if n in GetFilter(sources) && n !in GetFilter(sources[..m]) {
          assert sources[m].value && sources[m].name == n;
        }
        if exists i :: 0 <= i < |sources| && sources[i].value && sources[i].name == n {
          var i :| 0 <= i < |sources| && sources[i].value && sources[i].name == n;
          if i < m {
            assert sources[..m][i] == sources[i];
          }
        }
      }
    }
  }

  /** The filter keeps the order of the sources: the names of a list of
      sources are the names of its first part followed by those of the rest. */
  lemma {:induction false} GetFilterAppend(a: seq<SourceItem>, b: seq<SourceItem>)
    ensures GetFilter(a + b) == GetFilter(a) + GetFilter(b)
  {
    if b == [] {
      assert a + b == a;
    } else {
      var n := |b| - 1;
      assert (a + b)[..|a + b| - 1] == a + b[..n];
      GetFilterAppend(a, b[..n]);
    }
  }

  // ------------------------------------------------------- string order

  /** `a < b` on strings: the first differing character decides, and a
      proper prefix comes first. */
  predicate Less(a: string, b: string)
  {
    if a == [] then b != []
    else if b == [] then false
    else if a[0] != b[0] then a[0] < b[0]
    else Less(a[1..], b[1..])
  }

  lemma {:induction false} LessIrreflexive(a: string)
    ensures !Less(a, a)
  {
    if a != [] {
      LessIrreflexive(a[1..]);
    }
  }

  lemma {:induction false} LessTransitive(a: string, b: string, c: string)
    ensures Less(a, b) && Less(b, c) ==> Less(a, c)
  {
    if a != [] && b != [] && c != [] && a[0] == b[0] == c[0] {
      LessTransitive(a[1..], b[1..], c[1..]);
    }
  }

  lemma {:induction false} LessTotal(a: string, b: string)
    ensures a == b || Less(a, b) || Less(b, a)
  {
    if a != [] && b != [] && a[0] == b[0] {
      LessTotal(a[1..], b[1..]);
      if a[1..] == b[1..] {
        assert a == [a[0]] + a[1..] && b == [b[0]] + b[1..];
      }
    }
  }

  // ----------------------------------------------------- sorting by date

  /** A row of the poll table; a share the row lacks is `None`. */
  datatype ChartPoll = ChartPoll(institution: string, date: string, dpp: Option<real>, kmt: Option<real>, tpp: Option<real>)
  {
    function Share(p: Engine.Party): Option<real>
    {
      match p
      case Dpp => dpp
      case Kmt => kmt
      case Tpp => tpp
    }
  }

  // The date sort is its own insertion sort rather than `Sorting.SortBy`:
  // that one orders by a real-valued key, as the engine's subtracting
  // comparator does, while dates here are strings compared character by
  // character, which no real-valued key represents.

  /** No row is dated before an earlier one. */
  ghost predicate ByDate(s: seq<ChartPoll>)
  {
    forall i, j :: 0 <= i < j < |s| ==> !Less(s[j].date, s[i].date)
  }

  /** `x` placed before the first row dated after it. */
  function Insert(s: seq<ChartPoll>, x: ChartPoll): (r: seq<ChartPoll>)
    ensures multiset(r) == multiset(s) + multiset{x}
  {
    if s == [] then [x]
    else if Less(x.date, s[0].date) then [x] + s
    else
      assert s == [s[0]] + s[1..];
      [s[0]] + Insert(s[1..], x)
  }

  lemma {:induction false} InsertSorted(s: seq<ChartPoll>, x: ChartPoll)
    requires ByDate(s)
    ensures ByDate(Insert(s, x))
  {
    if s == [] {
    } else if Less(x.date, s[0].date) {
      forall j | 0 <= j < |s| ensures !Less(s[j].date, x.date) {
        LessTransitive(s[j].date, x.date, s[0].date);
        LessIrreflexive(s[0].date);
      }
    } else {
      var rest := Insert(s[1..], x);
      InsertSorted(s[1..], x);
      forall e | e in rest ensures !Less(e.date, s[0].date) {
        assert e in multiset(rest);
        if e != x {
          assert e in multiset(s[1..]);
          var k :| 0 <= k < |s[1..]| && s[1..][k] == e;
          assert s[k + 1] == e;
        }
      }
      ConsSorted(s[0], rest);
    }
  }

  /** A row dated no later than any of a sorted list goes in front of it. */
  lemma ConsSorted(h: ChartPoll, rest: seq<ChartPoll>)
    requires ByDate(rest)
    requires forall e :: e in rest ==> !Less(e.date, h.date)
    ensures ByDate([h] + rest)
  {
    var r := [h] + rest;
    forall i, j | 0 <= i < j < |r| ensures !Less(r[j].date, r[i].date) {
      assert r[j] == rest[j - 1];
      if i > 0 {
        assert r[i] == rest[i - 1];
      }
    }
  }

  /** Sorting by date string. The source's comparator puts the first row
      after the second when its date is greater, and before it otherwise; it
      never answers 0, so the order of rows with equal dates is the engine's; this
      insertion sort keeps them in their input order, and nothing proved of
      `GetData` depends on that choice. */
  function SortByDate(s: seq<ChartPoll>): (r: seq<ChartPoll>)
    ensures multiset(r) == multiset(s)
  {
    if s == [] then []
    else
      var init, last := s[..|s| - 1], s[|s| - 1];
      assert s == init + [last];
      Insert(SortByDate(init), last)
  }

  lemma {:induction false} SortByDateSorted(s: seq<ChartPoll>)
    ensures ByDate(SortByDate(s))
  {
    if s != [] {
      SortByDateSorted(s[..|s| - 1]);
      InsertSorted(SortByDate(s[..|s| - 1]), s[|s| - 1]);
    }
  }

  // --------------------------------------------------------- the dates

  function Dates(data: seq<ChartPoll>): (r: seq<string>)
  {
    seq(|data|, i requires 0 <= i < |data| => data[i].date)
  }

  /** The distinct strings, each at the place it first occurs, as a `Set`
      built from the list yields them. */
  function Dedup(s: seq<string>): (r: seq<string>)
    ensures forall x :: x in r <==> x in s
    ensures forall i, j :: 0 <= i < j < |r| ==> r[i] != r[j]
  {
    if s == [] then []
    else
      var d := Dedup(s[..|s| - 1]);
      assert s == s[..|s| - 1] + [s[|s| - 1]];
      if s[|s| - 1] in d then d else d + [s[|s| - 1]]
  }

  /** Without duplicates, a non-decreasing list becomes strictly ascending. */
  lemma {:induction false} DedupAscending(s: seq<string>)
    requires forall i, j :: 0 <= i < j < |s| ==> !Less(s[j], s[i])
    ensures forall i, j :: 0 <= i < j < |Dedup(s)| ==> Less(Dedup(s)[i], Dedup(s)[j])
  {
    if s != [] {
      var m := |s| - 1;
      var d := Dedup(s[..m]);
      DedupAscending(s[..m]);
      if s[m] !in d {
        var r := d + [s[m]];
        forall i | 0 <= i < |d| ensures Less(d[i], s[m]) {
          assert d[i] in s[..m];
          var k :| 0 <= k < m && s[..m][k] == d[i];
          assert !Less(s[m], s[k]);
          LessTotal(d[i], s[m]);
        }
        forall i, j | 0 <= i < j < |r| ensures Less(r[i], r[j]) {
          if j < |d| {
            assert r[i] == d[i] && r[j] == d[j];
          }
        }
      }
    }
  }

  // ------------------------------------------------------------ the chart

  /** The first row of that date, as `Array.prototype.find` returns it. */
  function Find(data: seq<ChartPoll>, date: string): (r: Option<ChartPoll>)
    ensures r.Some? ==> r.value in data && r.value.date == date
    ensures r.Some? ==>
      exists k :: 0 <= k < |data| && data[k] == r.value && (forall j :: 0 <= j < k ==> data[j].date != date)
    ensures r.None? ==> forall e :: e in data ==> e.date != date
  {
    if data == [] then None
    else if data[0].date == date then Some(data[0])
    else
      assert forall e :: e in data ==> e == data[0] || e in data[1..];
      var r := Find(data[1..], date);
      if r.Some? then
        var k :| 0 <= k < |data[1..]| && data[1..][k] == r.value
          && forall j :: 0 <= j < k ==> data[1..][j].date != date;
        assert data[k + 1] == r.value;
        assert forall j :: 0 <= j < k + 1 ==> data[j].date != date by {
          forall j | 0 <= j < k + 1 ensures data[j].date != date {
            if j > 0 {
              assert data[j] == data[1..][j - 1];
            }
          }
        }
        r
      else r
  }

  /** A party's value on a date: its share in the first row of that date,
      `null` when there is no such row or the row lacks the share. */
  function ValueOn(data: seq<ChartPoll>, date: string, party: Engine.Party): Option<real>
  {
    match Find(data, date)
    case None => None
    case Some(e) => e.Share(party)
  }

  /** A chart line: `type: 'line'`, `smooth: true`. */
  datatype LineSeries = LineSeries(name: string, kind: string, smooth: bool, data: seq<Option<real>>)

  datatype ChartData = ChartData(xAxis: seq<string>, series: seq<LineSeries>)

  /** A line named `name` with one value per axis date. */
  predicate Aligned(line: LineSeries, name: string, n: nat)
  {
    line.name == name && line.kind == "line" && line.smooth && |line.data| == n
  }

  function PartyLine(data: seq<ChartPoll>, dates: seq<string>, party: Engine.Party): (r: LineSeries)
    ensures Aligned(r, party.Name(), |dates|)
  {
    LineSeries(party.Name(), "line", true, seq(|dates|, i requires 0 <= i < |dates| => ValueOn(data, dates[i], party)))
  }

  /** The rows of the selected institutions, by date. */
  function Selected(raw: seq<ChartPoll>, filter: seq<string>): seq<ChartPoll>
  {
    SortByDate(Seqs.Filter(raw, (item: ChartPoll) => item.institution in filter))
  }

  /** `getData`: no chart for an empty table; otherwise the distinct dates of
      the selected rows and one line per party, "DPP", "KMT", "TPP", each with
      one value per date. */
  function GetData(raw: seq<ChartPoll>, filter: seq<string>): (r: ChartData)
    ensures raw == [] ==> r == ChartData([], [])
    ensures raw != [] ==>
      && |r.series| == 3
      && Aligned(r.series[0], (Engine.Dpp).Name(), |r.xAxis|)
      && Aligned(r.series[1], (Engine.Kmt).Name(), |r.xAxis|)
      && Aligned(r.series[2], (Engine.Tpp).Name(), |r.xAxis|)
  {
    if raw == [] then ChartData([], [])
    else
      var data := Selected(raw, filter);
      var dates := Dedup(Dates(data));
      ChartData(dates, [PartyLine(data, dates, Engine.Dpp), PartyLine(data, dates, Engine.Kmt), PartyLine(data, dates, Engine.Tpp)])
  }

  /** The selected rows are exactly the rows of the selected institutions. */
  lemma SelectedRows(raw: seq<ChartPoll>, filter: seq<string>)
    ensures forall e :: e in Selected(raw, filter) <==> e in raw && e.institution in filter
  {
    var kept := Seqs.Filter(raw, (item: ChartPoll) => item.institution in filter);
    forall e ensures e in Selected(raw, filter) <==> e in raw && e.institution in filter {
      Seqs.FilterCount(raw, (item: ChartPoll) => item.institution in filter, e);
      assert e in Selected(raw, filter) <==> e in multiset(Selected(raw, filter));
      assert e in kept <==> e in multiset(kept);
    }
  }

  /** The axis is strictly ascending, so it holds each date once. */
  lemma GetDataAscending(raw: seq<ChartPoll>, filter: seq<string>)
    ensures var x := GetData(raw, filter).xAxis;
      forall i, j :: 0 <= i < j < |x| ==> Less(x[i], x[j])
  {
    if raw != [] {
      SortByDateSorted(Seqs.Filter(raw, (item: ChartPoll) => item.institution in filter));
      DedupAscending(Dates(Selected(raw, filter)));
    }
  }

  /** The axis holds exactly the dates of the selected rows. */
  lemma GetDataDates(raw: seq<ChartPoll>, filter: seq<string>)
    ensures forall d :: d in GetData(raw, filter).xAxis <==>
      exists k :: 0 <= k < |raw| && raw[k].institution in filter && raw[k].date == d
  {
    if raw != [] {
      var data := Selected(raw, filter);
      var dates := Dates(data);
      SelectedRows(raw, filter);
      forall d ensures d in dates <==> exists k :: 0 <= k < |raw| && raw[k].institution in filter && raw[k].date == d {
        if d in dates {
          var i :| 0 <= i < |dates| && dates[i] == d;
          assert data[i] in data;
        }
        if exists k :: 0 <= k < |raw| && raw[k].institution in filter && raw[k].date == d {
          var k :| 0 <= k < |raw| && raw[k].institution in filter && raw[k].date == d;
          assert raw[k] in raw;
          var i :| 0 <= i < |data| && data[i] == raw[k];
          assert dates[i] == d;
        }
      }
    }
  }

  /** On each date of the axis, the three values are the shares of one
      selected row of that date, `null` where that row lacks a share. */
  lemma GetDataValues(raw: seq<ChartPoll>, filter: seq<string>)
    requires raw != []
    ensures var r := GetData(raw, filter);
      forall i :: 0 <= i < |r.xAxis| ==>
        exists k :: 0 <= k < |raw| && raw[k].institution in filter && raw[k].date == r.xAxis[i]
          && r.series[0].data[i] == raw[k].dpp
          && r.series[1].data[i] == raw[k].kmt
          && r.series[2].data[i] == raw[k].tpp
  {
    var r := GetData(raw, filter);
    var data := Selected(raw, filter);
    SelectedRows(raw, filter);
    forall i | 0 <= i < |r.xAxis|
      ensures exists k :: 0 <= k < |raw| && raw[k].institution in filter && raw[k].date == r.xAxis[i]
                && r.series[0].data[i] == raw[k].dpp
                && r.series[1].data[i] == raw[k].kmt
                && r.series[2].data[i] == raw[k].tpp
    {
      var date := r.xAxis[i];
      assert date in Dates(data);
      var j :| 0 <= j < |data| && Dates(data)[j] == date;
      assert data[j] in data;
      var e := Find(data, date).value;
      var k :| 0 <= k < |raw| && raw[k] == e;
    }
  }
}
