/** The forecast engine of `TaiwanPollingAlgorithm`: per-poll weights from
    recency, sample size and survey method; a weighted average; the structural
    bias correction and undecided redistribution; normalisation to 100; and the
    back-propagation of the correction onto every poll. */
module Engine {
  import opened Wrappers
  import opened Host
  import Seqs
  import Sorting
  import Numbers
  import Text

  const RecencyHalflife: real := 14.0
  const SampleBaseline: real := 1068.0
  const DefaultSample: real := 1000.0

  /** The methodology table, in declared order: the first key the method
      text contains decides the weight. */
  const MethodWeights: seq<(string, real)> := [
    ("手機簡訊", 1.45),
    ("網路", 1.35),
    ("市話+手機", 1.25),
    ("市話+網路", 1.2),
    ("手機", 1.3),
    ("市話", 0.75),
    ("unknown", 0.8)
  ]

  /** `METHOD_WEIGHTS['unknown']`, the weight when no key matches. */
  const UnknownMethodWeight: real := 0.8

  datatype Party = Dpp | Kmt | Tpp {
    /** The party's key in upper case, the label of its chart lines. */
    function Name(): string
    {
      match this
      case Dpp => "DPP"
      case Kmt => "KMT"
      case Tpp => "TPP"
    }
  }

  /** A three-way vote-share triple. */
  datatype Shares = Shares(dpp: real, kmt: real, tpp: real) {
    function Get(p: Party): real
    {
      match p
      case Dpp => dpp
      case Kmt => kmt
      case Tpp => tpp
    }

    function Sum(): real
    {
      dpp + kmt + tpp
    }
  }

  /** Baselines from the 2022 reference election. */
  const HistoryAverage := Shares(34.83, 37.4, 27.2)

  /** One input observation; `day` is the calendar day `date` denotes. */
  datatype PollData = PollData(
    institution: string,
    surveyMethod: string,
    sample: Option<real>,
    shares: Shares,
    date: string,
    day: Day)

  /** A poll as the engine reports it. `corrected` is `None` where the source
      divides zero by zero when re-normalising the poll (a NaN triple). */
  datatype WeightedPoll = WeightedPoll(
    original: Shares,
    corrected: Option<Shares>,
    weight: real,
    institution: string,
    surveyMethod: string,
    day: Day,
    daysAgo: int,
    sample: real,
    recencyWeight: real,
    sampleWeight: real,
    methodWeight: real)

  datatype Methodology = Methodology(
    totalPolls: nat,
    totalWeight: real,
    electionDay: Day,
    recencyHalflife: real,
    sampleBaseline: real)

  datatype Prediction = Prediction(
    predictions: Shares,
    methodology: Methodology,
    details: seq<WeightedPoll>)

  /** `EmptyInput` and `NoValidPolls` are the two errors the source throws;
      `DegenerateAverage` stands for a corrected average summing to zero before
      normalisation, where the source divides by zero and reports non-numbers. */
  datatype EngineError = EmptyInput | NoValidPolls | DegenerateAverage

  // ---------------------------------------------------------------- weights

  /** Exponential decay with a 14-day half-life. */
  function RecencyWeight(days: int, h: Host): real
  {
    h.exp((-days as real * h.ln2) / RecencyHalflife)
  }

  /** Every poll gets a positive recency weight. */
  lemma RecencyPositive(days: int, h: Host)
    requires Lawful(h)
    ensures RecencyWeight(days, h) > 0.0
  {
  }

  lemma RecencyAtElection(h: Host)
    requires Lawful(h)
    ensures RecencyWeight(0, h) == 1.0
  {
    assert (-0 as real * h.ln2) / RecencyHalflife == 0.0;
  }

  /** A poll 14 days old counts half as much as one on election day. */
  lemma RecencyHalfLife(h: Host)
    requires Lawful(h)
    ensures RecencyWeight(14, h) == 0.5
  {
    assert (-14 as real * h.ln2) / RecencyHalflife == -h.ln2;
  }

  /** Older polls weigh strictly less. */
  lemma RecencyDecreasing(d1: int, d2: int, h: Host)
    requires Lawful(h) && d1 < d2
    ensures RecencyWeight(d2, h) < RecencyWeight(d1, h)
  {
    var x1, x2 := (-d1 as real * h.ln2) / RecencyHalflife, (-d2 as real * h.ln2) / RecencyHalflife;
    assert x2 - x1 == (d1 - d2) as real * h.ln2 / RecencyHalflife;
    assert (d1 - d2) as real * h.ln2 < 0.0;
  }

  /** The sample size that is weighed: the reported one when it is present
      and positive, otherwise 1000. */
  function EffectiveSample(sample: Option<real>): real
  {
    if sample.Some? && sample.value > 0.0 then sample.value else DefaultSample
  }

  /** The one fact the forecast itself needs of the host: the divisor
      `Math.log10(1068)` is not zero. */
  ghost predicate WellDefined(h: Host)
  {
    h.log10(SampleBaseline) != 0.0
  }

  lemma LawfulWellDefined(h: Host)
    requires Lawful(h)
    ensures WellDefined(h)
  {
    assert h.log10(SampleBaseline) > h.log10(1.0);
  }

  /** Sub-linear sample weight, 1 at the baseline sample of 1068. */
  function SampleWeight(sample: Option<real>, h: Host): real
    requires WellDefined(h)
  {
    h.log10(EffectiveSample(sample)) / h.log10(SampleBaseline)
  }

  lemma SampleWeightAtBaseline(h: Host)
    requires Lawful(h)
    ensures SampleWeight(Some(SampleBaseline), h) == 1.0
  {
    var b := h.log10(SampleBaseline);
    assert b > h.log10(1.0);
    Numbers.ScaleBack(b, b, 1.0);
  }

  /** An absent or non-positive sample counts as a sample of 1000. */
  lemma SampleWeightDefault(sample: Option<real>, h: Host)
    requires Lawful(h)
    requires sample.None? || sample.value <= 0.0
    ensures SampleWeight(sample, h) == SampleWeight(Some(DefaultSample), h)
  {
  }

  /** Larger samples weigh more, and every sample above 1 weighs more than 0. */
  lemma SampleWeightIncreasing(s1: real, s2: real, h: Host)
    requires Lawful(h) && 1.0 < s1 < s2
    ensures 0.0 < SampleWeight(Some(s1), h) < SampleWeight(Some(s2), h)
  {
    var b := h.log10(SampleBaseline);
    assert b > h.log10(1.0);
    assert h.log10(1.0) < h.log10(s1) < h.log10(s2);
    Numbers.DivLess(h.log10(1.0), h.log10(s1), b);
    Numbers.DivLess(h.log10(s1), h.log10(s2), b);
  }

  /** The weight of the first table entry, from position `k` on, whose key
      the method text contains. */
  function MethodWeightFrom(surveyMethod: string, k: nat): real
    requires k <= |MethodWeights|
    decreases |MethodWeights| - k
  {
    if k == |MethodWeights| then UnknownMethodWeight
    else if Text.Contains(surveyMethod, MethodWeights[k].0) then MethodWeights[k].1
    else MethodWeightFrom(surveyMethod, k + 1)
  }

  function MethodWeight(surveyMethod: string): real
  {
    MethodWeightFrom(surveyMethod, 0)
  }

  /** First match wins: the weight is that of the first key, in declared
      order, that the method text contains. */
  lemma {:induction false} MethodWeightFirstMatch(surveyMethod: string, k: nat)
    requires k < |MethodWeights|
    requires Text.Contains(surveyMethod, MethodWeights[k].0)
    requires forall j :: 0 <= j < k ==> !Text.Contains(surveyMethod, MethodWeights[j].0)
    ensures MethodWeight(surveyMethod) == MethodWeights[k].1
  {
    var j := k;
    while j > 0
      invariant 0 <= j <= k
      invariant MethodWeightFrom(surveyMethod, j) == MethodWeights[k].1
    {
      j := j - 1;
    }
  }

  /** With no key contained, the weight is the `unknown` weight 0.8. */
  lemma {:induction false} MethodWeightNoMatch(surveyMethod: string)
    requires forall j :: 0 <= j < |MethodWeights| ==> !Text.Contains(surveyMethod, MethodWeights[j].0)
    ensures MethodWeight(surveyMethod) == UnknownMethodWeight
  {
    var j := |MethodWeights|;
    while j > 0
      invariant 0 <= j <= |MethodWeights|
      invariant MethodWeightFrom(surveyMethod, j) == UnknownMethodWeight
    {
      j := j - 1;
    }
  }

  /** The loop over the table with `break`: starts from the `unknown` weight and
      stops at the first contained key. */
  method LookupMethodWeight(surveyMethod: string) returns (w: real)
    ensures w == MethodWeight(surveyMethod)
  {
    w := UnknownMethodWeight;
    var k := 0;
    while k < |MethodWeights|
      invariant 0 <= k <= |MethodWeights|
      invariant MethodWeight(surveyMethod) == MethodWeightFrom(surveyMethod, k)
      invariant w == UnknownMethodWeight
    {
      if Text.Contains(surveyMethod, MethodWeights[k].0) {
        w := MethodWeights[k].1;
        break;
      }
      k := k + 1;
    }
  }

  /** A method text of exactly '市話+手機' gets the weight of its own table
      entry, 1.25: neither earlier key, '手機簡訊' nor '網路', occurs in it. */
  lemma MethodWeightLandlineMobile()
    ensures MethodWeight("市話+手機") == 1.25
  {
    var s := "市話+手機";
    Text.ContainsNeedsChar(s, MethodWeights[0].0, '簡');
    Text.ContainsNeedsChar(s, MethodWeights[1].0, '網');
    assert Text.IsPrefix(MethodWeights[2].0, s);
    MethodWeightFirstMatch(s, 2);
  }

  /** The table entry for '市話+網路' never applies: every method text that
      contains it also contains '網路', which comes earlier in the table. */
  lemma MethodWeightLandlineInternetShadowed(surveyMethod: string)
    ensures MethodWeight(surveyMethod) != 1.2
  {
    if Text.Contains(surveyMethod, MethodWeights[3].0) {
      assert MethodWeights[3].0[3..] == MethodWeights[1].0;
      Text.ContainsSuffix(surveyMethod, MethodWeights[3].0, 3);
    }
  }

  /** The weight of one accepted poll, with `corrected` left at the zero
      placeholder the source pushes. */
  function Weigh(p: PollData, electionDay: Day, h: Host): (w: WeightedPoll)
    requires WellDefined(h)
  {
    var days := electionDay - p.day;
    var rw := RecencyWeight(days, h);
    var sw := SampleWeight(p.sample, h);
    var mw := MethodWeight(p.surveyMethod);
    WeightedPoll(p.shares, Some(Shares(0.0, 0.0, 0.0)), rw * sw * mw, p.institution,
      p.surveyMethod, p.day, days, if p.sample.Some? then p.sample.value else 0.0, rw, sw, mw)
  }

  /** The composite weight is the product of its three factors. */
  lemma WeighComposite(p: PollData, electionDay: Day, h: Host)
    requires WellDefined(h)
    ensures var w := Weigh(p, electionDay, h);
      w.weight == w.recencyWeight * w.sampleWeight * w.methodWeight
      && w.recencyWeight == RecencyWeight(electionDay - p.day, h)
      && w.sampleWeight == SampleWeight(p.sample, h)
      && w.methodWeight == MethodWeight(p.surveyMethod)
  {
  }

  /** A poll whose effective sample exceeds 1 gets a positive weight. */
  lemma WeighPositive(p: PollData, electionDay: Day, h: Host)
    requires Lawful(h) && EffectiveSample(p.sample) > 1.0
    ensures Weigh(p, electionDay, h).weight > 0.0
  {
    var w := Weigh(p, electionDay, h);
    WeighComposite(p, electionDay, h);
    WeighFactorsPositive(p, electionDay, h);
    Numbers.ProductPositive(w.recencyWeight, w.sampleWeight, w.methodWeight);
  }

  /** Each of the three factors of a poll's weight is positive. */
  lemma WeighFactorsPositive(p: PollData, electionDay: Day, h: Host)
    requires Lawful(h) && EffectiveSample(p.sample) > 1.0
    ensures var w := Weigh(p, electionDay, h);
      w.recencyWeight > 0.0 && w.sampleWeight > 0.0 && w.methodWeight > 0.0
  {
    RecencyPositive(electionDay - p.day, h);
    SampleWeightPositive(p.sample, h);
    MethodWeightPositive(p.surveyMethod, 0);
  }

  /** A sample above one respondent weighs more than nothing. */
  lemma SampleWeightPositive(sample: Option<real>, h: Host)
    requires Lawful(h) && EffectiveSample(sample) > 1.0
    ensures SampleWeight(sample, h) > 0.0
  {
    LawfulWellDefined(h);
    var s := EffectiveSample(sample);
    assert SampleWeight(sample, h) == SampleWeight(Some(s), h);
    if s < SampleBaseline {
      SampleWeightIncreasing(s, SampleBaseline, h);
    } else if s > SampleBaseline {
      SampleWeightIncreasing(SampleBaseline, s, h);
    } else {
      SampleWeightAtBaseline(h);
    }
  }

  lemma {:induction false} MethodWeightPositive(surveyMethod: string, k: nat)
    requires k <= |MethodWeights|
    ensures MethodWeightFrom(surveyMethod, k) >= 0.75
    decreases |MethodWeights| - k
  {
    if k < |MethodWeights| {
      MethodWeightPositive(surveyMethod, k + 1);
    }
  }

  // ------------------------------------------------------------- aggregation

  /** Polls dated on or before the election day; later ones are skipped. */
  function Accepted(polls: seq<PollData>, electionDay: Day): seq<PollData>
  {
    Seqs.Filter(polls, (p: PollData) => electionDay - p.day >= 0)
  }

  function WeighAll(polls: seq<PollData>, electionDay: Day, h: Host): (ws: seq<WeightedPoll>)
    requires WellDefined(h)
    ensures |ws| == |polls|
    ensures forall k :: 0 <= k < |ws| ==> ws[k] == Weigh(polls[k], electionDay, h)
  {
    if polls == [] then []
    else WeighAll(polls[..|polls| - 1], electionDay, h) + [Weigh(polls[|polls| - 1], electionDay, h)]
  }

  lemma {:induction false} WeighAllAppend(a: seq<PollData>, b: seq<PollData>, electionDay: Day, h: Host)
    requires WellDefined(h)
    ensures WeighAll(a + b, electionDay, h) == WeighAll(a, electionDay, h) + WeighAll(b, electionDay, h)
  {
  }

  /** The poll list the engine builds: one weighed entry per accepted poll. */
  function Weighed(polls: seq<PollData>, electionDay: Day, h: Host): seq<WeightedPoll>
    requires WellDefined(h)
  {
    WeighAll(Accepted(polls, electionDay), electionDay, h)
  }

  /** Weighing one more poll of a prefix: an accepted poll adds its entry,
      a poll after the election adds nothing. */
  lemma WeighedSnoc(polls: seq<PollData>, i: nat, electionDay: Day, h: Host)
    requires WellDefined(h) && i < |polls|
    ensures Weighed(polls[..i + 1], electionDay, h)
      == Weighed(polls[..i], electionDay, h)
        + (if electionDay - polls[i].day >= 0 then [Weigh(polls[i], electionDay, h)] else [])
  {
    Seqs.FilterSnoc(polls, i, (p: PollData) => electionDay - p.day >= 0);
    if electionDay - polls[i].day >= 0 {
      WeighAllAppend(Accepted(polls[..i], electionDay), [polls[i]], electionDay, h);
    }
  }

  /** `Σ weight`, accumulated in list order. */
  function TotalWeight(ws: seq<WeightedPoll>): real
  {
    if ws == [] then 0.0 else TotalWeight(ws[..|ws| - 1]) + ws[|ws| - 1].weight
  }

  /** `Σ weight · share` for one party, accumulated in list order. */
  function WeightedSum(ws: seq<WeightedPoll>, party: Party): real
  {
    if ws == [] then 0.0
    else WeightedSum(ws[..|ws| - 1], party) + ws[|ws| - 1].original.Get(party) * ws[|ws| - 1].weight
  }

  /** Appending a poll adds its weight and its weighted shares. */
  lemma SumsSnoc(ws: seq<WeightedPoll>, e: WeightedPoll, o: Shares, w: real)
    requires e.original == o && e.weight == w
    ensures TotalWeight(ws + [e]) == TotalWeight(ws) + w
    ensures WeightedSum(ws + [e], Dpp) == WeightedSum(ws, Dpp) + o.dpp * w
    ensures WeightedSum(ws + [e], Kmt) == WeightedSum(ws, Kmt) + o.kmt * w
    ensures WeightedSum(ws + [e], Tpp) == WeightedSum(ws, Tpp) + o.tpp * w
  {
    assert (ws + [e])[..|ws|] == ws;
  }

  /** The raw weighted averages. */
  function RawAverage(ws: seq<WeightedPoll>): Shares
    requires TotalWeight(ws) != 0.0
  {
    var t := TotalWeight(ws);
    Shares(WeightedSum(ws, Dpp) / t, WeightedSum(ws, Kmt) / t, WeightedSum(ws, Tpp) / t)
  }

  /** A poll with a positive weight and a share of `party` in `[lo, hi]`. */
  ghost predicate ShareWithin(p: WeightedPoll, party: Party, lo: real, hi: real)
  {
    p.weight > 0.0 && lo <= p.original.Get(party) <= hi
  }

  /** With positive weights, the weighted average of a party's shares lies
      between the smallest and the largest of them. */
  lemma {:induction false} WeightedSumBounds(ws: seq<WeightedPoll>, party: Party, lo: real, hi: real)
    requires forall k :: 0 <= k < |ws| ==> ShareWithin(ws[k], party, lo, hi)
    ensures ws == [] ==> TotalWeight(ws) == 0.0 && WeightedSum(ws, party) == 0.0
    ensures ws != [] ==> TotalWeight(ws) > 0.0 && lo <= WeightedSum(ws, party) / TotalWeight(ws) <= hi
  {
    if ws != [] {
      var init, last := ws[..|ws| - 1], ws[|ws| - 1];
      assert ShareWithin(last, party, lo, hi);
      WeightedSumBounds(init, party, lo, hi);
      Numbers.AverageStep(lo, hi, TotalWeight(init), WeightedSum(init, party), last.original.Get(party), last.weight,
        TotalWeight(ws), WeightedSum(ws, party));
    }
  }

  /** With positive weights, each raw average lies between the smallest and
      the largest share of its party. */
  lemma RawAverageWithinRange(ws: seq<WeightedPoll>, party: Party, lo: real, hi: real)
    requires ws != []
    requires forall k :: 0 <= k < |ws| ==> ShareWithin(ws[k], party, lo, hi)
    ensures TotalWeight(ws) > 0.0
    ensures lo <= RawAverage(ws).Get(party) <= hi
  {
    WeightedSumBounds(ws, party, lo, hi);
    RawAverageGet(ws, party);
  }

  /** Every share of the triple is a percentage, as sanitising makes it. */
  predicate InRange(s: Shares)
  {
    0.0 <= s.dpp <= 100.0 && 0.0 <= s.kmt <= 100.0 && 0.0 <= s.tpp <= 100.0
  }

  /** Each raw average is its party's weighted sum over the total weight. */
  lemma RawAverageGet(ws: seq<WeightedPoll>, party: Party)
    requires TotalWeight(ws) != 0.0
    ensures RawAverage(ws).Get(party) == WeightedSum(ws, party) / TotalWeight(ws)
  {
  }

  // -------------------------------------------------------------- correction

  /** Structural bias correction and undecided redistribution, before
      normalisation. The undecided share is 100 minus the three shares, and is
      not clamped. */
  function Adjust(raw: Shares): (r: Shares)
    ensures InRange(raw) ==> r.Sum() > 0.0
    ensures raw.Sum() == 100.0 && raw.kmt == HistoryAverage.kmt && raw.tpp == HistoryAverage.tpp ==> r == raw
  {
    var undecided := 100.0 - (raw.dpp + raw.kmt + raw.tpp);
    var delta := Shares(HistoryAverage.dpp - raw.dpp, HistoryAverage.kmt - raw.kmt,
      HistoryAverage.tpp - raw.tpp);
    var dppGain := undecided * 0.393;
    var kmtGain := undecided * 0.22 + delta.kmt * 0.203;
    var tppGain := undecided * 0.1 + delta.tpp * 0.52;
    Shares(raw.dpp + dppGain, raw.kmt + kmtGain, raw.tpp + tppGain)
  }

  /** Scales a triple to sum to 100, keeping the proportions. */
  function Normalize(t: Shares): (r: Shares)
    requires t.Sum() != 0.0
    ensures r.Sum() == 100.0
    ensures forall p :: r.Get(p) * t.Sum() == t.Get(p) * 100.0
  {
    var s := t.Sum();
    var r := Shares((t.dpp / s) * 100.0, (t.kmt / s) * 100.0, (t.tpp / s) * 100.0);
    assert r.Sum() == (t.dpp + t.kmt + t.tpp) / s * 100.0;
    assert (t.dpp + t.kmt + t.tpp) / s == 1.0;
    forall p ensures r.Get(p) * s == t.Get(p) * 100.0 {
      Numbers.ScaleBack(t.Get(p), s, 100.0);
    }
    r
  }

  /** The global per-party factors: final forecast over raw average; `None`
      where a raw average is zero and the source's factor is not finite. */
  function Factors(final: Shares, raw: Shares): (f: Option<Shares>)
    ensures f.Some? <==> raw.dpp != 0.0 && raw.kmt != 0.0 && raw.tpp != 0.0
    ensures f.Some? ==> forall p :: f.value.Get(p) * raw.Get(p) == final.Get(p)
  {
    if raw.dpp == 0.0 || raw.kmt == 0.0 || raw.tpp == 0.0 then None
    else Some(Shares(final.dpp / raw.dpp, final.kmt / raw.kmt, final.tpp / raw.tpp))
  }

  /** Scales a poll's original shares by the global factors and re-normalises
      the poll on its own. `None` stands for a non-finite triple. A poll gets
      it when its scaled shares sum to zero: the source then gives `NaN` for a
      zero share and ±Infinity for a non-zero one. Every poll gets it when a
      factor is not finite: the source's `NaN` is then certain only in that
      party's share. */
  function Correct(o: Shares, factors: Option<Shares>): (c: Option<Shares>)
    ensures c.None? <==> factors.None? || Scale(o, factors.value).Sum() == 0.0
    ensures c.Some? ==> c.value.Sum() == 100.0
    ensures c.Some? ==> forall p ::
      c.value.Get(p) * Scale(o, factors.value).Sum() == o.Get(p) * factors.value.Get(p) * 100.0
  {
    if factors.None? || Scale(o, factors.value).Sum() == 0.0 then None
    else Some(Normalize(Scale(o, factors.value)))
  }

  /** Each share multiplied by its party's factor. */
  function Scale(o: Shares, f: Shares): Shares
  {
    Shares(o.dpp * f.dpp, o.kmt * f.kmt, o.tpp * f.tpp)
  }

  function CorrectAll(ws: seq<WeightedPoll>, f: Option<Shares>): (r: seq<WeightedPoll>)
    ensures |r| == |ws|
    ensures forall k :: 0 <= k < |r| ==> r[k] == ws[k].(corrected := Correct(ws[k].original, f))
  {
    if ws == [] then []
    else CorrectAll(ws[..|ws| - 1], f) + [ws[|ws| - 1].(corrected := Correct(ws[|ws| - 1].original, f))]
  }

  /** The sort key: ordering by descending weight is ordering by ascending
      negated weight. */
  function DescendingWeight(w: WeightedPoll): real
  {
    -w.weight
  }

  // ---------------------------------------------------------------- forecast

  /** Everything `predictElection` computes, as one value. */
  function Forecast(polls: seq<PollData>, electionDay: Day, h: Host): Result<Prediction, EngineError>
    requires WellDefined(h)
  {
    if polls == [] then Failure(EmptyInput)
    else
      var ws := Weighed(polls, electionDay, h);
      var total := TotalWeight(ws);
      if total == 0.0 then Failure(NoValidPolls)
      else
        var raw := RawAverage(ws);
        var adjusted := Adjust(raw);
        if adjusted.Sum() == 0.0 then
          Failure(DegenerateAverage)
        else
          var final := Normalize(adjusted);
          Success(Report(ws, total, final, Factors(final, raw), electionDay))
  }

  /** The tail of `predictElection`: every poll corrected, the polls sorted
      by descending weight, and the rounded figures. */
  function Report(ws: seq<WeightedPoll>, total: real, final: Shares, factors: Option<Shares>, electionDay: Day): Prediction
  {
    var details := Sorting.SortBy(CorrectAll(ws, factors), DescendingWeight);
    Prediction(
      Shares(Numbers.ToFixed2(final.dpp), Numbers.ToFixed2(final.kmt), Numbers.ToFixed2(final.tpp)),
      Methodology(|details|, Numbers.ToFixed2(total), electionDay, RecencyHalflife, SampleBaseline),
      details)
  }

  /** The final shares before rounding: normalised adjusted raw averages. */
  function FinalShares(polls: seq<PollData>, electionDay: Day, h: Host): (final: Shares)
    requires WellDefined(h)
    requires Forecast(polls, electionDay, h).Success?
    ensures final.Sum() == 100.0
  {
    Normalize(Adjust(RawAverage(Weighed(polls, electionDay, h))))
  }

  /** The body of the first loop of `predictElection` for one accepted poll. */
  method WeighPoll(poll: PollData, electionDay: Day, h: Host) returns (entry: WeightedPoll)
    requires WellDefined(h)
    ensures entry == Weigh(poll, electionDay, h)
  {
    var days := electionDay - poll.day;
    var recencyWeight := RecencyWeight(days, h);
    var sampleWeight := SampleWeight(poll.sample, h);
    var methodWeight := LookupMethodWeight(poll.surveyMethod);
    var pollWeight := recencyWeight * sampleWeight * methodWeight;
    entry := WeightedPoll(poll.shares, Some(Shares(0.0, 0.0, 0.0)), pollWeight,
      poll.institution, poll.surveyMethod, poll.day, days,
      if poll.sample.Some? then poll.sample.value else 0.0,
      recencyWeight, sampleWeight, methodWeight);
  }

  /** The accumulation step of the first loop: adds one weighed poll to the
      running total weight and the three running weighted sums. */
  method AddEntry(pollDetails: seq<WeightedPoll>, entry: WeightedPoll, totalWeight: real, sums: Shares)
    returns (pollDetails': seq<WeightedPoll>, totalWeight': real, sums': Shares)
    requires totalWeight == TotalWeight(pollDetails)
    requires sums == Shares(WeightedSum(pollDetails, Dpp), WeightedSum(pollDetails, Kmt), WeightedSum(pollDetails, Tpp))
    ensures pollDetails' == pollDetails + [entry]
    ensures totalWeight' == TotalWeight(pollDetails')
    ensures sums' == Shares(WeightedSum(pollDetails', Dpp), WeightedSum(pollDetails', Kmt), WeightedSum(pollDetails', Tpp))
  {
    var poll, pollWeight := entry.original, entry.weight;
    SumsSnoc(pollDetails, entry, poll, pollWeight);
    pollDetails' := pollDetails + [entry];
    sums' := Shares(sums.dpp + poll.dpp * pollWeight, sums.kmt + poll.kmt * pollWeight, sums.tpp + poll.tpp * pollWeight);
    totalWeight' := totalWeight + pollWeight;
  }

  /** The first loop of `predictElection`: skips polls after the election,
      weighs the others, and accumulates the total weight and the three
      weighted sums. */
  method AccumulatePolls(polls: seq<PollData>, electionDay: Day, h: Host)
    returns (pollDetails: seq<WeightedPoll>, totalWeight: real, sums: Shares)
    requires WellDefined(h)
    ensures pollDetails == Weighed(polls, electionDay, h)
    ensures totalWeight == TotalWeight(pollDetails)
    ensures sums == Shares(WeightedSum(pollDetails, Dpp), WeightedSum(pollDetails, Kmt), WeightedSum(pollDetails, Tpp))
  {
    totalWeight := 0.0;
    pollDetails := [];
    sums := Shares(0.0, 0.0, 0.0);
    var i := 0;
    while i < |polls|
      invariant 0 <= i <= |polls|
      invariant pollDetails == Weighed(polls[..i], electionDay, h)
      invariant totalWeight == TotalWeight(pollDetails)
      invariant sums == Shares(WeightedSum(pollDetails, Dpp), WeightedSum(pollDetails, Kmt), WeightedSum(pollDetails, Tpp))
    {
      var poll := polls[i];
      WeighedSnoc(polls, i, electionDay, h);
      if electionDay - poll.day >= 0 {
        var entry := WeighPoll(poll, electionDay, h);
        pollDetails, totalWeight, sums := AddEntry(pollDetails, entry, totalWeight, sums);
      }
      i := i + 1;
    }
    assert polls[..i] == polls;
  }

  /** The body of the `forEach`: the corrected triple of one poll. */
  method CorrectPoll(p: WeightedPoll, factors: Option<Shares>) returns (q: WeightedPoll)
    ensures q == p.(corrected := Correct(p.original, factors))
  {
    if factors.None? {
      return p.(corrected := None);
    }
    var f := factors.value;
    var cDpp, cKmt, cTpp := p.original.dpp * f.dpp, p.original.kmt * f.kmt, p.original.tpp * f.tpp;
    var sum := cDpp + cKmt + cTpp;
    var corrected := if sum == 0.0 then None
      else Some(Shares((cDpp / sum) * 100.0, (cKmt / sum) * 100.0, (cTpp / sum) * 100.0));
    assert Shares(cDpp, cKmt, cTpp) == Scale(p.original, f);
    q := p.(corrected := corrected);
  }

  /** The `forEach` of `predictElection` that sets every poll's `corrected`
      triple in place. */
  method CorrectInPlace(details: array<WeightedPoll>, factors: Option<Shares>)
    modifies details
    ensures details[..] == CorrectAll(old(details[..]), factors)
  {
    ghost var before := details[..];
    var k := 0;
    while k < details.Length
      invariant 0 <= k <= details.Length
      invariant forall j :: 0 <= j < k ==> details[j] == before[j].(corrected := Correct(before[j].original, factors))
      invariant forall j :: k <= j < details.Length ==> details[j] == before[j]
    {
      details[k] := CorrectPoll(details[k], factors);
      k := k + 1;
    }
  }

  /** The middle of `predictElection`: bias correction and undecided
      redistribution, normalisation to 100, and the per-party factors;
      `None` where the source would divide by zero. */
  method CorrectAverages(raw: Shares) returns (r: Option<(Shares, Option<Shares>)>)
    ensures r.None? <==> Adjust(raw).Sum() == 0.0
    ensures r.Some? ==> r.value.0 == Normalize(Adjust(raw)) && r.value.1 == Factors(r.value.0, raw)
  {
    var undecided := 100.0 - (raw.dpp + raw.kmt + raw.tpp);
    var deltaKmt, deltaTpp := HistoryAverage.kmt - raw.kmt, HistoryAverage.tpp - raw.tpp;
    var dppGain := undecided * 0.393;
    var kmtGain := undecided * 0.22 + deltaKmt * 0.203;
    var tppGain := undecided * 0.1 + deltaTpp * 0.52;
    var finalDpp, finalKmt, finalTpp := raw.dpp + dppGain, raw.kmt + kmtGain, raw.tpp + tppGain;
    assert Shares(finalDpp, finalKmt, finalTpp) == Adjust(raw);
    var currentSum := finalDpp + finalKmt + finalTpp;
    if currentSum == 0.0 {
      return None;
    }
    finalDpp, finalKmt, finalTpp :=
      (finalDpp / currentSum) * 100.0, (finalKmt / currentSum) * 100.0, (finalTpp / currentSum) * 100.0;
    var final := Shares(finalDpp, finalKmt, finalTpp);
    assert final == Normalize(Adjust(raw));
    var factors := if raw.dpp == 0.0 || raw.kmt == 0.0 || raw.tpp == 0.0 then None
      else Some(Shares(finalDpp / raw.dpp, finalKmt / raw.kmt, finalTpp / raw.tpp));
    return Some((final, factors));
  }

  /** `predictElection`: one pass over the polls accumulating weights and
      weighted sums, the correction, an in-place pass setting `corrected`,
      and an in-place sort by descending weight. */
  method PredictElection(polls: seq<PollData>, electionDay: Day, h: Host)
    returns (r: Result<Prediction, EngineError>)
    requires WellDefined(h)
    ensures r == Forecast(polls, electionDay, h)
  {
    if |polls| == 0 {
      return Failure(EmptyInput);
    }
    var pollDetails, totalWeight, sums := AccumulatePolls(polls, electionDay, h);
    if totalWeight == 0.0 {
      return Failure(NoValidPolls);
    }
    var raw := Shares(sums.dpp / totalWeight, sums.kmt / totalWeight, sums.tpp / totalWeight);
    var correction := CorrectAverages(raw);
    if correction.None? {
      return Failure(DegenerateAverage);
    }
    var (final, factors) := correction.value;

    var pr := Publish(pollDetails, totalWeight, final, factors, electionDay);
    return Success(pr);
  }

  /** Corrects the weighed polls in place, sorts them by descending weight
      and rounds the figures for the report. */
  method Publish(pollDetails: seq<WeightedPoll>, totalWeight: real, final: Shares, factors: Option<Shares>, electionDay: Day)
    returns (pr: Prediction)
    ensures pr == Report(pollDetails, totalWeight, final, factors, electionDay)
  {
    var details := new WeightedPoll[|pollDetails|](k requires 0 <= k < |pollDetails| => pollDetails[k]);
    assert details[..] == pollDetails;
    CorrectInPlace(details, factors);
    Sorting.SortInPlace(details, DescendingWeight);
    pr := Prediction(
      Shares(Numbers.ToFixed2(final.dpp), Numbers.ToFixed2(final.kmt), Numbers.ToFixed2(final.tpp)),
      Methodology(details.Length, Numbers.ToFixed2(totalWeight), electionDay, RecencyHalflife, SampleBaseline),
      details[..]);
  }

  // ------------------------------------------------------ forecast properties

  /** `predictElection` throws on an empty list, and reports no valid polls
      when every poll is dated after the election. */
  lemma ForecastErrors(polls: seq<PollData>, electionDay: Day, h: Host)
    requires WellDefined(h)
    ensures polls == [] <==> Forecast(polls, electionDay, h) == Failure(EmptyInput)
    ensures polls != [] && (forall k :: 0 <= k < |polls| ==> polls[k].day > electionDay)
      ==> Forecast(polls, electionDay, h) == Failure(NoValidPolls)
  {
    var acc := Accepted(polls, electionDay);
    if polls != [] && (forall k :: 0 <= k < |polls| ==> polls[k].day > electionDay) {
      Seqs.FilterNone(polls, (p: PollData) => electionDay - p.day >= 0);
      assert Weighed(polls, electionDay, h) == [];
    }
  }

  /** A poll dated after the election has no influence on the forecast. */
  lemma PostElectionPollIgnored(xs: seq<PollData>, p: PollData, ys: seq<PollData>, electionDay: Day, h: Host)
    requires WellDefined(h)
    requires p.day > electionDay && xs + ys != []
    ensures Forecast(xs + [p] + ys, electionDay, h) == Forecast(xs + ys, electionDay, h)
  {
    var keep := (q: PollData) => electionDay - q.day >= 0;
    Seqs.FilterAppend(xs + [p], ys, keep);
    Seqs.FilterAppend(xs, [p], keep);
    Seqs.FilterAppend(xs, ys, keep);
    assert Seqs.Filter([p], keep) == [] by {
      assert [p][..0] == [];
    }
    assert Accepted(xs + [p] + ys, electionDay) == Accepted(xs + ys, electionDay);
  }

  /** With percentages for shares and samples above one respondent, some
      poll on or before the election day is all the forecast needs: the
      adjusted average cannot sum to zero, so `DegenerateAverage` never
      occurs. */
  lemma ForecastSucceeds(polls: seq<PollData>, electionDay: Day, h: Host)
    requires Lawful(h)
    requires exists k :: 0 <= k < |polls| && polls[k].day <= electionDay
    requires forall k :: 0 <= k < |polls| ==> InRange(polls[k].shares) && EffectiveSample(polls[k].sample) > 1.0
    ensures Forecast(polls, electionDay, h).Success?
  {
    LawfulWellDefined(h);
    var ws := Weighed(polls, electionDay, h);
    WeighedInRange(polls, electionDay, h);
    RawAverageInRange(ws);
    assert Adjust(RawAverage(ws)).Sum() > 0.0;
  }

  /** Under the same conditions, some poll is weighed and every weighed
      poll has a positive weight and percentages for shares. */
  lemma WeighedInRange(polls: seq<PollData>, electionDay: Day, h: Host)
    requires Lawful(h)
    requires exists k :: 0 <= k < |polls| && polls[k].day <= electionDay
    requires forall k :: 0 <= k < |polls| ==> InRange(polls[k].shares) && EffectiveSample(polls[k].sample) > 1.0
    ensures Weighed(polls, electionDay, h) != []
    ensures var ws := Weighed(polls, electionDay, h);
      forall i, party :: 0 <= i < |ws| ==> ShareWithin(ws[i], party, 0.0, 100.0)
  {
    LawfulWellDefined(h);
    var acc := Accepted(polls, electionDay);
    AcceptedNonEmpty(polls, electionDay);
    forall i | 0 <= i < |acc| ensures forall party :: ShareWithin(Weigh(acc[i], electionDay, h), party, 0.0, 100.0) {
      assert acc[i] in polls;
      WeighWithin(acc[i], electionDay, h);
    }
  }

  /** A poll on or before the election day is accepted. */
  lemma AcceptedNonEmpty(polls: seq<PollData>, electionDay: Day)
    requires exists k :: 0 <= k < |polls| && polls[k].day <= electionDay
    ensures Accepted(polls, electionDay) != []
  {
    var k :| 0 <= k < |polls| && polls[k].day <= electionDay;
    Seqs.FilterCount(polls, (p: PollData) => electionDay - p.day >= 0, polls[k]);
    assert polls[k] in multiset(Accepted(polls, electionDay));
  }

  /** One poll with percentage shares and a sample above one respondent
      weighs more than nothing and keeps its percentages. */
  lemma WeighWithin(p: PollData, electionDay: Day, h: Host)
    requires Lawful(h) && InRange(p.shares) && EffectiveSample(p.sample) > 1.0
    ensures forall party :: ShareWithin(Weigh(p, electionDay, h), party, 0.0, 100.0)
  {
    WeighPositive(p, electionDay, h);
  }

  /** Positive weights and percentage shares give a positive total weight
      and percentage raw averages. */
  lemma RawAverageInRange(ws: seq<WeightedPoll>)
    requires ws != []
    requires forall i, party :: 0 <= i < |ws| ==> ShareWithin(ws[i], party, 0.0, 100.0)
    ensures TotalWeight(ws) > 0.0 && InRange(RawAverage(ws))
  {
    RawAverageWithinRange(ws, Dpp, 0.0, 100.0);
    RawAverageWithinRange(ws, Kmt, 0.0, 100.0);
    RawAverageWithinRange(ws, Tpp, 0.0, 100.0);
  }

  /** The details are the corrected accepted polls, rearranged. */
  lemma ForecastDetailsPermutation(polls: seq<PollData>, electionDay: Day, h: Host)
    requires WellDefined(h)
    requires Forecast(polls, electionDay, h).Success?
    ensures var pr := Forecast(polls, electionDay, h).value;
      var ws := Weighed(polls, electionDay, h);
      && multiset(pr.details) == multiset(CorrectAll(ws, Factors(FinalShares(polls, electionDay, h), RawAverage(ws))))
      && pr.methodology.totalPolls == |pr.details| == |Accepted(polls, electionDay)|
  {
    var ws := Weighed(polls, electionDay, h);
    Sorting.SortByPermutes(CorrectAll(ws, Factors(FinalShares(polls, electionDay, h), RawAverage(ws))), DescendingWeight);
  }

  /** The details are ordered by non-increasing weight. */
  lemma ForecastDetailsSorted(polls: seq<PollData>, electionDay: Day, h: Host)
    requires WellDefined(h)
    requires Forecast(polls, electionDay, h).Success?
    ensures var d := Forecast(polls, electionDay, h).value.details;
      forall i, j :: 0 <= i < j < |d| ==> d[i].weight >= d[j].weight
  {
    var ws := Weighed(polls, electionDay, h);
    var d := Forecast(polls, electionDay, h).value.details;
    Sorting.SortBySorted(CorrectAll(ws, Factors(FinalShares(polls, electionDay, h), RawAverage(ws))), DescendingWeight);
    forall i, j | 0 <= i < j < |d| ensures d[i].weight >= d[j].weight {
      assert DescendingWeight(d[i]) <= DescendingWeight(d[j]);
    }
  }

  /** The polls of weight `w`, in their order. */
  function OfWeight(s: seq<WeightedPoll>, w: real): (r: seq<WeightedPoll>)
    ensures forall i :: 0 <= i < |r| ==> r[i].weight == w
  {
    Sorting.WithKey(s, DescendingWeight, -w)
  }

  /** The sort of the details is stable: polls of equal weight are reported
      in the order of the accepted polls they come from. */
  lemma ForecastDetailsStable(polls: seq<PollData>, electionDay: Day, h: Host, w: real)
    requires WellDefined(h)
    requires Forecast(polls, electionDay, h).Success?
    ensures var ws := Weighed(polls, electionDay, h);
      OfWeight(Forecast(polls, electionDay, h).value.details, w)
        == OfWeight(CorrectAll(ws, Factors(FinalShares(polls, electionDay, h), RawAverage(ws))), w)
  {
    var ws := Weighed(polls, electionDay, h);
    var c := CorrectAll(ws, Factors(FinalShares(polls, electionDay, h), RawAverage(ws)));
    assert Forecast(polls, electionDay, h).value.details == Sorting.SortBy(c, DescendingWeight);
    Sorting.SortByStable(c, DescendingWeight, -w);
  }

  /** A reported poll was dated on or before the election day, carries the
      product of its three weights, and has a corrected triple summing to 100
      unless re-normalising it divides zero by zero. */
  ghost predicate WellFormedDetail(d: WeightedPoll, electionDay: Day)
  {
    && d.daysAgo == electionDay - d.day >= 0
    && d.weight == d.recencyWeight * d.sampleWeight * d.methodWeight
    && (d.corrected.Some? ==> d.corrected.value.Sum() == 100.0)
  }

  lemma ForecastDetailsWellFormed(polls: seq<PollData>, electionDay: Day, h: Host)
    requires WellDefined(h)
    requires Forecast(polls, electionDay, h).Success?
    ensures forall d :: d in Forecast(polls, electionDay, h).value.details ==> WellFormedDetail(d, electionDay)
  {
    var ws := Weighed(polls, electionDay, h);
    var c := CorrectAll(ws, Factors(FinalShares(polls, electionDay, h), RawAverage(ws)));
    ForecastDetailsPermutation(polls, electionDay, h);
    CorrectedWellFormed(Accepted(polls, electionDay), electionDay, h, Factors(FinalShares(polls, electionDay, h), RawAverage(ws)));
    forall d | d in Forecast(polls, electionDay, h).value.details ensures d in c {
      assert d in multiset(c);
    }
  }

  lemma CorrectedWellFormed(acc: seq<PollData>, electionDay: Day, h: Host, f: Option<Shares>)
    requires WellDefined(h)
    requires forall k :: 0 <= k < |acc| ==> electionDay - acc[k].day >= 0
    ensures forall d :: d in CorrectAll(WeighAll(acc, electionDay, h), f) ==> WellFormedDetail(d, electionDay)
  {
    var c := CorrectAll(WeighAll(acc, electionDay, h), f);
    forall d | d in c ensures WellFormedDetail(d, electionDay) {
      var k :| 0 <= k < |c| && c[k] == d;
      WeighedPollWellFormed(acc[k], electionDay, h, f);
    }
  }

  lemma WeighedPollWellFormed(p: PollData, electionDay: Day, h: Host, f: Option<Shares>)
    requires WellDefined(h) && electionDay - p.day >= 0
    ensures WellFormedDetail(Weigh(p, electionDay, h).(corrected := Correct(p.shares, f)), electionDay)
  {
  }

  /** The rounded forecast shares sum to 100 within the rounding error. */
  lemma ForecastSumsToHundred(polls: seq<PollData>, electionDay: Day, h: Host)
    requires WellDefined(h)
    requires Forecast(polls, electionDay, h).Success?
    ensures var s := Forecast(polls, electionDay, h).value.predictions.Sum();
      99.985 <= s <= 100.015
  {
    var f := FinalShares(polls, electionDay, h);
    assert f.Sum() == 100.0;
  }

  // ------------------------------------------------------------- evaluation

  datatype Evaluation = Evaluation(dppError: real, kmtError: real, tppError: real, totalError: real)

  /** The unrounded absolute error of one party's prediction. */
  function Deviation(predictions: Shares, actual: Shares, p: Party): real
  {
    Numbers.Abs(predictions.Get(p) - actual.Get(p))
  }

  /** `evaluatePrediction`: absolute errors per party and in total, each
      rounded to hundredths with `Math.round`; the total rounds the sum of
      the unrounded errors. */
  function EvaluatePrediction(predictions: Shares, actual: Shares): (e: Evaluation)
    ensures e.dppError >= 0.0 && e.kmtError >= 0.0 && e.tppError >= 0.0 && e.totalError >= 0.0
    ensures Numbers.WholeCents(e.dppError) && Numbers.WholeCents(e.kmtError)
      && Numbers.WholeCents(e.tppError) && Numbers.WholeCents(e.totalError)
    ensures Deviation(predictions, actual, Dpp) - 0.005 < e.dppError <= Deviation(predictions, actual, Dpp) + 0.005
    ensures Deviation(predictions, actual, Kmt) - 0.005 < e.kmtError <= Deviation(predictions, actual, Kmt) + 0.005
    ensures Deviation(predictions, actual, Tpp) - 0.005 < e.tppError <= Deviation(predictions, actual, Tpp) + 0.005
    ensures var d := Deviation(predictions, actual, Dpp) + Deviation(predictions, actual, Kmt)
        + Deviation(predictions, actual, Tpp);
      d - 0.005 < e.totalError <= d + 0.005
  {
    Evaluation(
      Numbers.RoundCents(Numbers.Abs(predictions.dpp - actual.dpp)),
      Numbers.RoundCents(Numbers.Abs(predictions.kmt - actual.kmt)),
      Numbers.RoundCents(Numbers.Abs(predictions.tpp - actual.tpp)),
      Numbers.RoundCents(
        Numbers.Abs(predictions.dpp - actual.dpp) + Numbers.Abs(predictions.kmt - actual.kmt)
        + Numbers.Abs(predictions.tpp - actual.tpp)))
  }

  /** A prediction equal to the outcome has no error. */
  lemma EvaluateExact(actual: Shares)
    ensures EvaluatePrediction(actual, actual) == Evaluation(0.0, 0.0, 0.0, 0.0)
  {
  }

  /** The total error is not the sum of the rounded party errors: three
      deviations of 0.004 each round to 0 apiece, but their sum rounds to 0.01. */
  lemma TotalErrorRoundsTheSum()
    ensures var e := EvaluatePrediction(Shares(40.054, 33.494, 26.464), Shares(40.05, 33.49, 26.46));
      e.dppError + e.kmtError + e.tppError == 0.0 && e.totalError == 0.01
  {
    var e := EvaluatePrediction(Shares(40.054, 33.494, 26.464), Shares(40.05, 33.49, 26.46));
    assert Numbers.JsRound(0.004 * 100.0) == 0;
    assert Numbers.JsRound(0.012 * 100.0) == 1;
  }
}
