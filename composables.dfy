/** The prediction helpers of `usePollingPrediction`: sanitising raw poll
    records, normalising institution names, filtering by institution, and the
    two entry points that run the forecast engine on sanitised polls. */
module Composables {
  import opened Wrappers
  import opened Host
  import Seqs
  import Text
  import Engine

  /** A poll record as it arrives, before sanitising. `None` stands for a
      field that is absent or of the wrong kind (a date or institution that is
      not a string, a share that is not a finite number); an absent or empty
      method is the empty string. */
  datatype RawPoll = RawPoll(
    institution: Option<string>,
    surveyMethod: string,
    sample: Option<real>,
    dpp: Option<real>,
    kmt: Option<real>,
    tpp: Option<real>,
    date: Option<string>)

  /** The method a poll without one is taken to have used. */
  const DefaultMethod: string := "市話"

  /** A share clamped to the range from 0 to 100. */
  function Clamp(v: real): (r: real)
    ensures 0.0 <= r <= 100.0
    ensures 0.0 <= v <= 100.0 ==> r == v
    ensures v < 0.0 ==> r == 0.0
    ensures v > 100.0 ==> r == 100.0
  {
    if v > 100.0 then 100.0 else if v < 0.0 then 0.0 else v
  }

  /** The first filter of `sanitizePolls`: a present entry with a non-blank
      date string, a string institution and three finite shares. */
  predicate Admissible(e: Option<RawPoll>)
  {
    && e.Some?
    && e.value.date.Some? && Text.Trim(e.value.date.value) != []
    && e.value.institution.Some?
    && e.value.dpp.Some? && e.value.kmt.Some? && e.value.tpp.Some?
  }

  /** One entry through `sanitizePolls`: admitted, defaults filled in, shares
      clamped, and dropped when its date does not parse. */
  function SanitizeOne(e: Option<RawPoll>, parse: string -> Option<Day>): Option<Engine.PollData>
  {
    if !Admissible(e) then None
    else
      var p := e.value;
      match parse(p.date.value)
      case None => None
      case Some(day) =>
        Some(Engine.PollData(
          p.institution.value,
          if p.surveyMethod == [] then DefaultMethod else p.surveyMethod,
          Some(if p.sample.Some? && p.sample.value > 0.0 then p.sample.value else Engine.DefaultSample),
          Engine.Shares(Clamp(p.dpp.value), Clamp(p.kmt.value), Clamp(p.tpp.value)),
          p.date.value,
          day))
  }

  /** What every sanitised poll satisfies. */
  ghost predicate Clean(p: Engine.PollData, parse: string -> Option<Day>)
  {
    && 0.0 <= p.shares.dpp <= 100.0
    && 0.0 <= p.shares.kmt <= 100.0
    && 0.0 <= p.shares.tpp <= 100.0
    && p.surveyMethod != []
    && p.sample.Some? && p.sample.value > 0.0
    && Text.Trim(p.date) != []
    && parse(p.date) == Some(p.day)
  }

  /** `sanitizePolls`. */
  function Sanitize(data: seq<Option<RawPoll>>, parse: string -> Option<Day>): (r: seq<Engine.PollData>)
    ensures |r| <= |data|
    ensures forall k :: 0 <= k < |r| ==> Clean(r[k], parse)
  {
    if data == [] then []
    else
      var init := Sanitize(data[..|data| - 1], parse);
      match SanitizeOne(data[|data| - 1], parse)
      case None => init
      case Some(p) => init + [p]
  }

  /** An entry survives exactly when it is admissible and its date parses. */
  lemma SanitizeOneKeeps(e: Option<RawPoll>, parse: string -> Option<Day>)
    ensures SanitizeOne(e, parse).Some? <==> Admissible(e) && parse(e.value.date.value).Some?
  {
  }

  /** The values a surviving entry is given: the institution and date as
      they came, the method '市話' when none was given, the sample 1000 when
      it is missing or not positive, and each share clamped to 0–100. */
  lemma SanitizeOneValue(e: Option<RawPoll>, parse: string -> Option<Day>)
    requires SanitizeOne(e, parse).Some?
    ensures var q, p := SanitizeOne(e, parse).value, e.value;
      && q.institution == p.institution.value
      && q.date == p.date.value
      && parse(q.date) == Some(q.day)
      && q.surveyMethod == (if p.surveyMethod == [] then DefaultMethod else p.surveyMethod)
      && q.sample == Some(Engine.EffectiveSample(p.sample))
      && q.shares == Engine.Shares(Clamp(p.dpp.value), Clamp(p.kmt.value), Clamp(p.tpp.value))
  {
  }

  /** Every sanitised poll is what sanitising makes of some input entry. */
  lemma {:induction false} SanitizeFrom(data: seq<Option<RawPoll>>, parse: string -> Option<Day>)
    ensures var r := Sanitize(data, parse);
      forall k :: 0 <= k < |r| ==> exists j :: 0 <= j < |data| && SanitizeOne(data[j], parse) == Some(r[k])
  {
    if data != [] {
      var init := data[..|data| - 1];
      SanitizeFrom(init, parse);
      var r := Sanitize(data, parse);
      forall k | 0 <= k < |r| ensures exists j :: 0 <= j < |data| && SanitizeOne(data[j], parse) == Some(r[k]) {
        if k < |Sanitize(init, parse)| {
          assert r[k] == Sanitize(init, parse)[k];
          var j :| 0 <= j < |init| && SanitizeOne(init[j], parse) == Some(Sanitize(init, parse)[k]);
          assert data[j] == init[j];
        } else {
          assert SanitizeOne(data[|data| - 1], parse) == Some(r[k]);
        }
      }
    }
  }

  /** Sanitising a concatenation sanitises each part. */
  lemma {:induction false} SanitizeAppend(a: seq<Option<RawPoll>>, b: seq<Option<RawPoll>>, parse: string -> Option<Day>)
    ensures Sanitize(a + b, parse) == Sanitize(a, parse) + Sanitize(b, parse)
    decreases |b|
  {
    if b == [] {
      assert a + b == a;
    } else {
      var init, last := b[..|b| - 1], b[|b| - 1];
      SanitizeAppend(a, init, parse);
      Seqs.AppendSnoc(a, b);
      assert b == init + [last];
      SanitizeSnoc(a + init, last, parse);
      SanitizeSnoc(init, last, parse);
      var one := SanitizeOne(last, parse);
      Seqs.AppendAssoc(Sanitize(a, parse), Sanitize(init, parse), if one.Some? then [one.value] else []);
    }
  }

  /** One more entry adds its sanitised poll, if it survives. */
  lemma SanitizeSnoc(data: seq<Option<RawPoll>>, e: Option<RawPoll>, parse: string -> Option<Day>)
    ensures var one := SanitizeOne(e, parse);
      Sanitize(data + [e], parse) == Sanitize(data, parse) + (if one.Some? then [one.value] else [])
  {
    assert (data + [e])[..|data|] == data;
  }

  /** As many polls come out as there are entries that survive. */
  lemma {:induction false} SanitizeLength(data: seq<Option<RawPoll>>, parse: string -> Option<Day>)
    ensures |Sanitize(data, parse)| == |Seqs.Filter(data, (e: Option<RawPoll>) => SanitizeOne(e, parse).Some?)|
  {
    if data != [] {
      SanitizeLength(data[..|data| - 1], parse);
    }
  }

  /** A sanitised poll as a raw record again. */
  function Lift(p: Engine.PollData): Option<RawPoll>
  {
    Some(RawPoll(Some(p.institution), p.surveyMethod, p.sample,
      Some(p.shares.dpp), Some(p.shares.kmt), Some(p.shares.tpp), Some(p.date)))
  }

  function LiftAll(ps: seq<Engine.PollData>): (r: seq<Option<RawPoll>>)
    ensures |r| == |ps|
    ensures forall k :: 0 <= k < |ps| ==> r[k] == Lift(ps[k])
  {
    if ps == [] then [] else LiftAll(ps[..|ps| - 1]) + [Lift(ps[|ps| - 1])]
  }

  /** A clean poll passes through sanitising unchanged. */
  lemma SanitizeOneClean(p: Engine.PollData, parse: string -> Option<Day>)
    requires Clean(p, parse)
    ensures SanitizeOne(Lift(p), parse) == Some(p)
  {
  }

  /** Sanitising already sanitised polls changes nothing; this is what happens
      when the chart builder hands filtered polls back to `generatePredictions`. */
  lemma {:induction false} SanitizeIdempotent(ps: seq<Engine.PollData>, parse: string -> Option<Day>)
    requires forall k :: 0 <= k < |ps| ==> Clean(ps[k], parse)
    ensures Sanitize(LiftAll(ps), parse) == ps
  {
    if ps != [] {
      var init := ps[..|ps| - 1];
      SanitizeIdempotent(init, parse);
      SanitizeOneClean(ps[|ps| - 1], parse);
      assert LiftAll(ps)[..|ps| - 1] == LiftAll(init);
    }
  }

  // ------------------------------------------------------ institution names

  /** `normalizeInst`: removes full-width （…） groups, then ASCII (…) groups,
      then all white space, then trims. */
  function NormalizeInst(s: string): (r: string)
    ensures Text.HasNoWhitespace(r)
    ensures |r| <= |s|
  {
    Text.Trim(Text.RemoveWhitespace(Text.RemoveGroups(Text.RemoveGroups(s, '（', '）'), '(', ')')))
  }

  /** The normalised name holds no closed group of either kind. */
  lemma NormalizeInstNoGroups(s: string)
    ensures Text.NoClosedGroup(NormalizeInst(s), '（', '）')
    ensures Text.NoClosedGroup(NormalizeInst(s), '(', ')')
  {
    var a := Text.RemoveGroups(s, '（', '）');
    var b := Text.RemoveGroups(a, '(', ')');
    var c := Text.RemoveWhitespace(b);
    Text.RemoveGroupsKeepsNoClosedGroup(a, '(', ')', '（', '）');
    Text.FilterKeepsNoClosedGroup(b, Text.NotWhitespace, '（', '）');
    Text.FilterKeepsNoClosedGroup(b, Text.NotWhitespace, '(', ')');
    Text.TrimNoWhitespace(c);
  }

  /** A name with no opening parenthesis of either kind and no white space
      is its own normal form. */
  lemma NormalizeInstPlain(s: string)
    requires '（' !in s && '(' !in s && Text.HasNoWhitespace(s)
    ensures NormalizeInst(s) == s
  {
    Seqs.FilterAll(s, Text.NotWhitespace);
    Text.TrimNoWhitespace(s);
  }

  /** A full-width group is deleted whole: the text on both sides of it is
      normalised as if the group were not there. */
  lemma NormalizeInstDropsFullWidthGroup(a: string, g: string, t: string)
    requires '（' !in a && '）' !in g
    ensures NormalizeInst(a + ['（'] + g + ['）'] + t) == NormalizeInst(a + t)
  {
    assert a + ['（'] + g + ['）'] + t == a + (['（'] + g + ['）'] + t);
    Text.RemoveGroupsKeepsPrefix(a, ['（'] + g + ['）'] + t, '（', '）');
    Text.RemoveGroupsDropsGroup(g, t, '（', '）');
    Text.RemoveGroupsKeepsPrefix(a, t, '（', '）');
  }

  /** The same for an ASCII group, in a name with no full-width bracket. */
  lemma NormalizeInstDropsGroup(a: string, g: string, t: string)
    requires '（' !in a && '（' !in g && '（' !in t
    requires '(' !in a && ')' !in g
    ensures NormalizeInst(a + ['('] + g + [')'] + t) == NormalizeInst(a + t)
  {
    var s := a + ['('] + g + [')'] + t;
    assert s == a + (['('] + g + [')'] + t);
    assert '（' !in s;
    assert '（' !in a + t;
    Text.RemoveGroupsKeepsPrefix(a, ['('] + g + [')'] + t, '(', ')');
    Text.RemoveGroupsDropsGroup(g, t, '(', ')');
    Text.RemoveGroupsKeepsPrefix(a, t, '(', ')');
  }

  /** A plain name followed by a full-width note normalises to the name:
      `normalizeInst` strips the note and keeps the name. */
  lemma NormalizeInstStripsNote(a: string, g: string)
    requires '（' !in a && '(' !in a && Text.HasNoWhitespace(a)
    requires '）' !in g
    ensures NormalizeInst(a + ['（'] + g + ['）']) == a
  {
    NormalizeInstDropsFullWidthGroup(a, g, []);
    assert a + ['（'] + g + ['）'] + [] == a + ['（'] + g + ['）'];
    assert a + [] == a;
    NormalizeInstPlain(a);
  }

  /** Normalising twice is normalising once. */
  lemma NormalizeInstIdempotent(s: string)
    ensures NormalizeInst(NormalizeInst(s)) == NormalizeInst(s)
  {
    var n := NormalizeInst(s);
    NormalizeInstNoGroups(s);
    Text.RemoveGroupsUnchanged(n, '（', '）');
    Text.RemoveGroupsUnchanged(n, '(', ')');
    Seqs.FilterAll(n, Text.NotWhitespace);
    Text.TrimNoWhitespace(n);
  }

  /** Every selected institution name normalised, in order. */
  function NormalizeAll(names: seq<string>): (r: seq<string>)
    ensures |r| == |names|
    ensures forall k :: 0 <= k < |names| ==> r[k] == NormalizeInst(names[k])
  {
    seq(|names|, k requires 0 <= k < |names| => NormalizeInst(names[k]))
  }

  /** The loop over the selected names with an early return: some name is a
      prefix of `inst`. */
  predicate StartsWithSome(inst: string, names: seq<string>)
  {
    names != [] && (Text.IsPrefix(names[0], inst) || StartsWithSome(inst, names[1..]))
  }

  /** The filter's test: `inst` is one of the names, or starts with one. */
  predicate Matches(inst: string, names: seq<string>)
  {
    inst in names || StartsWithSome(inst, names)
  }

  /** A name matches exactly when some selected name equals it or is a
      prefix of it. */
  lemma {:induction false} MatchesIff(inst: string, names: seq<string>)
    ensures Matches(inst, names) <==> exists k :: 0 <= k < |names| && Text.IsPrefix(names[k], inst)
  {
    StartsWithSomeIff(inst, names);
    if inst in names {
      var k :| 0 <= k < |names| && names[k] == inst;
      assert inst[..|inst|] == inst;
      assert Text.IsPrefix(names[k], inst);
    }
  }

  lemma {:induction false} StartsWithSomeIff(inst: string, names: seq<string>)
    ensures StartsWithSome(inst, names) <==> exists k :: 0 <= k < |names| && Text.IsPrefix(names[k], inst)
  {
    if names != [] {
      StartsWithSomeIff(inst, names[1..]);
      if exists k :: 0 <= k < |names| && Text.IsPrefix(names[k], inst) {
        var k :| 0 <= k < |names| && Text.IsPrefix(names[k], inst);
        if k > 0 {
          assert names[1..][k - 1] == names[k];
        }
      }
      if StartsWithSome(inst, names[1..]) {
        var k :| 0 <= k < |names[1..]| && Text.IsPrefix(names[1..][k], inst);
        assert names[k + 1] == names[1..][k];
      }
    }
  }

  /** `filterByInstitutions`: the sanitised polls, narrowed to the selected
      institutions when any are selected. */
  function FilterByInstitutions(data: seq<Option<RawPoll>>, selected: seq<string>, parse: string -> Option<Day>)
    : (r: seq<Engine.PollData>)
    ensures selected == [] ==> r == Sanitize(data, parse)
    ensures forall k :: 0 <= k < |r| ==> Clean(r[k], parse)
  {
    var cleaned := Sanitize(data, parse);
    if selected == [] then cleaned
    else
      var names := NormalizeAll(selected);
      var r := Seqs.Filter(cleaned, (p: Engine.PollData) => Matches(NormalizeInst(p.institution), names));
      assert forall k :: 0 <= k < |r| ==> r[k] in cleaned;
      r
  }

  /** With a selection, the result keeps the sanitised polls in order. */
  lemma FilterByInstitutionsSubsequence(data: seq<Option<RawPoll>>, selected: seq<string>, parse: string -> Option<Day>)
    ensures Seqs.IsSubsequence(FilterByInstitutions(data, selected, parse), Sanitize(data, parse))
  {
    var cleaned := Sanitize(data, parse);
    if selected == [] {
      Seqs.FilterAll(cleaned, (p: Engine.PollData) => true);
      Seqs.FilterIsSubsequence(cleaned, (p: Engine.PollData) => true);
    } else {
      var names := NormalizeAll(selected);
      Seqs.FilterIsSubsequence(cleaned, (p: Engine.PollData) => Matches(NormalizeInst(p.institution), names));
    }
  }

  /** With a selection, a sanitised poll is kept, as often as it occurs,
      exactly when its normalised institution equals or starts with some
      normalised selected name; other polls are dropped. */
  lemma FilterByInstitutionsExact(data: seq<Option<RawPoll>>, selected: seq<string>, parse: string -> Option<Day>,
                                  p: Engine.PollData)
    requires selected != []
    ensures var kept := multiset(FilterByInstitutions(data, selected, parse))[p];
      var inst := NormalizeInst(p.institution);
      if exists k :: 0 <= k < |selected| && Text.IsPrefix(NormalizeInst(selected[k]), inst)
      then kept == multiset(Sanitize(data, parse))[p]
      else kept == 0
  {
    var names := NormalizeAll(selected);
    var keep := (q: Engine.PollData) => Matches(NormalizeInst(q.institution), names);
    Seqs.FilterCount(Sanitize(data, parse), keep, p);
    MatchesIff(NormalizeInst(p.institution), names);
  }

  // -------------------------------------------------------------- forecasts

  /** What `generatePredictions` returns: nothing for an empty sanitised list
      or when the engine throws. */
  function Predictions(data: seq<Option<RawPoll>>, h: Host): Option<Engine.Prediction>
    requires Engine.WellDefined(h)
  {
    var cleaned := Sanitize(data, h.parseDate);
    if cleaned == [] then None else Engine.Forecast(cleaned, ElectionDay, h).ToOption()
  }

  /** `generatePredictions`: sanitises, then runs the engine for 2024-01-13,
      turning a thrown error into `None`. */
  method GeneratePredictions(data: seq<Option<RawPoll>>, h: Host) returns (r: Option<Engine.Prediction>)
    requires Engine.WellDefined(h)
    ensures r == Predictions(data, h)
  {
    var cleaned := Sanitize(data, h.parseDate);
    if |cleaned| == 0 {
      return None;
    }
    var result := Engine.PredictElection(cleaned, ElectionDay, h);
    if result.Failure? {
      return None;
    }
    return Some(result.value);
  }

  /** No forecast is made when no sanitised poll is dated on or before the
      election day. */
  lemma PredictionsNeedPrePolls(data: seq<Option<RawPoll>>, h: Host)
    requires Engine.WellDefined(h)
    requires forall p :: p in Sanitize(data, h.parseDate) ==> p.day > ElectionDay
    ensures Predictions(data, h).None?
  {
    var cleaned := Sanitize(data, h.parseDate);
    if cleaned != [] {
      assert forall k :: 0 <= k < |cleaned| ==> cleaned[k].day > ElectionDay;
      Engine.ForecastErrors(cleaned, ElectionDay, h);
      var f := Engine.Forecast(cleaned, ElectionDay, h);
      assert f == Failure(Engine.NoValidPolls);
    }
  }

  /** A forecast that is made sums to 100 up to rounding. */
  lemma PredictionsSumToHundred(data: seq<Option<RawPoll>>, h: Host)
    requires Engine.WellDefined(h)
    requires Predictions(data, h).Some?
    ensures 99.985 <= Predictions(data, h).value.predictions.Sum() <= 100.015
  {
    Engine.ForecastSumsToHundred(Sanitize(data, h.parseDate), ElectionDay, h);
  }

  /** A forecast that is made lists its polls heaviest first. */
  lemma PredictionsSorted(data: seq<Option<RawPoll>>, h: Host)
    requires Engine.WellDefined(h)
    requires Predictions(data, h).Some?
    ensures var d := Predictions(data, h).value.details;
      forall i, j :: 0 <= i < j < |d| ==> d[i].weight >= d[j].weight
  {
    Engine.ForecastDetailsSorted(Sanitize(data, h.parseDate), ElectionDay, h);
  }

  /** The polls of a forecast that is made were all taken on or before the
      election day, and each carries a well-formed weight and correction. */
  lemma PredictionsWellFormed(data: seq<Option<RawPoll>>, h: Host)
    requires Engine.WellDefined(h)
    requires Predictions(data, h).Some?
    ensures forall d :: d in Predictions(data, h).value.details ==> Engine.WellFormedDetail(d, ElectionDay)
  {
    Engine.ForecastDetailsWellFormed(Sanitize(data, h.parseDate), ElectionDay, h);
  }

  /** The chart builder hands already filtered polls back to the forecast,
      which sanitises them again: that forecast is the engine's forecast of
      the filtered polls themselves. */
  lemma PredictionsOfFiltered(data: seq<Option<RawPoll>>, selected: seq<string>, h: Host)
    requires Engine.WellDefined(h)
    requires FilterByInstitutions(data, selected, h.parseDate) != []
    ensures var filtered := FilterByInstitutions(data, selected, h.parseDate);
      Predictions(LiftAll(filtered), h) == Engine.Forecast(filtered, ElectionDay, h).ToOption()
  {
    SanitizeIdempotent(FilterByInstitutions(data, selected, h.parseDate), h.parseDate);
  }

  /** The 2024 results `getPredictionSummary` compares against. */
  const ActualResult := Engine.Shares(40.05, 33.49, 26.46)

  datatype Summary = Summary(
    predictions: Engine.Shares,
    accuracy: Engine.Evaluation,
    methodology: Engine.Methodology,
    topPolls: seq<Engine.WeightedPoll>)

  /** `getPredictionSummary`: the forecast, its accuracy against the actual
      result, and the first three polls of the weight-sorted details. */
  method GetPredictionSummary(data: seq<Option<RawPoll>>, h: Host) returns (r: Option<Summary>)
    requires Engine.WellDefined(h)
    ensures r.None? <==> Predictions(data, h).None?
    ensures r.Some? ==>
      var pr := Predictions(data, h).value;
      && r.value.predictions == pr.predictions
      && r.value.methodology == pr.methodology
      && r.value.accuracy == Engine.EvaluatePrediction(pr.predictions, ActualResult)
      && r.value.topPolls == pr.details[..if |pr.details| < 3 then |pr.details| else 3]
      && forall i, j :: 0 <= i < |r.value.topPolls| <= j < |pr.details| ==>
           r.value.topPolls[i].weight >= pr.details[j].weight
  {
    var predictions := GeneratePredictions(data, h);
    if predictions.None? {
      return None;
    }
    var pr := predictions.value;
    PredictionsSorted(data, h);
    var top := pr.details[..if |pr.details| < 3 then |pr.details| else 3];
    return Some(Summary(pr.predictions, Engine.EvaluatePrediction(pr.predictions, ActualResult),
      pr.methodology, top));
  }
}
