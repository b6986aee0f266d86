/** What the reported figures are: rates, percentiles, the decision hint, targets, reviews. */
module ResidualFigures {
  import opened Prelude
  import opened ResidualCodes
  import opened M = ResidualMetrics
  import T = ResidualTargets
  import V = ResidualReview
  import D = ResidualVerdicts

  // ---------- counting rows ----------

  function Rows(rows: seq<Row>, p: Row -> bool): set<nat> { set i: nat | i < |rows| && p(rows[i]) }

  /** Counting rows is the size of the set of their numbers. */
  lemma {:induction false} CountIsSize(rows: seq<Row>, p: Row -> bool)
    ensures CountRows(rows, p) == |Rows(rows, p)|
  {
    if rows != [] {
      var n: nat := |rows| - 1;
      CountIsSize(rows[..n], p);
      assert Rows(rows, p) == Rows(rows[..n], p) + (if p(rows[n]) then {n} else {});
    }
  }

  /** And a sum over the rows the sum of the values. */
  lemma {:induction false} SumIsSum(rows: seq<Row>, f: Row -> nat)
    ensures SumOver(rows, f) == Sum(seq(|rows|, i requires 0 <= i < |rows| => f(rows[i])))
  {
    var all := seq(|rows|, i requires 0 <= i < |rows| => f(rows[i]));
    if rows != [] {
      var n: nat := |rows| - 1;
      SumIsSum(rows[..n], f);
      assert all == seq(|rows[..n]|, i requires 0 <= i < |rows[..n]| => f(rows[..n][i])) + [f(rows[n])];
      SumAppend(seq(|rows[..n]|, i requires 0 <= i < |rows[..n]| => f(rows[..n][i])), [f(rows[n])]);
      assert Sum([f(rows[n])]) == f(rows[n]);
    }
  }

  // ---------- rates ----------

  /** `x` is the share `n` of `d`, and 0 where there is nothing to share. */
  ghost predicate IsShare(x: real, n: nat, d: nat) { if d == 0 then x == 0.0 else x * d as real == n as real }

  lemma RatioIs(n: nat, d: nat)
    ensures IsShare(Ratio(n, d), n, d)
  {
  }

  function HitSize(ch: Channel): Row -> nat { (r: Row) => |GoldSet(r.gold, ch) * PredSet(r.gold, r.pred, ch)| }

  lemma {:induction false} HitsAre(rows: seq<Row>, ch: Channel)
    ensures HitsOf(rows, ch).tp == SumOver(rows, HitSize(ch))
  {
    if rows != [] {
      var n, r := |rows| - 1, rows[|rows| - 1];
      HitsAre(rows[..n], ch);
      assert PredSet(r.gold, r.pred, ch) * GoldSet(r.gold, ch) == GoldSet(r.gold, ch) * PredSet(r.gold, r.pred, ch);
      hide GoldSet, PredSet;
    }
  }

  function Asked(rows: seq<Row>, ch: Channel): nat { SumOver(rows, GoldSize(ch)) }
  function Offered(rows: seq<Row>, ch: Channel): nat { SumOver(rows, PredSize(ch)) }
  function Hit(rows: seq<Row>, ch: Channel): nat { SumOver(rows, HitSize(ch)) }

  lemma HitsWithin(rows: seq<Row>, ch: Channel)
    ensures var h := HitsOf(rows, ch);
      && h.tp == Hit(rows, ch) && h.tp + h.fn == Asked(rows, ch) && h.tp + h.fp == Offered(rows, ch)
  {
    CountersConserve(rows, ch);
    HitsAre(rows, ch);
  }

  lemma {:induction false} OthersAre(rows: seq<Row>)
    ensures var o := OthersOf(rows);
      && o.schemaOk == CountRows(rows, (r: Row) => r.schemaValid)
      && o.forbidden == CountRows(rows, (r: Row) => r.flags.forbidden)
      && o.conflict == CountRows(rows, (r: Row) => r.flags.conflict)
      && o.over == CountRows(rows, (r: Row) => r.flags.overExtract)
      && o.emptyTotal == CountRows(rows, (r: Row) => GoldEmpty(r))
      && o.emptyCorrect == CountRows(rows, (r: Row) => GoldEmpty(r) && PredEmpty(r))
  {
    hide GoldEmpty, PredEmpty;
    if rows != [] {
      OthersAre(rows[..|rows| - 1]);
    }
  }

  /** Recall is the share of hits in what was asked, precision in what was offered; the false
      rates pool the positive and the negative channel. */
  lemma RatesAre(rows: seq<Row>)
    ensures var m := MetricsOf(rows);
      && m.caseCount == |rows|
      && IsShare(m.posRecall, Hit(rows, Positive), Asked(rows, Positive))
      && IsShare(m.posPrecision, Hit(rows, Positive), Offered(rows, Positive))
      && IsShare(m.negRecall, Hit(rows, Negative), Asked(rows, Negative))
      && IsShare(m.negPrecision, Hit(rows, Negative), Offered(rows, Negative))
      && IsShare(m.corrRecall, Hit(rows, Correction), Asked(rows, Correction))
      && IsShare(m.corrPrecision, Hit(rows, Correction), Offered(rows, Correction))
    ensures var m := MetricsOf(rows);
      var hits, asked := Hit(rows, Positive) + Hit(rows, Negative), Asked(rows, Positive) + Asked(rows, Negative);
      var offered := Offered(rows, Positive) + Offered(rows, Negative);
      && hits <= asked && hits <= offered
      && IsShare(m.falsePositiveRate, offered - hits, offered)
      && IsShare(m.falseNegativeRate, asked - hits, asked)
  {
    hide *;
    HitsWithin(rows, Positive);
    HitsWithin(rows, Negative);
    HitsWithin(rows, Correction);
    ReportedRates(rows);
    RatioIs(Hit(rows, Positive), Asked(rows, Positive));
    RatioIs(Hit(rows, Positive), Offered(rows, Positive));
    RatioIs(Hit(rows, Negative), Asked(rows, Negative));
    RatioIs(Hit(rows, Negative), Offered(rows, Negative));
    RatioIs(Hit(rows, Correction), Asked(rows, Correction));
    RatioIs(Hit(rows, Correction), Offered(rows, Correction));
    var pos, neg := HitsOf(rows, Positive), HitsOf(rows, Negative);
    RatioIs(pos.fp + neg.fp, pos.tp + neg.tp + pos.fp + neg.fp);
    RatioIs(pos.fn + neg.fn, pos.tp + neg.tp + pos.fn + neg.fn);
  }

  lemma ReportedRates(rows: seq<Row>)
    ensures var m, pos, neg, corr :=
        MetricsOf(rows), HitsOf(rows, Positive), HitsOf(rows, Negative), HitsOf(rows, Correction);
      && m.caseCount == |rows|
      && m.posRecall == Ratio(pos.tp, pos.tp + pos.fn) && m.posPrecision == Ratio(pos.tp, pos.tp + pos.fp)
      && m.negRecall == Ratio(neg.tp, neg.tp + neg.fn) && m.negPrecision == Ratio(neg.tp, neg.tp + neg.fp)
      && m.corrRecall == Ratio(corr.tp, corr.tp + corr.fn) && m.corrPrecision == Ratio(corr.tp, corr.tp + corr.fp)
      && m.falsePositiveRate == Ratio(pos.fp + neg.fp, pos.tp + neg.tp + pos.fp + neg.fp)
      && m.falseNegativeRate == Ratio(pos.fn + neg.fn, pos.tp + neg.tp + pos.fn + neg.fn)
  {
    hide HitsOf, OthersOf, Percentile, Ratio;
  }

  /** Which rows have an empty annotation, and which an empty reply. */
  lemma EmptinessIs(r: Row)
    ensures GoldEmpty(r) <==> D.AsksNothing(r.gold)
    ensures PredEmpty(r) <==> D.OffersNothing(r.gold, r.pred)
  {
    D.CorrectionIs(Evidence(r.status, r.gold, r.pred, true, false, false, false, false, false));
  }

  lemma EmptyRowsAre(rows: seq<Row>)
    ensures Rows(rows, (r: Row) => GoldEmpty(r)) == Rows(rows, (r: Row) => D.AsksNothing(r.gold))
    ensures Rows(rows, (r: Row) => GoldEmpty(r) && PredEmpty(r)) ==
        Rows(rows, (r: Row) => D.AsksNothing(r.gold) && D.OffersNothing(r.gold, r.pred))
  {
    forall r: Row
      ensures GoldEmpty(r) <==> D.AsksNothing(r.gold)
      ensures PredEmpty(r) <==> D.OffersNothing(r.gold, r.pred)
    {
      EmptinessIs(r);
    }
    hide GoldEmpty, PredEmpty, D.AsksNothing, D.OffersNothing;
  }

  /** The other rates and counts, over the stored flags. */
  lemma CountsAre(rows: seq<Row>)
    ensures var m := MetricsOf(rows);
      && IsShare(m.schemaValidity, |Rows(rows, (r: Row) => r.schemaValid)|, |rows|)
      && IsShare(m.overExtractionRate, |Rows(rows, (r: Row) => r.flags.overExtract)|, |rows|)
      && m.forbiddenCount == |Rows(rows, (r: Row) => r.flags.forbidden)|
      && m.conflictCount == |Rows(rows, (r: Row) => r.flags.conflict)|
      && IsShare(m.emptyExtractionAccuracy,
                 |Rows(rows, (r: Row) => D.AsksNothing(r.gold) && D.OffersNothing(r.gold, r.pred))|,
                 |Rows(rows, (r: Row) => D.AsksNothing(r.gold))|)
  {
    OthersAre(rows);
    CountIsSize(rows, (r: Row) => r.schemaValid);
    CountIsSize(rows, (r: Row) => r.flags.overExtract);
    CountIsSize(rows, (r: Row) => r.flags.forbidden);
    CountIsSize(rows, (r: Row) => r.flags.conflict);
    CountIsSize(rows, (r: Row) => GoldEmpty(r) && PredEmpty(r));
    CountIsSize(rows, (r: Row) => GoldEmpty(r));
    EmptyRowsAre(rows);
    forall n: nat, d: nat ensures IsShare(Ratio(n, d), n, d) {
      RatioIs(n, d);
    }
    hide Ratio, IsShare, HitsOf, OthersOf, Percentile, GoldEmpty, PredEmpty, CountRows, Rows, D.AsksNothing,
        D.OffersNothing;
  }

  // ---------- percentiles ----------

  /** The value at position `k` of an ascending sequence, between its two ranks. */
  ghost function Between(s: seq<real>, k: real): real
    requires |s| > 0 && 0.0 <= k <= (|s| - 1) as real
  {
    var f := k.Floor;
    if f + 1 < |s| then s[f] + (s[f + 1] - s[f]) * (k - f as real) else s[f]
  }

  lemma AtIs(s: seq<real>, k: real)
    requires |s| > 0 && 0.0 <= k <= (|s| - 1) as real
    ensures At(s, k) == Between(s, k)
    ensures |s| == 1 ==> Between(s, k) == s[0]
  {
  }

  lemma BetweenAt(s: seq<real>, k: real, f: nat)
    requires |s| > 0 && 0.0 <= k <= (|s| - 1) as real && k.Floor == f
    ensures Between(s, k) == if f + 1 < |s| then s[f] + (s[f + 1] - s[f]) * (k - f as real) else s[f]
  {
  }

  lemma PositionIs(n: nat, p: real)
    requires 0.0 <= p <= 100.0
    ensures Position(n, p) == n as real * (p / 100.0)
  {
  }

  lemma PercentileUnfolds(vals: seq<real>, p: real)
    requires 0.0 <= p <= 100.0
    ensures vals == [] ==> Percentile(vals, p) == 0.0
    ensures |Sorted(vals)| == 1 ==> Percentile(vals, p) == Sorted(vals)[0]
    ensures |Sorted(vals)| > 1 ==> Percentile(vals, p) == At(Sorted(vals), Position(|Sorted(vals)| - 1, p))
  {
    hide Sorted, At, Position;
  }

  /** Percentile `p` of the values, `s` in ascending order, lies at the position
      `k == (|s| - 1) * p / 100`, between two ranks as far as the position. */
  lemma PercentileIs(vals: seq<real>, p: real, s: seq<real>, k: real)
    requires 0.0 <= p <= 100.0 && Ascending(s) && multiset(s) == multiset(vals) && s != []
    requires k == (|s| - 1) as real * (p / 100.0) && 0.0 <= k <= (|s| - 1) as real
    ensures Percentile(vals, p) == Between(s, k)
  {
    hide *;
    SortedAscending(vals);
    AscendingUnique(Sorted(vals), s);
    PercentileUnfolds(vals, p);
    AtIs(s, k);
    PositionIs(|s| - 1, p);
    assert Position(|s| - 1, p) == k;
    assert |s| > 1 ==> Percentile(vals, p) == At(s, k);
  }

  lemma ReportedPercentiles(rows: seq<Row>)
    ensures MetricsOf(rows).latencyP50 == Percentile(Latencies(rows), 50.0)
    ensures MetricsOf(rows).latencyP95 == Percentile(Latencies(rows), 95.0)
  {
    hide Percentile, HitsOf, OthersOf;
  }

  /** The reported median: the middle latency, or the mean of the two middle ones. */
  lemma MedianIs(rows: seq<Row>, s: seq<real>)
    requires Ascending(s) && multiset(s) == multiset(Latencies(rows)) && s != []
    ensures MetricsOf(rows).latencyP50 ==
      if |s| % 2 == 1 then s[|s| / 2] else (s[|s| / 2 - 1] + s[|s| / 2]) / 2.0
  {
    hide *;
    ReportedPercentiles(rows);
    var k, f := (|s| - 1) as real * (50.0 / 100.0), (|s| - 1) / 2;
    assert 2.0 * k == (|s| - 1) as real;
    assert |s| - 1 == 2 * f + (|s| - 1) % 2;
    assert k - f as real == if |s| % 2 == 1 then 0.0 else 0.5;
    assert k.Floor == f;
    PercentileIs(Latencies(rows), 50.0, s, k);
    BetweenAt(s, k, f);
  }

  /** The reported 95th percentile, at 19 twentieths of the last rank. */
  lemma P95Is(rows: seq<Row>, s: seq<real>, f: nat, part: nat)
    requires Ascending(s) && multiset(s) == multiset(Latencies(rows))
    requires f < |s| && 19 * (|s| - 1) == 20 * f + part && part < 20
    ensures MetricsOf(rows).latencyP95 ==
      if f + 1 < |s| then s[f] + (s[f + 1] - s[f]) * (part as real / 20.0) else s[f]
  {
    hide *;
    ReportedPercentiles(rows);
    var k := (|s| - 1) as real * (95.0 / 100.0);
    assert 20.0 * k == 19.0 * (|s| - 1) as real == (20 * f + part) as real;
    assert k - f as real == part as real / 20.0;
    assert k.Floor == f;
    PercentileIs(Latencies(rows), 95.0, s, k);
    BetweenAt(s, k, f);
  }

  /** Without rows all latencies are reported as 0. */
  lemma NoLatency()
    ensures MetricsOf([]).latencyP50 == 0.0 && MetricsOf([]).latencyP95 == 0.0
  {
    hide GoldSet, PredSet;
  }

  // ---------- the decision hint ----------

  function ModelCauses(): set<Cause> {
    {ModelForbiddenField, ModelHallucinatedEntity, ModelConflict, ModelEmpty,
     ModelCorrMiss, ModelPosMiss, ModelNegMiss, ModelOverExtract}
  }

  function RuntimeCauses(): set<Cause> { {RuntimeTimeout, RuntimeTruncated, RuntimeNonJson, RuntimeSchemaFail} }

  /** The rows whose primary cause is one of these. */
  function Having(rows: seq<Row>, causes: set<Cause>): set<nat> {
    set i: nat | i < |rows| && rows[i].primary.Some? && rows[i].primary.value in causes
  }

  lemma CauseClasses(c: Cause)
    ensures IsModel(c) <==> c in ModelCauses()
    ensures IsRuntime(c) <==> c in RuntimeCauses()
  {
  }

  lemma {:induction false} CountIs(rows: seq<Row>, p: Cause -> bool, causes: set<Cause>)
    requires forall c :: p(c) <==> c in causes
    ensures CounterTotal(T.CauseCounter(rows), p) == |Having(rows, causes)|
  {
    T.CauseTotals(rows, p);
    CountIsSize(rows, T.WithCause(p));
    assert Rows(rows, T.WithCause(p)) == Having(rows, causes);
    hide T.CauseCounter, CountRows;
  }

  /** The three weights are the numbers of rows whose primary cause is one of the eight model
      causes, one of the four runtime causes, or the matcher. */
  lemma WeightsAre(rows: seq<Row>)
    ensures var h := T.DecisionHint(T.CauseCounter(rows));
      && h.model == |Having(rows, {ModelForbiddenField, ModelHallucinatedEntity, ModelConflict, ModelEmpty,
                                   ModelCorrMiss, ModelPosMiss, ModelNegMiss, ModelOverExtract})|
      && h.runtime == |Having(rows, {RuntimeTimeout, RuntimeTruncated, RuntimeNonJson, RuntimeSchemaFail})|
      && h.matcher == |Having(rows, {Matcher})|
  {
    forall c ensures (IsModel(c) <==> c in ModelCauses()) && (IsRuntime(c) <==> c in RuntimeCauses()) {
      CauseClasses(c);
    }
    CountIs(rows, T.Models(), ModelCauses());
    CountIs(rows, T.Runtimes(), RuntimeCauses());
    CountIs(rows, T.Is(Matcher), {Matcher});
    hide T.CauseCounter, CounterTotal, Having, IsModel, IsRuntime;
  }

  /** On every export the next step is the serving fix exactly if more rows fail with one of the
      four runtime causes than with one of the eight model causes, and targeted training
      otherwise. */
  lemma NextStepIs(rows: seq<Row>, samples: seq<Sample>)
    requires IsExport(rows, samples)
    ensures var next := T.DecisionHint(T.CauseCounter(rows)).next;
      var model := |Having(rows, {ModelForbiddenField, ModelHallucinatedEntity, ModelConflict, ModelEmpty,
                                  ModelCorrMiss, ModelPosMiss, ModelNegMiss, ModelOverExtract})|;
      var runtime := |Having(rows, {RuntimeTimeout, RuntimeTruncated, RuntimeNonJson, RuntimeSchemaFail})|;
      && (next == T.ServingFix <==> runtime > model)
      && (next == T.TargetedSft <==> runtime <= model)
  {
    WeightsAre(rows);
    T.HintOnExport(rows, samples);
    hide T.CauseCounter, Having, T.DecisionHint;
  }

  /** For any rows: the largest weight decides, ties go to training, and runtime beats the
      matcher. */
  lemma NextStepOfAny(rows: seq<Row>)
    ensures var h := T.DecisionHint(T.CauseCounter(rows));
      && (h.next == T.TargetedSft <==> h.model >= h.runtime && h.model >= h.matcher)
      && (h.next == T.ServingFix <==> h.runtime > h.model)
      && (h.next == T.MatcherBacklog <==> h.matcher > h.model >= h.runtime)
  {
    hide T.CauseCounter, CounterTotal;
  }

  // ---------- targets ----------

  /** How often a failing row shows a pattern; a row without patterns shows `Other`. */
  lemma ShownIs(r: Row, p: Pattern)
    ensures T.ShowsAnywhere(p)(r) ==
      if r.patterns == [] then (if p == Other then 1 else 0) else multiset(r.patterns)[p]
    ensures T.Shows(p)(r) == if r.primary.Some? then T.ShowsAnywhere(p)(r) else 0
  {
  }

  lemma Multiples(d: int, q: int, r: int)
    requires d > 0
    ensures r < q ==> d * r <= d * q - d
    ensures r == q + 1 ==> d * r == d * q + d
    ensures r > q + 1 ==> d * r >= d * q + 2 * d
  {
    if r < q {
      TimesNat(d, q - 1 - r);
      T.Distribute(d, r + 1, q - 1 - r);
      T.Distribute(d, r, 1);
    } else if r == q + 1 {
      T.Distribute(d, q, 1);
    } else if r > q + 1 {
      TimesNat(d, r - q - 2);
      T.Distribute(d, q + 2, r - q - 2);
      T.Distribute(d, q, 2);
    }
  }

  lemma TimesNat(a: nat, b: nat)
    ensures a * b >= 0
  {
  }

  /** Rounding gives the nearest integer, and an even one where two are equally near. */
  lemma NearestIs(n: nat, d: int, r: nat)
    requires d > 0
    ensures var off := 2 * (d * r - n);
      T.RoundHalfEven(n, d) == r <==> -d < off < d || ((off == d || off == -d) && r % 2 == 0)
  {
    var q: nat := n / d;
    Multiples(d, q, r);
    assert n == d * q + n % d;
  }

  lemma {:induction false} CountWithin(fail: Counter<Pattern>, p: Pattern)
    ensures CounterTotal(fail, T.Is(p)) <= T.FailTotal(fail)
  {
    if fail != [] {
      CountWithin(fail[1..], p);
    }
  }

  /** The target of a pattern before scaling: its share of 2000 examples but at least 40, and 80
      for the two patterns known to be hard where no failing row shows them. */
  lemma BaseIs(fail: Counter<Pattern>, i: nat)
    requires i < |T.PATTERNS|
    ensures var p, b, total := T.PATTERNS[i], T.Bases(fail)[i], T.FailTotal(fail);
      var count := CounterTotal(fail, T.Is(p));
      && (count == 0 ==> b == if p == NegSimple || p == CorrectionXNotY then 80 else 0)
      && (count > 0 ==>
            && total > 0
            && b == if T.RoundHalfEven(2000 * count, total) < 40 then 40 else T.RoundHalfEven(2000 * count, total))
    ensures Sum(T.Bases(fail)) <= 2000 ==> T.Targets(fail)[i] == T.Bases(fail)[i]
  {
    CountWithin(fail, T.PATTERNS[i]);
    hide T.RoundHalfEven, T.FailTotal, Sum;
  }

  // ---------- reviews ----------

  /** The causes that a person always looks at. */
  function Mandatory(): set<Cause> {
    {RuntimeTimeout, RuntimeTruncated, RuntimeNonJson, RuntimeSchemaFail,
     ModelForbiddenField, ModelHallucinatedEntity, ModelConflict, Matcher}
  }

  /** Which rows are marked for review, and why. */
  lemma MarkIs(rows: seq<Row>, draws: nat -> bool, i: nat)
    requires i < |rows|
    ensures var r, m := rows[i], V.Mark(rows, draws, i);
      && m.row == r
      && (r.primary == None ==>
            var drawn := draws(|set k: nat | k < i && rows[k].primary == None|);
            m.confidence == V.High && m.required == drawn && m.reason == if drawn then V.SuccessSample else V.NoReason)
      && (r.primary.Some? && r.primary.value in Mandatory() ==>
            m.confidence == V.Low && m.required && m.reason == V.Mandatory)
      && (r.primary.Some? && r.primary.value !in Mandatory() && |r.secondary| >= 2 ==>
            m.confidence == V.Low && m.required && m.reason == V.MultiSecondary)
      && (r.primary.Some? && r.primary.value !in Mandatory() && |r.secondary| < 2 ==>
            m.confidence == V.Medium && !m.required && m.reason == V.NoReason)
  {
    CountIsSize(rows[..i], V.Passed());
    assert Rows(rows[..i], V.Passed()) == set k: nat | k < i && rows[k].primary == None;
    hide CountRows;
  }

  // ---------- the end validation ----------

  ghost predicate Close(a: real, b: real) { a - b < 0.000000001 && b - a < 0.000000001 }

  /** What the checks on rows, causes and stored artifacts look for. */
  lemma ChecksAre(rows: seq<Row>, expected: int, a: V.Artifacts)
    ensures V.Holds(rows, expected, a, V.AccountedRows) <==>
      |rows| == expected && forall r :: r in rows && r.skipped ==> r.primary == None
    ensures V.Holds(rows, expected, a, V.RowCount) <==> |rows| == expected
    ensures V.Holds(rows, expected, a, V.RawPresent) <==> !exists r :: r in rows && !r.hasRaw
    ensures V.Holds(rows, expected, a, V.SummaryPresent) <==>
      && a.patterns.Some?
      && V.ModelWeighted in a.patterns.value.summary && V.RuntimeWeighted in a.patterns.value.summary
      && V.MatcherWeighted in a.patterns.value.summary && V.NextStep in a.patterns.value.summary
    ensures V.Holds(rows, expected, a, V.PrimaryPresent) <==>
      forall r :: r in rows && r.primary == None && !r.skipped && !r.flags.modelOk ==>
        && r.status == Ok && !r.timeout && !r.truncated && !r.nonJson
        && r.flags == Flags(false, false, false, false, false, false, false, false)
    ensures V.Holds(rows, expected, a, V.NoQuant) <==>
      forall r :: r in rows ==> r.primary != Some(Quant) && Quant !in r.secondary
    ensures V.Holds(rows, expected, a, V.CauseCounts) <==>
      forall c: Cause :: CounterTotal(if a.patterns.Some? then a.patterns.value.causes else [], T.Is(c)) ==
          |Having(rows, {c})|
    ensures V.Holds(rows, expected, a, V.TargetsPresent) <==>
      a.patterns.Some? && exists i :: 0 <= i < |a.patterns.value.targets| && a.patterns.value.targets[i] > 0
  {
    forall c: Cause ensures CounterTotal(T.CauseCounter(rows), T.Is(c)) == |Having(rows, {c})| {
      CountIs(rows, T.Is(c), {c});
    }
    hide T.CauseCounter, CounterTotal, Having;
    if a.patterns.Some? {
      V.AllKeys(a.patterns.value.summary);
    }
    assert V.ModelWeighted !in V.NOTHING.summary;
  }

  /** Stored metrics pass if six rates are closer than a billionth to those of the rows and the
      two counts are equal. */
  lemma MetricsCheckIs(rows: seq<Row>, expected: int, a: V.Artifacts)
    ensures var own := MetricsOf(rows);
      V.Holds(rows, expected, a, V.MetricsRecomputable) <==>
        && a.metrics.Some?
        && var m := a.metrics.value;
        && Close(m.posRecall, own.posRecall) && Close(m.posPrecision, own.posPrecision)
        && Close(m.negRecall, own.negRecall) && Close(m.negPrecision, own.negPrecision)
        && Close(m.corrRecall, own.corrRecall) && Close(m.schemaValidity, own.schemaValidity)
        && m.forbiddenCount == own.forbiddenCount && m.conflictCount == own.conflictCount
  {
    hide MetricsOf;
  }
}
