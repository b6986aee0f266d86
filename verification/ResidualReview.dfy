/** After the export: which rows a person must look at, and the validation of the artifacts. */
module ResidualReview {
  import opened Prelude
  import opened ResidualCodes
  import M = ResidualMetrics
  import T = ResidualTargets

  // The validator re-reads the rows without the coder that produced them; this module proves
  // that it accepts every export, and what each of its checks rules out.

  // ---------- the human review queue ----------

  datatype Confidence = High | Medium | Low

  datatype Reason = NoReason | SuccessSample | Mandatory | MultiSecondary | LowConfidence

  predicate AlwaysReview(c: Cause) {
    IsRuntime(c) || c == ModelForbiddenField || c == ModelHallucinatedEntity || c == ModelConflict || c == Matcher
  }

  function AutoConfidence(r: Row): Confidence {
    if r.primary.None? then High
    else if AlwaysReview(r.primary.value) then Low
    else if |r.secondary| >= 2 then Low
    else if IsRuntime(r.primary.value) then Low
    else Medium
  }

  /** `drawn` is the outcome of the sampling draw, which only rows without a cause make. */
  function NeedsReview(r: Row, drawn: bool): (bool, Reason) {
    if r.primary.None? then (if drawn then (true, SuccessSample) else (false, NoReason))
    else if AlwaysReview(r.primary.value) || IsRuntime(r.primary.value) then (true, Mandatory)
    else if |r.secondary| >= 2 then (true, MultiSecondary)
    else if AutoConfidence(r) == Low then (true, LowConfidence)
    else (false, NoReason)
  }

  /** A failing row is reviewed exactly when its confidence is low, whatever is drawn; the
      last two reasons of the rule are never given. */
  lemma FailingReviewedIffLow(r: Row, drawn: bool)
    requires r.primary.Some?
    ensures NeedsReview(r, drawn).0 <==> AutoConfidence(r) == Low
    ensures NeedsReview(r, drawn) == NeedsReview(r, !drawn)
    ensures NeedsReview(r, drawn).1 != LowConfidence
    ensures NeedsReview(r, drawn).1 == MultiSecondary <==> |r.secondary| >= 2 && !AlwaysReview(r.primary.value)
  {
  }

  /** A row as it is written back. */
  datatype Marked = Marked(row: Row, confidence: Confidence, required: bool, reason: Reason)

  function Passed(): Row -> bool { (r: Row) => r.primary.None? }

  function RowsOf(marked: seq<Marked>): seq<Row> {
    seq(|marked|, i requires 0 <= i < |marked| => marked[i].row)
  }

  /** Row `i` makes the draw numbered by the passing rows before it. */
  function DrawNumber(rows: seq<Row>, i: nat): nat
    requires i <= |rows|
  {
    M.CountRows(rows[..i], Passed())
  }

  function Mark(rows: seq<Row>, draws: nat -> bool, i: nat): Marked
    requires i < |rows|
  {
    var review := NeedsReview(rows[i], draws(DrawNumber(rows, i)));
    Marked(rows[i], AutoConfidence(rows[i]), review.0, review.1)
  }

  ghost predicate Increasing(queue: seq<nat>, n: nat) {
    && (forall k :: 0 <= k < |queue| ==> queue[k] < n)
    && (forall j, k :: 0 <= j < k < |queue| ==> queue[j] < queue[k])
  }

  lemma MarkIs(rows: seq<Row>, draws: nat -> bool, i: nat)
    requires i < |rows|
    ensures var review := NeedsReview(rows[i], draws(DrawNumber(rows, i)));
      Mark(rows, draws, i) == Marked(rows[i], AutoConfidence(rows[i]), review.0, review.1)
  {
  }

  lemma QueueStart()
    ensures Increasing([], 0)
  {
  }

  lemma QueueNext(queue: seq<nat>, i: nat)
    requires Increasing(queue, i)
    ensures Increasing(queue, i + 1) && Increasing(queue + [i], i + 1)
    ensures forall k: nat :: k in queue + [i] <==> k in queue || k == i
  {
  }

  lemma NoDraw(rows: seq<Row>)
    ensures DrawNumber(rows, 0) == 0
  {
  }

  lemma DrawNext(rows: seq<Row>, i: nat)
    requires i < |rows|
    ensures DrawNumber(rows, i + 1) == DrawNumber(rows, i) + if rows[i].primary.None? then 1 else 0
  {
    assert rows[..i + 1][..i] == rows[..i];
  }

  /** Marks every row in place and queues, in order, exactly those that need a review. */
  method WriteReviewQueue(rows: array<Marked>, draws: nat -> bool) returns (queue: seq<nat>)
    modifies rows
    ensures forall i :: 0 <= i < rows.Length ==> rows[i] == Mark(RowsOf(old(rows[..])), draws, i)
    ensures Increasing(queue, rows.Length)
    ensures forall i: nat :: i in queue <==> i < rows.Length && rows[i].required
  {
    ghost var plain := RowsOf(rows[..]);
    assert forall k :: 0 <= k < rows.Length ==> rows[k].row == plain[k];
    hide NeedsReview, AutoConfidence, DrawNumber, M.CountRows, Mark, RowsOf, Increasing;
    NoDraw(plain);
    QueueStart();
    queue := [];
    var i, made := 0, 0;
    while i < rows.Length
      invariant 0 <= i <= rows.Length && made == DrawNumber(plain, i)
      invariant forall k :: i <= k < rows.Length ==> rows[k] == old(rows[k]) && rows[k].row == plain[k]
      invariant forall k :: 0 <= k < i ==> rows[k] == Mark(plain, draws, k)
      invariant Increasing(queue, i)
      invariant forall k: nat :: k in queue <==> k < i && rows[k].required
    {
      DrawNext(plain, i);
      var r := rows[i].row;
      var review := NeedsReview(r, draws(made));
      rows[i] := Marked(r, AutoConfidence(r), review.0, review.1);
      MarkIs(plain, draws, i);
      if r.primary.None? {
        made := made + 1;
      }
      QueueNext(queue, i);
      if review.0 {
        queue := queue + [i];
      }
      i := i + 1;
    }
  }

  // ---------- the end validation ----------

  function Skipped(): Row -> bool { (r: Row) => r.skipped }

  function Succeeded(): Row -> bool { (r: Row) => !r.skipped && r.primary.None? }

  function SkippedFailing(): Row -> bool { (r: Row) => r.skipped && r.primary.Some? }

  /** The three counters cover every row, and count a skipped failing row twice. */
  lemma {:induction false} Accounting(rows: seq<Row>)
    ensures M.CountRows(rows, Succeeded()) + M.CountRows(rows, T.Failing()) + M.CountRows(rows, Skipped())
         == |rows| + M.CountRows(rows, SkippedFailing())
  {
    if rows != [] {
      Accounting(rows[..|rows| - 1]);
    }
  }

  /** A row that shows a failure but carries no primary cause. */
  predicate MissingPrimary(r: Row) {
    && !r.skipped && !r.flags.modelOk && r.primary.None?
    && (r.timeout || r.truncated || r.nonJson || r.status != Ok
        || r.flags.posMiss || r.flags.negMiss || r.flags.corrMiss || r.flags.conflict
        || r.flags.overExtract || r.flags.empty || r.flags.forbidden)
  }

  predicate QuantHit(r: Row) { r.primary == Some(Quant) || Quant in r.secondary }

  predicate Near(a: real, b: real) { -0.000000001 < a - b < 0.000000001 }

  /** The eight metrics the validator recomputes. */
  predicate Agree(a: M.Metrics, b: M.Metrics) {
    && Near(a.posRecall, b.posRecall) && Near(a.posPrecision, b.posPrecision)
    && Near(a.negRecall, b.negRecall) && Near(a.negPrecision, b.negPrecision)
    && Near(a.corrRecall, b.corrRecall) && Near(a.schemaValidity, b.schemaValidity)
    && a.forbiddenCount == b.forbiddenCount && a.conflictCount == b.conflictCount
  }

  predicate SameCounts(a: Counter<Cause>, b: Counter<Cause>) {
    forall c: Cause :: CounterTotal(a, T.Is(c)) == CounterTotal(b, T.Is(c))
  }

  datatype SummaryKey = ModelWeighted | RuntimeWeighted | MatcherWeighted | NextStep

  const SUMMARY_KEYS := {ModelWeighted, RuntimeWeighted, MatcherWeighted, NextStep}

  /** The patterns file as it is found: its cause counts, the keys of its decision hint, and its
      positive targets. Each of the three may be missing, which reads as empty. */
  datatype Stored = Stored(causes: Counter<Cause>, summary: set<SummaryKey>, targets: seq<nat>)

  const NOTHING := Stored([], {}, [])

  /** The stored artifacts; a missing file is `None`. */
  datatype Artifacts = Artifacts(metrics: Option<M.Metrics>, patterns: Option<Stored>)

  datatype Check =
    | AccountedRows | RowCount | RawPresent | PrimaryPresent | NoQuant
    | MetricsRecomputable | CauseCounts | SummaryPresent | TargetsPresent

  ghost predicate Holds(rows: seq<Row>, expected: int, a: Artifacts, check: Check) {
    match check
    case AccountedRows =>
      |rows| == expected && forall r :: r in rows ==> !(r.skipped && r.primary.Some?)
    case RowCount => |rows| == expected
    case RawPresent => forall r :: r in rows ==> r.hasRaw
    case PrimaryPresent => forall r :: r in rows ==> !MissingPrimary(r)
    case NoQuant => forall r :: r in rows ==> !QuantHit(r)
    case MetricsRecomputable => a.metrics.Some? && Agree(a.metrics.value, M.MetricsOf(rows))
    case CauseCounts => SameCounts(T.CauseCounter(rows), a.patterns.GetOr(NOTHING).causes)
    case SummaryPresent => forall k: SummaryKey :: k in a.patterns.GetOr(NOTHING).summary
    case TargetsPresent => HasTarget(a.patterns.GetOr(NOTHING).targets)
  }

  const CHECKS: seq<Check> := [
    AccountedRows, RowCount, RawPresent, PrimaryPresent, NoQuant, MetricsRecomputable, CauseCounts, SummaryPresent,
    TargetsPresent]

  lemma {:induction false} NoneCounted(rows: seq<Row>, p: Row -> bool)
    ensures M.CountRows(rows, p) == 0 <==> forall r :: r in rows ==> !p(r)
  {
    if rows != [] {
      var n := |rows| - 1;
      NoneCounted(rows[..n], p);
      assert forall r :: r in rows <==> r in rows[..n] || r == rows[n];
    }
  }

  /** The rows, counted in one pass. */
  method CountRowKinds(rows: seq<Row>) returns (success: nat, failed: nat, skipped: nat)
    ensures success == M.CountRows(rows, Succeeded()) && failed == M.CountRows(rows, T.Failing())
    ensures skipped == M.CountRows(rows, Skipped())
  {
    success, failed, skipped := 0, 0, 0;
    var i := 0;
    while i < |rows|
      invariant 0 <= i <= |rows|
      invariant success == M.CountRows(rows[..i], Succeeded()) && failed == M.CountRows(rows[..i], T.Failing())
      invariant skipped == M.CountRows(rows[..i], Skipped())
    {
      assert rows[..i + 1][..i] == rows[..i];
      if rows[i].primary.Some? {
        failed := failed + 1;
      } else if !rows[i].skipped {
        success := success + 1;
      }
      if rows[i].skipped {
        skipped := skipped + 1;
      }
      i := i + 1;
    }
    assert rows[..i] == rows;
  }

  /** The rows the validator complains about. */
  method FindSuspects(rows: seq<Row>) returns (rawless: seq<Row>, missing: seq<Row>, quant: seq<Row>)
    ensures forall r :: r in rawless <==> r in rows && !r.hasRaw
    ensures forall r :: r in missing <==> r in rows && MissingPrimary(r)
    ensures forall r :: r in quant <==> r in rows && QuantHit(r)
  {
    rawless, missing, quant := [], [], [];
    for i := 0 to |rows|
      invariant forall r :: r in rawless <==> r in rows[..i] && !r.hasRaw
      invariant forall r :: r in missing <==> r in rows[..i] && MissingPrimary(r)
      invariant forall r :: r in quant <==> r in rows[..i] && QuantHit(r)
    {
      assert rows[..i + 1] == rows[..i] + [rows[i]];
      if !rows[i].hasRaw {
        rawless := rawless + [rows[i]];
      }
      if MissingPrimary(rows[i]) {
        missing := missing + [rows[i]];
      }
      if QuantHit(rows[i]) {
        quant := quant + [rows[i]];
      }
    }
    assert rows[..|rows|] == rows;
  }

  /** The five checks that look at the rows alone. */
  method JudgeRows(rows: seq<Row>, expected: int, a: Artifacts) returns (checks: seq<(Check, bool)>)
    ensures |checks| == 5
    ensures forall k :: 0 <= k < 5 ==> checks[k] == (CHECKS[k], Holds(rows, expected, a, CHECKS[k]))
  {
    var success, failed, skipped := CountRowKinds(rows);
    Accounting(rows);
    NoneCounted(rows, SkippedFailing());
    var rawless, missing, quant := FindSuspects(rows);
    hide M.CountRows, MissingPrimary, QuantHit;
    EmptyIffNone(rows, rawless, (r: Row) => !r.hasRaw);
    EmptyIffNone(rows, missing, (r: Row) => MissingPrimary(r));
    EmptyIffNone(rows, quant, (r: Row) => QuantHit(r));
    assert Holds(rows, expected, a, AccountedRows) <==> success + failed + skipped == expected && |rows| == expected;
    checks := [(AccountedRows, success + failed + skipped == expected && |rows| == expected)];
    checks := checks + [(RowCount, |rows| == expected)];
    checks := checks + [(RawPresent, |rawless| == 0)];
    checks := checks + [(PrimaryPresent, |missing| == 0)];
    checks := checks + [(NoQuant, |quant| == 0)];
  }

  lemma AllKeys(keys: set<SummaryKey>)
    ensures SUMMARY_KEYS <= keys <==> forall k: SummaryKey :: k in keys
  {
    forall k: SummaryKey ensures k in SUMMARY_KEYS {
      match k
      case ModelWeighted => case RuntimeWeighted => case MatcherWeighted => case NextStep =>
    }
  }

  /** The four checks that compare the stored artifacts with the rows. */
  method JudgeArtifacts(rows: seq<Row>, expected: int, a: Artifacts) returns (checks: seq<(Check, bool)>)
    ensures |checks| == 4
    ensures forall k :: 0 <= k < 4 ==> checks[k] == (CHECKS[5 + k], Holds(rows, expected, a, CHECKS[5 + k]))
  {
    var metrics := M.ComputeMetrics(rows);
    var causes, _, _, _ := T.CountFailures(rows);
    hide M.MetricsOf, T.CauseCounter, T.FailCounter, Agree, SameCounts, HasTarget;
    checks := [(MetricsRecomputable, a.metrics.Some? && Agree(a.metrics.value, metrics))];
    var stored := a.patterns.GetOr(NOTHING);
    AllKeys(stored.summary);
    checks := checks + [(CauseCounts, SameCounts(causes, stored.causes))];
    checks := checks + [(SummaryPresent, SUMMARY_KEYS <= stored.summary)];
    checks := checks + [(TargetsPresent, HasTarget(stored.targets))];
  }

  /** Each check passes exactly when what it looks for holds. */
  method ValidateEnd(rows: seq<Row>, expected: int, a: Artifacts) returns (checks: seq<(Check, bool)>, allOk: bool)
    ensures |checks| == |CHECKS|
    ensures forall k :: 0 <= k < |CHECKS| ==> checks[k] == (CHECKS[k], Holds(rows, expected, a, CHECKS[k]))
    ensures allOk <==> forall c: Check :: Holds(rows, expected, a, c)
  {
    hide Holds;
    var first := JudgeRows(rows, expected, a);
    var rest := JudgeArtifacts(rows, expected, a);
    checks := first + rest;
    forall k | 0 <= k < |CHECKS| ensures checks[k] == (CHECKS[k], Holds(rows, expected, a, CHECKS[k])) {
      assert k >= 5 ==> checks[k] == rest[k - 5];
    }
    AllOrNone(rows, expected, a, checks);
    allOk := forall k :: 0 <= k < |checks| ==> checks[k].1;
  }

  predicate HasTarget(targets: seq<nat>) { exists i :: 0 <= i < |targets| && targets[i] > 0 }

  lemma EmptyIffNone(rows: seq<Row>, found: seq<Row>, p: Row -> bool)
    requires forall r :: r in found <==> r in rows && p(r)
    ensures |found| == 0 <==> forall r :: r in rows ==> !p(r)
  {
    if |found| > 0 {
      assert found[0] in found;
    }
  }

  function Number(c: Check): (k: nat)
    ensures k < |CHECKS| && CHECKS[k] == c
  {
    match c
    case AccountedRows => 0
    case RowCount => 1
    case RawPresent => 2
    case PrimaryPresent => 3
    case NoQuant => 4
    case MetricsRecomputable => 5
    case CauseCounts => 6
    case SummaryPresent => 7
    case TargetsPresent => 8
  }

  lemma AllOrNone(rows: seq<Row>, expected: int, a: Artifacts, checks: seq<(Check, bool)>)
    requires |checks| == |CHECKS|
    requires forall k :: 0 <= k < |CHECKS| ==> checks[k] == (CHECKS[k], Holds(rows, expected, a, CHECKS[k]))
    ensures (forall k :: 0 <= k < |checks| ==> checks[k].1) <==> forall c: Check :: Holds(rows, expected, a, c)
  {
    hide Holds;
    if forall k :: 0 <= k < |checks| ==> checks[k].1 {
      forall c: Check ensures Holds(rows, expected, a, c) {
        assert checks[Number(c)].1;
      }
    }
  }

  // ---------- the validator accepts every export ----------

  /** What the exporter writes next to the rows. */
  function WrittenBeside(rows: seq<Row>): Artifacts {
    var report := T.PatternsReport(rows);
    Artifacts(Some(M.MetricsOf(rows)), Some(Stored(report.causes, SUMMARY_KEYS, report.targets)))
  }

  /** No exported row shows a failure without a cause, and none carries QUANT. */
  lemma ExportedRowsPass(r: Row, s: Sample)
    requires IsExportOf(r, s)
    ensures !MissingPrimary(r) && !QuantHit(r) && !r.skipped && r.hasRaw
  {
    NoCauseIffModelOk(r, s);
    StoredCausesRanked(r, s);
  }

  lemma ExportedRowsAllPass(rows: seq<Row>, samples: seq<Sample>)
    requires IsExport(rows, samples)
    ensures forall r :: r in rows ==> !MissingPrimary(r) && !QuantHit(r) && !r.skipped && r.hasRaw
  {
    forall r | r in rows ensures !MissingPrimary(r) && !QuantHit(r) && !r.skipped && r.hasRaw {
      var i :| 0 <= i < |rows| && rows[i] == r;
      assert IsExportOf(rows[i], samples[i]);
      hide IsExportOf, MissingPrimary, QuantHit;
      ExportedRowsPass(r, samples[i]);
    }
  }

  lemma RowChecksPass(rows: seq<Row>, a: Artifacts)
    requires forall r :: r in rows ==> !MissingPrimary(r) && !QuantHit(r) && !r.skipped && r.hasRaw
    ensures forall c: Check :: Number(c) < 5 ==> Holds(rows, |rows|, a, c)
  {
    hide MissingPrimary, QuantHit, M.MetricsOf, T.CauseCounter, Agree, SameCounts, HasTarget;
  }

  lemma OwnArtifactsPass(rows: seq<Row>, expected: int)
    ensures forall c: Check :: Number(c) >= 5 ==> Holds(rows, expected, WrittenBeside(rows), c)
  {
    hide T.CauseCounter, T.CausePatterns, T.ShownCounter, T.FailCounter, T.Targets, T.DecisionHint, T.Base, T.Bases;
    hide M.MetricsOf, M.CountRows;
    T.TargetsWithinBudget(T.FailCounter(rows));
    AllKeys(SUMMARY_KEYS);
    assert T.Targets(T.FailCounter(rows))[0] > 0;
  }

  /** The artifacts of every export pass all nine checks. */
  lemma ExportValidates(rows: seq<Row>, samples: seq<Sample>)
    requires IsExport(rows, samples)
    ensures forall c: Check :: Holds(rows, |samples|, WrittenBeside(rows), c)
  {
    ExportedRowsAllPass(rows, samples);
    OwnArtifactsPass(rows, |samples|);
    RowChecksPass(rows, WrittenBeside(rows));
    hide Holds, WrittenBeside, IsExportOf;
  }
}
