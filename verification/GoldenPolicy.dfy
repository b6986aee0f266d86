/** The policy-gap evaluator and the approval run it feeds. */
module GoldenPolicy {
  import opened Prelude
  import opened Text
  import opened GoldenProtocol

  // The evaluator counts golden cases per bucket string and then per policy label; the approval
  // run walks the reviewable rows in id order and approves as many per label as the evaluator
  // asked for. The two read the bucket of a row in different ways. This module proves what one
  // run does row by row, and for which tables re-evaluating afterwards gives exactly the numbers
  // the run reported.

  datatype Label = ProductSearch | TypoAlias | NegationCorrection | Clarification | NoResult | LlmRequired

  const LABELS: seq<Label> := [ProductSearch, TypoAlias, NegationCorrection, Clarification, NoResult, LlmRequired]

  /** Where a label stands in the policy. */
  function Position(l: Label): (k: nat)
    ensures k < |LABELS| && LABELS[k] == l
    ensures forall j :: 0 <= j < |LABELS| && LABELS[j] == l ==> j == k
  {
    match l
    case ProductSearch => 0
    case TypoAlias => 1
    case NegationCorrection => 2
    case Clarification => 3
    case NoResult => 4
    case LlmRequired => 5
  }

  lemma AllLabels()
    ensures forall l: Label :: l in LABELS
  {
    forall l: Label ensures l in LABELS {
      assert LABELS[Position(l)] == l;
    }
  }

  /** A golden case; `rowVersion` 0 also stands for a missing version, as in the script. */
  datatype Row = Row(
    status: Status,
    bucket: Option<string>,
    expectedBucket: Option<string>,
    signal: Option<string>,
    weight: Option<real>,
    expectedWeight: Option<real>,
    preparedBy: Option<string>,
    reviewedBy: Option<string>,
    rowVersion: int)

  // ---------- buckets and labels ----------

  predicate At(s: string, needle: string, i: nat) {
    i + |needle| <= |s| && s[i..i + |needle|] == needle
  }

  predicate Contains(s: string, needle: string) {
    exists i: nat :: i <= |s| && At(s, needle, i)
  }

  function Needles(l: Label): seq<string> {
    match l
    case ProductSearch => ["product_search", "product-search", "product search"]
    case TypoAlias => ["typo", "alias"]
    case NegationCorrection => ["negation", "correction"]
    case Clarification => ["clarification"]
    case NoResult => ["no_result", "no-result"]
    case LlmRequired => ["llm"]
  }

  predicate Matches(bucket: string, l: Label) {
    exists i :: 0 <= i < |Needles(l)| && Contains(Lower(bucket), Needles(l)[i])
  }

  /** The evaluator's bucket: SQL `coalesce`, so an empty string stands. */
  function EvalBucket(r: Row): string {
    if r.bucket.Some? then r.bucket.value
    else if r.expectedBucket.Some? then r.expectedBucket.value
    else r.signal.GetOr("unknown")
  }

  function Truthy(s: Option<string>): string { s.GetOr("") }

  /** The approval run's bucket: Python `or`, so an empty string is skipped. */
  function ApproverBucket(r: Row): string {
    if Truthy(r.bucket) != "" then Truthy(r.bucket)
    else if Truthy(r.expectedBucket) != "" then Truthy(r.expectedBucket)
    else Truthy(r.signal)
  }

  /** The first label from `LABELS[k..]` that the bucket matches. */
  function FirstLabel(bucket: string, k: nat): (l: Option<Label>)
    requires k <= |LABELS|
    ensures l.Some? ==> Matches(bucket, l.value)
    ensures l.None? ==> forall j :: k <= j < |LABELS| ==> !Matches(bucket, LABELS[j])
    ensures l.Some? ==> forall j :: k <= j < Position(l.value) ==> !Matches(bucket, LABELS[j])
    decreases |LABELS| - k
  {
    if k == |LABELS| then None
    else if Matches(bucket, LABELS[k]) then Some(LABELS[k])
    else FirstLabel(bucket, k + 1)
  }

  function LabelOf(r: Row): Option<Label> { FirstLabel(ApproverBucket(r), 0) }

  predicate Reviewable(r: Row) { r.status == ReviewRequired || r.status == NeedsRevision }

  // ---------- the evaluator ----------

  function ApprovedIn(rows: seq<Row>, l: Label): nat -> bool {
    (i: nat) => i < |rows| && rows[i].status == Status.Approved && Matches(EvalBucket(rows[i]), l)
  }

  function WaitingIn(rows: seq<Row>, l: Label): nat -> bool {
    (i: nat) => i < |rows| && (Reviewable(rows[i]) || rows[i].status == Candidate) && Matches(EvalBucket(rows[i]), l)
  }

  function ApprovedCount(rows: seq<Row>, l: Label): nat { Tally(|rows|, ApprovedIn(rows, l)) }

  function CandidateCount(rows: seq<Row>, l: Label): nat {
    Tally(|rows|, WaitingIn(rows, l)) + ApprovedCount(rows, l)
  }

  /** `int(thr.get(key) or 0)`. */
  function Minimum(minima: map<Label, int>, l: Label): int { if l in minima then minima[l] else 0 }

  function ApprovalGap(rows: seq<Row>, minima: map<Label, int>, l: Label): nat {
    Max(0, Minimum(minima, l) - ApprovedCount(rows, l))
  }

  /** A weight of zero counts as one. */
  function Weight(r: Row): real {
    var w := r.weight.GetOr(r.expectedWeight.GetOr(1.0));
    if w == 0.0 then 1.0 else w
  }

  function EligibleWeight(rows: seq<Row>): real {
    if rows == [] then 0.0 else EligibleWeight(rows[..|rows| - 1]) + Weight(rows[|rows| - 1])
  }

  function ApprovedWeight(rows: seq<Row>): real {
    if rows == [] then 0.0
    else
      var last := rows[|rows| - 1];
      ApprovedWeight(rows[..|rows| - 1]) + (if last.status == Status.Approved then Weight(last) else 0.0)
  }

  function Coverage(rows: seq<Row>): real {
    if EligibleWeight(rows) > 0.0 then ApprovedWeight(rows) / EligibleWeight(rows) else 0.0
  }

  datatype Line = Line(candidates: nat, approved: nat, minimum: int, candidateGap: nat, approvalGap: nat)

  datatype Report = Report(lines: map<Label, Line>, eligible: real, approved: real, coverage: real)

  function LineOf(rows: seq<Row>, minima: map<Label, int>, l: Label): Line {
    Line(CandidateCount(rows, l), ApprovedCount(rows, l), Minimum(minima, l),
         Max(0, Minimum(minima, l) - CandidateCount(rows, l)), ApprovalGap(rows, minima, l))
  }

  function Named(l: Label): string -> bool { bucket => Matches(bucket, l) }

  /** `count_label`: counting per bucket string and then per label. */
  function CountLabel(store: Counter<string>, l: Label): nat { CounterTotal(store, Named(l)) }

  /** What the two stores hold after the first `n` rows. */
  ghost predicate Stored(rows: seq<Row>, n: nat, cand: Counter<string>, appr: Counter<string>) {
    forall l: Label :: CountLabel(cand, l) == Tally(n, WaitingIn(rows, l)) &&
        CountLabel(appr, l) == Tally(n, ApprovedIn(rows, l))
  }

  lemma BumpLabels(store: Counter<string>, bucket: string)
    ensures forall l: Label ::
      CountLabel(Bump(store, bucket), l) == (CountLabel(store, l) + if Matches(bucket, l) then 1 else 0)
  {
    hide Matches;
    forall l: Label
      ensures CountLabel(Bump(store, bucket), l) == (CountLabel(store, l) + if Matches(bucket, l) then 1 else 0)
    {
      BumpTotal(store, bucket, Named(l));
    }
  }

  lemma StoredNext(rows: seq<Row>, i: nat, cand: Counter<string>, appr: Counter<string>)
    requires i < |rows| && Stored(rows, i, cand, appr)
    ensures var b := EvalBucket(rows[i]);
      Stored(rows, i + 1,
             if Reviewable(rows[i]) || rows[i].status == Candidate then Bump(cand, b) else cand,
             if rows[i].status == Status.Approved then Bump(appr, b) else appr)
  {
    BumpLabels(cand, EvalBucket(rows[i]));
    BumpLabels(appr, EvalBucket(rows[i]));
    hide Matches, CountLabel, EvalBucket, Bump;
  }

  /** One pass over the table. */
  method CountBuckets(rows: seq<Row>)
      returns (cand: Counter<string>, appr: Counter<string>, eligible: real, approved: real)
    ensures Stored(rows, |rows|, cand, appr)
    ensures eligible == EligibleWeight(rows) && approved == ApprovedWeight(rows)
  {
    cand, appr, eligible, approved := [], [], 0.0, 0.0;
    var i := 0;
    hide Stored, Bump, EvalBucket, Weight;
    NothingStored(rows);
    while i < |rows|
      invariant 0 <= i <= |rows| && Stored(rows, i, cand, appr)
      invariant eligible == EligibleWeight(rows[..i]) && approved == ApprovedWeight(rows[..i])
    {
      var b, w := EvalBucket(rows[i]), Weight(rows[i]);
      assert rows[..i + 1][..i] == rows[..i];
      StoredNext(rows, i, cand, appr);
      eligible := eligible + w;
      if Reviewable(rows[i]) || rows[i].status == Candidate {
        cand := Bump(cand, b);
      }
      if rows[i].status == Status.Approved {
        appr := Bump(appr, b);
        approved := approved + w;
      }
      i := i + 1;
    }
    assert rows[..|rows|] == rows;
  }

  lemma NothingStored(rows: seq<Row>)
    ensures Stored(rows, 0, [], [])
  {
  }

  /** The six report lines and the demand coverage of a table. */
  method EvaluatePolicyGap(rows: seq<Row>, minima: map<Label, int>) returns (report: Report)
    ensures forall l: Label :: l in report.lines && report.lines[l] == LineOf(rows, minima, l)
    ensures report.eligible == EligibleWeight(rows) && report.approved == ApprovedWeight(rows)
    ensures report.coverage == Coverage(rows)
  {
    var cand, appr, eligible, approved := CountBuckets(rows);
    var lines: map<Label, Line> := map[];
    var k := 0;
    hide CountLabel, WaitingIn, ApprovedIn, Tally;
    while k < |LABELS|
      invariant 0 <= k <= |LABELS|
      invariant forall l: Label :: l in lines <==> Position(l) < k
      invariant forall l: Label :: l in lines ==> lines[l] == LineOf(rows, minima, l)
    {
      var l := LABELS[k];
      var c, a, minimum := CountLabel(cand, l) + CountLabel(appr, l), CountLabel(appr, l), Minimum(minima, l);
      lines := lines[l := Line(c, a, minimum, Max(0, minimum - c), Max(0, minimum - a))];
      k := k + 1;
    }
    report := Report(lines, eligible, approved, if eligible > 0.0 then approved / eligible else 0.0);
  }

  // ---------- the approval run ----------

  function ReviewableIn(rows: seq<Row>, l: Label): nat -> bool {
    (i: nat) => i < |rows| && Reviewable(rows[i]) && LabelOf(rows[i]) == Some(l)
  }

  /** The reviewable rows of a label. */
  function ReviewableCount(rows: seq<Row>, l: Label): nat { Tally(|rows|, ReviewableIn(rows, l)) }

  /** Row `i` is among the first `Minimum(need, l)` reviewable rows of its label. */
  predicate Chosen(rows: seq<Row>, need: map<Label, int>, i: nat) {
    && i < |rows| && Reviewable(rows[i]) && LabelOf(rows[i]).Some?
    && Tally(i, ReviewableIn(rows, LabelOf(rows[i]).value)) < Minimum(need, LabelOf(rows[i]).value)
  }

  function ChosenIn(rows: seq<Row>, need: map<Label, int>, l: Label): nat -> bool {
    (i: nat) => Chosen(rows, need, i) && LabelOf(rows[i]) == Some(l)
  }

  /** Of each label, as many as asked for or as there are. */
  lemma {:induction false} ChosenCount(rows: seq<Row>, need: map<Label, int>, l: Label, n: nat)
    requires n <= |rows|
    ensures Tally(n, ChosenIn(rows, need, l)) == Min(Max(0, Minimum(need, l)), Tally(n, ReviewableIn(rows, l)))
  {
    hide LabelOf;
    if n > 0 {
      ChosenCount(rows, need, l, n - 1);
    }
  }

  function ApprovedRow(r: Row, preparer: string, reviewer: string): Row {
    r.(status := Status.Approved, preparedBy := Some(preparer), reviewedBy := Some(reviewer),
       rowVersion := r.rowVersion + 2)
  }

  /** The two updates match exactly the chosen rows that have a version. */
  predicate Written(rows: seq<Row>, need: map<Label, int>, i: nat) {
    Chosen(rows, need, i) && rows[i].rowVersion != 0
  }

  /** The table after a run nobody interferes with. */
  ghost predicate RunResult(rows: seq<Row>, need: map<Label, int>, preparer: string, reviewer: string,
      after: seq<Row>) {
    && |after| == |rows|
    && forall i: nat :: i < |rows| ==>
      after[i] == if Written(rows, need, i) then ApprovedRow(rows[i], preparer, reviewer) else rows[i]
  }

  class Table {
    var rows: seq<Row>

    constructor (rows: seq<Row>)
      ensures this.rows == rows
    {
      this.rows := rows;
    }

    /** UPDATE … WHERE id = i AND row_version = version. */
    method Prepare(i: nat, preparer: string, version: int)
      modifies this
      ensures rows == if i < |old(rows)| && old(rows)[i].rowVersion == version
        then old(rows)[i := old(rows)[i].(preparedBy := Some(preparer), rowVersion := version + 1)] else old(rows)
    {
      if i < |rows| && rows[i].rowVersion == version {
        rows := rows[i := rows[i].(preparedBy := Some(preparer), rowVersion := version + 1)];
      }
    }

    /** UPDATE … WHERE id = i AND row_version = version AND prepared_by <> reviewer. */
    method Approve(i: nat, reviewer: string, version: int)
      modifies this
      ensures rows == if i < |old(rows)| && old(rows)[i].rowVersion == version
          && old(rows)[i].preparedBy.Some? && old(rows)[i].preparedBy.value != reviewer
        then old(rows)[i := old(rows)[i].(status := Status.Approved, reviewedBy := Some(reviewer),
                                          rowVersion := version + 1)]
        else old(rows)
    {
      if i < |rows| && rows[i].rowVersion == version && rows[i].preparedBy.Some? &&
          rows[i].preparedBy.value != reviewer {
        rows := rows[i := rows[i].(status := Status.Approved, reviewedBy := Some(reviewer), rowVersion := version + 1)];
      }
    }

    /** Both updates, with the version as the run read it: `int(row_version or 1)`. */
    method PrepareAndApprove(i: nat, preparer: string, reviewer: string, version: int)
      requires i < |rows| && rows[i].rowVersion == version && preparer != reviewer
      modifies this
      ensures var row := old(rows)[i];
        rows == old(rows)[i := if version != 0 then ApprovedRow(row, preparer, reviewer) else row]
    {
      var rv := if version == 0 then 1 else version;
      Prepare(i, preparer, rv);
      Approve(i, reviewer, rv + 1);
    }

    /** Whether row `i` is to be approved, and the counters after that. */
    method Decide(fetched: seq<Row>, ghost gap: map<Label, int>, i: nat, approved: map<Label, nat>,
        need: map<Label, int>)
      returns (take: bool, a: map<Label, nat>, n: map<Label, int>)
      requires i < |fetched| && CountsDone(fetched, gap, i, approved, need)
      ensures take <==> Chosen(fetched, gap, i)
      ensures CountsDone(fetched, gap, i + 1, a, n)
    {
      CountsStep(fetched, gap, i, approved, need);
      hide LabelOf, Chosen, CountsDone, Written;
      a, n := approved, need;
      var lab := LabelOf(fetched[i]);
      take := Reviewable(fetched[i]) && lab.Some? && need[lab.value] > 0;
      if take {
        a := approved[lab.value := approved[lab.value] + 1];
        n := need[lab.value := need[lab.value] - 1];
      }
    }

    /** One turn of the loop over the rows as they were read. */
    method ApproveOne(fetched: seq<Row>, ghost gap: map<Label, int>, preparer: string, reviewer: string, i: nat,
        approved: map<Label, nat>, need: map<Label, int>)
      returns (a: map<Label, nat>, n: map<Label, int>)
      requires i < |fetched| && preparer != reviewer
      requires RowsDone(fetched, gap, preparer, reviewer, i, rows) && CountsDone(fetched, gap, i, approved, need)
      modifies this
      ensures RowsDone(fetched, gap, preparer, reviewer, i + 1, rows) && CountsDone(fetched, gap, i + 1, a, n)
    {
      RowsStep(fetched, gap, preparer, reviewer, i, rows);
      assert Written(fetched, gap, i) <==> Chosen(fetched, gap, i) && fetched[i].rowVersion != 0;
      hide CountsDone, RowsDone, Chosen, Written;
      var take: bool;
      take, a, n := Decide(fetched, gap, i, approved, need);
      if take {
        PrepareAndApprove(i, preparer, reviewer, fetched[i].rowVersion);
        assert rows == old(rows) || fetched[i].rowVersion != 0;
      }
    }

    /** The loop over the rows as they were read. */
    method ApproveRows(gap: map<Label, int>, preparer: string, reviewer: string, zero: map<Label, nat>,
        needs: map<Label, int>)
      returns (approved: map<Label, nat>, need: map<Label, int>)
      requires preparer != reviewer && CountsDone(rows, gap, 0, zero, needs)
      modifies this
      ensures RowsDone(old(rows), gap, preparer, reviewer, |old(rows)|, rows)
      ensures CountsDone(old(rows), gap, |old(rows)|, approved, need)
    {
      approved, need := zero, needs;
      var fetched, i := rows, 0;
      assert RowsDone(fetched, gap, preparer, reviewer, 0, rows);
      hide CountsDone, RowsDone, Chosen, Written, Tally, ReviewableIn, ChosenIn, Matches, LabelOf;
      while i < |fetched|
        invariant 0 <= i <= |fetched|
        invariant RowsDone(fetched, gap, preparer, reviewer, i, rows)
        invariant CountsDone(fetched, gap, i, approved, need)
      {
        approved, need := ApproveOne(fetched, gap, preparer, reviewer, i, approved, need);
        i := i + 1;
      }
    }

    /** Refuses when one person would be both; otherwise approves row by row and reports how
        many rows it counted per label. */
    method DualControlApprove(gap: map<Label, int>, preparer: string, reviewer: string)
      returns (ok: bool, approved: map<Label, nat>)
      modifies this
      ensures ok <==> preparer != reviewer
      ensures !ok ==> rows == old(rows)
      ensures ok ==> RunResult(old(rows), gap, preparer, reviewer, rows)
      ensures ok ==> forall l: Label ::
        l in approved && approved[l] == Min(Max(0, Minimum(gap, l)), ReviewableCount(old(rows), l))
    {
      approved := map l | l in LABELS :: 0;
      ok := preparer != reviewer;
      if ok {
        ghost var before := rows;
        var need := map l | l in LABELS :: Minimum(gap, l);
        CountsStart(before, gap, approved, need);
        hide CountsDone, LabelOf, Chosen;
        approved, need := ApproveRows(gap, preparer, reviewer, approved, need);
        CountsEnd(before, gap, approved, need);
      }
    }
  }

  lemma CountsStart(fetched: seq<Row>, gap: map<Label, int>, approved: map<Label, nat>, need: map<Label, int>)
    requires forall l :: l in LABELS ==> l in approved && approved[l] == 0 && l in need && need[l] == Minimum(gap, l)
    ensures CountsDone(fetched, gap, 0, approved, need)
  {
    AllLabels();
    hide Chosen;
  }

  /** The loop state after `i` rows: the rows written so far, and what is still needed. */
  ghost predicate RowsDone(fetched: seq<Row>, gap: map<Label, int>, preparer: string, reviewer: string, i: nat,
      rows: seq<Row>) {
    && |rows| == |fetched|
    && (forall k: nat :: k < i <= |rows| ==>
          rows[k] == if Written(fetched, gap, k) then ApprovedRow(fetched[k], preparer, reviewer) else fetched[k])
    && (forall k: nat :: i <= k < |rows| ==> rows[k] == fetched[k])
  }

  ghost predicate CountsDone(fetched: seq<Row>, gap: map<Label, int>, i: nat, approved: map<Label, nat>,
      need: map<Label, int>) {
    forall l: Label ::
      && l in approved && approved[l] == Tally(i, ChosenIn(fetched, gap, l))
      && l in need && need[l] == Minimum(gap, l) - Tally(i, ChosenIn(fetched, gap, l))
  }

  lemma RowsStep(fetched: seq<Row>, gap: map<Label, int>, preparer: string, reviewer: string, i: nat, rows: seq<Row>)
    requires i < |fetched| && RowsDone(fetched, gap, preparer, reviewer, i, rows)
    ensures |rows| == |fetched| && rows[i] == fetched[i]
    ensures Written(fetched, gap, i) ==>
      RowsDone(fetched, gap, preparer, reviewer, i + 1, rows[i := ApprovedRow(fetched[i], preparer, reviewer)])
    ensures !Written(fetched, gap, i) ==> RowsDone(fetched, gap, preparer, reviewer, i + 1, rows)
  {
    hide Written;
  }

  lemma CountsStep(fetched: seq<Row>, gap: map<Label, int>, i: nat, approved: map<Label, nat>, need: map<Label, int>)
    requires i < |fetched| && CountsDone(fetched, gap, i, approved, need)
    ensures forall l: Label :: l in approved && l in need
    ensures var lab := LabelOf(fetched[i]);
      && (Chosen(fetched, gap, i) <==> Reviewable(fetched[i]) && lab.Some? && need[lab.value] > 0)
      && (Written(fetched, gap, i) <==> Chosen(fetched, gap, i) && fetched[i].rowVersion != 0)
      && (Chosen(fetched, gap, i) ==>
            CountsDone(fetched, gap, i + 1, approved[lab.value := approved[lab.value] + 1],
                need[lab.value := need[lab.value] - 1]))
      && (!Chosen(fetched, gap, i) ==> CountsDone(fetched, gap, i + 1, approved, need))
  {
    var lab := LabelOf(fetched[i]);
    IsChosen(fetched, gap, i);
    hide LabelOf, Chosen;
  }

  lemma CountsEnd(fetched: seq<Row>, gap: map<Label, int>, approved: map<Label, nat>, need: map<Label, int>)
    requires CountsDone(fetched, gap, |fetched|, approved, need)
    ensures forall l: Label ::
      l in approved && approved[l] == Min(Max(0, Minimum(gap, l)), ReviewableCount(fetched, l))
  {
    hide LabelOf, Chosen, ChosenIn;
    forall l: Label ensures Tally(|fetched|, ChosenIn(fetched, gap, l)) ==
        Min(Max(0, Minimum(gap, l)), ReviewableCount(fetched, l)) {
      ChosenCount(fetched, gap, l, |fetched|);
    }
  }

  /** The remaining need of its label decides whether a reviewable row is chosen. */
  lemma IsChosen(rows: seq<Row>, need: map<Label, int>, i: nat)
    requires i < |rows|
    ensures Chosen(rows, need, i) <==>
      Reviewable(rows[i]) && LabelOf(rows[i]).Some?
      && Tally(i, ChosenIn(rows, need, LabelOf(rows[i]).value)) < Minimum(need, LabelOf(rows[i]).value)
  {
    hide LabelOf;
    if LabelOf(rows[i]).Some? {
      ChosenCount(rows, need, LabelOf(rows[i]).value, i);
    }
  }

  // ---------- evaluating again after the run ----------

  /** The rows the run approved and the evaluator counts for `l`. */
  function GainIn(rows: seq<Row>, need: map<Label, int>, l: Label): nat -> bool {
    (i: nat) => Written(rows, need, i) && Matches(EvalBucket(rows[i]), l)
  }

  /** Whatever the buckets look like: approved counts rise by the gain, candidates stay. */
  lemma RerunCounts(rows: seq<Row>, need: map<Label, int>, p: string, r: string, after: seq<Row>, l: Label)
    requires RunResult(rows, need, p, r, after)
    ensures ApprovedCount(after, l) == ApprovedCount(rows, l) + Tally(|rows|, GainIn(rows, need, l))
    ensures CandidateCount(after, l) == CandidateCount(rows, l)
  {
    ChosenAreReviewable(rows, need);
    hide Matches, Chosen;
    TallyUnion(|rows|, ApprovedIn(rows, l), GainIn(rows, need, l), ApprovedIn(after, l));
    TallyUnion(|rows|, WaitingIn(after, l), GainIn(rows, need, l), WaitingIn(rows, l));
  }

  lemma ChosenAreReviewable(rows: seq<Row>, need: map<Label, int>)
    ensures forall i: nat :: Chosen(rows, need, i) ==> i < |rows| && Reviewable(rows[i])
  {
  }

  function GapsOf(rows: seq<Row>, minima: map<Label, int>): (gaps: map<Label, int>)
    ensures forall l: Label :: Minimum(gaps, l) == ApprovalGap(rows, minima, l)
  {
    AllLabels();
    map l | l in LABELS :: ApprovalGap(rows, minima, l)
  }

  /** Re-evaluating gives, for every label, the gap less what the run reported. */
  ghost predicate Agrees(rows: seq<Row>, minima: map<Label, int>, after: seq<Row>) {
    forall l: Label :: ApprovalGap(after, minima, l)
      == ApprovalGap(rows, minima, l) - Min(ApprovalGap(rows, minima, l), ReviewableCount(rows, l))
  }

  /** The evaluator files the row under the label the approval run works on, and no other;
      and the row has a version. */
  ghost predicate Consistent(r: Row) {
    Reviewable(r) && LabelOf(r).Some? ==>
      r.rowVersion != 0 && forall l: Label :: Matches(EvalBucket(r), l) <==> LabelOf(r) == Some(l)
  }

  lemma AgreementHolds(rows: seq<Row>, minima: map<Label, int>, p: string, r: string, after: seq<Row>)
    requires forall row :: row in rows ==> Consistent(row)
    requires RunResult(rows, GapsOf(rows, minima), p, r, after)
    ensures Agrees(rows, minima, after)
  {
    var need := GapsOf(rows, minima);
    forall l: Label
      ensures ApprovalGap(after, minima, l)
        == ApprovalGap(rows, minima, l) - Min(ApprovalGap(rows, minima, l), ReviewableCount(rows, l))
    {
      GainIsChosen(rows, need, l);
      RerunCounts(rows, need, p, r, after, l);
      ChosenCount(rows, need, l, |rows|);
    }
  }

  lemma GainIffChosen(rows: seq<Row>, need: map<Label, int>, l: Label, i: nat)
    requires i < |rows| && Consistent(rows[i])
    ensures GainIn(rows, need, l)(i) <==> ChosenIn(rows, need, l)(i)
  {
    ChosenAreReviewable(rows, need);
    assert Chosen(rows, need, i) ==> LabelOf(rows[i]).Some?;
    hide Chosen, LabelOf, Matches;
  }

  lemma GainIsChosen(rows: seq<Row>, need: map<Label, int>, l: Label)
    requires forall row :: row in rows ==> Consistent(row)
    ensures Tally(|rows|, GainIn(rows, need, l)) == Tally(|rows|, ChosenIn(rows, need, l))
  {
    hide Chosen, LabelOf, Matches, Consistent, GainIn, ChosenIn;
    forall i: nat | i < |rows| ensures GainIn(rows, need, l)(i) <==> ChosenIn(rows, need, l)(i) {
      GainIffChosen(rows, need, l, i);
    }
    TallyMono(|rows|, GainIn(rows, need, l), ChosenIn(rows, need, l));
    TallyMono(|rows|, ChosenIn(rows, need, l), GainIn(rows, need, l));
  }

  function AfterRun(rows: seq<Row>, need: map<Label, int>, p: string, r: string): (after: seq<Row>)
    ensures RunResult(rows, need, p, r, after)
  {
    seq(|rows|, i requires 0 <= i < |rows| => if Written(rows, need, i) then ApprovedRow(rows[i], p, r) else rows[i])
  }

  /** A row the run works on for `m` without the evaluator noticing. */
  predicate Missed(rows: seq<Row>, j: nat, m: Label) {
    j < |rows| && ReviewableIn(rows, m)(j) && (rows[j].rowVersion == 0 || !Matches(EvalBucket(rows[j]), m))
  }

  /** A chosen row that is not approved, or not counted for its label, leaves a gap. */
  lemma MissedRow(rows: seq<Row>, j: nat, m: Label, p: string, r: string)
    requires Missed(rows, j, m)
    ensures var minima := map[m := ApprovedCount(rows, m) + ReviewableCount(rows, m)];
      !Agrees(rows, minima, AfterRun(rows, GapsOf(rows, minima), p, r))
  {
    hide Missed, ApprovedCount, ReviewableCount, AfterRun, GapsOf, GainIn, RunResult;
    var minima := map[m := ApprovedCount(rows, m) + ReviewableCount(rows, m)];
    var need := GapsOf(rows, minima);
    var after := AfterRun(rows, need, p, r);
    RerunCounts(rows, need, p, r, after, m);
    MissedGain(rows, need, j, m);
  }

  lemma MissedGain(rows: seq<Row>, need: map<Label, int>, j: nat, m: Label)
    requires Missed(rows, j, m) && forall l: Label :: l != m ==> Minimum(need, l) == 0
    ensures Tally(|rows|, GainIn(rows, need, m)) < ReviewableCount(rows, m)
  {
    OnlyOneLabel(rows, need, m);
    hide Chosen, Matches, LabelOf;
    TallyStrict(|rows|, GainIn(rows, need, m), ReviewableIn(rows, m), j);
  }

  lemma OnlyOneLabel(rows: seq<Row>, need: map<Label, int>, m: Label)
    requires forall l: Label :: l != m ==> Minimum(need, l) == 0
    ensures forall i: nat :: Chosen(rows, need, i) ==> ReviewableIn(rows, m)(i)
  {
    hide Matches, LabelOf;
  }

  /** A row that is also counted for another label closes a gap nobody worked on. */
  lemma SharedRow(rows: seq<Row>, i: nat, l: Label, o: Label, p: string, r: string)
    requires i < |rows| && ReviewableIn(rows, l)(i) && o != l
    requires rows[i].rowVersion != 0 && Matches(EvalBucket(rows[i]), o)
    requires forall k: nat :: !Missed(rows, k, o)
    ensures var minima := map[l := ApprovedCount(rows, l) + ReviewableCount(rows, l),
                              o := ApprovedCount(rows, o) + ReviewableCount(rows, o) + 1];
      !Agrees(rows, minima, AfterRun(rows, GapsOf(rows, minima), p, r))
  {
    hide Missed, Matches, LabelOf, ApprovedCount, ReviewableCount, AfterRun, GapsOf, GainIn, RunResult;
    var minima := map[l := ApprovedCount(rows, l) + ReviewableCount(rows, l),
                      o := ApprovedCount(rows, o) + ReviewableCount(rows, o) + 1];
    var need := GapsOf(rows, minima);
    var after := AfterRun(rows, need, p, r);
    RerunCounts(rows, need, p, r, after, o);
    SharedGain(rows, need, i, l, o);
  }

  lemma SharedGain(rows: seq<Row>, need: map<Label, int>, i: nat, l: Label, o: Label)
    requires i < |rows| && ReviewableIn(rows, l)(i) && o != l
    requires rows[i].rowVersion != 0 && Matches(EvalBucket(rows[i]), o)
    requires forall k: nat :: !Missed(rows, k, o)
    requires Minimum(need, l) >= ReviewableCount(rows, l) && Minimum(need, o) > ReviewableCount(rows, o)
    ensures Tally(|rows|, GainIn(rows, need, o)) > ReviewableCount(rows, o)
  {
    hide Matches, FirstLabel;
    TallyBelow(|rows|, ReviewableIn(rows, l), i);
    AllTaken(rows, need, o);
    assert GainIn(rows, need, o)(i) && !ReviewableIn(rows, o)(i);
    hide Chosen, LabelOf;
    forall k: nat | k < |rows| && ReviewableIn(rows, o)(k) ensures GainIn(rows, need, o)(k) {
      assert !Missed(rows, k, o);
    }
    TallyStrict(|rows|, ReviewableIn(rows, o), GainIn(rows, need, o), i);
  }

  /** Asking for more rows than there are takes them all. */
  lemma AllTaken(rows: seq<Row>, need: map<Label, int>, o: Label)
    requires Minimum(need, o) > ReviewableCount(rows, o)
    ensures forall k: nat :: k < |rows| && ReviewableIn(rows, o)(k) ==> Chosen(rows, need, k)
  {
    forall k: nat | k < |rows| && ReviewableIn(rows, o)(k) ensures Chosen(rows, need, k) {
      TallyBelow(|rows|, ReviewableIn(rows, o), k);
    }
  }

  /** Under every policy, re-evaluating gives the gaps less what the run reported. */
  ghost predicate AlwaysAgrees(rows: seq<Row>, p: string, r: string) {
    forall minima: map<Label, int> :: Agrees(rows, minima, AfterRun(rows, GapsOf(rows, minima), p, r))
  }

  /** The evaluator agrees with the approval run under every policy if and only if every
      reviewable row is consistent. */
  lemma AgreementExact(rows: seq<Row>, p: string, r: string)
    ensures AlwaysAgrees(rows, p, r) <==> forall row :: row in rows ==> Consistent(row)
  {
    if i: nat :| i < |rows| && !Consistent(rows[i]) {
      DisagreementFound(rows, i, p, r);
    } else {
      forall minima: map<Label, int> ensures Agrees(rows, minima, AfterRun(rows, GapsOf(rows, minima), p, r)) {
        AgreementHolds(rows, minima, p, r, AfterRun(rows, GapsOf(rows, minima), p, r));
      }
    }
  }

  lemma DisagreementFound(rows: seq<Row>, i: nat, p: string, r: string)
    requires i < |rows| && !Consistent(rows[i])
    ensures !AlwaysAgrees(rows, p, r)
  {
    hide LabelOf, Matches, AfterRun, GapsOf, Agrees;
    var l := LabelOf(rows[i]).value;
    assert ReviewableIn(rows, l)(i);
    if j: nat, m :| Missed(rows, j, m) {
      MissedRow(rows, j, m, p, r);
    } else {
      assert !Missed(rows, i, l);
      var o :| o != l && Matches(EvalBucket(rows[i]), o);
      SharedRow(rows, i, l, o, p, r);
    }
  }

  /** With consistent rows and enough of them, one run closes every gap. */
  lemma RunClosesGaps(rows: seq<Row>, minima: map<Label, int>, p: string, r: string, after: seq<Row>)
    requires forall row :: row in rows ==> Consistent(row)
    requires RunResult(rows, GapsOf(rows, minima), p, r, after)
    ensures forall l: Label :: ApprovalGap(after, minima, l) == 0 <==>
        ApprovalGap(rows, minima, l) <= ReviewableCount(rows, l)
  {
    AgreementHolds(rows, minima, p, r, after);
  }

  // ---------- demand coverage ----------

  lemma {:induction false} WeightBounds(rows: seq<Row>, after: seq<Row>)
    requires |after| == |rows| && forall row :: row in rows ==> Weight(row) >= 0.0
    requires forall i :: 0 <= i < |rows| ==> Weight(after[i]) == Weight(rows[i])
    requires forall i :: 0 <= i < |rows| && rows[i].status == Status.Approved ==> after[i].status == Status.Approved
    ensures EligibleWeight(after) == EligibleWeight(rows)
    ensures 0.0 <= ApprovedWeight(rows) <= ApprovedWeight(after) <= EligibleWeight(rows)
  {
    hide Weight;
    if rows != [] {
      WeightBounds(rows[..|rows| - 1], after[..|rows| - 1]);
    }
  }

  /** Demand coverage is a share, and a run never lowers it. */
  lemma CoverageNeverFalls(rows: seq<Row>, need: map<Label, int>, p: string, r: string, after: seq<Row>)
    requires forall row :: row in rows ==> row.weight.GetOr(row.expectedWeight.GetOr(1.0)) >= 0.0
    requires RunResult(rows, need, p, r, after)
    ensures 0.0 <= Coverage(rows) <= Coverage(after) <= 1.0
  {
    forall row | row in rows ensures Weight(row) >= 0.0 {
    }
    forall i | 0 <= i < |rows| ensures Weight(after[i]) == Weight(rows[i]) {
      hide Written;
    }
    WeightBounds(rows, after);
    var e, a, b := EligibleWeight(rows), ApprovedWeight(rows), ApprovedWeight(after);
    if e > 0.0 {
      ShareMono(a, b, e);
    }
  }

  lemma ShareMono(a: real, b: real, e: real)
    requires 0.0 <= a <= b <= e && e > 0.0
    ensures 0.0 <= a / e <= b / e <= 1.0
  {
  }

  // ---------- which rows are consistent ----------

  /** Any non-empty string that matches one label, in the first place that holds a string. */
  lemma PlainBucketIsConsistent(row: Row, b: string, l: Label)
    requires row.rowVersion != 0 && b != ""
    requires row.bucket == Some(b) || (row.bucket.None? && row.expectedBucket == Some(b))
      || (row.bucket.None? && row.expectedBucket.None? && row.signal == Some(b))
    requires Matches(b, l) && forall m :: Matches(b, m) ==> m == l
    ensures LabelOf(row) == Some(l) && Consistent(row)
  {
    assert EvalBucket(row) == b == ApproverBucket(row);
    hide Matches;
    assert Matches(b, LABELS[Position(l)]);
  }

  const EMPTY_BUCKET := Row(ReviewRequired, Some(""), None, Some("typo"), None, None, None, None, 1)
  const TWO_LABELS := Row(ReviewRequired, Some("typo_llm"), None, None, None, None, None, None, 1)

  lemma HasNeedle(s: string, l: Label, k: nat, i: nat)
    requires k < |Needles(l)| && At(Lower(s), Needles(l)[k], i)
    ensures Matches(s, l)
  {
  }

  lemma ShortBucket(s: string, l: Label)
    requires forall k :: 0 <= k < |Needles(l)| ==> |s| < |Needles(l)[k]|
    ensures !Matches(s, l)
  {
  }

  /** Two rows the evaluator and the approval run read differently: an empty bucket hides the
      source signal from the evaluator only, and a bucket can name two labels. */
  lemma InconsistentRows()
    ensures !Consistent(EMPTY_BUCKET) && !Consistent(TWO_LABELS)
  {
    assert Lower("typo") == "typo" && Lower("typo_llm") == "typo_llm";
    assert At(Lower("typo"), Needles(TypoAlias)[0], 0) && At(Lower("typo_llm"), Needles(TypoAlias)[0], 0);
    assert At(Lower("typo_llm"), Needles(LlmRequired)[0], 5);
    HasNeedle("typo", TypoAlias, 0, 0);
    HasNeedle("typo_llm", TypoAlias, 0, 0);
    HasNeedle("typo_llm", LlmRequired, 0, 5);
    ShortBucket("", TypoAlias);
    ShortBucket("typo", ProductSearch);
    ShortBucket("typo_llm", ProductSearch);
    hide Matches, Needles;
    assert LABELS[0] == ProductSearch && LABELS[1] == TypoAlias;
    assert FirstLabel("typo", 0) == FirstLabel("typo", 1) == Some(TypoAlias);
    assert FirstLabel("typo_llm", 0) == FirstLabel("typo_llm", 1) == Some(TypoAlias);
  }
}
