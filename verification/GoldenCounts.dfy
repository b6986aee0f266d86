/** What each row of the golden table adds to the numbers of the evaluator and the approval run. */
module GoldenCounts {
  import opened Prelude
  import opened Text
  import opened GoldenProtocol
  import opened GoldenPolicy
  import opened GoldenCandidates

  // ---------- demand weights ----------

  /** A row weighs what its own column says, or else its expected value, and 1 where that is
      missing or zero; it counts as approved exactly if its status is APPROVED. */
  lemma RowWeighs(rows: seq<Row>, r: Row, x: real)
    requires
      || (r.weight == Some(x) && x != 0.0)
      || (r.weight == None && r.expectedWeight == Some(x) && x != 0.0)
      || (r.weight == Some(0.0) && x == 1.0)
      || (r.weight == None && (r.expectedWeight == None || r.expectedWeight == Some(0.0)) && x == 1.0)
    ensures EligibleWeight([]) == 0.0 && ApprovedWeight([]) == 0.0
    ensures EligibleWeight(rows + [r]) == EligibleWeight(rows) + x
    ensures ApprovedWeight(rows + [r]) == ApprovedWeight(rows) + if r.status == Status.Approved then x else 0.0
  {
    assert (rows + [r])[..|rows|] == rows;
  }

  /** The coverage is the approved share of the eligible weight. */
  lemma CoverageIsShare(rows: seq<Row>)
    ensures EligibleWeight(rows) > 0.0 ==> Coverage(rows) * EligibleWeight(rows) == ApprovedWeight(rows)
    ensures EligibleWeight(rows) <= 0.0 ==> Coverage(rows) == 0.0
  {
  }

  // ---------- bucket texts ----------

  ghost predicate Has(s: string, needle: string) { exists a, b :: s == a + needle + b }

  lemma HasIffContains(s: string, needle: string)
    ensures Has(s, needle) <==> Contains(s, needle)
  {
    if a, b :| s == a + needle + b {
      assert s[|a|..|a| + |needle|] == needle;
      assert At(s, needle, |a|);
    }
    if Contains(s, needle) {
      var i: nat :| i <= |s| && At(s, needle, i);
      assert s == s[..i] + needle + s[i + |needle|..];
    }
  }

  /** The texts that file a bucket under a label, in lower case. */
  ghost predicate Names(bucket: string, l: Label) {
    var b := Lower(bucket);
    match l
    case ProductSearch => Has(b, "product_search") || Has(b, "product-search") || Has(b, "product search")
    case TypoAlias => Has(b, "typo") || Has(b, "alias")
    case NegationCorrection => Has(b, "negation") || Has(b, "correction")
    case Clarification => Has(b, "clarification")
    case NoResult => Has(b, "no_result") || Has(b, "no-result")
    case LlmRequired => Has(b, "llm")
  }

  lemma NamesIffMatches(bucket: string, l: Label)
    ensures Names(bucket, l) <==> Matches(bucket, l)
  {
    var b, needles := Lower(bucket), Needles(l);
    hide Has, Contains, Lower;
    forall i | 0 <= i < |needles| ensures Has(b, needles[i]) <==> Contains(b, needles[i]) {
      HasIffContains(b, needles[i]);
    }
    if l == ProductSearch {
      assert needles[0] == "product_search" && needles[1] == "product-search" && needles[2] == "product search";
    } else if l == TypoAlias {
      assert needles[0] == "typo" && needles[1] == "alias";
    } else if l == NegationCorrection {
      assert needles[0] == "negation" && needles[1] == "correction";
    } else if l == NoResult {
      assert needles[0] == "no_result" && needles[1] == "no-result";
    } else {
      assert needles[0] == if l == LlmRequired then "llm" else "clarification";
    }
  }

  /** The evaluator files a row under the first text that is there, even an empty one. */
  lemma RowCounts(rows: seq<Row>, r: Row, b: string, l: Label)
    requires
      || r.bucket == Some(b)
      || (r.bucket == None && r.expectedBucket == Some(b))
      || (r.bucket == None && r.expectedBucket == None && r.signal == Some(b))
      || (r.bucket == None && r.expectedBucket == None && r.signal == None && b == "unknown")
    ensures ApprovedCount(rows + [r], l) ==
        ApprovedCount(rows, l) + if r.status == Status.Approved && Names(b, l) then 1 else 0
    ensures CandidateCount(rows + [r], l) == CandidateCount(rows, l) +
        if r.status in {Candidate, ReviewRequired, NeedsRevision, Status.Approved} && Names(b, l) then 1 else 0
  {
    assert EvalBucket(r) == b;
    NamesIffMatches(b, l);
    CountsAppend(rows, [r], l);
    hide Names, Matches, EvalBucket;
    assert Tally(0, ApprovedIn([r], l)) == 0 && Tally(0, WaitingIn([r], l)) == 0;
    assert Tally(1, ApprovedIn([r], l)) == (if r.status == Status.Approved && Names(b, l) then 1 else 0);
    assert Tally(1, WaitingIn([r], l)) ==
      (if r.status in {Candidate, ReviewRequired, NeedsRevision} && Names(b, l) then 1 else 0);
  }

  /** The labels the approval run tries before `l`. */
  function TriedBefore(l: Label): set<Label> {
    match l
    case ProductSearch => {}
    case TypoAlias => {ProductSearch}
    case NegationCorrection => {ProductSearch, TypoAlias}
    case Clarification => {ProductSearch, TypoAlias, NegationCorrection}
    case NoResult => {ProductSearch, TypoAlias, NegationCorrection, Clarification}
    case LlmRequired => {ProductSearch, TypoAlias, NegationCorrection, Clarification, NoResult}
  }

  lemma TriedInOrder(l: Label, m: Label)
    ensures m in TriedBefore(l) <==> Position(m) < Position(l)
  {
  }

  lemma LabelIs(r: Row, l: Label)
    ensures LabelOf(r) == Some(l) <==>
      Matches(ApproverBucket(r), l) && forall m :: m in TriedBefore(l) ==> !Matches(ApproverBucket(r), m)
  {
    var b := ApproverBucket(r);
    hide Matches, ApproverBucket;
    forall m: Label ensures m in TriedBefore(l) <==> Position(m) < Position(l) {
      TriedInOrder(l, m);
    }
    hide TriedBefore;
    if Matches(b, l) && forall m :: m in TriedBefore(l) ==> !Matches(b, m) {
      var found := FirstLabel(b, 0);
      assert LABELS[Position(l)] == l && found.Some?;
      assert LABELS[Position(found.value)] == found.value;
    }
    if LabelOf(r) == Some(l) {
      forall m | m in TriedBefore(l) ensures !Matches(b, m) {
        assert LABELS[Position(m)] == m;
      }
    }
  }

  /** The approval run files a row by the first text that is there and not empty, under the
      first label it names. */
  lemma RowAwaits(rows: seq<Row>, r: Row, b: string, l: Label)
    requires
      || (r.bucket == Some(b) && b != "")
      || (r.bucket.GetOr("") == "" && r.expectedBucket == Some(b) && b != "")
      || (r.bucket.GetOr("") == "" && r.expectedBucket.GetOr("") == "" && r.signal.GetOr("") == b)
    ensures ReviewableCount(rows + [r], l) == ReviewableCount(rows, l) +
        if (r.status == ReviewRequired || r.status == NeedsRevision)
           && Names(b, l) && (forall m :: m in TriedBefore(l) ==> !Names(b, m)) then 1 else 0
  {
    assert ApproverBucket(r) == b;
    LabelIs(r, l);
    hide Names, Matches, ApproverBucket, LabelOf, TriedBefore;
    forall m: Label ensures Names(b, m) <==> Matches(b, m) {
      NamesIffMatches(b, m);
    }
    CountsAppend(rows, [r], l);
    assert Tally(0, ReviewableIn([r], l)) == 0;
  }

  // ---------- the report ----------

  /** A line of the report: the gaps are what is missing to the policy minimum `n`. */
  lemma LineMeans(rows: seq<Row>, minima: map<Label, int>, l: Label, n: int)
    requires n == if l in minima then minima[l] else 0
    ensures var line := LineOf(rows, minima, l);
      && line.candidates == CandidateCount(rows, l) && line.approved == ApprovedCount(rows, l) && line.minimum == n
      && (line.approvalGap > 0 <==> line.approved < n)
      && (line.approvalGap > 0 ==> line.approved + line.approvalGap == n)
      && (line.candidateGap > 0 <==> line.candidates < n)
      && (line.candidateGap > 0 ==> line.candidates + line.candidateGap == n)
  {
    hide ApprovedCount, CandidateCount;
  }

  /** What a run leaves of a row it approves: nothing but the status, the two people and the
      version changes. */
  lemma ApprovedRowIs(rows: seq<Row>, need: map<Label, int>, p: string, r: string, after: seq<Row>, i: nat)
    requires RunResult(rows, need, p, r, after) && Chosen(rows, need, i) && rows[i].rowVersion != 0
    ensures after[i] == Row(Status.Approved, rows[i].bucket, rows[i].expectedBucket, rows[i].signal, rows[i].weight,
                            rows[i].expectedWeight, Some(p), Some(r), rows[i].rowVersion + 2)
  {
    assert Written(rows, need, i);
    hide Written;
  }

  // ---------- inserting ----------

  /** The quota of a label is its candidate gap, and never below three for two of the labels. */
  lemma QuotaMeans(line: Line, l: Label)
    ensures Quota(line, l) >= line.candidateGap
    ensures l == TypoAlias || l == NegationCorrection ==> Quota(line, l) >= 3
    ensures Quota(line, l) == line.candidateGap || ((l == TypoAlias || l == NegationCorrection) && Quota(line, l) == 3)
  {
  }

  lemma {:induction false} WeightAppend(a: seq<Row>, b: seq<Row>)
    ensures EligibleWeight(a + b) == EligibleWeight(a) + EligibleWeight(b)
    ensures ApprovedWeight(a + b) == ApprovedWeight(a) + ApprovedWeight(b)
  {
    hide Weight;
    if b == [] {
      assert a + b == a;
    } else {
      var n := |b| - 1;
      WeightAppend(a, b[..n]);
      assert (a + b)[..|a + b| - 1] == a + b[..n];
    }
  }

  lemma {:induction false} InsertedWeight(batches: seq<seq<Seed>>)
    requires |batches| <= |LABELS|
    ensures EligibleWeight(Inserted(batches)) == |Inserted(batches)| as real
    ensures ApprovedWeight(Inserted(batches)) == 0.0
  {
    if batches != [] {
      var n := |batches| - 1;
      InsertedWeight(batches[..n]);
      WeightAppend(Inserted(batches[..n]), NewRows(LABELS[n], |batches[n]|));
      NewRowsWeight(LABELS[n], |batches[n]|);
      hide EligibleWeight, ApprovedWeight, NewRows;
    }
  }

  lemma {:induction false} NewRowsWeight(l: Label, n: nat)
    ensures |NewRows(l, n)| == n
    ensures EligibleWeight(NewRows(l, n)) == n as real && ApprovedWeight(NewRows(l, n)) == 0.0
  {
    if n > 0 {
      NewRowsWeight(l, n - 1);
      assert NewRows(l, n)[..n - 1] == NewRows(l, n - 1);
      assert NewRows(l, n)[n - 1] == NewRow(l);
      hide Name;
    }
  }

  /** Inserting candidates dilutes the demand coverage: each adds one to the eligible weight and
      nothing to the approved one. */
  lemma InsertionDilutes(rows: seq<Row>, batches: seq<seq<Seed>>)
    requires |batches| <= |LABELS|
    ensures var mid := rows + Inserted(batches);
      && EligibleWeight(mid) == EligibleWeight(rows) + |Inserted(batches)| as real
      && ApprovedWeight(mid) == ApprovedWeight(rows)
      && (EligibleWeight(rows) > 0.0 && ApprovedWeight(rows) >= 0.0 ==> Coverage(mid) <= Coverage(rows))
  {
    WeightAppend(rows, Inserted(batches));
    InsertedWeight(batches);
    hide EligibleWeight, ApprovedWeight, Inserted;
    if EligibleWeight(rows) > 0.0 && ApprovedWeight(rows) >= 0.0 {
      LargerWhole(ApprovedWeight(rows), EligibleWeight(rows), EligibleWeight(rows + Inserted(batches)));
    }
  }

  lemma LargerWhole(a: real, e: real, f: real)
    requires 0.0 <= a && 0.0 < e <= f
    ensures a / f <= a / e
  {
  }

  /** Candidates come in unprepared and unreviewed, with the first version, and weigh one in both
      columns. */
  lemma {:induction false} InsertedAwait(batches: seq<seq<Seed>>)
    requires |batches| <= |LABELS|
    ensures forall row :: row in Inserted(batches) ==>
      && row.status == ReviewRequired && row.preparedBy == None && row.reviewedBy == None && row.rowVersion == 1
      && row.weight == Some(1.0) && row.expectedWeight == Some(1.0)
      && row.bucket.Some? && row.expectedBucket == row.bucket && row.signal == row.bucket
  {
    if batches != [] {
      var n := |batches| - 1;
      InsertedAwait(batches[..n]);
      hide Name;
      assert forall row :: row in NewRows(LABELS[n], |batches[n]|) ==> row == NewRow(LABELS[n]);
    }
  }

  // ---------- which utterances are taken ----------

  /** A further utterance is taken, after the others, exactly if the quota is not reached and
      neither the table nor an earlier utterance has its key. */
  lemma {:induction false} TakeOneMore(seeds: seq<Seed>, s: Seed, seen: set<string>, quota: nat)
    ensures TakeFrom([], seen, quota) == []
    ensures TakeFrom(seeds + [s], seen, quota) == TakeFrom(seeds, seen, quota) +
      if |TakeFrom(seeds, seen, quota)| < quota && s.key !in seen && s.key !in Keys(seeds) then [s] else []
  {
    if seeds == [] {
      assert [s][1..] == [];
    } else if quota > 0 {
      var first, rest, more := seeds[0], seeds[1..], seen + {seeds[0].key};
      assert (seeds + [s])[0] == first && (seeds + [s])[1..] == rest + [s];
      KeysCons(seeds);
      hide Keys;
      if first.key in seen {
        TakeOneMore(rest, s, seen, quota);
      } else {
        TakeOneMore(rest, s, more, quota - 1);
      }
    }
  }
}
