/**
 Materialising golden candidates, and the whole closing pipeline.

 For every label that lacks candidates the script inserts utterances nobody has asked before,
 up to a quota. A text is a duplicate if its normalised key was seen, in the table or earlier
 in the run. Together with the evaluator and the approval run this decides which gaps close.
 */
module GoldenCandidates {
  import opened Prelude
  import opened Text
  import opened GoldenProtocol
  import opened GoldenPolicy

  /** An utterance with its normalised key. */
  datatype Seed = Seed(text: string, key: string)

  function Keys(seeds: seq<Seed>): set<string> { set s | s in seeds :: s.key }

  ghost predicate DistinctKeys(seeds: seq<Seed>) {
    forall i, j :: 0 <= i < j < |seeds| ==> seeds[i].key != seeds[j].key
  }

  /** How many candidates a label gets: its candidate gap, and at least three for two labels. */
  function Quota(line: Line, l: Label): nat {
    Max(line.candidateGap, if l == TypoAlias || l == NegationCorrection then 3 else 0)
  }

  lemma KeysSnoc(seeds: seq<Seed>, s: Seed)
    ensures Keys(seeds + [s]) == Keys(seeds) + {s.key}
  {
    assert forall x :: x in seeds + [s] <==> x in seeds || x == s;
  }

  /** As many new utterances as the quota asks for or as there are new keys. */
  ghost predicate IsBatch(taken: seq<Seed>, seeds: seq<Seed>, seen: set<string>, quota: nat) {
    && |taken| == Min(quota, |Keys(seeds) - seen|)
    && DistinctKeys(taken) && Keys(taken) <= Keys(seeds) - seen
  }

  /** The first utterances with keys not seen before, up to the quota. */
  function TakeFrom(seeds: seq<Seed>, seen: set<string>, quota: nat): seq<Seed> {
    if seeds == [] || quota == 0 then []
    else if seeds[0].key in seen then TakeFrom(seeds[1..], seen, quota)
    else [seeds[0]] + TakeFrom(seeds[1..], seen + {seeds[0].key}, quota - 1)
  }

  lemma KeysCons(seeds: seq<Seed>)
    requires seeds != []
    ensures Keys(seeds) == {seeds[0].key} + Keys(seeds[1..])
  {
    assert forall x :: x in seeds <==> x == seeds[0] || x in seeds[1..];
  }

  lemma KeysOfCons(s: Seed, seeds: seq<Seed>)
    ensures Keys([s] + seeds) == {s.key} + Keys(seeds)
  {
    KeysCons([s] + seeds);
    hide Keys;
    assert ([s] + seeds)[1..] == seeds;
  }

  /** A new key among others: what it adds to the unseen ones. */
  lemma UnseenSplit(k: string, others: set<string>, seen: set<string>, taken: set<string>)
    requires k !in seen && taken <= others - (seen + {k})
    ensures {k} + taken <= ({k} + others) - seen && k !in taken
    ensures |({k} + others) - seen| == 1 + |others - (seen + {k})|
  {
    assert ({k} + others) - seen == {k} + (others - (seen + {k}));
  }

  /** A new first utterance, followed by a batch of the others. */
  lemma FirstTaken(seeds: seq<Seed>, seen: set<string>, quota: nat, taken: seq<Seed>)
    requires seeds != [] && quota > 0 && seeds[0].key !in seen
    requires IsBatch(taken, seeds[1..], seen + {seeds[0].key}, quota - 1)
    ensures IsBatch([seeds[0]] + taken, seeds, seen, quota)
  {
    hide Keys, DistinctKeys;
    KeysCons(seeds);
    KeysOfCons(seeds[0], taken);
    UnseenSplit(seeds[0].key, Keys(seeds[1..]), seen, Keys(taken));
    ConsDistinct(seeds[0], taken);
  }

  lemma SeenSkips(seeds: seq<Seed>, seen: set<string>)
    requires seeds != [] && seeds[0].key in seen
    ensures Keys(seeds) - seen == Keys(seeds[1..]) - seen
  {
    KeysCons(seeds);
    hide Keys;
  }

  lemma NoneTaken(seeds: seq<Seed>, seen: set<string>, quota: nat)
    requires seeds == [] || quota == 0
    ensures IsBatch([], seeds, seen, quota)
  {
  }

  lemma {:induction false} TakeFromIsBatch(seeds: seq<Seed>, seen: set<string>, quota: nat)
    ensures IsBatch(TakeFrom(seeds, seen, quota), seeds, seen, quota)
  {
    hide Keys, DistinctKeys;
    if seeds == [] || quota == 0 {
      NoneTaken(seeds, seen, quota);
    } else if seeds[0].key in seen {
      TakeFromIsBatch(seeds[1..], seen, quota);
      SeenSkips(seeds, seen);
    } else {
      var taken := TakeFrom(seeds[1..], seen + {seeds[0].key}, quota - 1);
      assert TakeFrom(seeds, seen, quota) == [seeds[0]] + taken;
      hide TakeFrom, IsBatch;
      TakeFromIsBatch(seeds[1..], seen + {seeds[0].key}, quota - 1);
      FirstTaken(seeds, seen, quota, taken);
    }
  }

  lemma ConsDistinct(s: Seed, seeds: seq<Seed>)
    requires DistinctKeys(seeds) && s.key !in Keys(seeds)
    ensures DistinctKeys([s] + seeds)
  {
    forall i | 0 <= i < |seeds| ensures seeds[i].key != s.key {
      assert seeds[i] in seeds;
    }
  }

  /** The inner loop: utterances whose key was seen are skipped. */
  method TakeNew(seeds: seq<Seed>, seen: set<string>, quota: nat) returns (taken: seq<Seed>, after: set<string>)
    ensures taken == TakeFrom(seeds, seen, quota) && IsBatch(taken, seeds, seen, quota)
    ensures after == seen + Keys(taken)
  {
    hide *;
    TakeFromIsBatch(seeds, seen, quota);
    taken, after := [], seen;
    NoKeys();
    var i := 0;
    assert seeds[0..] == seeds;
    while i < |seeds| && |taken| < quota
      invariant 0 <= i <= |seeds| && |taken| <= quota
      invariant taken + TakeFrom(seeds[i..], after, quota - |taken|) == TakeFrom(seeds, seen, quota)
      invariant after == seen + Keys(taken)
    {
      TakeFromUnfolds(seeds, i, after, quota - |taken|);
      if seeds[i].key !in after {
        KeysSnoc(taken, seeds[i]);
        Associative(taken, [seeds[i]], TakeFrom(seeds[i + 1..], after + {seeds[i].key}, quota - |taken| - 1));
        taken, after := taken + [seeds[i]], after + {seeds[i].key};
      }
      i := i + 1;
    }
    TakeFromEnds(seeds, i, after, quota - |taken|);
  }

  lemma TakeFromUnfolds(seeds: seq<Seed>, i: nat, seen: set<string>, quota: nat)
    requires i < |seeds| && quota > 0
    ensures var rest := seeds[i + 1..];
      TakeFrom(seeds[i..], seen, quota)
      == if seeds[i].key in seen then TakeFrom(rest, seen, quota)
         else [seeds[i]] + TakeFrom(rest, seen + {seeds[i].key}, quota - 1)
  {
    assert seeds[i..][0] == seeds[i] && seeds[i..][1..] == seeds[i + 1..];
  }

  lemma TakeFromEnds(seeds: seq<Seed>, i: nat, seen: set<string>, quota: nat)
    requires i == |seeds| || (i < |seeds| && quota == 0)
    ensures TakeFrom(seeds[i..], seen, quota) == []
  {
  }

  lemma NoKeys()
    ensures Keys([]) == {}
  {
  }

  // ---------- the rows ----------

  function Name(l: Label): string {
    match l
    case ProductSearch => "product_search"
    case TypoAlias => "typo_alias"
    case NegationCorrection => "negation_correction"
    case Clarification => "clarification"
    case NoResult => "no_result"
    case LlmRequired => "llm_required"
  }

  /** The inserted row; its version is the column's default. */
  function NewRow(l: Label): Row {
    Row(ReviewRequired, Some(Name(l)), Some(Name(l)), Some(Name(l)), Some(1.0), Some(1.0), None, None, 1)
  }

  /** A needle with a character that the text lacks is not in the text. */
  lemma Missing(s: string, needle: string, c: char)
    requires c in needle && c !in s
    ensures !Contains(s, needle)
  {
    var k :| 0 <= k < |needle| && needle[k] == c;
    forall i: nat | i + |needle| <= |s| ensures !At(s, needle, i) {
      assert s[i..i + |needle|][k] == s[i + k] && s[i + k] in s;
    }
  }

  lemma NoMatch(s: string, l: Label, lacks: seq<char>)
    requires Lower(s) == s && |lacks| == |Needles(l)|
    requires forall k :: 0 <= k < |lacks| ==> lacks[k] in Needles(l)[k] && lacks[k] !in s
    ensures !Matches(s, l)
  {
    forall k | 0 <= k < |Needles(l)| ensures !Contains(Lower(s), Needles(l)[k]) {
      Missing(s, Needles(l)[k], lacks[k]);
    }
  }

  /** For each needle of `l`, a character that the name of `of` lacks. */
  function Lacks(of: Label, l: Label): seq<char> {
    match l
    case ProductSearch => if of == TypoAlias then "rrr" else "ppp"
    case TypoAlias =>
      if of == Clarification then "ys" else if of == NoResult then "ya" else if of == LlmRequired then "ta" else "yl"
    case NegationCorrection =>
      if of == ProductSearch then "ni" else if of == Clarification then "ee" else if of == NoResult then "gc" else "nc"
    case Clarification => if of == ProductSearch || of == NegationCorrection then "l" else "c"
    case NoResult => if of == NegationCorrection then "ss" else if of == Clarification then "ee" else "nn"
    case LlmRequired => if of == ProductSearch || of == NegationCorrection then "l" else "m"
  }

  /** Characters that the name of a label lacks. */
  function Absent(of: Label): string {
    match of
    case ProductSearch => "ylni"
    case TypoAlias => "rncm"
    case NegationCorrection => "pyls"
    case Clarification => "pysem"
    case NoResult => "pyagcm"
    case LlmRequired => "ptanc"
  }

  lemma AbsentLong(of: Label)
    requires of == ProductSearch || of == NegationCorrection || of == Label.Clarification
    ensures forall c :: c in Absent(of) ==> c !in Name(of)
  {
  }

  lemma AbsentShort(of: Label)
    requires of == TypoAlias || of == Label.NoResult || of == LlmRequired
    ensures forall c :: c in Absent(of) ==> c !in Name(of)
  {
  }

  lemma LacksAreAbsent(of: Label, l: Label)
    requires of != l
    ensures |Lacks(of, l)| == |Needles(l)| && forall k :: 0 <= k < |Lacks(of, l)| ==> Lacks(of, l)[k] in Absent(of)
  {
  }

  lemma LacksInNeedles(of: Label, l: Label)
    requires |Lacks(of, l)| == |Needles(l)|
    ensures forall k :: 0 <= k < |Lacks(of, l)| ==> Lacks(of, l)[k] in Needles(l)[k]
  {
    hide Name;
  }

  lemma LacksAreMissing(of: Label, l: Label)
    requires of != l
    ensures |Lacks(of, l)| == |Needles(l)|
    ensures forall k :: 0 <= k < |Lacks(of, l)| ==> Lacks(of, l)[k] in Needles(l)[k] && Lacks(of, l)[k] !in Name(of)
  {
    hide *;
    if of == ProductSearch || of == NegationCorrection || of == Label.Clarification {
      AbsentLong(of);
    } else {
      AbsentShort(of);
    }
    LacksAreAbsent(of, l);
    LacksInNeedles(of, l);
  }

  lemma NameIsLower(l: Label)
    ensures Lower(Name(l)) == Name(l)
  {
  }

  lemma NameMatches(l: Label)
    ensures Matches(Name(l), l)
  {
    NameIsLower(l);
    assert At(Name(l), Needles(l)[0], 0);
    HasNeedle(Name(l), l, 0, 0);
  }

  /** The bucket a candidate is inserted with names its own label only. */
  lemma NameMatchesOnce(of: Label, l: Label)
    ensures Matches(Name(of), l) <==> of == l
  {
    hide Matches, Needles, Name, Lacks, Lower;
    if of == l {
      NameMatches(l);
    } else {
      NameIsLower(of);
      LacksAreMissing(of, l);
      NoMatch(Name(of), l, Lacks(of, l));
    }
  }

  // ---------- inserting for all labels ----------

  type Seeds = map<Label, seq<Seed>>

  function SeedsOf(seeds: Seeds, l: Label): seq<Seed> { if l in seeds then seeds[l] else [] }

  function NewRows(l: Label, n: nat): seq<Row> {
    seq(n, i => NewRow(l))
  }

  /** The keys seen when label number `k` begins. */
  function SeenBefore(seen: set<string>, batches: seq<seq<Seed>>, k: nat): set<string>
    requires k <= |batches|
  {
    if k == 0 then seen else SeenBefore(seen, batches, k - 1) + Keys(batches[k - 1])
  }

  function Inserted(batches: seq<seq<Seed>>): seq<Row>
    requires |batches| <= |LABELS|
  {
    if batches == [] then []
    else
      var n := |batches| - 1;
      Inserted(batches[..n]) + NewRows(LABELS[n], |batches[n]|)
  }

  /** Batch number `k` is what its label asks for. */
  ghost predicate IsBatchNo(batches: seq<seq<Seed>>, k: nat, seeds: Seeds, seen: set<string>, lines: map<Label, Line>) {
    && k < |batches| && k < |LABELS| && LABELS[k] in lines
    && IsBatch(batches[k], SeedsOf(seeds, LABELS[k]), SeenBefore(seen, batches, k), Quota(lines[LABELS[k]], LABELS[k]))
  }

  ghost predicate AreBatches(batches: seq<seq<Seed>>, seeds: Seeds, seen: set<string>, lines: map<Label, Line>) {
    |batches| <= |LABELS| && forall k: nat :: k < |batches| ==> IsBatchNo(batches, k, seeds, seen, lines)
  }

  lemma {:induction false} SeenBeforeSnoc(seen: set<string>, batches: seq<seq<Seed>>, taken: seq<Seed>, k: nat)
    requires k <= |batches|
    ensures SeenBefore(seen, batches + [taken], k) == SeenBefore(seen, batches, k)
  {
    if k > 0 {
      SeenBeforeSnoc(seen, batches, taken, k - 1);
    }
  }

  lemma SeenAfterBatch(seen: set<string>, batches: seq<seq<Seed>>, taken: seq<Seed>)
    ensures SeenBefore(seen, batches + [taken], |batches| + 1) == SeenBefore(seen, batches, |batches|) + Keys(taken)
  {
    SeenBeforeSnoc(seen, batches, taken, |batches|);
  }

  lemma InsertedSnoc(batches: seq<seq<Seed>>, taken: seq<Seed>)
    requires |batches| < |LABELS|
    ensures Inserted(batches + [taken]) == Inserted(batches) + NewRows(LABELS[|batches|], |taken|)
  {
    hide NewRows;
    assert (batches + [taken])[..|batches|] == batches;
  }

  lemma BatchNoSnoc(batches: seq<seq<Seed>>, k: nat, seeds: Seeds, seen: set<string>, lines: map<Label, Line>,
      taken: seq<Seed>)
    requires k < |batches| && IsBatchNo(batches, k, seeds, seen, lines)
    ensures IsBatchNo(batches + [taken], k, seeds, seen, lines)
  {
    hide IsBatch, Quota, SeedsOf;
    SeenBeforeSnoc(seen, batches, taken, k);
    hide SeenBefore;
  }

  lemma BatchesSnoc(batches: seq<seq<Seed>>, seeds: Seeds, seen: set<string>, lines: map<Label, Line>, taken: seq<Seed>)
    requires AreBatches(batches, seeds, seen, lines) && |batches| < |LABELS| && LABELS[|batches|] in lines
    requires var l := LABELS[|batches|];
      IsBatch(taken, SeedsOf(seeds, l), SeenBefore(seen, batches, |batches|), Quota(lines[l], l))
    ensures AreBatches(batches + [taken], seeds, seen, lines)
  {
    hide *;
    NewBatchNo(batches, seeds, seen, lines, taken);
    forall k: nat | k < |batches| ensures IsBatchNo(batches + [taken], k, seeds, seen, lines) {
      BatchesMean(batches, seeds, seen, lines);
      BatchNoSnoc(batches, k, seeds, seen, lines, taken);
    }
    BatchesMean(batches + [taken], seeds, seen, lines);
  }

  lemma BatchesMean(batches: seq<seq<Seed>>, seeds: Seeds, seen: set<string>, lines: map<Label, Line>)
    ensures AreBatches(batches, seeds, seen, lines) <==>
      |batches| <= |LABELS| && forall k: nat :: k < |batches| ==> IsBatchNo(batches, k, seeds, seen, lines)
  {
    hide IsBatchNo;
  }

  lemma NewBatchNo(batches: seq<seq<Seed>>, seeds: Seeds, seen: set<string>, lines: map<Label, Line>, taken: seq<Seed>)
    requires |batches| < |LABELS| && LABELS[|batches|] in lines
    requires var l := LABELS[|batches|];
      IsBatch(taken, SeedsOf(seeds, l), SeenBefore(seen, batches, |batches|), Quota(lines[l], l))
    ensures IsBatchNo(batches + [taken], |batches|, seeds, seen, lines)
  {
    hide IsBatch, Quota, SeedsOf, SeenBefore;
    SeenBeforeSnoc(seen, batches, taken, |batches|);
    assert (batches + [taken])[|batches|] == taken;
  }

  /** What the labels before number `k` get, computed from the table and the utterances alone. */
  function Planned(seeds: Seeds, seen: set<string>, lines: map<Label, Line>, k: nat): (batches: seq<seq<Seed>>)
    requires k <= |LABELS| && forall j :: 0 <= j < |LABELS| ==> LABELS[j] in lines
    ensures |batches| == k
  {
    if k == 0 then []
    else
      var before, l := Planned(seeds, seen, lines, k - 1), LABELS[k - 1];
      before + [TakeFrom(SeedsOf(seeds, l), SeenBefore(seen, before, k - 1), Quota(lines[l], l))]
  }

  lemma {:induction false} PlannedAreBatches(seeds: Seeds, seen: set<string>, lines: map<Label, Line>, k: nat)
    requires k <= |LABELS| && forall j :: 0 <= j < |LABELS| ==> LABELS[j] in lines
    ensures AreBatches(Planned(seeds, seen, lines, k), seeds, seen, lines)
  {
    if k > 0 {
      var before, l := Planned(seeds, seen, lines, k - 1), LABELS[k - 1];
      PlannedAreBatches(seeds, seen, lines, k - 1);
      TakeFromIsBatch(SeedsOf(seeds, l), SeenBefore(seen, before, k - 1), Quota(lines[l], l));
      hide AreBatches, IsBatch, TakeFrom, Quota, SeedsOf;
      BatchesSnoc(before, seeds, seen, lines,
          TakeFrom(SeedsOf(seeds, l), SeenBefore(seen, before, k - 1), Quota(lines[l], l)));
    }
  }

  lemma PlannedNext(seeds: Seeds, seen: set<string>, lines: map<Label, Line>, k: nat)
    requires k < |LABELS| && forall j :: 0 <= j < |LABELS| ==> LABELS[j] in lines
    ensures var before, l := Planned(seeds, seen, lines, k), LABELS[k];
      Planned(seeds, seen, lines, k + 1) ==
          before + [TakeFrom(SeedsOf(seeds, l), SeenBefore(seen, before, k), Quota(lines[l], l))]
  {
    hide TakeFrom, SeedsOf, SeenBefore, Quota;
  }

  lemma NothingPlanned(seeds: Seeds, seen: set<string>, lines: map<Label, Line>)
    requires forall j :: 0 <= j < |LABELS| ==> LABELS[j] in lines
    ensures Planned(seeds, seen, lines, 0) == []
  {
  }

  lemma NothingYet(keys: set<string>, seeds: Seeds, lines: map<Label, Line>, rows: seq<Row>)
    ensures AreBatches([], seeds, keys, lines) && SeenBefore(keys, [], 0) == keys && rows + Inserted([]) == rows
  {
  }

  /** The whole insertion, label by label. */
  method Materialize(table: Table, keys: set<string>, lines: map<Label, Line>, seeds: Seeds)
      returns (batches: seq<seq<Seed>>)
    requires forall k :: 0 <= k < |LABELS| ==> LABELS[k] in lines
    modifies table
    ensures batches == Planned(seeds, keys, lines, |LABELS|) && AreBatches(batches, seeds, keys, lines)
    ensures table.rows == old(table.rows) + Inserted(batches)
  {
    hide *;
    batches := [];
    var seen, k := keys, 0;
    NothingYet(keys, seeds, lines, table.rows);
    NothingPlanned(seeds, keys, lines);
    while k < |LABELS|
      invariant 0 <= k == |batches| <= |LABELS| && AreBatches(batches, seeds, keys, lines)
      invariant batches == Planned(seeds, keys, lines, k)
      invariant seen == SeenBefore(keys, batches, k) && table.rows == old(table.rows) + Inserted(batches)
    {
      var l := LABELS[k];
      var taken, after := TakeNew(SeedsOf(seeds, l), seen, Quota(lines[l], l));
      PlannedNext(seeds, keys, lines, k);
      BatchesSnoc(batches, seeds, keys, lines, taken);
      SeenAfterBatch(keys, batches, taken);
      InsertedSnoc(batches, taken);
      Associative(old(table.rows), Inserted(batches), NewRows(l, |taken|));
      table.rows := table.rows + NewRows(l, |taken|);
      batches, seen, k := batches + [taken], after, k + 1;
    }
  }

  lemma {:induction false} SeenGrows(seen: set<string>, batches: seq<seq<Seed>>, j: nat, k: nat)
    requires j <= k <= |batches|
    ensures SeenBefore(seen, batches, j) <= SeenBefore(seen, batches, k)
  {
    if j < k {
      SeenGrows(seen, batches, j, k - 1);
    }
  }

  /** No key is inserted twice, nor one that the table had. */
  lemma NoDuplicates(batches: seq<seq<Seed>>, seeds: Seeds, seen: set<string>, lines: map<Label, Line>, k: nat)
    requires AreBatches(batches, seeds, seen, lines) && k < |batches|
    ensures DistinctKeys(batches[k]) && Keys(batches[k]) !! seen
    ensures forall j: nat :: j < k ==> Keys(batches[j]) !! Keys(batches[k])
  {
    assert IsBatchNo(batches, k, seeds, seen, lines);
    SeenGrows(seen, batches, 0, k);
    assert SeenBefore(seen, batches, 0) == seen;
    hide Keys, DistinctKeys, AreBatches, Quota, SeedsOf;
    forall j: nat | j < k ensures Keys(batches[j]) !! Keys(batches[k]) {
      assert Keys(batches[j]) <= SeenBefore(seen, batches, j + 1);
      SeenGrows(seen, batches, j + 1, k);
    }
  }

  // ---------- what the insertion does to the counts ----------

  lemma ApprovedAppend(a: seq<Row>, b: seq<Row>, l: Label)
    ensures ApprovedCount(a + b, l) == ApprovedCount(a, l) + ApprovedCount(b, l)
  {
    hide Matches, EvalBucket;
    TallySplit(|a|, |b|, ApprovedIn(a + b, l), ApprovedIn(a, l), ApprovedIn(b, l));
  }

  lemma WaitingAppend(a: seq<Row>, b: seq<Row>, l: Label)
    ensures Tally(|a + b|, WaitingIn(a + b, l)) == Tally(|a|, WaitingIn(a, l)) + Tally(|b|, WaitingIn(b, l))
  {
    hide Matches, EvalBucket;
    TallySplit(|a|, |b|, WaitingIn(a + b, l), WaitingIn(a, l), WaitingIn(b, l));
  }

  lemma ReviewableAppend(a: seq<Row>, b: seq<Row>, l: Label)
    ensures ReviewableCount(a + b, l) == ReviewableCount(a, l) + ReviewableCount(b, l)
  {
    hide Matches, LabelOf;
    TallySplit(|a|, |b|, ReviewableIn(a + b, l), ReviewableIn(a, l), ReviewableIn(b, l));
  }

  lemma CountsAppend(a: seq<Row>, b: seq<Row>, l: Label)
    ensures ApprovedCount(a + b, l) == ApprovedCount(a, l) + ApprovedCount(b, l)
    ensures CandidateCount(a + b, l) == CandidateCount(a, l) + CandidateCount(b, l)
    ensures ReviewableCount(a + b, l) == ReviewableCount(a, l) + ReviewableCount(b, l)
  {
    hide ApprovedCount, ReviewableCount, WaitingIn, Tally;
    ApprovedAppend(a, b, l);
    WaitingAppend(a, b, l);
    ReviewableAppend(a, b, l);
  }

  lemma NewRowFiled(l: Label)
    ensures LabelOf(NewRow(l)) == Some(l) && Consistent(NewRow(l))
    ensures forall m :: Matches(EvalBucket(NewRow(l)), m) <==> m == l
  {
    forall m ensures Matches(Name(l), m) <==> m == l {
      NameMatchesOnce(l, m);
    }
    assert Name(l) != "";
    hide Matches, LabelOf, Consistent, Name;
    PlainBucketIsConsistent(NewRow(l), Name(l), l);
  }

  lemma NewRowsCounts(l: Label, n: nat, m: Label)
    ensures ApprovedCount(NewRows(l, n), m) == 0
    ensures CandidateCount(NewRows(l, n), m) == ReviewableCount(NewRows(l, n), m) == if m == l then n else 0
  {
    NewRowFiled(l);
    hide Matches, LabelOf, Consistent, Name;
    var rows := NewRows(l, n);
    TallyNone(n, ApprovedIn(rows, m));
    if m == l {
      TallyAll(n, WaitingIn(rows, m));
      TallyAll(n, ReviewableIn(rows, m));
    } else {
      TallyNone(n, WaitingIn(rows, m));
      TallyNone(n, ReviewableIn(rows, m));
    }
  }

  /** How many rows are inserted for a label. */
  function Added(batches: seq<seq<Seed>>, l: Label): nat {
    if Position(l) < |batches| then |batches[Position(l)]| else 0
  }

  lemma {:induction false} InsertedCounts(batches: seq<seq<Seed>>, l: Label)
    requires |batches| <= |LABELS|
    ensures ApprovedCount(Inserted(batches), l) == 0
    ensures CandidateCount(Inserted(batches), l) == ReviewableCount(Inserted(batches), l) == Added(batches, l)
    decreases |batches|
  {
    hide ApprovedCount, CandidateCount, ReviewableCount, NewRows;
    if batches == [] {
      NoRowsCount(l);
    } else {
      var n := |batches| - 1;
      InsertedCounts(batches[..n], l);
      CountsAppend(Inserted(batches[..n]), NewRows(LABELS[n], |batches[n]|), l);
      NewRowsCounts(LABELS[n], |batches[n]|, l);
    }
  }

  lemma NoRowsCount(l: Label)
    ensures ApprovedCount([], l) == 0 && CandidateCount([], l) == 0 && ReviewableCount([], l) == 0
  {
  }

  lemma {:induction false} InsertedConsistent(batches: seq<seq<Seed>>)
    requires |batches| <= |LABELS|
    ensures forall row :: row in Inserted(batches) ==> Consistent(row)
    decreases |batches|
  {
    hide Consistent;
    if batches != [] {
      var n := |batches| - 1;
      InsertedConsistent(batches[..n]);
      NewRowFiled(LABELS[n]);
      assert forall row :: row in NewRows(LABELS[n], |batches[n]|) ==> row == NewRow(LABELS[n]);
    }
  }

  // ---------- the pipeline ----------

  /** Inserting opens no approval gap and adds reviewable rows only. */
  lemma InsertionEffect(rows: seq<Row>, batches: seq<seq<Seed>>, minima: map<Label, int>, l: Label)
    requires |batches| <= |LABELS|
    ensures var mid := rows + Inserted(batches);
      && ApprovalGap(mid, minima, l) == ApprovalGap(rows, minima, l)
      && CandidateCount(mid, l) == CandidateCount(rows, l) + Added(batches, l)
      && ReviewableCount(mid, l) == ReviewableCount(rows, l) + Added(batches, l)
  {
    InsertedCounts(batches, l);
    CountsAppend(rows, Inserted(batches), l);
    hide ApprovedCount, ReviewableCount, CandidateCount, Inserted, Added;
  }

  /** Materialise, evaluate, approve, evaluate, for whatever was inserted. */
  lemma InsertedCloses(rows: seq<Row>, batches: seq<seq<Seed>>, minima: map<Label, int>, p: string, r: string,
      after: seq<Row>, l: Label)
    requires |batches| <= |LABELS| && forall row :: row in rows ==> Consistent(row)
    requires RunResult(rows + Inserted(batches), GapsOf(rows + Inserted(batches), minima), p, r, after)
    ensures ApprovalGap(after, minima, l) == 0 <==>
        ApprovalGap(rows, minima, l) <= ReviewableCount(rows, l) + Added(batches, l)
  {
    hide *;
    InsertedConsistent(batches);
    InsertionEffect(rows, batches, minima, l);
    BothConsistent(rows, Inserted(batches));
    RunClosesGaps(rows + Inserted(batches), minima, p, r, after);
  }

  /** The keys offered for a label that neither the table has nor an earlier label takes. */
  function NewKeys(seeds: Seeds, seen: set<string>, lines: map<Label, Line>, l: Label): set<string>
    requires forall j :: 0 <= j < |LABELS| ==> LABELS[j] in lines
  {
    var k := Position(l);
    Keys(SeedsOf(seeds, l)) - SeenBefore(seen, Planned(seeds, seen, lines, k), k)
  }

  lemma {:induction false} PlannedPrefix(seeds: Seeds, seen: set<string>, lines: map<Label, Line>, j: nat, k: nat)
    requires j <= k <= |LABELS| && forall j :: 0 <= j < |LABELS| ==> LABELS[j] in lines
    ensures SeenBefore(seen, Planned(seeds, seen, lines, k), j) == SeenBefore(seen, Planned(seeds, seen, lines, j), j)
    decreases k
  {
    if j < k {
      PlannedPrefix(seeds, seen, lines, j, k - 1);
      PlannedNext(seeds, seen, lines, k - 1);
      var before, l := Planned(seeds, seen, lines, k - 1), LABELS[k - 1];
      SeenBeforeSnoc(seen, before, TakeFrom(SeedsOf(seeds, l), SeenBefore(seen, before, k - 1), Quota(lines[l], l)), j);
      hide Planned, SeenBefore, TakeFrom;
    }
  }

  lemma AddedPlanned(seeds: Seeds, seen: set<string>, lines: map<Label, Line>, l: Label)
    requires l in lines && forall j :: 0 <= j < |LABELS| ==> LABELS[j] in lines
    ensures Added(Planned(seeds, seen, lines, |LABELS|), l) == Min(Quota(lines[l], l), |NewKeys(seeds, seen, lines, l)|)
  {
    var batches := Planned(seeds, seen, lines, |LABELS|);
    PlannedAreBatches(seeds, seen, lines, |LABELS|);
    PlannedPrefix(seeds, seen, lines, Position(l), |LABELS|);
    assert IsBatchNo(batches, Position(l), seeds, seen, lines);
    hide Planned, SeenBefore, Keys, SeedsOf, Quota, DistinctKeys;
  }

  /** The whole pipeline: materialise, evaluate, approve, evaluate. The gap of a label closes if
      and only if its reviewable rows and the new utterances within its quota cover it; all of
      that can be read before the run. */
  lemma PipelineCloses(rows: seq<Row>, seeds: Seeds, seen: set<string>, minima: map<Label, int>,
      lines: map<Label, Line>,
      p: string, r: string, after: seq<Row>, l: Label)
    requires forall row :: row in rows ==> Consistent(row)
    requires forall m: Label :: m in lines && lines[m] == LineOf(rows, minima, m)
    requires var mid := rows + Inserted(Planned(seeds, seen, lines, |LABELS|));
        RunResult(mid, GapsOf(mid, minima), p, r, after)
    ensures ApprovalGap(after, minima, l) == 0 <==>
      ApprovalGap(rows, minima, l) <= ReviewableCount(rows, l) +
          Min(Quota(lines[l], l), |NewKeys(seeds, seen, lines, l)|)
  {
    hide *;
    InsertedCloses(rows, Planned(seeds, seen, lines, |LABELS|), minima, p, r, after, l);
    AddedPlanned(seeds, seen, lines, l);
  }

  lemma BothConsistent(a: seq<Row>, b: seq<Row>)
    requires (forall row :: row in a ==> Consistent(row)) && forall row :: row in b ==> Consistent(row)
    ensures forall row :: row in a + b ==> Consistent(row)
  {
    hide Consistent;
  }

  /** Where every candidate can be reviewed, enough new utterances close the gap. */
  lemma EnoughUtterances(rows: seq<Row>, batches: seq<seq<Seed>>, seeds: Seeds, seen: set<string>,
      minima: map<Label, int>,
      lines: map<Label, Line>, l: Label)
    requires forall m: Label :: m in lines && lines[m] == LineOf(rows, minima, m)
    requires |batches| == |LABELS| && AreBatches(batches, seeds, seen, lines)
    requires CandidateCount(rows, l) == ReviewableCount(rows, l) + ApprovedCount(rows, l)
    requires |Keys(SeedsOf(seeds, l)) - SeenBefore(seen, batches, Position(l))| >= Quota(lines[l], l)
    ensures ApprovalGap(rows, minima, l) <= ReviewableCount(rows, l) + Added(batches, l)
  {
    var k := Position(l);
    assert IsBatchNo(batches, k, seeds, seen, lines);
    hide ApprovedCount, ReviewableCount, CandidateCount, Keys, SeenBefore;
  }

  /** Parked candidates block: rows that count as candidates but cannot be reviewed can fill the
      candidate gap, so that nothing is inserted and the approval gap stays open. */
  lemma ParkedCandidatesBlock(rows: seq<Row>, batches: seq<seq<Seed>>, seeds: Seeds, seen: set<string>,
      minima: map<Label, int>,
      lines: map<Label, Line>, l: Label)
    requires forall m: Label :: m in lines && lines[m] == LineOf(rows, minima, m)
    requires |batches| == |LABELS| && AreBatches(batches, seeds, seen, lines)
    requires l != TypoAlias && l != NegationCorrection
    requires ReviewableCount(rows, l) + ApprovedCount(rows, l) < Minimum(minima, l) <= CandidateCount(rows, l)
    ensures Added(batches, l) == 0 && ApprovalGap(rows, minima, l) > ReviewableCount(rows, l) + Added(batches, l)
  {
    var k := Position(l);
    assert IsBatchNo(batches, k, seeds, seen, lines);
    hide ApprovedCount, ReviewableCount, CandidateCount, Keys, SeenBefore;
  }
}
