/** Micro-averaged metrics over exported rows, and the latency percentiles. */
module ResidualMetrics {
  import opened Prelude
  import opened ResidualCodes

  // Counters accumulate over all rows; rates are exact quotients here. The counters conserve the
  // sizes of the annotations and of the replies, and agree with the flags that the cause coder
  // stored in the rows.

  /** Hits, extras and misses of one channel. */
  datatype Hits = Hits(tp: nat, fp: nat, fn: nat)

  function AddRow(h: Hits, r: Row, ch: Channel): Hits {
    var g, p := GoldSet(r.gold, ch), PredSet(r.gold, r.pred, ch);
    Hits(h.tp + |p * g|, h.fp + |p - g|, h.fn + |g - p|)
  }

  function HitsOf(rows: seq<Row>, ch: Channel): Hits {
    if rows == [] then Hits(0, 0, 0) else AddRow(HitsOf(rows[..|rows| - 1], ch), rows[|rows| - 1], ch)
  }

  /** The sum of `f` over the rows. */
  function SumOver(rows: seq<Row>, f: Row -> nat): nat {
    if rows == [] then 0 else SumOver(rows[..|rows| - 1], f) + f(rows[|rows| - 1])
  }

  function GoldSize(ch: Channel): Row -> nat { (r: Row) => |GoldSet(r.gold, ch)| }

  function PredSize(ch: Channel): Row -> nat { (r: Row) => |PredSet(r.gold, r.pred, ch)| }

  /** How many rows satisfy `p`. */
  function CountRows(rows: seq<Row>, p: Row -> bool): nat {
    if rows == [] then 0 else CountRows(rows[..|rows| - 1], p) + (if p(rows[|rows| - 1]) then 1 else 0)
  }

  predicate GoldEmpty(r: Row) {
    GoldSet(r.gold, Positive) == GoldSet(r.gold, Negative) == GoldSet(r.gold, Correction) == {}
  }

  predicate PredEmpty(r: Row) {
    PredSet(r.gold, r.pred, Positive) == PredSet(r.gold, r.pred, Negative) == PredSet(r.gold, r.pred, Correction) == {}
  }

  /** The counters next to the three channels. */
  datatype Others = Others(schemaOk: nat, forbidden: nat, conflict: nat, over: nat, emptyCorrect: nat, emptyTotal: nat)

  function One(b: bool): nat { if b then 1 else 0 }

  function AddOthers(o: Others, r: Row): Others {
    Others(o.schemaOk + One(r.schemaValid), o.forbidden + One(r.flags.forbidden), o.conflict + One(r.flags.conflict),
           o.over + One(r.flags.overExtract), o.emptyCorrect + One(GoldEmpty(r) && PredEmpty(r)),
           o.emptyTotal + One(GoldEmpty(r)))
  }

  function OthersOf(rows: seq<Row>): Others {
    if rows == [] then Others(0, 0, 0, 0, 0, 0) else AddOthers(OthersOf(rows[..|rows| - 1]), rows[|rows| - 1])
  }

  function Ratio(n: nat, d: nat): real { if d == 0 then 0.0 else n as real / d as real }

  datatype Metrics = Metrics(
    caseCount: nat,
    posRecall: real, posPrecision: real, negRecall: real, negPrecision: real, corrRecall: real, corrPrecision: real,
    falsePositiveRate: real, falseNegativeRate: real,
    schemaValidity: real, forbiddenCount: nat, conflictCount: nat, overExtractionRate: real,
    emptyExtractionAccuracy: real,
    latencyP50: real, latencyP95: real)

  function Recall(h: Hits): real { Ratio(h.tp, h.tp + h.fn) }

  function Precision(h: Hits): real { Ratio(h.tp, h.tp + h.fp) }

  function Latencies(rows: seq<Row>): seq<real> {
    seq(|rows|, i requires 0 <= i < |rows| => rows[i].latency)
  }

  function Report(pos: Hits, neg: Hits, corr: Hits, o: Others, rows: seq<Row>): Metrics {
    Metrics(
      |rows|, Recall(pos), Precision(pos), Recall(neg), Precision(neg), Recall(corr), Precision(corr),
      Ratio(pos.fp + neg.fp, pos.tp + neg.tp + pos.fp + neg.fp),
      Ratio(pos.fn + neg.fn, pos.tp + neg.tp + pos.fn + neg.fn),
      Ratio(o.schemaOk, |rows|), o.forbidden, o.conflict, Ratio(o.over, |rows|), Ratio(o.emptyCorrect, o.emptyTotal),
      Percentile(Latencies(rows), 50.0), Percentile(Latencies(rows), 95.0))
  }

  function MetricsOf(rows: seq<Row>): Metrics {
    Report(HitsOf(rows, Positive), HitsOf(rows, Negative), HitsOf(rows, Correction), OthersOf(rows), rows)
  }

  method ComputeMetrics(rows: seq<Row>) returns (m: Metrics)
    ensures m == MetricsOf(rows)
  {
    hide GoldSet, PredSet, Percentile;
    var pos, neg, corr, o := Hits(0, 0, 0), Hits(0, 0, 0), Hits(0, 0, 0), Others(0, 0, 0, 0, 0, 0);
    var i := 0;
    while i < |rows|
      invariant 0 <= i <= |rows|
      invariant pos == HitsOf(rows[..i], Positive) && neg == HitsOf(rows[..i], Negative)
      invariant corr == HitsOf(rows[..i], Correction) && o == OthersOf(rows[..i])
    {
      assert rows[..i + 1][..i] == rows[..i];
      hide AddRow, AddOthers;
      pos, neg, corr := AddRow(pos, rows[i], Positive), AddRow(neg, rows[i], Negative),
          AddRow(corr, rows[i], Correction);
      o := AddOthers(o, rows[i]);
      i := i + 1;
    }
    assert rows[..i] == rows;
    m := Report(pos, neg, corr, o, rows);
  }

  // ---------- conservation ----------

  lemma SplitCards(g: set<string>, p: set<string>)
    ensures |p * g| + |g - p| == |g| && |p * g| + |p - g| == |p|
  {
    assert p * g + (g - p) == g && p * g + (p - g) == p;
    assert (p * g) !! (g - p) && (p * g) !! (p - g);
  }

  /** Every annotated text is a hit or a miss; every offered text is a hit or an extra. */
  lemma {:induction false} CountersConserve(rows: seq<Row>, ch: Channel)
    ensures HitsOf(rows, ch).tp + HitsOf(rows, ch).fn == SumOver(rows, GoldSize(ch))
    ensures HitsOf(rows, ch).tp + HitsOf(rows, ch).fp == SumOver(rows, PredSize(ch))
  {
    if rows != [] {
      var last := rows[|rows| - 1];
      CountersConserve(rows[..|rows| - 1], ch);
      SplitCards(GoldSet(last.gold, ch), PredSet(last.gold, last.pred, ch));
    }
  }

  predicate MissFlag(r: Row, ch: Channel) {
    match ch
    case Positive => r.flags.posMiss
    case Negative => r.flags.negMiss
    case Correction => r.flags.corrMiss
  }

  lemma FlagMeansMiss(r: Row, s: Sample, ch: Channel)
    requires IsExportOf(r, s)
    ensures MissFlag(r, ch) <==> |GoldSet(r.gold, ch) - PredSet(r.gold, r.pred, ch)| != 0
  {
    var e := EvidenceOf(s);
    assert r.flags == FlagsOf(e) && r.gold == e.gold && r.pred == e.pred;
    assert MissFlag(r, ch) <==> e.Missed(ch);
    hide GoldSet, PredSet;
  }

  /** No misses are counted on a channel exactly when no row carries its miss flag. */
  lemma {:induction false} NoMissesIffNoFlag(rows: seq<Row>, samples: seq<Sample>, ch: Channel)
    requires IsExport(rows, samples)
    ensures HitsOf(rows, ch).fn == 0 <==> forall r :: r in rows ==> !MissFlag(r, ch)
  {
    hide MissFlag, IsExportOf, GoldSet, PredSet;
    if rows != [] {
      var n := |rows| - 1;
      NoMissesIffNoFlag(rows[..n], samples[..n], ch);
      FlagMeansMiss(rows[n], samples[n], ch);
      assert forall r :: r in rows <==> r in rows[..n] || r == rows[n];
    }
  }

  predicate Share(x: real) { 0.0 <= x <= 1.0 }

  lemma RatioIsShare(n: nat, d: nat)
    requires n <= d
    ensures Share(Ratio(n, d))
  {
  }

  lemma {:induction false} OthersBounded(rows: seq<Row>)
    ensures var o := OthersOf(rows); o.schemaOk <= |rows| && o.over <= |rows| && o.emptyCorrect <= o.emptyTotal
  {
    if rows != [] {
      OthersBounded(rows[..|rows| - 1]);
    }
  }

  /** Every rate is a share. */
  lemma RatesAreShares(rows: seq<Row>)
    ensures var m := MetricsOf(rows);
      && Share(m.posRecall) && Share(m.posPrecision) && Share(m.negRecall) && Share(m.negPrecision)
      && Share(m.corrRecall) && Share(m.corrPrecision) && Share(m.falsePositiveRate) && Share(m.falseNegativeRate)
      && Share(m.schemaValidity) && Share(m.overExtractionRate) && Share(m.emptyExtractionAccuracy)
  {
    OthersBounded(rows);
    hide Share, Ratio, HitsOf, OthersOf, Percentile;
    forall n: nat, d: nat | n <= d ensures Share(Ratio(n, d)) {
      RatioIsShare(n, d);
    }
  }

  lemma WholeShare(n: nat, d: nat)
    ensures Ratio(n, d) == 1.0 <==> d > 0 && n == d
  {
    if d > 0 {
      var x := n as real / d as real;
      assert x * d as real == n as real;
    }
  }

  /** Full recall means annotations on the channel and no row with the miss flag. */
  lemma FullRecallIffNoFlag(rows: seq<Row>, samples: seq<Sample>, ch: Channel)
    requires IsExport(rows, samples)
    ensures Recall(HitsOf(rows, ch)) == 1.0 <==>
      HitsOf(rows, ch).tp + HitsOf(rows, ch).fn > 0 && forall r :: r in rows ==> !MissFlag(r, ch)
  {
    hide HitsOf, IsExport, MissFlag, Ratio;
    NoMissesIffNoFlag(rows, samples, ch);
    var h := HitsOf(rows, ch);
    WholeShare(h.tp, h.tp + h.fn);
  }

  // ---------- percentiles ----------

  ghost predicate Ascending(s: seq<real>) { forall i, j :: 0 <= i <= j < |s| ==> s[i] <= s[j] }

  function Insert(x: real, s: seq<real>): (r: seq<real>)
    ensures multiset(r) == multiset{x} + multiset(s)
  {
    if s == [] || x <= s[0] then [x] + s
    else
      assert s == [s[0]] + s[1..];
      [s[0]] + Insert(x, s[1..])
  }

  /** `sorted`. */
  function Sorted(s: seq<real>): (r: seq<real>)
    ensures multiset(r) == multiset(s) && |r| == |s|
  {
    if s == [] then []
    else
      assert s == [s[0]] + s[1..];
      var r := Insert(s[0], Sorted(s[1..]));
      assert |multiset(r)| == |multiset(s)|;
      r
  }

  lemma InsertFrom(x: real, s: seq<real>)
    ensures forall v :: v in Insert(x, s) ==> v == x || v in s
  {
    forall v | v in Insert(x, s) ensures v == x || v in s {
      assert v in multiset(Insert(x, s));
    }
  }

  lemma ConsAscending(x: real, s: seq<real>)
    requires Ascending(s) && forall v :: v in s ==> x <= v
    ensures Ascending([x] + s)
  {
    var t := [x] + s;
    forall i, j | 0 <= i <= j < |t| ensures t[i] <= t[j] {
      assert i > 0 ==> t[i] == s[i - 1];
      assert j > 0 ==> t[j] == s[j - 1] && s[j - 1] in s;
    }
  }

  lemma {:induction false} InsertAscending(x: real, s: seq<real>)
    requires Ascending(s)
    ensures Ascending(Insert(x, s))
  {
    if s != [] && x > s[0] {
      InsertAscending(x, s[1..]);
      InsertFrom(x, s[1..]);
      ConsAscending(s[0], Insert(x, s[1..]));
    }
  }

  lemma {:induction false} SortedAscending(s: seq<real>)
    ensures Ascending(Sorted(s))
  {
    if s != [] {
      SortedAscending(s[1..]);
      InsertAscending(s[0], Sorted(s[1..]));
    }
  }

  lemma SameHead(a: seq<real>, b: seq<real>)
    requires Ascending(a) && Ascending(b) && multiset(a) == multiset(b) && a != [] && b != []
    ensures a[0] == b[0]
  {
    assert a[0] in multiset(b) && b[0] in multiset(a);
  }

  lemma TailMultiset(a: seq<real>)
    requires a != []
    ensures multiset(a[1..]) == multiset(a) - multiset{a[0]}
  {
    assert a == [a[0]] + a[1..];
  }

  lemma SameLength(a: seq<real>, b: seq<real>)
    requires multiset(a) == multiset(b)
    ensures |a| == |b|
  {
    assert |multiset(a)| == |a| && |multiset(b)| == |b|;
  }

  /** Only one ascending sequence has a given multiset. */
  lemma {:induction false} AscendingUnique(a: seq<real>, b: seq<real>)
    requires Ascending(a) && Ascending(b) && multiset(a) == multiset(b)
    ensures a == b
    decreases |a|
  {
    SameLength(a, b);
    if a != [] {
      SameHead(a, b);
      TailMultiset(a);
      TailMultiset(b);
      AscendingUnique(a[1..], b[1..]);
      assert a == [a[0]] + a[1..] && b == [b[0]] + b[1..];
    }
  }

  function Times(d: real, t: real): real { d * t }

  lemma TimesMono(d: real, t: real, u: real)
    requires d >= 0.0 && t <= u
    ensures Times(d, t) <= Times(d, u)
  {
    assert d * (u - t) >= 0.0;
  }

  lemma TimesInUnit(d: real, t: real)
    requires d >= 0.0 && 0.0 <= t <= 1.0
    ensures 0.0 <= Times(d, t) <= d
  {
    TimesMono(d, 0.0, t);
    TimesMono(d, t, 1.0);
  }

  /** The position `k` between the ranks of an ascending sequence, by linear interpolation. */
  function At(s: seq<real>, k: real): real
    requires |s| > 0 && 0.0 <= k <= (|s| - 1) as real
  {
    var f := k.Floor;
    var c := Min(f + 1, |s| - 1);
    if f == c then s[f] else s[f] + Times(s[c] - s[f], k - f as real)
  }

  /** Where percentile `p` falls among `n + 1` ranks. */
  function Position(n: nat, p: real): (k: real)
    requires 0.0 <= p <= 100.0
    ensures 0.0 <= k <= n as real
  {
    TimesInUnit(n as real, p / 100.0);
    Times(n as real, p / 100.0)
  }

  function Percentile(vals: seq<real>, p: real): real
    requires 0.0 <= p <= 100.0
  {
    if vals == [] then 0.0
    else
      var s := Sorted(vals);
      if |s| == 1 then s[0] else At(s, Position(|s| - 1, p))
  }

  /** Interpolation stays between the two ranks. */
  lemma AtBetween(s: seq<real>, k: real)
    requires Ascending(s) && |s| > 0 && 0.0 <= k <= (|s| - 1) as real
    ensures s[k.Floor] <= At(s, k)
    ensures At(s, k) <= s[Min(k.Floor + 1, |s| - 1)]
  {
    var f := k.Floor;
    var c := Min(f + 1, |s| - 1);
    hide Times;
    TimesInUnit(s[c] - s[f], k - f as real);
  }

  /** Monotone in the position, across ranks. */
  lemma AtMonotone(s: seq<real>, k: real, m: real)
    requires Ascending(s) && |s| > 0 && 0.0 <= k <= m <= (|s| - 1) as real
    ensures At(s, k) <= At(s, m)
  {
    hide Times;
    AtBetween(s, k);
    AtBetween(s, m);
    var f, g := k.Floor, m.Floor;
    if f == g {
      var c := Min(f + 1, |s| - 1);
      var d := s[c] - s[f];
      TimesMono(d, k - f as real, m - f as real);
    } else {
      assert f + 1 <= g < |s|;
      assert s[Min(f + 1, |s| - 1)] <= s[g];
    }
  }

  lemma SortedFrom(vals: seq<real>)
    ensures forall i :: 0 <= i < |Sorted(vals)| ==> Sorted(vals)[i] in vals
  {
    var s := Sorted(vals);
    forall i | 0 <= i < |s| ensures s[i] in vals {
      assert s[i] in multiset(s);
    }
  }

  /** The percentile lies between the smallest and the largest value. */
  lemma PercentileBetween(vals: seq<real>, p: real, lo: real, hi: real)
    requires vals != [] && 0.0 <= p <= 100.0 && forall v :: v in vals ==> lo <= v <= hi
    ensures lo <= Percentile(vals, p) <= hi
  {
    hide Sorted, Insert, At, Position;
    var s := Sorted(vals);
    SortedAscending(vals);
    SortedFrom(vals);
    if |s| > 1 {
      var k := Position(|s| - 1, p);
      AtBetween(s, k);
      assert s[k.Floor] in vals && s[Min(k.Floor + 1, |s| - 1)] in vals;
    }
  }

  /** A higher percentile is never smaller. */
  lemma PercentileMonotone(vals: seq<real>, p: real, q: real)
    requires vals != [] && 0.0 <= p <= q <= 100.0
    ensures Percentile(vals, p) <= Percentile(vals, q)
  {
    hide Sorted, Insert, At, Position;
    var s := Sorted(vals);
    SortedAscending(vals);
    if |s| > 1 {
      PositionMonotone(|s| - 1, p, q);
      AtMonotone(s, Position(|s| - 1, p), Position(|s| - 1, q));
    }
  }

  lemma PositionMonotone(n: nat, p: real, q: real)
    requires 0.0 <= p <= q <= 100.0
    ensures Position(n, p) <= Position(n, q)
  {
    TimesMono(n as real, p / 100.0, q / 100.0);
  }

  lemma SortedPermutes(vals: seq<real>, other: seq<real>)
    requires multiset(vals) == multiset(other)
    ensures Sorted(vals) == Sorted(other)
  {
    SortedAscending(vals);
    SortedAscending(other);
    AscendingUnique(Sorted(vals), Sorted(other));
  }

  /** The order of the values does not matter. */
  lemma PercentilePermutes(vals: seq<real>, other: seq<real>, p: real)
    requires multiset(vals) == multiset(other) && 0.0 <= p <= 100.0
    ensures Percentile(vals, p) == Percentile(other, p)
  {
    hide Sorted, Insert, At, Position;
    SameLength(vals, other);
    SortedPermutes(vals, other);
  }

  /** The reported P50 never exceeds the reported P95. */
  lemma MedianBelowP95(rows: seq<Row>)
    ensures MetricsOf(rows).latencyP50 <= MetricsOf(rows).latencyP95
  {
    if rows != [] {
      PercentileMonotone(Latencies(rows), 50.0, 95.0);
    }
  }
}
