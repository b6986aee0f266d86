/**
 Failure patterns: how often each cause and each linguistic pattern occurs among failing rows,
 how many training examples each pattern gets, and which step comes next.
 */
module ResidualTargets {
  import opened Prelude
  import opened ResidualCodes
  import M = ResidualMetrics

  // The example targets are shares of a budget with floors; when the floors push the total over
  // the budget, all targets are scaled down in integers.

  const PATTERNS: seq<Pattern> := [
    NegSimple, CorrectionXNotY, CorrectionRetraction, NegationOfNegation,
    MultiPosSingleNeg, BudgetPlusCorrection, Slang, Other]

  const BUDGET: int := 2000

  function Is<K(==)>(k: K): K -> bool { (x: K) => x == k }

  // ---------- counting ----------

  /** `cause_counter`: the primary causes of the failing rows. */
  function CauseCounter(rows: seq<Row>): Counter<Cause> {
    if rows == [] then []
    else
      var before, last := CauseCounter(rows[..|rows| - 1]), rows[|rows| - 1];
      if last.primary.Some? then Bump(before, last.primary.value) else before
  }

  function PatternsOf(r: Row): seq<Pattern> { if r.patterns == [] then [Other] else r.patterns }

  function BumpAll(counter: Counter<Pattern>, keys: seq<Pattern>): Counter<Pattern> {
    if keys == [] then counter else Bump(BumpAll(counter, keys[..|keys| - 1]), keys[|keys| - 1])
  }

  /** `fail_pat`: the patterns of the failing rows. */
  function FailCounter(rows: seq<Row>): Counter<Pattern> {
    if rows == [] then []
    else
      var before, last := FailCounter(rows[..|rows| - 1]), rows[|rows| - 1];
      if last.primary.Some? then BumpAll(before, PatternsOf(last)) else before
  }

  /** `pattern_counter`: the patterns of all rows. */
  function ShownCounter(rows: seq<Row>): Counter<Pattern> {
    if rows == [] then [] else BumpAll(ShownCounter(rows[..|rows| - 1]), PatternsOf(rows[|rows| - 1]))
  }

  /** A list with the patterns added that it lacks. */
  function Noted(list: seq<Pattern>, more: seq<Pattern>): (r: seq<Pattern>)
    ensures forall p :: p in r <==> p in list || p in more
    ensures (forall i, j :: 0 <= i < j < |list| ==> list[i] != list[j]) ==>
      forall i, j :: 0 <= i < j < |r| ==> r[i] != r[j]
  {
    if more == [] then list
    else
      var before, last := Noted(list, more[..|more| - 1]), more[|more| - 1];
      assert forall p :: p in more <==> p in more[..|more| - 1] || p == last;
      if last in before then before else before + [last]
  }

  /** `by_cause`: the patterns listed for every primary cause. */
  function CausePatterns(rows: seq<Row>): map<Cause, seq<Pattern>> {
    if rows == [] then map[]
    else
      var before, last := CausePatterns(rows[..|rows| - 1]), rows[|rows| - 1];
      if last.primary.None? then before
      else
        var c := last.primary.value;
        before[c := Noted(if c in before then before[c] else [], last.patterns)]
  }

  /** A cause is listed exactly if a row has it, with exactly the patterns of such rows, each once. */
  lemma {:induction false} CausePatternsMean(rows: seq<Row>, c: Cause)
    ensures var m := CausePatterns(rows);
      && (c in m <==> exists r :: r in rows && r.primary == Some(c))
      && (c in m ==>
          && (forall p :: p in m[c] <==> exists r :: r in rows && r.primary == Some(c) && p in r.patterns)
          && forall i, j :: 0 <= i < j < |m[c]| ==> m[c][i] != m[c][j])
  {
    if rows != [] {
      var n := |rows| - 1;
      CausePatternsMean(rows[..n], c);
      hide Noted;
      assert forall r :: r in rows <==> r in rows[..n] || r == rows[n];
    }
  }

  function WithCause(p: Cause -> bool): Row -> bool { (r: Row) => r.primary.Some? && p(r.primary.value) }

  /** Counting causes counts rows. */
  lemma {:induction false} CauseTotals(rows: seq<Row>, p: Cause -> bool)
    ensures CounterTotal(CauseCounter(rows), p) == M.CountRows(rows, WithCause(p))
  {
    if rows != [] {
      var n := |rows| - 1;
      CauseTotals(rows[..n], p);
      if rows[n].primary.Some? {
        BumpTotal(CauseCounter(rows[..n]), rows[n].primary.value, p);
      }
    }
  }

  /** How often a failing row shows a pattern. */
  function Shows(pattern: Pattern): Row -> nat {
    (r: Row) => if r.primary.Some? then multiset(PatternsOf(r))[pattern] else 0
  }

  lemma {:induction false} BumpAllTotal(counter: Counter<Pattern>, keys: seq<Pattern>, pattern: Pattern)
    ensures CounterTotal(BumpAll(counter, keys), Is(pattern)) ==
        CounterTotal(counter, Is(pattern)) + multiset(keys)[pattern]
  {
    if keys != [] {
      var n := |keys| - 1;
      BumpAllTotal(counter, keys[..n], pattern);
      BumpTotal(BumpAll(counter, keys[..n]), keys[n], Is(pattern));
      assert keys == keys[..n] + [keys[n]];
    }
  }

  function ShowsAnywhere(pattern: Pattern): Row -> nat { (r: Row) => multiset(PatternsOf(r))[pattern] }

  /** The counter of a pattern is how often it is shown. */
  lemma {:induction false} ShownTotals(rows: seq<Row>, pattern: Pattern)
    ensures CounterTotal(ShownCounter(rows), Is(pattern)) == M.SumOver(rows, ShowsAnywhere(pattern))
  {
    if rows != [] {
      var n := |rows| - 1;
      ShownTotals(rows[..n], pattern);
      BumpAllTotal(ShownCounter(rows[..n]), PatternsOf(rows[n]), pattern);
    }
  }

  /** And for the failing rows, how often failing rows show it. */
  lemma {:induction false} FailTotals(rows: seq<Row>, pattern: Pattern)
    ensures CounterTotal(FailCounter(rows), Is(pattern)) == M.SumOver(rows, Shows(pattern))
  {
    if rows != [] {
      var n := |rows| - 1;
      FailTotals(rows[..n], pattern);
      if rows[n].primary.Some? {
        BumpAllTotal(FailCounter(rows[..n]), PatternsOf(rows[n]), pattern);
      }
    }
  }

  // ---------- example targets ----------

  /** The nearest integer to n / d, ties to the even one. */
  function RoundHalfEven(n: nat, d: nat): nat
    requires d > 0
  {
    var q, rest := n / d, n % d;
    if 2 * rest < d || (2 * rest == d && q % 2 == 0) then q else q + 1
  }

  /** Rounding is off by at most a half. */
  lemma RoundingError(n: nat, d: nat)
    requires d > 0
    ensures 2 * n - d <= 2 * (d * RoundHalfEven(n, d)) <= 2 * n + d
  {
    var q := n / d;
    assert n == d * q + n % d;
    assert d * (q + 1) == d * q + d;
  }

  predicate KnownHard(p: Pattern) { p == NegSimple || p == CorrectionXNotY }

  /** The target of one pattern before scaling; 0 means that it gets none. */
  function Base(p: Pattern, count: nat, total: nat): nat
    requires total > 0
  {
    if count > 0 then Max(40, RoundHalfEven(count * BUDGET, total))
    else if KnownHard(p) then 80 else 0
  }

  function Counts(fail: Counter<Pattern>): (c: seq<nat>)
    ensures |c| == |PATTERNS|
  {
    seq(|PATTERNS|, i requires 0 <= i < |PATTERNS| => CounterTotal(fail, Is(PATTERNS[i])))
  }

  function FailTotal(fail: Counter<Pattern>): nat { CounterTotal(fail, (p: Pattern) => true) }

  function Bases(fail: Counter<Pattern>): (b: seq<nat>)
    ensures |b| == |PATTERNS|
  {
    var total := Max(1, FailTotal(fail));
    seq(|PATTERNS|, i requires 0 <= i < |PATTERNS| => Base(PATTERNS[i], CounterTotal(fail, Is(PATTERNS[i])), total))
  }

  /** `max(20, int(v * budget / s))` for the patterns that have a target. */
  function Scaled(v: nat, s: nat): nat
    requires s > 0
  {
    if v == 0 then 0 else Max(20, v * BUDGET / s)
  }

  function Targets(fail: Counter<Pattern>): (t: seq<nat>)
    ensures |t| == |PATTERNS|
  {
    var b := Bases(fail);
    if Sum(b) > BUDGET then seq(|b|, i requires 0 <= i < |b| => Scaled(b[i], Sum(b))) else b
  }

  // ---------- the script ----------

  datatype NextStep = TargetedSft | ServingFix | MatcherBacklog

  datatype Hint = Hint(model: nat, runtime: nat, matcher: nat, next: NextStep)

  function Models(): Cause -> bool { (c: Cause) => IsModel(c) }

  function Runtimes(): Cause -> bool { (c: Cause) => IsRuntime(c) }

  function DecisionHint(causes: Counter<Cause>): Hint {
    var model, runtime, matcher := CounterTotal(causes, Models()), CounterTotal(causes, Runtimes()),
        CounterTotal(causes, Is(Matcher));
    Hint(model, runtime, matcher,
         if model >= runtime && model >= matcher then TargetedSft
         else if runtime > model then ServingFix
         else if matcher > model then MatcherBacklog
         else TargetedSft)
  }

  datatype Patterns = Patterns(
    causes: Counter<Cause>, perCause: map<Cause, seq<Pattern>>, shown: Counter<Pattern>, failing: Counter<Pattern>,
    targets: seq<nat>, hint: Hint)

  function PatternsReport(rows: seq<Row>): Patterns {
    Patterns(CauseCounter(rows), CausePatterns(rows), ShownCounter(rows), FailCounter(rows), Targets(FailCounter(rows)),
             DecisionHint(CauseCounter(rows)))
  }

  method CountPatterns(counter: Counter<Pattern>, keys: seq<Pattern>) returns (c: Counter<Pattern>)
    ensures c == BumpAll(counter, keys)
  {
    c := counter;
    var j := 0;
    while j < |keys|
      invariant 0 <= j <= |keys| && c == BumpAll(counter, keys[..j])
    {
      assert keys[..j + 1][..j] == keys[..j];
      c := Bump(c, keys[j]);
      j := j + 1;
    }
    assert keys[..j] == keys;
  }

  method NotePatterns(list: seq<Pattern>, more: seq<Pattern>) returns (r: seq<Pattern>)
    ensures r == Noted(list, more)
  {
    r := list;
    var j := 0;
    while j < |more|
      invariant 0 <= j <= |more| && r == Noted(list, more[..j])
    {
      assert more[..j + 1][..j] == more[..j];
      if more[j] !in r {
        r := r + [more[j]];
      }
      j := j + 1;
    }
    assert more[..j] == more;
  }

  lemma OneMoreRow(rows: seq<Row>, i: nat)
    requires i < |rows|
    ensures var r, pats := rows[i], PatternsOf(rows[i]);
      && ShownCounter(rows[..i + 1]) == BumpAll(ShownCounter(rows[..i]), pats)
      && (r.primary.None? ==>
          && CauseCounter(rows[..i + 1]) == CauseCounter(rows[..i])
          && CausePatterns(rows[..i + 1]) == CausePatterns(rows[..i])
          && FailCounter(rows[..i + 1]) == FailCounter(rows[..i]))
      && (r.primary.Some? ==>
          var c, before := r.primary.value, CausePatterns(rows[..i]);
          && CauseCounter(rows[..i + 1]) == Bump(CauseCounter(rows[..i]), c)
          && CausePatterns(rows[..i + 1]) == before[c := Noted(if c in before then before[c] else [], r.patterns)]
          && FailCounter(rows[..i + 1]) == BumpAll(FailCounter(rows[..i]), pats))
  {
    assert rows[..i + 1][..i] == rows[..i];
    hide BumpAll, Noted, Bump, PatternsOf;
  }

  /** One pass over the rows. */
  method CountFailures(rows: seq<Row>)
    returns (causes: Counter<Cause>, perCause: map<Cause, seq<Pattern>>, shown: Counter<Pattern>,
        failing: Counter<Pattern>)
    ensures causes == CauseCounter(rows) && perCause == CausePatterns(rows)
    ensures shown == ShownCounter(rows) && failing == FailCounter(rows)
  {
    causes, perCause, shown, failing := [], map[], [], [];
    var i := 0;
    hide BumpAll, Noted, Bump, PatternsOf;
    while i < |rows|
      invariant 0 <= i <= |rows|
      invariant causes == CauseCounter(rows[..i]) && perCause == CausePatterns(rows[..i])
      invariant shown == ShownCounter(rows[..i]) && failing == FailCounter(rows[..i])
    {
      OneMoreRow(rows, i);
      var pats := PatternsOf(rows[i]);
      shown := CountPatterns(shown, pats);
      if rows[i].primary.Some? {
        var c := rows[i].primary.value;
        causes := Bump(causes, c);
        var noted := NotePatterns(if c in perCause then perCause[c] else [], rows[i].patterns);
        perCause := perCause[c := noted];
        failing := CountPatterns(failing, pats);
      }
      i := i + 1;
    }
    assert rows[..i] == rows;
  }

  /** The target of every pattern before scaling, and their sum. */
  method BaseTargets(failing: Counter<Pattern>) returns (targets: seq<nat>, s: nat)
    ensures targets == Bases(failing) && s == Sum(targets)
  {
    hide Base, FailTotal, CounterTotal;
    var total := Max(1, FailTotal(failing));
    targets, s := [], 0;
    var i := 0;
    while i < |PATTERNS|
      invariant 0 <= i <= |PATTERNS|
      invariant targets == Bases(failing)[..i] && s == Sum(targets)
    {
      var base := Base(PATTERNS[i], CounterTotal(failing, Is(PATTERNS[i])), total);
      SumSnoc(targets, base);
      targets, s := targets + [base], s + base;
      i := i + 1;
    }
    assert targets == Bases(failing);
  }

  lemma SumSnoc(s: seq<int>, v: int)
    ensures Sum(s + [v]) == Sum(s) + v
  {
    SumAppend(s, [v]);
    assert Sum([v]) == v;
  }

  method ScaleTargets(bases: seq<nat>, s: nat) returns (scaled: seq<nat>)
    requires s > BUDGET
    ensures |scaled| == |bases| && forall i :: 0 <= i < |bases| ==> scaled[i] == Scaled(bases[i], s)
  {
    scaled := [];
    for i := 0 to |bases|
      invariant |scaled| == i && forall k :: 0 <= k < i ==> scaled[k] == Scaled(bases[k], s)
    {
      scaled := scaled + [Scaled(bases[i], s)];
    }
  }

  /** The report of a list of rows, and what its counters mean. */
  method BuildFailurePatterns(rows: seq<Row>) returns (report: Patterns)
    ensures report == PatternsReport(rows)
    ensures forall c: Cause :: CounterTotal(report.causes, Is(c)) == M.CountRows(rows, WithCause(Is(c)))
    ensures forall p: Pattern :: CounterTotal(report.shown, Is(p)) == M.SumOver(rows, ShowsAnywhere(p))
    ensures forall p: Pattern :: CounterTotal(report.failing, Is(p)) == M.SumOver(rows, Shows(p))
  {
    hide *;
    var causes, perCause, shown, failing := CountFailures(rows);
    var targets, s := BaseTargets(failing);
    if s > BUDGET {
      targets := ScaleTargets(targets, s);
    }
    TargetsAre(failing, targets);
    report := Patterns(causes, perCause, shown, failing, targets, DecisionHint(causes));
    ReportIs(rows, report);
    forall c: Cause ensures CounterTotal(report.causes, Is(c)) == M.CountRows(rows, WithCause(Is(c))) {
      CauseTotals(rows, Is(c));
    }
    forall p: Pattern ensures CounterTotal(report.shown, Is(p)) == M.SumOver(rows, ShowsAnywhere(p)) {
      ShownTotals(rows, p);
    }
    forall p: Pattern ensures CounterTotal(report.failing, Is(p)) == M.SumOver(rows, Shows(p)) {
      FailTotals(rows, p);
    }
  }

  lemma TargetsAre(failing: Counter<Pattern>, targets: seq<nat>)
    requires var b := Bases(failing);
      if Sum(b) > BUDGET then |targets| == |b| && forall i :: 0 <= i < |b| ==> targets[i] == Scaled(b[i], Sum(b))
      else targets == b
    ensures targets == Targets(failing)
  {
    hide Bases, Sum, Scaled;
  }

  lemma ReportIs(rows: seq<Row>, report: Patterns)
    requires report == Patterns(CauseCounter(rows), CausePatterns(rows), ShownCounter(rows), FailCounter(rows),
        Targets(FailCounter(rows)), DecisionHint(CauseCounter(rows)))
    ensures report == PatternsReport(rows)
  {
  }

  // ---------- the budget ----------

  lemma BaseBound(p: Pattern, count: nat, total: nat)
    requires total > 0
    ensures 2 * (total * Base(p, count, total)) <= 2 * BUDGET * count + 161 * total
    ensures Base(p, count, total) == 0 || Base(p, count, total) >= 40
  {
    if count > 0 {
      RoundingError(count * BUDGET, total);
      assert total * 40 == 40 * total;
    } else {
      assert total * 80 == 80 * total;
    }
  }

  /** Every occurrence belongs to one of the patterns. */
  lemma {:induction false} CountsSum(fail: Counter<Pattern>)
    ensures Sum(Counts(fail)) == FailTotal(fail)
  {
    if fail == [] {
      ZeroSum(Counts(fail));
    } else {
      var k := fail[0].0;
      CountsSum(fail[1..]);
      var at := Index(k);
      assert Counts(fail) == Counts(fail[1..])[at := Counts(fail[1..])[at] + fail[0].1];
      SumUpdate(Counts(fail[1..]), at, Counts(fail[1..])[at] + fail[0].1);
    }
  }

  lemma {:induction false} ZeroSum(s: seq<int>)
    requires forall i :: 0 <= i < |s| ==> s[i] == 0
    ensures Sum(s) == 0
  {
    if s != [] {
      ZeroSum(s[1..]);
    }
  }

  function Index(p: Pattern): (k: nat)
    ensures k < |PATTERNS| && PATTERNS[k] == p
    ensures forall j :: 0 <= j < |PATTERNS| && PATTERNS[j] == p ==> j == k
  {
    match p
    case NegSimple => 0
    case CorrectionXNotY => 1
    case CorrectionRetraction => 2
    case NegationOfNegation => 3
    case MultiPosSingleNeg => 4
    case BudgetPlusCorrection => 5
    case Slang => 6
    case Other => 7
  }

  /** Entrywise bounds add up. */
  lemma {:induction false} BoundsAdd(a: seq<int>, b: seq<int>, factor: int, slope: int, slack: int)
    requires |a| == |b| && forall i :: 0 <= i < |a| ==> factor * a[i] <= slope * b[i] + slack
    ensures factor * Sum(a) <= slope * Sum(b) + slack * |a|
  {
    if a != [] {
      BoundsAdd(a[1..], b[1..], factor, slope, slack);
      Distribute(factor, a[0], Sum(a[1..]));
      Distribute(slope, b[0], Sum(b[1..]));
      Distribute(slack, 1, |a| - 1);
    }
  }

  lemma Distribute(f: int, x: int, y: int)
    ensures f * (x + y) == f * x + f * y
  {
  }

  lemma BasesBounded(fail: Counter<Pattern>)
    ensures var total := Max(1, FailTotal(fail)); forall i :: 0 <= i < |PATTERNS| ==>
      (2 * total) * Bases(fail)[i] <= (2 * BUDGET) * Counts(fail)[i] + 161 * total
    ensures forall i :: 0 <= i < |PATTERNS| ==> Bases(fail)[i] == 0 || Bases(fail)[i] >= 40
  {
    var total, b, c := Max(1, FailTotal(fail)), Bases(fail), Counts(fail);
    forall i | 0 <= i < |PATTERNS|
      ensures (2 * total) * b[i] <= (2 * BUDGET) * c[i] + 161 * total && (b[i] == 0 || b[i] >= 40)
    {
      BaseBound(PATTERNS[i], c[i], total);
      hide Base;
      Regroup(total, b[i]);
    }
  }

  lemma Regroup(total: int, b: int)
    ensures (2 * total) * b == 2 * (total * b)
  {
  }

  /** Before scaling the targets exceed the budget by less than a third. */
  lemma BasesSum(fail: Counter<Pattern>)
    ensures Sum(Bases(fail)) <= 2644
    ensures forall i :: 0 <= i < |PATTERNS| ==> Bases(fail)[i] == 0 || Bases(fail)[i] >= 40
    ensures Bases(fail)[0] > 0 && Bases(fail)[1] > 0
  {
    var total := Max(1, FailTotal(fail));
    WhoHasTarget(fail);
    assert PATTERNS[0] == NegSimple && PATTERNS[1] == CorrectionXNotY;
    BasesBounded(fail);
    hide Bases, Counts, Sum;
    BoundsAdd(Bases(fail), Counts(fail), 2 * total, 2 * BUDGET, 161 * total);
    CountsSum(fail);
    AtMost(total, Sum(Bases(fail)));
  }

  lemma AtMost(total: int, s: int)
    requires total > 0 && (2 * total) * s <= (2 * BUDGET) * total + (161 * total) * 8
    ensures s <= 2644
  {
    TimesLess(2 * total, 2644, s);
  }

  lemma TimesLess(a: int, x: int, y: int)
    requires a > 0
    ensures x < y <==> a * x < a * y
  {
    assert a * (y - x) == a * y - a * x;
  }

  /** Scaling loses less than one example per pattern, and the floor of 20 never decides. */
  lemma ScaledBounds(v: nat, s: nat)
    requires BUDGET < s <= 2644 && (v == 0 || v >= 40)
    ensures s * Scaled(v, s) <= BUDGET * v < s * Scaled(v, s) + s
    ensures v > 0 ==> Scaled(v, s) == v * BUDGET / s > 20
  {
    if v > 0 {
      var q := v * BUDGET / s;
      assert v * BUDGET == s * q + v * BUDGET % s;
      TimesLess(s, 20, q);
      assert s * 20 == 20 * s;
    }
  }

  /** The targets never exceed the budget, every target is above 20, and the two patterns
      known to be hard always have one. */
  lemma TargetsWithinBudget(fail: Counter<Pattern>)
    ensures Sum(Targets(fail)) <= BUDGET
    ensures forall i :: 0 <= i < |PATTERNS| ==> Targets(fail)[i] == 0 || Targets(fail)[i] > 20
    ensures Targets(fail)[0] > 0 && Targets(fail)[1] > 0
    ensures forall i :: 0 <= i < |PATTERNS| ==>
        (Targets(fail)[i] > 0 <==> Counts(fail)[i] > 0 || KnownHard(PATTERNS[i]))
  {
    BasesSum(fail);
    WhoHasTarget(fail);
    hide Base;
    if Sum(Bases(fail)) > BUDGET {
      ScaledSum(fail);
    }
  }

  lemma WhoHasTarget(fail: Counter<Pattern>)
    ensures forall i :: 0 <= i < |PATTERNS| ==> (Bases(fail)[i] > 0 <==> Counts(fail)[i] > 0 || KnownHard(PATTERNS[i]))
  {
  }

  /** When the floors overdraw the budget, scaling uses all but fewer than eight examples, and
      every target is the plain quotient. */
  lemma ScaledSum(fail: Counter<Pattern>)
    requires Sum(Bases(fail)) > BUDGET
    ensures BUDGET - 8 < Sum(Targets(fail)) <= BUDGET
    ensures forall i :: 0 <= i < |PATTERNS| && Bases(fail)[i] > 0 ==>
      Targets(fail)[i] == Bases(fail)[i] * BUDGET / Sum(Bases(fail)) > 20
  {
    BasesSum(fail);
    var b, s: int, t := Bases(fail), Sum(Bases(fail)), Targets(fail);
    assert forall i :: 0 <= i < |b| ==> t[i] == Scaled(b[i], s);
    hide Bases, Base, Targets, Sum;
    ScaledAll(b, s, t);
    BoundsAdd(t, b, s, BUDGET, 0);
    BoundsAdd(t, b, -s, -BUDGET, s - 1);
    Quotient(s, Sum(t));
  }

  lemma ScaledAll(b: seq<nat>, s: int, t: seq<nat>)
    requires |t| == |b| && BUDGET < s <= 2644 && forall i :: 0 <= i < |b| ==> b[i] == 0 || b[i] >= 40
    requires forall i :: 0 <= i < |b| ==> t[i] == Scaled(b[i], s)
    ensures forall i :: 0 <= i < |b| ==> s * t[i] <= BUDGET * b[i] + 0 && (-s) * t[i] <= (-BUDGET) * b[i] + (s - 1)
    ensures forall i :: 0 <= i < |b| && b[i] > 0 ==> t[i] == b[i] * BUDGET / s > 20
  {
    forall i | 0 <= i < |b|
      ensures s * t[i] <= BUDGET * b[i] + 0 && (-s) * t[i] <= (-BUDGET) * b[i] + (s - 1)
      ensures b[i] > 0 ==> t[i] == b[i] * BUDGET / s > 20
    {
      ScaledBounds(b[i], s);
      assert (-s) * t[i] == -(s * t[i]);
    }
  }

  lemma Quotient(s: int, sum: int)
    requires s > 0 && s * sum <= BUDGET * s && (-s) * sum <= (-BUDGET) * s + (s - 1) * 8
    ensures BUDGET - 8 < sum <= BUDGET
  {
    TimesLess(s, BUDGET, sum);
    TimesLess(s, BUDGET - 8, sum);
    assert (-s) * sum == -(s * sum);
  }

  // ---------- the next step ----------

  function Failing(): Row -> bool { (r: Row) => r.primary.Some? }

  lemma {:induction false} CountSplit(rows: seq<Row>, samples: seq<Sample>)
    requires IsExport(rows, samples)
    ensures M.CountRows(rows, WithCause(Models())) + M.CountRows(rows, WithCause(Runtimes())) ==
        M.CountRows(rows, Failing())
    ensures M.CountRows(rows, WithCause(Is(Matcher))) == 0
  {
    if rows != [] {
      var n := |rows| - 1;
      CountSplit(rows[..n], samples[..n]);
      assert IsExportOf(rows[n], samples[n]);
      StoredCausesRanked(rows[n], samples[n]);
      hide IsExportOf;
    }
  }

  /** On an export the model and runtime weights add up to the failing rows, the matcher has
      no weight, and the serving fix is chosen exactly when runtime causes outnumber model ones. */
  lemma HintOnExport(rows: seq<Row>, samples: seq<Sample>)
    requires IsExport(rows, samples)
    ensures var h := DecisionHint(CauseCounter(rows));
      && h.model + h.runtime == M.CountRows(rows, Failing()) && h.matcher == 0
      && h.next == (if h.runtime > h.model then ServingFix else TargetedSft)
  {
    CauseTotals(rows, Models());
    CauseTotals(rows, Runtimes());
    CauseTotals(rows, Is(Matcher));
    CountSplit(rows, samples);
    hide CauseCounter, M.CountRows;
  }
}
