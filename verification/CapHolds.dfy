/**
 When the global product cap holds, and how far it can be passed, over all runs.
 */
module CapHolds {
  import opened Prelude
  import opened CrawlBudget
  import opened RowSupply
  import opened TightOvershoot

  /** No run from a total within the cap ever takes the total past `bound`. */
  ghost predicate NeverAbove(c: Config, bound: int) {
    forall st, steps :: Shaped(c, st) && AllIdle(st) && Total(st) <= c.cap ==> Total(Run(c, st, steps)) <= bound
  }

  ghost predicate LeastBlind(c: Config, s: nat)
    requires Tidy(c)
  {
    && s < |c.kinds| && c.kinds[s].Some?
    && forall t :: 0 <= t < |c.kinds| && c.kinds[t].Some? ==> Blind(c, s).value <= Blind(c, t).value
  }

  /** A least blind crawler can fill what the others leave. */
  ghost predicate LeastBlindFills(c: Config)
    requires Tidy(c)
  {
    exists s, u :: LeastBlind(c, s) && Filler(c, s, u)
  }

  /** The overshoot bounds every run, and where a least blind crawler can fill what the others
      leave nothing less does. */
  lemma OvershootIsExact(c: Config, bound: int)
    requires Tidy(c)
    ensures c.cap + Overshoot(c) <= bound ==> NeverAbove(c, bound)
    ensures LeastBlindFills(c) ==> (NeverAbove(c, bound) <==> c.cap + Overshoot(c) <= bound)
  {
    hide Overshoot, Run, Total, TightSteps, StartState, Filler, Blind;
    forall st, steps | Shaped(c, st) && AllIdle(st) && Total(st) <= c.cap
      ensures Total(Run(c, st, steps)) <= c.cap + Overshoot(c)
    {
      OvershootBound(c, st, steps);
    }
    if LeastBlindFills(c) && NeverAbove(c, bound) {
      var s, u :| LeastBlind(c, s) && Filler(c, s, u);
      OvershootIsReached(c, s, u);
      assert Total(Run(c, StartState(c, s, u), TightSteps(c, s))) <= bound;
    }
  }

  /** Without merchant limits, or with limits that reach the cap, any crawler can. */
  lemma UnlimitedFills(c: Config)
    requires Tidy(c) && exists s :: 0 <= s < |c.kinds| && c.kinds[s].Some?
    requires forall s :: 0 <= s < |c.kinds| && c.kinds[s].Some? ==> c.limits[s] <= 0 || c.limits[s] >= c.cap
    ensures LeastBlindFills(c)
  {
    var s := LeastBlindCrawler(c);
    assert Most(c, s) == c.cap;
    hide Blind;
    assert LeastBlind(c, s) && Filler(c, s, s);
  }

  lemma LeastAt(b: seq<Option<nat>>, some: nat) returns (s: nat)
    requires some < |b| && b[some].Some?
    ensures s < |b| && b[s].Some? && forall t :: 0 <= t < |b| && b[t].Some? ==> b[s].value <= b[t].value
  {
    var m := Least(b);
    assert m.Some? && forall t :: 0 <= t < |b| && b[t].Some? ==> m.value <= b[t].value;
    s :| 0 <= s < |b| && b[s] == m;
  }

  lemma LeastBlindCrawler(c: Config) returns (s: nat)
    requires Tidy(c) && exists s :: 0 <= s < |c.kinds| && c.kinds[s].Some?
    ensures LeastBlind(c, s)
  {
    var some: nat :| some < |c.kinds| && c.kinds[some].Some?;
    var b := Blinds(c);
    assert forall t :: 0 <= t < |c.kinds| ==> Blind(c, t) == b[t];
    hide Blind;
    s := LeastAt(b, some);
    assert Blind(c, s) == b[s];
  }

  // ---------- two crawlers ----------

  /** One crawler hides rows, another fills its room, and the first one saves. */
  function DuelSteps(c: Config, a: nat, b: nat, p: nat, n: nat, room: nat): seq<Step>
    requires a < |c.kinds| && b < |c.kinds| && c.kinds[a].Some? && c.kinds[b].Some?
  {
    HideSteps(c.kinds[a].value, a, p, n) + FillSteps(c.kinds[b].value, b, room) + SaveSteps(c.kinds[a].value, a, p, n)
  }

  lemma Duel(c: Config, st: State, a: nat, b: nat, p: nat, n: nat, ra: nat, rb: nat)
    requires Shaped(c, st) && a != b && Ready(c, st, a, p, ra) && Ready(c, st, b, 0, rb)
    requires CanHide(c.kinds[a].value, p, n, ra)
    ensures Total(Run(c, st, DuelSteps(c, a, b, p, n, rb))) == Total(st) + rb + n
  {
    var kind := c.kinds[a].value;
    var hiding, fill, save := HideSteps(kind, a, p, n), FillSteps(c.kinds[b].value, b, rb), SaveSteps(kind, a, p, n);
    var st1 := Run(c, st, hiding);
    Hides(c, st, a, p, n, ra);
    hide Run, Hiding, CanHide, HideSteps, FillSteps, SaveSteps, Next, FreshRows, Live, Total, Shaped;
    StillReady(c, st, st1, b, rb);
    Fills(c, st1, b, rb);
    var st2 := Run(c, st1, fill);
    Saves(c, st2, a, p, n, ra);
    RunAppend(c, st, hiding, fill);
    RunAppend(c, st, hiding + fill, save);
    DuelTotal(st, st2, Run(c, st2, save), a, b, p, n, rb);
  }

  lemma DuelTotal(st: State, st2: State, r: State, a: nat, b: nat, p: nat, n: nat, room: nat)
    requires a < |st.files| && b < |st.files| && a != b && st.files[a] == FreshRows(p) && st.files[b] == FreshRows(0)
    requires st2.files == st.files[b := FreshRows(room)] && r.files == st2.files[a := FreshRows(p + n)]
    ensures Total(r) == Total(st) + room + n
  {
    assert Counts(r.files) == Counts(st.files)[b := room][a := p + n];
    SumUpdate(Counts(st.files), b, room);
    SumUpdate(Counts(st.files)[b := room], a, p + n);
  }

  lemma StillReady(c: Config, st: State, r: State, b: nat, room: nat)
    requires Shaped(c, st) && Shaped(c, r) && Ready(c, st, b, 0, room) && r.files == st.files &&
        r.procs[b] == st.procs[b]
    ensures Ready(c, r, b, 0, room)
  {
    assert Others(r, b) == Others(st, b);
  }

  /** The rows crawler `a` hides in a duel. */
  function Hidden(kind: Kind, p: nat, room: nat): nat
    requires p < room
  {
    if kind == Paged then room - p else 1
  }

  /** Two crawlers, one of which sees all the room there is, can pass the cap. */
  lemma DuelPassesCap(c: Config, st: State, a: nat, b: nat, p: nat, ra: nat, rb: nat)
    requires Tidy(c) && Shaped(c, st) && AllIdle(st) && Total(st) <= c.cap
    requires a != b && Ready(c, st, a, p, ra) && Ready(c, st, b, 0, rb) && Total(st) + rb >= c.cap
    ensures !NeverAbove(c, c.cap)
  {
    var n := Hidden(c.kinds[a].value, p, ra);
    assert CanHide(c.kinds[a].value, p, n, ra);
    hide Ready, CanHide, Run, Total, DuelSteps;
    Duel(c, st, a, b, p, n, ra, rb);
    assert Total(Run(c, st, DuelSteps(c, a, b, p, n, rb))) > c.cap;
  }

  // ---------- when the cap holds ----------

  /** Two sources whose limits fit into the cap together. */
  ghost predicate LimitsFit(c: Config)
    requires Tidy(c)
  {
    |c.kinds| == 2 && Most(c, 0) + Most(c, 1) <= c.cap
  }

  /** A third source holds all but one product. */
  function NearlyFull(c: Config, u: nat): State
    requires c.cap > 0
  {
    State(seq(|c.kinds|, t requires 0 <= t => if t == u then FreshRows(c.cap - 1) else []), seq(|c.kinds|, t => Idle))
  }

  lemma ThirdSource(c: Config, a: nat, b: nat, u: nat)
    requires Tidy(c) && a < b < |c.kinds| && u < |c.kinds| && u != a && u != b && c.kinds[a].Some? && c.kinds[b].Some?
    ensures !NeverAbove(c, c.cap)
  {
    var st := NearlyFull(c, u);
    OneFileTotal(st.files, u);
    assert FreshRows(0) == [];
    assert Ready(c, st, a, 0, 1) && Ready(c, st, b, 0, 1);
    hide Ready, NeverAbove, NearlyFull;
    DuelPassesCap(c, st, a, b, 0, 1, 1);
  }

  /** Of two sources the first one holds what the second one's limit leaves. */
  lemma TwoSources(c: Config)
    requires Tidy(c) && |c.kinds| == 2 && c.kinds[0].Some? && c.kinds[1].Some? && Most(c, 0) + Most(c, 1) > c.cap
    ensures !NeverAbove(c, c.cap)
  {
    var p := c.cap - Most(c, 1);
    var st := State([FreshRows(p), []], [Idle, Idle]);
    OneFileTotal(st.files, 0);
    assert FreshRows(0) == [];
    assert Ready(c, st, 0, p, Most(c, 0)) && Ready(c, st, 1, 0, Most(c, 1));
    hide Ready, NeverAbove, Most;
    DuelPassesCap(c, st, 0, 1, p, Most(c, 0), Most(c, 1));
  }

  /** With such limits two crawlers never pass the cap. */
  ghost predicate Fit(c: Config, st: State) {
    && Shaped(c, st) && |c.kinds| == 2
    && ProcInv(c, st, 0) && ProcInv(c, st, 1) && Potential(st, 0) + Potential(st, 1) <= c.cap
  }

  lemma SumOfTwo(s: seq<int>)
    requires |s| == 2
    ensures Sum(s) == s[0] + s[1]
  {
    assert Sum(s) == s[0] + Sum(s[1..]);
    assert Sum(s[1..]) == s[1] + Sum(s[1..][1..]);
  }

  lemma TwoCounts(st: State)
    requires |st.files| == 2
    ensures Total(st) == |st.files[0]| + |st.files[1]|
  {
    SumOfTwo(Counts(st.files));
  }

  /** The other source's potential is its feed, or at most its limit. */
  lemma LocalFits(c: Config, st: State, r: State, s: nat)
    requires Tidy(c) && LimitsFit(c) && Fit(c, st) && Shaped(c, r) && s < 2 && IsLocal(c, st, r, s)
    ensures Fit(c, r)
  {
    TwoCounts(st);
    PotentialBounds(c, st, 0);
    PotentialBounds(c, st, 1);
    SparesOther(c, st, r, s);
    hide ProcInv, Most, Potential;
  }

  lemma SparesOther(c: Config, st: State, r: State, s: nat)
    requires Shaped(c, st) && Shaped(c, r) && |c.kinds| == 2 && s < 2 && IsLocal(c, st, r, s) && ProcInv(c, st, 1 - s)
    ensures ProcInv(c, r, 1 - s) && Potential(r, 1 - s) == Potential(st, 1 - s)
  {
  }

  lemma NextFits(c: Config, st: State, step: Step)
    requires Tidy(c) && LimitsFit(c) && Fit(c, st)
    ensures Fit(c, Next(c, st, step))
  {
    if step.s < 2 && c.kinds[step.s].Some? {
      NextIsLocal(c, st, step);
      hide Next, IsLocal;
      LocalFits(c, st, Next(c, st, step), step.s);
    }
  }

  lemma {:induction false} RunFits(c: Config, st: State, steps: seq<Step>)
    requires Tidy(c) && LimitsFit(c) && Fit(c, st)
    ensures Fit(c, Run(c, st, steps))
    decreases |steps|
  {
    if steps != [] {
      NextFits(c, st, steps[0]);
      hide Next, Fit;
      RunFits(c, Next(c, st, steps[0]), steps[1..]);
    }
  }

  lemma FittingLimits(c: Config, st: State, steps: seq<Step>)
    requires Tidy(c) && LimitsFit(c) && Shaped(c, st) && AllIdle(st) && Total(st) <= c.cap
    ensures Total(Run(c, st, steps)) <= c.cap
  {
    var r := Run(c, st, steps);
    TwoCounts(st);
    assert st.procs[0] in st.procs && st.procs[1] in st.procs;
    RunFits(c, st, steps);
    hide Run;
    TwoCounts(r);
    PotentialBounds(c, r, 0);
    PotentialBounds(c, r, 1);
  }

  /** Whatever the limits: the cap holds in every interleaving if and only if at most one source
      has a crawler, or there are only two sources and their limits fit into the cap together. */
  lemma CapHoldsIff(c: Config)
    requires Tidy(c)
    ensures NeverAbove(c, c.cap) <==> AtMostOneCrawler(c.kinds) || LimitsFit(c)
  {
    hide Run, Total, Most;
    if AtMostOneCrawler(c.kinds) {
      forall st, steps | Shaped(c, st) && AllIdle(st) && Total(st) <= c.cap ensures Total(Run(c, st, steps)) <= c.cap {
        SingleCrawlerNeverExceedsCap(c, st, steps);
      }
    } else if LimitsFit(c) {
      forall st, steps | Shaped(c, st) && AllIdle(st) && Total(st) <= c.cap ensures Total(Run(c, st, steps)) <= c.cap {
        FittingLimits(c, st, steps);
      }
    } else {
      hide NeverAbove;
      var a, b :| 0 <= a < b < |c.kinds| && c.kinds[a].Some? && c.kinds[b].Some?;
      if |c.kinds| == 2 {
        TwoSources(c);
      } else {
        ThirdSource(c, a, b, if a > 0 then 0 else if b > 1 then 1 else 2);
      }
    }
  }

  /** Where limits fit, the overshoot is positive and yet no run passes the cap: then the least
      blind crawler cannot fill what the other one leaves. */
  lemma FittingIsNotExact(c: Config)
    requires Tidy(c) && LimitsFit(c) && c.kinds[0].Some? && c.kinds[1].Some?
    ensures NeverAbove(c, c.cap) && Overshoot(c) > 0 && !LeastBlindFills(c)
  {
    CapHoldsIff(c);
    var b := Blinds(c);
    SumOfTwo(Numbers(b));
    assert b[0].Some? && b[1].Some? && Least(b).value <= b[0].value && Least(b).value <= b[1].value;
    assert b[0].value > 0 && b[1].value > 0;
    hide NeverAbove, Filler, Least, Blind;
    OvershootIsExact(c, c.cap);
  }
}
