/** Concurrent image backfill. */
module ImageBackfill {
  import opened Prelude

  // One worker per product downloads, checks and stores an image. Workers share a semaphore of
  // permits, a lock around the counters and the set of known hashes, and the asset table, which
  // keeps one row per hash. A step is what one worker does between two points at which another
  // worker may run; the counters are incremented one step at a time.

  /** The outcome of checking an image. */
  datatype Draft = Draft(sha: string, ready: bool, cdn: Option<string>)

  datatype Asset = Asset(sha: string, ready: bool, cdn: Option<string>)

  datatype Outcome = WithoutUrl | Stored(draft: Draft) | Failed

  /** Counting takes three steps: the outcome, `done`, and leaving the lock. */
  datatype Phase =
    | Begin | Fetching | WantSnapshot | SnapshotLocked
    | Ingesting(snapshot: set<string>) | Storing(draft: Draft) | Linking(draft: Draft)
    | Reporting(outcome: Outcome) | Counting(outcome: Outcome, k: nat)
    | Leaving(outcome: Outcome) | Ended(outcome: Outcome)

  datatype Stats = Stats(ready: nat, quarantined: nat, failed: nat, noUrl: nat, done: nat)

  datatype State = State(
    phases: seq<Phase>, lock: Option<nat>, free: nat, stats: Stats, known: set<string>, assets: seq<Asset>)

  /** Which products have an image URL, and how many permits there are. */
  datatype Config = Config(hasUrl: seq<bool>, concurrency: int)

  function Permits(c: Config): nat { Max(1, c.concurrency) }

  /** Worker `w` runs; `result` is `None` if what it waits for raises. */
  datatype Step = Step(w: nat, result: Option<Draft>)

  /** INSERT … ON CONFLICT (sha256) DO UPDATE. */
  function Upsert(assets: seq<Asset>, d: Draft): (r: seq<Asset>)
    ensures forall a :: a in r ==> a in assets || a.sha == d.sha
    ensures exists i :: 0 <= i < |r| && r[i].sha == d.sha && r[i].ready == d.ready
  {
    if assets == [] then
      var r := [Asset(d.sha, d.ready, d.cdn)];
      assert r[0].sha == d.sha;
      r
    else if assets[0].sha == d.sha then
      var r := [Asset(d.sha, d.ready, if d.cdn.Some? then d.cdn else assets[0].cdn)] + assets[1..];
      assert r[0].sha == d.sha;
      r
    else
      var rest := Upsert(assets[1..], d);
      var i :| 0 <= i < |rest| && rest[i].sha == d.sha && rest[i].ready == d.ready;
      var r := [assets[0]] + rest;
      assert r[i + 1] == rest[i];
      r
  }

  function Become(st: State, w: nat, p: Phase): State
    requires w < |st.phases|
  {
    st.(phases := st.phases[w := p])
  }

  function Locked(st: State, w: nat, p: Phase): State
    requires w < |st.phases|
  {
    if st.lock.None? then Become(st, w, p).(lock := Some(w)) else st
  }

  function Unlocked(st: State, w: nat, p: Phase): State
    requires w < |st.phases|
  {
    Become(st, w, p).(lock := None)
  }

  /** The four counters. */
  datatype Kind = Ready | Quarantined | Broken | Missing

  function KindOf(o: Outcome): Kind {
    match o
    case WithoutUrl => Missing
    case Stored(d) => if d.ready then Ready else Quarantined
    case Failed => Broken
  }

  function StatOf(s: Stats, k: Kind): nat {
    match k
    case Ready => s.ready
    case Quarantined => s.quarantined
    case Broken => s.failed
    case Missing => s.noUrl
  }

  function Report(s: Stats, o: Outcome): Stats {
    match o
    case WithoutUrl => s.(noUrl := s.noUrl + 1)
    case Stored(d) => if d.ready then s.(ready := s.ready + 1) else s.(quarantined := s.quarantined + 1)
    case Failed => s.(failed := s.failed + 1)
  }

  function NextCount(st: State, w: nat, o: Outcome, k: nat): State
    requires w < |st.phases|
  {
    if k == 0 then
      Become(st, w, Counting(o, 1)).(
        stats := Report(st.stats, o), known := st.known + if o.Stored? then {o.draft.sha} else {})
    else if k == 1 then Become(st, w, Counting(o, 2)).(stats := st.stats.(done := st.stats.done + 1))
    else Unlocked(st, w, if o.WithoutUrl? then Ended(o) else Leaving(o))
  }

  function Next(c: Config, st: State, step: Step): State {
    var w, ok := step.w, step.result.Some?;
    if w >= |st.phases| || w >= |c.hasUrl| then st
    else match st.phases[w]
      case Begin =>
        if !c.hasUrl[w] then Become(st, w, Reporting(WithoutUrl))
        else if st.free > 0 then Become(st, w, Fetching).(free := st.free - 1)
        else st
      case Fetching => Become(st, w, if ok then WantSnapshot else Reporting(Failed))
      case WantSnapshot => Locked(st, w, SnapshotLocked)
      case SnapshotLocked => Unlocked(st, w, Ingesting(st.known))
      case Ingesting(_) => Become(st, w, if ok then Storing(step.result.value) else Reporting(Failed))
      case Storing(d) =>
        if ok then Become(st, w, Linking(d)).(assets := Upsert(st.assets, d)) else Become(st, w, Reporting(Failed))
      case Linking(d) => Become(st, w, Reporting(if ok then Stored(d) else Failed))
      case Reporting(o) => Locked(st, w, Counting(o, 0))
      case Counting(o, k) => NextCount(st, w, o, k)
      case Leaving(o) => Become(st, w, Ended(o)).(free := st.free + 1)
      case Ended(_) => st
  }

  function Run(c: Config, st: State, steps: seq<Step>): State
    decreases |steps|
  {
    if steps == [] then st else Run(c, Next(c, st, steps[0]), steps[1..])
  }

  // ---------- what every step keeps ----------

  predicate InLock(p: Phase) { p.SnapshotLocked? || p.Counting? }

  predicate HasPermit(p: Phase) {
    !p.Begin? && !p.Ended? && !((p.Reporting? || p.Counting?) && p.outcome == WithoutUrl)
  }

  /** `done` has been incremented for this worker. */
  predicate IsDone(p: Phase) { p.Leaving? || p.Ended? || (p.Counting? && p.k >= 2) }

  /** An outcome has been counted for this worker. */
  predicate IsCounted(p: Phase) { p.Leaving? || p.Ended? || (p.Counting? && p.k >= 1) }

  function Holders(st: State): nat -> bool { (w: nat) => w < |st.phases| && HasPermit(st.phases[w]) }
  function Dones(st: State): nat -> bool { (w: nat) => w < |st.phases| && IsDone(st.phases[w]) }
  function Counteds(st: State): nat -> bool { (w: nat) => w < |st.phases| && IsCounted(st.phases[w]) }

  predicate IsCountedAs(p: Phase, k: Kind) { IsCounted(p) && KindOf(p.outcome) == k }

  /** The workers counted under one of the four outcomes. */
  function CountedAs(st: State, k: Kind): nat -> bool { (w: nat) => w < |st.phases| && IsCountedAs(st.phases[w], k) }

  function Outcomes(s: Stats): nat { s.ready + s.quarantined + s.failed + s.noUrl }

  function Shas(assets: seq<Asset>): set<string> { set a | a in assets :: a.sha }

  ghost predicate OneRowPerSha(assets: seq<Asset>) {
    forall i, j :: 0 <= i < j < |assets| ==> assets[i].sha != assets[j].sha
  }

  ghost predicate LockInv(st: State) {
    && (st.lock.Some? ==> st.lock.value < |st.phases|)
    && forall w :: 0 <= w < |st.phases| ==> (InLock(st.phases[w]) <==> st.lock == Some(w))
  }

  ghost predicate CountInv(c: Config, st: State) {
    && Tally(|st.phases|, Holders(st)) + st.free == Permits(c)
    && st.stats.done == Tally(|st.phases|, Dones(st))
    && forall k: Kind :: StatOf(st.stats, k) == Tally(|st.phases|, CountedAs(st, k))
  }

  /** Changing one worker changes a count by at most that worker. */
  lemma {:induction false} TallyUpdate(n: nat, p: nat -> bool, q: nat -> bool, w: nat)
    requires w < n && forall i: nat :: i < n && i != w ==> (p(i) <==> q(i))
    ensures Tally(n, q) == Tally(n, p) - (if p(w) then 1 else 0) + (if q(w) then 1 else 0)
  {
    if w == n - 1 {
      TallyMono(n - 1, p, q);
      TallyMono(n - 1, q, p);
    } else {
      TallyUpdate(n - 1, p, q, w);
    }
  }

  lemma CountsUpdate(st: State, r: State, w: nat)
    requires w < |st.phases| && |r.phases| == |st.phases| && r.phases == st.phases[w := r.phases[w]]
    ensures var p, q, n := st.phases[w], r.phases[w], |st.phases|;
      && Tally(n, Holders(r)) == Tally(n, Holders(st)) - (if HasPermit(p) then 1 else 0)
        + (if HasPermit(q) then 1 else 0)
      && Tally(n, Dones(r)) == Tally(n, Dones(st)) - (if IsDone(p) then 1 else 0) + (if IsDone(q) then 1 else 0)
      && forall k: Kind ::
        Tally(n, CountedAs(r, k)) == Tally(n, CountedAs(st, k)) - Bit(IsCountedAs(p, k)) + Bit(IsCountedAs(q, k))
  {
    hide HasPermit, IsDone, IsCountedAs;
    TallyUpdate(|st.phases|, Holders(st), Holders(r), w);
    TallyUpdate(|st.phases|, Dones(st), Dones(r), w);
    forall k: Kind
      ensures Tally(|st.phases|, CountedAs(r, k)) ==
        Tally(|st.phases|, CountedAs(st, k)) - Bit(IsCountedAs(st.phases[w], k)) + Bit(IsCountedAs(r.phases[w], k))
    {
      TallyUpdate(|st.phases|, CountedAs(st, k), CountedAs(r, k), w);
    }
  }

  lemma ShasCons(a: Asset, rest: seq<Asset>)
    ensures Shas([a] + rest) == {a.sha} + Shas(rest)
  {
    assert forall x :: x in [a] + rest <==> x == a || x in rest;
  }

  lemma OneRowCons(a: Asset, rest: seq<Asset>)
    ensures OneRowPerSha([a] + rest) <==> OneRowPerSha(rest) && a.sha !in Shas(rest)
  {
    var r := [a] + rest;
    if OneRowPerSha(r) {
      forall i, j | 0 <= i < j < |rest| ensures rest[i].sha != rest[j].sha {
        assert r[i + 1] == rest[i] && r[j + 1] == rest[j];
      }
      forall x | x in rest ensures x.sha != a.sha {
        var j :| 0 <= j < |rest| && rest[j] == x;
        assert r[0].sha != r[j + 1].sha;
      }
    }
    if OneRowPerSha(rest) && a.sha !in Shas(rest) {
      forall j | 0 <= j < |rest| ensures rest[j].sha != a.sha {
        assert rest[j] in rest;
      }
    }
  }

  lemma {:induction false} UpsertKeeps(assets: seq<Asset>, d: Draft)
    requires OneRowPerSha(assets)
    ensures OneRowPerSha(Upsert(assets, d)) && Shas(Upsert(assets, d)) == Shas(assets) + {d.sha}
  {
    if assets == [] {
      assert Upsert(assets, d) == [Asset(d.sha, d.ready, d.cdn)];
    } else {
      var a, rest := assets[0], assets[1..];
      assert assets == [a] + rest;
      OneRowCons(a, rest);
      ShasCons(a, rest);
      if a.sha == d.sha {
        var b := Asset(d.sha, d.ready, if d.cdn.Some? then d.cdn else a.cdn);
        assert Upsert(assets, d) == [b] + rest;
        OneRowCons(b, rest);
        ShasCons(b, rest);
      } else {
        var more := Upsert(rest, d);
        assert Upsert(assets, d) == [a] + more;
        hide Upsert, OneRowPerSha, Shas;
        UpsertKeeps(rest, d);
        OneRowCons(a, more);
        ShasCons(a, more);
      }
    }
  }

  /** An asset that has a CDN URL never loses it to an upsert without one. */
  lemma {:induction false} UrlNeverLost(assets: seq<Asset>, d: Draft, a: Asset) returns (b: Asset)
    requires a in assets && a.cdn.Some?
    ensures b in Upsert(assets, d) && b.sha == a.sha && b.cdn.Some?
    ensures d.sha != a.sha || d.cdn.None? ==> b.cdn == a.cdn
  {
    var first, rest := assets[0], assets[1..];
    if first.sha == d.sha {
      var kept := Asset(d.sha, d.ready, if d.cdn.Some? then d.cdn else first.cdn);
      assert Upsert(assets, d) == [kept] + rest;
      b := if a == first then kept else a;
      assert a != first ==> a in rest;
    } else {
      assert Upsert(assets, d) == [first] + Upsert(rest, d);
      if a == first {
        b := a;
      } else {
        b := UrlNeverLost(rest, d, a);
      }
    }
  }

  lemma NextKeepsLock(c: Config, st: State, step: Step)
    requires LockInv(st)
    ensures LockInv(Next(c, st, step))
  {
    hide Upsert;
  }

  lemma NextIsLocal(c: Config, st: State, step: Step)
    ensures var r := Next(c, st, step);
      |r.phases| == |st.phases| && (step.w < |st.phases| ==> r.phases == st.phases[step.w := r.phases[step.w]])
  {
    hide Upsert;
  }

  function Bit(b: bool): int { if b then 1 else 0 }

  /** What one step does to permits and counters follows from the worker's change of phase. */
  lemma NextMovesCounts(c: Config, st: State, step: Step)
    requires step.w < |st.phases|
    ensures var r := Next(c, st, step);
      |r.phases| == |st.phases| &&
      var p, q := st.phases[step.w], r.phases[step.w];
      && r.free == st.free + Bit(HasPermit(p)) - Bit(HasPermit(q))
      && r.stats.done == st.stats.done + Bit(IsDone(q)) - Bit(IsDone(p))
      && forall k: Kind :: StatOf(r.stats, k) == StatOf(st.stats, k) + Bit(IsCountedAs(q, k)) - Bit(IsCountedAs(p, k))
  {
    hide Upsert;
  }

  lemma NextKeepsCounts(c: Config, st: State, step: Step)
    requires CountInv(c, st)
    ensures CountInv(c, Next(c, st, step))
  {
    NextIsLocal(c, st, step);
    if step.w < |st.phases| {
      NextMovesCounts(c, st, step);
      CountsUpdate(st, Next(c, st, step), step.w);
      hide Next, Tally, Holders, Dones, CountedAs, Permits, HasPermit, IsDone, IsCountedAs, StatOf;
    }
  }

  /** The draft of a worker past the upsert. */
  function StoredDraft(p: Phase): Option<Draft> {
    if p.Linking? then Some(p.draft)
    else if (p.Reporting? || p.Counting? || p.Leaving? || p.Ended?) && p.outcome.Stored? then Some(p.outcome.draft)
    else None
  }

  /** Known hashes, and those of workers past the upsert, are in the table. */
  ghost predicate TableInv(st: State) {
    && OneRowPerSha(st.assets) && st.known <= Shas(st.assets)
    && forall w :: 0 <= w < |st.phases| && StoredDraft(st.phases[w]).Some? ==>
      StoredDraft(st.phases[w]).value.sha in Shas(st.assets)
  }

  /** What one step does to the table follows from the worker's draft. */
  lemma NextMovesTable(c: Config, st: State, step: Step)
    requires step.w < |st.phases|
    ensures var r, p := Next(c, st, step), st.phases[step.w];
      && |r.phases| == |st.phases|
      && var q := r.phases[step.w];
      && (r.assets == st.assets || (p.Storing? && r.assets == Upsert(st.assets, p.draft)))
      && (r.known == st.known || (StoredDraft(p).Some? && r.known == st.known + {StoredDraft(p).value.sha}))
      && (StoredDraft(q).None? || StoredDraft(q) == StoredDraft(p)
          || (p.Storing? && StoredDraft(q).value == p.draft && r.assets == Upsert(st.assets, p.draft)))
  {
    hide Upsert;
  }

  lemma NextKeepsTable(c: Config, st: State, step: Step)
    requires TableInv(st)
    ensures TableInv(Next(c, st, step))
  {
    NextIsLocal(c, st, step);
    if step.w < |st.phases| {
      if st.phases[step.w].Storing? {
        UpsertKeeps(st.assets, st.phases[step.w].draft);
      }
      NextMovesTable(c, st, step);
      hide Next, Upsert, Shas, OneRowPerSha, StoredDraft;
    }
  }

  predicate HasOutcome(p: Phase) { p.Reporting? || p.Counting? || p.Leaving? || p.Ended? }

  /** A worker that has begun reports a missing URL exactly if its product has none. */
  ghost predicate UrlInv(c: Config, st: State) {
    && |st.phases| == |c.hasUrl|
    && forall w :: 0 <= w < |st.phases| && st.phases[w] != Begin ==>
      (c.hasUrl[w] <==> !(HasOutcome(st.phases[w]) && st.phases[w].outcome == WithoutUrl))
  }

  lemma NextKeepsUrls(c: Config, st: State, step: Step)
    requires UrlInv(c, st)
    ensures UrlInv(c, Next(c, st, step))
  {
    hide Upsert;
  }

  ghost predicate Inv(c: Config, st: State) { LockInv(st) && CountInv(c, st) && TableInv(st) && UrlInv(c, st) }

  lemma {:induction false} RunKeepsInv(c: Config, st: State, steps: seq<Step>)
    requires Inv(c, st)
    ensures Inv(c, Run(c, st, steps))
    decreases |steps|
  {
    hide LockInv, CountInv, TableInv, UrlInv;
    if steps != [] {
      var r := Next(c, st, steps[0]);
      NextIsLocal(c, st, steps[0]);
      NextKeepsLock(c, st, steps[0]);
      NextKeepsCounts(c, st, steps[0]);
      NextKeepsTable(c, st, steps[0]);
      NextKeepsUrls(c, st, steps[0]);
      hide Next;
      RunKeepsInv(c, r, steps[1..]);
    }
  }

  /** The state in which all workers have been created. */
  function Start(c: Config, assets: seq<Asset>): State {
    State(seq(|c.hasUrl|, i => Begin), None, Permits(c), Stats(0, 0, 0, 0, 0), Shas(assets), assets)
  }

  lemma StartHasInv(c: Config, assets: seq<Asset>)
    requires OneRowPerSha(assets)
    ensures Inv(c, Start(c, assets))
  {
    var st := Start(c, assets);
    TallyNone(|st.phases|, Holders(st));
    TallyNone(|st.phases|, Dones(st));
    forall k: Kind ensures Tally(|st.phases|, CountedAs(st, k)) == 0 {
      TallyNone(|st.phases|, CountedAs(st, k));
    }
  }

  /** The four counters add up to the workers counted. */
  lemma KindsAddUp(c: Config, st: State)
    requires CountInv(c, st)
    ensures Outcomes(st.stats) == Tally(|st.phases|, Counteds(st))
  {
    var n := |st.phases|;
    var stored := (w: nat) => CountedAs(st, Ready)(w) || CountedAs(st, Quarantined)(w);
    var rest := (w: nat) => CountedAs(st, Broken)(w) || CountedAs(st, Missing)(w);
    TallyUnion(n, CountedAs(st, Ready), CountedAs(st, Quarantined), stored);
    TallyUnion(n, CountedAs(st, Broken), CountedAs(st, Missing), rest);
    TallyUnion(n, stored, rest, Counteds(st));
    assert StatOf(st.stats, Ready) == st.stats.ready && StatOf(st.stats, Quarantined) == st.stats.quarantined;
    assert StatOf(st.stats, Broken) == st.stats.failed && StatOf(st.stats, Missing) == st.stats.noUrl;
  }

  /** With the lock free, the workers counted and the workers done are the same. */
  lemma FreeLockCounts(st: State)
    requires LockInv(st) && st.lock.None?
    ensures Tally(|st.phases|, Dones(st)) == Tally(|st.phases|, Counteds(st))
  {
    forall w: nat | w < |st.phases| ensures Dones(st)(w) == Counteds(st)(w) {
      assert !InLock(st.phases[w]);
    }
    TallyMono(|st.phases|, Dones(st), Counteds(st));
    TallyMono(|st.phases|, Counteds(st), Dones(st));
  }

  /** In every interleaving: whenever the lock is free the counters add up, no more workers
      hold a permit than there are, and the table has one row per hash, with every known hash
      among them. */
  lemma CountersAddUp(c: Config, assets: seq<Asset>, steps: seq<Step>)
    requires OneRowPerSha(assets)
    ensures var r := Run(c, Start(c, assets), steps);
      && (r.lock.None? ==> r.stats.done == r.stats.ready + r.stats.quarantined + r.stats.failed + r.stats.noUrl)
      && Tally(|r.phases|, Holders(r)) <= Permits(c)
      && OneRowPerSha(r.assets) && r.known <= Shas(r.assets)
  {
    StartHasInv(c, assets);
    RunKeepsInv(c, Start(c, assets), steps);
    var r := Run(c, Start(c, assets), steps);
    if r.lock.None? {
      FreeLockCounts(r);
      KindsAddUp(c, r);
    }
  }

  ghost predicate AllEnded(st: State) { forall w :: 0 <= w < |st.phases| ==> st.phases[w].Ended? }

  function WithoutUrls(c: Config): nat -> bool { (w: nat) => w < |c.hasUrl| && !c.hasUrl[w] }

  /** When all workers have ended, every product has been counted, under a missing URL exactly
      if it has none, and every permit is back. */
  lemma EndCountsAll(c: Config, st: State)
    requires Inv(c, st) && AllEnded(st)
    ensures st.stats.done == |c.hasUrl| == Outcomes(st.stats) && st.free == Permits(c) && st.lock.None?
    ensures st.stats.noUrl == Tally(|c.hasUrl|, WithoutUrls(c))
  {
    TallyAll(|st.phases|, Dones(st));
    TallyAll(|st.phases|, Counteds(st));
    TallyNone(|st.phases|, Holders(st));
    KindsAddUp(c, st);
    assert StatOf(st.stats, Missing) == st.stats.noUrl;
    TallyMono(|st.phases|, CountedAs(st, Missing), WithoutUrls(c));
    TallyMono(|st.phases|, WithoutUrls(c), CountedAs(st, Missing));
  }

  // ---------- the workers do end ----------

  /** How many steps a worker may still take. */
  function Left(p: Phase): nat {
    match p
    case Begin => 12
    case Fetching => 11
    case WantSnapshot => 10
    case SnapshotLocked => 9
    case Ingesting(_) => 8
    case Storing(_) => 7
    case Linking(_) => 6
    case Reporting(_) => 5
    case Counting(_, k) => if k == 0 then 4 else if k == 1 then 3 else 2
    case Leaving(_) => 1
    case Ended(_) => 0
  }

  function LeftAll(phases: seq<Phase>): (n: nat)
    ensures n <= 12 * |phases|
  {
    if phases == [] then 0 else Left(phases[0]) + LeftAll(phases[1..])
  }

  lemma {:induction false} LeftAllUpdate(phases: seq<Phase>, w: nat, p: Phase)
    requires w < |phases|
    ensures LeftAll(phases[w := p]) == LeftAll(phases) - Left(phases[w]) + Left(p)
  {
    hide Left;
    if w == 0 {
      assert phases[w := p][1..] == phases[1..];
    } else {
      assert phases[w := p][1..] == phases[1..][w - 1 := p];
      LeftAllUpdate(phases[1..], w - 1, p);
    }
  }

  lemma StepLeaves(c: Config, st: State, step: Step)
    ensures var r := Next(c, st, step);
      r == st || (step.w < |st.phases| == |r.phases| && Left(r.phases[step.w]) < Left(st.phases[step.w]))
  {
    hide Upsert;
  }

  /** Every step that changes anything brings the end closer. */
  lemma StepsRunOut(c: Config, st: State, step: Step)
    ensures Next(c, st, step) == st || LeftAll(Next(c, st, step).phases) < LeftAll(st.phases)
  {
    var r := Next(c, st, step);
    NextIsLocal(c, st, step);
    StepLeaves(c, st, step);
    hide Next, Left;
    if r != st {
      LeftAllUpdate(st.phases, step.w, r.phases[step.w]);
    }
  }

  lemma {:induction false} TallySome(n: nat, p: nat -> bool) returns (k: nat)
    requires Tally(n, p) > 0
    ensures k < n && p(k)
  {
    k := n - 1;
    if !p(n - 1) {
      k := TallySome(n - 1, p);
    }
  }

  /** A worker that can run: it holds the lock, or needs no lock and no permit. */
  predicate CanRun(c: Config, st: State, w: nat) {
    && w < |st.phases| && w < |c.hasUrl| && !st.phases[w].Ended?
    && (st.phases[w] == Begin && c.hasUrl[w] ==> st.free > 0)
    && (st.phases[w].WantSnapshot? || st.phases[w].Reporting? ==> st.lock.None?)
  }

  lemma CanRunChanges(c: Config, st: State, step: Step)
    requires CanRun(c, st, step.w)
    ensures Next(c, st, step) != st
  {
    var w, r := step.w, Next(c, st, step);
    assert r.phases[w] != st.phases[w] by {
      hide Upsert;
    }
  }

  /** There is no deadlock: until all workers have ended, some worker can run. */
  lemma NoDeadlock(c: Config, st: State) returns (w: nat)
    requires Inv(c, st) && !AllEnded(st)
    ensures CanRun(c, st, w)
  {
    hide TableInv;
    if st.lock.Some? {
      w := st.lock.value;
    } else {
      var v: nat :| v < |st.phases| && !st.phases[v].Ended?;
      w := v;
      if st.phases[v] == Begin && st.free == 0 {
        w := TallySome(|st.phases|, Holders(st));
      }
    }
  }

  /** A state in which no step changes anything is one in which every product was counted:
      since every other step brings the end closer, all runs get there. */
  lemma StuckMeansDone(c: Config, st: State)
    requires Inv(c, st) && forall step: Step :: Next(c, st, step) == st
    ensures AllEnded(st) && st.stats.done == |c.hasUrl| && st.free == Permits(c)
  {
    if !AllEnded(st) {
      var w := NoDeadlock(c, st);
      CanRunChanges(c, st, Step(w, None));
    }
    EndCountsAll(c, st);
  }
}
