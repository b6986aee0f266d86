/**
 The shared product budget of the live-feed crawlers, as a transition system, and how far it can overshoot.
 */
module CrawlBudget {
  import opened Prelude

  // Crawler processes never talk to each other: each one reads the `count` fields of the other
  // sources' feed files and admits products into a private dictionary while that dictionary is
  // smaller than the room it just read. What it admitted becomes visible only at its next
  // checkpoint, so the cap is not exact.

  /** A parsed product: its id, and whether name, price and url are all present. */
  datatype Row = Row(id: string, complete: bool)

  /** `by_id[id] = row`: overwrite in place, or append, as an insertion-ordered dict does. */
  function Upsert(rows: seq<Row>, r: Row): (out: seq<Row>)
    ensures |rows| <= |out| <= |rows| + 1
    ensures r in out
    ensures Complete(out) <= Complete(rows) + 1
  {
    if rows == [] then [r]
    else if rows[0].id == r.id then [r] + rows[1..]
    else [rows[0]] + Upsert(rows[1..], r)
  }

  /** How many rows `write_feed` would keep. */
  function Complete(rows: seq<Row>): (n: nat)
    ensures n <= |rows|
  {
    if rows == [] then 0 else (if rows[0].complete then 1 else 0) + Complete(rows[1..])
  }

  /** The rows `write_feed` keeps, in order. */
  function CompleteRows(rows: seq<Row>): (out: seq<Row>)
    ensures |out| == Complete(rows)
    ensures forall r :: r in out <==> r in rows && r.complete
  {
    if rows == [] then []
    else (if rows[0].complete then [rows[0]] else []) + CompleteRows(rows[1..])
  }

  /** Writing keeps the complete rows, in their order: it is determined by what it does to single
      rows and to concatenations. */
  lemma WritesInOrder(a: seq<Row>, r: Row, b: seq<Row>)
    ensures CompleteRows([]) == []
    ensures CompleteRows(a + [r] + b) == CompleteRows(a) + (if r.complete then [r] else []) + CompleteRows(b)
  {
    assert [r][1..] == [];
    assert CompleteRows([r]) == if r.complete then [r] else [];
    hide CompleteRows;
    CompleteConcat(a + [r], b);
    CompleteConcat(a, [r]);
  }

  /** Rows are kept or dropped one by one. */
  lemma {:induction false} CompleteConcat(a: seq<Row>, b: seq<Row>)
    ensures CompleteRows(a + b) == CompleteRows(a) + CompleteRows(b)
  {
    if a == [] {
      assert a + b == b;
    } else {
      assert (a + b)[1..] == a[1..] + b;
      CompleteConcat(a[1..], b);
    }
  }

  /** `list({p["id"]: p for p in rows}.values())` after the rows of `seen`. */
  function Merge(seen: seq<Row>, rows: seq<Row>): (out: seq<Row>)
    ensures |seen| <= |out|
    decreases |rows|
  {
    if rows == [] then seen else Merge(Upsert(seen, rows[0]), rows[1..])
  }

  /** Resuming: the stored rows with an id, keyed by id. */
  function Load(rows: seq<Row>): (mem: seq<Row>)
    ensures |mem| <= |rows|
    ensures Complete(mem) <= |rows|
  {
    if rows == [] then []
    else
      var last := rows[|rows| - 1];
      var before := Load(rows[..|rows| - 1]);
      if last.id == "" then before else Upsert(before, last)
  }

  lemma {:induction false} CompletePrefix(rows: seq<Row>, k: nat)
    requires k <= |rows|
    ensures Complete(rows[..k]) <= Complete(rows)
  {
    if k > 0 {
      assert rows[..k][1..] == rows[1..][..k - 1];
      CompletePrefix(rows[1..], k - 1);
    }
  }

  // ---------- the caps ----------

  /** `merchant_absolute_cap`: `None` when neither the limit nor the global cap is in force. */
  function AbsoluteCap(limit: int, cap: int, others: nat): (live: Option<nat>)
    ensures live.None? <==> limit <= 0 && cap <= 0
    ensures live.Some? && cap > 0 ==> live.value <= Max(0, cap - others)
    ensures live.Some? && limit > 0 ==> live.value <= limit
    ensures live.Some? ==> (cap > 0 && live.value == Max(0, cap - others)) || (limit > 0 && live.value == limit)
  {
    if limit > 0 && cap > 0 then Some(Max(0, Min(limit, Max(0, cap - others))))
    else if limit > 0 then Some(limit)
    else if cap > 0 then Some(Max(0, cap - others))
    else None
  }

  predicate HasRoom(mem: seq<Row>, live: Option<nat>) { live.None? || |mem| < live.value }

  function Truncate(mem: seq<Row>, live: Option<nat>): seq<Row> {
    if live.Some? && live.value < |mem| then mem[..live.value] else mem
  }

  /** One fetched page is admitted only if it parsed, has an id, and there is room. */
  function Admit(mem: seq<Row>, page: Option<Row>, live: Option<nat>): seq<Row> {
    if page.Some? && page.value.id != "" && HasRoom(mem, live) then Upsert(mem, page.value) else mem
  }

  // ---------- the transition system ----------

  /** Who reads the cap when: the sitemap stream and the crawl4ai script re-read it for every
      result, the Hybris sitemap crawler once per batch of 300, the Vatan listing crawler
      once per page. */
  datatype Kind = Stream | Chunked | Batched | Paged

  const STREAM_CHECKPOINT: nat := 150
  const CHUNK: nat := 100
  const BATCH: nat := 300

  /** Results that may pass between two checkpoints. */
  function CheckpointEvery(k: Kind): nat { if k == Chunked then CHUNK else STREAM_CHECKPOINT }

  /** What a crawler remembers of its last look at the cap. `Batch`: `todo` results of the
      batch cut to `live` are due, `ahead` URLs lie behind it, and `whole` says that no batch
      was cut yet. `Page`: the cap read before a request that is not answered yet. */
  datatype Plan =
    | Each
    | Batch(todo: nat, live: Option<nat>, ahead: nat, whole: bool)
    | Page(read: Option<Option<nat>>)

  datatype Proc = Idle | Crawling(mem: seq<Row>, since: nat, plan: Plan)

  /** `kinds[s]` is the crawler that serves source `s`, if any; a source has at most one. */
  datatype Config = Config(kinds: seq<Option<Kind>>, limits: seq<int>, cap: int)

  datatype State = State(files: seq<seq<Row>>, procs: seq<Proc>)

  /** `urls` is the number of product URLs a Hybris crawler finds. */
  datatype Step =
    | Open(s: nat, urls: nat)
    | ReadCap(s: nat)
    | Result(s: nat, page: Option<Row>)
    | Answer(s: nat, rows: seq<Row>)
    | Checkpoint(s: nat)
    | Finish(s: nat)
    | Abort(s: nat)

  ghost predicate Shaped(c: Config, st: State) {
    |st.files| == |c.kinds| == |c.limits| == |st.procs| && c.cap > 0
  }

  /** The `count` fields of all feed files. */
  function Counts(files: seq<seq<Row>>): seq<int> {
    seq(|files|, i requires 0 <= i < |files| => |files[i]|)
  }

  function Total(st: State): int { Sum(Counts(st.files)) }

  lemma {:induction false} CountsNonNegative(files: seq<seq<Row>>)
    ensures Sum(Counts(files)) >= 0
  {
    if files != [] {
      assert Counts(files)[1..] == Counts(files[1..]);
      CountsNonNegative(files[1..]);
    }
  }

  /** `count_live_feed_products(exclude_source=s)`. */
  function Others(st: State, s: nat): (n: nat)
    requires s < |st.files|
    ensures n == Total(st) - |st.files[s]|
  {
    SumUpdate(Counts(st.files), s, 0);
    assert Counts(st.files)[s := 0] == Counts(st.files[s := []]);
    CountsNonNegative(st.files[s := []]);
    Sum(Counts(st.files)) - |st.files[s]|
  }

  function Live(c: Config, st: State, s: nat): Option<nat>
    requires s < |st.files| && s < |c.limits|
  {
    AbsoluteCap(c.limits[s], c.cap, Others(st, s))
  }

  function Write(st: State, s: nat, rows: seq<Row>, p: Proc): State
    requires s < |st.files| && s < |st.procs|
  {
    State(st.files[s := CompleteRows(rows)], st.procs[s := p])
  }

  function FirstPlan(kind: Kind, room: nat, urls: nat): Plan {
    match kind
    case Batched => Batch(0, None, Min(urls, room), true)
    case Paged => Page(None)
    case _ => Each
  }

  /** The next batch of URLs, cut to the room. */
  function NextBatch(plan: Plan, room: nat, live: Option<nat>): Plan
    requires plan.Batch?
  {
    var n := Min(BATCH, plan.ahead);
    Batch(Min(n, room), live, plan.ahead - n, plan.whole && n <= room)
  }

  /** The Hybris crawler saves after every 150th result and after the last URL; a crawler that
      once cut a batch never comes to its last URL. */
  predicate Due(plan: Plan, since: nat) {
    match plan
    case Each => true
    case Batch(todo, _, ahead, whole) => since == STREAM_CHECKPOINT || (whole && todo == 0 && ahead == 0)
    case Page(_) => false
  }

  /** The feed a crawler leaves at its end; `main` keeps the old one when there is nothing to
      write, the crawl4ai script does not. */
  function Ended(st: State, s: nat, kind: Kind, out: seq<Row>): State
    requires s < |st.files| && s < |st.procs|
  {
    if out == [] && kind != Chunked then st.(procs := st.procs[s := Idle]) else Write(st, s, out, Idle)
  }

  /** A listing page is merged and cut to the cap read before the request; a full list ends the crawl. */
  function Answered(st: State, s: nat, mem: seq<Row>, rows: seq<Row>, live: Option<nat>): State
    requires s < |st.files| && s < |st.procs|
  {
    var merged := Truncate(Merge(mem, rows), live);
    if HasRoom(merged, live) then st.(procs := st.procs[s := Crawling(merged, 0, Page(None))])
    else Ended(st, s, Paged, merged)
  }

  /** One step of one crawler; a step that is not possible in `st` leaves it alone. */
  function Next(c: Config, st: State, step: Step): (r: State)
    requires Shaped(c, st)
    ensures Shaped(c, r)
  {
    var s := step.s;
    if s >= |c.kinds| || c.kinds[s].None? then st
    else
      var kind := c.kinds[s].value;
      var live := Live(c, st, s);
      match st.procs[s]
      case Idle => if step.Open? then Opened(c, st, s, kind, step.urls) else st
      case Crawling(mem, since, plan) =>
        match step
        case Open(_, _) => st
        case ReadCap(_) =>
          if plan.Batch? && plan.todo == 0 < plan.ahead && since < STREAM_CHECKPOINT && HasRoom(mem, live) then
            st.(procs := st.procs[s := Crawling(mem, since, NextBatch(plan, live.GetOr(|mem| + BATCH) - |mem|, live))])
          else if plan.Page? && plan.read.None? then
            if HasRoom(mem, live) then st.(procs := st.procs[s := Crawling(mem, since, Page(Some(live)))])
            else Ended(st, s, kind, Truncate(mem, live))
          else st
        case Result(_, page) =>
          if since >= CheckpointEvery(kind) then st
          else if plan.Batch? && plan.todo > 0 then
            st.(procs := st.procs[s := Crawling(Admit(mem, page, plan.live), since + 1, plan.(todo := plan.todo - 1))])
          else if plan.Each? then st.(procs := st.procs[s := Crawling(Admit(mem, page, live), since + 1, plan)])
          else st
        case Answer(_, rows) =>
          if plan.Page? && plan.read.Some? then Answered(st, s, mem, rows, plan.read.value) else st
        case Checkpoint(_) => if Due(plan, since) then Write(st, s, mem, Crawling(mem, 0, plan)) else st
        case Finish(_) => Ended(st, s, kind, Truncate(mem, live))
        case Abort(_) => st.(procs := st.procs[s := Idle])
  }

  /** Starting a crawl. Without room the feed that was loaded goes back, truncated unless the
      room is 0. */
  function Opened(c: Config, st: State, s: nat, kind: Kind, urls: nat): (r: State)
    requires Shaped(c, st) && s < |c.kinds|
    ensures Shaped(c, r)
  {
    var live, mem := Live(c, st, s), Load(st.files[s]);
    if live == Some(0) || !HasRoom(mem, live) then
      var out := if live == Some(0) then mem else Truncate(mem, live);
      if kind == Chunked || out == [] then st else Write(st, s, out, Idle)
    else st.(procs := st.procs[s := Crawling(mem, 0, FirstPlan(kind, live.GetOr(|mem| + urls) - |mem|, urls))])
  }

  /** A run is any interleaving of steps of any crawlers. */
  function Run(c: Config, st: State, steps: seq<Step>): (r: State)
    requires Shaped(c, st)
    ensures Shaped(c, r)
    decreases |steps|
  {
    if steps == [] then st else Run(c, Next(c, st, steps[0]), steps[1..])
  }

  lemma {:induction false} RunAppend(c: Config, st: State, a: seq<Step>, b: seq<Step>)
    requires Shaped(c, st)
    ensures Run(c, st, a + b) == Run(c, Run(c, st, a), b)
    decreases |a|
  {
    if a == [] {
      assert a + b == b;
    } else {
      assert (a + b)[1..] == a[1..] + b;
      RunAppend(c, Next(c, st, a[0]), a[1..], b);
    }
  }

  lemma RunOne(c: Config, st: State, a: Step)
    requires Shaped(c, st)
    ensures Run(c, st, [a]) == Next(c, st, a)
  {
    assert [a][1..] == [];
  }

  lemma NextResult(c: Config, st: State, s: nat, page: Option<Row>)
    requires Shaped(c, st) && s < |c.kinds| && c.kinds[s].Some?
    requires st.procs[s].Crawling? && st.procs[s].plan.Each? && st.procs[s].since < CheckpointEvery(c.kinds[s].value)
    ensures Next(c, st, Result(s, page)) ==
      var mem, since := st.procs[s].mem, st.procs[s].since;
      st.(procs := st.procs[s := Crawling(Admit(mem, page, Live(c, st, s)), since + 1, Each)])
  {
  }

  lemma NextCheckpoint(c: Config, st: State, s: nat)
    requires Shaped(c, st) && s < |c.kinds| && c.kinds[s].Some? && st.procs[s].Crawling?
    requires Due(st.procs[s].plan, st.procs[s].since)
    ensures Next(c, st, Checkpoint(s)) == Write(st, s, st.procs[s].mem, st.procs[s].(since := 0))
  {
  }

  // ---------- the overshoot bound ----------

  /** The most products a source may ever be allowed. */
  function Most(c: Config, s: nat): nat
    requires s < |c.limits|
  {
    Max(0, if c.limits[s] > 0 then Min(c.limits[s], c.cap) else c.cap)
  }

  /** How many products the crawler of a source, if any, may put on disk after others have
      filled the room it last read. */
  function Blind(c: Config, s: nat): (b: Option<nat>)
    requires s < |c.kinds| == |c.limits|
    ensures b.None? <==> c.kinds[s].None?
  {
    match c.kinds[s]
    case None => None
    case Some(Stream) => Some(Min(STREAM_CHECKPOINT, Most(c, s)))
    case Some(Chunked) => Some(Min(CHUNK, Most(c, s)))
    case Some(Batched) => Some(Min(BATCH, Most(c, s)))
    case Some(Paged) => Some(Most(c, s))
  }

  function Blinds(c: Config): (b: seq<Option<nat>>)
    requires |c.kinds| == |c.limits|
    ensures |b| == |c.kinds|
  {
    seq(|c.kinds|, i requires 0 <= i < |c.kinds| => Blind(c, i))
  }

  /** The smallest of the numbers that are there. */
  function Least(b: seq<Option<nat>>): (m: Option<nat>)
    ensures m.None? <==> forall i :: 0 <= i < |b| ==> b[i].None?
    ensures forall i :: 0 <= i < |b| && b[i].Some? ==> m.Some? && m.value <= b[i].value
    ensures m.Some? ==> exists i :: 0 <= i < |b| && b[i] == m
  {
    if b == [] then None
    else
      var rest := Least(b[1..]);
      assert forall i :: 0 < i < |b| ==> b[i] == b[1..][i - 1];
      assert forall i :: 0 <= i < |b| - 1 ==> b[1..][i] == b[i + 1];
      if b[0].None? || (rest.Some? && rest.value <= b[0].value) then rest else b[0]
  }

  function Numbers(b: seq<Option<nat>>): (n: seq<int>)
    ensures |n| == |b|
  {
    seq(|b|, i requires 0 <= i < |b| => b[i].GetOr(0))
  }

  /** All blind spots but the smallest: what the crawlers that are not admitting can hide. */
  function Overshoot(c: Config): int
    requires |c.kinds| == |c.limits|
  {
    Sum(Numbers(Blinds(c))) - Least(Blinds(c)).GetOr(0)
  }

  /** How many of the results since the last checkpoint, taken or due, will be written
      before the cap is read again. */
  function Written(plan: Plan, since: nat): nat {
    match plan
    case Each => since
    case Batch(todo, _, ahead, whole) =>
      if whole && ahead == 0 then since + todo else (since + todo) / STREAM_CHECKPOINT * STREAM_CHECKPOINT
    case Page(_) => 0
  }

  /** Products source `s` has on disk or will put there without reading the cap again. */
  function Potential(st: State, s: nat): nat
    requires s < |st.files| && s < |st.procs|
  {
    var file := |st.files[s]|;
    match st.procs[s]
    case Idle => file
    case Crawling(_, _, Page(read)) => Max(file, read.GetOr(None).GetOr(0))
    case Crawling(mem, since, plan) =>
      if Written(plan, since) < since then file else Max(file, Complete(mem) + Written(plan, since) - since)
  }

  function Potentials(st: State): (r: seq<int>)
    requires |st.files| == |st.procs|
    ensures |r| == |st.files|
  {
    seq(|st.files|, i requires 0 <= i < |st.files| => Potential(st, i))
  }

  ghost predicate PlanInv(kind: Kind, plan: Plan, since: nat, most: int) {
    match plan
    case Each => kind == Stream || kind == Chunked
    case Batch(todo, _, ahead, whole) =>
      && kind == Batched && since + todo < BATCH + STREAM_CHECKPOINT
      && (whole ==> since + todo <= BATCH && (ahead > 0 ==> (since + todo) % STREAM_CHECKPOINT == 0))
    case Page(read) => kind == Paged && (read.Some? ==> read.value.Some? && read.value.value <= most)
  }

  /** Every admitted complete row is either on disk or was admitted since the last checkpoint. */
  ghost predicate ProcInv(c: Config, st: State, s: nat)
    requires Shaped(c, st) && s < |c.kinds|
  {
    var p := st.procs[s];
    p.Crawling? ==>
      && c.kinds[s].Some?
      && PlanInv(c.kinds[s].value, p.plan, p.since, Most(c, s))
      && p.since <= CheckpointEvery(c.kinds[s].value)
      && (!p.plan.Page? ==> Complete(p.mem) <= |st.files[s]| + p.since)
      && Complete(p.mem) + (if p.plan.Batch? then p.plan.todo else 0) <= Most(c, s)
  }

  ghost predicate Inv(c: Config, st: State) {
    && Shaped(c, st)
    && (forall s :: 0 <= s < |c.kinds| ==> ProcInv(c, st, s))
    && Sum(Potentials(st)) <= c.cap + Overshoot(c)
  }

  lemma PotentialBounds(c: Config, st: State, s: nat)
    requires Shaped(c, st) && s < |c.kinds| && ProcInv(c, st, s)
    ensures |st.files[s]| <= Potential(st, s) <= |st.files[s]| + Blind(c, s).GetOr(0)
    ensures Potential(st, s) <= Max(|st.files[s]|, Most(c, s))
  {
  }

  /** What the other sources can hide from `s` is at most their blind spots. */
  lemma OthersPotential(c: Config, st: State, s: nat)
    requires Shaped(c, st) && s < |c.kinds| && c.kinds[s].Some?
    requires forall t :: 0 <= t < |c.kinds| ==> ProcInv(c, st, t)
    ensures Sum(Potentials(st)) - Potential(st, s) <= Others(st, s) + Overshoot(c)
  {
    var counts, blinds, pots := Counts(st.files)[s := 0], Numbers(Blinds(c))[s := 0], Potentials(st)[s := 0];
    SumUpdate(Counts(st.files), s, 0);
    SumUpdate(Numbers(Blinds(c)), s, 0);
    SumUpdate(Potentials(st), s, 0);
    var both := seq(|counts|, i requires 0 <= i < |counts| => counts[i] + blinds[i]);
    SumPlus(counts, blinds);
    forall t | 0 <= t < |pots| ensures pots[t] <= both[t] {
      PotentialBounds(c, st, t);
    }
    SumMono(pots, both);
    assert Least(Blinds(c)).GetOr(0) <= Blinds(c)[s].value;
  }

  /** The step `st` to `r` concerns `s` only, keeps its invariant, and its potential grows
      only into room it just read. */
  ghost predicate IsLocal(c: Config, st: State, r: State, s: nat)
    requires Shaped(c, st) && Shaped(c, r) && s < |c.kinds|
  {
    && r.files == st.files[s := r.files[s]] && r.procs == st.procs[s := r.procs[s]]
    && ProcInv(c, r, s)
    && (Potential(r, s) <= Potential(st, s)
        || (Potential(r, s) <= c.cap - Others(st, s) && Potential(r, s) <= Most(c, s)))
  }

  /** Such a step keeps the global bound. */
  lemma LocalStep(c: Config, st: State, r: State, s: nat)
    requires Inv(c, st) && Shaped(c, r) && s < |c.kinds| && c.kinds[s].Some? && IsLocal(c, st, r, s)
    ensures Inv(c, r)
  {
    assert Potentials(r) == Potentials(st)[s := Potential(r, s)];
    SumUpdate(Potentials(st), s, Potential(r, s));
    OthersPotential(c, st, s);
    forall t | 0 <= t < |c.kinds| ensures ProcInv(c, r, t) {
      assert ProcInv(c, st, t);
    }
  }

  lemma TruncateComplete(mem: seq<Row>, live: Option<nat>)
    ensures Complete(Truncate(mem, live)) <= Complete(mem)
    ensures live.Some? ==> |Truncate(mem, live)| <= live.value
  {
    if live.Some? && live.value < |mem| {
      CompletePrefix(mem, live.value);
    }
  }

  lemma IdleIsLocal(c: Config, st: State, step: Step)
    requires Shaped(c, st) && step.s < |c.kinds| && c.kinds[step.s].Some? && st.procs[step.s].Idle?
    ensures IsLocal(c, st, Next(c, st, step), step.s)
  {
    hide CompleteRows, Load, Upsert, Complete, Truncate, Others, Admit, Merge;
    TruncateComplete(Load(st.files[step.s]), Live(c, st, step.s));
    assert Complete(Load(st.files[step.s])) <= |st.files[step.s]|;
  }

  lemma LookIsLocal(c: Config, st: State, s: nat)
    requires Shaped(c, st) && s < |c.kinds| && c.kinds[s].Some? && ProcInv(c, st, s) && st.procs[s].Crawling?
    ensures IsLocal(c, st, Next(c, st, ReadCap(s)), s)
  {
    hide CompleteRows, Load, Upsert, Complete, Truncate, Others, Admit, Merge;
    TruncateComplete(st.procs[s].mem, Live(c, st, s));
  }

  lemma ResultIsLocal(c: Config, st: State, s: nat, page: Option<Row>)
    requires Shaped(c, st) && s < |c.kinds| && c.kinds[s].Some? && ProcInv(c, st, s) && st.procs[s].Crawling?
    ensures IsLocal(c, st, Next(c, st, Result(s, page)), s)
  {
    hide CompleteRows, Load, Upsert, Complete, Truncate, Others, Merge;
  }

  lemma AnswerIsLocal(c: Config, st: State, s: nat, rows: seq<Row>)
    requires Shaped(c, st) && s < |c.kinds| && c.kinds[s].Some? && ProcInv(c, st, s) && st.procs[s].Crawling?
    ensures IsLocal(c, st, Next(c, st, Answer(s, rows)), s)
  {
    if st.procs[s].plan.Page? && st.procs[s].plan.read.Some? {
      TruncateComplete(Merge(st.procs[s].mem, rows), st.procs[s].plan.read.value);
    }
    hide CompleteRows, Load, Upsert, Complete, Truncate, Others, Admit, Merge;
  }

  lemma CheckpointIsLocal(c: Config, st: State, s: nat)
    requires Shaped(c, st) && s < |c.kinds| && c.kinds[s].Some? && ProcInv(c, st, s) && st.procs[s].Crawling?
    ensures IsLocal(c, st, Next(c, st, Checkpoint(s)), s)
  {
    hide CompleteRows, Load, Upsert, Complete, Truncate, Others, Admit, Merge;
    var p := st.procs[s];
    if Due(p.plan, p.since) {
      NextCheckpoint(c, st, s);
      hide Next;
      SavedIsWritten(p.plan, p.since, Most(c, s), c.kinds[s].value);
      hide Written, Due, Blind;
    }
  }

  /** After a due checkpoint that much less is still to be written. */
  lemma SavedIsWritten(plan: Plan, since: nat, most: int, kind: Kind)
    requires Due(plan, since) && PlanInv(kind, plan, since, most)
    ensures Written(plan, 0) <= Max(0, Written(plan, since) - since)
    ensures Written(plan, since) >= since && PlanInv(kind, plan, 0, most)
  {
  }

  lemma EndIsLocal(c: Config, st: State, step: Step)
    requires Shaped(c, st) && step.s < |c.kinds| && c.kinds[step.s].Some? && ProcInv(c, st, step.s)
    requires st.procs[step.s].Crawling? && (step.Finish? || step.Abort? || step.Open?)
    ensures IsLocal(c, st, Next(c, st, step), step.s)
  {
    TruncateComplete(st.procs[step.s].mem, Live(c, st, step.s));
    hide CompleteRows, Load, Upsert, Complete, Truncate, Others, Admit, Merge;
  }

  lemma NextIsLocal(c: Config, st: State, step: Step)
    requires Shaped(c, st) && step.s < |c.kinds| && c.kinds[step.s].Some? && ProcInv(c, st, step.s)
    ensures IsLocal(c, st, Next(c, st, step), step.s)
  {
    hide Next, IsLocal, ProcInv;
    if st.procs[step.s].Idle? {
      IdleIsLocal(c, st, step);
    } else {
      match step
      case ReadCap(s) => LookIsLocal(c, st, s);
      case Result(s, page) => ResultIsLocal(c, st, s, page);
      case Answer(s, rows) => AnswerIsLocal(c, st, s, rows);
      case Checkpoint(s) => CheckpointIsLocal(c, st, s);
      case _ => EndIsLocal(c, st, step);
    }
  }

  lemma NextKeepsInv(c: Config, st: State, step: Step)
    requires Inv(c, st)
    ensures Inv(c, Next(c, st, step))
  {
    if step.s < |c.kinds| && c.kinds[step.s].Some? {
      assert ProcInv(c, st, step.s);
      NextIsLocal(c, st, step);
      hide Next;
      LocalStep(c, st, Next(c, st, step), step.s);
    }
  }

  lemma {:induction false} RunKeepsInv(c: Config, st: State, steps: seq<Step>)
    requires Inv(c, st)
    ensures Inv(c, Run(c, st, steps))
    decreases |steps|
  {
    if steps != [] {
      NextKeepsInv(c, st, steps[0]);
      RunKeepsInv(c, Next(c, st, steps[0]), steps[1..]);
    }
  }

  lemma InvBoundsTotal(c: Config, st: State)
    requires Inv(c, st)
    ensures Total(st) <= c.cap + Overshoot(c)
  {
    forall s | 0 <= s < |c.kinds| ensures Counts(st.files)[s] <= Potentials(st)[s] {
      PotentialBounds(c, st, s);
    }
    SumMono(Counts(st.files), Potentials(st));
  }

  ghost predicate AllIdle(st: State) { forall p :: p in st.procs ==> p.Idle? }

  /** No interleaving of any number of crawlers takes the live total past the cap by more
      than the blind spots of all crawlers but one. No assumption on the crawled rows. */
  lemma OvershootBound(c: Config, st: State, steps: seq<Step>)
    requires Shaped(c, st) && AllIdle(st) && Total(st) <= c.cap
    ensures Total(Run(c, st, steps)) <= c.cap + Overshoot(c)
  {
    assert forall s :: 0 <= s < |st.procs| ==> st.procs[s] in st.procs;
    assert Potentials(st) == Counts(st.files);
    LeastWithinSum(Blinds(c));
    RunKeepsInv(c, st, steps);
    InvBoundsTotal(c, Run(c, st, steps));
  }

  lemma {:induction false} LeastWithinSum(b: seq<Option<nat>>)
    ensures Sum(Numbers(b)) >= Least(b).GetOr(0)
    ensures (forall i :: 0 <= i < |b| ==> b[i].None?) ==> Sum(Numbers(b)) == 0
  {
    if b != [] {
      assert Numbers(b)[1..] == Numbers(b[1..]);
      LeastWithinSum(b[1..]);
      assert forall i :: 0 <= i < |b| - 1 ==> b[1..][i] == b[i + 1];
    }
  }

  ghost predicate AtMostOneCrawler(kinds: seq<Option<Kind>>) {
    forall s, t :: 0 <= s < t < |kinds| ==> kinds[s].None? || kinds[t].None?
  }

  lemma {:induction false} AloneNoOvershoot(b: seq<Option<nat>>)
    requires forall s, t :: 0 <= s < t < |b| ==> b[s].None? || b[t].None?
    ensures Sum(Numbers(b)) == Least(b).GetOr(0)
  {
    if b != [] {
      assert Numbers(b)[1..] == Numbers(b[1..]);
      assert forall i :: 0 <= i < |b| - 1 ==> b[1..][i] == b[i + 1];
      AloneNoOvershoot(b[1..]);
      LeastWithinSum(b[1..]);
    }
  }

  /** With a single crawler the cap is exact. */
  lemma SingleCrawlerNeverExceedsCap(c: Config, st: State, steps: seq<Step>)
    requires Shaped(c, st) && AllIdle(st) && Total(st) <= c.cap && AtMostOneCrawler(c.kinds)
    ensures Total(Run(c, st, steps)) <= c.cap
  {
    AloneNoOvershoot(Blinds(c));
    OvershootBound(c, st, steps);
  }

  /** The last write of a crawl: with room it brings the total to at most the cap, without
      room the sitemap crawlers keep the feed of their last checkpoint. */
  lemma FinishWithinCap(c: Config, st: State, s: nat)
    requires Shaped(c, st) && s < |c.kinds| && c.kinds[s].Some? && st.procs[s].Crawling?
    ensures var r, live, mem := Next(c, st, Finish(s)), Live(c, st, s), st.procs[s].mem;
      && live.Some?
      && (live.value > 0 && mem != [] ==>
            Total(r) <= c.cap && r.files[s] == CompleteRows(mem[..Min(|mem|, live.value)]))
      && (live.value == 0 && c.kinds[s] != Some(Chunked) ==> r.files == st.files)
      && (live.value == 0 && c.kinds[s] == Some(Chunked) ==> r.files == st.files[s := []] && Total(r) == Others(st, s))
      && forall t :: 0 <= t < |c.kinds| && t != s ==> r.files[t] == st.files[t] && r.procs[t] == st.procs[t]
  {
    var r, mem := Next(c, st, Finish(s)), st.procs[s].mem;
    assert Counts(r.files) == Counts(st.files)[s := |r.files[s]|];
    SumUpdate(Counts(st.files), s, |r.files[s]|);
    assert mem[..|mem|] == mem;
  }
}
