/**
 The overshoot bound of the crawl budget is exact, and when the cap holds.
 */
module TightOvershoot {
  import opened Prelude
  import opened CrawlBudget
  import opened RowSupply

  // The bound is reached when every crawler but the least blind one comes to the point where it
  // will save as many products as it can without reading the cap again, the remaining one fills
  // the room it still sees, and then all the others save. Checkpoints are placed where the
  // scripts write them, so the run is one of the scripts and not only of the protocol.

  ghost predicate Tidy(c: Config) { c.cap > 0 && |c.limits| == |c.kinds| }

  /** Only the process of `s` differs, and its feed. */
  ghost predicate OnlyMoves(st: State, r: State, s: nat)
    requires s < |st.files| == |r.files| && s < |st.procs| == |r.procs|
  {
    r.files == st.files[s := r.files[s]] && r.procs == st.procs[s := r.procs[s]]
  }

  lemma LiveUnmoved(c: Config, st: State, r: State, s: nat)
    requires Shaped(c, st) && Shaped(c, r) && s < |c.kinds| && r.files == st.files[s := r.files[s]]
    ensures Others(r, s) == Others(st, s) && Live(c, r, s) == Live(c, st, s)
  {
    assert Counts(r.files) == Counts(st.files)[s := |r.files[s]|];
    SumUpdate(Counts(st.files), s, |r.files[s]|);
  }

  // ---------- one crawler admitting fresh rows ----------

  /** Crawler `s` holds `n` of the `urls` fresh rows it is to fetch, `since` of them not yet on disk. */
  ghost predicate Holds(c: Config, st: State, s: nat, room: nat, urls: nat, n: nat, since: nat)
    requires Shaped(c, st) && s < |c.kinds|
  {
    var p := st.procs[s];
    && c.kinds[s].Some? && n <= urls <= room && since < CheckpointEvery(c.kinds[s].value)
    && p.Crawling? && p.mem == FreshRows(n) && p.since == since
    && match c.kinds[s].value
       case Batched =>
         && p.plan.Batch? && p.plan.whole && p.plan.todo + p.plan.ahead == urls - n
         && (p.plan.todo > 0 ==> p.plan.live == Some(room))
       case Paged => false
       case _ => p.plan == Each
  }

  /** It sees that room, or has read it for all the rows to come. */
  ghost predicate Sees(c: Config, st: State, s: nat, room: nat, urls: nat, n: nat)
    requires Shaped(c, st) && s < |c.kinds|
  {
    || Live(c, st, s) == Some(room)
    || (st.procs[s].Crawling? && st.procs[s].plan.Batch? && st.procs[s].plan.todo == urls - n > 0)
  }

  /** A look at the cap, for the crawler that looks once per batch. */
  function Look(kind: Kind, s: nat): seq<Step> { if kind == Batched then [ReadCap(s)] else [] }

  lemma LookHolds(c: Config, st: State, s: nat, room: nat, urls: nat, n: nat, since: nat)
    requires Shaped(c, st) && s < |c.kinds| && Holds(c, st, s, room, urls, n, since) && n < urls
    requires Sees(c, st, s, room, urls, n)
    ensures var r := Run(c, st, Look(c.kinds[s].value, s));
      && OnlyMoves(st, r, s) && r.files == st.files
      && Holds(c, r, s, room, urls, n, since) && Sees(c, r, s, room, urls, n)
      && (r.procs[s].plan.Batch? ==> r.procs[s].plan.todo > 0)
  {
    var r := Next(c, st, ReadCap(s));
    hide Run, FreshRows, Live;
    if c.kinds[s] == Some(Batched) {
      RunOne(c, st, ReadCap(s));
      LiveUnmoved(c, st, r, s);
    } else {
      RunNone(c, st);
    }
  }

  lemma RunNone(c: Config, st: State)
    requires Shaped(c, st)
    ensures Run(c, st, []) == st
  {
  }

  lemma FreshAdmitted(k: nat, live: nat)
    requires k < live
    ensures Admit(FreshRows(k), Some(Fresh(k)), Some(live)) == FreshRows(k + 1)
  {
    FreshGrows(k);
  }

  lemma ResultHolds(c: Config, st: State, s: nat, room: nat, urls: nat, n: nat, since: nat)
    requires Shaped(c, st) && s < |c.kinds| && Holds(c, st, s, room, urls, n, since) && n < urls
    requires Sees(c, st, s, room, urls, n) && (st.procs[s].plan.Batch? ==> st.procs[s].plan.todo > 0)
    ensures var r := Next(c, st, Result(s, Some(Fresh(n))));
      && OnlyMoves(st, r, s) && r.files == st.files
      && r.procs[s] == Crawling(FreshRows(n + 1), since + 1,
           if c.kinds[s] == Some(Batched) then st.procs[s].plan.(todo := st.procs[s].plan.todo - 1) else Each)
  {
    FreshAdmitted(n, room);
    hide FreshRows, Fresh, Live, Admit;
  }

  /** Whether the crawler saves after the row that follows `n` rows. */
  predicate SavesAfter(kind: Kind, urls: nat, n: nat, since: nat) {
    since + 1 == CheckpointEvery(kind) || n + 1 == urls
  }

  /** The rows from `n` to `urls`, with the checkpoints of the scripts. */
  function Rows(kind: Kind, s: nat, urls: nat, n: nat, since: nat): seq<Step>
    decreases urls - n
  {
    if n >= urls then []
    else if SavesAfter(kind, urls, n, since) then
      Look(kind, s) + [Result(s, Some(Fresh(n)))] + [Checkpoint(s)] + Rows(kind, s, urls, n + 1, 0)
    else Look(kind, s) + [Result(s, Some(Fresh(n)))] + Rows(kind, s, urls, n + 1, since + 1)
  }

  /** One row. */
  lemma RowHolds(c: Config, st: State, s: nat, room: nat, urls: nat, n: nat, since: nat)
    requires Shaped(c, st) && s < |c.kinds| && Holds(c, st, s, room, urls, n, since) && n < urls
    requires Sees(c, st, s, room, urls, n)
    ensures var r := Run(c, st, Look(c.kinds[s].value, s) + [Result(s, Some(Fresh(n)))]);
      && OnlyMoves(st, r, s) && r.files == st.files && r.procs[s].Crawling?
      && r.procs[s].mem == FreshRows(n + 1) && r.procs[s].since == since + 1
      && (since + 1 < CheckpointEvery(c.kinds[s].value) ==> Holds(c, r, s, room, urls, n + 1, since + 1))
      && (n + 1 < urls ==> Sees(c, r, s, room, urls, n + 1))
      && (SavesAfter(c.kinds[s].value, urls, n, since) ==> Due(r.procs[s].plan, since + 1))
      && Holds(c, r.(procs := r.procs[s := r.procs[s].(since := 0)]), s, room, urls, n + 1, 0)
  {
    var look, result := Look(c.kinds[s].value, s), Result(s, Some(Fresh(n)));
    var mid := Run(c, st, look);
    LookHolds(c, st, s, room, urls, n, since);
    ResultHolds(c, mid, s, room, urls, n, since);
    RunAppend(c, st, look, [result]);
    RunOne(c, mid, result);
    hide Run, Next, FreshRows, Live, Fresh;
    LiveUnmoved(c, mid, Next(c, mid, result), s);
  }

  lemma CheckpointHolds(c: Config, st: State, mid: State, s: nat, room: nat, urls: nat, n: nat)
    requires Shaped(c, st) && Shaped(c, mid) && s < |c.kinds| && OnlyMoves(st, mid, s)
    requires mid.procs[s].Crawling? && mid.procs[s].mem == FreshRows(n) && CompleteRows(FreshRows(n)) == FreshRows(n)
    requires Holds(c, mid.(procs := mid.procs[s := mid.procs[s].(since := 0)]), s, room, urls, n, 0)
    requires n < urls ==> Sees(c, mid, s, room, urls, n)
    ensures var r := Write(mid, s, mid.procs[s].mem, mid.procs[s].(since := 0));
      && OnlyMoves(st, r, s) && r.files[s] == FreshRows(n) && Holds(c, r, s, room, urls, n, 0)
      && (n < urls ==> Sees(c, r, s, room, urls, n))
  {
    hide FreshRows, Live, CompleteRows;
    LiveUnmoved(c, mid, Write(mid, s, mid.procs[s].mem, mid.procs[s].(since := 0)), s);
  }

  /** The same, with its checkpoint. */
  lemma SavedRowHolds(c: Config, st: State, s: nat, room: nat, urls: nat, n: nat, since: nat)
    requires Shaped(c, st) && s < |c.kinds| && Holds(c, st, s, room, urls, n, since) && n < urls
    requires Sees(c, st, s, room, urls, n) && SavesAfter(c.kinds[s].value, urls, n, since)
    ensures var r := Run(c, st, Look(c.kinds[s].value, s) + [Result(s, Some(Fresh(n)))] + [Checkpoint(s)]);
      && OnlyMoves(st, r, s) && r.files[s] == FreshRows(n + 1)
      && Holds(c, r, s, room, urls, n + 1, 0) && (n + 1 < urls ==> Sees(c, r, s, room, urls, n + 1))
  {
    var steps := Look(c.kinds[s].value, s) + [Result(s, Some(Fresh(n)))];
    var mid := Run(c, st, steps);
    RowHolds(c, st, s, room, urls, n, since);
    FreshGrows(n + 1);
    RunAppend(c, st, steps, [Checkpoint(s)]);
    RunOne(c, mid, Checkpoint(s));
    NextCheckpoint(c, mid, s);
    hide *;
    CheckpointHolds(c, st, mid, s, room, urls, n + 1);
  }

  lemma {:induction false} RowsFill(c: Config, st: State, s: nat, room: nat, urls: nat, n: nat, since: nat)
    requires Shaped(c, st) && s < |c.kinds| && Holds(c, st, s, room, urls, n, since)
    requires if n < urls then Sees(c, st, s, room, urls, n) else st.files[s] == FreshRows(urls)
    ensures var r := Run(c, st, Rows(c.kinds[s].value, s, urls, n, since));
      OnlyMoves(st, r, s) && r.files[s] == FreshRows(urls)
    decreases urls - n
  {
    hide Next, Run, Sees, FreshRows, Fresh, SavesAfter, Look;
    var kind := c.kinds[s].value;
    var row := Look(kind, s) + [Result(s, Some(Fresh(n)))];
    RunNone(c, st);
    if n < urls {
      if SavesAfter(kind, urls, n, since) {
        SavedRowHolds(c, st, s, room, urls, n, since);
        RowsFill(c, Run(c, st, row + [Checkpoint(s)]), s, room, urls, n + 1, 0);
        RunAppend(c, st, row + [Checkpoint(s)], Rows(kind, s, urls, n + 1, 0));
      } else {
        RowHolds(c, st, s, room, urls, n, since);
        NotSaving(kind, urls, n, since);
        RowsFill(c, Run(c, st, row), s, room, urls, n + 1, since + 1);
        RunAppend(c, st, row, Rows(kind, s, urls, n + 1, since + 1));
      }
    }
  }

  lemma NotSaving(kind: Kind, urls: nat, n: nat, since: nat)
    requires !SavesAfter(kind, urls, n, since) && n < urls && since < CheckpointEvery(kind)
    ensures n + 1 < urls && since + 1 < CheckpointEvery(kind)
  {
  }

  // ---------- opening a crawl ----------

  /** Source `s` has a crawler that is not running, `p` fresh rows on disk, and room for more. */
  ghost predicate Ready(c: Config, st: State, s: nat, p: nat, room: nat)
    requires Shaped(c, st)
  {
    && s < |c.kinds| && c.kinds[s].Some? && st.procs[s] == Idle && st.files[s] == FreshRows(p)
    && Live(c, st, s) == Some(room) && p < room
  }

  lemma OpenReady(c: Config, st: State, s: nat, p: nat, room: nat, urls: nat)
    requires Shaped(c, st) && Ready(c, st, s, p, room)
    ensures var r := Run(c, st, [Open(s, urls)]);
      && r == st.(procs := st.procs[s := Crawling(FreshRows(p), 0, FirstPlan(c.kinds[s].value, room - p, urls))])
      && Live(c, r, s) == Some(room)
  {
    LoadFresh(p);
    RunOne(c, st, Open(s, urls));
    hide Load, FreshRows, Live;
    LiveUnmoved(c, st, Run(c, st, [Open(s, urls)]), s);
  }

  /** A listing crawler reads the cap. */
  lemma ListingReads(c: Config, st: State, s: nat, p: nat, room: nat)
    requires Shaped(c, st) && Ready(c, st, s, p, room) && c.kinds[s] == Some(Paged)
    ensures Run(c, st, [Open(s, 0)] + [ReadCap(s)]) ==
      st.(procs := st.procs[s := Crawling(FreshRows(p), 0, Page(Some(Some(room))))])
  {
    var ready := Run(c, st, [Open(s, 0)]);
    OpenReady(c, st, s, p, room, 0);
    RunAppend(c, st, [Open(s, 0)], [ReadCap(s)]);
    RunOne(c, ready, ReadCap(s));
    hide Run, Live, FreshRows;
  }

  lemma AnswerFills(c: Config, st: State, s: nat, mem: seq<Row>, rows: seq<Row>, all: seq<Row>)
    requires Shaped(c, st) && s < |c.kinds| && c.kinds[s] == Some(Paged) && all != []
    requires st.procs[s] == Crawling(mem, 0, Page(Some(Some(|all|))))
    requires Merge(mem, rows) == all && CompleteRows(all) == all
    ensures Next(c, st, Answer(s, rows)) == State(st.files[s := all], st.procs[s := Idle])
  {
    hide Merge, CompleteRows, Live, Load, Upsert, Complete, Admit;
    assert Answered(st, s, mem, rows, Some(|all|)) == State(st.files[s := all], st.procs[s := Idle]);
  }

  /** A listing crawler that has read its room is answered with as many new products. */
  lemma PageFills(c: Config, st: State, s: nat, p: nat, room: nat)
    requires Shaped(c, st) && s < |c.kinds| && c.kinds[s] == Some(Paged) && p < room
    requires st.procs[s] == Crawling(FreshRows(p), 0, Page(Some(Some(room))))
    ensures Run(c, st, [Answer(s, FreshRows(room)[p..])]) == State(st.files[s := FreshRows(room)], st.procs[s := Idle])
  {
    RunOne(c, st, Answer(s, FreshRows(room)[p..]));
    MergeFresh(room, p);
    FreshGrows(room);
    hide *;
    AnswerFills(c, st, s, FreshRows(p), FreshRows(room)[p..], FreshRows(room));
  }

  // ---------- the crawler that fills the room ----------

  function FillSteps(kind: Kind, s: nat, room: nat): seq<Step> {
    if kind == Paged then [Open(s, 0)] + [ReadCap(s)] + [Answer(s, FreshRows(room)[0..])]
    else [Open(s, room)] + Rows(kind, s, room, 0, 0)
  }

  lemma Fills(c: Config, st: State, s: nat, room: nat)
    requires Shaped(c, st) && Ready(c, st, s, 0, room)
    ensures var r := Run(c, st, FillSteps(c.kinds[s].value, s, room));
      OnlyMoves(st, r, s) && r.files[s] == FreshRows(room)
  {
    hide Next, Live, Run, Fresh;
    if c.kinds[s] == Some(Paged) {
      ListingReads(c, st, s, 0, room);
      RunAppend(c, st, [Open(s, 0)] + [ReadCap(s)], [Answer(s, FreshRows(room)[0..])]);
      PageFills(c, Run(c, st, [Open(s, 0)] + [ReadCap(s)]), s, 0, room);
    } else {
      OpenReady(c, st, s, 0, room, room);
      RunAppend(c, st, [Open(s, room)], Rows(c.kinds[s].value, s, room, 0, 0));
      RowsFill(c, Run(c, st, [Open(s, room)]), s, room, room, 0, 0);
    }
  }

  // ---------- a crawler that hides rows ----------

  /** A crawler can hide `n` rows over the `p` it has. */
  predicate CanHide(kind: Kind, p: nat, n: nat, room: nat) {
    && n > 0 && p + n <= room
    && match kind
       case Batched => n <= BATCH
       case Paged => p + n == room
       case _ => n <= CheckpointEvery(kind)
  }

  /** Bound to save `n` more rows without looking again. */
  function Hiding(kind: Kind, p: nat, n: nat, room: nat): Proc {
    match kind
    case Batched => Crawling(FreshRows(p), 0, Batch(n, Some(room), 0, true))
    case Paged => Crawling(FreshRows(p), 0, Page(Some(Some(room))))
    case _ => Crawling(FreshRows(p + n), n, Each)
  }

  function Results(s: nat, from: nat, n: nat): seq<Step>
    decreases n
  {
    if n == 0 then [] else [Result(s, Some(Fresh(from)))] + Results(s, from + 1, n - 1)
  }

  lemma {:induction false} ResultsHide(c: Config, st: State, s: nat, from: nat, since: nat, n: nat, room: nat)
    requires Shaped(c, st) && s < |c.kinds| && c.kinds[s].Some? && Live(c, st, s) == Some(room)
    requires st.procs[s] == Crawling(FreshRows(from), since, Each)
    requires from + n <= room && since + n <= CheckpointEvery(c.kinds[s].value)
    requires c.kinds[s] != Some(Batched) && c.kinds[s] != Some(Paged)
    ensures Run(c, st, Results(s, from, n)) ==
      st.(procs := st.procs[s := Crawling(FreshRows(from + n), since + n, Each)])
    decreases n
  {
    hide Next, Run, Live, FreshRows, Fresh;
    RunNone(c, st);
    if n > 0 {
      var one := [Result(s, Some(Fresh(from)))];
      var mid := Next(c, st, one[0]);
      ResultHolds(c, st, s, room, room, from, since);
      LiveUnmoved(c, st, mid, s);
      RunOne(c, st, one[0]);
      RunAppend(c, st, one, Results(s, from + 1, n - 1));
      ResultsHide(c, mid, s, from + 1, since + 1, n - 1, room);
    }
  }

  function HideSteps(kind: Kind, s: nat, p: nat, n: nat): seq<Step> {
    match kind
    case Batched => [Open(s, n)] + [ReadCap(s)]
    case Paged => [Open(s, 0)] + [ReadCap(s)]
    case _ => [Open(s, 0)] + Results(s, p, n)
  }

  lemma BatchReads(c: Config, st: State, s: nat, p: nat, n: nat, room: nat)
    requires Shaped(c, st) && Ready(c, st, s, p, room) && c.kinds[s] == Some(Batched) && CanHide(Batched, p, n, room)
    ensures Run(c, st, [Open(s, n)] + [ReadCap(s)]) == st.(procs := st.procs[s := Hiding(Batched, p, n, room)])
  {
    var ready := Run(c, st, [Open(s, n)]);
    OpenReady(c, st, s, p, room, n);
    RunAppend(c, st, [Open(s, n)], [ReadCap(s)]);
    RunOne(c, ready, ReadCap(s));
    hide Run, Live, FreshRows;
  }

  lemma Hides(c: Config, st: State, s: nat, p: nat, n: nat, room: nat)
    requires Shaped(c, st) && Ready(c, st, s, p, room) && CanHide(c.kinds[s].value, p, n, room)
    ensures Run(c, st, HideSteps(c.kinds[s].value, s, p, n)) ==
      st.(procs := st.procs[s := Hiding(c.kinds[s].value, p, n, room)])
  {
    hide Next, Live, Run, Fresh, FreshRows, Results;
    if c.kinds[s] == Some(Batched) {
      BatchReads(c, st, s, p, n, room);
    } else if c.kinds[s] == Some(Paged) {
      ListingReads(c, st, s, p, room);
    } else {
      OpenReady(c, st, s, p, room, 0);
      RunAppend(c, st, [Open(s, 0)], Results(s, p, n));
      ResultsHide(c, Run(c, st, [Open(s, 0)]), s, p, 0, n, room);
    }
  }

  function SaveSteps(kind: Kind, s: nat, p: nat, n: nat): seq<Step> {
    match kind
    case Batched => Rows(Batched, s, p + n, p, 0)
    case Paged => [Answer(s, FreshRows(p + n)[p..])]
    case _ => [Checkpoint(s)]
  }

  lemma EachSaves(c: Config, st: State, s: nat, n: nat, since: nat)
    requires Shaped(c, st) && s < |c.kinds| && c.kinds[s].Some? && st.procs[s] == Crawling(FreshRows(n), since, Each)
    ensures var r := Run(c, st, [Checkpoint(s)]); OnlyMoves(st, r, s) && r.files[s] == FreshRows(n)
  {
    FreshGrows(n);
    RunOne(c, st, Checkpoint(s));
    hide FreshRows, CompleteRows, Next, Run;
    NextCheckpoint(c, st, s);
  }

  /** Whatever the others have done, it saves what it hid. */
  lemma Saves(c: Config, st: State, s: nat, p: nat, n: nat, room: nat)
    requires Shaped(c, st) && s < |c.kinds| && c.kinds[s].Some? && CanHide(c.kinds[s].value, p, n, room)
    requires st.procs[s] == Hiding(c.kinds[s].value, p, n, room)
    ensures var r := Run(c, st, SaveSteps(c.kinds[s].value, s, p, n));
        OnlyMoves(st, r, s) && r.files[s] == FreshRows(p + n)
  {
    hide Next, Live, Run, Fresh, Rows;
    if c.kinds[s] == Some(Batched) {
      RowsFill(c, st, s, room, p + n, p, 0);
    } else if c.kinds[s] == Some(Paged) {
      PageFills(c, st, s, p, room);
    } else {
      EachSaves(c, st, s, p + n, n);
    }
  }

  // ---------- all crawlers ----------

  /** Source `s` can fill what the others leave: the whole cap, or, beside a source `u` without a
      crawler that holds the rest, as much as any other crawler can hide. */
  ghost predicate Filler(c: Config, s: nat, u: nat)
    requires Tidy(c)
  {
    && s < |c.kinds| && u < |c.kinds| && c.kinds[s].Some?
    && (Most(c, s) == c.cap
        || (u != s && c.kinds[u].None?
            && forall t :: 0 <= t < |c.kinds| && c.kinds[t].Some? ==> Blind(c, t).value <= Most(c, s)))
  }

  /** What `u` holds from the start. */
  function Rest(c: Config, s: nat): nat
    requires s < |c.limits|
  {
    Max(0, c.cap - Most(c, s))
  }

  function StartFile(c: Config, s: nat, u: nat, t: nat): seq<Row>
    requires s < |c.limits|
  {
    if t == u then FreshRows(Rest(c, s)) else []
  }

  function StartState(c: Config, s: nat, u: nat): State
    requires s < |c.limits|
  {
    State(seq(|c.kinds|, t requires 0 <= t => StartFile(c, s, u, t)), seq(|c.kinds|, t => Idle))
  }

  /** The room of `t` beside the rest. */
  function Room(c: Config, s: nat, t: nat): nat
    requires s < |c.limits| && t < |c.limits|
  {
    Min(Most(c, t), Most(c, s))
  }

  lemma {:induction false} EmptyTotal(files: seq<seq<Row>>)
    requires forall i :: 0 <= i < |files| ==> files[i] == []
    ensures Sum(Counts(files)) == 0
  {
    if files != [] {
      assert Counts(files)[1..] == Counts(files[1..]);
      EmptyTotal(files[1..]);
    }
  }

  lemma OneFileTotal(files: seq<seq<Row>>, u: nat)
    requires u < |files| && forall i :: 0 <= i < |files| && i != u ==> files[i] == []
    ensures Sum(Counts(files)) == |files[u]|
  {
    EmptyTotal(files[u := []]);
    assert Counts(files[u := []]) == Counts(files)[u := 0];
    SumUpdate(Counts(files), u, 0);
  }

  /** While only the rest is on disk, every other crawler sees its room. */
  lemma SeesRoom(c: Config, st: State, s: nat, u: nat, t: nat)
    requires Tidy(c) && Shaped(c, st) && Filler(c, s, u) && t < |c.kinds| && c.kinds[t].Some?
    requires forall i :: 0 <= i < |c.kinds| ==> st.files[i] == StartFile(c, s, u, i)
    ensures st.files[t] == [] && FreshRows(0) == [] && Live(c, st, t) == Some(Room(c, s, t)) && Room(c, s, t) > 0
  {
    OneFileTotal(st.files, u);
    hide Sum, Counts, Blind;
  }

  lemma BlindCanHide(c: Config, s: nat, u: nat, t: nat)
    requires Tidy(c) && Filler(c, s, u) && t < |c.kinds| && c.kinds[t].Some?
    ensures CanHide(c.kinds[t].value, 0, Blind(c, t).value, Room(c, s, t))
  {
  }

  function Full(c: Config, s: nat, t: nat): Proc
    requires s < |c.limits| == |c.kinds| && t < |c.kinds| && c.kinds[t].Some?
  {
    Hiding(c.kinds[t].value, 0, Blind(c, t).value, Room(c, s, t))
  }

  /** The crawlers below `k`, but not `s`, hide what they can; only the rest is on disk. */
  ghost predicate Primed(c: Config, s: nat, u: nat, k: nat, st: State)
    requires Shaped(c, st) && s < |c.kinds|
  {
    forall t :: 0 <= t < |c.kinds| ==>
      && st.files[t] == StartFile(c, s, u, t)
      && st.procs[t] == if t < k && t != s && c.kinds[t].Some? then Full(c, s, t) else Idle
  }

  function PrimeStep(c: Config, s: nat, k: nat): seq<Step>
    requires k < |c.kinds| == |c.limits|
  {
    if k == s || c.kinds[k].None? then [] else HideSteps(c.kinds[k].value, k, 0, Blind(c, k).value)
  }

  function PrimeSteps(c: Config, s: nat, k: nat): seq<Step>
    requires k <= |c.kinds| == |c.limits|
  {
    if k == 0 then [] else PrimeSteps(c, s, k - 1) + PrimeStep(c, s, k - 1)
  }

  lemma PrimeOne(c: Config, s: nat, u: nat, k: nat, st: State)
    requires Tidy(c) && Shaped(c, st) && Filler(c, s, u) && Primed(c, s, u, k, st) && k < |c.kinds|
    ensures Primed(c, s, u, k + 1, Run(c, st, PrimeStep(c, s, k)))
  {
    hide Next, FreshRows, Hiding, HideSteps, Blind, Room, StartFile, Live, CanHide;
    if k != s && c.kinds[k].Some? {
      hide Run;
      SeesRoom(c, st, s, u, k);
      BlindCanHide(c, s, u, k);
      Hides(c, st, k, 0, Blind(c, k).value, Room(c, s, k));
    } else {
      RunNone(c, st);
    }
  }

  lemma {:induction false} PrimeRun(c: Config, s: nat, u: nat, k: nat, st: State)
    requires Tidy(c) && Shaped(c, st) && Filler(c, s, u) && Primed(c, s, u, 0, st) && k <= |c.kinds|
    ensures Primed(c, s, u, k, Run(c, st, PrimeSteps(c, s, k)))
    decreases k
  {
    hide Next, Primed, PrimeStep, Filler;
    if k > 0 {
      hide Run;
      PrimeRun(c, s, u, k - 1, st);
      PrimeOne(c, s, u, k - 1, Run(c, st, PrimeSteps(c, s, k - 1)));
      RunAppend(c, st, PrimeSteps(c, s, k - 1), PrimeStep(c, s, k - 1));
    } else {
      RunNone(c, st);
    }
  }

  /** Source `s` has filled its room; the crawlers below `k` have saved what they hid. */
  ghost predicate Flushed(c: Config, s: nat, u: nat, k: nat, st: State)
    requires Shaped(c, st) && s < |c.kinds|
  {
    && |st.files[s]| == Most(c, s)
    && forall t :: 0 <= t < |c.kinds| && t != s ==>
      if c.kinds[t].None? then |st.files[t]| == |StartFile(c, s, u, t)|
      else if t < k then |st.files[t]| == Blind(c, t).value
      else st.procs[t] == Full(c, s, t)
  }

  function FlushStep(c: Config, s: nat, k: nat): seq<Step>
    requires k < |c.kinds| == |c.limits|
  {
    if k == s || c.kinds[k].None? then [] else SaveSteps(c.kinds[k].value, k, 0, Blind(c, k).value)
  }

  function FlushSteps(c: Config, s: nat, k: nat): seq<Step>
    requires k <= |c.kinds| == |c.limits|
  {
    if k == 0 then [] else FlushSteps(c, s, k - 1) + FlushStep(c, s, k - 1)
  }

  lemma FlushOne(c: Config, s: nat, u: nat, k: nat, st: State)
    requires Tidy(c) && Shaped(c, st) && Filler(c, s, u) && k < |c.kinds| && Flushed(c, s, u, k, st)
    ensures Flushed(c, s, u, k + 1, Run(c, st, FlushStep(c, s, k)))
  {
    hide Next, FreshRows, Hiding, SaveSteps, Blind, Room, StartFile, CanHide;
    if k != s && c.kinds[k].Some? {
      hide Run;
      BlindCanHide(c, s, u, k);
      Saves(c, st, k, 0, Blind(c, k).value, Room(c, s, k));
    } else {
      RunNone(c, st);
    }
  }

  lemma {:induction false} FlushRun(c: Config, s: nat, u: nat, k: nat, st: State)
    requires Tidy(c) && Shaped(c, st) && Filler(c, s, u) && k <= |c.kinds| && Flushed(c, s, u, 0, st)
    ensures Flushed(c, s, u, k, Run(c, st, FlushSteps(c, s, k)))
    decreases k
  {
    hide Next, Flushed, FlushStep, Filler;
    if k > 0 {
      hide Run;
      FlushRun(c, s, u, k - 1, st);
      FlushOne(c, s, u, k - 1, Run(c, st, FlushSteps(c, s, k - 1)));
      RunAppend(c, st, FlushSteps(c, s, k - 1), FlushStep(c, s, k - 1));
    } else {
      RunNone(c, st);
    }
  }

  function TightSteps(c: Config, s: nat): seq<Step>
    requires s < |c.kinds| == |c.limits| && c.kinds[s].Some?
  {
    PrimeSteps(c, s, |c.kinds|) + FillSteps(c.kinds[s].value, s, Most(c, s)) + FlushSteps(c, s, |c.kinds|)
  }

  lemma StartIsPrimed(c: Config, s: nat, u: nat)
    requires Tidy(c) && Filler(c, s, u)
    ensures var st := StartState(c, s, u);
      Shaped(c, st) && Primed(c, s, u, 0, st) && AllIdle(st) && Total(st) <= c.cap
  {
    OneFileTotal(StartState(c, s, u).files, u);
    hide Sum, Counts, Blind;
  }

  /** What the crawler `s` finds when the others are hiding, and what it leaves. */
  lemma FillsLast(c: Config, s: nat, u: nat, st: State)
    requires Tidy(c) && Shaped(c, st) && Filler(c, s, u) && Primed(c, s, u, |c.kinds|, st)
    ensures Flushed(c, s, u, 0, Run(c, st, FillSteps(c.kinds[s].value, s, Most(c, s))))
  {
    SeesRoom(c, st, s, u, s);
    hide Run, Next, FillSteps, Full, Live, Blind;
    Fills(c, st, s, Most(c, s));
  }

  /** The bound cannot be improved where the least blind crawler can fill what the others leave. */
  lemma OvershootIsReached(c: Config, s: nat, u: nat)
    requires Tidy(c) && Filler(c, s, u)
    requires forall t :: 0 <= t < |c.kinds| && c.kinds[t].Some? ==> Blind(c, s).value <= Blind(c, t).value
    ensures Shaped(c, StartState(c, s, u)) && AllIdle(StartState(c, s, u)) && Total(StartState(c, s, u)) <= c.cap
    ensures Total(Run(c, StartState(c, s, u), TightSteps(c, s))) == c.cap + Overshoot(c)
  {
    var st, n, fill := StartState(c, s, u), |c.kinds|, FillSteps(c.kinds[s].value, s, Most(c, s));
    hide *;
    StartIsPrimed(c, s, u);
    PrimeRun(c, s, u, n, st);
    var primed := Run(c, st, PrimeSteps(c, s, n));
    FillsLast(c, s, u, primed);
    FlushRun(c, s, u, n, Run(c, primed, fill));
    RunAppend(c, st, PrimeSteps(c, s, n), fill);
    RunAppend(c, st, PrimeSteps(c, s, n) + fill, FlushSteps(c, s, n));
    FlushedTotal(c, s, u, Run(c, Run(c, primed, fill), FlushSteps(c, s, n)));
  }

  lemma FlushedCounts(c: Config, s: nat, u: nat, st: State)
    requires Tidy(c) && Shaped(c, st) && Filler(c, s, u) && Flushed(c, s, u, |c.kinds|, st)
    ensures var filled := Numbers(Blinds(c))[s := Most(c, s)];
      Counts(st.files) == if Rest(c, s) == 0 then filled else filled[u := Rest(c, s)]
  {
  }

  lemma FlushedTotal(c: Config, s: nat, u: nat, st: State)
    requires Tidy(c) && Shaped(c, st) && Filler(c, s, u) && Flushed(c, s, u, |c.kinds|, st)
    requires forall t :: 0 <= t < |c.kinds| && c.kinds[t].Some? ==> Blind(c, s).value <= Blind(c, t).value
    ensures Total(st) == c.cap + Overshoot(c)
  {
    var blinds := Numbers(Blinds(c));
    var filled := blinds[s := Most(c, s)];
    FlushedCounts(c, s, u, st);
    LeastOf(Blinds(c), s);
    hide Sum, Least, Blind, Flushed;
    SumUpdate(blinds, s, Most(c, s));
    if Rest(c, s) > 0 {
      SumUpdate(filled, u, Rest(c, s));
    }
  }

  lemma LeastOf(b: seq<Option<nat>>, s: nat)
    requires s < |b| && b[s].Some? && forall t :: 0 <= t < |b| && b[t].Some? ==> b[s].value <= b[t].value
    ensures Least(b) == b[s]
  {
    hide Least;
    var i :| 0 <= i < |b| && b[i] == Least(b);
  }
}
