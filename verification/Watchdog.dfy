/**
 The crawl watchdog: every cycle it reaps the crawls that left the process list, puts a code
 that did not grow into a cool-down, and fills the free slots from a fixed queue.
 */
module Watchdog {
  import opened Prelude

  // The world it polls is arbitrary: the n-th look at the clock, the process list or a feed file
  // may return anything, as long as the clock does not run backwards.

  const FAIL_COOLDOWN_S: int := 1800

  /** A merchant code. */
  datatype Code = Code(name: string)

  /** What the watchdog can see, indexed by how often it has looked so far. */
  datatype World = World(
    clock: nat -> int,
    running: nat -> set<Code>,      // codes in the process list
    feed: (nat, Code) -> nat,       // products in a code's feed file
    starts: nat -> bool,              // whether launching a process succeeds
    stop: nat -> bool,                // whether a stop signal has arrived
    queue: seq<Code>,
    enough: map<Code, nat>,         // counts from which a code is not crawled again
    slots: nat,                       // crawls allowed in parallel
    completeOnly: bool)

  datatype Failure = Failure(count: nat, cooldownUntil: int)
  datatype Entry = Entry(code: Code, before: nat, ts: int)
  datatype Event = Started(code: Code, at: int) | Failed(code: Code, at: int)

  /** The state dictionary, and a history of what was done. `started` is in insertion order. */
  datatype State = State(looks: nat, fails: map<Code, Failure>, started: seq<Entry>, log: seq<Event>)

  ghost predicate Sane(w: World) {
    && (forall i: nat, j: nat :: i <= j ==> w.clock(i) <= w.clock(j))
    && (forall i, j :: 0 <= i < j < |w.queue| ==> w.queue[i] != w.queue[j])
  }

  function Now(w: World, st: State): int { w.clock(st.looks) }

  function CooldownUntil(fails: map<Code, Failure>, code: Code): int {
    if code in fails then fails[code].cooldownUntil else 0
  }

  // ---------- the started dictionary ----------

  predicate HasEntry(started: seq<Entry>, code: Code) { exists e :: e in started && e.code == code }

  function Pop(started: seq<Entry>, code: Code): (out: seq<Entry>)
    ensures forall e :: e in out <==> e in started && e.code != code
  {
    if started == [] then []
    else (if started[0].code == code then [] else [started[0]]) + Pop(started[1..], code)
  }

  function Put(started: seq<Entry>, entry: Entry): (out: seq<Entry>)
    ensures forall e :: e in out <==> e == entry || (e in started && e.code != entry.code)
  {
    Pop(started, entry.code) + [entry]
  }

  function Before(started: seq<Entry>, code: Code): nat {
    if started == [] then 0
    else if started[0].code == code then started[0].before
    else Before(started[1..], code)
  }

  function Gone(started: seq<Entry>, running: set<Code>): (codes: seq<Code>)
    ensures forall c :: c in codes <==> HasEntry(started, c) && c !in running
  {
    if started == [] then []
    else
      var rest := Gone(started[1..], running);
      assert forall c :: HasEntry(started, c) <==> started[0].code == c || HasEntry(started[1..], c) by {
        forall c ensures HasEntry(started, c) <==> started[0].code == c || HasEntry(started[1..], c) {
          assert started[0] in started;
        }
      }
      if started[0].code in running then rest else [started[0].code] + rest
  }

  // ---------- one cycle ----------

  function FailMarked(w: World, st: State, code: Code): State {
    var count := if code in st.fails then st.fails[code].count else 0;
    State(st.looks + 1, st.fails[code := Failure(count + 1, Now(w, st) + FAIL_COOLDOWN_S)], st.started,
          st.log + [Failed(code, Now(w, st))])
  }

  function OkMarked(st: State, code: Code): State {
    if code in st.fails then st.(fails := st.fails[code := Failure(0, 0)]) else st
  }

  function Popped(st: State, code: Code): State {
    st.(looks := st.looks + 1, started := Pop(st.started, code))
  }

  function ReapCode(w: World, st: State, code: Code): State {
    var before, after := Before(st.started, code), w.feed(st.looks, code);
    var popped := Popped(st, code);
    if after > before || (code in w.enough && after >= w.enough[code]) then OkMarked(popped, code)
    else FailMarked(w, popped, code)
  }

  function ReapCodes(w: World, st: State, codes: seq<Code>): State
    decreases |codes|
  {
    if codes == [] then st else ReapCodes(w, ReapCode(w, st, codes[0]), codes[1..])
  }

  /** `reap_finished`. */
  function Reap(w: World, st: State): State {
    ReapCodes(w, st.(looks := st.looks + 1), Gone(st.started, w.running(st.looks)))
  }

  predicate ShouldSkip(w: World, st: State, code: Code) {
    (code in w.enough && w.feed(st.looks, code) >= w.enough[code]) || Now(w, st) < CooldownUntil(st.fails, code)
  }

  /** Launch a crawl, or put the code into the cool-down if the launch fails. */
  function TryStart(w: World, st: State, code: Code): State {
    var before := w.feed(st.looks, code);
    var next := st.(looks := st.looks + 1);
    if w.starts(st.looks) then
      next.(started := Put(st.started, Entry(code, before, Now(w, next))),
            log := st.log + [Started(code, Now(w, next))])
    else FailMarked(w, next, code)
  }

  predicate Launches(w: World, st: State, code: Code, running: set<Code>) {
    code !in running && !ShouldSkip(w, st, code)
  }

  /** One turn of the fill loop. */
  function Turn(w: World, st: State, code: Code, running: set<Code>): State {
    if Launches(w, st, code, running) then TryStart(w, st, code) else st.(looks := st.looks + 1)
  }

  predicate Takes(w: World, st: State, code: Code, running: set<Code>) {
    Launches(w, st, code, running) && w.starts(st.looks)
  }

  function FillFrom(w: World, st: State, queue: seq<Code>, running: set<Code>, slots: nat): State
    decreases |queue|
  {
    if queue == [] || slots == 0 || w.stop(st.looks) then st
    else
      FillFrom(w, Turn(w, st, queue[0], running), queue[1..], running,
               if Takes(w, st, queue[0], running) then slots - 1 else slots)
  }

  /** `fill_crawl_slots`, with its own look at the process list. */
  function Fill(w: World, st: State): State {
    if w.completeOnly then st
    else
      var running := w.running(st.looks);
      FillFrom(w, st.(looks := st.looks + 1), w.queue, running, Max(0, w.slots - |running|))
  }

  function Cycle(w: World, st: State): State { Fill(w, Reap(w, st)) }

  function Run(w: World, st: State, n: nat): State {
    if n == 0 then st else Cycle(w, Run(w, st, n - 1))
  }

  // ---------- what every run keeps ----------

  /** No crawl is started within the cool-down of an earlier failure of the same code. */
  ghost predicate CooldownKept(log: seq<Event>) {
    forall i, j :: 0 <= i < j < |log| && log[i].Failed? && log[j].Started? && log[i].code == log[j].code ==>
      log[j].at >= log[i].at + FAIL_COOLDOWN_S
  }

  /** At time `t` the cool-down of every failure of a code with an entry is over. */
  ghost predicate SettledBy(st: State, t: int) {
    forall e, f :: e in st.started && f in st.log && f.Failed? && f.code == e.code ==> f.at + FAIL_COOLDOWN_S <= t
  }

  ghost predicate Timely(w: World, st: State) { forall f :: f in st.log ==> f.at <= Now(w, st) }

  /** A failure is either still in force in the dictionary, or over. */
  ghost predicate Remembered(w: World, st: State) {
    forall f :: f in st.log && f.Failed? ==>
      CooldownUntil(st.fails, f.code) >= f.at + FAIL_COOLDOWN_S || Now(w, st) >= f.at + FAIL_COOLDOWN_S
  }

  ghost predicate Keyed(started: seq<Entry>) {
    forall i, j :: 0 <= i < j < |started| ==> started[i].code != started[j].code
  }

  lemma {:induction false} PopKeyed(started: seq<Entry>, code: Code)
    requires Keyed(started)
    ensures Keyed(Pop(started, code))
  {
    if started != [] {
      PopKeyed(started[1..], code);
      var rest := Pop(started[1..], code);
      forall i | 0 <= i < |rest| ensures rest[i].code != started[0].code {
        assert rest[i] in rest;
      }
    }
  }

  /** The count a code was started with is the one in its entry. */
  lemma {:induction false} BeforeIs(started: seq<Entry>, e: Entry)
    requires Keyed(started) && e in started
    ensures Before(started, e.code) == e.before
  {
    if started[0] != e {
      assert e in started[1..];
      var i :| 0 < i < |started| && started[i] == e;
      BeforeIs(started[1..], e);
    }
  }

  lemma PutKeyed(started: seq<Entry>, entry: Entry)
    requires Keyed(started)
    ensures Keyed(Put(started, entry))
  {
    PopKeyed(started, entry.code);
    var rest := Pop(started, entry.code);
    forall i | 0 <= i < |rest| ensures rest[i].code != entry.code {
      assert rest[i] in rest;
    }
  }

  lemma {:induction false} GoneDistinct(started: seq<Entry>, running: set<Code>)
    requires Keyed(started)
    ensures forall i, j :: 0 <= i < j < |Gone(started, running)| ==>
        Gone(started, running)[i] != Gone(started, running)[j]
  {
    if started != [] {
      GoneDistinct(started[1..], running);
      var rest := Gone(started[1..], running);
      forall i | 0 <= i < |rest| ensures rest[i] != started[0].code {
        assert rest[i] in rest;
      }
    }
  }

  /** What filling keeps whatever happens, up to the first reap that clears too much. */
  ghost predicate Kept(w: World, st: State) {
    Keyed(st.started) && Timely(w, st) && Remembered(w, st) && CooldownKept(st.log)
  }

  ghost predicate Inv(w: World, st: State) { Kept(w, st) && SettledBy(st, Now(w, st)) }

  /** Looking again only lets time pass. */
  lemma LookKeeps(w: World, st: State)
    requires Sane(w) && Kept(w, st)
    ensures Kept(w, st.(looks := st.looks + 1)) && Now(w, st) <= Now(w, st.(looks := st.looks + 1))
    ensures Inv(w, st) ==> Inv(w, st.(looks := st.looks + 1))
  {
    assert w.clock(st.looks) <= w.clock(st.looks + 1);
  }

  lemma PopKeepsInv(w: World, st: State, code: Code)
    requires Inv(w, st)
    ensures Inv(w, st.(started := Pop(st.started, code)))
  {
    PopKeyed(st.started, code);
  }

  lemma MarkFailKeeps(w: World, st: State, code: Code)
    requires Sane(w) && Kept(w, st)
    ensures Kept(w, FailMarked(w, st, code)) && Now(w, st) <= Now(w, FailMarked(w, st, code))
  {
    var r, f := FailMarked(w, st, code), Failed(code, Now(w, st));
    assert w.clock(st.looks) <= w.clock(st.looks + 1);
    assert forall g :: g in r.log <==> g in st.log || g == f;
    assert CooldownKept(r.log) by {
      forall i, j | 0 <= i < j < |r.log| && r.log[j].Started? ensures r.log[i] == st.log[i] && r.log[j] == st.log[j] {
      }
    }
    hide CooldownKept;
    forall g | g in r.log && g.Failed?
      ensures CooldownUntil(r.fails, g.code) >= g.at + FAIL_COOLDOWN_S || Now(w, r) >= g.at + FAIL_COOLDOWN_S
    {
      if g in st.log {
        assert g.at <= Now(w, st);
      }
    }
  }

  lemma MarkFailKeepsInv(w: World, st: State, code: Code)
    requires Sane(w) && Inv(w, st) && !HasEntry(st.started, code)
    ensures Inv(w, FailMarked(w, st, code))
  {
    MarkFailKeeps(w, st, code);
    assert forall g :: g in FailMarked(w, st, code).log <==> g in st.log || g == Failed(code, Now(w, st));
    hide Kept;
  }

  lemma MarkOkKeepsInv(w: World, st: State, code: Code)
    requires Inv(w, st)
    requires forall f :: f in st.log && f.Failed? && f.code == code ==> f.at + FAIL_COOLDOWN_S <= Now(w, st)
    ensures Inv(w, OkMarked(st, code))
  {
  }

  lemma EntryOutlivesFailures(w: World, st: State, code: Code)
    requires Inv(w, st) && HasEntry(st.started, code)
    ensures forall f :: f in st.log && f.Failed? && f.code == code ==> f.at + FAIL_COOLDOWN_S <= Now(w, st)
  {
    var e :| e in st.started && e.code == code;
  }

  lemma PoppedKeepsInv(w: World, st: State, code: Code)
    requires Sane(w) && Inv(w, st) && HasEntry(st.started, code)
    ensures Inv(w, Popped(st, code)) && !HasEntry(Popped(st, code).started, code)
    ensures forall f :: f in st.log && f.Failed? && f.code == code ==>
        f.at + FAIL_COOLDOWN_S <= Now(w, Popped(st, code))
  {
    EntryOutlivesFailures(w, st, code);
    LookKeeps(w, st);
    PopKeepsInv(w, st.(looks := st.looks + 1), code);
    assert w.clock(st.looks) <= w.clock(st.looks + 1);
  }

  lemma ReapCodeKeepsInv(w: World, st: State, code: Code)
    requires Sane(w) && Inv(w, st) && HasEntry(st.started, code)
    ensures Inv(w, ReapCode(w, st, code))
  {
    PoppedKeepsInv(w, st, code);
    var after := w.feed(st.looks, code);
    if after > Before(st.started, code) || (code in w.enough && after >= w.enough[code]) {
      MarkOkKeepsInv(w, Popped(st, code), code);
    } else {
      MarkFailKeepsInv(w, Popped(st, code), code);
    }
  }

  lemma {:induction false} ReapCodesKeepsInv(w: World, st: State, codes: seq<Code>)
    requires Sane(w) && Inv(w, st) && forall i, j :: 0 <= i < j < |codes| ==> codes[i] != codes[j]
    requires forall c :: c in codes ==> HasEntry(st.started, c)
    ensures Inv(w, ReapCodes(w, st, codes))
    decreases |codes|
  {
    if codes != [] {
      var c, next := codes[0], ReapCode(w, st, codes[0]);
      assert c in codes;
      ReapCodeKeepsInv(w, st, c);
      forall d | d in codes[1..] ensures HasEntry(next.started, d) {
        assert d in codes && HasEntry(st.started, d) && d != c;
        var e :| e in st.started && e.code == d;
        assert e in next.started;
      }
      ReapCodesKeepsInv(w, next, codes[1..]);
    }
  }

  lemma ReapKeepsInv(w: World, st: State)
    requires Sane(w) && Inv(w, st)
    ensures Inv(w, Reap(w, st))
  {
    LookKeeps(w, st);
    GoneDistinct(st.started, w.running(st.looks));
    ReapCodesKeepsInv(w, st.(looks := st.looks + 1), Gone(st.started, w.running(st.looks)));
  }

  // ---------- what filling can break ----------

  lemma SuffixSplit(a: seq<Event>, b: seq<Event>, c: seq<Event>)
    requires a <= b <= c
    ensures c[|a|..] == b[|a|..] + c[|b|..]
  {
  }

  lemma TurnAppends(w: World, st: State, code: Code, running: set<Code>)
    ensures var next := Turn(w, st, code, running);
      && st.log <= next.log
      && (forall f :: f in next.log[|st.log|..] ==> f.code == code)
      && (forall e: Entry :: e.code != code ==> (e in st.started <==> e in next.started))
  {
  }

  /** Filling only appends to the log, and leaves alone the entries of codes not in the queue. */
  lemma {:induction false} FillAppends(w: World, st: State, queue: seq<Code>, running: set<Code>, slots: nat)
    ensures var r := FillFrom(w, st, queue, running, slots);
      && st.log <= r.log && st.looks <= r.looks
      && (forall f :: f in r.log[|st.log|..] ==> f.code in queue)
      && (forall e :: e in st.started && e.code !in queue ==> e in r.started)
    decreases |queue|
  {
    if !(queue == [] || slots == 0 || w.stop(st.looks)) {
      var c, next := queue[0], Turn(w, st, queue[0], running);
      var left := if Takes(w, st, c, running) then slots - 1 else slots;
      TurnAppends(w, st, c, running);
      assert st.looks <= next.looks;
      var r := FillFrom(w, next, queue[1..], running, left);
      assert r == FillFrom(w, st, queue, running, slots);
      hide Turn, Takes, FillFrom;
      FillAppends(w, next, queue[1..], running, left);
      SuffixSplit(st.log, next.log, r.log);
      assert forall d :: d in queue <==> d == c || d in queue[1..];
    }
  }

  /** Starting a code whose stored cool-down is over. */
  lemma StartKeeps(w: World, st: State, entry: Entry, t: int)
    requires Sane(w) && Kept(w, st) && CooldownUntil(st.fails, entry.code) <= Now(w, st) <= t
    ensures var r := st.(started := Put(st.started, entry), log := st.log + [Started(entry.code, Now(w, st))]);
      Kept(w, r) && (SettledBy(r, t) <==> SettledBy(st, t))
  {
    PutKeyed(st.started, entry);
    var r := st.(started := Put(st.started, entry), log := st.log + [Started(entry.code, Now(w, st))]);
    assert forall g :: g in r.log <==> g in st.log || g == Started(entry.code, Now(w, st));
    forall f | f in st.log && f.Failed? && f.code == entry.code ensures f.at + FAIL_COOLDOWN_S <= Now(w, st) {
    }
    assert CooldownKept(r.log) by {
      forall i, j | 0 <= i < j < |r.log| && r.log[i].Failed? && r.log[j].Started? && r.log[i].code == r.log[j].code
        ensures r.log[j].at >= r.log[i].at + FAIL_COOLDOWN_S
      {
        assert r.log[i] == st.log[i] && st.log[i] in st.log;
      }
    }
    hide CooldownKept;
  }

  /** In this turn the launch of a code that has an entry fails, and its cool-down lasts past `t`. */
  predicate FailsOnEntry(w: World, st: State, code: Code, running: set<Code>, t: int) {
    Launches(w, st, code, running) && !w.starts(st.looks) && HasEntry(st.started, code)
    && w.clock(st.looks + 1) + FAIL_COOLDOWN_S > t
  }

  lemma MarkFailSettles(w: World, st: State, code: Code, t: int)
    ensures SettledBy(FailMarked(w, st, code), t) <==>
      SettledBy(st, t) && (HasEntry(st.started, code) ==> Now(w, st) + FAIL_COOLDOWN_S <= t)
  {
    var r, f := FailMarked(w, st, code), Failed(code, Now(w, st));
    assert f == r.log[|st.log|];
    assert forall g :: g in r.log <==> g in st.log || g == f;
    if SettledBy(r, t) && HasEntry(st.started, code) {
      var e :| e in st.started && e.code == code;
      assert e in r.started && f in r.log;
    }
  }

  lemma TurnKeeps(w: World, st: State, code: Code, running: set<Code>, t: int)
    requires Sane(w) && Kept(w, st) && Now(w, Turn(w, st, code, running)) <= t
    ensures var next := Turn(w, st, code, running);
      Kept(w, next) && (SettledBy(next, t) <==> SettledBy(st, t) && !FailsOnEntry(w, st, code, running, t))
  {
    LookKeeps(w, st);
    var looked := st.(looks := st.looks + 1);
    if Launches(w, st, code, running) {
      hide Kept;
      if w.starts(st.looks) {
        StartKeeps(w, looked, Entry(code, w.feed(st.looks, code), Now(w, looked)), t);
      } else {
        MarkFailKeeps(w, looked, code);
        MarkFailSettles(w, looked, code, t);
      }
      hide SettledBy;
    }
  }

  /** No turn of the fill fails on a code that has an entry, with a cool-down past `t`. */
  predicate SteadyFrom(w: World, st: State, queue: seq<Code>, running: set<Code>, slots: nat, t: int)
    decreases |queue|
  {
    if queue == [] || slots == 0 || w.stop(st.looks) then true
    else
      !FailsOnEntry(w, st, queue[0], running, t)
      && SteadyFrom(w, Turn(w, st, queue[0], running), queue[1..], running,
                    if Takes(w, st, queue[0], running) then slots - 1 else slots, t)
  }

  lemma ClockPasses(w: World, i: nat, j: nat)
    requires Sane(w) && i <= j
    ensures w.clock(i) <= w.clock(j)
  {
  }

  lemma {:induction false} FillFromExact(w: World, st: State, queue: seq<Code>, running: set<Code>, slots: nat, t: int)
    requires Sane(w) && Kept(w, st) && Now(w, FillFrom(w, st, queue, running, slots)) <= t
    ensures var r := FillFrom(w, st, queue, running, slots);
      Kept(w, r) && (SettledBy(r, t) <==> SettledBy(st, t) && SteadyFrom(w, st, queue, running, slots, t))
    decreases |queue|
  {
    if !(queue == [] || slots == 0 || w.stop(st.looks)) {
      var c, rest, next := queue[0], queue[1..], Turn(w, st, queue[0], running);
      var left := if Takes(w, st, c, running) then slots - 1 else slots;
      var r := FillFrom(w, next, rest, running, left);
      assert r == FillFrom(w, st, queue, running, slots);
      assert SteadyFrom(w, st, queue, running, slots, t) <==>
        !FailsOnEntry(w, st, c, running, t) && SteadyFrom(w, next, rest, running, left, t);
      FillAppends(w, next, rest, running, left);
      ClockPasses(w, next.looks, r.looks);
      hide Turn, Takes, FillFrom, Kept, SettledBy, FailsOnEntry, SteadyFrom;
      TurnKeeps(w, st, c, running, t);
      FillFromExact(w, next, rest, running, left, t);
    }
  }

  /** In this cycle no launch fails on a code that still has its entry, with a cool-down that
      lasts past the end of the cycle. */
  predicate Steady(w: World, st: State) {
    var reaped := Reap(w, st);
    w.completeOnly ||
      var running := w.running(reaped.looks);
      SteadyFrom(w, reaped.(looks := reaped.looks + 1), w.queue, running, Max(0, w.slots - |running|),
          Now(w, Cycle(w, st)))
  }

  lemma SettledLater(w: World, st: State, t: int)
    requires Sane(w) && Inv(w, st) && w.clock(st.looks) <= t
    ensures Kept(w, st.(looks := st.looks + 1)) && SettledBy(st.(looks := st.looks + 1), t)
  {
    LookKeeps(w, st);
    hide Kept;
  }

  lemma KeptAndSettled(w: World, st: State)
    ensures Inv(w, st) <==> Kept(w, st) && SettledBy(st, w.clock(st.looks))
  {
    hide Kept, SettledBy;
  }

  lemma FillExact(w: World, st: State)
    requires Sane(w) && Inv(w, st)
    ensures Kept(w, Fill(w, st))
    ensures var running, r := w.running(st.looks), Fill(w, st);
      Inv(w, r) <==> (w.completeOnly ||
        SteadyFrom(w, st.(looks := st.looks + 1), w.queue, running, Max(0, w.slots - |running|), Now(w, r)))
  {
    if w.completeOnly {
      hide Kept, SettledBy;
    } else {
      var looked, running := st.(looks := st.looks + 1), w.running(st.looks);
      var slots := Max(0, w.slots - |running|);
      var r := FillFrom(w, looked, w.queue, running, slots);
      assert r == Fill(w, st) && Now(w, r) == w.clock(r.looks);
      hide *;
      FillAppends(w, looked, w.queue, running, slots);
      ClockPasses(w, st.looks, r.looks);
      SettledLater(w, st, w.clock(r.looks));
      FillFromExact(w, looked, w.queue, running, slots, w.clock(r.looks));
      KeptAndSettled(w, r);
    }
  }

  /** A cycle keeps the invariant if and only if it is steady; what was promised so far holds anyway. */
  lemma CycleExact(w: World, st: State)
    requires Sane(w) && Inv(w, st)
    ensures Inv(w, Cycle(w, st)) <==> Steady(w, st)
    ensures Kept(w, Cycle(w, st))
  {
    hide Inv, Reap, Fill, SteadyFrom, Kept;
    ReapKeepsInv(w, st);
    FillExact(w, Reap(w, st));
  }

  lemma {:induction false} SteadyRunKeepsInv(w: World, st: State, n: nat)
    requires Sane(w) && Inv(w, st) && forall k :: 0 <= k < n ==> Steady(w, Run(w, st, k))
    ensures Inv(w, Run(w, st, n))
  {
    hide Inv, Steady, Cycle, Sane;
    if n > 0 {
      assert Run(w, st, n) == Cycle(w, Run(w, st, n - 1));
      hide Run;
      SteadyRunKeepsInv(w, st, n - 1);
      CycleExact(w, Run(w, st, n - 1));
    }
  }

  /** A scheduler that has done nothing yet; entries of an earlier process may be there. */
  ghost predicate Begins(st: State) { st.log == [] && Keyed(st.started) }

  /** In every run whose cycles before the last are steady, a code that stalled or failed to
      start at time t is not started before t + FAIL_COOLDOWN_S. */
  lemma CooldownIsKept(w: World, st: State, n: nat)
    requires Sane(w) && Begins(st) && forall k :: 0 <= k < n - 1 ==> Steady(w, Run(w, st, k))
    ensures CooldownKept(Run(w, st, n).log)
  {
    BeginsWell(w, st);
    if n > 0 {
      var before := Run(w, st, n - 1);
      assert Run(w, st, n) == Cycle(w, before);
      hide *;
      SteadyRunKeepsInv(w, st, n - 1);
      CycleExact(w, before);
      KeptMeans(w, Cycle(w, before));
    } else {
      assert Run(w, st, 0).log == [];
    }
  }

  lemma BeginsWell(w: World, st: State)
    requires Begins(st)
    ensures Inv(w, st)
  {
  }

  lemma KeptMeans(w: World, st: State)
    requires Kept(w, st)
    ensures CooldownKept(st.log)
  {
  }

  // ---------- looks that agree ----------

  /** Every kept code is still in the process list when the slots are filled. */
  ghost predicate SnapshotsAgree(w: World, st: State) {
    var reaped := Reap(w, st);
    forall e :: e in reaped.started ==> e.code in w.running(reaped.looks)
  }

  /** The same guard, read off what the fill logs. */
  ghost predicate LogsFailureOnEntry(st: State, log: seq<Event>, t: int) {
    exists f :: f in log && f.Failed? && HasEntry(st.started, f.code) && f.at + FAIL_COOLDOWN_S > t
  }

  lemma TurnLogs(w: World, st: State, code: Code, running: set<Code>, t: int)
    ensures var next := Turn(w, st, code, running);
      && |st.log| <= |next.log|
      && (LogsFailureOnEntry(st, next.log[|st.log|..], t) <==> FailsOnEntry(w, st, code, running, t))
  {
    var next := Turn(w, st, code, running);
    if Launches(w, st, code, running) {
      var looked := st.(looks := st.looks + 1);
      assert next.log[|st.log|..] ==
        [if w.starts(st.looks) then Started(code, Now(w, looked)) else Failed(code, Now(w, looked))];
      assert next.log[|st.log|] in next.log[|st.log|..];
    } else {
      assert next.log[|st.log|..] == [];
    }
  }

  /** A turn for `code` changes no entry the rest of the queue can fail on. */
  lemma SameEntries(st: State, next: State, code: Code, log: seq<Event>, t: int)
    requires forall e: Entry :: e.code != code ==> (e in st.started <==> e in next.started)
    requires forall f :: f in log ==> f.code != code
    ensures LogsFailureOnEntry(st, log, t) <==> LogsFailureOnEntry(next, log, t)
  {
    forall f | f in log ensures HasEntry(st.started, f.code) <==> HasEntry(next.started, f.code) {
    }
  }

  lemma LogsConcat(st: State, a: seq<Event>, b: seq<Event>, t: int)
    ensures LogsFailureOnEntry(st, a + b, t) <==> LogsFailureOnEntry(st, a, t) || LogsFailureOnEntry(st, b, t)
  {
    assert forall f :: f in a + b <==> f in a || f in b;
  }

  /** The fill is steady exactly if it logs no such failure. */
  lemma {:induction false} SteadyInLog(w: World, st: State, queue: seq<Code>, running: set<Code>, slots: nat, t: int)
    requires forall i, j :: 0 <= i < j < |queue| ==> queue[i] != queue[j]
    ensures var r := FillFrom(w, st, queue, running, slots);
      && st.log <= r.log
      && (SteadyFrom(w, st, queue, running, slots, t) <==> !LogsFailureOnEntry(st, r.log[|st.log|..], t))
    decreases |queue|
  {
    if queue == [] || slots == 0 || w.stop(st.looks) {
      assert st.log[|st.log|..] == [];
    } else {
      var c, rest, next := queue[0], queue[1..], Turn(w, st, queue[0], running);
      var left := if Takes(w, st, c, running) then slots - 1 else slots;
      var r := FillFrom(w, next, rest, running, left);
      assert r == FillFrom(w, st, queue, running, slots);
      assert SteadyFrom(w, st, queue, running, slots, t) <==>
        !FailsOnEntry(w, st, c, running, t) && SteadyFrom(w, next, rest, running, left, t);
      TurnAppends(w, st, c, running);
      TurnLogs(w, st, c, running, t);
      FillAppends(w, next, rest, running, left);
      hide Turn, Takes, FillFrom, SteadyFrom, FailsOnEntry, LogsFailureOnEntry;
      SuffixSplit(st.log, next.log, r.log);
      LogsConcat(st, next.log[|st.log|..], r.log[|next.log|..], t);
      SteadyInLog(w, next, rest, running, left, t);
      SameEntries(st, next, c, r.log[|next.log|..], t);
    }
  }

  /** Only codes outside the process list are launched. */
  lemma {:induction false} LaunchedNotRunning(w: World, st: State, queue: seq<Code>, running: set<Code>, slots: nat)
    ensures var r := FillFrom(w, st, queue, running, slots);
      st.log <= r.log && forall f :: f in r.log[|st.log|..] ==> f.code !in running
    decreases |queue|
  {
    FillAppends(w, st, queue, running, slots);
    if !(queue == [] || slots == 0 || w.stop(st.looks)) {
      var c, next := queue[0], Turn(w, st, queue[0], running);
      var left := if Takes(w, st, c, running) then slots - 1 else slots;
      LaunchedNotRunning(w, next, queue[1..], running, left);
      var r := FillFrom(w, next, queue[1..], running, left);
      SuffixSplit(st.log, next.log, r.log);
    }
  }

  lemma AgreeingIsSteady(w: World, st: State)
    requires Sane(w) && SnapshotsAgree(w, st)
    ensures Steady(w, st)
  {
    if !w.completeOnly {
      var reaped := Reap(w, st);
      var looked, running := reaped.(looks := reaped.looks + 1), w.running(reaped.looks);
      LaunchedNotRunning(w, looked, w.queue, running, Max(0, w.slots - |running|));
      hide FillFrom, SteadyFrom, Reap;
      SteadyInLog(w, looked, w.queue, running, Max(0, w.slots - |running|), Now(w, Cycle(w, st)));
    }
  }

  // ---------- slots ----------

  function StartsOf(log: seq<Event>): set<Code> { set f | f in log && f.Started? :: f.code }

  lemma StartsOfConcat(a: seq<Event>, b: seq<Event>)
    ensures StartsOf(a + b) == StartsOf(a) + StartsOf(b)
  {
    assert forall f :: f in a + b <==> f in a || f in b;
  }

  lemma {:induction false} FillFromSlots(w: World, st: State, queue: seq<Code>, running: set<Code>, slots: nat)
    ensures var r := FillFrom(w, st, queue, running, slots);
      st.log <= r.log && |StartsOf(r.log[|st.log|..])| <= slots
    decreases |queue|
  {
    FillAppends(w, st, queue, running, slots);
    if queue == [] || slots == 0 || w.stop(st.looks) {
      assert StartsOf([]) == {};
      assert st.log[|st.log|..] == [];
    } else {
      var c, next := queue[0], Turn(w, st, queue[0], running);
      var left := if Takes(w, st, c, running) then slots - 1 else slots;
      FillFromSlots(w, next, queue[1..], running, left);
      var r, news := FillFrom(w, next, queue[1..], running, left), next.log[|st.log|..];
      assert r == FillFrom(w, st, queue, running, slots);
      TurnAppends(w, st, c, running);
      hide FillFrom, Turn, StartsOf;
      SuffixSplit(st.log, next.log, r.log);
      StartsOfConcat(news, r.log[|next.log|..]);
      TurnStarts(w, st, c, running);
    }
  }

  lemma TurnStarts(w: World, st: State, code: Code, running: set<Code>)
    ensures var next := Turn(w, st, code, running);
      && |st.log| <= |next.log|
      && StartsOf(next.log[|st.log|..]) == if Takes(w, st, code, running) then {code} else {}
  {
    var next := Turn(w, st, code, running);
    if Launches(w, st, code, running) {
      assert next.log[|st.log|..] == [next.log[|st.log|]];
    } else {
      assert next.log[|st.log|..] == [];
    }
  }

  /** A fill starts no running code, and never takes the running set past the larger of its
      size and the number of slots. */
  lemma FillRespectsSlots(w: World, st: State)
    ensures var r, running := Fill(w, st), w.running(st.looks);
      && st.log <= r.log
      && StartsOf(r.log[|st.log|..]) !! running
      && |running + StartsOf(r.log[|st.log|..])| <= Max(|running|, w.slots)
  {
    var running := w.running(st.looks);
    if w.completeOnly {
      assert st.log[|st.log|..] == [] && running + StartsOf([]) == running;
    } else {
      var looked, slots := st.(looks := st.looks + 1), Max(0, w.slots - |running|);
      FillFromSlots(w, looked, w.queue, running, slots);
      LaunchedNotRunning(w, looked, w.queue, running, slots);
    }
  }

  // ---------- what a reap and a fill achieve ----------

  /** Reaping one code settles it: its entry goes, and it is either cleared or put into the
      cool-down with a logged failure, the latter exactly if its feed has neither grown since
      its start nor reached its threshold. Nothing else changes. */
  lemma ReapCodeSettles(w: World, st: State, code: Code)
    ensures var r, n := ReapCode(w, st, code), w.feed(st.looks, code);
      && r.started == Pop(st.started, code)
      && Settled(st, r, code)
      && (forall e :: Keyed(st.started) && e in st.started && e.code == code ==>
            (r.log != st.log <==> n <= e.before && (code in w.enough ==> n < w.enough[code])))
      && (forall c :: c != code ==> (c in r.fails <==> c in st.fails) && (c in st.fails ==> r.fails[c] == st.fails[c]))
  {
    var r := ReapCode(w, st, code);
    if r.log != st.log {
      assert Failing(st, r, code, Now(w, Popped(st, code)));
    }
    forall e | Keyed(st.started) && e in st.started && e.code == code ensures Before(st.started, code) == e.before {
      BeforeIs(st.started, e);
    }
  }

  /** One more failure, at time `t`. */
  ghost predicate Failing(st: State, r: State, code: Code, t: int) {
    && r.log == st.log + [Failed(code, t)] && code in r.fails
    && r.fails[code] == Failure((if code in st.fails then st.fails[code].count else 0) + 1, t + FAIL_COOLDOWN_S)
  }

  /** Cleared without a failure, or one failure that starts a cool-down. */
  ghost predicate Settled(st: State, r: State, code: Code) {
    || (r.log == st.log && (code in r.fails <==> code in st.fails) &&
        (code in r.fails ==> r.fails[code] == Failure(0, 0)))
    || exists t :: Failing(st, r, code, t)
  }

  /** The cool-down of a code comes from one of these failures. */
  ghost predicate InCooldown(st: State, log: seq<Event>, code: Code) {
    exists f :: f in log && f.Failed? && f.code == code && CooldownUntil(st.fails, code) == f.at + FAIL_COOLDOWN_S
  }

  /** The end of a reap, seen from one code that was not reaped. */
  lemma {:induction false} ReapCodesSpare(w: World, st: State, codes: seq<Code>, code: Code)
    requires code !in codes
    ensures var r := ReapCodes(w, st, codes);
      && (code in r.fails <==> code in st.fails) && (code in st.fails ==> r.fails[code] == st.fails[code])
      && st.log <= r.log && (forall f :: f in r.log[|st.log|..] ==> f.code != code)
      && (forall e: Entry :: e.code == code ==> (e in r.started <==> e in st.started))
    decreases |codes|
  {
    if codes != [] {
      var next := ReapCode(w, st, codes[0]);
      ReapCodeSettles(w, st, codes[0]);
      assert st.log <= next.log && forall f :: f in next.log[|st.log|..] ==> f.code == codes[0];
      hide ReapCode;
      ReapCodesSpare(w, next, codes[1..], code);
      SuffixSplit(st.log, next.log, ReapCodes(w, st, codes).log);
    } else {
      assert st.log[|st.log|..] == [];
    }
  }

  /** The end of a reap, seen from one code that was: its entry is gone, and it is either
      cleared or in the cool-down of a failure logged by this reap. */
  lemma {:induction false} ReapCodesSettle(w: World, st: State, codes: seq<Code>, code: Code)
    requires code in codes && forall i, j :: 0 <= i < j < |codes| ==> codes[i] != codes[j]
    ensures var r := ReapCodes(w, st, codes);
      && !HasEntry(r.started, code) && st.log <= r.log
      && (CooldownUntil(r.fails, code) == 0 || InCooldown(r, r.log[|st.log|..], code))
    decreases |codes|
  {
    var next := ReapCode(w, st, codes[0]);
    ReapCodeSettles(w, st, codes[0]);
    assert st.log <= next.log && forall f :: f in next.log[|st.log|..] ==> f.code == codes[0];
    var r := ReapCodes(w, next, codes[1..]);
    assert r == ReapCodes(w, st, codes);
    hide ReapCode, ReapCodes;
    if codes[0] == code {
      assert code !in codes[1..];
      ReapCodesSpare(w, next, codes[1..], code);
      SuffixSplit(st.log, next.log, r.log);
      if next.log != st.log {
        var f := next.log[|st.log|];
        assert f in next.log[|st.log|..];
      }
    } else {
      ReapCodesSettle(w, next, codes[1..], code);
      SuffixSplit(st.log, next.log, r.log);
    }
  }

  /** A reap keeps the entries of exactly the codes in the process list, and settles every
      other code that had one. */
  lemma ReapSettles(w: World, st: State, code: Code)
    requires Keyed(st.started)
    ensures var r, running := Reap(w, st), w.running(st.looks);
      && st.log <= r.log
      && (code in running ==> forall e: Entry :: e.code == code ==> (e in r.started <==> e in st.started))
      && (code !in running ==> !HasEntry(r.started, code))
      && (code !in running && HasEntry(st.started, code) ==>
            CooldownUntil(r.fails, code) == 0 || InCooldown(r, r.log[|st.log|..], code))
      && (code in running || !HasEntry(st.started, code) ==>
          CooldownUntil(r.fails, code) == CooldownUntil(st.fails, code))
  {
    var codes, looked := Gone(st.started, w.running(st.looks)), st.(looks := st.looks + 1);
    GoneDistinct(st.started, w.running(st.looks));
    if code in codes {
      ReapCodesSettle(w, looked, codes, code);
    } else {
      ReapCodesSpare(w, looked, codes, code);
    }
    hide ReapCodes, Gone;
  }

  /** From look `k` on nothing changes, launches succeed and no stop is asked for. */
  ghost predicate Quiet(w: World, k: nat) {
    && (forall j: nat :: j >= k ==> w.clock(j) == w.clock(k))
    && (forall j: nat :: j >= k ==> w.starts(j) && !w.stop(j))
    && (forall j: nat, c: Code :: j >= k ==> w.feed(j, c) == w.feed(k, c))
  }

  lemma QuietLater(w: World, k: nat, m: nat)
    requires Quiet(w, k) && m >= k
    ensures Quiet(w, m)
  {
    assert w.clock(m) == w.clock(k);
    forall j: nat, c: Code | j >= m ensures w.feed(j, c) == w.feed(m, c) {
      assert w.feed(j, c) == w.feed(k, c) == w.feed(m, c);
    }
  }

  lemma LaunchesStay(w: World, st: State, next: State, code: Code, running: set<Code>)
    requires Quiet(w, st.looks) && st.looks <= next.looks && next.fails == st.fails
    ensures Launches(w, next, code, running) <==> Launches(w, st, code, running)
  {
    assert w.clock(next.looks) == w.clock(st.looks) && w.feed(next.looks, code) == w.feed(st.looks, code);
  }

  /** The codes that could be launched now, in queue order. */
  function Eligible(w: World, st: State, queue: seq<Code>, running: set<Code>): seq<Code> {
    if queue == [] then []
    else (if Launches(w, st, queue[0], running) then [queue[0]] else []) + Eligible(w, st, queue[1..], running)
  }

  function CodesOf(log: seq<Event>): seq<Code> {
    seq(|log|, i requires 0 <= i < |log| => log[i].code)
  }

  lemma {:induction false} EligibleStays(w: World, st: State, next: State, queue: seq<Code>, running: set<Code>)
    requires Quiet(w, st.looks) && st.looks <= next.looks && next.fails == st.fails
    ensures Eligible(w, next, queue, running) == Eligible(w, st, queue, running)
  {
    if queue != [] {
      EligibleStays(w, st, next, queue[1..], running);
      LaunchesStay(w, st, next, queue[0], running);
      hide Launches, Quiet;
    }
  }

  lemma CodesOfAppend(a: seq<Event>, b: seq<Event>)
    ensures CodesOf(a + b) == CodesOf(a) + CodesOf(b)
  {
  }

  /** In a quiet world the fill starts the first eligible codes in queue order, as many as there
      are free slots. */
  lemma {:induction false} FillIsGreedy(w: World, st: State, queue: seq<Code>, running: set<Code>, slots: nat)
    requires Quiet(w, st.looks)
    ensures var r, codes := FillFrom(w, st, queue, running, slots), Eligible(w, st, queue, running);
      && st.log <= r.log && CodesOf(r.log[|st.log|..]) == codes[..Min(slots, |codes|)]
      && (forall f :: f in r.log[|st.log|..] ==> f.Started?)
    decreases |queue|
  {
    if queue == [] || slots == 0 {
      assert st.log[|st.log|..] == [];
    } else {
      var next := Turn(w, st, queue[0], running);
      assert next.looks >= st.looks && next.fails == st.fails;
      QuietLater(w, st.looks, next.looks);
      var left := if Takes(w, st, queue[0], running) then slots - 1 else slots;
      GreedyTurn(w, st, queue[0], running);
      FillIsGreedy(w, next, queue[1..], running, left);
      EligibleStays(w, st, next, queue[1..], running);
      var r := FillFrom(w, next, queue[1..], running, left);
      assert r == FillFrom(w, st, queue, running, slots);
      hide FillFrom, Turn, CodesOf, Launches, Takes, Quiet;
      SuffixSplit(st.log, next.log, r.log);
      CodesOfAppend(next.log[|st.log|..], r.log[|next.log|..]);
    }
  }

  lemma GreedyTurn(w: World, st: State, code: Code, running: set<Code>)
    requires Quiet(w, st.looks)
    ensures var next := Turn(w, st, code, running);
      && st.log <= next.log && (Takes(w, st, code, running) <==> Launches(w, st, code, running))
      && CodesOf(next.log[|st.log|..]) == (if Launches(w, st, code, running) then [code] else [])
      && forall f :: f in next.log[|st.log|..] ==> f.Started?
  {
    var next := Turn(w, st, code, running);
    if Launches(w, st, code, running) {
      assert next.log[|st.log|..] == [next.log[|st.log|]];
    } else {
      assert next.log[|st.log|..] == [];
    }
  }

  // ---------- what two looks can break ----------

  const N11 := Code("n11")

  /** One code whose crawl is in the process list at the first look only, a launch that fails
      while its entry is still there, and a feed that has grown by the next reap. */
  function TornWorld(): World {
    World(k => 30 * k, k => if k == 1 then {N11} else {}, (k, c) => if k <= 5 then 3 else 9,
          k => k != 3, k => false, [N11], map[], 4, false)
  }

  /** The entry of a crawl launched before. */
  function TornStart(): State { State(1, map[], [Entry(N11, 3, 0)], []) }

  lemma TornReap()
    ensures Reap(TornWorld(), TornStart()) == State(2, map[], [Entry(N11, 3, 0)], [])
  {
    assert Gone(TornStart().started[1..], {N11}) == [];
  }

  lemma TornFill()
    ensures Fill(TornWorld(), State(2, map[], [Entry(N11, 3, 0)], [])) ==
            State(5, map[N11 := Failure(1, 1920)], [Entry(N11, 3, 0)], [Failed(N11, 120)])
  {
    var w, st := TornWorld(), State(3, map[], [Entry(N11, 3, 0)], []);
    assert w.queue[1..] == [];
    assert Turn(w, st, N11, {}) == FailMarked(w, st.(looks := 4), N11);
    assert FillFrom(w, st, [N11], {}, 4) == Turn(w, st, N11, {});
  }

  lemma TornReapAgain()
    ensures Reap(TornWorld(), State(5, map[N11 := Failure(1, 1920)], [Entry(N11, 3, 0)], [Failed(N11, 120)])) ==
            State(7, map[N11 := Failure(0, 0)], [], [Failed(N11, 120)])
  {
    var w, st := TornWorld(), State(5, map[N11 := Failure(1, 1920)], [Entry(N11, 3, 0)], [Failed(N11, 120)]);
    var e, looked := Entry(N11, 3, 0), st.(looks := 6);
    assert st.started == [e] && [e][0] == e && [e][1..] == [];
    assert Gone([e], {}) == [N11];
    assert Pop([e], N11) == [];
    assert Before([e], N11) == 3;
    assert ReapCode(w, looked, N11) == State(7, map[N11 := Failure(0, 0)], [], [Failed(N11, 120)]);
    assert [N11][1..] == [];
    assert ReapCodes(w, looked, [N11]) == ReapCodes(w, ReapCode(w, looked, N11), []);
    assert w.running(5) == {};
  }

  lemma TornFillAgain()
    ensures Fill(TornWorld(), State(7, map[N11 := Failure(0, 0)], [], [Failed(N11, 120)])).log ==
            [Failed(N11, 120), Started(N11, 270)]
  {
    var w, st := TornWorld(), State(8, map[N11 := Failure(0, 0)], [], [Failed(N11, 120)]);
    assert w.queue[1..] == [];
    assert FillFrom(w, st, [N11], {}, 4) == Turn(w, st, N11, {});
  }

  lemma TornRun()
    ensures Run(TornWorld(), TornStart(), 2).log == [Failed(N11, 120), Started(N11, 270)]
  {
    var w, st := TornWorld(), TornStart();
    assert Run(w, st, 2) == Cycle(w, Cycle(w, st)) by {
      hide Cycle;
      assert Run(w, st, 1) == Cycle(w, Run(w, st, 0));
    }
    hide Reap, Fill, Run;
    TornReap();
    TornFill();
    TornReapAgain();
    TornFillAgain();
  }

  lemma TornUnsteady()
    ensures !Steady(TornWorld(), TornStart())
  {
    TornReap();
    TornFill();
    hide Reap, Fill;
    var f, e := Failed(N11, 120), Entry(N11, 3, 0);
    assert e in [e] && f in [f][0..];
  }

  /** With two looks per cycle the cool-down can be lost: the code fails at 120 and is started
      at 270, because its old entry makes the next reap clear the cool-down. */
  lemma CooldownCanBeLost()
    ensures Sane(TornWorld()) && Inv(TornWorld(), TornStart())
    ensures !Steady(TornWorld(), TornStart())
    ensures !CooldownKept(Run(TornWorld(), TornStart(), 2).log)
  {
    TornRun();
    TornUnsteady();
    hide Run, Steady;
    var log := Run(TornWorld(), TornStart(), 2).log;
    assert log[0].Failed? && log[1].Started? && log[0].code == log[1].code;
  }

  // ---------- the script ----------

  lemma FillFromUnfolds(w: World, st: State, queue: seq<Code>, running: set<Code>, slots: nat)
    ensures FillFrom(w, st, queue, running, slots) ==
      if queue == [] || slots == 0 || w.stop(st.looks) then st
      else FillFrom(w, Turn(w, st, queue[0], running), queue[1..], running,
                    if Takes(w, st, queue[0], running) then slots - 1 else slots)
  {
  }

  class Ops {
    const w: World
    var looks: nat
    var fails: map<Code, Failure>
    var started: seq<Entry>
    ghost var log: seq<Event>

    ghost function St(): State
      reads this
    {
      State(looks, fails, started, log)
    }

    constructor (w: World, fails: map<Code, Failure>, started: seq<Entry>)
      ensures this.w == w && St() == State(0, fails, started, [])
    {
      this.w, this.looks, this.fails, this.started, this.log := w, 0, fails, started, [];
    }

    method MarkFail(code: Code)
      modifies this
      ensures St() == FailMarked(w, old(St()), code)
    {
      var count := if code in fails then fails[code].count else 0;
      var now := w.clock(looks);
      log := log + [Failed(code, now)];
      looks := looks + 1;
      fails := fails[code := Failure(count + 1, now + FAIL_COOLDOWN_S)];
    }

    method MarkOk(code: Code)
      modifies this
      ensures St() == OkMarked(old(St()), code)
    {
      if code in fails {
        fails := fails[code := Failure(0, 0)];
      }
    }

    method ReapOne(code: Code)
      modifies this
      ensures St() == ReapCode(w, old(St()), code)
    {
      var had, after := Before(started, code), w.feed(looks, code);
      looks, started := looks + 1, Pop(started, code);
      if after > had || (code in w.enough && after >= w.enough[code]) {
        MarkOk(code);
      } else {
        MarkFail(code);
      }
    }

    method ReapFinished()
      modifies this
      ensures St() == Reap(w, old(St()))
    {
      var codes := Gone(started, w.running(looks));
      looks := looks + 1;
      ghost var begin := St();
      assert Reap(w, old(St())) == ReapCodes(w, begin, codes);
      hide Reap, ReapCode, Gone;
      var i := 0;
      assert codes[0..] == codes;
      while i < |codes|
        invariant 0 <= i <= |codes|
        invariant ReapCodes(w, St(), codes[i..]) == ReapCodes(w, begin, codes)
      {
        assert codes[i..][0] == codes[i] && codes[i..][1..] == codes[i + 1..];
        ReapOne(codes[i]);
        i := i + 1;
      }
    }

    /** One turn of the fill loop; `took` says whether a slot was used. */
    method FillOne(code: Code, running: set<Code>) returns (took: bool)
      modifies this
      ensures St() == Turn(w, old(St()), code, running) && took == Takes(w, old(St()), code, running)
    {
      var tooMany := code in w.enough && w.feed(looks, code) >= w.enough[code];
      took := false;
      if code in running || tooMany || w.clock(looks) < CooldownUntil(fails, code) {
        looks := looks + 1;
      } else {
        var count := w.feed(looks, code);
        took := w.starts(looks);
        looks := looks + 1;
        if took {
          started := Put(started, Entry(code, count, w.clock(looks)));
          log := log + [Started(code, w.clock(looks))];
        } else {
          MarkFail(code);
        }
      }
    }

    method FillQueue(running: set<Code>, free: nat)
      modifies this
      ensures St() == FillFrom(w, old(St()), w.queue, running, free)
    {
      hide FillFrom, Turn, Takes;
      var i, slots := 0, free;
      assert w.queue[0..] == w.queue;
      while i < |w.queue| && slots > 0 && !w.stop(looks)
        invariant 0 <= i <= |w.queue|
        invariant FillFrom(w, St(), w.queue[i..], running, slots) == FillFrom(w, old(St()), w.queue, running, free)
      {
        ghost var left := w.queue[i..];
        assert left[0] == w.queue[i] && left[1..] == w.queue[i + 1..];
        FillFromUnfolds(w, St(), left, running, slots);
        var took := FillOne(w.queue[i], running);
        if took {
          slots := slots - 1;
        }
        i := i + 1;
      }
      FillFromUnfolds(w, St(), w.queue[i..], running, slots);
    }

    method FillCrawlSlots()
      modifies this
      ensures St() == Fill(w, old(St()))
    {
      if !w.completeOnly {
        var running := w.running(looks);
        looks := looks + 1;
        FillQueue(running, Max(0, w.slots - |running|));
      }
    }

    /** `n` turns of the main loop. */
    method Watch(n: nat)
      modifies this
      ensures St() == Run(w, old(St()), n)
    {
      hide Reap, Fill;
      var k := 0;
      while k < n
        invariant 0 <= k <= n && St() == Run(w, old(St()), k)
      {
        ReapFinished();
        FillCrawlSlots();
        k := k + 1;
      }
    }
  }
}
