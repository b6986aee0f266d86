/** What a reap and a fill decide about one code. */
module WatchdogVerdicts {
  import opened Prelude
  import opened Watchdog

  // Everything is stated in terms of what the watchdog saw: the product count in the feed, the
  // count its entry was started with, the threshold, the clock and the process list.

  // ---------- reaping ----------

  /** `r` is what becomes of `st` when the entry `e` is judged by the feed at look `j`: it has
      stalled if the feed holds no more products than at its start and is below its threshold.
      Then a failure is logged and starts a cool-down, and otherwise neither. */
  ghost predicate Judged(w: World, st: State, r: State, e: Entry, j: nat) {
    var n, t := w.feed(j, e.code), w.clock(j + 1);
    && st.log <= r.log
    && if n <= e.before && (e.code in w.enough ==> n < w.enough[e.code]) then
        && Failed(e.code, t) in r.log[|st.log|..]
        && (forall f :: f in r.log[|st.log|..] && f.code == e.code ==> f == Failed(e.code, t))
        && e.code in r.fails && r.fails[e.code].cooldownUntil == t + FAIL_COOLDOWN_S
        && r.fails[e.code].count == 1 + if e.code in st.fails then st.fails[e.code].count else 0
      else
        && (forall f :: f in r.log[|st.log|..] ==> f.code != e.code)
        && (e.code in r.fails ==> r.fails[e.code] == Failure(0, 0))
  }

  lemma ReapCodeVerdict(w: World, st: State, e: Entry)
    requires Keyed(st.started) && e in st.started
    ensures Judged(w, st, ReapCode(w, st, e.code), e, st.looks)
  {
    BeforeIs(st.started, e);
    var r, j := ReapCode(w, st, e.code), st.looks;
    hide Before;
    if r.log != st.log {
      assert r.log[|st.log|..] == [Failed(e.code, w.clock(j + 1))];
    } else {
      assert r.log[|st.log|..] == [];
    }
  }

  /** What happens to other codes before and after does not matter. */
  lemma JudgedBetween(w: World, st: State, a: State, b: State, r: State, e: Entry, j: nat)
    requires Judged(w, a, b, e, j) && st.log <= a.log && b.log <= r.log
    requires forall f :: f in a.log[|st.log|..] || f in r.log[|b.log|..] ==> f.code != e.code
    requires (e.code in st.fails <==> e.code in a.fails) && (e.code in b.fails <==> e.code in r.fails)
    requires (e.code in a.fails ==> a.fails[e.code] == st.fails[e.code]) &&
        (e.code in b.fails ==> b.fails[e.code] == r.fails[e.code])
    ensures Judged(w, st, r, e, j)
  {
    SuffixSplit(st.log, a.log, b.log);
    SuffixSplit(st.log, b.log, r.log);
  }

  lemma ReapCodeAppends(w: World, st: State, code: Code)
    requires Keyed(st.started)
    ensures var r := ReapCode(w, st, code);
      && st.looks < r.looks && Keyed(r.started) && r.started == Pop(st.started, code)
      && st.log <= r.log && (forall f :: f in r.log[|st.log|..] ==> f.code == code)
      && (forall c :: c != code ==> (c in r.fails <==> c in st.fails) && (c in st.fails ==> r.fails[c] == st.fails[c]))
  {
    ReapCodeSettles(w, st, code);
    PopKeyed(st.started, code);
  }

  lemma NoSuffix(log: seq<Event>)
    ensures log[|log|..] == []
  {
  }

  lemma {:induction false} ReapCodesVerdict(w: World, st: State, codes: seq<Code>, e: Entry) returns (j: nat)
    requires Keyed(st.started) && e in st.started && e.code in codes
    requires forall i, k :: 0 <= i < k < |codes| ==> codes[i] != codes[k]
    ensures st.looks <= j < ReapCodes(w, st, codes).looks && Judged(w, st, ReapCodes(w, st, codes), e, j)
    decreases |codes|
  {
    var c, rest, next := codes[0], codes[1..], ReapCode(w, st, codes[0]);
    var r := ReapCodes(w, next, rest);
    assert r == ReapCodes(w, st, codes);
    assert forall d :: d in codes <==> d == c || d in rest;
    hide *;
    ReapCodeAppends(w, st, c);
    NoSuffix(st.log);
    NoSuffix(r.log);
    if c == e.code {
      j := st.looks;
      ReapCodeVerdict(w, st, e);
      assert c !in rest;
      ReapCodesSpare(w, next, rest, c);
      ReapCodesLook(w, next, rest);
      JudgedBetween(w, st, st, next, r, e, j);
    } else {
      j := ReapCodesVerdict(w, next, rest, e);
      JudgedLogs(w, next, r, e, j);
      JudgedBetween(w, st, next, r, r, e, j);
    }
  }

  lemma JudgedLogs(w: World, st: State, r: State, e: Entry, j: nat)
    requires Judged(w, st, r, e, j)
    ensures st.log <= r.log
  {
  }

  lemma {:induction false} ReapCodesLook(w: World, st: State, codes: seq<Code>)
    ensures st.looks <= ReapCodes(w, st, codes).looks
    decreases |codes|
  {
    if codes != [] {
      ReapCodesLook(w, ReapCode(w, st, codes[0]), codes[1..]);
    }
  }

  lemma SameJudged(w: World, st: State, other: State, r: State, e: Entry, j: nat)
    requires Judged(w, other, r, e, j) && other.log == st.log && other.fails == st.fails
    ensures Judged(w, st, r, e, j)
  {
  }

  /** A code that has an entry and left the process list is judged by one look at its feed. */
  lemma ReapVerdict(w: World, st: State, e: Entry) returns (j: nat)
    requires Keyed(st.started) && e in st.started && e.code !in w.running(st.looks)
    ensures st.looks < j < Reap(w, st).looks && Judged(w, st, Reap(w, st), e, j)
  {
    var codes, looked := Gone(st.started, w.running(st.looks)), st.(looks := st.looks + 1);
    GoneDistinct(st.started, w.running(st.looks));
    assert e.code in codes;
    assert Reap(w, st) == ReapCodes(w, looked, codes);
    hide *;
    j := ReapCodesVerdict(w, looked, codes, e);
    SameJudged(w, st, looked, ReapCodes(w, looked, codes), e, j);
  }

  /** Where its feed holds `n` products from the reap on: a stalled code gets a logged failure and
      a cool-down from that time on, a finished one neither. */
  lemma SteadyFeedVerdict(w: World, st: State, e: Entry, n: nat)
    requires Keyed(st.started) && e in st.started && e.code !in w.running(st.looks)
    requires forall j: nat :: j >= st.looks ==> w.feed(j, e.code) == n
    ensures var r := Reap(w, st);
      && st.log <= r.log
      && (n <= e.before && (e.code in w.enough ==> n < w.enough[e.code]) ==>
            e.code in r.fails && Failed(e.code, r.fails[e.code].cooldownUntil - FAIL_COOLDOWN_S) in r.log[|st.log|..])
      && (n > e.before || (e.code in w.enough && n >= w.enough[e.code]) ==>
            && (forall f :: f in r.log[|st.log|..] ==> f.code != e.code)
            && (e.code in r.fails ==> r.fails[e.code].cooldownUntil == 0))
  {
    var j := ReapVerdict(w, st, e);
    hide Reap;
  }

  // ---------- filling ----------

  /** At look `j` nothing keeps the watchdog from starting `c`. */
  ghost predicate MayStart(w: World, st: State, running: set<Code>, c: Code, j: nat) {
    && c !in running
    && (c in w.enough ==> w.feed(j, c) < w.enough[c])
    && w.clock(j) >= if c in st.fails then st.fails[c].cooldownUntil else 0
  }

  /** `r` is what becomes of `st` when `c` is launched at look `j`: an entry with the products
      it has by then, or a logged failure and a cool-down. */
  ghost predicate Launched(w: World, st: State, r: State, c: Code, j: nat) {
    var t := w.clock(j + 1);
    && st.log <= r.log
    && (if w.starts(j) then Started(c, t) else Failed(c, t)) in r.log[|st.log|..]
    && (forall f :: f in r.log[|st.log|..] && f.code == c ==> f == if w.starts(j) then Started(c, t) else Failed(c, t))
    && (w.starts(j) ==>
          && (forall e: Entry :: e in r.started && e.code == c <==> e == Entry(c, w.feed(j, c), t))
          && (c in r.fails <==> c in st.fails) && (c in st.fails ==> r.fails[c] == st.fails[c]))
    && (!w.starts(j) ==>
          && (forall e: Entry :: e.code == c ==> (e in r.started <==> e in st.started))
          && c in r.fails && r.fails[c].cooldownUntil == t + FAIL_COOLDOWN_S
          && r.fails[c].count == 1 + if c in st.fails then st.fails[c].count else 0)
  }

  /** Nothing happens to `c`. */
  ghost predicate LeftAlone(st: State, r: State, c: Code) {
    && st.log <= r.log && (forall f :: f in r.log[|st.log|..] ==> f.code != c)
    && (forall e: Entry :: e.code == c ==> (e in r.started <==> e in st.started))
    && (c in r.fails <==> c in st.fails) && (c in st.fails ==> r.fails[c] == st.fails[c])
  }

  lemma TurnVerdict(w: World, st: State, c: Code, running: set<Code>)
    ensures var r := Turn(w, st, c, running);
      && st.looks < r.looks
      && (MayStart(w, st, running, c, st.looks) ==> Launched(w, st, r, c, st.looks))
      && (!MayStart(w, st, running, c, st.looks) ==> LeftAlone(st, r, c))
      && forall d :: d != c ==> LeftAlone(st, r, d)
  {
    var r, t := Turn(w, st, c, running), w.clock(st.looks + 1);
    if MayStart(w, st, running, c, st.looks) {
      assert r.log == st.log + [if w.starts(st.looks) then Started(c, t) else Failed(c, t)];
      assert r.log[|st.log|..] == [r.log[|st.log|]];
    } else {
      assert r.log[|st.log|..] == [];
    }
  }

  lemma AloneThrough(st: State, a: State, r: State, c: Code)
    requires LeftAlone(st, a, c) && LeftAlone(a, r, c)
    ensures LeftAlone(st, r, c)
  {
    SuffixSplit(st.log, a.log, r.log);
  }

  lemma LaunchedThen(w: World, st: State, a: State, r: State, c: Code, j: nat)
    requires Launched(w, st, a, c, j) && LeftAlone(a, r, c)
    ensures Launched(w, st, r, c, j)
  {
    SuffixSplit(st.log, a.log, r.log);
    forall e: Entry | e.code == c ensures e in r.started <==> e in a.started {
    }
  }

  lemma ThenLaunched(w: World, st: State, a: State, r: State, c: Code, j: nat)
    requires LeftAlone(st, a, c) && Launched(w, a, r, c, j)
    ensures Launched(w, st, r, c, j)
  {
    SuffixSplit(st.log, a.log, r.log);
  }

  lemma SameChances(w: World, st: State, a: State, running: set<Code>, c: Code)
    requires LeftAlone(st, a, c)
    ensures forall j: nat :: MayStart(w, st, running, c, j) <==> MayStart(w, a, running, c, j)
  {
  }

  /** Codes that are not in the queue are left alone. */
  lemma {:induction false} FillLeavesAlone(w: World, st: State, queue: seq<Code>, running: set<Code>, slots: nat,
      c: Code)
    requires c !in queue
    ensures st.looks <= FillFrom(w, st, queue, running, slots).looks
    ensures LeftAlone(st, FillFrom(w, st, queue, running, slots), c)
    decreases |queue|
  {
    if queue == [] || slots == 0 || w.stop(st.looks) {
      assert st.log[|st.log|..] == [];
    } else {
      var d, rest, next := queue[0], queue[1..], Turn(w, st, queue[0], running);
      var left := if Takes(w, st, d, running) then slots - 1 else slots;
      assert d in queue && forall x :: x in rest ==> x in queue;
      assert FillFrom(w, st, queue, running, slots) == FillFrom(w, next, rest, running, left);
      hide *;
      TurnVerdict(w, st, d, running);
      FillLeavesAlone(w, next, rest, running, left, c);
      AloneThrough(st, next, FillFrom(w, next, rest, running, left), c);
    }
  }

  /** The turn of `c` comes at look `j`, if at all. */
  ghost predicate Decided(w: World, st: State, r: State, running: set<Code>, c: Code, j: nat) {
    && st.looks <= j < r.looks && !w.stop(j)
    && (MayStart(w, st, running, c, j) ==> Launched(w, st, r, c, j))
    && (!MayStart(w, st, running, c, j) ==> LeftAlone(st, r, c))
  }

  /** A queued code is launched, or found unfit, or the fill ended before its turn. */
  lemma {:induction false} FillFromVerdict(w: World, st: State, queue: seq<Code>, running: set<Code>, slots: nat,
      c: Code)
    requires c in queue && forall i, k :: 0 <= i < k < |queue| ==> queue[i] != queue[k]
    ensures var r := FillFrom(w, st, queue, running, slots);
      || (exists j :: Decided(w, st, r, running, c, j))
      || (LeftAlone(st, r, c) && (w.stop(r.looks) || (st.log <= r.log && |StartsOf(r.log[|st.log|..])| == slots)))
    decreases |queue|
  {
    if queue == [] || slots == 0 || w.stop(st.looks) {
      assert st.log[|st.log|..] == [];
      assert StartsOf([]) == {};
    } else {
      var d, rest, next := queue[0], queue[1..], Turn(w, st, queue[0], running);
      var left := if Takes(w, st, d, running) then slots - 1 else slots;
      var r := FillFrom(w, next, rest, running, left);
      assert FillFrom(w, st, queue, running, slots) == r;
      assert forall x :: x in queue <==> x == d || x in rest;
      assert d !in rest;
      hide *;
      TurnVerdict(w, st, d, running);
      if c == d {
        FillLeavesAlone(w, next, rest, running, left, c);
        FirstDecided(w, st, next, r, running, c);
      } else {
        FillFromVerdict(w, next, rest, running, left, c);
        if j :| Decided(w, next, r, running, c, j) {
          LaterDecided(w, st, next, r, running, c, j);
        } else {
          AloneThrough(st, next, r, c);
          if !w.stop(r.looks) {
            FillLeavesAlone(w, next, rest, running, left, d);
            OneMoreStart(w, st, next, r, d, running);
          }
        }
      }
    }
  }

  lemma FirstDecided(w: World, st: State, next: State, r: State, running: set<Code>, c: Code)
    requires st.looks < next.looks <= r.looks && LeftAlone(next, r, c) && !w.stop(st.looks)
    requires MayStart(w, st, running, c, st.looks) ==> Launched(w, st, next, c, st.looks)
    requires !MayStart(w, st, running, c, st.looks) ==> LeftAlone(st, next, c)
    ensures Decided(w, st, r, running, c, st.looks)
  {
    hide MayStart, Launched, LeftAlone;
    if MayStart(w, st, running, c, st.looks) {
      LaunchedThen(w, st, next, r, c, st.looks);
    } else {
      AloneThrough(st, next, r, c);
    }
  }

  lemma LaterDecided(w: World, st: State, next: State, r: State, running: set<Code>, c: Code, j: nat)
    requires st.looks < next.looks && LeftAlone(st, next, c) && Decided(w, next, r, running, c, j)
    ensures Decided(w, st, r, running, c, j)
  {
    hide MayStart, Launched, LeftAlone;
    SameChances(w, st, next, running, c);
    if MayStart(w, st, running, c, j) {
      ThenLaunched(w, st, next, r, c, j);
    } else {
      AloneThrough(st, next, r, c);
    }
  }

  lemma OneMoreStart(w: World, st: State, next: State, r: State, d: Code, running: set<Code>)
    requires next == Turn(w, st, d, running) && LeftAlone(next, r, d)
    ensures st.log <= next.log <= r.log
    ensures |StartsOf(r.log[|st.log|..])| ==
        |StartsOf(r.log[|next.log|..])| + if Takes(w, st, d, running) then 1 else 0
  {
    TurnAppends(w, st, d, running);
    TurnStarts(w, st, d, running);
    SuffixSplit(st.log, next.log, r.log);
    StartsOfConcat(next.log[|st.log|..], r.log[|next.log|..]);
    assert d !in StartsOf(r.log[|next.log|..]);
    hide Turn, Takes, StartsOf, LeftAlone;
  }

  /** The fill of a cycle, code by code: at its turn a queued code is launched exactly if it is
      not running, below its threshold and past its cool-down; codes get no turn only when the
      script is to stop or the free slots are used up. All other codes are left alone. */
  lemma FillVerdict(w: World, st: State, c: Code)
    requires Sane(w)
    ensures w.completeOnly ==> Fill(w, st) == st
    ensures !w.completeOnly ==>
      var r, running := Fill(w, st), w.running(st.looks);
      && (c in w.queue ==>
          || (exists j :: Decided(w, st, r, running, c, j))
          || (LeftAlone(st, r, c) && (w.stop(r.looks)
              || (st.log <= r.log && |StartsOf(r.log[|st.log|..])| == Max(0, w.slots - |running|)))))
      && (c !in w.queue ==> LeftAlone(st, r, c))
  {
    if w.completeOnly {
      return;
    }
    var running, looked := w.running(st.looks), st.(looks := st.looks + 1);
    var slots := Max(0, w.slots - |running|);
    var r := FillFrom(w, looked, w.queue, running, slots);
    assert r == Fill(w, st);
    assert forall i, k :: 0 <= i < k < |w.queue| ==> w.queue[i] != w.queue[k];
    hide *;
    LookedAlone(st, r, c);
    if c in w.queue {
      FillFromVerdict(w, looked, w.queue, running, slots, c);
      if j :| Decided(w, looked, r, running, c, j) {
        LookedDecided(w, st, r, running, c, j);
      }
    } else {
      FillLeavesAlone(w, looked, w.queue, running, slots, c);
    }
  }

  lemma LookedAlone(st: State, r: State, c: Code)
    ensures LeftAlone(st.(looks := st.looks + 1), r, c) <==> LeftAlone(st, r, c)
  {
  }

  lemma LookedDecided(w: World, st: State, r: State, running: set<Code>, c: Code, j: nat)
    requires Decided(w, st.(looks := st.looks + 1), r, running, c, j)
    ensures Decided(w, st, r, running, c, j)
  {
  }

  ghost predicate BeforeInQueue(queue: seq<Code>, c: Code, d: Code) {
    exists i, k :: 0 <= i < k < |queue| && queue[i] == c && queue[k] == d
  }

  /** The events from number `from` on are in queue order. */
  ghost predicate InQueueOrder(log: seq<Event>, from: nat, queue: seq<Code>) {
    forall a, b :: from <= a < b < |log| ==> BeforeInQueue(queue, log[a].code, log[b].code)
  }

  lemma FirstInQueue(log: seq<Event>, from: nat, queue: seq<Code>)
    requires queue != [] && from < |log| && log[from].code == queue[0]
    requires InQueueOrder(log, from + 1, queue[1..]) && forall f :: f in log[from + 1..] ==> f.code in queue[1..]
    ensures InQueueOrder(log, from, queue)
  {
    LaterInQueue(log, from + 1, queue);
    forall b | from < b < |log| ensures BeforeInQueue(queue, log[from].code, log[b].code) {
      assert log[b] == log[from + 1..][b - from - 1];
      var k :| 0 <= k < |queue[1..]| && queue[1..][k] == log[b].code;
      assert queue[k + 1] == log[b].code;
    }
  }

  lemma LaterInQueue(log: seq<Event>, from: nat, queue: seq<Code>)
    requires queue != [] && InQueueOrder(log, from, queue[1..])
    ensures InQueueOrder(log, from, queue)
  {
    forall a, b | from <= a < b < |log| ensures BeforeInQueue(queue, log[a].code, log[b].code) {
      var rest := queue[1..];
      var i, k :| 0 <= i < k < |rest| && rest[i] == log[a].code && rest[k] == log[b].code;
      assert queue[i + 1] == log[a].code && queue[k + 1] == log[b].code;
    }
  }

  lemma TurnLogsOne(w: World, st: State, c: Code, running: set<Code>)
    ensures var log := Turn(w, st, c, running).log;
      st.log <= log && |log| <= |st.log| + 1 && (|log| > |st.log| ==> log[|st.log|].code == c)
  {
  }

  /** Launches follow the order of the queue. */
  lemma {:induction false} FillInOrder(w: World, st: State, queue: seq<Code>, running: set<Code>, slots: nat)
    ensures InQueueOrder(FillFrom(w, st, queue, running, slots).log, |st.log|, queue)
    decreases |queue|
  {
    if !(queue == [] || slots == 0 || w.stop(st.looks)) {
      var c, rest, next := queue[0], queue[1..], Turn(w, st, queue[0], running);
      var left := if Takes(w, st, c, running) then slots - 1 else slots;
      var log := FillFrom(w, next, rest, running, left).log;
      assert log == FillFrom(w, st, queue, running, slots).log;
      hide *;
      TurnLogsOne(w, st, c, running);
      FillAppends(w, next, rest, running, left);
      FillInOrder(w, next, rest, running, left);
      if |next.log| > |st.log| {
        FirstInQueue(log, |st.log|, queue);
      } else {
        LaterInQueue(log, |st.log|, queue);
      }
    }
  }
}
