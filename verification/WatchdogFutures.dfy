/**
 Why steadiness is needed: from every cycle that is not steady the world can go on so that the
 next cycle starts a code within its cool-down.
 */
module WatchdogFutures {
  import opened Prelude
  import opened Watchdog

  // In that future the process list is empty, the code's feed has grown by the time of the next
  // reap, which therefore clears the cool-down, every launch before the code's own fails, and
  // the clock stands still.

  /** The two worlds look alike as long as fewer than `k` looks have been taken. */
  ghost predicate SameUntil(w: World, w2: World, k: nat) {
    && w2.queue == w.queue && w2.slots == w.slots && w2.enough == w.enough && w2.completeOnly == w.completeOnly
    && (forall i: nat :: i <= k ==> w2.clock(i) == w.clock(i) && w2.stop(i) == w.stop(i))
    && (forall i: nat :: i < k ==> w2.running(i) == w.running(i) && w2.starts(i) == w.starts(i))
    && (forall i: nat, c: Code :: i < k ==> w2.feed(i, c) == w.feed(i, c))
  }

  // ---------- a cycle depends on the looks it takes ----------

  lemma ReapCodeSame(w: World, w2: World, st: State, code: Code, k: nat)
    requires SameUntil(w, w2, k) && ReapCode(w, st, code).looks <= k
    ensures ReapCode(w2, st, code) == ReapCode(w, st, code)
    ensures ReapCode(w, st, code).looks > st.looks
  {
  }

  lemma {:induction false} ReapLooks(w: World, st: State, codes: seq<Code>)
    ensures st.looks <= ReapCodes(w, st, codes).looks <= st.looks + 2 * |codes|
    decreases |codes|
  {
    if codes != [] {
      ReapLooks(w, ReapCode(w, st, codes[0]), codes[1..]);
    }
  }

  lemma {:induction false} ReapCodesSame(w: World, w2: World, st: State, codes: seq<Code>, k: nat)
    requires SameUntil(w, w2, k) && ReapCodes(w, st, codes).looks <= k
    ensures ReapCodes(w2, st, codes) == ReapCodes(w, st, codes)
    decreases |codes|
  {
    if codes != [] {
      var next := ReapCode(w, st, codes[0]);
      ReapLooks(w, next, codes[1..]);
      assert ReapCodes(w, st, codes) == ReapCodes(w, next, codes[1..]);
      assert ReapCodes(w2, st, codes) == ReapCodes(w2, ReapCode(w2, st, codes[0]), codes[1..]);
      hide SameUntil, ReapCode, ReapCodes;
      ReapCodeSame(w, w2, st, codes[0], k);
      ReapCodesSame(w, w2, next, codes[1..], k);
    }
  }

  lemma ReapSame(w: World, w2: World, st: State, k: nat)
    requires SameUntil(w, w2, k) && Reap(w, st).looks <= k
    ensures Reap(w2, st) == Reap(w, st) && Reap(w, st).looks > st.looks
  {
    hide Gone, ReapCodes;
    var looked, codes := st.(looks := st.looks + 1), Gone(st.started, w.running(st.looks));
    ReapLooks(w, looked, codes);
    assert w2.running(st.looks) == w.running(st.looks);
    hide SameUntil;
    ReapCodesSame(w, w2, looked, codes, k);
  }

  lemma TurnSame(w: World, w2: World, st: State, code: Code, running: set<Code>, k: nat)
    requires SameUntil(w, w2, k) && Turn(w, st, code, running).looks <= k
    ensures Turn(w2, st, code, running) == Turn(w, st, code, running)
    ensures Takes(w2, st, code, running) == Takes(w, st, code, running)
    ensures Turn(w, st, code, running).looks > st.looks
  {
  }

  lemma {:induction false} FillFromSame(w: World, w2: World, st: State, queue: seq<Code>, running: set<Code>,
      slots: nat, k: nat)
    requires SameUntil(w, w2, k) && FillFrom(w, st, queue, running, slots).looks <= k
    ensures FillFrom(w2, st, queue, running, slots) == FillFrom(w, st, queue, running, slots)
    decreases |queue|
  {
    FillAppends(w, st, queue, running, slots);
    assert w2.stop(st.looks) == w.stop(st.looks);
    if !(queue == [] || slots == 0 || w.stop(st.looks)) {
      var next := Turn(w, st, queue[0], running);
      var left := if Takes(w, st, queue[0], running) then slots - 1 else slots;
      FillFromUnfolds(w, st, queue, running, slots);
      FillFromUnfolds(w2, st, queue, running, slots);
      FillAppends(w, next, queue[1..], running, left);
      hide SameUntil, Turn, Takes, FillFrom;
      TurnSame(w, w2, st, queue[0], running, k);
      FillFromSame(w, w2, next, queue[1..], running, left, k);
    }
  }

  lemma FillSame(w: World, w2: World, st: State, k: nat)
    requires SameUntil(w, w2, k) && Fill(w, st).looks <= k
    ensures Fill(w2, st) == Fill(w, st) && Fill(w, st).looks >= st.looks
  {
    if !w.completeOnly {
      var looked, running := st.(looks := st.looks + 1), w.running(st.looks);
      var slots := Max(0, w.slots - |running|);
      FillAppends(w, looked, w.queue, running, slots);
      hide FillFrom;
      FillFromSame(w, w2, looked, w.queue, running, slots, k);
    }
  }

  lemma CycleSame(w: World, w2: World, st: State)
    requires SameUntil(w, w2, Cycle(w, st).looks)
    ensures Cycle(w2, st) == Cycle(w, st) && Cycle(w, st).looks > st.looks
  {
    var k := Cycle(w, st).looks;
    FillSame(w, w2, Reap(w, st), k);
    hide SameUntil, Reap, Fill;
    ReapSame(w, w2, st, k);
  }

  lemma InvSame(w: World, w2: World, st: State)
    requires w2.clock(st.looks) == w.clock(st.looks) && Inv(w, st)
    ensures Inv(w2, st)
  {
  }

  // ---------- a steady cycle is safe ----------

  lemma TwoCycles(w: World, st: State)
    ensures Run(w, st, 2) == Cycle(w, Cycle(w, st))
  {
    hide Cycle;
    assert Run(w, st, 1) == Cycle(w, Run(w, st, 0));
  }

  lemma SteadyIsSafe(w: World, w2: World, st: State)
    requires Sane(w) && Inv(w, st) && Steady(w, st)
    requires Sane(w2) && SameUntil(w, w2, Cycle(w, st).looks)
    ensures CooldownKept(Run(w2, st, 2).log)
  {
    var r := Cycle(w, st);
    CycleExact(w, st);
    CycleSame(w, w2, st);
    InvSame(w, w2, r);
    CycleExact(w2, r);
    TwoCycles(w2, st);
    assert Kept(w2, Cycle(w2, r));
  }

  // ---------- the code that was failed on ----------

  /** A failure of a code that has an entry, less than the cool-down before `t`, and a fill that
      may launch the code. */
  ghost predicate Exposed(w: World, st: State, code: Code, t: int) {
    && HasEntry(st.started, code) && code in w.queue && w.slots > 0 && !w.completeOnly
    && (code in w.enough ==> w.enough[code] > 0)
    && exists f :: f in st.log && f.Failed? && f.code == code && f.at + FAIL_COOLDOWN_S > t
  }

  /** What a failing turn leaves behind. */
  lemma FailedTurn(w: World, st: State, code: Code, running: set<Code>, r: State, t: int)
    requires FailsOnEntry(w, st, code, running, t) && Turn(w, st, code, running).log <= r.log
    requires forall e :: e in st.started && e.code == code ==> e in r.started
    ensures HasEntry(r.started, code) && (code in w.enough ==> w.enough[code] > 0)
    ensures exists f :: f in r.log && f.Failed? && f.code == code && f.at + FAIL_COOLDOWN_S > t
  {
    var e := EntryOf(st.started, code);
    var f := Failed(code, w.clock(st.looks + 1));
    assert Turn(w, st, code, running).log[|st.log|] == f && r.log[|st.log|] == f;
    assert e in r.started;
  }

  lemma {:induction false} UnsteadyFill(w: World, st: State, queue: seq<Code>, running: set<Code>, slots: nat, t: int)
      returns (code: Code)
    requires !SteadyFrom(w, st, queue, running, slots, t)
    requires forall i, j :: 0 <= i < j < |queue| ==> queue[i] != queue[j]
    ensures var r := FillFrom(w, st, queue, running, slots);
      && HasEntry(r.started, code) && code in queue && slots > 0 && (code in w.enough ==> w.enough[code] > 0)
      && exists f :: f in r.log && f.Failed? && f.code == code && f.at + FAIL_COOLDOWN_S > t
    decreases |queue|
  {
    var c, rest, next := queue[0], queue[1..], Turn(w, st, queue[0], running);
    var left := if Takes(w, st, c, running) then slots - 1 else slots;
    FillFromUnfolds(w, st, queue, running, slots);
    FillAppends(w, next, rest, running, left);
    if FailsOnEntry(w, st, c, running, t) {
      code := c;
      assert next.started == st.started;
      hide Turn, FillFrom, FailsOnEntry, SteadyFrom, HasEntry;
      FailedTurn(w, st, c, running, FillFrom(w, st, queue, running, slots), t);
    } else {
      hide FillFrom, Turn, FailsOnEntry, HasEntry;
      code := UnsteadyFill(w, next, rest, running, left, t);
    }
  }

  ghost function EntryOf(started: seq<Entry>, code: Code): (e: Entry)
    requires HasEntry(started, code)
    ensures e in started && e.code == code
  {
    var e :| e in started && e.code == code;
    e
  }

  lemma UnsteadyExposes(w: World, st: State) returns (code: Code)
    requires Sane(w) && !Steady(w, st)
    ensures Exposed(w, Cycle(w, st), code, Now(w, Cycle(w, st)))
  {
    var reaped := Reap(w, st);
    var running := w.running(reaped.looks);
    hide Reap, FillFrom, SteadyFrom;
    code := UnsteadyFill(w, reaped.(looks := reaped.looks + 1), w.queue, running, Max(0, w.slots - |running|),
        Now(w, Cycle(w, st)));
  }

  // ---------- the future that restarts it ----------

  function FutureFeed(w: World, k: nat, grown: nat, m: nat, i: nat, c: Code): nat {
    if i < k then w.feed(i, c) else if i < m then grown else 0
  }

  /** From look `k` on: an empty process list, a clock that stands still, no stop; the feeds hold
      `grown` products up to look `m` and none later; launches fail up to look `n`. */
  function Future(w: World, k: nat, grown: nat, m: nat, n: nat): World {
    World(
      (i: nat) => w.clock(if i < k then i else k),
      (i: nat) => if i < k then w.running(i) else {},
      (i: nat, c: Code) => FutureFeed(w, k, grown, m, i, c),
      (i: nat) => if i < k then w.starts(i) else i >= n,
      (i: nat) => i <= k && w.stop(i),
      w.queue, w.enough, w.slots, w.completeOnly)
  }

  lemma FutureFields(w: World, k: nat, grown: nat, m: nat, n: nat)
    ensures var v := Future(w, k, grown, m, n);
      v.queue == w.queue && v.enough == w.enough && v.slots == w.slots && v.completeOnly == w.completeOnly
  {
  }

  lemma FutureLook(w: World, k: nat, grown: nat, m: nat, n: nat, i: nat, code: Code)
    requires i >= m > k
    ensures var v := Future(w, k, grown, m, n);
      && v.running(i) == {} && v.feed(i, code) == 0 && v.clock(i) == w.clock(k) && !v.stop(i)
      && (v.starts(i) <==> i >= n)
  {
  }

  lemma FutureIsSane(w: World, k: nat, grown: nat, m: nat, n: nat)
    requires Sane(w)
    ensures Sane(Future(w, k, grown, m, n)) && SameUntil(w, Future(w, k, grown, m, n), k)
  {
  }

  /** Later decisions do not show earlier. */
  lemma FuturesAgree(w: World, k: nat, grown: nat, m: nat, n: nat, m2: nat, n2: nat, j: nat)
    requires (j <= m && j <= m2) || m == m2
    requires (j <= n && j <= n2) || n == n2
    ensures SameUntil(Future(w, k, grown, m, n), Future(w, k, grown, m2, n2), j)
  {
  }

  lemma {:induction false} BeforePop(started: seq<Entry>, code: Code, other: Code)
    requires other != code
    ensures Before(Pop(started, other), code) == Before(started, code)
  {
    if started != [] {
      BeforePop(started[1..], code, other);
      var rest := Pop(started[1..], other);
      if started[0].code != other {
        assert Pop(started, other) == [started[0]] + rest;
      } else {
        assert Pop(started, other) == [] + rest == rest;
      }
    }
  }

  /** A code whose feed has grown is cleared when it is reaped. */
  lemma {:induction false} GrownIsCleared(w: World, st: State, codes: seq<Code>, code: Code)
    requires code in codes && forall i, j :: 0 <= i < j < |codes| ==> codes[i] != codes[j]
    requires forall i: nat :: st.looks <= i < ReapCodes(w, st, codes).looks ==>
        w.feed(i, code) > Before(st.started, code)
    ensures CooldownUntil(ReapCodes(w, st, codes).fails, code) == 0
    decreases |codes|
  {
    var next := ReapCode(w, st, codes[0]);
    assert ReapCodes(w, st, codes) == ReapCodes(w, next, codes[1..]);
    ReapLooks(w, next, codes[1..]);
    assert next.looks > st.looks;
    if codes[0] == code {
      assert CooldownUntil(next.fails, code) == 0;
      hide ReapCode, ReapCodes;
      ReapCodesSpare(w, next, codes[1..], code);
    } else {
      BeforePop(st.started, code, codes[0]);
      assert next.looks >= st.looks && next.started == Pop(st.started, codes[0]);
      hide ReapCode, ReapCodes;
      GrownIsCleared(w, next, codes[1..], code);
    }
  }

  lemma ReapUnfolds(w: World, st: State)
    ensures Reap(w, st) == ReapCodes(w, st.(looks := st.looks + 1), Gone(st.started, w.running(st.looks)))
  {
  }

  /** The next reap clears the cool-down. */
  lemma ReapClears(w: World, st: State, code: Code)
    requires Keyed(st.started) && HasEntry(st.started, code) && w.running(st.looks) == {}
    requires forall i: nat :: st.looks < i < Reap(w, st).looks ==> w.feed(i, code) > Before(st.started, code)
    ensures CooldownUntil(Reap(w, st).fails, code) == 0 && st.log <= Reap(w, st).log
  {
    var codes := Gone(st.started, {});
    hide *;
    assert code in codes;
    ReapUnfolds(w, st);
    ReapSettles(w, st, code);
    GoneDistinct(st.started, {});
    GrownIsCleared(w, st.(looks := st.looks + 1), codes, code);
  }

  /** The turns for the codes before the one in question. */
  function Turns(w: World, st: State, queue: seq<Code>, running: set<Code>): (r: State)
    ensures r.looks >= st.looks
    decreases |queue|
  {
    if queue == [] then st else Turns(w, Turn(w, st, queue[0], running), queue[1..], running)
  }

  lemma {:induction false} TurnsSame(w: World, w2: World, st: State, queue: seq<Code>, running: set<Code>, k: nat)
    requires SameUntil(w, w2, k) && Turns(w, st, queue, running).looks <= k
    ensures Turns(w2, st, queue, running) == Turns(w, st, queue, running)
    decreases |queue|
  {
    if queue != [] {
      var next := Turn(w, st, queue[0], running);
      assert Turns(w, st, queue, running) == Turns(w, next, queue[1..], running);
      hide SameUntil, Turn;
      TurnSame(w, w2, st, queue[0], running, k);
      TurnsSame(w, w2, next, queue[1..], running, k);
    }
  }

  /** While launches fail a fill goes on through its queue. */
  lemma {:induction false} FailingPrefix(w: World, st: State, front: seq<Code>, rest: seq<Code>, running: set<Code>,
      slots: nat)
    requires slots > 0
    requires forall i: nat :: st.looks <= i < Turns(w, st, front, running).looks ==> !w.starts(i) && !w.stop(i)
    ensures FillFrom(w, st, front + rest, running, slots) ==
        FillFrom(w, Turns(w, st, front, running), rest, running, slots)
    decreases |front|
  {
    if front == [] {
      assert front + rest == rest;
    } else {
      var next := Turn(w, st, front[0], running);
      assert (front + rest)[0] == front[0] && (front + rest)[1..] == front[1..] + rest;
      FillFromUnfolds(w, st, front + rest, running, slots);
      assert next.looks > st.looks && !Takes(w, st, front[0], running) && !w.stop(st.looks);
      hide Turn, Takes, FillFrom;
      FailingPrefix(w, next, front[1..], rest, running, slots);
    }
  }

  /** Other codes' turns leave the cool-down of a code alone. */
  lemma {:induction false} TurnsSpare(w: World, st: State, queue: seq<Code>, running: set<Code>, code: Code)
    requires code !in queue
    ensures var r := Turns(w, st, queue, running);
      CooldownUntil(r.fails, code) == CooldownUntil(st.fails, code) && st.log <= r.log
    decreases |queue|
  {
    if queue != [] {
      TurnAppends(w, st, queue[0], running);
      TurnsSpare(w, Turn(w, st, queue[0], running), queue[1..], running, code);
    }
  }

  lemma SplitAt(queue: seq<Code>, code: Code) returns (front: seq<Code>, rest: seq<Code>)
    requires code in queue
    ensures queue == front + ([code] + rest) && code !in front
  {
    if queue[0] == code {
      front, rest := [], queue[1..];
    } else {
      front, rest := SplitAt(queue[1..], code);
      front := [queue[0]] + front;
    }
  }

  /** A code that may be launched, with a launch that succeeds, is started. */
  lemma FirstIsStarted(w: World, st: State, code: Code, rest: seq<Code>, slots: nat)
    requires slots > 0 && !w.stop(st.looks) && w.starts(st.looks)
    requires code in w.enough ==> w.feed(st.looks, code) < w.enough[code]
    requires CooldownUntil(st.fails, code) <= w.clock(st.looks)
    ensures st.log + [Started(code, w.clock(st.looks + 1))] <= FillFrom(w, st, [code] + rest, {}, slots).log
  {
    var next := Turn(w, st, code, {});
    assert ([code] + rest)[1..] == rest;
    FillFromUnfolds(w, st, [code] + rest, {}, slots);
    assert next.log == st.log + [Started(code, w.clock(st.looks + 1))];
    FillAppends(w, next, rest, {}, slots - 1);
  }

  /** `log` goes on from `start` and has the code started at time `t` in what is new. */
  ghost predicate Restarts(start: seq<Event>, log: seq<Event>, code: Code, t: int) {
    exists early :: start <= early && early + [Started(code, t)] <= log
  }

  /** A failure, and later a start of the same code within the cool-down. */
  lemma StartsTooEarly(start: seq<Event>, log: seq<Event>, f: Event, code: Code, t: int)
    requires f in start && f.Failed? && f.code == code && f.at + FAIL_COOLDOWN_S > t
    requires Restarts(start, log, code, t)
    ensures !CooldownKept(log)
  {
    var early :| start <= early && early + [Started(code, t)] <= log;
    var i :| 0 <= i < |early| && early[i] == f;
    assert log[i] == f && log[|early|] == Started(code, t);
  }

  lemma {:induction false} TurnsLooks(w: World, st: State, queue: seq<Code>, running: set<Code>)
    ensures Turns(w, st, queue, running).looks <= st.looks + 2 * |queue|
    decreases |queue|
  {
    if queue != [] {
      TurnsLooks(w, Turn(w, st, queue[0], running), queue[1..], running);
    }
  }

  /** The look at which the code's turn comes if no launch succeeds before it. */
  lemma TurnComes(w: World, k: nat, grown: nat, m: nat, st: State, front: seq<Code>) returns (n: nat)
    ensures Turns(Future(w, k, grown, m, n), st, front, {}).looks == n >= st.looks
  {
    var late := st.looks + 2 * |front|;
    var never := Future(w, k, grown, m, late);
    TurnsLooks(never, st, front, {});
    n := Turns(never, st, front, {}).looks;
    FuturesAgree(w, k, grown, m, late, m, n, n);
    TurnsSame(never, Future(w, k, grown, m, n), st, front, {}, n);
  }

  lemma FillOfNothing(w: World, st: State)
    requires w.running(st.looks) == {} && !w.completeOnly
    ensures Fill(w, st) == FillFrom(w, st.(looks := st.looks + 1), w.queue, {}, w.slots)
  {
    hide FillFrom;
  }

  /** A fill whose launches fail up to the code's turn, and succeed then. */
  lemma StartsAfterFailures(w: World, st: State, front: seq<Code>, code: Code, rest: seq<Code>, n: nat)
    requires w.queue == front + ([code] + rest) && code !in front
    requires w.running(st.looks) == {} && !w.completeOnly && w.slots > 0
    requires Turns(w, st.(looks := st.looks + 1), front, {}).looks == n
    requires forall i: nat :: st.looks < i < n ==> !w.starts(i) && !w.stop(i)
    requires w.starts(n) && !w.stop(n) && (code in w.enough ==> w.feed(n, code) < w.enough[code])
    requires CooldownUntil(st.fails, code) <= w.clock(n)
    ensures Restarts(st.log, Fill(w, st).log, code, w.clock(n + 1))
  {
    hide Turns, Fill, FillFrom, Turn, Takes, CooldownUntil;
    var looked := st.(looks := st.looks + 1);
    var turned := Turns(w, looked, front, {});
    FillOfNothing(w, st);
    FailingPrefix(w, looked, front, [code] + rest, {}, w.slots);
    TurnsSpare(w, looked, front, {}, code);
    FirstIsStarted(w, turned, code, rest, w.slots);
  }

  /** The fill of the second cycle, in the future in which launches succeed from the code's
      turn on. */
  lemma FutureStarts(w: World, k: nat, grown: nat, m: nat, st: State, code: Code) returns (n: nat)
    requires st.looks == m > k && code in w.queue && w.slots > 0 && !w.completeOnly
    requires (code in w.enough ==> w.enough[code] > 0) && CooldownUntil(st.fails, code) == 0 <= w.clock(k)
    ensures n > m && Restarts(st.log, Fill(Future(w, k, grown, m, n), st).log, code, w.clock(k))
  {
    hide *;
    var front, rest := SplitAt(w.queue, code);
    n := TurnComes(w, k, grown, m, st.(looks := st.looks + 1), front);
    var v := Future(w, k, grown, m, n);
    FutureFields(w, k, grown, m, n);
    FutureLook(w, k, grown, m, n, m, code);
    FutureLook(w, k, grown, m, n, n, code);
    FutureLook(w, k, grown, m, n, n + 1, code);
    forall i: nat | m < i < n ensures !v.starts(i) && !v.stop(i) {
      FutureLook(w, k, grown, m, n, i, code);
    }
    StartsAfterFailures(v, st, front, code, rest, n);
  }

  /** The look at which the next reap ends, in every future whose feeds have grown until then. */
  lemma ReapComes(w: World, st: State, grown: nat) returns (m: nat)
    ensures m > st.looks
    ensures forall n: nat :: n >= m ==> Reap(Future(w, st.looks, grown, m, n), st).looks == m
  {
    hide FutureFeed, ReapCodes, Gone, SameUntil;
    var late, k := st.looks + 1 + 2 * |Gone(st.started, {})|, st.looks;
    var w1 := Future(w, k, grown, late, late);
    ReapLooks(w1, st.(looks := k + 1), Gone(st.started, {}));
    m := Reap(w1, st).looks;
    assert k < m <= late;
    hide Reap, Future;
    forall n: nat | n >= m ensures Reap(Future(w, k, grown, m, n), st).looks == m {
      FuturesAgree(w, k, grown, late, late, m, n, m);
      ReapSame(w1, Future(w, k, grown, m, n), st, m);
    }
  }

  lemma FutureClears(w: World, st: State, code: Code, grown: nat, m: nat, n: nat)
    requires Keyed(st.started) && HasEntry(st.started, code) && grown > Before(st.started, code)
    requires Reap(Future(w, st.looks, grown, m, n), st).looks == m
    ensures var r := Reap(Future(w, st.looks, grown, m, n), st); CooldownUntil(r.fails, code) == 0 && st.log <= r.log
  {
    var v := Future(w, st.looks, grown, m, n);
    assert v.running(st.looks) == {};
    assert forall i: nat :: st.looks < i < m ==> v.feed(i, code) == grown;
    hide Reap, Future;
    ReapClears(v, st, code);
  }

  /** From an exposed state the next cycle can start the code too early. */
  lemma ExposedCanStart(w: World, st: State, code: Code) returns (v: World)
    requires Sane(w) && Keyed(st.started) && Now(w, st) >= 0 && Exposed(w, st, code, Now(w, st))
    ensures Sane(v) && SameUntil(w, v, st.looks) && !CooldownKept(Cycle(v, st).log)
  {
    var k, grown := st.looks, Before(st.started, code) + 1;
    var m := ReapComes(w, st, grown);
    var reaped := Reap(Future(w, k, grown, m, m), st);
    FutureClears(w, st, code, grown, m, m);
    hide Reap, Fill, Future, Before;
    var n := FutureStarts(w, k, grown, m, reaped, code);
    v := Future(w, k, grown, m, n);
    FutureIsSane(w, k, grown, m, n);
    FuturesAgree(w, k, grown, m, m, m, n, m);
    ReapSame(Future(w, k, grown, m, m), v, st, m);
    var f :| f in st.log && f.Failed? && f.code == code && f.at + FAIL_COOLDOWN_S > Now(w, st);
    assert f in reaped.log;
    StartsTooEarly(reaped.log, Cycle(v, st).log, f, code, w.clock(k));
  }

  /** A cycle is steady if and only if, however the world goes on after it, the next cycle
      starts no code within its cool-down. */
  lemma SteadyIffSafe(w: World, st: State)
    requires Sane(w) && Inv(w, st) && Now(w, st) >= 0
    ensures Steady(w, st) <==>
      forall w2 :: Sane(w2) && SameUntil(w, w2, Cycle(w, st).looks) ==> CooldownKept(Run(w2, st, 2).log)
  {
    var r := Cycle(w, st);
    if Steady(w, st) {
      forall w2 | Sane(w2) && SameUntil(w, w2, r.looks) ensures CooldownKept(Run(w2, st, 2).log) {
        SteadyIsSafe(w, w2, st);
      }
    } else {
      var code := UnsteadyExposes(w, st);
      CycleExact(w, st);
      CycleGoesOn(w, st);
      hide Cycle, Steady, Exposed;
      var v := ExposedCanStart(w, r, code);
      CycleSame(w, v, st);
      TwoCycles(v, st);
    }
  }

  lemma CycleGoesOn(w: World, st: State)
    requires Sane(w)
    ensures Now(w, Cycle(w, st)) >= Now(w, st)
  {
    CycleSame(w, w, st);
    ClockPasses(w, st.looks, Cycle(w, st).looks);
    hide Cycle;
  }
}
