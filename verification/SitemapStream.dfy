/**
 The admission loop of the sitemap crawler, as the class of fields its closures update,
 run against an arbitrary environment of other crawlers. Every run of the loop is shown
 to be a run of the budget protocol, so the overshoot bound holds of the loop itself.
 */
module SitemapStream {
  import opened Prelude
  import opened CrawlBudget

  /** The steps of other crawlers leave the files and the process of `s` alone. */
  lemma {:induction false} OthersLeaveAlone(c: Config, st: State, steps: seq<Step>, s: nat)
    requires Shaped(c, st) && s < |c.kinds| && forall e :: e in steps ==> e.s != s
    ensures Run(c, st, steps).procs[s] == st.procs[s] && Run(c, st, steps).files[s] == st.files[s]
    decreases |steps|
  {
    if steps != [] {
      assert steps[0] in steps && forall e :: e in steps[1..] ==> e in steps;
      var mid := Next(c, st, steps[0]);
      assert mid.procs[s] == st.procs[s] && mid.files[s] == st.files[s];
      hide Next;
      OthersLeaveAlone(c, mid, steps[1..], s);
    }
  }

  class Stream {
    const c: Config
    const s: nat
    var files: seq<seq<Row>>  // the feed directory, shared
    var others: seq<Proc>     // the other crawlers; the entry of `s` is not used
    var byId: seq<Row>
    var fetched: nat
    var fail: nat
    var since: nat            // results since the last checkpoint; only the protocol needs it

    /** This crawler and its environment as a protocol state. */
    function St(): State
      reads this
      requires s < |others|
    {
      State(files, others[s := Crawling(byId, since, Each)])
    }

    ghost predicate Running()
      reads this
    {
      s < |c.kinds| == |others| && c.kinds[s] == Some(Kind.Stream) && Inv(c, St())
    }

    /** Between two results: the counter that drives the checkpoints bounds what is unsaved. */
    ghost predicate Valid()
      reads this
    {
      Running() && since <= fetched % STREAM_CHECKPOINT && fail <= fetched
    }

    method Budget() returns (live: Option<nat>)
      requires Running()
      ensures live == Live(c, St(), s)
    {
      assert St().files == files;
      var total := 0;
      var i := 0;
      while i < |files|
        invariant 0 <= i <= |files|
        invariant total == Sum(Counts(files)[..i]) - if s < i then |files[s]| else 0
      {
        SumAppend(Counts(files)[..i], [|files[i]|]);
        assert Counts(files)[..i] + [|files[i]|] == Counts(files)[..i + 1];
        assert Sum([|files[i]|]) == |files[i]|;
        if i != s {
          total := total + |files[i]|;
        }
        i := i + 1;
      }
      assert Counts(files)[..i] == Counts(files);
      assert total == Others(St(), s);
      live := AbsoluteCap(c.limits[s], c.cap, total);
    }

    /** Other processes run for a while. */
    method Interfere(steps: seq<Step>)
      requires Running() && forall e :: e in steps ==> e.s != s
      modifies this`files, this`others
      ensures Running() && St() == Run(c, old(St()), steps)
      ensures files[s] == old(files)[s]
    {
      OthersLeaveAlone(c, St(), steps, s);
      RunKeepsInv(c, St(), steps);
      var r := Run(c, St(), steps);
      files, others := r.files, r.procs;
      assert St().procs == Run(c, old(St()), steps).procs;
    }

    /** `write_feed` of everything admitted so far. */
    method Save()
      requires Running()
      modifies this`files, this`since
      ensures Running() && St() == Next(c, old(St()), Checkpoint(s))
      ensures files[s] == CompleteRows(byId) && since == 0
    {
      NextKeepsInv(c, St(), Checkpoint(s));
      NextCheckpoint(c, St(), s);
      files := files[s := CompleteRows(byId)];
      since := 0;
      assert St().procs == Next(c, old(St()), Checkpoint(s)).procs;
    }

    /** What happens under the lock when a page has been fetched, up to the checkpoint. */
    method Take(page: Option<Row>)
      requires Valid()
      modifies this`byId, this`fetched, this`fail, this`since
      ensures St() == Next(c, old(St()), Result(s, page)) && Inv(c, St())
      ensures fetched == old(fetched) + 1 && since == old(since) + 1 && fail <= fetched
      ensures fail - old(fail) == if page.Some? && page.value.id != "" then 0 else 1
    {
      NextKeepsInv(c, St(), Result(s, page));
      NextResult(c, St(), s, page);
      fetched := fetched + 1;
      var liveNow := Budget();
      if page.Some? && page.value.id != "" {
        if liveNow.None? || |byId| < liveNow.value {
          byId := Upsert(byId, page.value);
        }
      } else {
        fail := fail + 1;
      }
      since := since + 1;
      assert St().procs == Next(c, old(St()), Result(s, page)).procs;
    }

    /** The environment moves, then this crawler checkpoints. */
    method SaveLater(env: seq<Step>) returns (ghost trace: seq<Step>)
      requires Running() && fail <= fetched && forall e :: e in env ==> e.s != s
      modifies this`files, this`others, this`since
      ensures Valid() && St() == Run(c, old(St()), trace)
      ensures files[s] == CompleteRows(byId) && since == 0
    {
      Interfere(env);
      RunAppend(c, old(St()), env, [Checkpoint(s)]);
      RunOne(c, St(), Checkpoint(s));
      hide Next, Run;
      Save();
      trace := env + [Checkpoint(s)];
    }

    /** The environment moves, one result is taken, and every 150th is followed by a checkpoint. */
    method TakeLater(page: Option<Row>, env: seq<Step>, later: seq<Step>) returns (ghost trace: seq<Step>)
      requires Valid() && forall e :: e in env || e in later ==> e.s != s
      modifies this
      ensures Valid() && St() == Run(c, old(St()), trace)
      ensures fetched == old(fetched) + 1
    {
      hide Next, Run, Live;
      Interfere(env);
      RunAppend(c, old(St()), env, [Result(s, page)]);
      RunOne(c, St(), Result(s, page));
      Take(page);
      trace := env + [Result(s, page)];
      if fetched % STREAM_CHECKPOINT == 0 {
        ghost var taken := trace;
        ghost var saved := SaveLater(later);
        RunAppend(c, old(St()), taken, saved);
        trace := taken + saved;
      }
    }

    /** One map's pages, in the order in which their fetches complete. `env(k)` is what the
        other crawlers do before the k-th point where this one looks at or writes the
        shared directory. */
    method ProcessUrls(pages: seq<Option<Row>>, env: nat -> seq<Step>) returns (more: bool, ghost trace: seq<Step>)
      requires Valid() && forall k: nat, e :: e in env(k) ==> e.s != s
      modifies this
      ensures Valid() && St() == Run(c, old(St()), trace)
      ensures Total(St()) <= c.cap + Overshoot(c)
      ensures fetched <= old(fetched) + |pages|
      ensures more && pages != [] ==> files[s] == CompleteRows(byId) && since == 0
      ensures !more ==> !HasRoom(byId, Live(c, St(), s))
    {
      hide Next, Overshoot;
      trace := [];
      more := true;
      var tick: nat := 0;
      var start: nat := 0;
      while start < |pages|
        invariant Valid() && St() == Run(c, old(St()), trace)
        invariant fetched <= old(fetched) + Min(start, |pages|)
        invariant more
        invariant start > 0 ==> files[s] == CompleteRows(byId) && since == 0
      {
        hide Run;
        RunAppend(c, old(St()), trace, env(tick));
        Interfere(env(tick));
        trace := trace + env(tick);
        tick := tick + 1;
        var live := Budget();
        if live.Some? && |byId| >= live.value {
          more := false;
          break;
        }
        var batch := pages[start..Min(start + BATCH, |pages|)];
        if live.Some? {
          batch := batch[..Min(live.value - |byId|, |batch|)];
        }
        ghost var taken := ProcessBatch(batch, env, tick);
        RunAppend(c, old(St()), trace, taken);
        trace := trace + taken;
        tick := tick + 2 * |batch|;
        ghost var saved := SaveLater(env(tick));
        RunAppend(c, old(St()), trace, saved);
        trace := trace + saved;
        tick := tick + 1;
        start := start + BATCH;
      }
      InvBoundsTotal(c, St());
    }

    method ProcessBatch(batch: seq<Option<Row>>, env: nat -> seq<Step>, from: nat) returns (ghost trace: seq<Step>)
      requires Valid() && forall k: nat, e :: e in env(k) ==> e.s != s
      modifies this
      ensures Valid() && St() == Run(c, old(St()), trace)
      ensures fetched == old(fetched) + |batch|
    {
      hide Next;
      trace := [];
      var i := 0;
      while i < |batch|
        invariant 0 <= i <= |batch| && fetched == old(fetched) + i
        invariant Valid() && St() == Run(c, old(St()), trace)
      {
        hide Run;
        ghost var taken := TakeLater(batch[i], env(from + 2 * i), env(from + 2 * i + 1));
        RunAppend(c, old(St()), trace, taken);
        trace := trace + taken;
        i := i + 1;
      }
    }
  }
}
