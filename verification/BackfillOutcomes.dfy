/** What becomes of a product, an asset and the counters in an image backfill. */
module BackfillOutcomes {
  import opened Prelude
  import opened ImageBackfill

  /** A call that raises makes the worker report a failure and leaves everything else alone; one
      that returns takes it a step further, and storing writes its draft to the table. */
  lemma CallEnds(c: Config, st: State, w: nat, result: Option<Draft>)
    requires w < |st.phases| == |c.hasUrl|
    ensures var p, r := st.phases[w], Next(c, st, Step(w, result));
      && ((p.Fetching? || p.Ingesting? || p.Storing? || p.Linking?) && result == None ==>
            r == st.(phases := st.phases[w := Reporting(Failed)]))
      && (p.Fetching? && result.Some? ==> r == st.(phases := st.phases[w := WantSnapshot]))
      && (p.Ingesting? && result.Some? ==> r == st.(phases := st.phases[w := Storing(result.value)]))
      && (p.Storing? && result.Some? ==>
            r == st.(phases := st.phases[w := Linking(p.draft)], assets := Upsert(st.assets, p.draft)))
      && (p.Linking? && result.Some? ==> r == st.(phases := st.phases[w := Reporting(Stored(p.draft))]))
  {
    hide Upsert;
  }

  /** The check of an image sees the hashes known when the worker held the lock, and a stored
      image's hash becomes known when it is counted. */
  lemma HashesKnown(c: Config, st: State, w: nat, result: Option<Draft>)
    requires w < |st.phases| == |c.hasUrl|
    ensures var p, r := st.phases[w], Next(c, st, Step(w, result));
      && (p.SnapshotLocked? ==> r.phases[w] == Ingesting(st.known) && r.known == st.known)
      && (p.Counting? && p.k == 0 ==>
            r.known == match p.outcome
              case Stored(d) => st.known + {d.sha}
              case Failed => st.known
              case WithoutUrl => st.known)
  {
    hide Upsert;
  }

  lemma UpsertUnfolds(assets: seq<Asset>, d: Draft)
    ensures Upsert(assets, d) ==
      if assets == [] then [Asset(d.sha, d.ready, d.cdn)]
      else if assets[0].sha == d.sha then
        [Asset(d.sha, d.ready, if d.cdn == None then assets[0].cdn else d.cdn)] + assets[1..]
      else [assets[0]] + Upsert(assets[1..], d)
  {
  }

  lemma AppendCons(assets: seq<Asset>, a: Asset)
    requires assets != []
    ensures assets + [a] == [assets[0]] + (assets[1..] + [a])
  {
  }

  /** A stored asset: the first row with its hash is updated, or a row comes last; its status is
      that of the draft, and its address too if the draft has one. */
  lemma {:induction false} UpsertIs(assets: seq<Asset>, d: Draft, i: nat)
    requires i <= |assets| && (i < |assets| ==> assets[i].sha == d.sha)
    requires forall k :: 0 <= k < i ==> assets[k].sha != d.sha
    ensures Upsert(assets, d) ==
      if i == |assets| then assets + [Asset(d.sha, d.ready, d.cdn)]
      else assets[i := Asset(d.sha, d.ready, if d.cdn == None then assets[i].cdn else d.cdn)]
  {
    hide *;
    UpsertUnfolds(assets, d);
    if i < |assets| {
      UpdateCons(assets, i, Asset(d.sha, d.ready, if d.cdn == None then assets[i].cdn else d.cdn));
    } else if assets != [] {
      AppendCons(assets, Asset(d.sha, d.ready, d.cdn));
    }
    if i > 0 {
      UpsertIs(assets[1..], d, i - 1);
    }
  }

  /** The workers that ended in a certain way. */
  function EndedAs(st: State, o: Outcome -> bool): nat -> bool {
    (w: nat) => w < |st.phases| && st.phases[w].Ended? && o(st.phases[w].outcome)
  }

  lemma SameTally(n: nat, p: nat -> bool, q: nat -> bool)
    requires forall w: nat :: w < n ==> p(w) == q(w)
    ensures Tally(n, p) == Tally(n, q)
  {
    TallyMono(n, p, q);
    TallyMono(n, q, p);
  }

  /** There are as many permits as configured, and at least one; all of them come back. */
  lemma PermitsBack(c: Config, st: State)
    requires Inv(c, st) && AllEnded(st)
    ensures st.free == if c.concurrency >= 1 then c.concurrency else 1
  {
    EndCountsAll(c, st);
    hide Inv, AllEnded;
  }

  /** The final counters: images stored ready and stored in quarantine, failures, and products
      without a URL. */
  lemma EndCounts(c: Config, st: State)
    requires Inv(c, st) && AllEnded(st)
    ensures st.stats.ready == Tally(|st.phases|, EndedAs(st, (o: Outcome) => o.Stored? && o.draft.ready))
    ensures st.stats.quarantined == Tally(|st.phases|, EndedAs(st, (o: Outcome) => o.Stored? && !o.draft.ready))
    ensures st.stats.failed == Tally(|st.phases|, EndedAs(st, (o: Outcome) => o == Failed))
    ensures st.stats.noUrl == Tally(|st.phases|, EndedAs(st, (o: Outcome) => o == WithoutUrl))
  {
    var n := |st.phases|;
    assert StatOf(st.stats, Ready) == st.stats.ready && StatOf(st.stats, Quarantined) == st.stats.quarantined;
    assert StatOf(st.stats, Broken) == st.stats.failed && StatOf(st.stats, Missing) == st.stats.noUrl;
    SameTally(n, CountedAs(st, Ready), EndedAs(st, (o: Outcome) => o.Stored? && o.draft.ready));
    SameTally(n, CountedAs(st, Quarantined), EndedAs(st, (o: Outcome) => o.Stored? && !o.draft.ready));
    SameTally(n, CountedAs(st, Broken), EndedAs(st, (o: Outcome) => o == Failed));
    SameTally(n, CountedAs(st, Missing), EndedAs(st, (o: Outcome) => o == WithoutUrl));
  }
}
