/**
 The listing crawler that pages through categories until the server runs dry or a cap
 stops it. The caps it reads may shrink between pages; termination rests on the fixed
 ceiling they never exceed and on the number of distinct ids, which never falls.
 */
module VatanPages {
  import opened Prelude
  import opened CrawlBudget
  import opened RowSupply

  /** `Unavailable` is any status but 200; `lastLinked` is the largest page number linked. */
  datatype Answer = Unavailable | Listing(rows: seq<Row>, lastLinked: Option<int>)

  ghost predicate Distinct(rows: seq<Row>) {
    forall i, j :: 0 <= i < j < |rows| ==> rows[i].id != rows[j].id
  }

  lemma {:induction false} UpsertKeeps(rows: seq<Row>, r: Row)
    ensures forall q :: q in Upsert(rows, r) ==> q == r || q in rows
    ensures Distinct(rows) ==> Distinct(Upsert(rows, r))
  {
    if rows != [] && rows[0].id != r.id {
      var rest := Upsert(rows[1..], r);
      UpsertKeeps(rows[1..], r);
      assert Upsert(rows, r) == [rows[0]] + rest;
      hide Upsert, Distinct;
      assert forall q :: q in rows <==> q == rows[0] || q in rows[1..];
      if Distinct(rows) {
        TailDistinct(rows);
        ConsDistinct(rows[0], rest);
      }
    } else {
      ReplaceDistinct(rows, r);
    }
  }

  lemma TailDistinct(rows: seq<Row>)
    requires Distinct(rows) && rows != []
    ensures Distinct(rows[1..]) && forall q :: q in rows[1..] ==> q.id != rows[0].id
  {
  }

  lemma ConsDistinct(first: Row, rest: seq<Row>)
    requires Distinct(rest) && forall q :: q in rest ==> q.id != first.id
    ensures Distinct([first] + rest)
  {
    assert forall i :: 0 <= i < |rest| ==> rest[i] in rest;
  }

  lemma ReplaceDistinct(rows: seq<Row>, r: Row)
    requires rows == [] || rows[0].id == r.id
    ensures forall q :: q in Upsert(rows, r) ==> q == r || q in rows
    ensures Distinct(rows) ==> Distinct(Upsert(rows, r))
  {
  }

  lemma {:induction false} MergeKeeps(seen: seq<Row>, rows: seq<Row>)
    ensures Distinct(seen) ==> Distinct(Merge(seen, rows))
    ensures forall q :: q in Merge(seen, rows) ==> q in seen || q in rows
    decreases |rows|
  {
    if rows != [] {
      UpsertKeeps(seen, rows[0]);
      MergeKeeps(Upsert(seen, rows[0]), rows[1..]);
    }
  }

  /** Rebuilding the dictionary from rows that are already distinct changes nothing. */
  lemma {:induction false} MergeDistinct(seen: seq<Row>, rows: seq<Row>, more: seq<Row>)
    requires Distinct(seen + rows)
    ensures Merge(seen, rows + more) == Merge(seen + rows, more)
    decreases |rows|
  {
    if rows == [] {
      assert rows + more == more && seen + rows == seen;
    } else {
      var r := rows[0];
      HeadIsNew(seen, rows);
      assert (seen + [r]) + rows[1..] == seen + rows;
      assert (rows + more)[1..] == rows[1..] + more;
      hide Distinct;
      MergeDistinct(seen + [r], rows[1..], more);
    }
  }

  lemma HeadIsNew(seen: seq<Row>, rows: seq<Row>)
    requires Distinct(seen + rows) && rows != []
    ensures Upsert(seen, rows[0]) == seen + [rows[0]]
  {
    forall q | q in seen ensures q.id != rows[0].id {
      var i :| 0 <= i < |seen| && seen[i] == q;
      assert (seen + rows)[i] == q && (seen + rows)[|seen|] == rows[0];
    }
    UpsertNew(seen, rows[0]);
  }

  lemma {:induction false} LoadDistinct(rows: seq<Row>)
    ensures Distinct(Load(rows)) && forall q :: q in Load(rows) ==> q in rows
    decreases |rows|
  {
    if rows != [] {
      var before := rows[..|rows| - 1];
      LoadDistinct(before);
      UpsertKeeps(Load(before), rows[|rows| - 1]);
    }
  }

  /** In rows with distinct ids, `by_id[id] = row` replaces the row with that id, if any. */
  lemma {:induction false} UpsertExact(rows: seq<Row>, r: Row)
    requires Distinct(rows)
    ensures forall q :: q in Upsert(rows, r) <==> q == r || (q in rows && q.id != r.id)
  {
    if rows != [] {
      var rest := rows[1..];
      UpsertExact(rest, r);
      assert forall q :: q in rows <==> q == rows[0] || q in rest;
      forall q | q in rest ensures q.id != rows[0].id {
        var i :| 0 <= i < |rest| && rest[i] == q;
        assert rows[i + 1] == q;
      }
    }
  }

  /** The last row with an id. */
  function LastById(rows: seq<Row>, id: string): (r: Option<Row>)
    ensures r.None? <==> forall q :: q in rows ==> q.id != id
    ensures r.Some? ==> r.value in rows && r.value.id == id
  {
    if rows == [] then None
    else
      var n := |rows| - 1;
      assert forall q :: q in rows <==> q in rows[..n] || q == rows[n];
      if rows[n].id == id then Some(rows[n]) else LastById(rows[..n], id)
  }

  /** Resuming keeps, for every id but the empty one, exactly the last stored row. */
  lemma {:induction false} LoadExact(rows: seq<Row>)
    ensures forall q :: q in Load(rows) <==> q.id != "" && LastById(rows, q.id) == Some(q)
    decreases |rows|
  {
    if rows != [] {
      var n := |rows| - 1;
      var before, last := rows[..n], rows[n];
      LoadExact(before);
      LoadDistinct(before);
      UpsertExact(Load(before), last);
      hide Upsert, Distinct;
    }
  }

  lemma PrefixDistinct(rows: seq<Row>, k: nat)
    requires Distinct(rows) && k <= |rows|
    ensures Distinct(rows[..k]) && forall q :: q in rows[..k] ==> q in rows
  {
  }

  datatype Outcome = Return(out: seq<Row>) | NextCategory(out: seq<Row>) | NextPage(out: seq<Row>)

  /** One turn of the page loop, once the cap has been read and the server has answered. */
  function OnPage(out: seq<Row>, live: Option<nat>, answer: Answer, page: int): Outcome {
    if answer.Unavailable? || answer.rows == [] then NextCategory(out)
    else
      var merged := Truncate(Merge([], out + answer.rows), live);
      if !HasRoom(merged, live) then Return(Truncate(merged, live))
      else if |merged| == |out| then NextCategory(merged)
      else if page + 1 > answer.lastLinked.GetOr(page) then NextCategory(merged)
      else NextPage(merged)
  }

  lemma OnPageGrows(out: seq<Row>, live: Option<nat>, answer: Answer, page: int)
    requires Distinct(out) && HasRoom(out, live)
    ensures var o := OnPage(out, live, answer, page);
      && Distinct(o.out)
      && (forall q :: q in o.out ==> q in out || (answer.Listing? && q in answer.rows))
      && (live.Some? ==> |o.out| <= live.value)
      && (!o.Return? ==> |out| <= |o.out| && HasRoom(o.out, live))
      && (o.NextPage? ==> |out| < |o.out|)
  {
    if answer.Listing? {
      MergedGrows(out, live, answer.rows);
    }
    hide Merge, Distinct;
  }

  /** The list of products after a listing. */
  lemma MergedGrows(out: seq<Row>, live: Option<nat>, rows: seq<Row>)
    requires Distinct(out) && HasRoom(out, live)
    ensures var merged := Truncate(Merge([], out + rows), live);
      && Distinct(merged) && |out| <= |merged| && (live.Some? ==> |merged| <= live.value)
      && forall q :: q in merged ==> q in out || q in rows
  {
    assert [] + out == out;
    MergeDistinct([], out, rows);
    MergeKeeps(out, rows);
    var merged := Merge(out, rows);
    hide Merge, Distinct;
    if live.Some? && live.value < |merged| {
      PrefixDistinct(merged, live.value);
    }
  }

  lemma TruncateKeeps(rows: seq<Row>, live: Option<nat>)
    ensures HasRoom(rows, live) ==> Truncate(rows, live) == rows
    ensures Truncate(Truncate(rows, live), live) == Truncate(rows, live)
  {
  }

  lemma PageTurn(out: seq<Row>, live: Option<nat>, answer: Answer, page: int)
    requires Distinct(out) && HasRoom(out, live)
    ensures var o, merged := OnPage(out, live, answer, page),
        Truncate(Merge(out, if answer.Listing? then answer.rows else []), live);
      o.out == merged && (o.Return? <==> !HasRoom(merged, live))
  {
    TruncateKeeps(out, live);
    if answer.Listing? && answer.rows != [] {
      assert [] + out == out;
      MergeDistinct([], out, answer.rows);
      TruncateKeeps(Merge(out, answer.rows), live);
      hide Merge, Truncate, HasRoom, Distinct;
    }
  }

  /** A turn of the page loop is the step of the shared budget protocol that handles an answer. */
  lemma TurnIsAnswer(st: State, s: nat, out: seq<Row>, live: Option<nat>, answer: Answer, page: int)
    requires s < |st.files| && s < |st.procs| && Distinct(out) && HasRoom(out, live)
    ensures var o := OnPage(out, live, answer, page);
      Answered(st, s, out, if answer.Listing? then answer.rows else [], live)
      == if o.Return? then Ended(st, s, Paged, o.out) else st.(procs := st.procs[s := Crawling(o.out, 0, Page(None))])
  {
    PageTurn(out, live, answer, page);
    hide OnPage, Merge, Truncate, HasRoom, Distinct, Ended;
  }

  /** The largest cap any read can return. */
  function Ceiling(limit: int, cap: int): nat
    requires limit > 0 || cap > 0
  {
    AbsoluteCap(limit, cap, 0).value
  }

  /** Every row comes from the stored feed or from one of the first `n` answers. */
  ghost predicate FromServer(out: seq<Row>, feed: seq<Row>, answer: nat -> Answer, n: nat) {
    forall q :: q in out ==> q in feed || exists k: nat :: k < n && answer(k).Listing? && q in answer(k).rows
  }

  lemma FromServerGrows(out: seq<Row>, next: seq<Row>, feed: seq<Row>, answer: nat -> Answer, n: nat)
    requires FromServer(out, feed, answer, n)
    requires forall q :: q in next ==> q in out || (answer(n).Listing? && q in answer(n).rows)
    ensures FromServer(next, feed, answer, n + 1)
  {
  }

  lemma LiveBelowCeiling(limit: int, cap: int, others: nat)
    requires limit > 0 || cap > 0
    ensures var live := AbsoluteCap(limit, cap, others); live.Some? && live.value <= Ceiling(limit, cap)
  {
  }

  /** What the loop keeps: distinct rows of known origin, no fewer than at the start, and
      below the ceiling from the first request on. */
  ghost predicate Good(out: seq<Row>, feed: seq<Row>, answer: nat -> Answer, requests: nat, top: nat) {
    && Distinct(out)
    && FromServer(out, feed, answer, requests)
    && (|out| <= top || (out == Load(feed) && requests == 0))
  }

  lemma GoodStart(feed: seq<Row>, answer: nat -> Answer, top: nat)
    ensures Good(Load(feed), feed, answer, 0, top)
  {
    LoadDistinct(feed);
  }

  lemma GoodPage(out: seq<Row>, feed: seq<Row>, answer: nat -> Answer, requests: nat, top: nat, live: Option<nat>,
      page: int)
    requires Good(out, feed, answer, requests, top) && live.Some? && live.value <= top && HasRoom(out, live)
    ensures Good(OnPage(out, live, answer(requests), page).out, feed, answer, requests + 1, top)
  {
    OnPageGrows(out, live, answer(requests), page);
    FromServerGrows(out, OnPage(out, live, answer(requests), page).out, feed, answer, requests);
  }

  /** The final `list({...}.values())` and the cut to the cap read last. */
  lemma GoodEnd(out: seq<Row>, feed: seq<Row>, answer: nat -> Answer, requests: nat, top: nat, live: Option<nat>)
    requires Good(out, feed, answer, requests, top) && live.Some? && live.value <= top
    ensures Merge([], out) == out
    ensures Good(Truncate(out, live), feed, answer, requests, top) && |Truncate(out, live)| <= top
  {
    assert [] + out == out && out + [] == out;
    MergeDistinct([], out, []);
    if live.value < |out| {
      PrefixDistinct(out, live.value);
    }
  }

  predicate HasId(rows: seq<Row>, id: string) { exists q :: q in rows && q.id == id }

  lemma {:induction false} UpsertHasIds(rows: seq<Row>, r: Row)
    ensures forall q :: q == r || q in rows ==> HasId(Upsert(rows, r), q.id)
  {
    var up := Upsert(rows, r);
    assert r in up;
    if rows != [] && rows[0].id != r.id {
      var rest := Upsert(rows[1..], r);
      UpsertHasIds(rows[1..], r);
      assert up == [rows[0]] + rest;
      forall q | q in rows ensures HasId(up, q.id) {
        if q != rows[0] {
          var p :| p in rest && p.id == q.id;
          assert p in up;
        } else {
          assert rows[0] in up;
        }
      }
    } else if rows != [] {
      assert up == [r] + rows[1..];
      forall q | q in rows ensures HasId(up, q.id) {
        if q != rows[0] {
          assert q in rows[1..] && q in up;
        }
      }
    }
  }

  /** Merging loses no id. */
  lemma {:induction false} MergeHasIds(seen: seq<Row>, rows: seq<Row>)
    ensures forall q :: q in seen || q in rows ==> HasId(Merge(seen, rows), q.id)
    decreases |rows|
  {
    if rows == [] {
      assert forall q :: q in seen ==> HasId(seen, q.id);
    } else {
      var next := Upsert(seen, rows[0]);
      UpsertHasIds(seen, rows[0]);
      MergeHasIds(next, rows[1..]);
      forall q | q in seen || q in rows ensures HasId(Merge(seen, rows), q.id) {
        if q in seen || q == rows[0] {
          var p :| p in next && p.id == q.id;
        } else {
          assert q in rows[1..];
        }
      }
    }
  }

  /** A page either reaches the cap it was read against or loses no product. */
  lemma OnPageKeeps(out: seq<Row>, live: Option<nat>, answer: Answer, page: int)
    ensures var o := OnPage(out, live, answer, page);
      && (o.Return? ==> live.Some? && |o.out| == live.value)
      && (!o.Return? ==> forall q :: q in out || (answer.Listing? && q in answer.rows) ==> HasId(o.out, q.id))
  {
    if answer.Unavailable? || answer.rows == [] {
      assert forall q :: q in out ==> HasId(out, q.id);
    } else {
      MergeHasIds([], out + answer.rows);
      hide Merge, HasId;
    }
  }

  /** Every product of the old feed, and every one listed so far, is there by its id. */
  ghost predicate AllKept(out: seq<Row>, feed: seq<Row>, answer: nat -> Answer, n: nat) {
    && (forall q :: q in Load(feed) ==> HasId(out, q.id))
    && (forall k: nat, r :: k < n && answer(k).Listing? && r in answer(k).rows ==> HasId(out, r.id))
  }

  lemma AllKeptGrows(out: seq<Row>, next: seq<Row>, feed: seq<Row>, answer: nat -> Answer, n: nat)
    requires AllKept(out, feed, answer, n)
    requires forall q :: q in out || (answer(n).Listing? && q in answer(n).rows) ==> HasId(next, q.id)
    ensures AllKept(next, feed, answer, n + 1)
  {
    forall id | HasId(out, id) ensures HasId(next, id) {
      var q :| q in out && q.id == id;
      assert HasId(next, q.id);
    }
    hide HasId;
  }

  /** A cap that was read has been reached. */
  ghost predicate Capped(out: seq<Row>, limit: int, cap: int, others: nat -> nat) {
    exists k: nat :: ReachedAt(out, limit, cap, others, k)
  }

  ghost predicate ReachedAt(out: seq<Row>, limit: int, cap: int, others: nat -> nat, k: nat) {
    var live := AbsoluteCap(limit, cap, others(k));
    live.Some? && |out| >= live.value
  }

  lemma CappedAt(out: seq<Row>, limit: int, cap: int, others: nat -> nat, k: nat)
    requires var live := AbsoluteCap(limit, cap, others(k)); live.Some? && |out| >= live.value
    ensures Capped(out, limit, cap, others)
  {
    assert ReachedAt(out, limit, cap, others, k);
  }

  /** What is known when the loop ends: either a cap was reached, or every category was asked
      for and no product is missing. */
  ghost predicate Exhausted(out: seq<Row>, feed: seq<Row>, categories: nat, limit: int, cap: int,
      others: nat -> nat, answer: nat -> Answer, requests: nat)
  {
    Capped(out, limit, cap, others) || (requests >= categories && AllKept(out, feed, answer, requests))
  }

  lemma EndIsExhausted(out: seq<Row>, feed: seq<Row>, categories: nat, limit: int, cap: int,
      others: nat -> nat, answer: nat -> Answer, requests: nat, k: nat)
    requires var live := AbsoluteCap(limit, cap, others(k)); live.Some?
    requires requests >= categories && AllKept(out, feed, answer, requests)
    ensures var live := AbsoluteCap(limit, cap, others(k));
      Exhausted(Truncate(out, live), feed, categories, limit, cap, others, answer, requests)
  {
    var live := AbsoluteCap(limit, cap, others(k));
    if live.value < |out| {
      CappedAt(Truncate(out, live), limit, cap, others, k);
    }
  }

  // ---------- which pages are requested ----------

  /** The page has products and a link to a later page. */
  predicate LinksOn(answer: Answer, page: int) {
    answer.Listing? && answer.rows != [] && answer.lastLinked.Some? && page < answer.lastLinked.value
  }

  /** Some row of the old feed or of an earlier answer has this id. */
  ghost predicate Known(id: string, feed: seq<Row>, answer: nat -> Answer, n: nat) {
    exists q: Row :: q.id == id && (q in feed || exists k: nat :: k < n && answer(k).Listing? && q in answer(k).rows)
  }

  /** Nothing is left of a category after answer `k` to page `page`. */
  ghost predicate Over(feed: seq<Row>, answer: nat -> Answer, k: nat, page: int) {
    !LinksOn(answer(k), page) || forall r :: r in answer(k).rows ==> Known(r.id, feed, answer, k)
  }

  /** After request `k` comes page `next`: the following page of the same category, which is
      linked, or the first page of another one, when nothing is left of this one. */
  ghost predicate Follows(asked: seq<int>, feed: seq<Row>, answer: nat -> Answer, k: nat, next: int)
    requires k < |asked|
  {
    (next == asked[k] + 1 && LinksOn(answer(k), asked[k])) || (next == 1 && Over(feed, answer, k, asked[k]))
  }

  ghost predicate FollowedAt(asked: seq<int>, feed: seq<Row>, answer: nat -> Answer, k: nat)
    requires k < |asked| - 1
  {
    Follows(asked, feed, answer, k, asked[k + 1])
  }

  /** The page numbers that were requested, in order. */
  ghost predicate InPageOrder(asked: seq<int>, feed: seq<Row>, answer: nat -> Answer) {
    && (asked != [] ==> asked[0] == 1)
    && forall k: nat :: k < |asked| - 1 ==> FollowedAt(asked, feed, answer, k)
  }

  /** And the page that comes next. */
  ghost predicate NextIs(asked: seq<int>, feed: seq<Row>, answer: nat -> Answer, page: int) {
    InPageOrder(asked, feed, answer) &&
    if asked == [] then page == 1 else Follows(asked, feed, answer, |asked| - 1, page)
  }

  lemma AskNext(asked: seq<int>, feed: seq<Row>, answer: nat -> Answer, page: int)
    requires NextIs(asked, feed, answer, page)
    ensures InPageOrder(asked + [page], feed, answer)
  {
    var all := asked + [page];
    hide LinksOn, Over;
    forall k: nat | k < |all| - 1 ensures FollowedAt(all, feed, answer, k) {
      assert all[k] == asked[k];
      assert k < |asked| - 1 ==> FollowedAt(asked, feed, answer, k);
    }
  }

  lemma {:induction false} NoGrowthNoNews(seen: seq<Row>, rows: seq<Row>)
    requires |Merge(seen, rows)| == |seen|
    ensures forall q :: q in rows ==> HasId(seen, q.id)
    decreases |rows|
  {
    if rows != [] {
      var r, next := rows[0], Upsert(seen, rows[0]);
      NoGrowthNoNews(next, rows[1..]);
      UpsertKeeps(seen, r);
      if !HasId(seen, r.id) {
        UpsertNew(seen, r);
      }
      hide Upsert;
      forall q | q in rows ensures HasId(seen, q.id) {
        if q != r {
          assert q in rows[1..] && HasId(next, q.id);
        }
      }
    }
  }

  /** What a page says about the next request. */
  lemma OnPageAsks(out: seq<Row>, live: Option<nat>, answer: Answer, page: int)
    requires Distinct(out)
    ensures var o := OnPage(out, live, answer, page);
      && (o.NextPage? ==> LinksOn(answer, page))
      && (o.NextCategory? && LinksOn(answer, page) ==> forall r :: r in answer.rows ==> HasId(out, r.id))
  {
    if answer.Listing? && answer.rows != [] {
      assert [] + out == out;
      MergeDistinct([], out, answer.rows);
      if |Merge(out, answer.rows)| == |out| {
        NoGrowthNoNews(out, answer.rows);
      }
      hide Merge, HasId, Distinct;
    }
  }

  lemma AskedNext(asked: seq<int>, page: int, out: seq<Row>, live: Option<nat>, feed: seq<Row>, answer: nat -> Answer,
      k: nat)
    requires Distinct(out) && FromServer(out, feed, answer, k) && NextIs(asked, feed, answer, page) && k == |asked|
    ensures var o := OnPage(out, live, answer(k), page);
      && (o.NextPage? ==> NextIs(asked + [page], feed, answer, page + 1))
      && (o.NextCategory? ==> NextIs(asked + [page], feed, answer, 1))
  {
    AskNext(asked, feed, answer, page);
    OnPageAsks(out, live, answer(k), page);
    hide OnPage, LinksOn, InPageOrder;
    forall id | HasId(out, id) ensures Known(id, feed, answer, k) {
      var q :| q in out && q.id == id;
    }
  }

  /** What the loop keeps between two requests, the next of which is for page `page`. */
  ghost predicate Progress(out: seq<Row>, feed: seq<Row>, answer: nat -> Answer, top: nat, asked: seq<int>, page: int) {
    && Good(out, feed, answer, |asked|, top) && AllKept(out, feed, answer, |asked|)
    && NextIs(asked, feed, answer, page)
  }

  lemma NoRequestYet(feed: seq<Row>, answer: nat -> Answer, top: nat)
    ensures Progress(Load(feed), feed, answer, top, [], 1)
  {
    hide Load, Good, AllKept;
    GoodStart(feed, answer, top);
    NothingListed(feed, answer);
  }

  lemma ProgressMeans(out: seq<Row>, feed: seq<Row>, answer: nat -> Answer, top: nat, asked: seq<int>, page: int)
    requires Progress(out, feed, answer, top, asked, page)
    ensures Good(out, feed, answer, |asked|, top) && AllKept(out, feed, answer, |asked|)
    ensures InPageOrder(asked, feed, answer)
  {
    hide Good, AllKept, InPageOrder;
  }

  lemma PageDone(out: seq<Row>, feed: seq<Row>, answer: nat -> Answer, top: nat, asked: seq<int>, page: int,
      live: Option<nat>)
    requires Progress(out, feed, answer, top, asked, page) && live.Some? && live.value <= top && HasRoom(out, live)
    ensures var turn, next := OnPage(out, live, answer(|asked|), page), asked + [page];
      && Good(turn.out, feed, answer, |next|, top) && InPageOrder(next, feed, answer)
      && (turn.Return? ==> |turn.out| == live.value)
      && (!turn.Return? ==>
            && Progress(turn.out, feed, answer, top, next, if turn.NextPage? then page + 1 else 1)
            && |out| + (if turn.NextPage? then 1 else 0) <= |turn.out|)
  {
    var turn := OnPage(out, live, answer(|asked|), page);
    hide OnPage, AllKept, InPageOrder, NextIs, Distinct, FromServer, HasId;
    GoodPage(out, feed, answer, |asked|, top, live, page);
    OnPageGrows(out, live, answer(|asked|), page);
    OnPageKeeps(out, live, answer(|asked|), page);
    AskedNext(asked, page, out, live, feed, answer, |asked|);
    AskNext(asked, feed, answer, page);
    if !turn.Return? {
      AllKeptGrows(out, turn.out, feed, answer, |asked|);
    }
  }

  lemma GoodMeans(out: seq<Row>, feed: seq<Row>, answer: nat -> Answer, requests: nat, top: nat)
    requires Good(out, feed, answer, requests, top)
    ensures Distinct(out) && FromServer(out, feed, answer, requests)
    ensures |out| <= top || (out == Load(feed) && requests == 0)
  {
  }

  /** `fetch_vatan` for every server and every movement of the live cap. `others(k)` is what
      the k-th reading of the feed directory counts, `answer(k)` the k-th response, to the
      request for page `asked[k]` of its category. */
  method FetchVatan(feed: seq<Row>, categories: nat, limit: int, cap: int, others: nat -> nat, answer: nat -> Answer)
    returns (out: seq<Row>, requests: nat, ghost asked: seq<int>)
    requires limit > 0 || cap > 0
    ensures |asked| == requests && InPageOrder(asked, feed, answer)
    ensures requests <= categories + Max(0, Ceiling(limit, cap) - |Load(feed)|)
    ensures Distinct(out)
    ensures |out| <= Ceiling(limit, cap) || (out == Load(feed) && requests == 0)
    ensures FromServer(out, feed, answer, requests)
    ensures Exhausted(out, feed, categories, limit, cap, others, answer, requests)
  {
    assert Max(0, Ceiling(limit, cap) - |Load(feed)|) >= 0;
    assert Max(0, Ceiling(limit, cap) - |Load(feed)|) >= Ceiling(limit, cap) - |Load(feed)|;
    hide *;
    requests, asked := 0, [];
    var looks := 1;
    out := Load(feed);
    ghost var top, start := Ceiling(limit, cap), |out|;
    NoRequestYet(feed, answer, top);
    ProgressMeans(out, feed, answer, top, asked, 1);
    GoodMeans(out, feed, answer, 0, top);
    if AbsoluteCap(limit, cap, others(0)) == Some(0) {
      CappedAt(out, limit, cap, others, 0);
      CappedEnds(out, feed, categories, limit, cap, others, answer, 0);
      return;
    }
    var category := 0;
    while category < categories
      invariant 0 <= category <= categories && start <= |out| && |asked| == requests
      invariant Progress(out, feed, answer, top, asked, 1)
      invariant category <= requests <= category + |out| - start
    {
      var page := 1;
      var paging := true;
      while paging
        invariant start <= |out| && |asked| == requests
        invariant Progress(out, feed, answer, top, asked, if paging then page else 1)
        invariant category + (if paging then 0 else 1) <= requests <= category + |out| - start + if paging then 0 else 1
        decreases paging, top - |out|
      {
        var live := AbsoluteCap(limit, cap, others(looks));
        LiveBelowCeiling(limit, cap, others(looks));
        RoomMeans(out, live);
        ProgressMeans(out, feed, answer, top, asked, page);
        if !HasRoom(out, live) {
          GoodEnd(out, feed, answer, requests, top, live);
          out := Truncate(out, live);
          GoodMeans(out, feed, answer, requests, top);
          CappedAt(out, limit, cap, others, looks);
          CappedEnds(out, feed, categories, limit, cap, others, answer, requests);
          return;
        }
        var turn := OnPage(out, live, answer(requests), page);
        PageDone(out, feed, answer, top, asked, page, live);
        looks, requests, asked := looks + 1, requests + 1, asked + [page];
        GoodMeans(turn.out, feed, answer, requests, top);
        if turn.Return? {
          CappedAt(turn.out, limit, cap, others, looks - 1);
          CappedEnds(turn.out, feed, categories, limit, cap, others, answer, requests);
          return turn.out, requests, asked;
        }
        out := turn.out;
        paging := turn.NextPage?;
        page := page + 1;
      }
      category := category + 1;
    }
    var live := AbsoluteCap(limit, cap, others(looks));
    LiveBelowCeiling(limit, cap, others(looks));
    ProgressMeans(out, feed, answer, top, asked, 1);
    GoodEnd(out, feed, answer, requests, top, live);
    EndIsExhausted(out, feed, categories, limit, cap, others, answer, requests, looks);
    out := Truncate(Merge([], out), live);
    GoodMeans(out, feed, answer, requests, top);
  }

  lemma CappedEnds(out: seq<Row>, feed: seq<Row>, categories: nat, limit: int, cap: int, others: nat -> nat,
      answer: nat -> Answer, requests: nat)
    requires Capped(out, limit, cap, others)
    ensures Exhausted(out, feed, categories, limit, cap, others, answer, requests)
  {
  }

  lemma RoomMeans(out: seq<Row>, live: Option<nat>)
    ensures HasRoom(out, live) <==> live.None? || |out| < live.value
    ensures !HasRoom(out, live) ==> |Truncate(out, live)| == live.value
  {
  }

  lemma NothingListed(feed: seq<Row>, answer: nat -> Answer)
    ensures AllKept(Load(feed), feed, answer, 0)
  {
  }

  // ---------- without a cap ----------

  /** The page loop of one category without any cap, `n` answers long. */
  function Paging(out: seq<Row>, page: int, answer: nat -> Answer, k: nat, n: nat): Outcome
    decreases n
  {
    if n == 0 then NextPage(out)
    else
      var o := OnPage(out, None, answer(k), page);
      if o.NextPage? then Paging(o.out, page + 1, answer, k + 1, n - 1) else o
  }

  /** A server that always has one more product and always links one more page. */
  function Endless(k: nat): Answer { Listing([Fresh(k)], Some(k + 2)) }

  lemma FreshAllDistinct(k: nat)
    ensures Distinct(FreshRows(k))
  {
    forall i, j | 0 <= i < j < k ensures FreshRows(k)[i].id != FreshRows(k)[j].id {
      assert |FreshRows(k)[i].id| == i + 1 && |FreshRows(k)[j].id| == j + 1;
    }
  }

  lemma EndlessPage(k: nat)
    ensures OnPage(FreshRows(k), None, Endless(k), k + 1) == NextPage(FreshRows(k + 1))
  {
    hide FreshRows, Fresh, Distinct, Merge, Upsert;
    FreshAllDistinct(k);
    FreshGrows(k);
    MergeOne(FreshRows(k), Fresh(k));
  }

  lemma MergeOne(rows: seq<Row>, r: Row)
    requires Distinct(rows)
    ensures Merge([], rows + [r]) == Upsert(rows, r)
  {
    hide Upsert, Distinct;
    assert [] + rows == rows;
    MergeDistinct([], rows, [r]);
    assert [r][1..] == [];
  }

  lemma {:induction false} EndlessKeepsPaging(k: nat, n: nat)
    ensures Paging(FreshRows(k), k + 1, Endless, k, n) == NextPage(FreshRows(k + n))
    decreases n
  {
    if n > 0 {
      EndlessPage(k);
      hide OnPage, FreshRows;
      EndlessKeepsPaging(k + 1, n - 1);
    }
  }

  /** With neither cap in force no number of answers ends the first category. */
  lemma UncappedNeverEnds(limit: int, cap: int, others: nat, n: nat)
    requires limit <= 0 && cap <= 0
    ensures AbsoluteCap(limit, cap, others) == None
    ensures Paging([], 1, Endless, 0, n).NextPage?
  {
    assert FreshRows(0) == [];
    EndlessKeepsPaging(0, n);
  }
}
