/** What each step of a crawler leaves on disk and in memory. */
module CrawlOutcomes {
  import opened Prelude
  import opened CrawlBudget
  import opened RowSupply
  import opened VatanPages

  // ---------- the dictionary by id ----------

  /** Where an id first occurs, or the length. */
  function FirstById(rows: seq<Row>, id: string): (k: nat)
    ensures k <= |rows| && (k < |rows| ==> rows[k].id == id)
    ensures forall i :: 0 <= i < k ==> rows[i].id != id
  {
    if rows == [] || rows[0].id == id then 0 else 1 + FirstById(rows[1..], id)
  }

  lemma FirstByIdIs(rows: seq<Row>, id: string, k: nat)
    requires k <= |rows| && (k < |rows| ==> rows[k].id == id) && forall i :: 0 <= i < k ==> rows[i].id != id
    ensures FirstById(rows, id) == k
  {
  }

  lemma UpsertUnfolds(rows: seq<Row>, r: Row)
    requires rows != []
    ensures Upsert(rows, r) == if rows[0].id == r.id then [r] + rows[1..] else [rows[0]] + Upsert(rows[1..], r)
  {
  }

  lemma {:induction false} UpsertInPlace(rows: seq<Row>, r: Row, k: nat)
    requires k < |rows| && rows[k].id == r.id && forall i :: 0 <= i < k ==> rows[i].id != r.id
    ensures Upsert(rows, r) == rows[k := r]
  {
    hide *;
    UpsertUnfolds(rows, r);
    UpdateCons(rows, k, r);
    if k > 0 {
      UpsertInPlace(rows[1..], r, k - 1);
    }
  }

  /** The ids keep their places; a new one comes last. */
  lemma UpsertIds(rows: seq<Row>, r: Row)
    ensures var up := Upsert(rows, r);
      && (forall i :: 0 <= i < |rows| ==> up[i].id == rows[i].id)
      && |up| == |rows| + (if HasId(rows, r.id) then 0 else 1)
      && (!HasId(rows, r.id) ==> up[|rows|] == r)
  {
    var k := FirstById(rows, r.id);
    hide Upsert, FirstById;
    if k < |rows| {
      assert rows[k] in rows;
      UpsertInPlace(rows, r, k);
    } else {
      UpsertNew(rows, r);
    }
  }

  /** The rows by id: each id once, at the place of its first row and with the value of its last. */
  ghost predicate IsById(rows: seq<Row>, byId: seq<Row>) {
    && (forall q :: q in byId <==> LastById(rows, q.id) == Some(q))
    && (forall i, j :: 0 <= i < j < |byId| ==> FirstById(rows, byId[i].id) < FirstById(rows, byId[j].id))
  }

  lemma ByIdDistinct(rows: seq<Row>, byId: seq<Row>)
    requires IsById(rows, byId)
    ensures Distinct(byId)
    ensures forall q :: q in rows ==> HasId(byId, q.id)
  {
    forall q | q in rows ensures HasId(byId, q.id) {
      var last := LastById(rows, q.id);
      assert last.Some? && last.value in byId && last.value.id == q.id;
    }
  }

  lemma LastByIdSnoc(rows: seq<Row>, r: Row, id: string)
    ensures LastById(rows + [r], id) == if r.id == id then Some(r) else LastById(rows, id)
  {
    assert (rows + [r])[..|rows|] == rows;
  }

  lemma FirstByIdSnoc(rows: seq<Row>, r: Row, id: string)
    ensures FirstById(rows + [r], id) ==
      if FirstById(rows, id) < |rows| || r.id == id then FirstById(rows, id) else |rows| + 1
  {
    var k := FirstById(rows, id);
    FirstByIdIs(rows + [r], id, if k < |rows| || r.id == id then k else |rows| + 1);
  }

  lemma ByIdUpsert(rows: seq<Row>, byId: seq<Row>, r: Row)
    requires IsById(rows, byId)
    ensures IsById(rows + [r], Upsert(byId, r))
  {
    ByIdDistinct(rows, byId);
    UpsertExact(byId, r);
    var up := Upsert(byId, r);
    forall q ensures q in up <==> LastById(rows + [r], q.id) == Some(q) {
      LastByIdSnoc(rows, r, q.id);
    }
    ByIdOrder(rows, byId, r);
  }

  lemma KnownId(rows: seq<Row>, byId: seq<Row>, r: Row, id: string)
    requires IsById(rows, byId)
    ensures HasId(byId, id) ==> FirstById(rows + [r], id) == FirstById(rows, id) < |rows|
    ensures !HasId(byId, r.id) ==> FirstById(rows + [r], r.id) == |rows|
  {
    FirstByIdSnoc(rows, r, id);
    FirstByIdSnoc(rows, r, r.id);
    if q :| q in byId && q.id == id {
      assert LastById(rows, id) == Some(q);
      assert q in rows && FirstById(rows, id) < |rows|;
    }
    if FirstById(rows, r.id) < |rows| {
      assert rows[FirstById(rows, r.id)] in rows;
      var last := LastById(rows, r.id);
      assert last.Some? && last.value in byId;
    }
  }

  lemma ByIdOrder(rows: seq<Row>, byId: seq<Row>, r: Row)
    requires IsById(rows, byId)
    ensures var up := Upsert(byId, r);
      forall i, j :: 0 <= i < j < |up| ==> FirstById(rows + [r], up[i].id) < FirstById(rows + [r], up[j].id)
  {
    var up := Upsert(byId, r);
    hide *;
    forall i, j | 0 <= i < j < |up| ensures FirstById(rows + [r], up[i].id) < FirstById(rows + [r], up[j].id) {
      OrderKept(rows, byId, r, i, j);
    }
  }

  lemma InOrder(rows: seq<Row>, byId: seq<Row>, i: nat, j: nat)
    requires IsById(rows, byId) && i < j < |byId|
    ensures FirstById(rows, byId[i].id) < FirstById(rows, byId[j].id)
    ensures HasId(byId, byId[i].id) && HasId(byId, byId[j].id)
  {
    assert byId[i] in byId && byId[j] in byId;
  }

  lemma OrderKept(rows: seq<Row>, byId: seq<Row>, r: Row, i: nat, j: nat)
    requires IsById(rows, byId) && i < j < |Upsert(byId, r)|
    ensures FirstById(rows + [r], Upsert(byId, r)[i].id) < FirstById(rows + [r], Upsert(byId, r)[j].id)
  {
    hide *;
    UpsertIds(byId, r);
    KnownId(rows, byId, r, Upsert(byId, r)[i].id);
    KnownId(rows, byId, r, Upsert(byId, r)[j].id);
    if j < |byId| {
      InOrder(rows, byId, i, j);
    } else {
      KnownAt(byId, i);
    }
  }

  lemma KnownAt(byId: seq<Row>, i: nat)
    requires i < |byId|
    ensures HasId(byId, byId[i].id)
  {
    assert byId[i] in byId;
  }

  lemma {:induction false} DistinctIsById(rows: seq<Row>)
    requires Distinct(rows)
    ensures IsById(rows, rows)
  {
    forall i | 0 <= i < |rows| ensures FirstById(rows, rows[i].id) == i {
      FirstByIdIs(rows, rows[i].id, i);
    }
    forall q ensures q in rows <==> LastById(rows, q.id) == Some(q) {
      if q in rows {
        var last := LastById(rows, q.id).value;
        var i :| 0 <= i < |rows| && rows[i] == q;
        var j :| 0 <= j < |rows| && rows[j] == last;
        assert i == j;
      }
    }
  }

  /** Adding rows to a dictionary by id. */
  lemma {:induction false} MergeById(rows: seq<Row>, byId: seq<Row>, more: seq<Row>)
    requires IsById(rows, byId)
    ensures IsById(rows + more, Merge(byId, more))
    decreases |more|
  {
    if more == [] {
      assert rows + more == rows;
    } else {
      assert (rows + [more[0]]) + more[1..] == rows + more;
      ByIdUpsert(rows, byId, more[0]);
      hide IsById, Upsert;
      MergeById(rows + [more[0]], Upsert(byId, more[0]), more[1..]);
    }
  }

  /** The rows that have an id, in order. */
  function Identified(rows: seq<Row>): (out: seq<Row>)
    ensures forall q :: q in out <==> q in rows && q.id != ""
  {
    if rows == [] then []
    else
      var n := |rows| - 1;
      assert forall q :: q in rows <==> q in rows[..n] || q == rows[n];
      Identified(rows[..n]) + if rows[n].id == "" then [] else [rows[n]]
  }

  /** Resuming gives the stored rows by id. */
  lemma {:induction false} LoadById(rows: seq<Row>)
    ensures IsById(Identified(rows), Load(rows))
  {
    if rows != [] {
      var n := |rows| - 1;
      LoadById(rows[..n]);
      hide IsById, Upsert;
      if rows[n].id != "" {
        ByIdUpsert(Identified(rows[..n]), Load(rows[..n]), rows[n]);
      } else {
        assert Identified(rows[..n]) + [] == Identified(rows[..n]);
      }
    }
  }

  // ---------- the steps ----------

  ghost predicate OnlyChanges(st: State, r: State, s: nat) {
    && |r.files| == |st.files| && |r.procs| == |st.procs|
    && (forall t :: 0 <= t < |st.files| && t != s ==> r.files[t] == st.files[t])
    && (forall t :: 0 <= t < |st.procs| && t != s ==> r.procs[t] == st.procs[t])
  }

  lemma WriteTotal(st: State, r: State, s: nat)
    requires s < |st.files| == |r.files| && r.files == st.files[s := r.files[s]]
    ensures Total(r) == Others(st, s) + |r.files[s]|
  {
    assert Counts(r.files) == Counts(st.files)[s := |r.files[s]|];
    SumUpdate(Counts(st.files), s, |r.files[s]|);
  }

  /** Opening a crawl whose live cap is `n`. With more loaded rows than that the sitemap and
      listing crawlers cut the feed to the cap and end; without any room they write back what
      they loaded; the crawl4ai script leaves the feed alone. With room the crawl begins with
      the loaded rows. */
  lemma OpenLeaves(c: Config, st: State, s: nat, urls: nat, n: nat)
    requires Shaped(c, st) && s < |c.kinds| && c.kinds[s].Some? && st.procs[s].Idle? && Live(c, st, s) == Some(n)
    ensures var r, mem, chunked := Next(c, st, Open(s, urls)), Load(st.files[s]), c.kinds[s] == Some(Chunked);
      && OnlyChanges(st, r, s)
      && (0 < n <= |mem| && !chunked ==>
            && r.procs[s] == Idle && r.files[s] == CompleteRows(mem[..n])
            && |r.files[s]| <= n && Total(r) <= c.cap)
      && (n == 0 && !chunked ==>
            r.procs[s] == Idle && r.files[s] == if mem == [] then st.files[s] else CompleteRows(mem))
      && (n <= |mem| && chunked ==> r == st)
      && (n > |mem| ==> r.files == st.files && r.procs[s].Crawling? && r.procs[s].mem == mem && r.procs[s].since == 0)
  {
    var r, mem := Next(c, st, Open(s, urls)), Load(st.files[s]);
    hide CompleteRows, Load;
    assert mem[..|mem|] == mem;
    if 0 < n <= |mem| && c.kinds[s] != Some(Chunked) {
      WriteTotal(st, r, s);
      assert n <= Max(0, c.cap - Others(st, s));
    }
  }

  /** How a crawl begins: the Hybris crawler plans the URLs there is room for, the listing
      crawler has read no cap yet. */
  lemma OpenPlans(c: Config, st: State, s: nat, urls: nat, n: nat)
    requires Shaped(c, st) && s < |c.kinds| && c.kinds[s].Some? && st.procs[s].Idle? && Live(c, st, s) == Some(n)
    requires n > |Load(st.files[s])|
    ensures var p, room := Next(c, st, Open(s, urls)).procs[s], n - |Load(st.files[s])|;
      && p.Crawling?
      && p.plan == match c.kinds[s].value
          case Batched => Batch(0, None, if urls < room then urls else room, true)
          case Paged => Page(None)
          case Stream => Each
          case Chunked => Each
  {
    hide Load;
  }

  /** One result: a row with an id replaces the row with its id, or comes last, if there is room
      under the cap that counts, which is the live one or, inside a batch, the one read before
      it; anything else is dropped. A checkpoint falls due after 150 results, or 100. */
  lemma ResultLeaves(c: Config, st: State, s: nat, page: Option<Row>, n: nat)
    requires Shaped(c, st) && s < |c.kinds| && c.kinds[s].Some? && st.procs[s].Crawling?
    requires st.procs[s].since < if c.kinds[s] == Some(Chunked) then 100 else 150
    requires st.procs[s].plan.Each? || (st.procs[s].plan.Batch? && st.procs[s].plan.todo > 0)
    requires Some(n) == if st.procs[s].plan.Each? then Live(c, st, s) else st.procs[s].plan.live
    ensures var r, p := Next(c, st, Result(s, page)), st.procs[s];
      && OnlyChanges(st, r, s) && r.files == st.files && r.procs[s].Crawling? && r.procs[s].since == p.since + 1
      && (p.plan.Each? ==> r.procs[s].plan == p.plan)
      && (p.plan.Batch? ==> r.procs[s].plan == Batch(p.plan.todo - 1, Some(n), p.plan.ahead, p.plan.whole))
      && (page.Some? && page.value.id != "" && |p.mem| < n ==>
            forall rows :: IsById(rows, p.mem) ==> IsById(rows + [page.value], r.procs[s].mem))
      && (!(page.Some? && page.value.id != "" && |p.mem| < n) ==> r.procs[s].mem == p.mem)
  {
    hide Live, Upsert, IsById;
    if page.Some? {
      forall rows | IsById(rows, st.procs[s].mem)
        ensures IsById(rows + [page.value], Upsert(st.procs[s].mem, page.value))
      {
        ByIdUpsert(rows, st.procs[s].mem, page.value);
      }
    }
  }

  /** A look at the cap. The Hybris crawler cuts its next 300 URLs to the room, the listing
      crawler keeps the cap it read or, without room, ends with its list cut to it. */
  lemma LookLeaves(c: Config, st: State, s: nat, n: nat)
    requires Shaped(c, st) && s < |c.kinds| && c.kinds[s].Some? && st.procs[s].Crawling? && Live(c, st, s) == Some(n)
    ensures var r, p := Next(c, st, ReadCap(s)), st.procs[s];
      && OnlyChanges(st, r, s)
      && (p.plan.Each? ==> r == st)
      && (p.plan.Batch? && p.plan.todo == 0 && p.plan.ahead > 0 && p.since < 150 && |p.mem| < n ==>
            var size, room := (if p.plan.ahead < 300 then p.plan.ahead else 300), n - |p.mem|;
            && r.files == st.files && r.procs[s].Crawling? && r.procs[s].mem == p.mem && r.procs[s].since == p.since
            && r.procs[s].plan == Batch(if room < size then room else size, Some(n), p.plan.ahead - size,
                                        p.plan.whole && size <= room))
      && (p.plan.Batch? && !(p.plan.todo == 0 && p.plan.ahead > 0 && p.since < 150 && |p.mem| < n) ==> r == st)
      && (p.plan.Page? && p.plan.read.Some? ==> r == st)
      && (p.plan == Page(None) && |p.mem| < n ==>
            r.files == st.files && r.procs[s] == Crawling(p.mem, p.since, Page(Some(Some(n)))))
      && (p.plan == Page(None) && 0 < n <= |p.mem| && c.kinds[s] == Some(Paged) ==>
            r.procs[s] == Idle && r.files[s] == CompleteRows(p.mem[..n]) && Total(r) <= c.cap)
      && (p.plan == Page(None) && n == 0 && c.kinds[s] == Some(Paged) ==> r.procs[s] == Idle && r.files == st.files)
  {
    var r, p := Next(c, st, ReadCap(s)), st.procs[s];
    assert p.mem[..|p.mem|] == p.mem;
    hide CompleteRows;
    if p.plan == Page(None) && 0 < n <= |p.mem| && c.kinds[s] == Some(Paged) {
      WriteTotal(st, r, s);
      assert n <= Max(0, c.cap - Others(st, s));
    }
  }

  /** The answer to a request made under the cap `n`: the listed rows join the list, which goes
      on below the cap and otherwise ends the crawl cut to it. */
  lemma AnswerLeaves(c: Config, st: State, s: nat, rows: seq<Row>, n: nat)
    requires Shaped(c, st) && s < |c.kinds| && c.kinds[s].Some? && st.procs[s].Crawling?
    requires st.procs[s].plan == Page(Some(Some(n)))
    ensures var r, all := Next(c, st, Answer(s, rows)), Merge(st.procs[s].mem, rows);
      && OnlyChanges(st, r, s)
      && (|all| < n ==> r.files == st.files && r.procs[s] == Crawling(all, 0, Page(None)))
      && (|all| >= n > 0 ==> r.procs[s] == Idle && r.files[s] == CompleteRows(all[..n]))
      && (n == 0 ==> r.procs[s] == Idle && r.files == st.files)
  {
    hide CompleteRows, Merge, Live;
    var all := Merge(st.procs[s].mem, rows);
    assert all[..|all|] == all;
  }

  /** A checkpoint writes the complete rows of the list where one is due: after any result of a
      sitemap stream, after the 150th result of the Hybris crawler or the last of its URLs if no
      batch was cut, never for the listing crawler. */
  lemma CheckpointLeaves(c: Config, st: State, s: nat)
    requires Shaped(c, st) && s < |c.kinds| && c.kinds[s].Some? && st.procs[s].Crawling?
    ensures var r, p := Next(c, st, Checkpoint(s)), st.procs[s];
      var due := p.plan.Each? || (p.plan.Batch? &&
        (p.since == 150 || (p.plan.whole && p.plan.todo == 0 && p.plan.ahead == 0)));
      && OnlyChanges(st, r, s)
      && (due ==> r.files[s] == CompleteRows(p.mem) && r.procs[s] == Crawling(p.mem, 0, p.plan))
      && (!due ==> r == st)
  {
    hide CompleteRows, Live;
  }

  // ---------- one page ----------

  lemma PageMerged(out: seq<Row>, rows: seq<Row>)
    requires Distinct(out)
    ensures Merge([], out + rows) == Merge(out, rows) && IsById(out + rows, Merge(out, rows))
    ensures |Merge(out, rows)| != |out| <==> exists q :: q in rows && !HasId(out, q.id)
  {
    assert [] + out == out;
    hide Merge, IsById, Distinct, HasId;
    MergeDistinct([], out, rows);
    DistinctIsById(out);
    MergeById(out, out, rows);
    GrowsIffNew(out, rows);
  }

  lemma PageUnfolds(out: seq<Row>, live: Option<nat>, answer: Answer, page: int)
    requires answer.Listing? && answer.rows != []
    ensures var all := Merge([], out + answer.rows);
      OnPage(out, live, answer, page) ==
        if live.Some? && |all| >= live.value then Return(all[..live.value])
        else if |all| == |out| then NextCategory(all)
        else if answer.lastLinked.Some? && page < answer.lastLinked.value then NextPage(all)
        else NextCategory(all)
  {
    hide Merge;
    var all := Merge([], out + answer.rows);
    assert all[..|all|] == all;
  }

  /** What one turn of the page loop decides. A page without products ends its category. Other
      pages are merged into the list by id; a full list ends the crawl cut to the cap, a page
      that adds no id or links no later page ends the category, and any other one leads to the
      next page. */
  lemma PageLeaves(out: seq<Row>, live: Option<nat>, answer: Answer, page: int)
    requires Distinct(out)
    ensures answer.Unavailable? || answer.rows == [] ==> OnPage(out, live, answer, page) == NextCategory(out)
    ensures answer.Listing? && answer.rows != [] ==>
      var o, all := OnPage(out, live, answer, page), Merge(out, answer.rows);
      && IsById(out + answer.rows, all)
      && (live.Some? && |all| >= live.value ==> o == Return(all[..live.value]))
      && (live.None? || |all| < live.value ==>
            o == if (exists q :: q in answer.rows && !HasId(out, q.id)) && answer.lastLinked.Some?
                    && page < answer.lastLinked.value
                 then NextPage(all) else NextCategory(all))
  {
    if answer.Listing? && answer.rows != [] {
      hide *;
      PageMerged(out, answer.rows);
      PageUnfolds(out, live, answer, page);
    }
  }

  /** Merging makes the list longer exactly if some row has a new id. */
  lemma {:induction false} GrowsIffNew(seen: seq<Row>, rows: seq<Row>)
    ensures |Merge(seen, rows)| > |seen| <==> exists q :: q in rows && !HasId(seen, q.id)
    decreases |rows|
  {
    if rows != [] {
      var r, next := rows[0], Upsert(seen, rows[0]);
      UpsertIds(seen, r);
      hide Upsert;
      GrowsIffNew(next, rows[1..]);
      assert forall q :: q in rows <==> q == r || q in rows[1..];
      if HasId(seen, r.id) {
        forall q: Row ensures HasId(next, q.id) <==> HasId(seen, q.id) {
          SameIds(seen, next, q.id);
        }
      }
    }
  }

  lemma SameIds(a: seq<Row>, b: seq<Row>, id: string)
    requires |a| == |b| && forall i :: 0 <= i < |a| ==> a[i].id == b[i].id
    ensures HasId(a, id) <==> HasId(b, id)
  {
    if q :| q in a && q.id == id {
      var i :| 0 <= i < |a| && a[i] == q;
      assert b[i] in b;
    }
    if q :| q in b && q.id == id {
      var i :| 0 <= i < |b| && b[i] == q;
      assert a[i] in a;
    }
  }
}
