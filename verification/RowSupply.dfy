/** An unbounded supply of complete product rows with distinct ids. */
module RowSupply {
  import opened CrawlBudget

  /** The k-th of an unbounded supply of distinct complete rows. */
  function Fresh(k: nat): Row { Row(seq(k + 1, i => 'p'), true) }

  function FreshRows(n: nat): (rows: seq<Row>)
    ensures |rows| == n
  {
    seq(n, i requires 0 <= i => Fresh(i))
  }

  lemma {:induction false} UpsertNew(rows: seq<Row>, r: Row)
    requires forall q :: q in rows ==> q.id != r.id
    ensures Upsert(rows, r) == rows + [r]
  {
    if rows != [] {
      UpsertNew(rows[1..], r);
    }
  }

  lemma {:induction false} AllComplete(rows: seq<Row>)
    requires forall q :: q in rows ==> q.complete
    ensures CompleteRows(rows) == rows
  {
    if rows != [] {
      AllComplete(rows[1..]);
    }
  }

  lemma FreshDistinct(n: nat, r: Row)
    requires r in FreshRows(n)
    ensures r.complete && r.id != Fresh(n).id
  {
    assert |r.id| != |Fresh(n).id|;
  }

  lemma FreshGrows(n: nat)
    ensures Upsert(FreshRows(n), Fresh(n)) == FreshRows(n + 1)
    ensures CompleteRows(FreshRows(n)) == FreshRows(n)
  {
    assert FreshRows(n) + [Fresh(n)] == FreshRows(n + 1);
    hide Upsert, CompleteRows;
    forall r | r in FreshRows(n) ensures r.complete && r.id != Fresh(n).id {
      FreshDistinct(n, r);
    }
    hide FreshRows, Fresh;
    UpsertNew(FreshRows(n), Fresh(n));
    AllComplete(FreshRows(n));
  }

  /** Such rows survive being stored and loaded. */
  lemma {:induction false} LoadFresh(n: nat)
    ensures Load(FreshRows(n)) == FreshRows(n)
  {
    if n > 0 {
      LoadFresh(n - 1);
      FreshGrows(n - 1);
      assert FreshRows(n)[..n - 1] == FreshRows(n - 1) && FreshRows(n)[n - 1] == Fresh(n - 1);
    }
  }

  /** And they can be merged in two parts. */
  lemma {:induction false} MergeFresh(n: nat, k: nat)
    requires k <= n
    ensures Merge(FreshRows(k), FreshRows(n)[k..]) == FreshRows(n)
    decreases n - k
  {
    if k < n {
      FreshGrows(k);
      assert FreshRows(n)[k..][0] == Fresh(k) && FreshRows(n)[k..][1..] == FreshRows(n)[k + 1..];
      MergeFresh(n, k + 1);
    }
  }
}
