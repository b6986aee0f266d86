/** Shared value types and arithmetic helpers. */
module Prelude {

  datatype Option<+T> = None | Some(value: T) {
    function GetOr(default: T): T {
      match this
      case Some(v) => v
      case None => default
    }
  }

  function Max(a: int, b: int): int { if a < b then b else a }

  function Min(a: int, b: int): int { if a < b then a else b }

  /** The sum of a sequence, from the left. */
  function Sum(s: seq<int>): int {
    if s == [] then 0 else s[0] + Sum(s[1..])
  }

  lemma {:induction false} SumAppend(a: seq<int>, b: seq<int>)
    ensures Sum(a + b) == Sum(a) + Sum(b)
  {
    if a == [] {
      assert a + b == b;
    } else {
      assert (a + b)[1..] == a[1..] + b;
      SumAppend(a[1..], b);
    }
  }

  /** Replacing one entry changes the sum by the difference. */
  lemma {:induction false} SumUpdate(s: seq<int>, i: nat, v: int)
    requires i < |s|
    ensures Sum(s[i := v]) == Sum(s) - s[i] + v
  {
    if i > 0 {
      assert s[i := v][1..] == s[1..][i - 1 := v];
      SumUpdate(s[1..], i - 1, v);
    } else {
      assert s[i := v][1..] == s[1..];
    }
  }

  /** Sums are monotone entry by entry. */
  lemma {:induction false} SumMono(a: seq<int>, b: seq<int>)
    requires |a| == |b| && forall i :: 0 <= i < |a| ==> a[i] <= b[i]
    ensures Sum(a) <= Sum(b)
  {
    if a != [] {
      SumMono(a[1..], b[1..]);
    }
  }

  lemma {:induction false} SumPlus(a: seq<int>, b: seq<int>)
    requires |a| == |b|
    ensures Sum(seq(|a|, i requires 0 <= i < |a| => a[i] + b[i])) == Sum(a) + Sum(b)
  {
    var c := seq(|a|, i requires 0 <= i < |a| => a[i] + b[i]);
    if a != [] {
      SumPlus(a[1..], b[1..]);
      assert c[1..] == seq(|a[1..]|, i requires 0 <= i < |a[1..]| => a[1..][i] + b[1..][i]);
    }
  }

  lemma Associative<T>(a: seq<T>, b: seq<T>, c: seq<T>)
    ensures (a + b) + c == a + (b + c)
  {
  }

  lemma UpdateCons<T>(s: seq<T>, k: nat, v: T)
    requires k < |s|
    ensures s[k := v] == if k == 0 then [v] + s[1..] else [s[0]] + s[1..][k - 1 := v]
  {
  }

  /** How many of the first `n` numbers satisfy `p`. */
  function Tally(n: nat, p: nat -> bool): (t: nat)
    ensures t <= n
  {
    if n == 0 then 0 else Tally(n - 1, p) + (if p(n - 1) then 1 else 0)
  }

  lemma {:induction false} TallyMono(n: nat, p: nat -> bool, q: nat -> bool)
    requires forall i: nat :: i < n && p(i) ==> q(i)
    ensures Tally(n, p) <= Tally(n, q)
  {
    if n > 0 {
      TallyMono(n - 1, p, q);
    }
  }

  lemma {:induction false} TallyStrict(n: nat, p: nat -> bool, q: nat -> bool, k: nat)
    requires forall i: nat :: i < n && p(i) ==> q(i)
    requires k < n && q(k) && !p(k)
    ensures Tally(n, p) < Tally(n, q)
  {
    if k == n - 1 {
      TallyMono(n - 1, p, q);
    } else {
      TallyStrict(n - 1, p, q, k);
    }
  }

  /** A disjoint union is counted by the sum. */
  lemma {:induction false} TallyUnion(n: nat, p: nat -> bool, q: nat -> bool, r: nat -> bool)
    requires forall i: nat :: i < n ==> (r(i) <==> p(i) || q(i)) && !(p(i) && q(i))
    ensures Tally(n, r) == Tally(n, p) + Tally(n, q)
  {
    if n > 0 {
      TallyUnion(n - 1, p, q, r);
    }
  }

  lemma {:induction false} TallyBelow(n: nat, p: nat -> bool, k: nat)
    requires k < n && p(k)
    ensures Tally(k, p) < Tally(n, p)
  {
    if k < n - 1 {
      TallyBelow(n - 1, p, k);
    }
  }

  lemma {:induction false} TallyNone(n: nat, p: nat -> bool)
    requires forall i: nat :: i < n ==> !p(i)
    ensures Tally(n, p) == 0
  {
    if n > 0 {
      TallyNone(n - 1, p);
    }
  }

  lemma {:induction false} TallyAll(n: nat, p: nat -> bool)
    requires forall i: nat :: i < n ==> p(i)
    ensures Tally(n, p) == n
  {
    if n > 0 {
      TallyAll(n - 1, p);
    }
  }

  /** Counting over two ranges side by side. */
  lemma {:induction false} TallySplit(n: nat, m: nat, p: nat -> bool, q: nat -> bool, r: nat -> bool)
    requires forall i: nat :: i < n ==> (p(i) <==> q(i))
    requires forall i: nat :: i < m ==> (p(n + i) <==> r(i))
    ensures Tally(n + m, p) == Tally(n, q) + Tally(m, r)
    decreases m
  {
    if m == 0 {
      TallyMono(n, p, q);
      TallyMono(n, q, p);
    } else {
      TallySplit(n, m - 1, p, q, r);
    }
  }

  /** A counting dictionary, in insertion order. */
  type Counter<K> = seq<(K, nat)>

  /** `counter[key] += 1`. */
  function Bump<K(==)>(counter: Counter<K>, key: K): Counter<K> {
    if counter == [] then [(key, 1)]
    else if counter[0].0 == key then [(key, counter[0].1 + 1)] + counter[1..]
    else [counter[0]] + Bump(counter[1..], key)
  }

  /** The sum of the counts whose key satisfies `p`. */
  function CounterTotal<K>(counter: Counter<K>, p: K -> bool): nat {
    if counter == [] then 0 else (if p(counter[0].0) then counter[0].1 else 0) + CounterTotal(counter[1..], p)
  }

  lemma {:induction false} BumpTotal<K>(counter: Counter<K>, key: K, p: K -> bool)
    ensures CounterTotal(Bump(counter, key), p) == CounterTotal(counter, p) + (if p(key) then 1 else 0)
  {
    if counter != [] && counter[0].0 != key {
      BumpTotal(counter[1..], key, p);
    }
  }
}
