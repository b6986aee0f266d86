/** What the patterns of the two money parsers match, and what `float` reads. */
module PricePatterns {
  import opened Prelude
  import opened TurkishPrice

  /** One to three digits and then `n` groups of a dot and three digits. */
  ghost predicate Groups(s: string, n: nat)
    decreases n
  {
    if n == 0 then 1 <= |s| <= 3 && AllDigits(s)
    else exists head, tail :: s == head + "." + tail && |tail| == 3 && AllDigits(tail) && Groups(head, n - 1)
  }

  lemma GroupsUnfolds(s: string, n: nat)
    requires n > 0
    ensures Groups(s, n) <==>
      |s| >= 5 && s[|s| - 4] == '.' && AllDigits(s[|s| - 3..]) && Groups(s[..|s| - 4], n - 1)
  {
    if head, tail :| s == head + "." + tail && |tail| == 3 && AllDigits(tail) && Groups(head, n - 1) {
      NotEmpty(head, n - 1);
      assert s[..|s| - 4] == head && s[|s| - 3..] == tail && s[|s| - 4] == '.';
    }
    if |s| >= 5 && s[|s| - 4] == '.' && AllDigits(s[|s| - 3..]) && Groups(s[..|s| - 4], n - 1) {
      assert s == s[..|s| - 4] + "." + s[|s| - 3..];
    }
  }

  lemma {:induction false} NotEmpty(s: string, n: nat)
    requires Groups(s, n)
    ensures s != ""
  {
  }

  lemma {:induction false} GroupsGrouped(s: string, n: nat)
    requires n > 0 && Groups(s, n)
    ensures GroupedInt(s)
    decreases n
  {
    GroupsUnfolds(s, n);
    if n > 1 {
      GroupsGrouped(s[..|s| - 4], n - 1);
    }
  }

  lemma {:induction false} GroupedGroups(s: string) returns (n: nat)
    requires GroupedInt(s)
    ensures n > 0 && Groups(s, n)
  {
    var head := s[..|s| - 4];
    if |head| <= 3 && AllDigits(head) {
      n := 1;
    } else {
      n := GroupedGroups(head);
      n := n + 1;
    }
    GroupsUnfolds(s, n);
  }

  /** The first `c` of a text. */
  lemma FirstAt(before: string, c: char, after: string)
    requires c !in before
    ensures FirstIndex(before, c) == |before| && FirstIndex(before + [c] + after, c) == |before|
    ensures (before + [c] + after)[..|before|] == before && (before + [c] + after)[|before| + 1..] == after
  {
    var s := before + [c] + after;
    assert forall i :: 0 <= i < |before| ==> before[i] in before;
    assert s[|before|] == c && forall i :: 0 <= i < |before| ==> s[i] == before[i];
  }

  lemma NotInDigits(s: string, c: char)
    requires AllDigits(s) && !IsDigit(c)
    ensures c !in s
  {
  }

  lemma NotInJoin(a: string, d: char, b: string, c: char)
    requires c !in a && c != d && c !in b
    ensures c !in a + [d] + b
  {
  }

  lemma {:induction false} GroupsNoComma(s: string, n: nat)
    requires Groups(s, n)
    ensures ',' !in s
    decreases n
  {
    if n == 0 {
      NotInDigits(s, ',');
    } else {
      GroupsUnfolds(s, n);
      var head, tail := s[..|s| - 4], s[|s| - 3..];
      assert s == head + ['.'] + tail && !IsDigit(',');
      hide *;
      GroupsNoComma(head, n - 1);
      NotInDigits(tail, ',');
      NotInJoin(head, '.', tail, ',');
    }
  }

  /** The decimals of a price behind a comma, if there are any. */
  function WithDecimals(whole: string, frac: string): string { if frac == "" then whole else whole + [','] + frac }

  lemma GroupedIf(whole: string, frac: string)
    requires GroupedInt(whole) && ',' !in whole && AllDigits(frac)
    ensures Grouped(WithDecimals(whole, frac))
  {
    FirstAt(whole, ',', frac);
    assert whole[..|whole|] == whole;
    hide GroupedInt, AllDigits, FirstIndex;
  }

  lemma GroupedOnlyIf(s: string) returns (whole: string, frac: string)
    requires Grouped(s)
    ensures GroupedInt(whole) && AllDigits(frac) && s == WithDecimals(whole, frac)
  {
    var k := FirstIndex(s, ',');
    whole, frac := s[..k], if k < |s| then s[k + 1..] else "";
    hide GroupedInt, AllDigits;
  }

  /** The price parser's pattern: a grouped number, with a comma and at least one digit behind it
      or with nothing. */
  lemma GroupedIs(s: string)
    ensures Grouped(s) <==>
      exists whole, frac, n: nat :: n > 0 && Groups(whole, n) && AllDigits(frac) && s == WithDecimals(whole, frac)
  {
    hide *;
    if Grouped(s) {
      var whole, frac := GroupedOnlyIf(s);
      var n := GroupedGroups(whole);
    }
    if whole, frac, n: nat :| n > 0 && Groups(whole, n) && AllDigits(frac) && s == WithDecimals(whole, frac) {
      GroupsGrouped(whole, n);
      GroupsNoComma(whole, n);
      GroupedIf(whole, frac);
    }
  }

  /** The campaign script's pattern: a digit, a dot and three digits, anywhere. */
  lemma HasGroupIs(s: string)
    ensures HasGroup(s) <==> exists a, d, t, b ::
      s == a + [d] + "." + t + b && IsDigit(d) && |t| == 3 && AllDigits(t)
  {
    if HasGroup(s) {
      var i :| 0 <= i && i + 5 <= |s| && GroupAt(s, i);
      assert s == s[..i] + [s[i]] + "." + s[i + 2..i + 5] + s[i + 5..];
    }
    if a, d, t, b :| s == a + [d] + "." + t + b && IsDigit(d) && |t| == 3 && AllDigits(t) {
      assert s[|a|] == d && s[|a| + 1] == '.' && s[|a| + 2..|a| + 5] == t;
      assert GroupAt(s, |a|);
    }
  }

  lemma FloatUnfolds(s: string)
    ensures var k := FirstIndex(s, '.');
      var whole, frac := s[..k], if k < |s| then s[k + 1..] else "";
      ParseFloat(s) == if AllDigits(whole) && AllDigits(frac) && (whole != "" || frac != "")
        then Some(Decimal(whole, frac)) else None
  {
  }

  /** `float` reads digits with at most one dot among them, and at least one digit. */
  lemma FloatReads(whole: string, frac: string)
    requires AllDigits(whole) && AllDigits(frac) && (whole != "" || frac != "")
    ensures ParseFloat(whole + ['.'] + frac) == Some(Decimal(whole, frac))
    ensures frac == "" ==> ParseFloat(whole) == Some(Decimal(whole, ""))
  {
    NotInDigits(whole, '.');
    assert AllDigits("") && !IsDigit('.');
    hide *;
    FirstAt(whole, '.', frac);
    FloatUnfolds(whole + ['.'] + frac);
    FloatUnfolds(whole);
    assert whole[..|whole|] == whole;
  }

  /** And fails on anything else. */
  lemma FloatFails(s: string)
    requires forall whole, frac :: AllDigits(whole) && AllDigits(frac) && (whole != "" || frac != "") ==>
        s != whole + ['.'] + frac && (frac == "" ==> s != whole)
    ensures ParseFloat(s) == None
  {
    var k := FirstIndex(s, '.');
    var whole, frac := s[..k], if k < |s| then s[k + 1..] else "";
    assert if k < |s| then s == whole + ['.'] + frac else s == whole;
    hide AllDigits, Decimal;
  }
}
