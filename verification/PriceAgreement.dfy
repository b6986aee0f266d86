/** When the two parsers of Turkish money amounts agree, for every text. */
module PriceAgreement {
  import opened Prelude
  import opened Text
  import opened TurkishPrice

  // They read a text alike, apart from one decision: whether its dots are group marks. So the
  // answer depends on the two patterns, and, where only the second one matches, on how many
  // separators the text has.

  /** The text that the campaign script reads, without its percent signs. */
  function CleanNumber(raw: string): string {
    Strip(Remove(Remove(Remove(Strip(raw), "TL"), [LIRA]), "%"))
  }

  function Count(s: string, c: char): nat {
    if s == "" then 0 else (if s[0] == c then 1 else 0) + Count(s[1..], c)
  }

  predicate OnlyZeros(s: string) { forall c :: c in s && IsDigit(c) ==> c == '0' }

  // ---------- only digits and separators matter ----------

  /** The digits, dots and commas of a text. */
  function Marks(s: string): (m: string)
    ensures forall c :: c in m <==> c in s && IsBodyChar(c)
  {
    if s == "" then ""
    else
      assert forall c :: c in s <==> c == s[0] || c in s[1..];
      if IsBodyChar(s[0]) then [s[0]] + Marks(s[1..]) else Marks(s[1..])
  }

  lemma {:induction false} MarksAppend(a: string, b: string)
    ensures Marks(a + b) == Marks(a) + Marks(b)
  {
    if a == "" {
      assert a + b == b;
    } else {
      assert (a + b)[1..] == a[1..] + b;
      MarksAppend(a[1..], b);
    }
  }

  lemma {:induction false} MarksCount(s: string, c: char)
    requires IsBodyChar(c)
    ensures Count(Marks(s), c) == Count(s, c)
  {
    if s != "" {
      MarksCount(s[1..], c);
      if IsBodyChar(s[0]) {
        assert Marks(s)[1..] == Marks(s[1..]);
      }
    }
  }

  lemma MarksZeros(s: string)
    ensures OnlyZeros(Marks(s)) <==> OnlyZeros(s)
  {
  }

  lemma {:induction false} MarksLStrip(s: string)
    ensures Marks(LStrip(s)) == Marks(s)
  {
    if s != "" && IsSpace(s[0]) {
      MarksLStrip(s[1..]);
    }
  }

  lemma {:induction false} MarksRStrip(s: string)
    ensures Marks(RStrip(s)) == Marks(s)
    decreases |s|
  {
    if s != "" && IsSpace(s[|s| - 1]) {
      var n := |s| - 1;
      MarksRStrip(s[..n]);
      assert s == s[..n] + [s[n]];
      MarksAppend(s[..n], [s[n]]);
    }
  }

  lemma MarksStrip(s: string)
    ensures Marks(Strip(s)) == Marks(s)
  {
    MarksLStrip(s);
    MarksRStrip(LStrip(s));
  }

  lemma {:induction false} MarksWithoutPercent(s: string)
    ensures Marks(Remove(s, "%")) == Marks(s)
    decreases |s|
  {
    if s != "" {
      assert "%" <= s <==> s[0] == '%';
      MarksWithoutPercent(s[1..]);
      if s[0] != '%' {
        MarksAppend([s[0]], Remove(s[1..], "%"));
      }
    }
  }

  /** What is read of a text depends on its digits and separators only. */
  lemma {:induction false} MarksReplace(s: string)
    ensures KeepNumeric(Replace(s, ',', '.')) == Replace(Marks(s), ',', '.')
  {
    if s != "" {
      MarksReplace(s[1..]);
      var r := Replace(s, ',', '.');
      assert r[1..] == Replace(s[1..], ',', '.');
      if IsBodyChar(s[0]) {
        assert Marks(s)[1..] == Marks(s[1..]);
      } else {
        assert KeepNumeric(r) == "" + KeepNumeric(r[1..]) == KeepNumeric(r[1..]);
      }
    }
  }

  lemma {:induction false} MarksRemoveDots(s: string)
    ensures Marks(RemoveChar(s, '.')) == RemoveChar(Marks(s), '.')
  {
    if s != "" {
      MarksRemoveDots(s[1..]);
      if s[0] != '.' {
        assert RemoveChar(s, '.') == [s[0]] + RemoveChar(s[1..], '.');
        assert RemoveChar(s, '.')[1..] == RemoveChar(s[1..], '.');
      } else {
        assert RemoveChar(s, '.') == "" + RemoveChar(s[1..], '.') == RemoveChar(s[1..], '.');
        assert RemoveChar(Marks(s), '.') == "" + RemoveChar(Marks(s[1..]), '.');
      }
      if IsBodyChar(s[0]) {
        assert Marks(s)[1..] == Marks(s[1..]);
      }
    }
  }

  /** What is handed to `float`. */
  function Numeral(marks: string, grouped: bool): string {
    Replace(if grouped then RemoveChar(marks, '.') else marks, ',', '.')
  }

  lemma ReadsMarks(text: string, grouped: bool)
    ensures ReadNumber(text, grouped) == ParseFloat(Numeral(Marks(text), grouped))
  {
    MarksReplace(text);
    MarksReplace(RemoveChar(text, '.'));
    MarksRemoveDots(text);
    hide KeepNumeric, Replace, RemoveChar, Marks, ParseFloat;
  }

  /** The two cleaned texts have the same digits and separators. */
  lemma SameMarks(raw: string)
    ensures Marks(CleanNumber(raw)) == Marks(Clean(raw))
  {
    var text := Remove(Remove(Strip(raw), "TL"), [LIRA]);
    MarksStrip(text);
    MarksWithoutPercent(text);
    MarksStrip(Remove(text, "%"));
    hide Marks, Strip, Remove;
  }

  // ---------- the patterns ----------

  lemma {:induction false} GroupedIntHasGroup(g: string)
    requires GroupedInt(g)
    ensures GroupAt(g, |g| - 5) && forall c :: c in g ==> IsDigit(c) || c == '.'
    decreases |g|
  {
    var head := g[..|g| - 4];
    assert g == head + ['.'] + g[|g| - 3..];
    assert g[|g| - 5] == head[|head| - 1] && g[|g| - 3..] == g[|g| - 5 + 2..|g|];
    if !AllDigits(head) {
      GroupedIntHasGroup(head);
      assert head[|head| - 3..][2] == head[|head| - 1];
    }
  }

  /** Where the first pattern matches, the second does, and there are only digits and separators. */
  lemma GroupedHasGroup(t: string)
    requires Grouped(t)
    ensures HasGroup(t) && forall c :: c in t ==> IsBodyChar(c)
  {
    var k := FirstIndex(t, ',');
    var g, rest := t[..k], t[k..];
    GroupedIntHasGroup(g);
    assert t == g + rest;
    assert HasGroup(g) by {
      assert GroupAt(g, |g| - 5);
    }
    HasGroupStays(g, rest);
    hide GroupedInt, HasGroup, GroupAt, FirstIndex;
    if k < |t| {
      assert rest == [t[k]] + t[k + 1..];
    }
  }

  lemma {:induction false} StripKeeps(s: string, c: char)
    requires c in s && !IsSpace(c)
    ensures c in Strip(s)
  {
    LStripKeeps(s, c);
    RStripKeeps(LStrip(s), c);
  }

  lemma {:induction false} LStripKeeps(s: string, c: char)
    requires c in s && !IsSpace(c)
    ensures c in LStrip(s)
  {
    if IsSpace(s[0]) {
      LStripKeeps(s[1..], c);
    }
  }

  lemma {:induction false} RStripKeeps(s: string, c: char)
    requires c in s && !IsSpace(c)
    ensures c in RStrip(s)
    decreases |s|
  {
    if IsSpace(s[|s| - 1]) {
      assert s == s[..|s| - 1] + [s[|s| - 1]];
      RStripKeeps(s[..|s| - 1], c);
    }
  }

  /** A text the first pattern matches is cleaned alike by both scripts. */
  lemma GroupedSameText(raw: string)
    requires Grouped(Clean(raw))
    ensures CleanNumber(raw) == Clean(raw) && HasGroup(CleanNumber(raw))
  {
    var text := Remove(Remove(Strip(raw), "TL"), [LIRA]);
    GroupedHasGroup(Clean(raw));
    hide Grouped, HasGroup, Strip, Remove;
    if '%' in text {
      StripKeeps(text, '%');
    }
    RemoveNothing(text, "%");
  }

  // ---------- counting separators ----------

  lemma {:induction false} CountNone(s: string, c: char)
    ensures Count(s, c) == 0 <==> c !in s
  {
    if s != "" {
      CountNone(s[1..], c);
      assert forall d :: d in s <==> d == s[0] || d in s[1..];
    }
  }

  lemma {:induction false} CountReplace(s: string)
    ensures |Replace(s, ',', '.')| == |s|
    ensures Count(Replace(s, ',', '.'), '.') == Count(s, '.') + Count(s, ',')
    ensures forall c :: c in Replace(s, ',', '.') <==> (c in s && c != ',') || (c == '.' && ',' in s)
  {
    if s != "" {
      CountReplace(s[1..]);
      var r := Replace(s, ',', '.');
      assert r[1..] == Replace(s[1..], ',', '.');
      assert forall c :: c in s <==> c == s[0] || c in s[1..];
      assert forall c :: c in r <==> c == r[0] || c in r[1..];
    }
  }

  lemma {:induction false} CountRemove(s: string)
    ensures Count(RemoveChar(s, '.'), '.') == 0
    ensures Count(RemoveChar(s, '.'), ',') == Count(s, ',')
    ensures forall c :: c in RemoveChar(s, '.') <==> c in s && c != '.'
  {
    if s != "" {
      CountRemove(s[1..]);
      var r := RemoveChar(s, '.');
      assert forall c :: c in s <==> c == s[0] || c in s[1..];
      if s[0] != '.' {
        assert r == [s[0]] + RemoveChar(s[1..], '.') && r[1..] == RemoveChar(s[1..], '.');
        assert forall c :: c in r <==> c == r[0] || c in r[1..];
      } else {
        assert r == "" + RemoveChar(s[1..], '.') == RemoveChar(s[1..], '.');
      }
    }
  }

  lemma {:induction false} CountAfterFirst(s: string, c: char)
    ensures var k := FirstIndex(s, c);
      if k < |s| then Count(s, c) == 1 + Count(s[k + 1..], c) else Count(s, c) == 0
  {
    if s != "" && s[0] != c {
      CountAfterFirst(s[1..], c);
      var k := FirstIndex(s[1..], c);
      if k < |s[1..]| {
        assert s[1..][k + 1..] == s[k + 2..];
      }
    }
  }

  ghost predicate DigitsAndDots(s: string) { forall c :: c in s ==> IsDigit(c) || c == '.' }

  ghost predicate HasDigit(s: string) { exists c :: c in s && IsDigit(c) }

  lemma DigitsBut(s: string, t: string)
    requires DigitsAndDots(s) && forall c :: c in t ==> c in s
    ensures AllDigits(t) <==> '.' !in t
  {
    assert forall i :: 0 <= i < |t| ==> t[i] in t;
  }

  /** What `float` sees: the digits before the first dot, and what follows it. */
  lemma FloatSplits(s: string, k: nat)
    requires k == FirstIndex(s, '.')
    ensures var frac := if k < |s| then s[k + 1..] else "";
      ParseFloat(s).Some? <==> AllDigits(s[..k]) && AllDigits(frac) && (s[..k] != "" || frac != "")
  {
    hide FirstIndex, Decimal, AllDigits;
  }

  lemma BeforeFirst(s: string, c: char)
    ensures c !in s[..FirstIndex(s, c)]
    ensures FirstIndex(s, c) == |s| ==> s[..FirstIndex(s, c)] == s
  {
    hide FirstIndex;
  }

  lemma DigitBesides(s: string, k: nat)
    requires HasDigit(s) && k < |s| && s[k] == '.'
    ensures s[..k] != "" || s[k + 1..] != ""
  {
    var c :| c in s && IsDigit(c);
    var i :| 0 <= i < |s| && s[i] == c;
    assert i != k;
  }

  /** `float` accepts digits with at most one dot. */
  lemma FloatCountsDots(s: string)
    requires DigitsAndDots(s) && HasDigit(s)
    ensures ParseFloat(s).Some? <==> Count(s, '.') <= 1
  {
    var k := FirstIndex(s, '.');
    assert s != "";
    hide *;
    CountAfterFirst(s, '.');
    FloatSplits(s, k);
    BeforeFirst(s, '.');
    DigitsBut(s, s[..k]);
    if k < |s| {
      CountNone(s[k + 1..], '.');
      DigitsBut(s, s[k + 1..]);
      DigitBesides(s, k);
    } else {
      DigitsBut(s, "");
    }
  }

  lemma NumeralCounts(marks: string, grouped: bool)
    requires forall c :: c in marks ==> IsBodyChar(c)
    requires HasDigit(marks)
    ensures var s := Numeral(marks, grouped);
      && DigitsAndDots(s) && HasDigit(s)
      && Count(s, '.') == Count(marks, ',') + (if grouped then 0 else Count(marks, '.'))
  {
    CountReplace(marks);
    CountRemove(marks);
    CountReplace(RemoveChar(marks, '.'));
    hide Count, Replace, RemoveChar;
    var c :| c in marks && IsDigit(c);
    assert c in Numeral(marks, grouped);
  }

  // ---------- one point ----------

  lemma {:induction false} ZeroValue(s: string)
    requires AllDigits(s)
    ensures Value(s) == 0 <==> OnlyZeros(s)
  {
    if s != "" {
      var n := |s| - 1;
      ZeroValue(s[..n]);
      assert s == s[..n] + [s[n]];
    }
  }

  /** Dropping the point multiplies the value by a power of ten. */
  lemma WithoutPointScales(v: nat, f: nat, p: nat)
    requires p > 0
    ensures (v * p + f) as real == p as real * (v as real + f as real / p as real)
  {
    assert p as real * (f as real / p as real) == f as real;
    assert (v * p) as real == v as real * p as real;
  }

  lemma ScaledIsSame(x: real, y: real, p: nat)
    requires p > 1 && y == p as real * x
    ensures y == x <==> x == 0.0
  {
    assert p as real * x - x == (p as real - 1.0) * x;
  }

  lemma DecimalZero(v: nat, f: nat, p: nat)
    requires p > 0
    ensures v as real + f as real / p as real == 0.0 <==> v == 0 && f == 0
  {
    assert f as real / p as real >= 0.0;
    assert f as real == p as real * (f as real / p as real);
  }

  lemma PointOrNot(whole: string, frac: string)
    requires AllDigits(whole) && AllDigits(frac) && frac != ""
    ensures AllDigits(whole + frac)
    ensures Decimal(whole + frac, "") == Decimal(whole, frac) <==> OnlyZeros(whole) && OnlyZeros(frac)
  {
    var v, f, p := Value(whole), Value(frac), Pow10(|frac|);
    ValueAppend(whole, frac);
    ZeroValue(whole);
    ZeroValue(frac);
    NoFraction(whole + frac);
    assert p == 10 * Pow10(|frac| - 1);
    assert Decimal(whole, frac) == v as real + f as real / p as real;
    hide *;
    SameWithoutPoint(v, f, p);
  }

  lemma SameWithoutPoint(v: nat, f: nat, p: nat)
    requires p > 1
    ensures (v * p + f) as real == v as real + f as real / p as real <==> v == 0 && f == 0
  {
    var x := v as real + f as real / p as real;
    WithoutPointScales(v, f, p);
    DecimalZero(v, f, p);
    ScaledIsSame(x, (v * p + f) as real, p);
  }

  lemma NoFraction(whole: string)
    requires AllDigits(whole)
    ensures Decimal(whole, "") == Value(whole) as real
  {
    assert Value("") == 0 && Pow10(0) == 1;
  }

  /** A number with one point is split at it. */
  lemma SplitAtPoint(s: string) returns (whole: string, frac: string)
    requires DigitsAndDots(s) && Count(s, '.') == 1
    ensures s == whole + ['.'] + frac && AllDigits(whole) && AllDigits(frac)
    ensures FirstIndex(s, '.') == |whole| && (frac != "" ==> ParseFloat(s) == Some(Decimal(whole, frac)))
  {
    var k := FirstIndex(s, '.');
    CountAfterFirst(s, '.');
    whole, frac := s[..k], s[k + 1..];
    CountNone(frac, '.');
    hide Count, Decimal;
    assert forall i :: 0 <= i < |s| ==> s[i] in s;
    forall i | 0 <= i < |frac| ensures IsDigit(frac[i]) {
      assert frac[i] == s[k + 1 + i] && frac[i] in frac;
    }
  }

  lemma RemovePoint(whole: string, frac: string)
    requires AllDigits(whole) && AllDigits(frac)
    ensures RemoveChar(whole + ['.'] + frac, '.') == whole + frac
  {
    RemoveNone(whole, '.');
    hide RemoveChar;
    assert ['.'] == ".";
    RemoveDot(whole, frac);
  }

  lemma ZerosAround(whole: string, frac: string)
    ensures OnlyZeros(whole + ['.'] + frac) <==> OnlyZeros(whole) && OnlyZeros(frac)
  {
    var s := whole + ['.'] + frac;
    assert forall c :: c in s <==> c in whole || c == '.' || c in frac;
  }

  /** A number with one point and digits after it reads the same without the point only if it is zero. */
  lemma OnePoint(s: string)
    requires DigitsAndDots(s) && Count(s, '.') == 1 && FirstIndex(s, '.') + 1 < |s|
    ensures ParseFloat(RemoveChar(s, '.')) == ParseFloat(s) <==> OnlyZeros(s)
  {
    hide *;
    var whole, frac := SplitAtPoint(s);
    assert |s| == |whole| + 1 + |frac|;
    RemovePoint(whole, frac);
    PointOrNot(whole, frac);
    ZerosAround(whole, frac);
    WholeParses(whole + frac);
  }

  lemma WholeParses(s: string)
    requires AllDigits(s) && s != ""
    ensures ParseFloat(s) == Some(Decimal(s, ""))
  {
    var k := FirstIndex(s, '.');
    assert k == |s| && s[..k] == s;
  }

  /** A group leaves a digit after the first dot. */
  lemma GroupAfterDot(u: string)
    requires HasGroup(u)
    ensures HasDigit(Marks(u)) && Count(Marks(u), '.') >= 1 && FirstIndex(Marks(u), '.') + 1 < |Marks(u)|
  {
    var i: nat :| i + 5 <= |u| && GroupAt(u, i);
    var a, b := u[..i + 2], u[i + 2..];
    assert u == a + b;
    MarksAppend(a, b);
    assert u[i + 2..i + 5][0] == b[0];
    assert a[i + 1] == '.' && a[i + 1] in a && b[0] in b;
    assert '.' in Marks(a) && b[0] in Marks(b) && Marks(b) != "";
    CountNone(Marks(u), '.');
    assert '.' in Marks(u) && b[0] in Marks(u);
    FirstIsEarly(Marks(a), Marks(b), '.');
    hide Marks, Count, FirstIndex;
  }

  lemma FirstIsEarly(a: string, b: string, c: char)
    requires c in a
    ensures FirstIndex(a + b, c) < |a|
  {
    var i :| 0 <= i < |a| && a[i] == c;
    assert (a + b)[i] == c;
  }

  // ---------- the answer ----------

  /** Whether the two readings of dots give the same number. */
  predicate DotsDoNotMatter(text: string) {
    Count(text, ',') >= 2 || (Count(text, ',') == 0 && Count(text, '.') == 1 && OnlyZeros(text))
  }

  lemma DotsMatter(u: string)
    requires HasGroup(u)
    ensures ReadNumber(u, false) == ReadNumber(u, true) <==> DotsDoNotMatter(u)
  {
    var marks := Marks(u);
    ReadsMarks(u, false);
    ReadsMarks(u, true);
    GroupAfterDot(u);
    MarksCount(u, ',');
    MarksCount(u, '.');
    MarksZeros(u);
    hide HasGroup, ReadNumber, Marks, Count, OnlyZeros, Numeral, ParseFloat, FirstIndex;
    MarksMatter(marks);
  }

  lemma MarksMatter(marks: string)
    requires (forall c :: c in marks ==> IsBodyChar(c)) && HasDigit(marks)
    requires Count(marks, '.') >= 1 && FirstIndex(marks, '.') + 1 < |marks|
    ensures ParseFloat(Numeral(marks, false)) == ParseFloat(Numeral(marks, true)) <==> DotsDoNotMatter(marks)
  {
    NumeralCounts(marks, false);
    NumeralCounts(marks, true);
    FloatCountsDots(Numeral(marks, false));
    FloatCountsDots(Numeral(marks, true));
    if Count(marks, ',') == 0 && Count(marks, '.') == 1 {
      CountNone(marks, ',');
      CountRemove(marks);
      CountNone(RemoveChar(marks, '.'), ',');
      NoCommas(marks);
      NoCommas(RemoveChar(marks, '.'));
      hide Count, ParseFloat, OnlyZeros, RemoveChar, Replace, FirstIndex;
      OnePoint(marks);
    }
  }

  lemma NoCommas(s: string)
    requires ',' !in s
    ensures Replace(s, ',', '.') == s
  {
    assert forall i :: 0 <= i < |s| ==> s[i] in s;
    ReplaceNone(s, ',', '.');
  }

  lemma SameDotsMatter(t: string, u: string)
    requires Marks(t) == Marks(u)
    ensures DotsDoNotMatter(t) <==> DotsDoNotMatter(u)
  {
    MarksCount(t, ',');
    MarksCount(t, '.');
    MarksCount(u, ',');
    MarksCount(u, '.');
    MarksZeros(t);
    MarksZeros(u);
    hide Marks, Count, OnlyZeros;
  }

  /** On every text: the two parsers agree if and only if their patterns agree, or the text has
      two commas (neither can read it), or it has a single dot, no comma and no digit but zeros. */
  lemma ParsersAgreeIff(raw: string)
    ensures ParseTrPrice(raw) == ParseTrNumber(raw) <==>
      (Grouped(Clean(raw)) <==> HasGroup(CleanNumber(raw))) || DotsDoNotMatter(Clean(raw))
  {
    var t, u := Clean(raw), CleanNumber(raw);
    SameMarks(raw);
    SameDotsMatter(t, u);
    ReadsMarks(t, false);
    ReadsMarks(u, false);
    if Grouped(t) {
      GroupedSameText(raw);
    } else if HasGroup(u) {
      hide ReadNumber, Grouped, HasGroup, Marks, DotsDoNotMatter;
      DotsMatter(u);
    }
  }

  // ---------- texts that are read differently ----------

  /** A text without blanks at its ends and without unit or percent characters is cleaned to itself. */
  lemma CleanAsItIs(s: string)
    requires s != "" && !IsSpace(s[0]) && !IsSpace(s[|s| - 1])
    requires forall i :: 0 <= i < |s| ==> s[i] != 'T' && s[i] != LIRA && s[i] != '%'
    ensures Clean(s) == s && CleanNumber(s) == s
  {
    assert "" + s + "" == s;
    hide Strip, Remove, IsSpace;
    StripPads("", s, "");
    RemoveNothing(s, "TL");
    RemoveNothing(s, [LIRA]);
    RemoveNothing(s, "%");
  }

  /** A text whose dots only the second pattern takes for group marks, and where they matter. */
  lemma ReadDifferently(s: string, i: nat)
    requires s != "" && !IsSpace(s[0]) && !IsSpace(s[|s| - 1])
    requires forall i :: 0 <= i < |s| ==> s[i] != 'T' && s[i] != LIRA && s[i] != '%'
    requires !Grouped(s) && i + 5 <= |s| && GroupAt(s, i) && !DotsDoNotMatter(s)
    ensures ParseTrPrice(s) != ParseTrNumber(s)
  {
    assert HasGroup(s);
    hide *;
    CleanAsItIs(s);
    ParsersAgreeIff(s);
  }

  lemma NoDotBeforeLast(g: string)
    requires |g| >= 4 && g[|g| - 4] != '.'
    ensures !GroupedInt(g)
  {
  }

  /** Four or more digits before the last group, and no comma. */
  lemma LongHead(s: string)
    requires |s| > 7 && ',' !in s && s[|s| - 8] != '.'
    ensures !Grouped(s)
  {
    CountNone(s, ',');
    hide Count;
    var k := FirstIndex(s, ',');
    assert k == |s| && s[..k] == s;
    var head := s[..|s| - 4];
    assert head[|head| - 4] == s[|s| - 8];
    NoDotBeforeLast(head);
  }

  lemma ThreeDecimals()
    ensures ParseTrPrice("12345.678") != ParseTrNumber("12345.678")
  {
    var s := "12345.678";
    assert s[1] != '.' && '1' in s && ',' !in s && |s| == 9 && !OnlyZeros(s);
    assert GroupAt(s, 4) by {
      assert s[6..9] == "678";
    }
    assert forall i :: 0 <= i < |s| ==> s[i] != 'T' && s[i] != LIRA && s[i] != '%';
    assert !IsSpace(s[0]) && !IsSpace(s[8]);
    hide *;
    NoComma(s);
    LongHead(s);
    ReadDifferently(s, 4);
  }

  lemma NoComma(s: string)
    requires ',' !in s && !OnlyZeros(s)
    ensures !DotsDoNotMatter(s)
  {
    CountNone(s, ',');
  }

  lemma TrailingWord()
    ensures ParseTrPrice("1.299 $") != ParseTrNumber("1.299 $")
  {
    var s := "1.299 $";
    assert |s| == 7 && '1' in s && ',' !in s && ' ' in s && !IsBodyChar(' ') && !OnlyZeros(s);
    assert GroupAt(s, 0) by {
      assert s[2..5] == "299";
    }
    assert forall i :: 0 <= i < |s| ==> s[i] != 'T' && s[i] != LIRA && s[i] != '%';
    assert !IsSpace(s[0]) && !IsSpace(s[6]);
    hide *;
    NoComma(s);
    if Grouped(s) {
      GroupedHasGroup(s);
    }
    ReadDifferently(s, 0);
  }
}
