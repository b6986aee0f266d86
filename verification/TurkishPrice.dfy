/**
 Reading Turkish money amounts.

 Two parsers read texts such as "1.299,90 TL": thousands may be grouped by dots, decimals
 follow a comma. They decide in different ways whether dots are group marks. Values are exact
 here, where the scripts use floats, and digits are the ASCII ones.
 */
module TurkishPrice {
  import opened Prelude
  import opened Text

  const LIRA := '\U{20BA}'

  predicate IsDigit(c: char) { '0' <= c <= '9' }

  predicate AllDigits(s: string) { forall i :: 0 <= i < |s| ==> IsDigit(s[i]) }

  /** `s.replace(needle, "")`. */
  function Remove(s: string, needle: string): string
    requires needle != ""
  {
    if |s| < |needle| then s
    else if needle <= s then Remove(s[|needle|..], needle)
    else [s[0]] + Remove(s[1..], needle)
  }

  /** `s.replace(a, b)` for single characters. */
  function Replace(s: string, a: char, b: char): string {
    if s == "" then "" else [if s[0] == a then b else s[0]] + Replace(s[1..], a, b)
  }

  function RemoveChar(s: string, c: char): string {
    if s == "" then "" else (if s[0] == c then "" else [s[0]]) + RemoveChar(s[1..], c)
  }

  predicate NumericChar(c: char) { IsDigit(c) || c == '.' }

  /** `re.sub(r"[^\d.]", "", s)`. */
  function KeepNumeric(s: string): string {
    if s == "" then "" else (if NumericChar(s[0]) then [s[0]] else "") + KeepNumeric(s[1..])
  }

  /** The index of the first `c`, or the length. */
  function FirstIndex(s: string, c: char): (k: nat)
    ensures k <= |s|
    ensures k < |s| ==> s[k] == c
    ensures forall i :: 0 <= i < k ==> s[i] != c
  {
    if s == "" || s[0] == c then 0 else 1 + FirstIndex(s[1..], c)
  }

  function Pow10(n: nat): (p: nat)
    ensures p > 0
  {
    if n == 0 then 1 else 10 * Pow10(n - 1)
  }

  /** The number a string of digits denotes. */
  function Value(s: string): nat
    requires AllDigits(s)
  {
    if s == "" then 0 else Value(s[..|s| - 1]) * 10 + (s[|s| - 1] as int - '0' as int)
  }

  function Decimal(whole: string, frac: string): real
    requires AllDigits(whole) && AllDigits(frac)
  {
    Value(whole) as real + Value(frac) as real / Pow10(|frac|) as real
  }

  /** `float(s)` for a string of digits and dots; `None` is the ValueError. */
  function ParseFloat(s: string): Option<real> {
    var k := FirstIndex(s, '.');
    var whole, frac := s[..k], if k < |s| then s[k + 1..] else "";
    if AllDigits(whole) && AllDigits(frac) && (whole != "" || frac != "") then Some(Decimal(whole, frac)) else None
  }

  /** `\d{1,3}(\.\d{3})+`, the whole string. */
  predicate GroupedInt(s: string) {
    |s| >= 5 && s[|s| - 4] == '.' && AllDigits(s[|s| - 3..]) &&
    ((|s| - 4 <= 3 && AllDigits(s[..|s| - 4])) || GroupedInt(s[..|s| - 4]))
  }

  /** `^\d{1,3}(\.\d{3})+(,\d+)?$`. */
  predicate Grouped(s: string) {
    var k := FirstIndex(s, ',');
    GroupedInt(s[..k]) && (k < |s| ==> k + 1 < |s| && AllDigits(s[k + 1..]))
  }

  /** `\d\.\d{3}`, anywhere. */
  predicate HasGroup(s: string) {
    exists i :: 0 <= i && i + 5 <= |s| && GroupAt(s, i)
  }

  predicate GroupAt(s: string, i: nat)
    requires i + 5 <= |s|
  {
    IsDigit(s[i]) && s[i + 1] == '.' && AllDigits(s[i + 2..i + 5])
  }

  function Clean(raw: string): string { Strip(Remove(Remove(Strip(raw), "TL"), [LIRA])) }

  /** Reading a cleaned text, once it is decided whether dots are group marks. */
  function ReadNumber(text: string, grouped: bool): Option<real> {
    ParseFloat(KeepNumeric(if grouped then Replace(RemoveChar(text, '.'), ',', '.') else Replace(text, ',', '.')))
  }

  function ParseTrPrice(raw: string): Option<real> {
    var text := Clean(raw);
    ReadNumber(text, Grouped(text))
  }

  /** The campaign script also drops percent signs, and looks for a group anywhere. */
  function ParseTrNumber(raw: string): Option<real> {
    var text := Strip(Remove(Remove(Remove(Strip(raw), "TL"), [LIRA]), "%"));
    ReadNumber(text, HasGroup(text))
  }

  // ---------- writing an amount ----------

  function Digit(d: nat): char
    requires d < 10
  {
    ('0' as int + d) as char
  }

  /** Decimal digits without leading zeros. */
  function Dec(n: nat): (s: string)
    ensures s != "" && AllDigits(s)
  {
    (if n < 10 then "" else Dec(n / 10)) + [Digit(n % 10)]
  }

  /** The last `width` decimal digits, with leading zeros. */
  function Padded(n: nat, width: nat): (s: string)
    ensures |s| == width && AllDigits(s)
  {
    if width == 0 then "" else Padded(n / 10, width - 1) + [Digit(n % 10)]
  }

  /** Thousands grouped by dots. */
  function Group(n: nat): string {
    if n < 1000 then Dec(n) else Group(n / 1000) + "." + Padded(n % 1000, 3)
  }

  /** An amount as it may be written: grouped or not, with or without decimals, with a currency
      sign before or after, and blanks in between. */
  datatype Style = Style(grouped: bool, decimals: bool, before: string, after: string,
      pads: (string, string, string, string))

  ghost predicate Blanks(s: string) { forall i :: 0 <= i < |s| ==> IsSpace(s[i]) }

  predicate IsUnit(s: string) { s == "" || s == "TL" || s == [LIRA] }

  ghost predicate ValidStyle(st: Style) {
    IsUnit(st.before) && IsUnit(st.after)
    && Blanks(st.pads.0) && Blanks(st.pads.1) && Blanks(st.pads.2) && Blanks(st.pads.3)
  }

  /** The digits of an amount of kurus. */
  function Body(kurus: nat, st: Style): string {
    (if st.grouped then Group(kurus / 100) else Dec(kurus / 100)) +
        (if st.decimals then "," + Padded(kurus % 100, 2) else "")
  }

  function Write(kurus: nat, st: Style): string {
    st.pads.0 + st.before + st.pads.1 + Body(kurus, st) + st.pads.2 + st.after + st.pads.3
  }

  // ---------- values ----------

  lemma {:induction false} ValueAppend(a: string, b: string)
    requires AllDigits(a) && AllDigits(b)
    ensures AllDigits(a + b) && Value(a + b) == Value(a) * Pow10(|b|) + Value(b)
  {
    if b == "" {
      assert a + b == a;
    } else {
      var n, s := |b| - 1, a + b;
      ValueAppend(a, b[..n]);
      assert s[..|s| - 1] == a + b[..n] && s[|s| - 1] == b[n];
      Shift(Value(a), Pow10(n), Value(b[..n]));
    }
  }

  lemma Shift(v: nat, p: nat, w: nat)
    ensures (v * p + w) * 10 == v * (10 * p) + w * 10
  {
  }

  lemma {:induction false} DecValue(n: nat)
    ensures Value(Dec(n)) == n
  {
    if n >= 10 {
      DecValue(n / 10);
      assert Dec(n)[..|Dec(n)| - 1] == Dec(n / 10);
    } else {
      assert Dec(n)[..0] == "";
    }
  }

  lemma {:induction false} PaddedValue(n: nat, width: nat)
    requires n < Pow10(width)
    ensures Value(Padded(n, width)) == n
    decreases width
  {
    if width > 0 {
      PaddedValue(n / 10, width - 1);
      var s := Padded(n, width);
      assert s[..width - 1] == Padded(n / 10, width - 1) && s[width - 1] == Digit(n % 10);
    }
  }

  /** Without its dots, a grouped number is a string of digits with the same value. */
  lemma {:induction false} GroupValue(n: nat)
    ensures AllDigits(RemoveChar(Group(n), '.')) && Value(RemoveChar(Group(n), '.')) == n &&
        RemoveChar(Group(n), '.') != ""
  {
    if n < 1000 {
      DecValue(n);
      RemoveNone(Dec(n), '.');
    } else {
      GroupValue(n / 1000);
      var a, b := Group(n / 1000), Padded(n % 1000, 3);
      assert Group(n) == a + "." + b;
      assert Pow10(3) == 1000;
      hide Group, Padded, Pow10, Value, RemoveChar;
      RemoveDot(a, b);
      PaddedValue(n % 1000, 3);
      ValueAppend(RemoveChar(a, '.'), b);
    }
  }

  lemma RemoveDot(a: string, b: string)
    requires AllDigits(b)
    ensures RemoveChar(a + "." + b, '.') == RemoveChar(a, '.') + b
  {
    assert RemoveChar(".", '.') == "";
    hide RemoveChar;
    RemoveAppend(a + ".", b, '.');
    RemoveAppend(a, ".", '.');
    RemoveNone(b, '.');
    assert RemoveChar(a, '.') + "" == RemoveChar(a, '.');
  }

  lemma {:induction false} RemoveNone(s: string, c: char)
    requires forall i :: 0 <= i < |s| ==> s[i] != c
    ensures RemoveChar(s, c) == s
  {
    if s != "" {
      RemoveNone(s[1..], c);
    }
  }

  lemma {:induction false} RemoveAppend(a: string, b: string, c: char)
    ensures RemoveChar(a + b, c) == RemoveChar(a, c) + RemoveChar(b, c)
  {
    if a == "" {
      assert a + b == b;
    } else {
      assert (a + b)[1..] == a[1..] + b;
      RemoveAppend(a[1..], b, c);
    }
  }

  lemma {:induction false} ReplaceNone(s: string, a: char, b: char)
    requires forall i :: 0 <= i < |s| ==> s[i] != a
    ensures Replace(s, a, b) == s
  {
    if s != "" {
      ReplaceNone(s[1..], a, b);
    }
  }

  lemma {:induction false} ReplaceAppend(s: string, t: string, a: char, b: char)
    ensures Replace(s + t, a, b) == Replace(s, a, b) + Replace(t, a, b)
  {
    if s == "" {
      assert s + t == t;
    } else {
      assert (s + t)[1..] == s[1..] + t;
      ReplaceAppend(s[1..], t, a, b);
    }
  }

  lemma {:induction false} KeepAll(s: string)
    requires forall i :: 0 <= i < |s| ==> NumericChar(s[i])
    ensures KeepNumeric(s) == s
  {
    if s != "" {
      KeepAll(s[1..]);
    }
  }

  lemma {:induction false} FirstIndexAppend(s: string, t: string, c: char)
    requires forall i :: 0 <= i < |s| ==> s[i] != c
    ensures FirstIndex(s + t, c) == |s| + FirstIndex(t, c)
  {
    if s == "" {
      assert s + t == t;
    } else {
      assert (s + t)[1..] == s[1..] + t;
      FirstIndexAppend(s[1..], t, c);
    }
  }

  // ---------- reading a body ----------

  /** The decimal part as it is written: nothing, or a comma and digits. */
  function Tail(frac: string): string { if frac == "" then "" else "," + frac }

  lemma CommaBecomesDot(whole: string, frac: string)
    requires AllDigits(whole) && AllDigits(frac)
    ensures Replace(whole + Tail(frac), ',', '.') == whole + Dotted(frac)
  {
    ReplaceAppend(whole, Tail(frac), ',', '.');
    ReplaceNone(whole, ',', '.');
    if frac != "" {
      ReplaceAppend(",", frac, ',', '.');
      ReplaceNone(frac, ',', '.');
      assert Replace(",", ',', '.') == ".";
    }
    hide Replace;
  }

  /** Digits and decimals read back exactly. */
  lemma ReadPlain(whole: string, frac: string)
    requires whole != "" && AllDigits(whole) && AllDigits(frac)
    ensures ParseFloat(KeepNumeric(Replace(whole + Tail(frac), ',', '.'))) == Some(Decimal(whole, frac))
  {
    hide *;
    CommaBecomesDot(whole, frac);
    ReadsDigits(whole, frac);
  }

  lemma ParsesAs(text: string, whole: string, frac: string)
    requires whole != "" && AllDigits(whole) && AllDigits(frac)
    requires text == whole + Dotted(frac) && FirstIndex(text, '.') == |whole|
    ensures ParseFloat(text) == Some(Decimal(whole, frac))
  {
    DottedSplits(whole, frac);
    hide Decimal, FirstIndex, Dotted;
  }

  function Dotted(frac: string): string { if frac == "" then "" else "." + frac }

  lemma DottedSplits(whole: string, frac: string)
    ensures var text := whole + Dotted(frac);
      && text[..|whole|] == whole && (frac == "" ==> |text| == |whole|)
      && (frac != "" ==> |text| > |whole| && text[|whole| + 1..] == frac)
  {
  }

  /** Digits with at most one dot are read as they stand. */
  lemma ReadsDigits(whole: string, frac: string)
    requires whole != "" && AllDigits(whole) && AllDigits(frac)
    ensures ParseFloat(KeepNumeric(whole + Dotted(frac))) == Some(Decimal(whole, frac))
  {
    var text := whole + Dotted(frac);
    NumericText(whole, frac);
    hide *;
    KeepAll(text);
    FirstIndexAppend(whole, Dotted(frac), '.');
    ParsesAs(text, whole, frac);
  }

  lemma NumericText(whole: string, frac: string)
    requires AllDigits(whole) && AllDigits(frac)
    ensures forall i :: 0 <= i < |whole + Dotted(frac)| ==> NumericChar((whole + Dotted(frac))[i])
    ensures (forall i :: 0 <= i < |whole| ==> whole[i] != '.') && FirstIndex(Dotted(frac), '.') == 0
  {
  }

  /** A number grouped by dots is recognised by both patterns. */
  lemma {:induction false} GroupIsGrouped(n: nat)
    requires n >= 1000
    ensures GroupedInt(Group(n)) && HasGroup(Group(n))
  {
    var a, b, s := Group(n / 1000), Padded(n % 1000, 3), Group(n);
    assert s == a + "." + b;
    assert s[..|s| - 4] == a && s[|s| - 3..] == b && s[|s| - 4] == '.';
    GroupEnds(n / 1000);
    EndsInDigit(a, s);
    if n / 1000 < 1000 {
      DecShort(n / 1000);
    } else {
      GroupIsGrouped(n / 1000);
    }
  }

  lemma DecShort(n: nat)
    requires n < 1000
    ensures |Dec(n)| <= 3
  {
    assert n / 10 < 100 && n / 10 / 10 < 10;
    assert n >= 10 ==> Dec(n) == Dec(n / 10) + [Digit(n % 10)];
    assert n / 10 >= 10 ==> Dec(n / 10) == Dec(n / 10 / 10) + [Digit(n / 10 % 10)];
  }

  lemma {:induction false} GroupEnds(n: nat)
    ensures Group(n) != "" && IsDigit(Group(n)[|Group(n)| - 1])
  {
  }

  lemma EndsInDigit(a: string, s: string)
    requires a != "" && IsDigit(a[|a| - 1]) && |s| == |a| + 4 && s[..|a|] == a && s[|a|] == '.' &&
        AllDigits(s[|a| + 1..])
    ensures HasGroup(s)
  {
    assert GroupAt(s, |a| - 1);
  }

  lemma {:induction false} GroupChars(n: nat)
    ensures forall i :: 0 <= i < |Group(n)| ==> (IsDigit(Group(n)[i]) || Group(n)[i] == '.') && Group(n)[i] != ','
  {
    if n >= 1000 {
      GroupChars(n / 1000);
    }
  }

  lemma TailIsGrouped(g: string, frac: string)
    requires GroupedInt(g) && AllDigits(frac) && forall i :: 0 <= i < |g| ==> g[i] != ','
    ensures Grouped(g + Tail(frac))
  {
    hide GroupedInt;
    var body := g + Tail(frac);
    FirstIndexAppend(g, Tail(frac), ',');
    TailSplits(g, frac);
  }

  lemma TailSplits(g: string, frac: string)
    ensures var body := g + Tail(frac);
      && body[..|g|] == g && (frac == "" ==> |body| == |g|)
      && (frac != "" ==> |body| > |g| + 1 && body[|g|] == ',' && body[|g| + 1..] == frac)
    ensures FirstIndex(Tail(frac), ',') == 0
  {
  }

  lemma HasGroupStays(g: string, t: string)
    requires HasGroup(g)
    ensures HasGroup(g + t)
  {
    var body := g + t;
    var i: nat :| i + 5 <= |g| && GroupAt(g, i);
    assert body[i + 2..i + 5] == g[i + 2..i + 5] && GroupAt(body, i);
  }

  lemma ReadMarked(g: string, whole: string, frac: string)
    requires RemoveChar(g, '.') == whole != "" && AllDigits(whole) && AllDigits(frac)
    ensures ReadNumber(g + Tail(frac), true) == Some(Decimal(whole, frac))
  {
    hide ParseFloat, KeepNumeric, Replace, Decimal;
    RemoveAppend(g, Tail(frac), '.');
    RemoveNone(Tail(frac), '.');
    hide RemoveChar;
    ReadPlain(whole, frac);
  }

  lemma ReadUnmarked(whole: string, frac: string)
    requires whole != "" && AllDigits(whole) && AllDigits(frac)
    ensures ReadNumber(whole + Tail(frac), false) == Some(Decimal(whole, frac))
  {
    hide ParseFloat, KeepNumeric, Replace, RemoveChar, Decimal;
    ReadPlain(whole, frac);
  }

  function Amount(n: nat, frac: string): real
    requires AllDigits(frac)
  {
    n as real + Value(frac) as real / Pow10(|frac|) as real
  }

  lemma DecimalIsAmount(whole: string, frac: string, n: nat)
    requires AllDigits(whole) && AllDigits(frac) && Value(whole) == n
    ensures Decimal(whole, frac) == Amount(n, frac)
  {
    hide Value;
  }

  /** A grouped number is recognised by both patterns and read exactly. */
  lemma ReadGrouped(n: nat, frac: string)
    requires n >= 1000 && AllDigits(frac)
    ensures Grouped(Group(n) + Tail(frac)) && HasGroup(Group(n) + Tail(frac))
    ensures ReadNumber(Group(n) + Tail(frac), true) == Some(Amount(n, frac))
  {
    hide *;
    GroupChars(n);
    var g := Group(n);
    GroupIsGrouped(n);
    GroupValue(n);
    TailIsGrouped(g, frac);
    HasGroupStays(g, Tail(frac));
    ReadMarked(g, RemoveChar(g, '.'), frac);
    DecimalIsAmount(RemoveChar(g, '.'), frac, n);
  }

  lemma WithoutDots(whole: string, frac: string)
    requires AllDigits(whole) && AllDigits(frac)
    ensures !Grouped(whole + Tail(frac)) && !HasGroup(whole + Tail(frac))
  {
    var s := whole + Tail(frac);
    assert forall i :: 0 <= i < |s| ==> s[i] != '.';
    assert forall i :: 0 <= i && i + 5 <= |s| ==> !GroupAt(s, i);
  }

  /** A number without group marks is recognised by neither and read exactly. */
  lemma ReadUngrouped(n: nat, frac: string)
    requires AllDigits(frac)
    ensures !Grouped(Dec(n) + Tail(frac)) && !HasGroup(Dec(n) + Tail(frac))
    ensures ReadNumber(Dec(n) + Tail(frac), false) == Some(Amount(n, frac))
  {
    hide *;
    DecValue(n);
    WithoutDots(Dec(n), frac);
    ReadUnmarked(Dec(n), frac);
    DecimalIsAmount(Dec(n), frac, n);
  }

  function Frac(kurus: nat, st: Style): (frac: string)
    ensures AllDigits(frac)
  {
    if st.decimals then Padded(kurus % 100, 2) else ""
  }

  lemma BodyIs(kurus: nat, st: Style)
    ensures var lira := kurus / 100;
      Body(kurus, st) == (if st.grouped && lira >= 1000 then Group(lira) else Dec(lira)) + Tail(Frac(kurus, st))
  {
  }

  lemma AmountIs(kurus: nat, st: Style)
    requires st.decimals || kurus % 100 == 0
    ensures Amount(kurus / 100, Frac(kurus, st)) == kurus as real / 100.0
  {
    var lira, rest := kurus / 100, kurus % 100;
    assert Pow10(2) == 100 && Pow10(0) == 1;
    if st.decimals {
      PaddedValue(rest, 2);
    }
    assert kurus as real == 100.0 * lira as real + rest as real;
    hide Padded, Value, Pow10;
  }

  /** The amount of kurus, and whether its body counts as grouped. */
  lemma ReadBody(kurus: nat, st: Style)
    requires st.decimals || kurus % 100 == 0
    ensures Grouped(Body(kurus, st)) <==> HasGroup(Body(kurus, st))
    ensures ReadNumber(Body(kurus, st), Grouped(Body(kurus, st))) == Some(kurus as real / 100.0)
  {
    hide *;
    BodyIs(kurus, st);
    AmountIs(kurus, st);
    if st.grouped && kurus / 100 >= 1000 {
      ReadGrouped(kurus / 100, Frac(kurus, st));
    } else {
      ReadUngrouped(kurus / 100, Frac(kurus, st));
    }
  }

  // ---------- cleaning ----------

  lemma {:induction false} LStripPad(pad: string, s: string)
    requires Blanks(pad)
    ensures LStrip(pad + s) == LStrip(s)
  {
    if pad == "" {
      assert pad + s == s;
    } else {
      assert (pad + s)[1..] == pad[1..] + s;
      LStripPad(pad[1..], s);
    }
  }

  lemma {:induction false} RStripPad(s: string, pad: string)
    requires Blanks(pad)
    ensures RStrip(s + pad) == RStrip(s)
    decreases |pad|
  {
    if pad == "" {
      assert s + pad == s;
    } else {
      var n := |pad| - 1;
      assert (s + pad)[..|s + pad| - 1] == s + pad[..n];
      assert (s + pad)[|s + pad| - 1] == pad[n];
      RStripPad(s, pad[..n]);
    }
  }

  /** Stripping a solid text with blanks around it gives the text. */
  lemma StripPads(a: string, core: string, b: string)
    requires Blanks(a) && Blanks(b) && core != "" && !IsSpace(core[0]) && !IsSpace(core[|core| - 1])
    ensures Strip(a + core + b) == core
  {
    assert a + core + b == a + (core + b);
    LStripPad(a, core + b);
    assert (core + b)[0] == core[0];
    assert LStrip(core + b) == core + b;
    RStripPad(core, b);
  }

  /** A part without the needle's first character stays as it is. */
  lemma {:induction false} RemoveSkips(p: string, rest: string, needle: string)
    requires needle != "" && forall i :: 0 <= i < |p| ==> p[i] != needle[0]
    ensures Remove(p + rest, needle) == p + Remove(rest, needle)
  {
    if p == "" {
      assert p + rest == rest;
    } else {
      RemoveFirst(p, rest, needle);
      hide Remove;
      RemoveSkips(p[1..], rest, needle);
      Associative([p[0]], p[1..], Remove(rest, needle));
      assert [p[0]] + p[1..] == p;
    }
  }

  /** A first character that does not start the needle is kept. */
  lemma RemoveFirst(p: string, rest: string, needle: string)
    requires needle != "" && p != "" && p[0] != needle[0]
    ensures Remove(p + rest, needle) == [p[0]] + Remove(p[1..] + rest, needle)
  {
    var t := p + rest;
    assert t[1..] == p[1..] + rest && t[0] == p[0] && t == [p[0]] + (p[1..] + rest);
  }

  lemma RemoveNothing(p: string, needle: string)
    requires needle != "" && forall i :: 0 <= i < |p| ==> p[i] != needle[0]
    ensures Remove(p, needle) == p
  {
    assert p + "" == p;
    RemoveSkips(p, "", needle);
  }

  lemma RemoveHead(rest: string, needle: string)
    requires needle != ""
    ensures Remove(needle + rest, needle) == Remove(rest, needle)
  {
    assert (needle + rest)[|needle|..] == rest;
  }

  /** A unit that is not the needle does not start like it either. */
  lemma OtherUnit(u: string, needle: string)
    requires IsUnit(u) && IsUnit(needle) && needle != "" && u != needle
    ensures forall i :: 0 <= i < |u| ==> u[i] != needle[0]
  {
    assert LIRA != 'T' && LIRA != 'L';
  }

  function Drop(u: string, needle: string): string { if u == needle then "" else u }

  /** Removing a currency sign around a middle part without its first character. */
  lemma RemoveAround(u: string, mid: string, v: string, needle: string)
    requires IsUnit(u) && IsUnit(v) && IsUnit(needle) && needle != ""
    requires forall i :: 0 <= i < |mid| ==> mid[i] != needle[0]
    ensures Remove(u + mid + v, needle) == Drop(u, needle) + mid + Drop(v, needle)
  {
    hide IsUnit, Remove;
    RemoveEnd(v, needle);
    Associative(u, mid, v);
    RemoveSkips(mid, v, needle);
    if u == needle {
      RemoveHead(mid + v, needle);
    } else {
      OtherUnit(u, needle);
      RemoveSkips(u, mid + v, needle);
    }
  }

  lemma RemoveEnd(v: string, needle: string)
    requires IsUnit(v) && IsUnit(needle) && needle != ""
    ensures Remove(v, needle) == Drop(v, needle)
  {
    if v == needle {
      assert needle + "" == needle;
      RemoveHead("", needle);
    } else {
      OtherUnit(v, needle);
      RemoveNothing(v, needle);
    }
  }

  /** Amount characters are neither blank nor part of a unit. */
  predicate IsBodyChar(c: char) { IsDigit(c) || c == '.' || c == ',' }

  lemma BodyChars(kurus: nat, st: Style)
    ensures Body(kurus, st) != "" && forall i :: 0 <= i < |Body(kurus, st)| ==> IsBodyChar(Body(kurus, st)[i])
  {
    GroupChars(kurus / 100);
    GroupEnds(kurus / 100);
  }

  lemma Regroup(a: string, u: string, b: string, body: string, c: string, v: string, d: string)
    ensures a + u + b + body + c + v + d == a + (u + (b + body + c) + v) + d
    ensures u == "" && v == "" ==> a + u + b + body + c + v + d == (a + b) + (u + body + v) + (c + d)
    ensures u == "" ==> a + u + b + body + c + v + d == (a + b) + (u + (body + c) + v) + d
    ensures v == "" ==> a + u + b + body + c + v + d == a + (u + (b + body) + v) + (c + d)
  {
  }

  lemma Ends(u: string, mid: string, v: string)
    requires mid != "" && IsUnit(u) && IsUnit(v)
    requires u == "" ==> IsBodyChar(mid[0])
    requires v == "" ==> IsBodyChar(mid[|mid| - 1])
    ensures var core := u + mid + v; core != "" && !IsSpace(core[0]) && !IsSpace(core[|core| - 1])
  {
  }

  lemma MidEnds(b: string, body: string, c: string)
    requires body != ""
    ensures (body + c)[0] == body[0] && (b + body)[|b + body| - 1] == body[|body| - 1]
  {
  }

  /** What is left between the units: blanks next to a missing unit go with the outer ones. */
  function Middle(u: string, b: string, body: string, c: string, v: string): string {
    if u == "" && v == "" then body else if u == "" then body + c else if v == "" then b + body else b + body + c
  }

  lemma StripWritten(a: string, u: string, b: string, body: string, c: string, v: string, d: string)
    requires Blanks(a) && Blanks(b) && Blanks(c) && Blanks(d) && IsUnit(u) && IsUnit(v)
    requires body != "" && forall i :: 0 <= i < |body| ==> IsBodyChar(body[i])
    ensures Strip(a + u + b + body + c + v + d) == u + Middle(u, b, body, c, v) + v
  {
    Regroup(a, u, b, body, c, v, d);
    MidEnds(b, body, c);
    Ends(u, Middle(u, b, body, c, v), v);
    assert Blanks(a + b) && Blanks(c + d);
    hide Strip, IsSpace, IsUnit, IsBodyChar;
    StripPads(if u == "" then a + b else a, u + Middle(u, b, body, c, v) + v, if v == "" then c + d else d);
  }

  lemma MiddleChars(u: string, b: string, body: string, c: string, v: string, needle: string)
    requires Blanks(b) && Blanks(c) && IsUnit(needle) && needle != ""
    requires forall i :: 0 <= i < |body| ==> IsBodyChar(body[i])
    ensures forall i :: 0 <= i < |Middle(u, b, body, c, v)| ==> Middle(u, b, body, c, v)[i] != needle[0]
    ensures forall i :: 0 <= i < |Middle(u, b, body, c, v)| ==> Middle(u, b, body, c, v)[i] != '%'
  {
  }

  lemma StripMiddle(u: string, b: string, body: string, c: string, v: string)
    requires Blanks(b) && Blanks(c) && body != "" && forall i :: 0 <= i < |body| ==> IsBodyChar(body[i])
    ensures Strip(Middle(u, b, body, c, v)) == body
  {
    assert "" + body + "" == body && "" + body + c == body + c && b + body + "" == b + body;
    assert !IsSpace(body[0]) && !IsSpace(body[|body| - 1]);
    hide Strip, IsSpace;
    StripPads(if u == "" then "" else b, body, if v == "" then "" else c);
  }

  /** Cleaning leaves the digits. */
  lemma CleanWritten(kurus: nat, st: Style)
    requires ValidStyle(st)
    ensures Clean(Write(kurus, st)) == Body(kurus, st)
    ensures Strip(Remove(Remove(Remove(Strip(Write(kurus, st)), "TL"), [LIRA]), "%")) == Body(kurus, st)
  {
    var u, v, b, c, body := st.before, st.after, st.pads.1, st.pads.2, Body(kurus, st);
    BodyChars(kurus, st);
    hide Body, Strip, Remove, IsSpace, IsBodyChar;
    StripWritten(st.pads.0, u, b, body, c, v, st.pads.3);
    var mid := Middle(u, b, body, c, v);
    MiddleChars(u, b, body, c, v, "TL");
    MiddleChars(u, b, body, c, v, [LIRA]);
    RemoveAround(u, mid, v, "TL");
    RemoveAround(Drop(u, "TL"), mid, Drop(v, "TL"), [LIRA]);
    assert Drop(Drop(u, "TL"), [LIRA]) + mid + Drop(Drop(v, "TL"), [LIRA]) == mid;
    RemoveNothing(mid, "%");
    StripMiddle(u, b, body, c, v);
  }

  // ---------- the two parsers ----------

  /** Every way of writing an amount of kurus reads back as exactly that amount, and both
      parsers agree on it. */
  lemma AmountReadsBack(kurus: nat, st: Style)
    requires ValidStyle(st) && (st.decimals || kurus % 100 == 0)
    ensures ParseTrPrice(Write(kurus, st)) == Some(kurus as real / 100.0)
    ensures ParseTrNumber(Write(kurus, st)) == Some(kurus as real / 100.0)
  {
    CleanWritten(kurus, st);
    hide Write, Body, Clean, Strip, Remove, ReadNumber, Grouped, HasGroup, ValidStyle;
    ReadBody(kurus, st);
  }

  lemma CleanBody(body: string)
    requires body != "" && forall i :: 0 <= i < |body| ==> IsBodyChar(body[i])
    ensures Clean(body) == body && Strip(Remove(Remove(Remove(Strip(body), "TL"), [LIRA]), "%")) == body
  {
    assert !IsSpace(body[0]) && !IsSpace(body[|body| - 1]) && "" + body + "" == body;
    assert forall i :: 0 <= i < |body| ==> body[i] != 'T' && body[i] != LIRA && body[i] != '%';
    hide Strip, Remove, IsSpace, IsBodyChar;
    StripPads("", body, "");
    RemoveNothing(body, "TL");
    RemoveNothing(body, [LIRA]);
    RemoveNothing(body, "%");
  }

  /** An amount with a decimal point, as in "1.2345". */
  function Pointed(n: nat, frac: string): string { Dec(n) + Dotted(frac) }

  lemma PointedChars(n: nat, frac: string)
    requires AllDigits(frac)
    ensures Pointed(n, frac) != ""
    ensures forall i :: 0 <= i < |Pointed(n, frac)| ==> IsBodyChar(Pointed(n, frac)[i]) && Pointed(n, frac)[i] != ','
  {
    hide Dec;
  }

  /** With more than three decimals, only the second pattern takes the point for a group mark. */
  lemma PointedPatterns(n: nat, frac: string)
    requires |frac| >= 4 && AllDigits(frac)
    ensures !Grouped(Pointed(n, frac)) && HasGroup(Pointed(n, frac))
  {
    var a, t := Dec(n), Pointed(n, frac);
    hide Dec;
    PointedChars(n, frac);
    FirstIndexAppend(t, "", ',');
    assert t + "" == t && t[..|t|] == t;
    assert t[|t| - 4] == frac[|frac| - 4];
    assert t[|a| - 1] == a[|a| - 1] && t[|a|] == '.' && t[|a| + 1..|a| + 4] == frac[..3];
    assert GroupAt(t, |a| - 1);
  }

  lemma ReadAsWritten(n: nat, frac: string)
    requires AllDigits(frac)
    ensures ReadNumber(Pointed(n, frac), false) == Some(Amount(n, frac))
  {
    PointedChars(n, frac);
    ReplaceNone(Pointed(n, frac), ',', '.');
    DecValue(n);
    hide ParseFloat, KeepNumeric, Replace, Dec, Dotted, Decimal, Amount, Value;
    ReadsDigits(Dec(n), frac);
    DecimalIsAmount(Dec(n), frac, n);
  }

  lemma ReadDigitsOnly(text: string, whole: string, n: nat)
    requires RemoveChar(text, '.') == whole != "" && AllDigits(whole) && Value(whole) == n
    ensures ReadNumber(text, true) == Some(Amount(n, ""))
  {
    assert whole + Dotted("") == whole;
    hide ParseFloat, KeepNumeric, Replace, RemoveChar, Dotted, Decimal, Amount, Value;
    ReplaceNone(whole, ',', '.');
    ReadsDigits(whole, "");
    DecimalIsAmount(whole, "", n);
  }

  lemma ReadWithoutPoint(n: nat, frac: string)
    requires AllDigits(frac)
    ensures ReadNumber(Pointed(n, frac), true) == Some(Amount(n * Pow10(|frac|) + Value(frac), ""))
  {
    hide *;
    PointedDots(n, frac);
    DecValue(n);
    ValueAppend(Dec(n), frac);
    ReadDigitsOnly(Pointed(n, frac), Dec(n) + frac, n * Pow10(|frac|) + Value(frac));
  }

  lemma PointedDots(n: nat, frac: string)
    requires AllDigits(frac)
    ensures RemoveChar(Pointed(n, frac), '.') == Dec(n) + frac
  {
    DottedDots(frac);
    hide Dec, Dotted, RemoveChar;
    RemoveNone(Dec(n), '.');
    RemoveAppend(Dec(n), Dotted(frac), '.');
  }

  lemma DottedDots(frac: string)
    requires AllDigits(frac)
    ensures RemoveChar(Dotted(frac), '.') == frac
  {
    RemoveNone(frac, '.');
    RemoveAppend(".", frac, '.');
    assert RemoveChar(".", '.') == "";
  }

  /** Where the parsers differ: a positive amount with a point and more than three decimals is
      read as written by one, and as a whole number by the other. */
  lemma PointDisagreement(n: nat, frac: string)
    requires n > 0 && |frac| >= 4 && AllDigits(frac)
    ensures ParseTrPrice(Pointed(n, frac)) == Some(Amount(n, frac))
    ensures ParseTrNumber(Pointed(n, frac)) == Some((n * Pow10(|frac|) + Value(frac)) as real)
    ensures ParseTrPrice(Pointed(n, frac)) != ParseTrNumber(Pointed(n, frac))
  {
    hide *;
    PointedChars(n, frac);
    CleanBody(Pointed(n, frac));
    PointedPatterns(n, frac);
    ReadAsWritten(n, frac);
    ReadWithoutPoint(n, frac);
    ParsedFrom(Pointed(n, frac), Pointed(n, frac));
    AmountBelow(n, frac);
    WholeAmount(n * Pow10(|frac|) + Value(frac));
    PowerAbove(n, |frac|);
  }

  lemma ParsedFrom(raw: string, text: string)
    ensures Clean(raw) == text ==> ParseTrPrice(raw) == ReadNumber(text, Grouped(text))
    ensures Strip(Remove(Remove(Remove(Strip(raw), "TL"), [LIRA]), "%")) == text ==>
      ParseTrNumber(raw) == ReadNumber(text, HasGroup(text))
  {
    hide ReadNumber, Grouped, HasGroup, Clean;
  }

  lemma AmountBelow(n: nat, frac: string)
    requires AllDigits(frac)
    ensures Amount(n, frac) < n as real + 1.0
  {
    BelowPower(frac);
    hide Value, Pow10;
    FracBelowOne(Value(frac), Pow10(|frac|));
  }

  lemma {:induction false} BelowPower(s: string)
    requires AllDigits(s)
    ensures Value(s) < Pow10(|s|)
  {
    if s != "" {
      BelowPower(s[..|s| - 1]);
    }
  }

  lemma FracBelowOne(n: nat, d: nat)
    requires n < d
    ensures 0.0 <= n as real / d as real < 1.0
  {
  }

  lemma WholeAmount(n: nat)
    ensures Amount(n, "") == n as real
  {
  }

  lemma PowerAbove(n: nat, k: nat)
    requires n > 0 && k > 0
    ensures n * Pow10(k) >= n + 1
  {
    assert Pow10(k) >= 10;
    assert n * Pow10(k) >= n * 10;
  }
}
