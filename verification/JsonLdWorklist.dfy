/**
 The JSON-LD worklist of the Teknosa listing extractor.

 The extractor walks a list of values and, at every ItemList, appends the listed items to the
 list it is walking. The walk ends on every finite value and visits exactly the objects that a
 recursive flattening of the lists would reach.
 */
module JsonLdWorklist {
  import opened Prelude

  /** A parsed JSON value; numbers only matter by whether they are zero. */
  datatype Json =
    | Null | Bool(value: bool) | Num(zero: bool) | Str(text: string)
    | Arr(items: seq<Json>)
    | Obj(fields: seq<Member>)

  datatype Member = Member(key: string, value: Json)

  /** The value of a key; a repeated key has its last value. */
  function Find(fields: seq<Member>, key: string): (v: Option<Json>)
    ensures v.Some? ==> Member(key, v.value) in fields
  {
    if fields == [] then None
    else if fields[|fields| - 1].key == key then Some(fields[|fields| - 1].value)
    else Find(fields[..|fields| - 1], key)
  }

  predicate EndsWith(s: string, end: string) { |s| >= |end| && s[|s| - |end|..] == end }

  /** `str(it.get("@type", "")).endswith("ItemList")`: no other JSON value prints like that. */
  predicate IsItemList(j: Json) {
    j.Obj? && var t := Find(j.fields, "@type"); t.Some? && t.value.Str? && EndsWith(t.value.text, "ItemList")
  }

  /** What `it.get("itemListElement") or []` iterates over; `None` if that fails. Iterating a
      text or an object yields only texts. */
  function Elements(j: Json): (els: Option<seq<Json>>)
    requires j.Obj?
  {
    match Find(j.fields, "itemListElement")
    case None => Some([])
    case Some(v) =>
      match v
      case Null => Some([])
      case Bool(b) => if b then None else Some([])
      case Num(zero) => if zero then Some([]) else None
      case Str(_) => Some([])
      case Arr(items) => Some(items)
      case Obj(_) => Some([])
  }

  /** The item an element contributes. */
  function ItemOf(el: Json): Option<Json> {
    if el.Obj? && Find(el.fields, "item").Some? && Find(el.fields, "item").value.Obj? then
      Find(el.fields, "item")
    else None
  }

  function ItemsOf(els: seq<Json>): (items: seq<Json>)
    ensures forall i :: i in items ==> i.Obj?
  {
    if els == [] then []
    else ItemsOf(els[..|els| - 1]) + (if ItemOf(els[|els| - 1]).Some? then [ItemOf(els[|els| - 1]).value] else [])
  }

  // ---------- size ----------

  function Size(j: Json): (n: nat)
    ensures n > 0
    decreases j
  {
    match j
    case Arr(items) => 1 + SizeAll(items)
    case Obj(fields) => 1 + SizeFields(fields)
    case _ => 1
  }

  function SizeAll(s: seq<Json>): nat
    decreases s
  {
    if s == [] then 0 else SizeAll(s[..|s| - 1]) + Size(s[|s| - 1])
  }

  function SizeFields(f: seq<Member>): nat
    decreases f
  {
    if f == [] then 0 else SizeFields(f[..|f| - 1]) + Size(f[|f| - 1].value)
  }

  lemma {:induction false} FieldSize(fields: seq<Member>, key: string)
    ensures var v := Find(fields, key); v.Some? ==> Size(v.value) <= SizeFields(fields)
  {
    if fields != [] && fields[|fields| - 1].key != key {
      FieldSize(fields[..|fields| - 1], key);
    }
  }

  lemma {:induction false} ItemsSize(els: seq<Json>)
    ensures SizeAll(ItemsOf(els)) <= SizeAll(els)
  {
    if els != [] {
      var n := |els| - 1;
      ItemsSize(els[..n]);
      var item, before := ItemOf(els[n]), ItemsOf(els[..n]);
      if item.Some? {
        FieldSize(els[n].fields, "item");
        assert (before + [item.value])[..|before|] == before;
      } else {
        assert before + [] == before;
      }
    }
  }

  /** An ItemList is bigger than the items it lists. */
  lemma ElementsSmaller(j: Json)
    requires j.Obj? && Elements(j).Some?
    ensures SizeAll(ItemsOf(Elements(j).value)) < Size(j)
  {
    FieldSize(j.fields, "itemListElement");
    ItemsSize(Elements(j).value);
  }

  lemma {:induction false} SizeAppend(a: seq<Json>, b: seq<Json>)
    ensures SizeAll(a + b) == SizeAll(a) + SizeAll(b)
  {
    if b == [] {
      assert a + b == a;
    } else {
      var n := |b| - 1;
      SizeAppend(a, b[..n]);
      assert (a + b)[..|a + b| - 1] == a + b[..n];
    }
  }

  // ---------- the recursive flattening ----------

  /** The objects below a value that are no ItemLists, wherever they are nested in lists. */
  function Flatten(j: Json): multiset<Json>
    decreases Size(j), 0
  {
    if !j.Obj? then multiset{}
    else if !IsItemList(j) then multiset{j}
    else if Elements(j).None? then multiset{}
    else
      ElementsSmaller(j);
      FlattenAll(ItemsOf(Elements(j).value))
  }

  function FlattenAll(s: seq<Json>): multiset<Json>
    decreases SizeAll(s), 1 + |s|
  {
    if s == [] then multiset{} else FlattenAll(s[..|s| - 1]) + Flatten(s[|s| - 1])
  }

  /** Some ItemList that the flattening reaches cannot be iterated. */
  predicate Broken(j: Json)
    decreases Size(j), 0
  {
    j.Obj? && IsItemList(j) &&
    (Elements(j).None? || (ElementsSmaller(j); BrokenAny(ItemsOf(Elements(j).value))))
  }

  predicate BrokenAny(s: seq<Json>)
    decreases SizeAll(s), 1 + |s|
  {
    s != [] && (BrokenAny(s[..|s| - 1]) || Broken(s[|s| - 1]))
  }

  /** The flattening holds only objects that are no ItemLists. */
  lemma {:induction false} FlattenHoldsLeaves(j: Json)
    ensures forall x :: x in Flatten(j) ==> x.Obj? && !IsItemList(x)
    decreases Size(j), 0
  {
    if j.Obj? && IsItemList(j) && Elements(j).Some? {
      ElementsSmaller(j);
      FlattenAllHoldsLeaves(ItemsOf(Elements(j).value));
    }
  }

  lemma {:induction false} FlattenAllHoldsLeaves(s: seq<Json>)
    ensures forall x :: x in FlattenAll(s) ==> x.Obj? && !IsItemList(x)
    decreases SizeAll(s), 1 + |s|
  {
    hide IsItemList, Flatten;
    if s != [] {
      FlattenAllHoldsLeaves(s[..|s| - 1]);
      FlattenHoldsLeaves(s[|s| - 1]);
    }
  }

  lemma {:induction false} FlattenAppend(a: seq<Json>, b: seq<Json>)
    ensures FlattenAll(a + b) == FlattenAll(a) + FlattenAll(b)
    ensures BrokenAny(a + b) <==> BrokenAny(a) || BrokenAny(b)
    decreases |b|
  {
    hide Flatten, Broken, SizeAll, Size;
    if b == [] {
      assert a + b == a;
    } else {
      var n := |b| - 1;
      FlattenAppend(a, b[..n]);
      assert (a + b)[..|a + b| - 1] == a + b[..n];
    }
  }

  lemma Single(j: Json)
    ensures FlattenAll([j]) == Flatten(j) && (BrokenAny([j]) <==> Broken(j)) && SizeAll([j]) == Size(j)
  {
    var none: seq<Json> := [];
    assert [j][..0] == none;
  }

  // ---------- the walk ----------

  /** What is still to come after the first `i` items. */
  ghost predicate Pending(start: seq<Json>, items: seq<Json>, i: nat, visited: seq<Json>) {
    && i <= |items|
    && multiset(visited) + FlattenAll(items[i..]) == FlattenAll(start)
    && (BrokenAny(items[i..]) <==> BrokenAny(start))
  }

  /** Walking past the first of the remaining items, with `more` appended to the list. */
  lemma WalkStep(items: seq<Json>, i: nat, more: seq<Json>)
    requires i < |items|
    ensures FlattenAll(items[i..]) + FlattenAll(more) == Flatten(items[i]) + FlattenAll((items + more)[i + 1..])
    ensures BrokenAny(items[i..]) <==> Broken(items[i]) || BrokenAny(items[i + 1..])
    ensures BrokenAny((items + more)[i + 1..]) <==> BrokenAny(items[i + 1..]) || BrokenAny(more)
    ensures SizeAll(items[i..]) + SizeAll(more) == Size(items[i]) + SizeAll((items + more)[i + 1..])
  {
    var first, tail := items[i], items[i + 1..];
    assert items[i..] == [first] + tail && (items + more)[i + 1..] == tail + more;
    hide *;
    Single(first);
    FlattenAppend([first], tail);
    FlattenAppend(tail, more);
    SizeAppend([first], tail);
    SizeAppend(tail, more);
  }

  lemma NoMore(items: seq<Json>, i: nat)
    requires i < |items|
    ensures FlattenAll(items[i..]) == Flatten(items[i]) + FlattenAll(items[i + 1..])
    ensures BrokenAny(items[i..]) <==> Broken(items[i]) || BrokenAny(items[i + 1..])
    ensures SizeAll(items[i + 1..]) < SizeAll(items[i..])
  {
    var none: seq<Json> := [];
    assert items + none == items && FlattenAll(none) == multiset{} && !BrokenAny(none) && SizeAll(none) == 0;
    hide *;
    WalkStep(items, i, none);
  }

  lemma Skipped(start: seq<Json>, items: seq<Json>, i: nat, visited: seq<Json>)
    requires Pending(start, items, i, visited) && i < |items| && !items[i].Obj?
    ensures Pending(start, items, i + 1, visited) && SizeAll(items[i + 1..]) < SizeAll(items[i..])
  {
    assert Flatten(items[i]) == multiset{} && !Broken(items[i]);
    hide Flatten, FlattenAll, Broken, BrokenAny, SizeAll;
    NoMore(items, i);
  }

  lemma Visited(start: seq<Json>, items: seq<Json>, i: nat, visited: seq<Json>)
    requires Pending(start, items, i, visited) && i < |items| && items[i].Obj? && !IsItemList(items[i])
    ensures Pending(start, items, i + 1, visited + [items[i]]) && SizeAll(items[i + 1..]) < SizeAll(items[i..])
  {
    assert Flatten(items[i]) == multiset{items[i]} && !Broken(items[i]);
    hide Flatten, FlattenAll, Broken, BrokenAny, SizeAll;
    NoMore(items, i);
  }

  lemma Failed(start: seq<Json>, items: seq<Json>, i: nat, visited: seq<Json>)
    requires Pending(start, items, i, visited) && i < |items| && items[i].Obj? && IsItemList(items[i])
    requires Elements(items[i]).None?
    ensures BrokenAny(start)
  {
    assert Broken(items[i]);
    hide Flatten, FlattenAll, Broken, BrokenAny, SizeAll, IsItemList, Elements;
    NoMore(items, i);
  }

  lemma Listed(start: seq<Json>, items: seq<Json>, i: nat, visited: seq<Json>, out: seq<Json>)
    requires Pending(start, items, i, visited) && i < |items| && items[i].Obj? && IsItemList(items[i])
    requires Elements(items[i]).Some? && out == items + ItemsOf(Elements(items[i]).value)
    ensures Pending(start, out, i + 1, visited) && SizeAll(out[i + 1..]) < SizeAll(items[i..])
  {
    var more := ItemsOf(Elements(items[i]).value);
    assert Flatten(items[i]) == FlattenAll(more) && (Broken(items[i]) <==> BrokenAny(more));
    ElementsSmaller(items[i]);
    hide Flatten, FlattenAll, Broken, BrokenAny, SizeAll, IsItemList, Elements, ItemsOf, Size;
    WalkStep(items, i, more);
    Cancel(FlattenAll(items[i..]), FlattenAll(more), FlattenAll(out[i + 1..]));
  }

  lemma Cancel(a: multiset<Json>, b: multiset<Json>, c: multiset<Json>)
    requires a + b == b + c
    ensures a == c
  {
    forall x ensures a[x] == c[x] {
      assert (a + b)[x] == a[x] + b[x] && (b + c)[x] == b[x] + c[x];
    }
  }

  /** Where the walk starts, and what holds when nothing is left. */
  lemma WalkEnds(start: seq<Json>, items: seq<Json>, visited: seq<Json>)
    ensures Pending(start, start, 0, [])
    ensures Pending(start, items, |items|, visited) ==> multiset(visited) == FlattenAll(start) && !BrokenAny(start)
  {
    assert start[0..] == start;
  }

  /** `items.append(el["item"])` for every element that has one. */
  method Append(items: seq<Json>, els: seq<Json>) returns (out: seq<Json>)
    ensures out == items + ItemsOf(els)
  {
    out := items;
    var k := 0;
    while k < |els|
      invariant 0 <= k <= |els| && out == items + ItemsOf(els[..k])
    {
      assert els[..k + 1][..k] == els[..k];
      if ItemOf(els[k]).Some? {
        out := out + [ItemOf(els[k]).value];
      }
      k := k + 1;
    }
    assert els[..k] == els;
  }

  /** The list the walk starts with. */
  function Start(data: Json): seq<Json> { if data.Arr? then data.items else [data] }

  /** The loop over the growing list. It fails exactly when some ItemList it reaches cannot be
      iterated; otherwise it visits what the flattening gives, no more and no less. */
  method Walk(data: Json) returns (ok: bool, visited: seq<Json>)
    ensures ok <==> !BrokenAny(Start(data))
    ensures ok ==> multiset(visited) == FlattenAll(Start(data))
  {
    var items, i := Start(data), 0;
    visited := [];
    WalkEnds(items, items, visited);
    hide *;
    while i < |items|
      invariant 0 <= i <= |items| && Pending(Start(data), items, i, visited)
      decreases SizeAll(items[i..])
    {
      var it := items[i];
      if !it.Obj? {
        Skipped(Start(data), items, i, visited);
      } else if IsItemList(it) {
        var els := Elements(it);
        if els.None? {
          Failed(Start(data), items, i, visited);
          return false, visited;
        }
        var more := Append(items, els.value);
        Listed(Start(data), items, i, visited, more);
        items := more;
      } else {
        Visited(Start(data), items, i, visited);
        visited := visited + [it];
      }
      i := i + 1;
    }
    WalkEnds(Start(data), items, visited);
    ok := true;
  }
}
