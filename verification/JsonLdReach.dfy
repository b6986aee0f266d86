/** The worklist against reachability: which objects are visited, and when the walk fails. */
module JsonLdReach {
  import opened Prelude
  import opened JsonLdWorklist

  /** The value of a key in an object is that of its last field with the key. */
  ghost predicate HoldsAt(fields: seq<Member>, key: string, v: Json) {
    exists i :: LastAt(fields, key, i) && fields[i].value == v
  }

  ghost predicate LastAt(fields: seq<Member>, key: string, i: int) {
    0 <= i < |fields| && fields[i].key == key && forall j :: i < j < |fields| ==> fields[j].key != key
  }

  lemma {:induction false} FindAt(fields: seq<Member>, key: string) returns (i: int)
    ensures Find(fields, key).None? ==> forall j :: 0 <= j < |fields| ==> fields[j].key != key
    ensures Find(fields, key).Some? ==> LastAt(fields, key, i) && Find(fields, key) == Some(fields[i].value)
  {
    i := |fields| - 1;
    if fields != [] && fields[i].key != key {
      i := FindAt(fields[..i], key);
    }
  }

  lemma FindIs(fields: seq<Member>, key: string, v: Json)
    ensures Find(fields, key) == Some(v) <==> HoldsAt(fields, key, v)
  {
    var i := FindAt(fields, key);
    hide Find;
    if k :| LastAt(fields, key, k) && fields[k].value == v {
      assert i == k;
    }
  }

  /** The type of this object is a text that ends in "ItemList". */
  ghost predicate IsList(j: Json) {
    j.Obj? && exists t, front :: HoldsAt(j.fields, "@type", Str(t)) && t == front + "ItemList"
  }

  /** `x` is an object listed by the list `j`. */
  ghost predicate Lists(j: Json, x: Json) {
    && IsList(j) && x.Obj?
    && exists els, el: Json ::
      HoldsAt(j.fields, "itemListElement", Arr(els)) && el in els && el.Obj? && HoldsAt(el.fields, "item", x)
  }

  /** A list whose elements are `true` or a number other than zero cannot be iterated. */
  ghost predicate Stuck(j: Json) {
    IsList(j) && (HoldsAt(j.fields, "itemListElement", Bool(true)) || HoldsAt(j.fields, "itemListElement", Num(false)))
  }

  lemma IsListIs(j: Json)
    ensures IsList(j) <==> IsItemList(j)
  {
    if j.Obj? {
      if IsItemList(j) {
        var text := Find(j.fields, "@type").value.text;
        FindIs(j.fields, "@type", Str(text));
        assert text == text[..|text| - |"ItemList"|] + "ItemList";
      }
      if t, front :| HoldsAt(j.fields, "@type", Str(t)) && t == front + "ItemList" {
        FindIs(j.fields, "@type", Str(t));
        assert t[|t| - |"ItemList"|..] == "ItemList";
      }
    }
  }

  lemma ElementsFail(j: Json)
    requires j.Obj?
    ensures var v := Find(j.fields, "itemListElement");
      Elements(j).None? <==> v == Some(Bool(true)) || v == Some(Num(false))
  {
    hide Find;
  }

  lemma StuckIs(j: Json)
    ensures Stuck(j) <==> j.Obj? && IsItemList(j) && Elements(j).None?
  {
    IsListIs(j);
    if j.Obj? {
      ElementsFail(j);
      hide IsItemList, IsList, Elements;
      FindIs(j.fields, "itemListElement", Bool(true));
      FindIs(j.fields, "itemListElement", Num(false));
      hide Find;
    }
  }

  lemma {:induction false} InItems(els: seq<Json>, x: Json)
    ensures x in ItemsOf(els) <==> x.Obj? && exists el :: el in els && el.Obj? && Find(el.fields, "item") == Some(x)
  {
    if els != [] {
      var n := |els| - 1;
      InItems(els[..n], x);
      hide Find;
      assert forall el :: el in els <==> el in els[..n] || el == els[n];
    }
  }

  lemma ElementsList(j: Json, x: Json)
    requires j.Obj?
    ensures Elements(j).Some? && x in ItemsOf(Elements(j).value) <==>
      x.Obj? && exists els, el: Json ::
        && Find(j.fields, "itemListElement") == Some(Arr(els))
        && el in els && el.Obj? && Find(el.fields, "item") == Some(x)
  {
    var v := Find(j.fields, "itemListElement");
    hide Find;
    if v.Some? && v.value.Arr? {
      assert v == Some(Arr(v.value.items));
      InItems(v.value.items, x);
    }
  }

  lemma ListsIs(j: Json, x: Json)
    ensures Lists(j, x) <==> j.Obj? && IsItemList(j) && Elements(j).Some? && x in ItemsOf(Elements(j).value)
  {
    IsListIs(j);
    if j.Obj? {
      ElementsList(j, x);
      forall els ensures HoldsAt(j.fields, "itemListElement", Arr(els)) <==>
          Find(j.fields, "itemListElement") == Some(Arr(els)) {
        FindIs(j.fields, "itemListElement", Arr(els));
      }
      forall el: Json | el.Obj? ensures HoldsAt(el.fields, "item", x) <==> Find(el.fields, "item") == Some(x) {
        FindIs(el.fields, "item", x);
      }
      hide IsItemList, IsList, Elements, ItemsOf, HoldsAt, Find;
    }
  }

  /** `x` is reached from `j` through `n` lists. */
  ghost predicate Below(j: Json, x: Json, n: nat) {
    if n == 0 then x == j else exists y :: Lists(j, y) && Below(y, x, n - 1)
  }

  ghost predicate Reaches(j: Json, x: Json) { exists n: nat :: Below(j, x, n) }

  lemma ReachesUnfolds(j: Json, x: Json)
    ensures Reaches(j, x) <==> x == j || exists y :: Lists(j, y) && Reaches(y, x)
  {
    hide Lists;
    if n: nat :| Below(j, x, n) {
      if n > 0 {
        var y :| Lists(j, y) && Below(y, x, n - 1);
        assert Reaches(y, x);
      }
    }
    if y :| Lists(j, y) && Reaches(y, x) {
      var n: nat :| Below(y, x, n);
      assert Below(j, x, n + 1);
    }
    assert Below(j, j, 0);
  }

  /** The flattening of a value holds exactly the objects that it reaches and that are no
      lists. */
  lemma {:induction false} FlattenReaches(j: Json, x: Json)
    ensures x in Flatten(j) <==> x.Obj? && !IsList(x) && Reaches(j, x)
    decreases Size(j), 0
  {
    ReachesUnfolds(j, x);
    IsListIs(x);
    IsListIs(j);
    forall y ensures Lists(j, y) <==> j.Obj? && IsItemList(j) && Elements(j).Some? && y in ItemsOf(Elements(j).value) {
      ListsIs(j, y);
    }
    hide Lists, IsList, Reaches;
    if j.Obj? && IsItemList(j) && Elements(j).Some? {
      ElementsSmaller(j);
      FlattenAllReaches(ItemsOf(Elements(j).value), x);
    }
  }

  lemma {:induction false} FlattenAllReaches(s: seq<Json>, x: Json)
    ensures x in FlattenAll(s) <==> x.Obj? && !IsList(x) && exists y :: y in s && Reaches(y, x)
    decreases SizeAll(s), 1 + |s|
  {
    hide IsList, Reaches, Flatten, Size;
    if s != [] {
      var n := |s| - 1;
      FlattenAllReaches(s[..n], x);
      FlattenReaches(s[n], x);
      assert forall y :: y in s <==> y in s[..n] || y == s[n];
    }
  }

  /** Walking fails exactly on values that reach a list which cannot be iterated. */
  lemma {:induction false} BrokenReaches(j: Json)
    ensures Broken(j) <==> exists y :: Reaches(j, y) && Stuck(y)
    decreases Size(j), 0
  {
    forall y ensures Reaches(j, y) <==> y == j || exists z :: Lists(j, z) && Reaches(z, y) {
      ReachesUnfolds(j, y);
    }
    StuckIs(j);
    forall y ensures Lists(j, y) <==> j.Obj? && IsItemList(j) && Elements(j).Some? && y in ItemsOf(Elements(j).value) {
      ListsIs(j, y);
    }
    hide Lists, Stuck, Reaches;
    if j.Obj? && IsItemList(j) && Elements(j).Some? {
      ElementsSmaller(j);
      BrokenAnyReaches(ItemsOf(Elements(j).value));
    }
  }

  lemma {:induction false} BrokenAnyReaches(s: seq<Json>)
    ensures BrokenAny(s) <==> exists x, y :: x in s && Reaches(x, y) && Stuck(y)
    decreases SizeAll(s), 1 + |s|
  {
    hide Stuck, Reaches, Broken, Size;
    if s != [] {
      var n := |s| - 1;
      BrokenAnyReaches(s[..n]);
      BrokenReaches(s[n]);
      assert forall y :: y in s <==> y in s[..n] || y == s[n];
    }
  }

  /** The walk of a value fails exactly if it starts with a value that reaches a list which cannot
      be iterated. Otherwise it visits an object if and only if it starts with a value that
      reaches it and it is no list. */
  lemma WalkReaches(data: Json, visited: seq<Json>)
    ensures var start := if data.Arr? then data.items else [data];
      && (BrokenAny(Start(data)) <==> exists x, y :: x in start && Reaches(x, y) && Stuck(y))
      && (multiset(visited) == FlattenAll(Start(data)) ==>
            forall x :: x in visited <==> x.Obj? && !IsList(x) && exists y :: y in start && Reaches(y, x))
  {
    BrokenAnyReaches(Start(data));
    hide IsList, Reaches, Stuck, FlattenAll, BrokenAny;
    if multiset(visited) == FlattenAll(Start(data)) {
      forall x: Json
        ensures x in visited <==> x.Obj? && !IsList(x) && exists y :: y in Start(data) && Reaches(y, x)
      {
        FlattenAllReaches(Start(data), x);
        assert x in multiset(visited) <==> x in visited;
      }
    }
  }
}
