/** Copying live-feed fields into the product table. */
module CatalogSync {
  import opened Prelude
  import opened Text

  // One pass over the active products fills three buffers of updates, each written out when it
  // holds 500 entries and once more at the end. Whatever the buffers do, the table ends up as if
  // every product had been merged with its feed row on its own.

  /** A JSON value: null, a text, or anything else, which is truthy or not. */
  datatype Value = Null | Str(text: string) | Other(id: nat, truthy: bool)

  type Attrs = map<string, Value>

  /** A feed product; keys missing from `top` read as null, `nested` is its attributes object. */
  datatype FeedRow = FeedRow(top: map<string, Value>, nested: seq<(string, Value)>)

  datatype Product = Product(
    merchant: string, externalId: string,
    attributes: Attrs, manufacturer: string, pendingImage: Option<string>, mediaStatus: string)

  type Feed = map<(string, string), FeedRow>

  const TOP_KEYS: seq<string> := ["brand", "category", "model", "color", "size", "gender"]

  const BATCH: nat := 500

  function Field(fp: FeedRow, k: string): Value { if k in fp.top then fp.top[k] else Null }

  // ---------- the merge of one row ----------

  predicate Blank(v: Value) { v.Null? || (v.Str? && Strip(v.text) == "") }

  /** Top-level fields that are blank or spell "null" are skipped, nested ones only if blank. */
  predicate UsableTop(v: Value) { !Blank(v) && !(v.Str? && Lower(v.text) == "null") }

  function Get(attrs: Attrs, k: string): Value { if k in attrs then attrs[k] else Null }

  type Writes = seq<(string, Value)>

  function TopWrites(fp: FeedRow, keys: seq<string>): (w: Writes) {
    if keys == [] then []
    else
      var k := keys[|keys| - 1];
      TopWrites(fp, keys[..|keys| - 1]) + (if UsableTop(Field(fp, k)) then [(k, Field(fp, k))] else [])
  }

  function NestedWrites(items: Writes): Writes {
    if items == [] then []
    else NestedWrites(items[..|items| - 1]) + (if Blank(items[|items| - 1].1) then [] else [items[|items| - 1]])
  }

  /** The values a feed row offers, in the order in which they are written. */
  function WritesOf(fp: FeedRow): Writes { TopWrites(fp, TOP_KEYS) + NestedWrites(fp.nested) }

  /** The last value written to a key. */
  function LastWrite(w: Writes, k: string): (v: Option<Value>)
    ensures v.None? <==> forall e :: e in w ==> e.0 != k
    ensures v.Some? ==> (k, v.value) in w
  {
    if w == [] then None
    else if w[|w| - 1].0 == k then Some(w[|w| - 1].1)
    else
      assert forall e :: e in w <==> e in w[..|w| - 1] || e == w[|w| - 1];
      LastWrite(w[..|w| - 1], k)
  }

  /** The attributes after the writes: the last value offered for a key wins. */
  ghost predicate IsMerged(before: Attrs, w: Writes, after: Attrs) {
    && (forall k :: k in after <==> k in before || LastWrite(w, k).Some?)
    && (forall k :: k in after ==> after[k] == LastWrite(w, k).GetOr(Get(before, k)))
  }

  /** The attributes already hold every value offered. */
  predicate Holds(attrs: Attrs, w: Writes) { forall i :: 0 <= i < |w| ==> Get(attrs, w[i].0) == w[i].1 }

  ghost predicate NonNull(w: Writes) { forall i :: 0 <= i < |w| ==> w[i].1 != Null }

  lemma {:induction false} TopNonNull(fp: FeedRow, keys: seq<string>)
    ensures NonNull(TopWrites(fp, keys))
  {
    if keys != [] {
      TopNonNull(fp, keys[..|keys| - 1]);
    }
  }

  lemma {:induction false} NestedNonNull(items: Writes)
    ensures NonNull(NestedWrites(items))
  {
    if items != [] {
      NestedNonNull(items[..|items| - 1]);
    }
  }

  lemma WritesNonNull(fp: FeedRow)
    ensures NonNull(WritesOf(fp))
  {
    TopNonNull(fp, TOP_KEYS);
    NestedNonNull(fp.nested);
  }

  lemma MergeStep(before: Attrs, w: Writes, after: Attrs, e: (string, Value))
    requires IsMerged(before, w, after)
    ensures IsMerged(before, w + [e], after[e.0 := e.1])
    ensures e.1 != Null && Get(after, e.0) == e.1 ==> IsMerged(before, w + [e], after)
  {
    LastWriteSnoc(w, e);
    hide LastWrite;
  }

  lemma LastWriteSnoc(w: Writes, e: (string, Value))
    ensures forall k :: LastWrite(w + [e], k) == if k == e.0 then Some(e.1) else LastWrite(w, k)
  {
    assert (w + [e])[..|w|] == w;
  }

  lemma HoldsStep(before: Attrs, w: Writes, after: Attrs, e: (string, Value))
    requires IsMerged(before, w, after) && e.1 != Null
    ensures Holds(before, w + [e]) <==> Holds(before, w) && Get(after, e.0) == e.1
  {
    assert (w + [e])[|w|] == e;
    if Holds(before, w) {
      var last := LastWrite(w, e.0);
      if last.Some? {
        var i :| 0 <= i < |w| && w[i] == (e.0, last.value);
        assert Get(before, w[i].0) == w[i].1;
      }
    }
    if Holds(before, w + [e]) {
      forall i | 0 <= i < |w| ensures Get(before, w[i].0) == w[i].1 {
        assert (w + [e])[i] == w[i];
      }
    }
  }

  /** `if attrs.get(k) != v: attrs[k] = v; changed = True`. */
  method Offer(attrs: Attrs, changed: bool, e: (string, Value), ghost before: Attrs, ghost w: Writes)
    returns (a: Attrs, c: bool)
    requires IsMerged(before, w, attrs) && changed == !Holds(before, w) && e.1 != Null
    ensures IsMerged(before, w + [e], a) && c == !Holds(before, w + [e])
  {
    MergeStep(before, w, attrs, e);
    HoldsStep(before, w, attrs, e);
    a, c := attrs, changed;
    if Get(attrs, e.0) != e.1 {
      a, c := attrs[e.0 := e.1], true;
    }
  }

  lemma TopWritesNext(fp: FeedRow, keys: seq<string>, n: nat)
    requires n < |keys|
    ensures var w, val := TopWrites(fp, keys[..n]), Field(fp, keys[n]);
      && TopWrites(fp, keys[..n + 1]) == (if UsableTop(val) then w + [(keys[n], val)] else w)
      && (UsableTop(val) ==> val != Null)
  {
    assert keys[..n + 1][..n] == keys[..n];
    assert TopWrites(fp, keys[..n]) + [] == TopWrites(fp, keys[..n]);
  }

  method MergeTop(before: Attrs, fp: FeedRow, keys: seq<string>) returns (attrs: Attrs, changed: bool)
    ensures IsMerged(before, TopWrites(fp, keys), attrs)
    ensures changed <==> !Holds(before, TopWrites(fp, keys))
  {
    attrs, changed := before, false;
    var n := 0;
    assert IsMerged(before, TopWrites(fp, keys[..0]), attrs) && Holds(before, TopWrites(fp, keys[..0]));
    hide *;
    while n < |keys|
      invariant 0 <= n <= |keys|
      invariant IsMerged(before, TopWrites(fp, keys[..n]), attrs) && changed == !Holds(before, TopWrites(fp, keys[..n]))
    {
      var val := Field(fp, keys[n]);
      TopWritesNext(fp, keys, n);
      if UsableTop(val) {
        attrs, changed := Offer(attrs, changed, (keys[n], val), before, TopWrites(fp, keys[..n]));
      }
      n := n + 1;
    }
    assert keys[..n] == keys;
  }

  method MergeNested(start: Attrs, was: bool, items: Writes, ghost before: Attrs, ghost top: Writes)
    returns (attrs: Attrs, changed: bool)
    requires IsMerged(before, top, start) && was == !Holds(before, top)
    ensures IsMerged(before, top + NestedWrites(items), attrs)
    ensures changed <==> !Holds(before, top + NestedWrites(items))
  {
    attrs, changed := start, was;
    var i := 0;
    assert top + NestedWrites([]) == top;
    hide IsMerged, Holds;
    while i < |items|
      invariant 0 <= i <= |items|
      invariant IsMerged(before, top + NestedWrites(items[..i]), attrs)
      invariant changed == !Holds(before, top + NestedWrites(items[..i]))
    {
      NestedStep(top, items, i);
      if !Blank(items[i].1) {
        attrs, changed := Offer(attrs, changed, items[i], before, top + NestedWrites(items[..i]));
      }
      i := i + 1;
    }
    assert items[..i] == items;
  }

  lemma NestedStep(top: Writes, items: Writes, i: nat)
    requires i < |items|
    ensures top + NestedWrites(items[..i + 1])
         == if Blank(items[i].1) then top + NestedWrites(items[..i]) else top + NestedWrites(items[..i]) + [items[i]]
  {
    assert items[..i + 1][..i] == items[..i];
  }

  /** `changed` is reported unless the product already holds every value offered. */
  method MergeAttributes(before: Attrs, fp: FeedRow) returns (attrs: Attrs, changed: bool)
    ensures IsMerged(before, WritesOf(fp), attrs)
    ensures changed <==> !Holds(before, WritesOf(fp))
  {
    attrs, changed := MergeTop(before, fp, TOP_KEYS);
    attrs, changed := MergeNested(attrs, changed, fp.nested, before, TopWrites(fp, TOP_KEYS));
  }

  /** The attributes after the writes, as a value. */
  function Merged(before: Attrs, w: Writes): Attrs {
    if w == [] then before else Merged(before, w[..|w| - 1])[w[|w| - 1].0 := w[|w| - 1].1]
  }

  lemma {:induction false} MergedIsMerged(before: Attrs, w: Writes)
    ensures IsMerged(before, w, Merged(before, w))
  {
    if w != [] {
      var n := |w| - 1;
      MergedIsMerged(before, w[..n]);
      MergeStep(before, w[..n], Merged(before, w[..n]), w[n]);
      assert w[..n] + [w[n]] == w;
    }
  }

  /** Merging has one result. */
  lemma MergedUnique(before: Attrs, w: Writes, after: Attrs)
    requires IsMerged(before, w, after)
    ensures after == Merged(before, w)
  {
    MergedIsMerged(before, w);
    var m := Merged(before, w);
    assert forall k :: k in after <==> k in m;
    assert forall k :: k in after ==> after[k] == m[k];
  }

  // ---------- one product ----------

  /** `.strip()` fails on a truthy value that is no text. */
  predicate Crashes(fp: FeedRow) {
    (Field(fp, "brand").Other? && Field(fp, "brand").truthy) ||
        (Field(fp, "image_url").Other? && Field(fp, "image_url").truthy)
  }

  function Stripped(v: Value): string { if v.Str? then Strip(v.text) else "" }

  /** The manufacturer to write, if any: the brand, for a product that has none. */
  function NewManufacturer(p: Product, fp: FeedRow): Option<string> {
    var brand := Stripped(Field(fp, "brand"));
    if brand != "" && Strip(p.manufacturer) == "" then Some(brand[..Min(256, |brand|)]) else None
  }

  function NewImage(fp: FeedRow): Option<string> {
    var img := Stripped(Field(fp, "image_url"));
    if "http" <= img then Some(img) else None
  }

  /** A product with pending updates written; a product whose image is READY takes no image. */
  function Patched(p: Product, attributes: Option<Attrs>, manufacturer: Option<string>,
      image: Option<string>): Product {
    p.(attributes := attributes.GetOr(p.attributes), manufacturer := manufacturer.GetOr(p.manufacturer),
       pendingImage := if image.Some? && p.mediaStatus != "READY" then image else p.pendingImage)
  }

  /** A product merged with its feed row on its own. */
  function Synced(p: Product, fp: FeedRow): Product {
    Patched(p, Some(Merged(p.attributes, WritesOf(fp))), NewManufacturer(p, fp), NewImage(fp))
  }

  function KeyOf(p: Product): (string, string) { (p.merchant, p.externalId) }

  function Target(p: Product, feed: Feed): Product { if KeyOf(p) in feed then Synced(p, feed[KeyOf(p)]) else p }

  // ---------- the buffered pass ----------

  /** The last update buffered for a product. */
  function Pending<T>(buf: seq<(T, nat)>, id: nat): Option<T> {
    if buf == [] then None
    else if buf[|buf| - 1].1 == id then Some(buf[|buf| - 1].0)
    else Pending(buf[..|buf| - 1], id)
  }

  lemma PendingSnoc<T>(buf: seq<(T, nat)>, v: T, id: nat)
    ensures forall x :: Pending(buf + [(v, id)], x) == if x == id then Some(v) else Pending(buf, x)
  {
    assert (buf + [(v, id)])[..|buf|] == buf;
  }

  datatype Buffers = Buffers(attrs: seq<(Attrs, nat)>, manufacturers: seq<(string, nat)>, images: seq<(string, nat)>)

  /** A product as it will be once the buffers are written. */
  function Effective(p: Product, b: Buffers, id: nat): Product {
    Patched(p, Pending(b.attrs, id), Pending(b.manufacturers, id), Pending(b.images, id))
  }

  /** The products seen so far are on their way to their target, the others unchanged. */
  ghost predicate OnTheWay(was: map<nat, Product>, feed: Feed, seen: set<nat>, products: map<nat, Product>,
      b: Buffers) {
    && products.Keys == was.Keys
    && forall id :: id in was ==>
      Effective(products[id], b, id) == if id in seen then Target(was[id], feed) else was[id]
  }

  /** What one row adds to the buffers. */
  function Collected(id: nat, p: Product, fp: FeedRow, b: Buffers): Buffers {
    Buffers(
      if Holds(p.attributes, WritesOf(fp)) then b.attrs else b.attrs + [(Merged(p.attributes, WritesOf(fp)), id)],
      if NewManufacturer(p, fp).Some? then b.manufacturers + [(NewManufacturer(p, fp).value, id)] else b.manufacturers,
      if NewImage(fp).Some? then b.images + [(NewImage(fp).value, id)] else b.images)
  }

  /** If nothing changed, the merged attributes are the old ones. */
  lemma HoldsMeansMerged(before: Attrs, w: Writes)
    requires Holds(before, w) && NonNull(w)
    ensures Merged(before, w) == before
  {
    forall k ensures LastWrite(w, k).Some? ==> k in before && before[k] == LastWrite(w, k).value {
      if LastWrite(w, k).Some? {
        var i :| 0 <= i < |w| && w[i] == (k, LastWrite(w, k).value);
        assert Get(before, w[i].0) == w[i].1;
      }
    }
    assert IsMerged(before, w, before);
    MergedUnique(before, w, before);
  }

  lemma CollectedPending(id: nat, p: Product, fp: FeedRow, b: Buffers, x: nat)
    ensures var c, w := Collected(id, p, fp, b), WritesOf(fp);
      && Pending(c.attrs, x) ==
         (if x == id && !Holds(p.attributes, w) then Some(Merged(p.attributes, w)) else Pending(b.attrs, x))
      && Pending(c.manufacturers, x) ==
         (if x == id && NewManufacturer(p, fp).Some? then NewManufacturer(p, fp) else Pending(b.manufacturers, x))
      && Pending(c.images, x) == (if x == id && NewImage(fp).Some? then NewImage(fp) else Pending(b.images, x))
  {
    hide NewManufacturer, NewImage, WritesOf, Merged, Holds;
    PendingSnoc(b.attrs, Merged(p.attributes, WritesOf(fp)), id);
    if NewManufacturer(p, fp).Some? {
      PendingSnoc(b.manufacturers, NewManufacturer(p, fp).value, id);
    }
    if NewImage(fp).Some? {
      PendingSnoc(b.images, NewImage(fp).value, id);
    }
  }

  /** Collecting a row puts its product on the way to its target. */
  lemma CollectStep(was: map<nat, Product>, feed: Feed, seen: set<nat>, products: map<nat, Product>, b: Buffers,
      id: nat)
    requires OnTheWay(was, feed, seen, products, b) && id in was && KeyOf(was[id]) in feed
    ensures OnTheWay(was, feed, seen + {id}, products, Collected(id, was[id], feed[KeyOf(was[id])], b))
  {
    var p, fp := was[id], feed[KeyOf(was[id])];
    var c := Collected(id, p, fp, b);
    WritesNonNull(fp);
    if Holds(p.attributes, WritesOf(fp)) {
      HoldsMeansMerged(p.attributes, WritesOf(fp));
    }
    hide Collected, Pending, NewManufacturer, NewImage, WritesOf, Merged, Holds;
    forall x | x in was
      ensures Effective(products[x], c, x) == if x in seen + {id} then Target(was[x], feed) else was[x]
    {
      CollectedPending(id, p, fp, b, x);
    }
  }

  lemma SkipStep(was: map<nat, Product>, feed: Feed, seen: set<nat>, products: map<nat, Product>, b: Buffers, id: nat)
    requires OnTheWay(was, feed, seen, products, b) && id in was && KeyOf(was[id]) !in feed
    ensures OnTheWay(was, feed, seen + {id}, products, b)
  {
    hide Effective;
  }

  /** The rows whose product does not hold every value its feed row offers. */
  function Rewrites(was: map<nat, Product>, rows: seq<nat>, feed: Feed): nat -> bool {
    (i: nat) => i < |rows| && rows[i] in was && KeyOf(was[rows[i]]) in feed
      && !Holds(was[rows[i]].attributes, WritesOf(feed[KeyOf(was[rows[i]])]))
  }

  /** Row `k` has a feed row on which the pass fails. */
  predicate Fails(was: map<nat, Product>, rows: seq<nat>, feed: Feed, k: nat) {
    k < |rows| && rows[k] in was && KeyOf(was[rows[k]]) in feed && Crashes(feed[KeyOf(was[rows[k]])])
  }

  lemma StartsOnTheWay(was: map<nat, Product>, feed: Feed, rows: seq<nat>)
    ensures OnTheWay(was, feed, Seen(rows, 0), was, Buffers([], [], []))
    ensures Tally(0, Rewrites(was, rows, feed)) == 0
  {
  }

  lemma RowMeans(was: map<nat, Product>, rows: seq<nat>, feed: Feed, i: nat)
    requires i < |rows| && rows[i] in was
    ensures var key := KeyOf(was[rows[i]]);
      && (Fails(was, rows, feed, i) <==> key in feed && Crashes(feed[key]))
      && Tally(i + 1, Rewrites(was, rows, feed)) == Tally(i, Rewrites(was, rows, feed))
           + (if key in feed && !Holds(was[rows[i]].attributes, WritesOf(feed[key])) then 1 else 0)
  {
    hide Crashes, Holds, WritesOf;
  }

  function Seen(rows: seq<nat>, i: nat): set<nat>
    requires i <= |rows|
  {
    set id | id in rows[..i]
  }

  lemma SeenIs(rows: seq<nat>, i: nat)
    requires i <= |rows|
    ensures i < |rows| ==> Seen(rows, i + 1) == Seen(rows, i) + {rows[i]}
    ensures i == |rows| ==> forall id :: id in Seen(rows, i) <==> id in rows
  {
    assert rows[..|rows|] == rows;
    if i < |rows| {
      assert rows[..i + 1] == rows[..i] + [rows[i]];
    }
  }

  method Collect(id: nat, p: Product, fp: FeedRow, b: Buffers) returns (ok: bool, out: Buffers, changed: bool)
    ensures ok <==> !Crashes(fp)
    ensures ok ==> out == Collected(id, p, fp, b) && (changed <==> !Holds(p.attributes, WritesOf(fp)))
  {
    var attrs;
    attrs, changed := MergeAttributes(p.attributes, fp);
    MergedUnique(p.attributes, WritesOf(fp), attrs);
    hide WritesOf, Merged, Holds;
    out := b;
    if changed {
      out := out.(attrs := out.attrs + [(attrs, id)]);
    }
    ok := !Crashes(fp);
    if !ok {
      return;
    }
    var brand, img := Stripped(Field(fp, "brand")), Stripped(Field(fp, "image_url"));
    if brand != "" && Strip(p.manufacturer) == "" {
      out := out.(manufacturers := out.manufacturers + [(brand[..Min(256, |brand|)], id)]);
    }
    if "http" <= img {
      out := out.(images := out.images + [(img, id)]);
    }
  }

  class Catalog {
    var products: map<nat, Product>

    constructor (products: map<nat, Product>)
      ensures this.products == products
    {
      this.products := products;
    }

    method FlushAttributes(buf: seq<(Attrs, nat)>)
      modifies this
      ensures products.Keys == old(products).Keys
      ensures forall id :: id in products ==> products[id] == Patched(old(products)[id], Pending(buf, id), None, None)
    {
      var i := 0;
      while i < |buf|
        invariant 0 <= i <= |buf| && products.Keys == old(products).Keys
        invariant forall id :: id in products ==>
            products[id] == Patched(old(products)[id], Pending(buf[..i], id), None, None)
      {
        assert buf[..i + 1] == buf[..i] + [(buf[i].0, buf[i].1)];
        PendingSnoc(buf[..i], buf[i].0, buf[i].1);
        hide Pending;
        var id := buf[i].1;
        if id in products {
          products := products[id := products[id].(attributes := buf[i].0)];
        }
        i := i + 1;
      }
      assert buf[..i] == buf;
    }

    method FlushManufacturers(buf: seq<(string, nat)>)
      modifies this
      ensures products.Keys == old(products).Keys
      ensures forall id :: id in products ==> products[id] == Patched(old(products)[id], None, Pending(buf, id), None)
    {
      var i := 0;
      while i < |buf|
        invariant 0 <= i <= |buf| && products.Keys == old(products).Keys
        invariant forall id :: id in products ==>
            products[id] == Patched(old(products)[id], None, Pending(buf[..i], id), None)
      {
        assert buf[..i + 1] == buf[..i] + [(buf[i].0, buf[i].1)];
        PendingSnoc(buf[..i], buf[i].0, buf[i].1);
        hide Pending;
        var id := buf[i].1;
        if id in products {
          products := products[id := products[id].(manufacturer := buf[i].0)];
        }
        i := i + 1;
      }
      assert buf[..i] == buf;
    }

    method FlushImages(buf: seq<(string, nat)>)
      modifies this
      ensures products.Keys == old(products).Keys
      ensures forall id :: id in products ==> products[id] == Patched(old(products)[id], None, None, Pending(buf, id))
    {
      var i := 0;
      while i < |buf|
        invariant 0 <= i <= |buf| && products.Keys == old(products).Keys
        invariant forall id :: id in products ==>
            products[id] == Patched(old(products)[id], None, None, Pending(buf[..i], id))
      {
        assert buf[..i + 1] == buf[..i] + [(buf[i].0, buf[i].1)];
        PendingSnoc(buf[..i], buf[i].0, buf[i].1);
        hide Pending;
        var id := buf[i].1;
        if id in products && products[id].mediaStatus != "READY" {
          products := products[id := products[id].(pendingImage := Some(buf[i].0))];
        }
        i := i + 1;
      }
      assert buf[..i] == buf;
    }

    /** Writes out every buffer that holds at least `limit` entries. */
    method Flush(b: Buffers, limit: nat) returns (out: Buffers)
      modifies this
      ensures products.Keys == old(products).Keys
      ensures forall id :: id in products ==> Effective(products[id], out, id) == Effective(old(products)[id], b, id)
      ensures |out.attrs| < Max(1, limit) && |out.manufacturers| < Max(1, limit) && |out.images| < Max(1, limit)
    {
      out := b;
      if |b.attrs| >= limit {
        FlushAttributes(b.attrs);
        out := out.(attrs := []);
      }
      out := FlushText(out, limit);
    }

    method FlushText(b: Buffers, limit: nat) returns (out: Buffers)
      modifies this
      ensures products.Keys == old(products).Keys
      ensures forall id :: id in products ==> Effective(products[id], out, id) == Effective(old(products)[id], b, id)
      ensures out.attrs == b.attrs && |out.manufacturers| < Max(1, limit) && |out.images| < Max(1, limit)
    {
      out := b;
      if |b.manufacturers| >= limit {
        FlushManufacturers(b.manufacturers);
        out := out.(manufacturers := []);
      }
      out := FlushPictures(out, limit);
    }

    method FlushPictures(b: Buffers, limit: nat) returns (out: Buffers)
      modifies this
      ensures products.Keys == old(products).Keys
      ensures forall id :: id in products ==> Effective(products[id], out, id) == Effective(old(products)[id], b, id)
      ensures out.attrs == b.attrs && out.manufacturers == b.manufacturers && |out.images| < Max(1, limit)
    {
      out := b;
      if |b.images| >= limit {
        FlushImages(b.images);
        out := out.(images := []);
      }
    }

    /** One row of the pass. */
    method SyncRow(was: map<nat, Product>, feed: Feed, ghost seen: set<nat>, id: nat, b: Buffers)
      returns (ok: bool, out: Buffers, changed: bool)
      requires id in was && OnTheWay(was, feed, seen, products, b)
      modifies this
      ensures products.Keys == old(products).Keys
      ensures ok <==> (KeyOf(was[id]) in feed ==> !Crashes(feed[KeyOf(was[id])]))
      ensures ok ==> OnTheWay(was, feed, seen + {id}, products, out)
      ensures ok ==> (changed <==> KeyOf(was[id]) in feed && !Holds(was[id].attributes, WritesOf(feed[KeyOf(was[id])])))
    {
      hide Crashes, Target, Holds, WritesOf, Effective;
      var p := was[id];
      if KeyOf(p) !in feed {
        SkipStep(was, feed, seen, products, b, id);
        ok, out, changed := true, b, false;
      } else {
        CollectStep(was, feed, seen, products, b, id);
        hide Collected;
        ok, out, changed := Collect(id, p, feed[KeyOf(p)], b);
        if !ok {
          return;
        }
      }
      out := Flush(out, BATCH);
    }

    /** The loop over the rows, before the final flush. */
    method SyncRows(was: map<nat, Product>, rows: seq<nat>, feed: Feed) returns (ok: bool, b: Buffers, updated: nat)
      requires products == was && forall k :: 0 <= k < |rows| ==> rows[k] in was
      modifies this
      ensures products.Keys == was.Keys
      ensures ok <==> forall k: nat :: k < |rows| ==> !Fails(was, rows, feed, k)
      ensures ok ==> OnTheWay(was, feed, Seen(rows, |rows|), products, b)
      ensures ok ==> updated == Tally(|rows|, Rewrites(was, rows, feed))
    {
      hide *;
      var i := 0;
      ok, b, updated := true, Buffers([], [], []), 0;
      StartsOnTheWay(was, feed, rows);
      while i < |rows|
        invariant 0 <= i <= |rows| && products.Keys == was.Keys
        invariant OnTheWay(was, feed, Seen(rows, i), products, b)
        invariant updated == Tally(i, Rewrites(was, rows, feed))
        invariant forall k: nat :: k < i ==> !Fails(was, rows, feed, k)
      {
        SeenIs(rows, i);
        RowMeans(was, rows, feed, i);
        var changed;
        ok, b, changed := SyncRow(was, feed, Seen(rows, i), rows[i], b);
        if !ok {
          return;
        }
        if changed {
          updated := updated + 1;
        }
        i := i + 1;
      }
    }

    /** The whole pass; it fails where a feed row does. `updated` counts the products whose
        attributes are written. */
    method SyncFeeds(rows: seq<nat>, feed: Feed) returns (ok: bool, updated: nat)
      requires forall k :: 0 <= k < |rows| ==> rows[k] in products
      modifies this
      ensures products.Keys == old(products).Keys
      ensures ok <==> forall k: nat :: k < |rows| ==> !Fails(old(products), rows, feed, k)
      ensures ok ==> forall id :: id in products ==>
        products[id] == if id in rows then Target(old(products)[id], feed) else old(products)[id]
      ensures ok ==> updated == Tally(|rows|, Rewrites(old(products), rows, feed))
    {
      hide Target, OnTheWay, Seen, Fails, Rewrites;
      var was := products;
      var b: Buffers;
      ok, b, updated := SyncRows(was, rows, feed);
      if ok {
        SeenIs(rows, |rows|);
        Finish(was, feed, Seen(rows, |rows|), b);
      }
    }

    /** The final flush leaves nothing behind. */
    method Finish(was: map<nat, Product>, feed: Feed, ghost seen: set<nat>, b: Buffers)
      requires OnTheWay(was, feed, seen, products, b)
      modifies this
      ensures products.Keys == was.Keys
      ensures forall id :: id in products ==> products[id] == if id in seen then Target(was[id], feed) else was[id]
    {
      hide Target;
      var out := Flush(b, 1);
    }
  }

  // ---------- a second sync ----------

  /** Two different values are offered for one key. */
  ghost predicate Conflict(w: Writes) {
    exists i, j :: 0 <= i < |w| && 0 <= j < |w| && w[i].0 == w[j].0 && w[i].1 != w[j].1
  }

  /** After a merge all offered values are held if and only if no two of them conflict. */
  lemma MergedHoldsIffNoConflict(before: Attrs, w: Writes)
    requires NonNull(w)
    ensures Holds(Merged(before, w), w) <==> !Conflict(w)
  {
    MergedIsMerged(before, w);
    var m := Merged(before, w);
    forall i | 0 <= i < |w| ensures LastWrite(w, w[i].0).Some? && Get(m, w[i].0) == LastWrite(w, w[i].0).value {
      assert w[i] in w;
    }
    if !Conflict(w) {
      forall i | 0 <= i < |w| ensures Get(m, w[i].0) == w[i].1 {
        var v := LastWrite(w, w[i].0).value;
        var j :| 0 <= j < |w| && w[j] == (w[i].0, v);
      }
    }
  }

  /** Merging again gives the same attributes, whether or not values conflict. */
  lemma MergeAgain(before: Attrs, w: Writes)
    ensures Merged(Merged(before, w), w) == Merged(before, w)
  {
    MergedIsMerged(before, w);
    var m := Merged(before, w);
    assert IsMerged(m, w, m);
    MergedUnique(m, w, m);
  }

  lemma {:induction false} RStripKeeps(s: string)
    requires s != "" && !IsSpace(s[0])
    ensures RStrip(s) != "" && RStrip(s)[0] == s[0]
    decreases |s|
  {
    if IsSpace(s[|s| - 1]) {
      RStripKeeps(s[..|s| - 1]);
    }
  }

  /** A stripped text cut to 256 characters is not blank. */
  lemma CutNotBlank(text: string)
    requires Strip(text) != ""
    ensures Strip(Strip(text)[..Min(256, |Strip(text)|)]) != ""
  {
    var l := LStrip(text);
    if l != "" {
      RStripKeeps(l);
      var cut := Strip(text)[..Min(256, |Strip(text)|)];
      assert cut[0] == l[0] && LStrip(cut) == cut;
      RStripKeeps(cut);
    }
  }

  /** A second sync changes no attribute, manufacturer or pending image. */
  lemma SyncTwice(p: Product, fp: FeedRow)
    ensures Synced(Synced(p, fp), fp) == Synced(p, fp)
  {
    MergeAgain(p.attributes, WritesOf(fp));
    var brand := Stripped(Field(fp, "brand"));
    if brand != "" {
      CutNotBlank(Field(fp, "brand").text);
    }
    assert NewManufacturer(Synced(p, fp), fp).None?;
    hide Merged, WritesOf, Strip, NewImage;
  }

  /** Yet it writes the attributes again if and only if the feed row offers two values for a key. */
  lemma SecondSyncWritesIffConflict(p: Product, fp: FeedRow)
    ensures !Holds(Synced(p, fp).attributes, WritesOf(fp)) <==> Conflict(WritesOf(fp))
  {
    WritesNonNull(fp);
    MergedHoldsIffNoConflict(p.attributes, WritesOf(fp));
  }

  /** The keys of an object are distinct. */
  ghost predicate DistinctKeys(items: Writes) {
    forall i, j :: 0 <= i < j < |items| ==> items[i].0 != items[j].0
  }

  /** A usable top-level field and a usable nested field of the same name disagree. */
  ghost predicate Disagree(fp: FeedRow) {
    exists k, i :: k in TOP_KEYS && 0 <= i < |fp.nested| && fp.nested[i].0 == k
      && UsableTop(Field(fp, k)) && !Blank(fp.nested[i].1) && fp.nested[i].1 != Field(fp, k)
  }

  lemma {:induction false} InTop(fp: FeedRow, keys: seq<string>)
    ensures forall e :: e in TopWrites(fp, keys) <==> e.0 in keys && UsableTop(e.1) && e.1 == Field(fp, e.0)
  {
    if keys != [] {
      InTop(fp, keys[..|keys| - 1]);
      hide UsableTop, Field;
      assert keys == keys[..|keys| - 1] + [keys[|keys| - 1]];
    }
  }

  lemma {:induction false} InNested(items: Writes)
    ensures forall e :: e in NestedWrites(items) <==> e in items && !Blank(e.1)
  {
    if items != [] {
      InNested(items[..|items| - 1]);
      hide Blank;
      assert items == items[..|items| - 1] + [items[|items| - 1]];
    }
  }

  lemma InWrites(fp: FeedRow)
    ensures forall e :: e in WritesOf(fp) <==>
      (e.0 in TOP_KEYS && UsableTop(e.1) && e.1 == Field(fp, e.0)) || (e in fp.nested && !Blank(e.1))
  {
    InTop(fp, TOP_KEYS);
    InNested(fp.nested);
    hide UsableTop, Blank, Field;
  }

  lemma ConflictOfMembers(w: Writes, a: (string, Value), b: (string, Value))
    requires a in w && b in w && a.0 == b.0 && a.1 != b.1
    ensures Conflict(w)
  {
    var i :| 0 <= i < |w| && w[i] == a;
    var j :| 0 <= j < |w| && w[j] == b;
    assert w[i].0 == w[j].0 && w[i].1 != w[j].1;
  }

  /** For a feed row whose nested keys are distinct, a conflict is a disagreement between a
      top-level and a nested field. */
  lemma ConflictIsDisagreement(fp: FeedRow)
    requires DistinctKeys(fp.nested)
    ensures Conflict(WritesOf(fp)) <==> Disagree(fp)
  {
    InWrites(fp);
    var w := WritesOf(fp);
    hide UsableTop, Blank, Field, WritesOf;
    if Disagree(fp) {
      var k, i :| k in TOP_KEYS && 0 <= i < |fp.nested| && fp.nested[i].0 == k
        && UsableTop(Field(fp, k)) && !Blank(fp.nested[i].1) && fp.nested[i].1 != Field(fp, k);
      ConflictOfMembers(w, (k, Field(fp, k)), fp.nested[i]);
    }
    if Conflict(w) {
      var i, j :| 0 <= i < |w| && 0 <= j < |w| && w[i].0 == w[j].0 && w[i].1 != w[j].1;
      assert w[i] in w && w[j] in w;
      DisagreeFound(fp, w[i], w[j]);
    }
  }

  lemma DisagreeFound(fp: FeedRow, a: (string, Value), b: (string, Value))
    requires DistinctKeys(fp.nested) && a.0 == b.0 && a.1 != b.1
    requires (a.0 in TOP_KEYS && UsableTop(a.1) && a.1 == Field(fp, a.0)) || (a in fp.nested && !Blank(a.1))
    requires (b.0 in TOP_KEYS && UsableTop(b.1) && b.1 == Field(fp, b.0)) || (b in fp.nested && !Blank(b.1))
    ensures Disagree(fp)
  {
    hide UsableTop, Blank, Field;
    if a in fp.nested && b in fp.nested {
      SameNested(fp.nested, a, b);
    }
    if a.0 in TOP_KEYS && UsableTop(a.1) && a.1 == Field(fp, a.0) {
      var j :| 0 <= j < |fp.nested| && fp.nested[j] == b;
    } else {
      var i :| 0 <= i < |fp.nested| && fp.nested[i] == a;
    }
  }

  lemma SameNested(items: Writes, a: (string, Value), b: (string, Value))
    requires DistinctKeys(items) && a in items && b in items && a.0 == b.0
    ensures a == b
  {
    var i :| 0 <= i < |items| && items[i] == a;
    var j :| 0 <= j < |items| && items[j] == b;
    assert i == j;
  }
}
