/** What a sync leaves in each field of a product. */
module SyncOutcomes {
  import opened Prelude
  import opened Text
  import opened CatalogSync

  /** The stripped text of a feed field; fields that are missing or hold no text give none. */
  function TextOf(fp: FeedRow, k: string): string {
    if k in fp.top && fp.top[k].Str? then Strip(fp.top[k].text) else ""
  }

  /** A product that has a manufacturer keeps it; otherwise it gets the first 256 characters of
      the brand, if the feed has one. */
  lemma SyncedManufacturer(p: Product, fp: FeedRow)
    ensures Strip(p.manufacturer) != "" ==> Synced(p, fp).manufacturer == p.manufacturer
    ensures TextOf(fp, "brand") == "" ==> Synced(p, fp).manufacturer == p.manufacturer
    ensures var brand := TextOf(fp, "brand");
      Strip(p.manufacturer) == "" && brand != "" ==>
        Synced(p, fp).manufacturer == if |brand| <= 256 then brand else brand[..256]
  {
    hide Merged, WritesOf, NewImage, Strip;
    var brand := TextOf(fp, "brand");
    assert Stripped(Field(fp, "brand")) == brand;
    assert brand[..|brand|] == brand;
  }

  /** A product whose image is READY keeps its pending image; any other one gets the feed's
      image if that is an address. */
  lemma SyncedImage(p: Product, fp: FeedRow)
    ensures var img := TextOf(fp, "image_url");
      Synced(p, fp).pendingImage ==
        if p.mediaStatus != "READY" && |img| >= 4 && img[..4] == "http" then Some(img) else p.pendingImage
  {
    hide Merged, WritesOf, NewManufacturer, Strip;
    var img := TextOf(fp, "image_url");
    assert Stripped(Field(fp, "image_url")) == img;
    assert "http" <= img <==> |img| >= 4 && img[..4] == "http";
  }

  /** A sync touches nothing else but the attributes, and finds the feed row by merchant and
      external id. */
  lemma SyncedRest(p: Product, feed: Feed, fp: FeedRow)
    ensures (p.merchant, p.externalId) in feed && feed[(p.merchant, p.externalId)] == fp ==>
        Target(p, feed) == Synced(p, fp)
    ensures (p.merchant, p.externalId) !in feed ==> Target(p, feed) == p
    ensures var s := Synced(p, fp);
      s.merchant == p.merchant && s.externalId == p.externalId && s.mediaStatus == p.mediaStatus
  {
  }

  // ---------- attributes ----------

  const SHARED_KEYS := {"brand", "category", "model", "color", "size", "gender"}

  /** A nested value that is written. */
  predicate Offers(v: Value) { !v.Null? && !(v.Str? && Strip(v.text) == "") }

  /** A top-level value that is written. */
  predicate OffersTop(v: Value) { Offers(v) && !(v.Str? && Lower(v.text) == "null") }

  /** No nested value of the key is written after number `i`. */
  ghost predicate LastOffer(items: Writes, k: string, i: int) {
    && 0 <= i < |items| && items[i].0 == k
    && forall j :: i < j < |items| && items[j].0 == k ==> !Offers(items[j].1)
  }

  /** The last written nested value of a key. */
  ghost predicate LastNested(items: Writes, k: string, v: Value) {
    Offers(v) && exists i :: LastOffer(items, k, i) && items[i].1 == v
  }

  lemma {:induction false} LastWriteConcat(a: Writes, b: Writes, k: string)
    ensures LastWrite(a + b, k) == if LastWrite(b, k).Some? then LastWrite(b, k) else LastWrite(a, k)
  {
    if b == [] {
      assert a + b == a;
    } else {
      var n := |b| - 1;
      assert (a + b)[..|a + b| - 1] == a + b[..n];
      LastWriteConcat(a, b[..n], k);
    }
  }

  lemma {:induction false} NestedIs(items: Writes, k: string, v: Value)
    ensures LastWrite(NestedWrites(items), k) == Some(v) <==> LastNested(items, k, v)
  {
    if items != [] {
      var n := |items| - 1;
      var before, last := items[..n], items[n];
      NestedIs(before, k, v);
      assert NestedWrites(items) == NestedWrites(before) + (if Blank(last.1) then [] else [last]);
      assert Offers(last.1) <==> !Blank(last.1);
      LastNestedSnoc(before, last, k, v);
      assert before + [last] == items;
      hide NestedWrites, LastNested, Blank, Offers;
      if !Blank(last.1) {
        LastWriteSnoc(NestedWrites(before), last);
      } else {
        assert NestedWrites(before) + [] == NestedWrites(before);
      }
    }
  }

  lemma LastNestedSnoc(items: Writes, e: (string, Value), k: string, v: Value)
    ensures LastNested(items + [e], k, v) <==>
      if e.0 == k && Offers(e.1) then e.1 == v else LastNested(items, k, v)
  {
    var all := items + [e];
    hide Offers;
    assert forall i :: 0 <= i < |items| ==> all[i] == items[i];
    assert all[|items|] == e;
  }

  lemma {:induction false} TopIs(fp: FeedRow, keys: seq<string>, k: string)
    ensures LastWrite(TopWrites(fp, keys), k) ==
        if k in keys && OffersTop(Field(fp, k)) then Some(Field(fp, k)) else None
  {
    if keys != [] {
      var n := |keys| - 1;
      TopIs(fp, keys[..n], k);
      assert keys == keys[..n] + [keys[n]];
      assert OffersTop(Field(fp, keys[n])) <==> UsableTop(Field(fp, keys[n]));
      hide UsableTop, OffersTop, Field;
      if UsableTop(Field(fp, keys[n])) {
        LastWriteSnoc(TopWrites(fp, keys[..n]), (keys[n], Field(fp, keys[n])));
      } else {
        assert TopWrites(fp, keys[..n]) + [] == TopWrites(fp, keys[..n]);
      }
    }
  }

  lemma TopKeysAre(k: string)
    ensures k in TOP_KEYS <==> k in SHARED_KEYS
  {
  }

  /** An attribute after a sync: the last usable nested value of its key, or else the top-level
      one if it is one of the six shared fields, or else what it was. */
  lemma SyncedAttribute(p: Product, fp: FeedRow, k: string, v: Value)
    ensures var after := Synced(p, fp).attributes;
      && (LastNested(fp.nested, k, v) ==> k in after && after[k] == v)
      && ((forall i :: 0 <= i < |fp.nested| && fp.nested[i].0 == k ==> !Offers(fp.nested[i].1)) ==>
            if k in SHARED_KEYS && k in fp.top && OffersTop(fp.top[k]) then
              k in after && after[k] == fp.top[k]
            else
              (k in after <==> k in p.attributes) && (k in after ==> after[k] == p.attributes[k]))
  {
    var w := WritesOf(fp);
    MergedIsMerged(p.attributes, w);
    LastWriteConcat(TopWrites(fp, TOP_KEYS), NestedWrites(fp.nested), k);
    NestedIs(fp.nested, k, v);
    TopIs(fp, TOP_KEYS, k);
    TopKeysAre(k);
    assert Synced(p, fp).attributes == Merged(p.attributes, w);
    assert OffersTop(Field(fp, k)) ==> k in fp.top && Field(fp, k) == fp.top[k];
    hide Synced, Merged, OffersTop, Offers, TopWrites, NestedWrites, LastNested;
    if forall i :: 0 <= i < |fp.nested| && fp.nested[i].0 == k ==> !Offers(fp.nested[i].1) {
      NoneNested(fp.nested, k);
    }
  }

  lemma NoneNested(items: Writes, k: string)
    requires forall i :: 0 <= i < |items| && items[i].0 == k ==> !Offers(items[i].1)
    ensures LastWrite(NestedWrites(items), k) == None
  {
    var last := LastWrite(NestedWrites(items), k);
    if last.Some? {
      NestedIs(items, k, last.value);
    }
  }

  /** The pass counts a product exactly if its attributes change or its feed row offers two
      values for one key. */
  lemma RewritesIff(attrs: Attrs, fp: FeedRow)
    ensures !Holds(attrs, WritesOf(fp)) <==> Merged(attrs, WritesOf(fp)) != attrs || Conflict(WritesOf(fp))
  {
    var w := WritesOf(fp);
    WritesNonNull(fp);
    hide WritesOf;
    MergedHoldsIffNoConflict(attrs, w);
    if Holds(attrs, w) {
      HoldsMeansMerged(attrs, w);
    }
  }

  /** The pass fails on a feed row exactly if its brand or image is truthy but no text. */
  lemma FailsOn(fp: FeedRow)
    ensures Crashes(fp) <==>
        exists k :: k in {"brand", "image_url"} && k in fp.top && fp.top[k].Other? && fp.top[k].truthy
  {
    if Crashes(fp) {
      if Field(fp, "brand").Other? && Field(fp, "brand").truthy {
        assert "brand" in fp.top;
      } else {
        assert "image_url" in fp.top;
      }
    }
  }
}
