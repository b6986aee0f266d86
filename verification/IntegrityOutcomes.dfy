/** What hiding and re-scoring leave of a product, in terms of its columns and assets. */
module IntegrityOutcomes {
  import opened Prelude
  import opened CatalogIntegrity

  /** The logic of the conditions: only TRUE AND TRUE is true, only FALSE OR FALSE is false, NOT
      swaps the two, and everything else that involves an unknown stays unknown. */
  lemma SqlLogic(a: Truth, b: Truth)
    ensures And(a, b) == True <==> a == True && b == True
    ensures And(a, b) == False <==> a == False || b == False
    ensures Or(a, b) == Not(And(Not(a), Not(b))) && Not(Not(a)) == a && (Not(a) == Unknown <==> a == Unknown)
    ensures Not(True) == False
  {
  }

  /** A primary asset with status READY. */
  ghost predicate Ready(p: Product) { exists a :: a in p.primaries && a.status == Some("READY") }

  /** Such an asset with an address to serve it from. */
  ghost predicate Servable(p: Product) {
    exists a :: a in p.primaries && a.status == Some("READY") && a.cdnUrl.Some? && a.cdnUrl.value != ""
  }

  lemma SameAssets(p: Product)
    ensures Ready(p) <==> HasReadyAsset(p)
    ensures Servable(p) <==> HasImage(p)
  {
    if a :| a in p.primaries && a.status == Some("READY") && a.cdnUrl.Some? && a.cdnUrl.value != "" {
      var i :| 0 <= i < |p.primaries| && p.primaries[i] == a;
    }
    if a :| a in p.primaries && a.status == Some("READY") {
      var i :| 0 <= i < |p.primaries| && p.primaries[i] == a;
    }
  }

  /** Hiding. An active product with a category and a servable image becomes READY without a
      reason, any other active one QUARANTINED; its reason names the category alone unless the
      metadata holds a media status other than READY. */
  lemma EnforceLeaves(p: Product)
    ensures Enforced(p) ==
      if !p.active then p
      else if p.category.Some? && Servable(p) then p.(quality := Some("READY"), block := None)
      else p.(quality := Some("QUARANTINED"), block := Some(
                if p.category.Some? then MissingReadyImage
                else if !Servable(p) && p.mediaStatus.Some? && p.mediaStatus.value != "READY" then
                  MissingCategoryAndImage
                else MissingCategory))
  {
    SameAssets(p);
    EnforcedIsExact(p);
    if p.active && !(p.category.Some? && HasImage(p)) {
      BlockIsExact(p);
    }
    hide Enforced, HasImage, Servable;
  }

  /** Re-scoring. With evidence of an image, in the metadata or in a linked asset, an active
      product that has an offer becomes READY, whatever it was. Without evidence a READY one
      becomes PARTIAL, but only if the metadata has a media status at all. Nothing else
      changes. */
  lemma RescoreLeaves(p: Product)
    ensures Rescored(p) ==
      if !p.active then p
      else if p.mediaStatus == Some("READY") || Ready(p) then
        if p.offer then p.(quality := Some("READY")) else p
      else if p.mediaStatus.Some? && p.quality == Some("READY") then p.(quality := Some("PARTIAL"))
      else p
  {
    SameAssets(p);
    assert HasReadyAsset(MarkReady(p)) == HasReadyAsset(p);
    hide HasReadyAsset;
  }

  // ---------- whole tables ----------

  ghost predicate HasEvidence(p: Product) { p.mediaStatus == Some("READY") || Ready(p) }

  /** The counts of a re-scoring: the active products with an offer and evidence that were not
      READY, and the active READY ones whose media status is known and that lack evidence. */
  lemma RescoreCounts(rows: seq<Product>, i: nat)
    requires i < |rows|
    ensures Matching(rows, MarkReadyRule())(i) <==>
      rows[i].active && rows[i].offer && HasEvidence(rows[i]) && rows[i].quality != Some("READY")
    ensures Matching(rows, RevertRule())(i) <==>
      rows[i].active && rows[i].quality == Some("READY") && rows[i].mediaStatus.Some? && !HasEvidence(rows[i])
  {
    SameAssets(rows[i]);
    hide HasReadyAsset, Ready;
  }

  /** The counts of hiding. */
  lemma EnforceCounts(rows: seq<Product>, i: nat)
    requires i < |rows|
    ensures Matching(rows, RestoreRule())(i) <==>
      rows[i].active && rows[i].category.Some? && Servable(rows[i])
    ensures Matching(rows, QuarantineRule())(i) <==>
      rows[i].active && !(rows[i].category.Some? && Servable(rows[i]))
  {
    SameAssets(rows[i]);
    hide HasImage, Servable;
  }
}
