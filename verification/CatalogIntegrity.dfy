/** Status transitions of catalog products: hiding incomplete products and re-scoring. */
module CatalogIntegrity {
  import opened Prelude

  // Each operation is two UPDATE statements over the product table. Their conditions follow
  // SQL's three-valued logic: comparing a missing value gives neither true nor false, and an
  // UPDATE touches only rows whose condition is true.

  datatype Truth = True | False | Unknown

  function Sql(b: bool): Truth { if b then True else False }

  function And(a: Truth, b: Truth): Truth {
    if a == False || b == False then False else if a == True && b == True then True else Unknown
  }

  function Or(a: Truth, b: Truth): Truth {
    if a == True || b == True then True else if a == False && b == False then False else Unknown
  }

  function Not(a: Truth): Truth {
    match a
    case True => False
    case False => True
    case Unknown => Unknown
  }

  /** `column = text`; a NULL column is neither equal nor unequal. */
  function Equals(column: Option<string>, text: string): Truth {
    match column
    case None => Unknown
    case Some(v) => Sql(v == text)
  }

  /** An asset linked to a product as primary. */
  datatype Asset = Asset(status: Option<string>, cdnUrl: Option<string>)

  datatype Block = MissingCategoryAndImage | MissingCategory | MissingReadyImage

  /** `mediaStatus` is the primary_media_status entry of the metadata, `offer` whether a priced
      offer with a currency exists. */
  datatype Product = Product(
    active: bool, quality: Option<string>, category: Option<nat>,
    mediaStatus: Option<string>, block: Option<Block>, primaries: seq<Asset>, offer: bool)

  const READY := "READY"
  const PARTIAL := "PARTIAL"
  const QUARANTINED := "QUARANTINED"

  /** A READY primary asset exists. */
  predicate HasReadyAsset(p: Product) {
    exists i :: 0 <= i < |p.primaries| && p.primaries[i].status == Some(READY)
  }

  /** A READY primary asset with a CDN URL exists. */
  predicate HasImage(p: Product) {
    exists i :: 0 <= i < |p.primaries| && p.primaries[i].status == Some(READY) && p.primaries[i].cdnUrl.GetOr("") != ""
  }

  // ---------- hiding incomplete products ----------

  function ToQuarantine(p: Product): Truth {
    And(Sql(p.active), Or(Sql(p.category.None?), Not(Sql(HasImage(p)))))
  }

  function BlockOf(p: Product): Block {
    if And(Sql(p.category.None?), Not(Or(Equals(p.mediaStatus, READY), Sql(HasImage(p))))) == True then
      MissingCategoryAndImage
    else if p.category.None? then MissingCategory
    else MissingReadyImage
  }

  function Quarantine(p: Product): Product {
    if ToQuarantine(p) == True then p.(quality := Some(QUARANTINED), block := Some(BlockOf(p))) else p
  }

  function ToRestore(p: Product): Truth {
    And(Sql(p.active), And(Sql(p.category.Some?), Sql(HasImage(p))))
  }

  function Restore(p: Product): Product {
    if ToRestore(p) == True then p.(quality := Some(READY), block := None) else p
  }

  /** `enforce_quarantine` on one product. */
  function Enforced(p: Product): Product { Restore(Quarantine(p)) }

  // ---------- re-scoring ----------

  /** The metadata or a linked asset says that the image is READY. */
  function ImageEvidence(p: Product): Truth { Or(Equals(p.mediaStatus, READY), Sql(HasReadyAsset(p))) }

  function ToMarkReady(p: Product): Truth {
    And(And(Sql(p.active), Sql(p.quality != Some(READY))), And(Sql(p.offer), ImageEvidence(p)))
  }

  function MarkReady(p: Product): Product { if ToMarkReady(p) == True then p.(quality := Some(READY)) else p }

  function ToRevert(p: Product): Truth {
    And(And(Sql(p.active), Equals(p.quality, READY)), Not(ImageEvidence(p)))
  }

  function Revert(p: Product): Product { if ToRevert(p) == True then p.(quality := Some(PARTIAL)) else p }

  /** `rescore` on one product. */
  function Rescored(p: Product): Product { Revert(MarkReady(p)) }

  // ---------- the statements, over the table ----------

  function Matching(rows: seq<Product>, cond: Product -> Truth): nat -> bool {
    (i: nat) => i < |rows| && cond(rows[i]) == True
  }

  function QuarantineRule(): Product -> Truth { (p: Product) => ToQuarantine(p) }
  function RestoreRule(): Product -> Truth { (p: Product) => ToRestore(p) }
  function MarkReadyRule(): Product -> Truth { (p: Product) => ToMarkReady(p) }
  function RevertRule(): Product -> Truth { (p: Product) => ToRevert(p) }

  class Table {
    var rows: seq<Product>

    constructor (rows: seq<Product>)
      ensures this.rows == rows
    {
      this.rows := rows;
    }

    /** UPDATE … SET … WHERE …, which reports how many rows it touched. */
    method Update(cond: Product -> Truth, set_: Product -> Product) returns (n: nat)
      modifies this
      ensures |rows| == |old(rows)|
      ensures forall i :: 0 <= i < |rows| ==>
        rows[i] == if cond(old(rows)[i]) == True then set_(old(rows)[i]) else old(rows)[i]
      ensures n == Tally(|rows|, Matching(old(rows), cond))
    {
      n := 0;
      for i := 0 to |rows|
        invariant |rows| == |old(rows)| && n == Tally(i, Matching(old(rows), cond))
        invariant forall k :: 0 <= k < i ==>
          rows[k] == if cond(old(rows)[k]) == True then set_(old(rows)[k]) else old(rows)[k]
        invariant forall k :: i <= k < |rows| ==> rows[k] == old(rows)[k]
      {
        if cond(rows[i]) == True {
          rows := rows[i := set_(rows[i])];
          n := n + 1;
        }
      }
    }

    /** Both statements: every active product is counted by exactly one of them. */
    method EnforceQuarantine() returns (quarantined: nat, restored: nat)
      modifies this
      ensures |rows| == |old(rows)| && forall i :: 0 <= i < |rows| ==> rows[i] == Enforced(old(rows)[i])
      ensures quarantined == Tally(|rows|, Matching(old(rows), QuarantineRule()))
      ensures restored == Tally(|rows|, Matching(old(rows), RestoreRule()))
      ensures quarantined + restored == Tally(|rows|, Active(old(rows)))
    {
      quarantined := Update(QuarantineRule(),
          (p: Product) => p.(quality := Some(QUARANTINED), block := Some(BlockOf(p))));
      ghost var between := rows;
      assert forall i :: 0 <= i < |rows| ==> rows[i] == Quarantine(old(rows)[i]);
      restored := Update(RestoreRule(), (p: Product) => p.(quality := Some(READY), block := None));
      SameRestored(old(rows), between);
      EitherWay(old(rows));
    }

    method Rescore() returns (marked: nat, reverted: nat)
      modifies this
      ensures |rows| == |old(rows)| && forall i :: 0 <= i < |rows| ==> rows[i] == Rescored(old(rows)[i])
      ensures marked == Tally(|rows|, Matching(old(rows), MarkReadyRule()))
      ensures reverted == Tally(|rows|, Matching(old(rows), RevertRule()))
    {
      marked := Update(MarkReadyRule(), (p: Product) => p.(quality := Some(READY)));
      ghost var between := rows;
      assert forall i :: 0 <= i < |rows| ==> rows[i] == MarkReady(old(rows)[i]);
      reverted := Update(RevertRule(), (p: Product) => p.(quality := Some(PARTIAL)));
      SameReverted(old(rows), between);
    }
  }

  function Active(rows: seq<Product>): nat -> bool { (i: nat) => i < |rows| && rows[i].active }

  lemma SameRestored(rows: seq<Product>, between: seq<Product>)
    requires |between| == |rows| && forall i :: 0 <= i < |rows| ==> between[i] == Quarantine(rows[i])
    ensures Tally(|rows|, Matching(between, RestoreRule())) == Tally(|rows|, Matching(rows, RestoreRule()))
  {
    TallyMono(|rows|, Matching(between, RestoreRule()), Matching(rows, RestoreRule()));
    TallyMono(|rows|, Matching(rows, RestoreRule()), Matching(between, RestoreRule()));
  }

  /** The rows just marked READY have image evidence, so they are not reverted. */
  lemma SameReverted(rows: seq<Product>, between: seq<Product>)
    requires |between| == |rows| && forall i :: 0 <= i < |rows| ==> between[i] == MarkReady(rows[i])
    ensures Tally(|rows|, Matching(between, RevertRule())) == Tally(|rows|, Matching(rows, RevertRule()))
  {
    TallyMono(|rows|, Matching(between, RevertRule()), Matching(rows, RevertRule()));
    TallyMono(|rows|, Matching(rows, RevertRule()), Matching(between, RevertRule()));
  }

  lemma EitherWay(rows: seq<Product>)
    ensures Tally(|rows|, Matching(rows, QuarantineRule())) + Tally(|rows|, Matching(rows, RestoreRule()))
         == Tally(|rows|, Active(rows))
  {
    TallyUnion(|rows|, Matching(rows, QuarantineRule()), Matching(rows, RestoreRule()), Active(rows));
  }

  // ---------- what the statements converge to ----------

  /** An active product ends up READY exactly when it has a category and an image, and
      QUARANTINED with a reason otherwise; other products are left alone. */
  lemma EnforcedIsExact(p: Product)
    ensures var e := Enforced(p);
      && e.(quality := p.quality, block := p.block) == p
      && (p.active && p.category.Some? && HasImage(p) <==> p.active && e.quality == Some(READY) && e.block == None)
      && (p.active && !(p.category.Some? && HasImage(p)) <==>
          p.active && e.quality == Some(QUARANTINED) && e.block.Some?)
      && (!p.active ==> e == p)
  {
    assert HasImage(Quarantine(p)) == HasImage(p);
  }

  /** The stored reason names both defects only if the metadata has a media status at all and
      it is not READY; with no status at all a product that lacks both is filed under its
      missing category. */
  lemma BlockIsExact(p: Product)
    requires p.active && !(p.category.Some? && HasImage(p))
    ensures var b := Enforced(p).block.GetOr(MissingCategory);
      && (b == MissingCategoryAndImage <==>
          p.category.None? && !HasImage(p) && p.mediaStatus.Some? && p.mediaStatus.value != READY)
      && (b == MissingReadyImage <==> p.category.Some?)
  {
    assert HasImage(Quarantine(p)) == HasImage(p);
  }

  /** Enforcing twice is enforcing once. */
  lemma EnforceIdempotent(p: Product)
    ensures Enforced(Enforced(p)) == Enforced(p)
  {
    var e := Enforced(p);
    assert HasImage(Quarantine(p)) == HasImage(p) && HasImage(e) == HasImage(p) &&
        HasImage(Quarantine(e)) == HasImage(e);
  }

  /** Re-scoring first changes nothing that enforcing leaves behind. */
  lemma RescoreThenEnforce(p: Product)
    ensures Enforced(Rescored(p)) == Enforced(p)
  {
    var r := Rescored(p);
    assert r == p.(quality := r.quality);
    assert HasImage(r) == HasImage(p) && HasImage(Quarantine(p)) == HasImage(p) &&
        HasImage(Quarantine(r)) == HasImage(r);
  }

  /** Re-scoring afterwards undoes the quarantine of exactly those active products that have an
      offer and some evidence of an image, but no category or no servable image. */
  lemma EnforceThenRescore(p: Product)
    ensures Rescored(Enforced(p)) != Enforced(p) <==>
      p.active && p.offer && ImageEvidence(p) == True && !(p.category.Some? && HasImage(p))
    ensures Rescored(Enforced(p)) != Enforced(p) ==> Rescored(Enforced(p)) == Enforced(p).(quality := Some(READY))
  {
    var e := Enforced(p);
    EnforcedIsExact(p);
    assert HasReadyAsset(e) == HasReadyAsset(p) && HasImage(e) == HasImage(p);
    assert HasImage(p) ==> HasReadyAsset(p);
    assert HasReadyAsset(MarkReady(e)) == HasReadyAsset(e);
    hide Enforced, HasImage, HasReadyAsset;
  }

  /** After re-scoring, an active READY product has image evidence or had no media status and
      was READY before: SQL finds no reason to revert it. */
  lemma RescoredReady(p: Product)
    requires p.active
    ensures Rescored(p).quality == Some(READY) && ImageEvidence(p) != True <==>
      p.quality == Some(READY) && p.mediaStatus.None? && !HasReadyAsset(p)
  {
    assert HasReadyAsset(MarkReady(p)) == HasReadyAsset(p);
  }
}
