/** What an exported row says, in terms of the reply and the annotation. */
module ResidualVerdicts {
  import opened Prelude
  import opened ResidualCodes

  // ---------- what was answered ----------

  /** The profile that is compared: that of a parsed object, and an empty one otherwise. */
  function Answered(r: Reply): View {
    if !r.timeout && r.body.Object? then r.view else View({}, {}, false, {})
  }

  /** The text was looked at and held no JSON object. */
  predicate NoObject(r: Reply) { !r.timeout && !(r.httpError && r.body == NoText) && !r.body.Object? }

  /** A row's status and what it stores of the reply. */
  lemma RowStatusIs(row: Row, s: Sample)
    requires IsExportOf(row, s)
    ensures var r, st := s.reply, row.status;
      && (st == Timeout <==> r.timeout)
      && (st == ProviderError <==> !r.timeout && r.httpError && r.body == NoText)
      && (st == EmptyOutput <==> !r.timeout && ((r.body == NoText && !r.httpError) || r.body == Blank))
      && (st == Truncated <==> !r.timeout && r.body == NotJson && r.truncated)
      && (st == InvalidSchema <==> !r.timeout && ((r.body == NotJson && !r.truncated) || r.body.NotObject?
                                                   || (r.body.Object? && r.body != Object(true, true))))
      && (st == Ok <==> !r.timeout && r.body == Object(true, true))
    ensures row.gold == s.gold && row.pred == Answered(s.reply) && row.patterns == s.patterns
    ensures row.latency == s.reply.latency && row.timeout == s.reply.timeout && row.truncated == s.reply.truncated
    ensures (row.nonJson <==> NoObject(s.reply)) && (row.schemaValid <==> row.status == Ok)
    ensures !row.skipped && row.hasRaw
  {
    hide FlagsOf, StoredCauses;
  }

  /** A reply aborts the export exactly if its text is JSON but a value that is no object, and
      not an empty or zero one either. */
  lemma AbortsOn(r: Reply)
    ensures Crashes(r) <==> !r.timeout && r.body.NotObject? && r.body.truthy
  {
  }

  // ---------- corrections ----------

  /** The annotation asks for a correction but names no text. */
  predicate AnyCorrection(gold: View) {
    gold.corrections == {"__correction_present__"} || (gold.correction && gold.corrections == {})
  }

  /** The correction texts of a reply, or a marker when there are corrections without text. */
  function OfferedCorrections(v: View): set<string> {
    if v.correction && v.corrections == {} then {"__correction_present__"} else v.corrections
  }

  ghost predicate Lacks(asked: set<string>, offered: set<string>) { exists t :: t in asked && t !in offered }

  /** A correction that was asked for is missing. */
  ghost predicate LacksCorrection(gold: View, pred: View) {
    if AnyCorrection(gold) then gold.correction && !pred.correction
    else Lacks(gold.corrections, OfferedCorrections(pred))
  }

  predicate AsksNothing(gold: View) {
    && gold.positive == {} && gold.negative == {} && !gold.correction
    && (gold.corrections == {} || gold.corrections == {"__correction_present__"})
  }

  /** The reply offers nothing; where no correction text was asked for, texts alone do not count. */
  predicate OffersNothing(gold: View, pred: View) {
    && pred.positive == {} && pred.negative == {} && !pred.correction
    && (AnyCorrection(gold) || pred.corrections == {})
  }

  lemma LacksIs(asked: set<string>, offered: set<string>)
    ensures Lacks(asked, offered) <==> asked - offered != {}
  {
    if asked - offered != {} {
      var t :| t in asked - offered;
      assert t in asked && t !in offered;
    }
    if t :| t in asked && t !in offered {
      assert t in asked - offered;
    }
  }

  lemma TextsAreMarker(v: View)
    ensures CorrectionTexts(v) == OfferedCorrections(v)
    ensures CorrectionTexts(v) == {PRESENT} <==> AnyCorrection(v)
  {
    assert PRESENT in {PRESENT};
  }

  lemma CorrectionIs(e: Evidence)
    ensures e.Missed(Correction) <==> LacksCorrection(e.gold, e.pred)
    ensures GoldSet(e.gold, Correction) == {} <==>
      !e.gold.correction && (e.gold.corrections == {} || e.gold.corrections == {PRESENT})
    ensures PredSet(e.gold, e.pred, Correction) == {} <==>
      !e.pred.correction && (AnyCorrection(e.gold) || e.pred.corrections == {})
  {
    TextsAreMarker(e.gold);
    TextsAreMarker(e.pred);
    LacksIs(e.gold.corrections, OfferedCorrections(e.pred));
    hide Lacks;
    assert PRESENT in {PRESENT};
    if AnyCorrection(e.gold) {
      assert Marker(e.gold) - Marker(e.pred) != {} <==> e.gold.correction && !e.pred.correction by {
        assert e.gold.correction && !e.pred.correction ==> PRESENT in Marker(e.gold) - Marker(e.pred);
      }
    }
  }

  // ---------- flags ----------

  ghost predicate Conflicting(pred: View) { exists t :: t in pred.positive && t in pred.negative }

  ghost predicate Exceeds(gold: View, pred: View) {
    Lacks(pred.positive, gold.positive) || Lacks(pred.negative, gold.negative)
  }

  ghost predicate Silent(gold: View, pred: View) { !AsksNothing(gold) && OffersNothing(gold, pred) }

  /** The reply is the annotation, in a valid profile with nothing forbidden in it. */
  ghost predicate Matches(gold: View, pred: View, r: Reply) {
    && !r.timeout && r.body == Object(true, true) && !r.forbidden && !r.hallucinated && !Conflicting(pred)
    && !Lacks(gold.positive, pred.positive) && !Lacks(gold.negative, pred.negative) && !LacksCorrection(gold, pred)
    && !Exceeds(gold, pred)
  }

  lemma ComparisonIs(e: Evidence)
    ensures e.Missed(Positive) <==> Lacks(e.gold.positive, e.pred.positive)
    ensures e.Missed(Negative) <==> Lacks(e.gold.negative, e.pred.negative)
    ensures e.Missed(Correction) <==> LacksCorrection(e.gold, e.pred)
    ensures e.Conflict() <==> Conflicting(e.pred)
    ensures e.OverExtract() <==> Exceeds(e.gold, e.pred)
    ensures e.Empty() <==> Silent(e.gold, e.pred)
  {
    CorrectionIs(e);
    LacksIs(e.gold.positive, e.pred.positive);
    LacksIs(e.gold.negative, e.pred.negative);
    LacksIs(e.pred.positive, e.gold.positive);
    LacksIs(e.pred.negative, e.gold.negative);
    hide Lacks, CorrectionTexts, LacksCorrection;
    if t :| t in e.pred.positive && t in e.pred.negative {
      assert t in e.pred.positive * e.pred.negative;
    }
    if e.Conflict() {
      var t :| t in e.pred.positive * e.pred.negative;
    }
  }

  /** The stored flags. */
  lemma RowFlagsAre(row: Row, s: Sample)
    requires IsExportOf(row, s)
    ensures var r, g, p, f := s.reply, s.gold, Answered(s.reply), row.flags;
      && (f.conflict <==> Conflicting(p))
      && (f.forbidden <==> !r.timeout && r.body.Object? && (r.forbidden || r.hallucinated))
      && (f.posMiss <==> Lacks(g.positive, p.positive)) && (f.negMiss <==> Lacks(g.negative, p.negative))
      && (f.corrMiss <==> LacksCorrection(g, p))
      && (f.overExtract <==> Exceeds(g, p)) && (f.empty <==> Silent(g, p))
      && (f.modelOk <==> Matches(g, p, r))
  {
    var e := EvidenceOf(s);
    ComparisonIs(e);
    assert e.gold == s.gold && e.pred == Answered(s.reply);
    hide Lacks, LacksCorrection, Conflicting, Silent, Misses, Extras, GoldSet, PredSet;
  }

  // ---------- causes ----------

  function When(b: bool, c: Cause): seq<Cause> { if b then [c] else [] }

  lemma CodedNext(e: Evidence, k: nat)
    requires k < |CAUSES|
    ensures Coded(e, k + 1) == Coded(e, k) + When(Symptom(e, CAUSES[k]), CAUSES[k])
  {
    hide Symptom;
    assert Coded(e, k) + [] == Coded(e, k);
  }

  ghost function RuntimeOf(r: Reply): seq<Cause> {
    When(r.timeout, RuntimeTimeout) + When(r.truncated, RuntimeTruncated) + When(NoObject(r), RuntimeNonJson)
    + When(!r.timeout && !NoObject(r) && r.body != Object(true, true), RuntimeSchemaFail)
  }

  ghost function ProfileOf(gold: View, r: Reply): seq<Cause> {
    var p, parsed := Answered(r), !r.timeout && r.body.Object?;
    When(parsed && r.forbidden, ModelForbiddenField) + When(parsed && r.hallucinated, ModelHallucinatedEntity)
    + When(Conflicting(p), ModelConflict) + When(Silent(gold, p), ModelEmpty)
  }

  ghost function ContentOf(gold: View, r: Reply): seq<Cause> {
    var p := Answered(r);
    When(LacksCorrection(gold, p), ModelCorrMiss) + When(Lacks(gold.positive, p.positive), ModelPosMiss)
    + When(Lacks(gold.negative, p.negative), ModelNegMiss)
    + When(Exceeds(gold, p) && !Silent(gold, p), ModelOverExtract)
  }

  lemma FourCoded(e: Evidence, k: nat)
    requires k + 4 <= |CAUSES|
    ensures Coded(e, k + 4) == Coded(e, k) +
      (When(Symptom(e, CAUSES[k]), CAUSES[k]) + When(Symptom(e, CAUSES[k + 1]), CAUSES[k + 1])
      + When(Symptom(e, CAUSES[k + 2]), CAUSES[k + 2]) + When(Symptom(e, CAUSES[k + 3]), CAUSES[k + 3]))
  {
    var all := CAUSES;
    hide *;
    CodedNext(e, k);
    CodedNext(e, k + 1);
    CodedNext(e, k + 2);
    CodedNext(e, k + 3);
  }

  lemma NothingCoded(e: Evidence, rest: seq<Cause>)
    ensures Coded(e, 0) + rest == rest
  {
  }

  lemma RuntimeSymptoms(s: Sample)
    ensures var e, r := EvidenceOf(s), s.reply;
      && (Symptom(e, RuntimeTimeout) <==> r.timeout) && (Symptom(e, RuntimeTruncated) <==> r.truncated)
      && (Symptom(e, RuntimeNonJson) <==> NoObject(r))
      && (Symptom(e, RuntimeSchemaFail) <==> !r.timeout && !NoObject(r) && r.body != Object(true, true))
  {
  }

  lemma RuntimeCoded(s: Sample)
    ensures Coded(EvidenceOf(s), 4) == RuntimeOf(s.reply)
  {
    RuntimeSymptoms(s);
    hide Coded, When, EvidenceOf, Symptom, NoObject;
    FourCoded(EvidenceOf(s), 0);
    NothingCoded(EvidenceOf(s), RuntimeOf(s.reply));
  }

  lemma ProfileSymptoms(s: Sample)
    ensures var e, p, parsed := EvidenceOf(s), Answered(s.reply), !s.reply.timeout && s.reply.body.Object?;
      && (Symptom(e, ModelForbiddenField) <==> parsed && s.reply.forbidden)
      && (Symptom(e, ModelHallucinatedEntity) <==> parsed && s.reply.hallucinated)
      && (Symptom(e, ModelConflict) <==> Conflicting(p)) && (Symptom(e, ModelEmpty) <==> Silent(s.gold, p))
  {
    var e := EvidenceOf(s);
    ComparisonIs(e);
    assert e.gold == s.gold && e.pred == Answered(s.reply);
    hide Conflicting, Silent, GoldSet, PredSet;
  }

  lemma ProfileCoded(s: Sample)
    ensures Coded(EvidenceOf(s), 8) == Coded(EvidenceOf(s), 4) + ProfileOf(s.gold, s.reply)
  {
    ProfileSymptoms(s);
    hide Coded, When, EvidenceOf, Symptom, Conflicting, Silent;
    FourCoded(EvidenceOf(s), 4);
  }

  lemma ContentSymptoms(s: Sample)
    ensures var e, p := EvidenceOf(s), Answered(s.reply);
      && (Symptom(e, ModelCorrMiss) <==> LacksCorrection(s.gold, p))
      && (Symptom(e, ModelPosMiss) <==> Lacks(s.gold.positive, p.positive))
      && (Symptom(e, ModelNegMiss) <==> Lacks(s.gold.negative, p.negative))
      && (Symptom(e, ModelOverExtract) <==> Exceeds(s.gold, p) && !Silent(s.gold, p))
  {
    var e := EvidenceOf(s);
    ComparisonIs(e);
    assert e.gold == s.gold && e.pred == Answered(s.reply);
    hide Lacks, LacksCorrection, Exceeds, Silent, GoldSet, PredSet;
  }

  lemma ContentCoded(s: Sample)
    ensures Coded(EvidenceOf(s), 12) == Coded(EvidenceOf(s), 8) + ContentOf(s.gold, s.reply)
  {
    ContentSymptoms(s);
    hide Coded, When, EvidenceOf, Symptom, Lacks, LacksCorrection, Exceeds, Silent;
    FourCoded(EvidenceOf(s), 8);
  }

  lemma StoredUnfolds(row: Row, s: Sample)
    requires IsExportOf(row, s)
    ensures var causes := if row.flags.modelOk then [] else Coded(EvidenceOf(s), 12);
      && row.primary == (if causes == [] then None else Some(causes[0]))
      && row.secondary == (if causes == [] then [] else causes[1..])
  {
    assert row.flags.modelOk <==> EvidenceOf(s).ModelOk();
    hide EvidenceOf, Coded, Misses, Extras, GoldSet, PredSet, Rank;
  }

  lemma HeadAndTail<T>(s: seq<T>)
    requires s != []
    ensures s == [s[0]] + s[1..]
  {
  }

  lemma StoredInOrder(row: Row, s: Sample)
    requires IsExportOf(row, s)
    ensures (match row.primary case None => [] case Some(c) => [c] + row.secondary) ==
      if row.flags.modelOk then [] else Coded(EvidenceOf(s), 12)
  {
    assert |CAUSES| == 12;
    hide *;
    StoredUnfolds(row, s);
    if row.primary.Some? {
      HeadAndTail(Coded(EvidenceOf(s), 12));
    }
  }

  /** The causes of a row, primary first: none if the reply matches the annotation, and otherwise
      whatever went wrong with the call, with the profile and with its content, in this order. */
  lemma RowCausesAre(row: Row, s: Sample)
    requires IsExportOf(row, s)
    ensures (match row.primary case None => [] case Some(c) => [c] + row.secondary) ==
      if Matches(s.gold, Answered(s.reply), s.reply) then []
      else RuntimeOf(s.reply) + ProfileOf(s.gold, s.reply) + ContentOf(s.gold, s.reply)
  {
    hide *;
    RowFlagsAre(row, s);
    RuntimeCoded(s);
    ProfileCoded(s);
    ContentCoded(s);
    StoredInOrder(row, s);
  }
}
