/** The residual cause coder and the export of one row. */
module ResidualCodes {
  import opened Prelude

  // A reply of the model is compared with the gold annotation; every discrepancy contributes a
  // cause, in a fixed order of priority. The first is the primary cause. A row that matches the
  // gold annotation exactly is stored without causes, whatever else was noticed about it.

  datatype Cause =
    | RuntimeTimeout | RuntimeTruncated | RuntimeNonJson | RuntimeSchemaFail
    | ModelForbiddenField | ModelHallucinatedEntity | ModelConflict | ModelEmpty
    | ModelCorrMiss | ModelPosMiss | ModelNegMiss | ModelOverExtract
    | Matcher | Quant

  /** The order in which the coder looks for causes. */
  const CAUSES: seq<Cause> := [
    RuntimeTimeout, RuntimeTruncated, RuntimeNonJson, RuntimeSchemaFail,
    ModelForbiddenField, ModelHallucinatedEntity, ModelConflict, ModelEmpty,
    ModelCorrMiss, ModelPosMiss, ModelNegMiss, ModelOverExtract]

  function Rank(c: Cause): (k: nat)
    ensures k < |CAUSES| ==> CAUSES[k] == c
    ensures k >= |CAUSES| <==> c == Matcher || c == Quant
  {
    match c
    case RuntimeTimeout => 0
    case RuntimeTruncated => 1
    case RuntimeNonJson => 2
    case RuntimeSchemaFail => 3
    case ModelForbiddenField => 4
    case ModelHallucinatedEntity => 5
    case ModelConflict => 6
    case ModelEmpty => 7
    case ModelCorrMiss => 8
    case ModelPosMiss => 9
    case ModelNegMiss => 10
    case ModelOverExtract => 11
    case Matcher => 12
    case Quant => 13
  }

  predicate IsRuntime(c: Cause) { Rank(c) < 4 }

  predicate IsModel(c: Cause) { 4 <= Rank(c) < 12 }

  /** The folded concept texts of an annotation or a reply; `correction` says whether its list
      of corrections was non-empty, even if no text could be read from it. */
  datatype View = View(positive: set<string>, negative: set<string>, correction: bool, corrections: set<string>)

  const NO_VIEW := View({}, {}, false, {})

  datatype Status = Ok | Timeout | ProviderError | EmptyOutput | InvalidSchema | Truncated

  // ---------- comparing a reply with the annotation ----------

  datatype Channel = Positive | Negative | Correction

  const PRESENT := "__correction_present__"

  /** The correction texts, or a marker when there are corrections without text. */
  function CorrectionTexts(v: View): set<string> {
    if v.correction && v.corrections == {} then {PRESENT} else v.corrections
  }

  function Marker(v: View): set<string> { if v.correction then {PRESENT} else {} }

  /** What the annotation asks for on a channel. */
  function GoldSet(gold: View, ch: Channel): set<string> {
    match ch
    case Positive => gold.positive
    case Negative => gold.negative
    case Correction => if CorrectionTexts(gold) == {PRESENT} then Marker(gold) else CorrectionTexts(gold)
  }

  /** What the reply offers; against a bare marker any correction will do. */
  function PredSet(gold: View, pred: View, ch: Channel): set<string> {
    match ch
    case Positive => pred.positive
    case Negative => pred.negative
    case Correction => if CorrectionTexts(gold) == {PRESENT} then Marker(pred) else CorrectionTexts(pred)
  }

  function Misses(gold: View, pred: View, ch: Channel): set<string> { GoldSet(gold, ch) - PredSet(gold, pred, ch) }

  function Extras(gold: View, pred: View, ch: Channel): set<string> { PredSet(gold, pred, ch) - GoldSet(gold, ch) }

  /** The arguments of `assign_causes`. */
  datatype Evidence = Evidence(
    status: Status, gold: View, pred: View,
    schemaValid: bool, forbidden: bool, hallucinated: bool, truncated: bool, timeout: bool, nonJson: bool)
  {
    predicate Missed(ch: Channel) { Misses(gold, pred, ch) != {} }
    predicate Conflict() { pred.positive * pred.negative != {} }
    predicate OverExtract() { Extras(gold, pred, Positive) != {} || Extras(gold, pred, Negative) != {} }
    predicate GoldEmpty() { GoldSet(gold, Positive) == GoldSet(gold, Negative) == GoldSet(gold, Correction) == {} }
    predicate PredEmpty() {
      PredSet(gold, pred, Positive) == PredSet(gold, pred, Negative) == PredSet(gold, pred, Correction) == {}
    }
    predicate Empty() { !GoldEmpty() && PredEmpty() }

    predicate ModelOk() {
      && schemaValid && !forbidden && !hallucinated && !Conflict()
      && !Missed(Positive) && !Missed(Negative) && !Missed(Correction) && !OverExtract()
      && status == Ok
    }
  }

  datatype Flags = Flags(
    conflict: bool, forbidden: bool, posMiss: bool, negMiss: bool, corrMiss: bool,
    overExtract: bool, empty: bool, modelOk: bool)

  function FlagsOf(e: Evidence): Flags {
    Flags(e.Conflict(), e.forbidden || e.hallucinated, e.Missed(Positive), e.Missed(Negative), e.Missed(Correction),
          e.OverExtract(), e.Empty(), e.ModelOk())
  }

  /** Whether the evidence speaks for a cause. */
  predicate Symptom(e: Evidence, c: Cause) {
    match c
    case RuntimeTimeout => e.timeout
    case RuntimeTruncated => e.truncated
    case RuntimeNonJson => e.nonJson
    case RuntimeSchemaFail => !e.schemaValid && !e.nonJson && !e.timeout
    case ModelForbiddenField => e.forbidden
    case ModelHallucinatedEntity => e.hallucinated
    case ModelConflict => e.Conflict()
    case ModelEmpty => e.Empty()
    case ModelCorrMiss => e.Missed(Correction)
    case ModelPosMiss => e.Missed(Positive)
    case ModelNegMiss => e.Missed(Negative)
    case ModelOverExtract => e.OverExtract() && !e.Empty()
    case Matcher => false
    case Quant => false
  }

  /** The symptoms among the first `k` causes, in order. */
  function Coded(e: Evidence, k: nat): (causes: seq<Cause>)
    requires k <= |CAUSES|
    ensures forall c :: c in causes <==> Symptom(e, c) && Rank(c) < k
    ensures forall i, j :: 0 <= i < j < |causes| ==> Rank(causes[i]) < Rank(causes[j])
  {
    if k == 0 then []
    else
      var before := Coded(e, k - 1);
      assert Rank(CAUSES[k - 1]) == k - 1;
      if Symptom(e, CAUSES[k - 1]) then before + [CAUSES[k - 1]] else before
  }

  /** A row that does not match the annotation always has a cause. */
  lemma FailureHasCause(e: Evidence)
    requires !e.ModelOk() && (e.status != Ok ==> !e.schemaValid)
    ensures Coded(e, |CAUSES|) != []
  {
    var c :=
      if e.timeout then RuntimeTimeout else if e.nonJson then RuntimeNonJson
      else if !e.schemaValid then RuntimeSchemaFail
      else if e.forbidden then ModelForbiddenField else if e.hallucinated then ModelHallucinatedEntity
      else if e.Conflict() then ModelConflict
      else if e.Missed(Positive) then ModelPosMiss else if e.Missed(Negative) then ModelNegMiss
      else if e.Missed(Correction) then ModelCorrMiss else ModelOverExtract;
    assert Symptom(e, c) && Rank(c) < |CAUSES|;
    assert c in Coded(e, |CAUSES|);
  }

  /** `if cond: ordered.append(cause)`, for the cause that is next in the order. */
  method Note(ghost e: Evidence, ordered: seq<Cause>, cond: bool, cause: Cause) returns (r: seq<Cause>)
    requires Rank(cause) < |CAUSES| && ordered == Coded(e, Rank(cause)) && cond == Symptom(e, cause)
    ensures r == Coded(e, Rank(cause) + 1)
  {
    r := if cond then ordered + [cause] else ordered;
  }

  /** Primary cause, secondary causes and flags: the symptoms in order of priority. */
  method AssignCauses(e: Evidence) returns (primary: Option<Cause>, secondary: seq<Cause>, flags: Flags)
    ensures primary.None? <==> Coded(e, |CAUSES|) == []
    ensures primary.None? ==> secondary == []
    ensures primary.Some? ==> [primary.value] + secondary == Coded(e, |CAUSES|)
    ensures flags == FlagsOf(e)
  {
    flags := FlagsOf(e);
    var ordered := OrderedCauses(e);
    var causes := Deduplicate(ordered);
    if causes == [] {
      return None, [], flags;
    }
    return Some(causes[0]), causes[1..], flags;
  }

  /** Where a cause first stands in a list. */
  function First(s: seq<Cause>, c: Cause): (k: nat)
    ensures k <= |s| && (k < |s| <==> c in s)
    ensures k < |s| ==> s[k] == c
    ensures forall j :: 0 <= j < k ==> s[j] != c
  {
    if s == [] || s[0] == c then 0 else 1 + First(s[1..], c)
  }

  /** These causes first stand at increasing places below `n`. */
  predicate InOrder(s: seq<Cause>, causes: seq<Cause>, n: nat) {
    && (forall i, j :: 0 <= i < j < |causes| ==> First(s, causes[i]) < First(s, causes[j]))
    && forall k :: 0 <= k < |causes| ==> First(s, causes[k]) < n
  }

  lemma InOrderNext(s: seq<Cause>, causes: seq<Cause>, n: nat)
    requires n < |s| && InOrder(s, causes, n)
    ensures InOrder(s, causes, n + 1)
    ensures s[n] !in s[..n] ==> InOrder(s, causes + [s[n]], n + 1)
  {
    hide First;
    if s[n] !in s[..n] {
      assert First(s, s[n]) >= n by {
        assert forall j :: 0 <= j < n ==> s[j] in s[..n];
      }
    }
  }

  /** The distinct causes of a list, in the order in which each first occurs. */
  method Deduplicate(ordered: seq<Cause>) returns (causes: seq<Cause>)
    ensures forall c :: c in causes <==> c in ordered
    ensures InOrder(ordered, causes, |ordered|)
    ensures (forall i, j :: 0 <= i < j < |ordered| ==> ordered[i] != ordered[j]) ==> causes == ordered
  {
    var seen: set<Cause> := {};
    causes := [];
    var i := 0;
    assert InOrder(ordered, causes, 0);
    hide InOrder;
    while i < |ordered|
      invariant 0 <= i <= |ordered|
      invariant (forall i, j :: 0 <= i < j < |ordered| ==> ordered[i] != ordered[j]) ==> causes == ordered[..i]
      invariant InOrder(ordered, causes, i)
      invariant forall c :: c in seen <==> c in causes
      invariant forall c :: c in causes <==> c in ordered[..i]
    {
      assert ordered[..i + 1] == ordered[..i] + [ordered[i]];
      InOrderNext(ordered, causes, i);
      if ordered[i] !in seen {
        seen := seen + {ordered[i]};
        causes := causes + [ordered[i]];
      }
      i := i + 1;
    }
    assert ordered[..i] == ordered;
  }

  method RuntimeCauses(e: Evidence) returns (ordered: seq<Cause>)
    ensures ordered == Coded(e, 4)
  {
    ordered := [];
    assert ordered == Coded(e, 0);
    hide Coded;
    ordered := Note(e, ordered, e.timeout, RuntimeTimeout);
    ordered := Note(e, ordered, e.truncated, RuntimeTruncated);
    ordered := Note(e, ordered, e.nonJson, RuntimeNonJson);
    ordered := Note(e, ordered, !e.schemaValid && !e.nonJson && !e.timeout, RuntimeSchemaFail);
  }

  method ProfileCauses(e: Evidence, runtime: seq<Cause>) returns (ordered: seq<Cause>)
    requires runtime == Coded(e, 4)
    ensures ordered == Coded(e, 8)
  {
    hide Coded, Misses, Extras, GoldSet, PredSet;
    ordered := Note(e, runtime, e.forbidden, ModelForbiddenField);
    ordered := Note(e, ordered, e.hallucinated, ModelHallucinatedEntity);
    ordered := Note(e, ordered, e.Conflict(), ModelConflict);
    ordered := Note(e, ordered, e.Empty(), ModelEmpty);
  }

  method OrderedCauses(e: Evidence) returns (ordered: seq<Cause>)
    ensures ordered == Coded(e, |CAUSES|)
  {
    hide Coded, Misses, Extras, GoldSet, PredSet;
    ordered := RuntimeCauses(e);
    ordered := ProfileCauses(e, ordered);
    ordered := Note(e, ordered, e.Missed(Correction), ModelCorrMiss);
    ordered := Note(e, ordered, e.Missed(Positive), ModelPosMiss);
    ordered := Note(e, ordered, e.Missed(Negative), ModelNegMiss);
    ordered := Note(e, ordered, e.OverExtract() && !e.Empty(), ModelOverExtract);
  }

  // ---------- one exported row ----------

  /** What came back as text: nothing, blanks, no JSON, JSON that is no object (truthy or
      not), or an object with or without the two keys the schema needs. */
  datatype Body = NoText | Blank | NotJson | NotObject(truthy: bool) | Object(intent: bool, constraints: bool)

  /** A call's outcome; `view`, `forbidden` and `hallucinated` are read off a parsed profile. */
  datatype Reply = Reply(
    timeout: bool, httpError: bool, truncated: bool, body: Body,
    view: View, forbidden: bool, hallucinated: bool, latency: real)

  datatype Pattern =
    | NegSimple | CorrectionXNotY | CorrectionRetraction | NegationOfNegation
    | MultiPosSingleNeg | BudgetPlusCorrection | Slang | Other

  /** One evaluated utterance: its annotation, the linguistic patterns found in it, the reply. */
  datatype Sample = Sample(gold: View, patterns: seq<Pattern>, reply: Reply)

  /** A stored row; `hasRaw` says whether it has the key for the raw response. */
  datatype Row = Row(
    gold: View, pred: View, schemaValid: bool, truncated: bool, timeout: bool, nonJson: bool, status: Status,
    latency: real, patterns: seq<Pattern>, primary: Option<Cause>, secondary: seq<Cause>, flags: Flags,
    skipped: bool, hasRaw: bool)

  function StatusOf(r: Reply): Status {
    if r.timeout then Timeout
    else if r.httpError && r.body == NoText then ProviderError
    else match r.body
      case NoText => EmptyOutput
      case Blank => EmptyOutput
      case NotJson => if r.truncated then Truncated else InvalidSchema
      case NotObject(_) => InvalidSchema
      case Object(intent, constraints) => if intent && constraints then Ok else InvalidSchema
  }

  /** The text was looked at and held no JSON object. */
  predicate NonJson(r: Reply) { !r.timeout && !(r.httpError && r.body == NoText) && !r.body.Object? }

  predicate HasProfile(r: Reply) { !r.timeout && r.body.Object? }

  /** Reading the fields of a parsed value that is not an object fails unless it is falsy. */
  predicate Crashes(r: Reply) { !r.timeout && r.body == NotObject(true) }

  /** The arguments the exporter passes to the coder. */
  function EvidenceOf(s: Sample): Evidence {
    var r := s.reply;
    Evidence(StatusOf(r), s.gold, if HasProfile(r) then r.view else NO_VIEW,
             StatusOf(r) == Ok, HasProfile(r) && r.forbidden, HasProfile(r) && r.hallucinated,
             r.truncated || StatusOf(r) == Truncated, r.timeout, NonJson(r))
  }

  /** The stored causes: those of the coder, unless the reply matches the annotation. */
  function StoredCauses(e: Evidence): (causes: seq<Cause>)
    ensures forall c :: c in causes ==> Rank(c) < |CAUSES|
    ensures forall i, j :: 0 <= i < j < |causes| ==> Rank(causes[i]) < Rank(causes[j])
  {
    if e.ModelOk() then [] else Coded(e, |CAUSES|)
  }

  ghost predicate IsExportOf(row: Row, s: Sample) {
    var e, causes := EvidenceOf(s), StoredCauses(EvidenceOf(s));
    && row.gold == e.gold && row.pred == e.pred && row.schemaValid == e.schemaValid && row.truncated == e.truncated
    && row.timeout == e.timeout && row.nonJson == e.nonJson && row.status == e.status
    && row.latency == s.reply.latency && row.patterns == s.patterns && row.flags == FlagsOf(e)
    && !row.skipped && row.hasRaw
    && row.primary == (if causes == [] then None else Some(causes[0]))
    && row.secondary == (if causes == [] then [] else causes[1..])
  }

  method ExportRow(s: Sample) returns (row: Option<Row>)
    ensures row.None? <==> Crashes(s.reply)
    ensures row.Some? ==> IsExportOf(row.value, s)
  {
    var r := s.reply;
    var nonJson, schemaValid, status, profile := false, false, Ok, false;
    if r.timeout {
      status := Timeout;
    } else if r.httpError && r.body == NoText {
      status := ProviderError;
    } else if r.body == NoText || r.body == Blank {
      status, nonJson := EmptyOutput, true;
    } else {
      match r.body {
        case Object(intent, constraints) =>
          profile := true;
          if intent && constraints {
            schemaValid := true;
          } else {
            status := InvalidSchema;
          }
        case NotObject(truthy) =>
          nonJson, status := true, InvalidSchema;
          if truthy {
            return None;
          }
        case NotJson =>
          nonJson, status := true, if r.truncated then Truncated else InvalidSchema;
      }
    }
    var view := if profile then r.view else NO_VIEW;
    var e := Evidence(status, s.gold, view, schemaValid && status == Ok, profile && r.forbidden,
                      profile && r.hallucinated, r.truncated || status == Truncated, r.timeout, nonJson);
    assert e == EvidenceOf(s);
    var primary, secondary, flags := AssignCauses(e);
    if flags.modelOk {
      primary, secondary := None, [];
    }
    row := Some(Row(s.gold, view, schemaValid && !nonJson && status == Ok,
                    r.truncated || status == Truncated, r.timeout, nonJson, status, r.latency,
                    s.patterns, primary, secondary, flags, false, true));
  }

  ghost predicate IsExport(rows: seq<Row>, samples: seq<Sample>) {
    |rows| == |samples| && forall i :: 0 <= i < |rows| ==> IsExportOf(rows[i], samples[i])
  }

  /** The export succeeds unless some reply is a truthy non-object. */
  method Export(samples: seq<Sample>) returns (ok: bool, rows: seq<Row>)
    ensures ok <==> forall s :: s in samples ==> !Crashes(s.reply)
    ensures ok ==> IsExport(rows, samples)
  {
    ok, rows := true, [];
    hide IsExportOf, Crashes;
    var i := 0;
    while i < |samples|
      invariant 0 <= i <= |samples|
      invariant IsExport(rows, samples[..i])
      invariant forall j :: 0 <= j < i ==> !Crashes(samples[j].reply)
    {
      var row := ExportRow(samples[i]);
      if row.None? {
        assert samples[i] in samples;
        return false, rows;
      }
      rows := rows + [row.value];
      i := i + 1;
    }
    assert samples[..i] == samples;
  }

  // ---------- what every exported row satisfies ----------

  /** A row has no primary cause exactly when the reply matches the annotation; it then has no
      secondary cause either. */
  lemma NoCauseIffModelOk(row: Row, s: Sample)
    requires IsExportOf(row, s)
    ensures row.primary.None? <==> row.flags.modelOk
    ensures row.primary.None? ==> row.secondary == []
  {
    var e := EvidenceOf(s);
    if !e.ModelOk() {
      FailureHasCause(e);
    }
  }

  lemma RankedTail(causes: seq<Cause>)
    requires causes != [] && forall c :: c in causes ==> Rank(c) < |CAUSES|
    requires forall i, j :: 0 <= i < j < |causes| ==> Rank(causes[i]) < Rank(causes[j])
    ensures causes[0] in causes
    ensures forall c :: c in causes[1..] ==> Rank(causes[0]) < Rank(c) < |CAUSES|
    ensures forall i, j :: 0 <= i < j < |causes[1..]| ==> Rank(causes[1..][i]) < Rank(causes[1..][j])
  {
  }

  /** The secondary causes are distinct, rank below the primary one, and neither QUANT nor
      MATCHER is ever stored. */
  lemma StoredCausesRanked(row: Row, s: Sample)
    requires IsExportOf(row, s)
    ensures row.primary.Some? ==> IsRuntime(row.primary.value) != IsModel(row.primary.value)
    ensures forall c :: c in row.secondary ==> row.primary.Some? && Rank(row.primary.value) < Rank(c) < |CAUSES|
    ensures forall i, j :: 0 <= i < j < |row.secondary| ==> Rank(row.secondary[i]) < Rank(row.secondary[j])
  {
    hide EvidenceOf, FlagsOf, Symptom, StoredCauses;
    var causes := StoredCauses(EvidenceOf(s));
    if causes != [] {
      RankedTail(causes);
    }
  }

  lemma NoMissIsSubset(e: Evidence, ch: Channel)
    ensures !e.Missed(ch) <==> GoldSet(e.gold, ch) <= PredSet(e.gold, e.pred, ch)
    ensures Extras(e.gold, e.pred, ch) == {} <==> PredSet(e.gold, e.pred, ch) <= GoldSet(e.gold, ch)
  {
    var g, p := GoldSet(e.gold, ch), PredSet(e.gold, e.pred, ch);
    forall t | t in g && !e.Missed(ch) ensures t in p {
      assert t !in g - p;
    }
    forall t | t in p && Extras(e.gold, e.pred, ch) == {} ensures t in g {
      assert t !in p - g;
    }
  }

  /** The exact-match verdict in terms of the annotation alone. */
  lemma ModelOkMeans(row: Row, s: Sample)
    requires IsExportOf(row, s)
    ensures row.flags.modelOk <==>
      && row.status == Ok && !row.flags.forbidden
      && row.pred.positive == row.gold.positive && row.pred.negative == row.gold.negative
      && row.gold.positive !! row.gold.negative
      && GoldSet(row.gold, Correction) <= PredSet(row.gold, row.pred, Correction)
  {
    var e := EvidenceOf(s);
    assert row.flags == FlagsOf(e);
    NoMissIsSubset(e, Positive);
    NoMissIsSubset(e, Negative);
    NoMissIsSubset(e, Correction);
    hide Misses, Extras;
  }
}
