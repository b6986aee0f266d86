/** Dual control over the golden cases under concurrency. */
module GoldenProtocol {
  import opened Prelude

  // Any number of approval runs work on one table. A run captures the version of every row that
  // awaits review, and later issues two conditional updates per row: prepare, which needs the
  // captured version, and approve, which needs the version after that and a preparer other than
  // the reviewer. Each update is atomic; nothing else is coordinated. A run here may try every row
  // it captured, any number of times and in any order; the script tries a row once, in id order,
  // and only while its label still has a need, so its runs are among the modelled ones.

  datatype Status =
    | Observed | Anonymized | Candidate | ReviewRequired | NeedsRevision
    | Approved | Active | Rejected | Archived

  /** `approvals` counts how often the approve update has matched the row. */
  datatype Case = Case(
    status: Status,
    preparedBy: Option<string>,
    reviewedBy: Option<string>,
    rowVersion: int,
    approvals: nat)

  /** One call of `dual_control_approve`, with the versions it read at its start. */
  datatype Session = Session(preparer: string, reviewer: string, captured: map<nat, int>)

  datatype Db = Db(cases: map<nat, Case>, sessions: seq<Session>)

  datatype Step =
    | Insert(id: nat)
    | Start(preparer: string, reviewer: string)
    | Prepare(session: nat, id: nat)
    | Approve(session: nat, id: nat)

  predicate AwaitsReview(c: Case) { c.status == ReviewRequired || c.status == NeedsRevision }

  /** The versions of the rows that await review. */
  function Capture(cases: map<nat, Case>): (m: map<nat, int>)
    ensures forall id :: id in m <==> id in cases && AwaitsReview(cases[id])
    ensures forall id :: id in m ==> m[id] == cases[id].rowVersion
  {
    map id | id in cases && AwaitsReview(cases[id]) :: cases[id].rowVersion
  }

  /** Whether the WHERE clause of the prepare update matches. */
  predicate CanPrepare(db: Db, s: nat, id: nat) {
    && s < |db.sessions| && id in db.sessions[s].captured && id in db.cases
    && db.cases[id].rowVersion == db.sessions[s].captured[id]
  }

  predicate CanApprove(db: Db, s: nat, id: nat) {
    && s < |db.sessions| && id in db.sessions[s].captured && id in db.cases
    && db.cases[id].rowVersion == db.sessions[s].captured[id] + 1
    && db.cases[id].preparedBy.Some? && db.cases[id].preparedBy.value != db.sessions[s].reviewer
  }

  function Prepared(c: Case, preparer: string): Case {
    c.(preparedBy := Some(preparer), rowVersion := c.rowVersion + 1)
  }

  function ApprovedBy(c: Case, reviewer: string): Case {
    c.(reviewedBy := Some(reviewer), status := Status.Approved, rowVersion := c.rowVersion + 1,
       approvals := c.approvals + 1)
  }

  /** An update whose WHERE clause does not match changes nothing; a run that names the
      same person twice is refused. */
  function Next(db: Db, step: Step): Db {
    match step
    case Insert(id) =>
      if id in db.cases then db else db.(cases := db.cases[id := Case(ReviewRequired, None, None, 1, 0)])
    case Start(preparer, reviewer) =>
      if preparer == reviewer then db
      else db.(sessions := db.sessions + [Session(preparer, reviewer, Capture(db.cases))])
    case Prepare(s, id) =>
      if !CanPrepare(db, s, id) then db
      else db.(cases := db.cases[id := Prepared(db.cases[id], db.sessions[s].preparer)])
    case Approve(s, id) =>
      if !CanApprove(db, s, id) then db
      else db.(cases := db.cases[id := ApprovedBy(db.cases[id], db.sessions[s].reviewer)])
  }

  function Run(db: Db, steps: seq<Step>): Db
    decreases |steps|
  {
    if steps == [] then db else Run(Next(db, steps[0]), steps[1..])
  }

  /** How a step can change a row. Preparing needs the version its session captured, approving the
      version after that and a stored preparer other than the session's reviewer; both raise the
      version by one, and nothing else ever changes a row or removes one. */
  lemma RowChanges(db: Db, step: Step, id: nat)
    requires id in db.cases
    ensures var c, r := db.cases[id], Next(db, step);
      id in r.cases && (r.cases[id] != c ==>
        && (step.Prepare? || step.Approve?) && step.id == id && step.session < |db.sessions|
        && var s := db.sessions[step.session];
        && id in s.captured
        && (step.Prepare? ==>
              && c.rowVersion == s.captured[id]
              && r.cases[id] == Case(c.status, Some(s.preparer), c.reviewedBy, c.rowVersion + 1, c.approvals))
        && (step.Approve? ==>
              && c.rowVersion == s.captured[id] + 1 && c.preparedBy.Some? && c.preparedBy.value != s.reviewer
              && r.cases[id]
                 == Case(Status.Approved, c.preparedBy, Some(s.reviewer), c.rowVersion + 1, c.approvals + 1)))
  {
    hide Capture;
  }

  /** Rows come in for review with the first version; a session captures the rows that wait for
      review, unless it names one person twice. */
  lemma NewEntries(db: Db, id: nat, p: string, r: string)
    ensures id !in db.cases ==> Next(db, Insert(id)).cases == db.cases[id := Case(ReviewRequired, None, None, 1, 0)]
    ensures p == r ==> Next(db, Start(p, r)) == db
    ensures p != r ==>
      var sessions := Next(db, Start(p, r)).sessions;
      && |sessions| == |db.sessions| + 1 && sessions[..|db.sessions|] == db.sessions
      && var s := sessions[|db.sessions|];
      && s.preparer == p && s.reviewer == r
      && forall i :: i in s.captured <==> i in db.cases && db.cases[i].status in {ReviewRequired, NeedsRevision}
  {
  }

  // ---------- safety ----------

  /** Prepared by one person and reviewed by another. */
  predicate DualControlled(c: Case) {
    c.preparedBy.Some? && c.reviewedBy.Some? && c.preparedBy != c.reviewedBy
  }

  /** No session holds a version of this row that could still match after `margin` updates. */
  ghost predicate Stale(db: Db, id: nat, margin: nat)
    requires id in db.cases
  {
    forall s :: 0 <= s < |db.sessions| && id in db.sessions[s].captured ==>
      db.sessions[s].captured[id] + margin < db.cases[id].rowVersion
  }

  ghost predicate CaseInv(db: Db, id: nat)
    requires id in db.cases
  {
    var c := db.cases[id];
    && (c.approvals > 0 ==> c.status == Status.Approved)
    && c.approvals <= 2
    && (c.status == Status.Approved ==> DualControlled(c) && Stale(db, id, 0))
    && (c.approvals == 2 ==> Stale(db, id, 1))
  }

  ghost predicate SessionInv(db: Db, s: nat)
    requires s < |db.sessions|
  {
    var r := db.sessions[s];
    && r.preparer != r.reviewer
    && forall id :: id in r.captured ==> id in db.cases && r.captured[id] <= db.cases[id].rowVersion
  }

  ghost predicate Inv(db: Db) {
    && (forall id :: id in db.cases ==> CaseInv(db, id))
    && (forall s :: 0 <= s < |db.sessions| ==> SessionInv(db, s))
  }

  /** The key to everything: a version captured before an approval is smaller than the
      approved version, so no prepare can fire on an approved row. */
  lemma NoPrepareOnApproved(db: Db, s: nat, id: nat)
    requires Inv(db) && id in db.cases && db.cases[id].status == Status.Approved
    ensures !CanPrepare(db, s, id)
  {
    assert CaseInv(db, id);
  }

  lemma StartKeepsInv(db: Db, preparer: string, reviewer: string)
    requires Inv(db)
    ensures Inv(Next(db, Start(preparer, reviewer)))
  {
    var r := Next(db, Start(preparer, reviewer));
    forall id | id in r.cases ensures CaseInv(r, id) {
      assert CaseInv(db, id);
    }
    forall s | 0 <= s < |r.sessions| ensures SessionInv(r, s) {
      if s < |db.sessions| {
        assert SessionInv(db, s);
      }
    }
  }

  lemma InsertKeepsInv(db: Db, id: nat)
    requires Inv(db)
    ensures Inv(Next(db, Insert(id)))
  {
    var r := Next(db, Insert(id));
    forall i | i in r.cases ensures CaseInv(r, i) {
      assert i in db.cases ==> CaseInv(db, i);
    }
    forall s | 0 <= s < |r.sessions| ensures SessionInv(r, s) {
      assert SessionInv(db, s);
    }
  }

  /** Updating one case to a later version keeps the rest. */
  lemma UpdateKeepsInv(db: Db, id: nat, c: Case)
    requires Inv(db) && id in db.cases && c.rowVersion >= db.cases[id].rowVersion
    requires CaseInv(db.(cases := db.cases[id := c]), id)
    ensures Inv(db.(cases := db.cases[id := c]))
  {
    var r := db.(cases := db.cases[id := c]);
    forall i | i in r.cases ensures CaseInv(r, i) {
      if i != id {
        assert CaseInv(db, i);
      }
    }
    forall s | 0 <= s < |r.sessions| ensures SessionInv(r, s) {
      assert SessionInv(db, s);
    }
  }

  lemma PrepareKeepsInv(db: Db, s: nat, id: nat)
    requires Inv(db) && CanPrepare(db, s, id)
    ensures Inv(Next(db, Prepare(s, id)))
  {
    assert CaseInv(db, id);
    UpdateKeepsInv(db, id, Prepared(db.cases[id], db.sessions[s].preparer));
  }

  lemma ApproveKeepsInv(db: Db, s: nat, id: nat)
    requires Inv(db) && CanApprove(db, s, id)
    ensures Inv(Next(db, Approve(s, id)))
  {
    assert CaseInv(db, id);
    forall t | 0 <= t < |db.sessions| && id in db.sessions[t].captured
      ensures db.sessions[t].captured[id] <= db.cases[id].rowVersion
    {
      assert SessionInv(db, t);
    }
    UpdateKeepsInv(db, id, ApprovedBy(db.cases[id], db.sessions[s].reviewer));
  }

  lemma {:induction false} RunKeepsInv(db: Db, steps: seq<Step>)
    requires Inv(db)
    ensures Inv(Run(db, steps))
    decreases |steps|
  {
    if steps != [] {
      match steps[0] {
        case Insert(id) => InsertKeepsInv(db, id);
        case Start(p, r) => StartKeepsInv(db, p, r);
        case Prepare(s, id) =>
          if CanPrepare(db, s, id) {
            PrepareKeepsInv(db, s, id);
          }
        case Approve(s, id) =>
          if CanApprove(db, s, id) {
            ApproveKeepsInv(db, s, id);
          }
      }
      RunKeepsInv(Next(db, steps[0]), steps[1..]);
    }
  }

  /** A table nobody works on, whose approved rows are in order. */
  ghost predicate Fresh(db: Db) {
    db.sessions == [] && forall id :: id in db.cases ==>
      db.cases[id].approvals == 0 && (db.cases[id].status == Status.Approved ==> DualControlled(db.cases[id]))
  }

  /** What the audit query counts. */
  function Violations(db: Db): set<nat> {
    set id | id in db.cases && db.cases[id].status == Status.Approved && !DualControlled(db.cases[id])
  }

  /** In every interleaving of any number of runs: every approved row was prepared and
      reviewed by two people, the audit finds nothing, and no row is approved more than twice. */
  lemma DualControlHolds(db: Db, steps: seq<Step>)
    requires Fresh(db)
    ensures Violations(Run(db, steps)) == {}
    ensures forall id :: id in Run(db, steps).cases ==> Run(db, steps).cases[id].approvals <= 2
  {
    forall id | id in db.cases ensures CaseInv(db, id) {
    }
    RunKeepsInv(db, steps);
    var r := Run(db, steps);
    forall id | id in r.cases ensures CaseInv(r, id) {
    }
  }

  /** Once approved, a row stays approved with the preparer it was approved with. */
  lemma {:induction false} ApprovalIsFinal(db: Db, steps: seq<Step>, id: nat)
    requires Inv(db) && id in db.cases && db.cases[id].status == Status.Approved
    ensures var r := Run(db, steps);
      id in r.cases && r.cases[id].status == Status.Approved && r.cases[id].preparedBy == db.cases[id].preparedBy
    decreases |steps|
  {
    if steps != [] {
      RunKeepsInv(db, [steps[0]]);
      assert Run(db, [steps[0]]) == Next(db, steps[0]) by {
        assert [steps[0]][1..] == [];
      }
      if steps[0].Prepare? && steps[0].id == id {
        NoPrepareOnApproved(db, steps[0].session, id);
      }
      ApprovalIsFinal(Next(db, steps[0]), steps[1..], id);
    }
  }

  // ---------- the second approval ----------

  /** An approve that can still match an approved row comes from a session that was there when
      the row was approved and could already match it then. */
  lemma StillApprovable(db: Db, step: Step, s: nat, id: nat)
    requires Inv(db) && id in db.cases && db.cases[id].status == Status.Approved
    requires CanApprove(Next(db, step), s, id)
    ensures CanApprove(db, s, id)
  {
    NoPrepareOnApproved(db, if step.Prepare? then step.session else 0, id);
    assert CaseInv(db, id);
  }

  lemma {:induction false} NoLateSession(db: Db, steps: seq<Step>, s: nat, id: nat)
    requires Inv(db) && id in db.cases && db.cases[id].status == Status.Approved
    requires CanApprove(Run(db, steps), s, id)
    ensures CanApprove(db, s, id)
    decreases |steps|
  {
    if steps != [] {
      var next := Next(db, steps[0]);
      assert Run(db, [steps[0]]) == next by {
        assert [steps[0]][1..] == [];
      }
      RunKeepsInv(db, [steps[0]]);
      ApprovalIsFinal(db, [steps[0]], id);
      hide Inv, Next, CanApprove;
      NoLateSession(next, steps[1..], s, id);
      StillApprovable(db, steps[0], s, id);
    }
  }

  /** Without such a session the row never changes again. */
  lemma {:induction false} UntouchedWithoutIt(db: Db, steps: seq<Step>, id: nat)
    requires Inv(db) && id in db.cases && db.cases[id].status == Status.Approved
    requires forall s :: !CanApprove(db, s, id)
    ensures id in Run(db, steps).cases && Run(db, steps).cases[id] == db.cases[id]
    decreases |steps|
  {
    if steps != [] {
      var next := Next(db, steps[0]);
      assert Run(db, [steps[0]]) == next by {
        assert [steps[0]][1..] == [];
      }
      RunKeepsInv(db, [steps[0]]);
      ApprovalIsFinal(db, [steps[0]], id);
      forall s ensures !CanApprove(next, s, id) {
        if CanApprove(next, s, id) {
          StillApprovable(db, steps[0], s, id);
        }
      }
      NoPrepareOnApproved(db, if steps[0].Prepare? then steps[0].session else 0, id);
      assert next.cases[id] == db.cases[id];
      UntouchedWithoutIt(next, steps[1..], id);
    }
  }

  ghost predicate ApprovedAgain(db: Db, steps: seq<Step>, id: nat)
    requires id in db.cases
  {
    id in Run(db, steps).cases && Run(db, steps).cases[id].approvals > db.cases[id].approvals
  }

  /** An approved row can be approved once more if and only if a session that has already
      started captured the version just below the approved one and names a reviewer other than
      the stored preparer. */
  lemma SecondApprovalIff(db: Db, id: nat)
    requires Inv(db) && id in db.cases && db.cases[id].status == Status.Approved
    ensures (exists steps :: ApprovedAgain(db, steps, id)) <==> exists s :: CanApprove(db, s, id)
  {
    if s :| CanApprove(db, s, id) {
      assert Run(db, [Approve(s, id)]) == Next(db, Approve(s, id)) by {
        assert [Approve(s, id)][1..] == [];
      }
      assert ApprovedAgain(db, [Approve(s, id)], id);
    } else {
      forall steps ensures !ApprovedAgain(db, steps, id) {
        UntouchedWithoutIt(db, steps, id);
      }
    }
  }

  const WAITING := Case(ReviewRequired, None, None, 1, 0)

  /** Two runs: the second reads the table between the first one's prepare and approve. */
  function Race(): seq<Step> {
    [Start("ada", "bora"), Prepare(0, 7), Start("can", "deniz"), Approve(0, 7), Prepare(1, 7), Approve(1, 7)]
  }

  lemma RunSix(db: Db, s: seq<Step>)
    requires |s| == 6
    ensures Run(db, s) == Next(Next(Next(Next(Next(Next(db, s[0]), s[1]), s[2]), s[3]), s[4]), s[5])
  {
    hide Next;
    RunThree(db, s);
    RunThree(Next(Next(Next(db, s[0]), s[1]), s[2]), s[3..]);
    assert s[3..][3..] == [];
  }

  lemma RunThree(db: Db, s: seq<Step>)
    requires |s| >= 3
    ensures Run(db, s) == Run(Next(Next(Next(db, s[0]), s[1]), s[2]), s[3..])
  {
    hide Next;
    assert s[1..][1..] == s[2..] && s[2..][1..] == s[3..];
    assert Run(db, s) == Run(Next(db, s[0]), s[1..]);
    assert Run(Next(db, s[0]), s[1..]) == Run(Next(Next(db, s[0]), s[1]), s[2..]);
  }

  lemma RaceToFirstApproval(c1: Case, s0: Session, s1: Session)
    requires c1 == WAITING.(preparedBy := Some("ada"), rowVersion := 2)
    requires s0 == Session("ada", "bora", map[7 := 1]) && s1 == Session("can", "deniz", map[7 := 2])
    ensures Next(Next(Next(Db(map[7 := WAITING], []), Start("ada", "bora")), Prepare(0, 7)), Start("can", "deniz"))
         == Db(map[7 := c1], [s0, s1])
  {
    assert Capture(map[7 := WAITING]) == map[7 := 1];
    assert Next(Db(map[7 := WAITING], []), Start("ada", "bora")) == Db(map[7 := WAITING], [s0]);
    assert Next(Db(map[7 := WAITING], [s0]), Prepare(0, 7)) == Db(map[7 := c1], [s0]);
    assert Capture(map[7 := c1]) == map[7 := 2];
  }

  /** The approve of a run whose own prepare matched nothing can still re-approve a row:
      it read the version another run had prepared, and that run then approved it. */
  lemma SecondApprovalHappens()
    ensures Fresh(Db(map[7 := WAITING], []))
    ensures 7 in Run(Db(map[7 := WAITING], []), Race()).cases
    ensures Run(Db(map[7 := WAITING], []), Race()).cases[7] == Case(Status.Approved, Some("ada"), Some("deniz"), 4, 2)
  {
    var c1 := WAITING.(preparedBy := Some("ada"), rowVersion := 2);
    var s0, s1 := Session("ada", "bora", map[7 := 1]), Session("can", "deniz", map[7 := 2]);
    RunSix(Db(map[7 := WAITING], []), Race());
    hide Run, Capture;
    RaceToFirstApproval(c1, s0, s1);
    assert Next(Db(map[7 := c1], [s0, s1]), Approve(0, 7)) == Db(map[7 := ApprovedBy(c1, "bora")], [s0, s1]);
  }
}
