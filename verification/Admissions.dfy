/** Approvals and bypasses take effect among concurrent requests, too. */
module Admissions {
  import opened Tables
  import opened Quarantine
  import opened Runs
  import opened Laws
  import opened Reports
  import opened Machine
  import opened Protocol
  import opened StableRuns
  import opened Operators

  /** The override is in the tables: an approval of the digest, or a bypass of the tag. */
  ghost predicate InForceFor(db: Database, c: Call, approval: bool) {
    var about := Initial(c).subject;
    if approval then Approved(db, about.image, about.digest, c.now) else Bypassing(db, about.image, c.now)
  }

  predicate Overriding(p: Process) {
    p.view.approval.Some? || p.view.bypass.Some?
  }

  /** Where the request may be, once the override is there. */
  predicate Bound(p: Process, approval: bool) {
    match p.pc
    case AtFreeze => Undecided(p)
    case AtApproval => Undecided(p)
    case AtBypass => Undecided(p) && (approval ==> p.view.approval.Some?)
    case AtLookup => Undecided(p) && p.view.freeze.None? && Overriding(p)
    case AtInsert => Undecided(p) && p.view.freeze.None? && Overriding(p)
    case AtReread => Undecided(p) && p.view.freeze.None? && Overriding(p)
    case AtTouch => Undecided(p) && p.view.freeze.None? && Overriding(p)
    case AtCacheRead => !p.decision.allowed && !p.decision.standing.frozen && p.call.policy.cosign.required
    case AtCacheWrite => !p.decision.allowed && !p.decision.standing.frozen && p.answer.success
    case AtMark => !p.decision.allowed && !p.decision.standing.frozen
    case _ => p.decision.allowed || p.decision.standing.frozen
  }

  ghost predicate OnItsTrack(p: Process, c: Call, db: Database, approval: bool) {
    && p.call == c && p.failure.None? && p.decision.subject == Initial(c).subject
    && InForceFor(db, c, approval) && (p.decision.standing.frozen ==> p.view.freeze.Some?)
    && Bound(p, approval)
  }

  lemma {:induction false} OverridesAreRead(p: Process, c: Call, db: Database, approval: bool)
    requires OnItsTrack(p, c, db, approval) && Ready(c) && (p.pc.AtFreeze? || p.pc.AtApproval? || p.pc.AtBypass?)
    ensures OnItsTrack(StepRead(p, db), c, db, approval)
  {
    ReadsMeaning(db, p.decision.subject.image, p.decision.subject.digest, c.now);
  }

  lemma {:induction false} ObservationIsRead(p: Process, c: Call, db: Database, approval: bool)
    requires OnItsTrack(p, c, db, approval) && Ready(c) && (p.pc.AtLookup? || p.pc.AtInsert? || p.pc.AtReread?)
    requires p.pc.AtReread? ==> exists t :: Observed(db, Initial(c).subject.image, Initial(c).subject.digest, t)
    requires Valid(db)
    ensures OnItsTrack(StepObservation(p, db).0, c, StepObservation(p, db).1, approval)
  {
    var s := p.decision.subject;
    ObservationFound(db.observations, s.image, s.digest);
  }

  lemma {:induction false} RowIsTouched(p: Process, c: Call, db: Database, approval: bool)
    requires OnItsTrack(p, c, db, approval) && Ready(c) && p.pc.AtTouch? && Stored(db, p)
    ensures OnItsTrack(StepTouch(p, db).0, c, StepTouch(p, db).1, approval)
  {
  }

  lemma {:induction false} CacheIsRead(p: Process, c: Call, db: Database, approval: bool)
    requires OnItsTrack(p, c, db, approval) && Ready(c) && p.pc.AtCacheRead?
    ensures OnItsTrack(StepCacheRead(p, db), c, db, approval)
  {
  }

  lemma {:induction false} CacheIsWritten(p: Process, c: Call, db: Database, approval: bool)
    requires OnItsTrack(p, c, db, approval) && Ready(c) && p.pc.AtCacheWrite?
    ensures OnItsTrack(StepCacheWrite(p, db).0, c, StepCacheWrite(p, db).1, approval)
  {
  }

  lemma {:induction false} RowIsMarked(p: Process, c: Call, db: Database, approval: bool)
    requires OnItsTrack(p, c, db, approval) && Ready(c) && p.pc.AtMark? && Stored(db, p)
    ensures OnItsTrack(StepMark(p, db).0, c, StepMark(p, db).1, approval)
  {
  }

  lemma {:induction false} LogsAreWritten(p: Process, c: Call, w: World, approval: bool)
    requires OnItsTrack(p, c, w.db, approval) && Ready(c) && (p.pc.AtDecision? || p.pc.AtAudit?)
    ensures OnItsTrack(StepLog(p, w).0, c, StepLog(p, w).1.db, approval)
  {
  }

  lemma {:induction false} StepStaysOnTrack(w: World, run: seq<Action>, i: nat, p: Process, c: Call, v: World,
                                            approval: bool)
    requires ProcessOk(w, run, i, p, v.db) && Valid(v.db) && OnItsTrack(p, c, v.db, approval) && Ready(c)
    ensures OnItsTrack(Step(p, v).0, c, Step(p, v).1.db, approval)
  {
    match p.pc
    case AtFreeze => OverridesAreRead(p, c, v.db, approval);
    case AtApproval => OverridesAreRead(p, c, v.db, approval);
    case AtBypass => OverridesAreRead(p, c, v.db, approval);
    case AtLookup => ObservationIsRead(p, c, v.db, approval);
    case AtInsert => ObservationIsRead(p, c, v.db, approval);
    case AtReread => ObservationIsRead(p, c, v.db, approval);
    case AtTouch => RowIsTouched(p, c, v.db, approval);
    case AtCacheRead => CacheIsRead(p, c, v.db, approval);
    case AtCacheWrite => CacheIsWritten(p, c, v.db, approval);
    case AtMark => RowIsMarked(p, c, v.db, approval);
    case AtDecision => LogsAreWritten(p, c, v, approval);
    case AtAudit => LogsAreWritten(p, c, v, approval);
    case _ =>
  }

  lemma {:induction false} OthersStayOnTrack(p: Process, c: Call, before: Database, after: Database, approval: bool)
    requires OnItsTrack(p, c, before, approval) && OverridesStay(before, after)
    ensures OnItsTrack(p, c, after, approval)
  {
  }

  lemma {:induction false} StartsOnTrack(c: Call, db: Database, approval: bool)
    requires Ready(c) && InForceFor(db, c, approval)
    ensures OnItsTrack(Begin(c), c, db, approval)
  {
  }

  /** The request starts at step `m` of the run, as process `i`, when the override is in force. */
  ghost predicate StartsCovered(w: World, run: seq<Action>, m: nat, i: nat, c: Call, approval: bool) {
    && m < |run| && run[m] == Start(c) && i == |After(w, run[..m]).procs|
    && InForceFor(After(w, run[..m]).world.db, c, approval)
  }

  lemma {:induction false} StaysCovered(w: World, run: seq<Action>, m: nat, i: nat, c: Call, approval: bool)
    requires Valid(w.db) && RunOk(run) && Ready(c) && StartsCovered(w, run, m, i, c, approval)
    ensures i < |After(w, run).procs| && OnItsTrack(After(w, run).procs[i], c, After(w, run).world.db, approval)
    decreases |run|
  {
    var n := |run| - 1;
    var before, a := run[..n], run[n];
    assert run == before + [a] && before[..m] == run[..m];
    AfterOne(w, before, a);
    InvariantHolds(w, before);
    if m == n {
      StartsOnTrack(c, After(w, before).world.db, approval);
    } else {
      StaysCovered(w, before, m, i, c, approval);
      ActionStaysOnTrack(w, before, a, i, c, approval);
    }
  }

  lemma {:induction false} ActionStaysOnTrack(w: World, run: seq<Action>, a: Action, i: nat, c: Call, approval: bool)
    requires Invariant(w, run, After(w, run)) && Ready(c)
    requires var s := After(w, run); i < |s.procs| && OnItsTrack(s.procs[i], c, s.world.db, approval)
    ensures var s := Act(After(w, run), a); i < |s.procs| && OnItsTrack(s.procs[i], c, s.world.db, approval)
  {
    var s := After(w, run);
    ActionKeepsOverrides(s, a);
    if a == Advance(i) {
      assert ProcessOk(w, run, i, s.procs[i], s.world.db);
      StepStaysOnTrack(w, run, i, s.procs[i], c, s.world, approval);
    } else {
      OthersStayOnTrack(s.procs[i], c, s.world.db, Act(s, a).world.db, approval);
    }
  }

  /** An override is in force from the action on that adds it. */
  lemma {:induction false} InForceFrom(w: World, run: seq<Action>, k: nat, c: Call)
    requires Valid(w.db) && RunOk(run) && k < |run|
    ensures var about, db := Initial(c).subject, After(w, run).world.db;
            && (run[k].AddApproval? && ApprovalApplies(run[k].approval, about.image, about.digest, c.now) ==>
                  InForceFor(db, c, true))
            && (run[k].AddBypass? && BypassApplies(run[k].bypass, about.image, c.now) ==> InForceFor(db, c, false))
  {
    var upTo := run[..k + 1];
    assert upTo == run[..k] + [run[k]];
    AfterOne(w, run[..k], run[k]);
    InvariantHolds(w, run[..k]);
    var before := After(w, run[..k]).world.db;
    if run[k].AddApproval? { ApprovalAdds(before, run[k].approval); }
    if run[k].AddBypass? { BypassAdds(before, run[k].bypass); }
    OverridesStayInRun(w, run, k + 1);
  }

  /** The command covers the request. */
  predicate Covers(a: Action, c: Call) {
    || (a.AddApproval? && ApprovalApplies(a.approval, ImageOf(c), DigestOf(c), c.now))
    || (a.AddBypass? && BypassApplies(a.bypass, ImageOf(c), c.now))
  }

  /**
   An approval or a bypass takes effect among concurrent requests: one that starts after it, that it covers and whose
   signature, if one is required, is accepted, ends allowed without an error, unless it reads an active freeze.
   */
  lemma {:induction false} OverrideAdmitsRequests(w: World, run: seq<Action>, k: nat, m: nat, i: nat, c: Call)
    requires Valid(w.db) && RunOk(run) && Ready(c) && k < m < |run| && Covers(run[k], c)
    requires run[m] == Start(c) && i == |After(w, run[..m]).procs|
    ensures i < |After(w, run).procs|
    ensures var p := After(w, run).procs[i];
            Settled(p.pc) ==> p.failure.None? && (p.decision.allowed || SawFreeze(w, run, i))
  {
    assert run[..m][k] == run[k];
    BeginsAbout(c);
    InForceFrom(w, run[..m], k, c);
    StaysCovered(w, run, m, i, c, run[k].AddApproval?);
    FreezesAreSeen(w, run, i);
  }
}
