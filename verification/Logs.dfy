/** The decision table and the audit log agree: for one request, and over every interleaving. */
module Logs {
  import opened Policy
  import opened Tables
  import opened Quarantine
  import opened Runs
  import opened Machine

  // ---------------------------------------------------------------- one request

  /** What a request about `s` leaves in the two logs, given how it ended. */
  ghost predicate Logs(w: World, c: Call, s: Subject, after: World, outcome: Outcome) {
    match outcome.failure
    case None =>
      && outcome.decision.subject == s
      && after.db.decisions == Insert(w.db.decisions, DecisionRow(Unix(c.now), EntryOf(c, outcome.decision)))
      && after.audit == (if c.audited then w.audit + [EventOf(c, outcome.decision)] else w.audit)
    case Some(f) =>
      && after.audit == w.audit
      && after.db.decisions == (if f == Failed(WriteAudit)
                                then Insert(w.db.decisions, DecisionRow(Unix(c.now), EntryOf(c, outcome.decision)))
                                else w.db.decisions)
  }

  lemma {:induction false} RecordLogs(w: World, v: World, c: Call, d: Decision)
    requires v.db.decisions == w.db.decisions && v.audit == w.audit
    ensures Logs(w, c, d.subject, Record(v, c, d).0, Record(v, c, d).1)
  {
  }

  lemma {:induction false} VerificationLogsNothing(db: Database, c: Call, id: int, d: Decision)
    ensures VerifyCosign(db, c, d).0.decisions == db.decisions
    ensures AllowWithVerification(db, c, id, d).0.decisions == db.decisions
  {
  }

  lemma {:induction false} VerificationKeepsSubject(db: Database, c: Call, id: int, d: Decision)
    ensures VerifyCosign(db, c, d).1.subject == d.subject
    ensures AllowWithVerification(db, c, id, d).1.subject == d.subject
  {
    VerifyCosignDecision(db, c, d);
    var (verified, d', passed) := VerifyCosign(db, c, d);
    MarkKeepsSubject(verified, c, id, d');
    MarkKeepsSubject(db, c, id, d);
  }

  lemma {:induction false} MarkKeepsSubject(db: Database, c: Call, id: int, d: Decision)
    ensures MarkAndAllow(db, c, id, d).1.subject == d.subject
  {
  }

  lemma {:induction false} AllowLogs(w: World, v: World, c: Call, id: int, d: Decision)
    requires v.db.decisions == w.db.decisions && v.audit == w.audit
    ensures var (db, d') := AllowWithVerification(v.db, c, id, d);
            var (after, outcome) := Record(v.(db := db), c, d');
            Logs(w, c, d.subject, after, outcome)
  {
    VerificationLogsNothing(v.db, c, id, d);
    VerificationKeepsSubject(v.db, c, id, d);
    var (db, d') := AllowWithVerification(v.db, c, id, d);
    RecordLogs(w, v.(db := db), c, d');
  }

  lemma {:induction false} FirstSeenLogs(w: World, c: Call, d: Decision, o: Override)
    ensures var (after, outcome) := DecideFirstSeen(w, c, d, o); Logs(w, c, d.subject, after, outcome)
  {
    var inserted := w.(db := w.db.(observations :=
      InsertObservation(w.db.observations, d.subject.image, d.subject.digest, Unix(c.now))));
    var found := GetObservation(inserted.db.observations, d.subject.image, d.subject.digest);
    if InsertNew !in c.faults && RereadObservation !in c.faults && found.Some? {
      var obs := found.value;
      var seen := Seen(d, obs.firstSeenAt);
      AllowLogs(w, inserted, c, obs.id, Overridden(seen, o));
      RecordLogs(w, inserted, c, Quarantined(seen, obs.firstSeenAt, c.policy.mutableTags.minDigestAge, NewDigest));
    }
  }

  lemma {:induction false} SeenLogs(w: World, c: Call, d: Decision, o: Override, obs: Observation)
    ensures var (after, outcome) := DecideSeen(w, c, d, o, obs); Logs(w, c, d.subject, after, outcome)
  {
    var touched := w.(db := w.db.(observations := TouchObservation(w.db.observations, obs.id, Unix(c.now))));
    var seen := Seen(d, obs.firstSeenAt);
    var aged := Aging(seen, Sub(c.now, obs.firstSeenAt));
    AllowLogs(w, touched, c, obs.id, Overridden(seen, o));
    AllowLogs(w, touched, c, obs.id, aged);
    RecordLogs(w, touched, c, Quarantined(aged, obs.firstSeenAt, c.policy.mutableTags.minDigestAge, StillInQuarantine));
  }

  lemma {:induction false} ResolvedLogs(w: World, c: Call, d: Decision)
    ensures var (after, outcome) := DecideResolved(w, c, d); Logs(w, c, d.subject, after, outcome)
  {
    var override := ReadOverride(w.db, c, d);
    if override.Ok? {
      RecordLogs(w, w, c, DenyFrozen(d));
      var obs := GetObservation(w.db.observations, d.subject.image, d.subject.digest);
      if obs.None? { FirstSeenLogs(w, c, d, override.value); }
      else { SeenLogs(w, c, d, override.value, obs.value); }
    }
  }

  lemma {:induction false} PinnedVerifiedLogs(w: World, c: Call, d: Decision, o: Override)
    ensures var (db, d', passed) := VerifyCosign(w.db, c, d);
            var (after, outcome) := Record(w.(db := db), c, if passed then AllowPinned(d', o) else d');
            Logs(w, c, d.subject, after, outcome)
  {
    var (db, d', passed) := VerifyCosign(w.db, c, d);
    VerificationLogsNothing(w.db, c, 0, d);
    VerificationKeepsSubject(w.db, c, 0, d);
    RecordLogs(w, w.(db := db), c, if passed then AllowPinned(d', o) else d');
  }

  lemma {:induction false} PinnedLogs(w: World, c: Call, d: Decision)
    ensures var (after, outcome) := DecidePinned(w, c, d); Logs(w, c, d.subject, after, outcome)
  {
    var override := ReadOverride(w.db, c, d);
    if override.Ok? {
      PinnedVerifiedLogs(w, c, d, override.value);
      RecordLogs(w, w, c, DenyFrozen(d));
      RecordLogs(w, w, c, Deny(d, PinnedDenied));
      RecordLogs(w, w, c, AllowPinned(d, override.value));
    }
  }

  /**
   A request that returns no error is about its own image and digest, and appends exactly one decision row
   and, if audited, one audit event, both with the decision, digest and reason it returns; one that fails
   appends nothing, except the row that precedes a failed audit write.
   */
  lemma {:induction false} DecideLogs(w: World, c: Call)
    ensures var (after, outcome) := Decide(w, c); Logs(w, c, Initial(c).subject, after, outcome)
  {
    var d := NewDecision(c);
    if c.ref.isDigestPinned {
      PinnedLogs(w, c, d);
    } else if c.policy.mutableTags.action == ACTION_ALLOW {
      RecordLogs(w, w, c, Allow(d, TagAllowed));
    } else if c.policy.mutableTags.action == ACTION_DENY {
      RecordLogs(w, w, c, Deny(d, TagDenied));
    } else if c.resolution.Err? {
      RecordLogs(w, w, c, Allow(d, Fallback));
      RecordLogs(w, w, c, Deny(d, Unresolved(c.resolution.error)));
    } else {
      ResolvedLogs(w, c, Resolved(d, c.resolution.value));
    }
  }

  // ---------------------------------------------------------------- every interleaving

  /** An audit event as the decision row it corresponds to. */
  function RowOf(e: Event): DecisionRow {
    DecisionRow(Unix(e.timestamp), e.entry)
  }

  function One(same: bool): nat {
    if same then 1 else 0
  }

  /** How often the audit log lists `row`. */
  function Audited(events: seq<Event>, row: DecisionRow): nat {
    if events == [] then 0 else Audited(events[..|events| - 1], row) + One(RowOf(events[|events| - 1]) == row)
  }

  /** How often `row` was stored under an id above `from`, the value of the sequence when the run started. */
  function Logged(t: Table<DecisionRow>, from: int, row: DecisionRow): nat
    decreases t.last - from
  {
    if t.last <= from then 0
    else Logged(Table(t.rows, t.last - 1), from, row) + One(t.last in t.rows && t.rows[t.last] == row)
  }

  /** Whether a request between its two writes has still to put `row` into the audit log. */
  function Owed(p: Process, row: DecisionRow): nat {
    One(p.pc.AtAudit? && DecisionRow(Unix(p.call.now), EntryOf(p.call, p.decision)) == row)
  }

  function Pending(procs: seq<Process>, row: DecisionRow): nat {
    if procs == [] then 0 else Pending(procs[..|procs| - 1], row) + Owed(procs[|procs| - 1], row)
  }

  lemma {:induction false} PendingUpdate(procs: seq<Process>, i: nat, p: Process, row: DecisionRow)
    requires i < |procs|
    ensures Pending(procs[i := p], row) + Owed(procs[i], row) == Pending(procs, row) + Owed(p, row)
  {
    var n := |procs| - 1;
    if i == n {
      assert procs[i := p][..n] == procs[..n];
    } else {
      assert procs[i := p][..n] == procs[..n][i := p];
      PendingUpdate(procs[..n], i, p, row);
    }
  }

  lemma {:induction false} NothingPending(procs: seq<Process>, row: DecisionRow)
    requires forall i :: 0 <= i < |procs| ==> !procs[i].pc.AtAudit?
    ensures Pending(procs, row) == 0
  {
    if procs != [] {
      NothingPending(procs[..|procs| - 1], row);
    }
  }

  lemma {:induction false} LoggedBelow(rows: map<int, DecisionRow>, last: int, from: int, id: int, added: DecisionRow,
                                       row: DecisionRow)
    requires last < id
    ensures Logged(Table(rows[id := added], last), from, row) == Logged(Table(rows, last), from, row)
    decreases last - from
  {
    if from < last {
      LoggedBelow(rows, last - 1, from, id, added, row);
    }
  }

  lemma {:induction false} LoggedInsert(t: Table<DecisionRow>, from: int, added: DecisionRow, row: DecisionRow)
    requires from <= t.last
    ensures Logged(Insert(t, added), from, row) == Logged(t, from, row) + One(added == row)
  {
    LoggedBelow(t.rows, t.last, from, t.last + 1, added, row);
  }

  lemma {:induction false} AuditedAppend(events: seq<Event>, e: Event, row: DecisionRow)
    ensures Audited(events + [e], row) == Audited(events, row) + One(RowOf(e) == row)
  {
    assert (events + [e])[..|events|] == events;
  }

  /** The request is audited and neither of its two writes fails. */
  predicate Logging(c: Call) {
    c.audited && WriteDecision !in c.faults && WriteAudit !in c.faults
  }

  ghost predicate Reliable(run: seq<Action>) {
    forall k :: 0 <= k < |run| && run[k].Start? ==> Logging(run[k].call)
  }

  ghost predicate AllLogging(procs: seq<Process>) {
    forall i :: 0 <= i < |procs| ==> Logging(procs[i].call)
  }

  /** Both logs have only grown since the run started. */
  ghost predicate Grown(w: World, v: World) {
    w.db.decisions.last <= v.db.decisions.last && |w.audit| <= |v.audit|
  }

  ghost predicate Balanced(w: World, s: State, row: DecisionRow) {
    && Grown(w, s.world)
    && Logged(s.world.db.decisions, w.db.decisions.last, row)
       == Audited(s.world.audit[|w.audit|..], row) + Pending(s.procs, row)
  }

  /** All steps but the two writes leave both logs alone. */
  lemma {:induction false} QuietStep(p: Process, w: World, row: DecisionRow)
    requires !p.pc.AtDecision? && !p.pc.AtAudit?
    ensures var (q, v) := Step(p, w);
            v.db.decisions == w.db.decisions && v.audit == w.audit && Owed(q, row) == 0
  {
  }

  lemma {:induction false} WriteBalanced(w: World, p: Process, v: World, row: DecisionRow)
    requires Grown(w, v) && Logging(p.call) && (p.pc.AtDecision? || p.pc.AtAudit?)
    ensures var (q, after) := StepLog(p, v);
            && Grown(w, after)
            && Logged(after.db.decisions, w.db.decisions.last, row) - Logged(v.db.decisions, w.db.decisions.last, row)
               == Audited(after.audit[|w.audit|..], row) - Audited(v.audit[|w.audit|..], row)
                   + Owed(q, row) - Owed(p, row)
  {
    if p.pc.AtDecision? {
      LoggedInsert(v.db.decisions, w.db.decisions.last, DecisionRow(Unix(p.call.now), EntryOf(p.call, p.decision)),
                   row);
    } else {
      var e := EventOf(p.call, p.decision);
      AuditedAppend(v.audit[|w.audit|..], e, row);
      assert (v.audit + [e])[|w.audit|..] == v.audit[|w.audit|..] + [e];
    }
  }

  lemma {:induction false} AdvanceBalanced(w: World, s: State, i: nat, row: DecisionRow)
    requires Balanced(w, s, row) && i < |s.procs| && Logging(s.procs[i].call)
    ensures Balanced(w, Act(s, Advance(i)), row)
  {
    var p := s.procs[i];
    PendingUpdate(s.procs, i, Step(p, s.world).0, row);
    if p.pc.AtDecision? || p.pc.AtAudit? {
      WriteBalanced(w, p, s.world, row);
    } else {
      QuietStep(p, s.world, row);
    }
  }

  lemma {:induction false} BeginOwesNothing(c: Call, row: DecisionRow)
    ensures Owed(Begin(c), row) == 0
  {
  }

  lemma {:induction false} PendingAppend(procs: seq<Process>, p: Process, row: DecisionRow)
    ensures Pending(procs + [p], row) == Pending(procs, row) + Owed(p, row)
  {
    assert (procs + [p])[..|procs|] == procs;
  }

  lemma {:induction false} StartBalanced(w: World, s: State, c: Call, row: DecisionRow)
    requires Balanced(w, s, row)
    ensures Balanced(w, Act(s, Start(c)), row)
  {
    BeginOwesNothing(c, row);
    PendingAppend(s.procs, Begin(c), row);
  }

  lemma {:induction false} StepKeepsCall(p: Process, w: World)
    ensures Step(p, w).0.call == p.call
  {
  }

  lemma {:induction false} AllAreLogging(w: World, run: seq<Action>)
    requires Reliable(run)
    ensures AllLogging(After(w, run).procs)
    decreases |run|
  {
    if run != [] {
      var before, a := run[..|run| - 1], run[|run| - 1];
      forall k | 0 <= k < |before| ensures before[k] == run[k] { }
      AllAreLogging(w, before);
      if a.Advance? && a.process < |After(w, before).procs| {
        StepKeepsCall(After(w, before).procs[a.process], After(w, before).world);
      }
    }
  }

  lemma {:induction false} ActionBalanced(w: World, s: State, a: Action, row: DecisionRow)
    requires Balanced(w, s, row) && AllLogging(s.procs)
    ensures Balanced(w, Act(s, a), row)
  {
    if a.Advance? {
      if a.process < |s.procs| { AdvanceBalanced(w, s, a.process, row); }
    } else if a.Start? {
      StartBalanced(w, s, a.call, row);
    }
  }

  /**
   Conservation: when every request is audited and no write fails, each row occurs among the decision rows
   added by a run exactly as often as among the audit events added by it and those still owed by requests
   between their two writes.
   */
  lemma {:induction false} LogsConserved(w: World, run: seq<Action>, row: DecisionRow)
    requires Reliable(run)
    ensures Balanced(w, After(w, run), row)
    decreases |run|
  {
    if run != [] {
      var before := run[..|run| - 1];
      forall k | 0 <= k < |before| ensures before[k] == run[k] { }
      LogsConserved(w, before, row);
      AllAreLogging(w, before);
      ActionBalanced(w, After(w, before), run[|run| - 1], row);
    }
  }

  /** So the two logs gained the same rows whenever no request is between its two writes. */
  lemma {:induction false} LogsAgreeWhenQuiet(w: World, run: seq<Action>, row: DecisionRow)
    requires Reliable(run)
    requires forall i :: 0 <= i < |After(w, run).procs| ==> !After(w, run).procs[i].pc.AtAudit?
    ensures var v := After(w, run).world;
            |w.audit| <= |v.audit|
            && Logged(v.db.decisions, w.db.decisions.last, row) == Audited(v.audit[|w.audit|..], row)
  {
    LogsConserved(w, run, row);
    NothingPending(After(w, run).procs, row);
  }
}
