/**
 The engine as a concurrent protocol: any number of requests, each advancing by one SQL statement or
 one audit write at a time, interleaved with operator commands over the same tables.
 */
module Machine {
  import opened Prelude
  import opened Policy
  import opened Verify
  import opened Tables
  import opened Quarantine

  /** The next store operation of a request. */
  datatype Pc =
    | AtFreeze
    | AtApproval
    | AtBypass
    | AtLookup
    | AtInsert
    | AtReread
    | AtTouch
    | AtCacheRead
    | AtCacheWrite
    | AtMark
    | AtDecision
    | AtAudit
    | Done

  datatype View = View(freeze: Option<Freeze>, approval: Option<Approval>, bypass: Option<Bypass>)

  datatype Process = Process(
    call: Call,
    pc: Pc,
    decision: Decision,
    view: View,
    observation: Option<Observation>,
    answer: CosignResult,
    failure: Option<Failure>)

  const NO_VIEW := View(None, None, None)

  /** A mutable tag under quarantine that the registry resolved. */
  predicate Gated(c: Call) {
    && !c.ref.isDigestPinned
    && c.policy.mutableTags.action != ACTION_ALLOW && c.policy.mutableTags.action != ACTION_DENY
    && c.resolution.Ok?
  }

  /** The decision before the first store operation. */
  function Initial(c: Call): Decision {
    var d := NewDecision(c);
    if Gated(c) then Resolved(d, c.resolution.value) else d
  }

  function Conclude(p: Process, d: Decision): Process {
    p.(pc := AtDecision, decision := d)
  }

  function Fail(p: Process, failure: Failure): Process {
    p.(pc := Done, decision := NO_DECISION, failure := Some(failure))
  }

  function Begin(c: Call): Process {
    var d := Initial(c);
    var p := Process(c, AtFreeze, d, NO_VIEW, None, CosignResult(false, ""), None);
    if c.ref.isDigestPinned || Gated(c) then p
    else if c.policy.mutableTags.action == ACTION_ALLOW then Conclude(p, Allow(d, TagAllowed))
    else if c.policy.mutableTags.action == ACTION_DENY then Conclude(p, Deny(d, TagDenied))
    else if c.policy.failedRegistryResolution == ACTION_ALLOW then Conclude(p, Allow(d, Fallback))
    else Conclude(p, Deny(d, Unresolved(c.resolution.error)))
  }

  function OverrideOf(p: Process): Override {
    CombineOverrides(p.view.freeze, p.view.approval, p.view.bypass)
  }

  /** What follows the three override reads. */
  function AfterOverrides(p: Process): Process {
    var o := OverrideOf(p);
    if o.decision == DECISION_DENY then Conclude(p, DenyFrozen(p.decision))
    else if !p.call.ref.isDigestPinned then p.(pc := AtLookup)
    else if p.call.policy.digestPinnedImages == ACTION_DENY then Conclude(p, Deny(p.decision, PinnedDenied))
    else if p.call.policy.cosign.required then p.(pc := AtCacheRead)
    else Conclude(p, AllowPinned(p.decision, o))
  }

  function ToAllow(p: Process, d: Decision): Process {
    p.(pc := if p.call.policy.cosign.required then AtCacheRead else AtMark, decision := d)
  }

  /** engine.go:140-149 */
  function AfterReread(p: Process, obs: Observation): Process {
    var seen := Seen(p.decision, obs.firstSeenAt);
    var q := p.(observation := Some(obs));
    if OverrideOf(p).decision == DECISION_ALLOW || p.call.policy.mutableTags.allowFirstSeenPull then
      ToAllow(q, Overridden(seen, OverrideOf(p)))
    else
      Conclude(q, Quarantined(seen, obs.firstSeenAt, p.call.policy.mutableTags.minDigestAge, NewDigest))
  }

  /** engine.go:155-171 */
  function AfterTouching(p: Process, obs: Observation): Process {
    var seen := Seen(p.decision, obs.firstSeenAt);
    var age := Sub(p.call.now, obs.firstSeenAt);
    if OverrideOf(p).decision == DECISION_ALLOW then ToAllow(p, Overridden(seen, OverrideOf(p)))
    else if age < p.call.policy.mutableTags.minDigestAge then
      Conclude(p, Quarantined(Aging(seen, age), obs.firstSeenAt, p.call.policy.mutableTags.minDigestAge,
                              StillInQuarantine))
    else ToAllow(p, Aging(seen, age))
  }

  function AfterVerified(p: Process, d: Decision): Process {
    if p.call.ref.isDigestPinned then Conclude(p, AllowPinned(d, OverrideOf(p))) else p.(pc := AtMark, decision := d)
  }

  // ---------------------------------------------------------------- one step of one request

  ghost function StepRead(p: Process, db: Database): Process
    requires p.pc.AtFreeze? || p.pc.AtApproval? || p.pc.AtBypass?
  {
    var s := p.decision.subject;
    match p.pc
    case AtFreeze =>
      if ReadFreeze in p.call.faults then Fail(p, Failed(ReadFreeze))
      else p.(pc := AtApproval, view := p.view.(freeze := ActiveFreeze(db.freezes, s.image, s.digest, p.call.now)))
    case AtApproval =>
      if ReadApproval in p.call.faults then Fail(p, Failed(ReadApproval))
      else p.(pc := AtBypass, view := p.view.(approval := ActiveApproval(db.approvals, s.image, s.digest, p.call.now)))
    case AtBypass =>
      if ReadBypass in p.call.faults then Fail(p, Failed(ReadBypass))
      else AfterOverrides(p.(view := p.view.(bypass := ActiveBypass(db.bypasses, s.image, p.call.now))))
  }

  ghost function StepObservation(p: Process, db: Database): (Process, Database)
    requires p.pc.AtLookup? || p.pc.AtInsert? || p.pc.AtReread?
  {
    var s := p.decision.subject;
    var found := GetObservation(db.observations, s.image, s.digest);
    match p.pc
    case AtLookup =>
      if ReadObservation in p.call.faults then (Fail(p, Failed(ReadObservation)), db)
      else if found.None? then (p.(pc := AtInsert), db)
      else (p.(pc := AtTouch, observation := found), db)
    case AtInsert =>
      if InsertNew in p.call.faults then (Fail(p, Failed(InsertNew)), db)
      else (p.(pc := AtReread),
            db.(observations := InsertObservation(db.observations, s.image, s.digest, Unix(p.call.now))))
    case AtReread =>
      if RereadObservation in p.call.faults then (Fail(p, Failed(RereadObservation)), db)
      else if found.None? then (Fail(p, NilObservation), db)
      else (AfterReread(p, found.value), db)
  }

  function StepTouch(p: Process, db: Database): (Process, Database) {
    if TouchSeen in p.call.faults || p.observation.None? || p.observation.value.id !in db.observations.rows then
      (Fail(p, Failed(TouchSeen)), db)
    else
      (AfterTouching(p, p.observation.value),
       db.(observations := TouchObservation(db.observations, p.observation.value.id, Unix(p.call.now))))
  }

  /** The cache is read and, on a miss, the verifier is run before the next statement. */
  ghost function StepCacheRead(p: Process, db: Database): Process {
    var s := p.decision.subject;
    if ReadCosign in p.call.faults then Conclude(p, Deny(p.decision, CacheUnreadable(p.call.faults[ReadCosign])))
    else if CacheHit(db, p.call, p.decision) then
      AfterVerified(p, p.decision.(cosignVerified := true, cosignCached := true))
    else
      var answer := p.call.verifier(s.image.registry, s.image.repository, s.digest, p.call.policy.cosign);
      if answer.Err? then Conclude(p, Deny(p.decision, CosignFailed(answer.error)))
      else p.(pc := AtCacheWrite, answer := answer.value)
  }

  ghost function StepCacheWrite(p: Process, db: Database): (Process, Database) {
    if WriteCosign in p.call.faults then
      (Conclude(p, Deny(p.decision, CacheUnwritable(p.call.faults[WriteCosign]))), db)
    else
      (if !p.answer.success then Conclude(p, Deny(p.decision, CosignFailed(p.answer.reason)))
       else AfterVerified(p, p.decision.(cosignVerified := true)),
       db.(cosign := RecordCosign(db.cosign, CacheRow(p.call, p.decision, p.answer))))
  }

  function StepMark(p: Process, db: Database): (Process, Database) {
    var (after, d) := MarkAndAllow(db, p.call, if p.observation.Some? then p.observation.value.id else 0, p.decision);
    (Conclude(p, d), after)
  }

  function StepLog(p: Process, w: World): (Process, World)
    requires p.pc.AtDecision? || p.pc.AtAudit?
  {
    match p.pc
    case AtDecision =>
      if WriteDecision in p.call.faults then (p.(pc := Done, failure := Some(Failed(WriteDecision))), w)
      else (p.(pc := if p.call.audited then AtAudit else Done), LogDecision(w, p.call, p.decision))
    case AtAudit =>
      if WriteAudit in p.call.faults then (p.(pc := Done, failure := Some(Failed(WriteAudit))), w)
      else (p.(pc := Done), LogAudit(w, p.call, p.decision))
  }

  ghost function Step(p: Process, w: World): (Process, World) {
    match p.pc
    case AtFreeze => (StepRead(p, w.db), w)
    case AtApproval => (StepRead(p, w.db), w)
    case AtBypass => (StepRead(p, w.db), w)
    case AtLookup => OnDatabase(StepObservation(p, w.db), w)
    case AtInsert => OnDatabase(StepObservation(p, w.db), w)
    case AtReread => OnDatabase(StepObservation(p, w.db), w)
    case AtTouch => OnDatabase(StepTouch(p, w.db), w)
    case AtCacheRead => (StepCacheRead(p, w.db), w)
    case AtCacheWrite => OnDatabase(StepCacheWrite(p, w.db), w)
    case AtMark => OnDatabase(StepMark(p, w.db), w)
    case AtDecision => StepLog(p, w)
    case AtAudit => StepLog(p, w)
    case Done => (p, w)
  }

  function OnDatabase(r: (Process, Database), w: World): (Process, World) {
    (r.0, w.(db := r.1))
  }

  // ---------------------------------------------------------------- the whole system

  datatype State = State(world: World, procs: seq<Process>)

  datatype Action =
    | Start(call: Call)
    | Advance(process: nat)
    | AddApproval(approval: ApprovalRow)
    | AddFreeze(freeze: FreezeRow)
    | AddBypass(bypass: BypassRow)

  ghost predicate ActionOk(a: Action) {
    a.AddFreeze? ==> a.freeze.digest != Some("")
  }

  ghost function Act(s: State, a: Action): State {
    match a
    case Start(c) => s.(procs := s.procs + [Begin(c)])
    case Advance(i) =>
      if i >= |s.procs| then s
      else
        var (p, w) := Step(s.procs[i], s.world);
        State(w, s.procs[i := p])
    case AddApproval(row) => OnTables(s, s.world.db.(approvals := Insert(s.world.db.approvals, row)))
    case AddFreeze(row) => OnTables(s, s.world.db.(freezes := Insert(s.world.db.freezes, row)))
    case AddBypass(row) => OnTables(s, s.world.db.(bypasses := Insert(s.world.db.bypasses, row)))
  }

  function OnTables(s: State, db: Database): State {
    s.(world := s.world.(db := db))
  }

  /** The state after a run; every sequence of actions is a run. */
  ghost function After(w: World, run: seq<Action>): State
    decreases |run|
  {
    if run == [] then State(w, []) else Act(After(w, run[..|run| - 1]), run[|run| - 1])
  }

  // ---------------------------------------------------------------- a request on its own

  function Rank(pc: Pc): nat {
    match pc
    case AtFreeze => 12
    case AtApproval => 11
    case AtBypass => 10
    case AtLookup => 9
    case AtInsert => 8
    case AtReread => 7
    case AtTouch => 7
    case AtCacheRead => 6
    case AtCacheWrite => 5
    case AtMark => 4
    case AtDecision => 3
    case AtAudit => 2
    case Done => 0
  }

  lemma {:induction false} ReadAdvances(p: Process, db: Database)
    requires p.pc.AtFreeze? || p.pc.AtApproval? || p.pc.AtBypass?
    ensures Rank(StepRead(p, db).pc) < Rank(p.pc)
  {
  }

  lemma {:induction false} ObservationAdvances(p: Process, db: Database)
    requires p.pc.AtLookup? || p.pc.AtInsert? || p.pc.AtReread?
    ensures Rank(StepObservation(p, db).0.pc) < Rank(p.pc)
  {
  }

  lemma {:induction false} UpdateAdvances(p: Process, db: Database)
    ensures Rank(StepTouch(p, db).0.pc) < Rank(AtTouch)
    ensures Rank(StepMark(p, db).0.pc) < Rank(AtMark)
  {
  }

  lemma {:induction false} CacheReadAdvances(p: Process, db: Database)
    requires p.pc.AtCacheRead?
    ensures Rank(StepCacheRead(p, db).pc) < Rank(p.pc)
  {
  }

  lemma {:induction false} CacheWriteAdvances(p: Process, db: Database)
    requires p.pc.AtCacheWrite?
    ensures Rank(StepCacheWrite(p, db).0.pc) < Rank(p.pc)
  {
  }

  lemma {:induction false} StepAdvances(p: Process, w: World)
    requires !p.pc.Done?
    ensures Rank(Step(p, w).0.pc) < Rank(p.pc)
  {
    match p.pc
    case AtFreeze => ReadAdvances(p, w.db);
    case AtApproval => ReadAdvances(p, w.db);
    case AtBypass => ReadAdvances(p, w.db);
    case AtLookup => ObservationAdvances(p, w.db);
    case AtInsert => ObservationAdvances(p, w.db);
    case AtReread => ObservationAdvances(p, w.db);
    case AtTouch => UpdateAdvances(p, w.db);
    case AtCacheRead => CacheReadAdvances(p, w.db);
    case AtCacheWrite => CacheWriteAdvances(p, w.db);
    case AtMark => UpdateAdvances(p, w.db);
    case AtDecision =>
    case AtAudit =>
  }

  ghost function Solo(p: Process, w: World): (Process, World)
    decreases Rank(p.pc)
  {
    if p.pc.Done? then (p, w)
    else
      StepAdvances(p, w);
      var (q, v) := Step(p, w);
      Solo(q, v)
  }

  ghost predicate Reaches(p: Process, w: World, r: (World, Outcome)) {
    var (q, v) := Solo(p, w);
    r == (v, Outcome(q.decision, q.failure))
  }

  lemma {:induction false} SoloStep(p: Process, w: World, r: (World, Outcome))
    requires !p.pc.Done? && Reaches(Step(p, w).0, Step(p, w).1, r)
    ensures Reaches(p, w, r)
  {
  }

  lemma {:induction false} SoloRecord(p: Process, w: World)
    requires p.pc.AtDecision? && p.failure.None?
    ensures Reaches(p, w, Record(w, p.call, p.decision))
  {
    var (q, v) := Step(p, w);
    if q.pc.AtAudit? {
      SoloStep(q, v, Record(w, p.call, p.decision));
    }
    SoloStep(p, w, Record(w, p.call, p.decision));
  }

  lemma {:induction false} SoloMark(p: Process, w: World)
    requires p.pc.AtMark? && p.failure.None? && p.observation.Some?
    ensures var (db, d) := MarkAndAllow(w.db, p.call, p.observation.value.id, p.decision);
            Reaches(p, w, Record(w.(db := db), p.call, d))
  {
    var (q, v) := Step(p, w);
    SoloRecord(q, v);
    SoloStep(p, w, Record(v, p.call, q.decision));
  }

  /** How a request goes on once verification has passed or failed. */
  ghost function Onward(p: Process, w: World, r: (Database, Decision, bool)): (World, Outcome)
    requires !p.call.ref.isDigestPinned ==> p.observation.Some?
  {
    var v := w.(db := r.0);
    if !r.2 then Record(v, p.call, r.1)
    else if p.call.ref.isDigestPinned then Record(v, p.call, AllowPinned(r.1, OverrideOf(p)))
    else
      var (db, d) := MarkAndAllow(r.0, p.call, p.observation.value.id, r.1);
      Record(w.(db := db), p.call, d)
  }

  lemma {:induction false} SoloVerified(p: Process, w: World, d: Decision)
    requires p.failure.None? && (!p.call.ref.isDigestPinned ==> p.observation.Some?)
    ensures Reaches(AfterVerified(p, d), w, Onward(p, w, (w.db, d, true)))
  {
    if p.call.ref.isDigestPinned {
      SoloRecord(AfterVerified(p, d), w);
    } else {
      SoloMark(AfterVerified(p, d), w);
    }
  }

  lemma {:induction false} SoloCacheWrite(p: Process, w: World)
    requires p.pc.AtCacheWrite? && p.failure.None? && (!p.call.ref.isDigestPinned ==> p.observation.Some?)
    ensures Reaches(p, w, Onward(p, w, RunVerifier(w.db, p.call, p.decision, Ok(p.answer))))
  {
    var (q, v) := Step(p, w);
    if WriteCosign in p.call.faults || !p.answer.success {
      SoloRecord(q, v);
    } else {
      SoloVerified(p, v, p.decision.(cosignVerified := true));
    }
    SoloStep(p, w, Onward(p, w, RunVerifier(w.db, p.call, p.decision, Ok(p.answer))));
  }

  lemma {:induction false} SoloVerify(p: Process, w: World)
    requires p.pc.AtCacheRead? && p.failure.None? && (!p.call.ref.isDigestPinned ==> p.observation.Some?)
    ensures Reaches(p, w, Onward(p, w, VerifyCosign(w.db, p.call, p.decision)))
  {
    var q := StepCacheRead(p, w.db);
    var s := p.decision.subject;
    var answer := p.call.verifier(s.image.registry, s.image.repository, s.digest, p.call.policy.cosign);
    if ReadCosign in p.call.faults {
      SoloRecord(q, w);
    } else if CacheHit(w.db, p.call, p.decision) {
      SoloVerified(p, w, p.decision.(cosignVerified := true, cosignCached := true));
    } else if answer.Err? {
      SoloRecord(q, w);
    } else {
      SoloCacheWrite(q, w);
    }
    SoloStep(p, w, Onward(p, w, VerifyCosign(w.db, p.call, p.decision)));
  }

  lemma {:induction false} SoloAllow(p: Process, w: World, d: Decision)
    requires p.failure.None? && p.observation.Some? && !p.call.ref.isDigestPinned
    ensures var (db, d') := AllowWithVerification(w.db, p.call, p.observation.value.id, d);
            Reaches(ToAllow(p, d), w, Record(w.(db := db), p.call, d'))
  {
    if p.call.policy.cosign.required {
      SoloVerify(ToAllow(p, d), w);
    } else {
      SoloMark(ToAllow(p, d), w);
    }
  }

  lemma {:induction false} SoloFirstSeen(p: Process, w: World)
    requires p.pc.AtInsert? && p.failure.None? && !p.call.ref.isDigestPinned
    ensures Reaches(p, w, DecideFirstSeen(w, p.call, p.decision, OverrideOf(p)))
  {
    var (q, v) := Step(p, w);
    var r := DecideFirstSeen(w, p.call, p.decision, OverrideOf(p));
    if q.pc.AtReread? {
      var s := p.decision.subject;
      var found := GetObservation(v.db.observations, s.image, s.digest);
      if RereadObservation !in p.call.faults && found.Some? {
        var obs := found.value;
        var seen := Seen(p.decision, obs.firstSeenAt);
        var known := q.(observation := Some(obs));
        if OverrideOf(p).decision == DECISION_ALLOW || p.call.policy.mutableTags.allowFirstSeenPull {
          SoloAllow(known, v, Overridden(seen, OverrideOf(p)));
        } else {
          SoloRecord(AfterReread(q, obs), v);
        }
      }
      SoloStep(q, v, r);
    }
    SoloStep(p, w, r);
  }

  lemma {:induction false} SoloSeen(p: Process, w: World)
    requires p.pc.AtTouch? && p.failure.None? && p.observation.Some? && !p.call.ref.isDigestPinned
    ensures Reaches(p, w, DecideSeen(w, p.call, p.decision, OverrideOf(p), p.observation.value))
  {
    var obs := p.observation.value;
    var (q, v) := Step(p, w);
    if !q.pc.Done? {
      var seen := Seen(p.decision, obs.firstSeenAt);
      var age := Sub(p.call.now, obs.firstSeenAt);
      if OverrideOf(p).decision == DECISION_ALLOW {
        SoloAllow(p, v, Overridden(seen, OverrideOf(p)));
      } else if age < p.call.policy.mutableTags.minDigestAge {
        SoloRecord(q, v);
      } else {
        SoloAllow(p, v, Aging(seen, age));
      }
    }
    SoloStep(p, w, DecideSeen(w, p.call, p.decision, OverrideOf(p), obs));
  }

  lemma {:induction false} SoloLookup(p: Process, w: World)
    requires p.pc.AtLookup? && p.failure.None? && !p.call.ref.isDigestPinned
    requires OverrideOf(p) == LocalOverride(w.db, p.decision.subject.image, p.decision.subject.digest, p.call.now)
    requires OverrideOf(p).decision != DECISION_DENY
    requires ReadOverride(w.db, p.call, p.decision).Ok?
    ensures Reaches(p, w, DecideResolved(w, p.call, p.decision))
  {
    var (q, v) := Step(p, w);
    if q.pc.AtInsert? { SoloFirstSeen(q, v); }
    if q.pc.AtTouch? { SoloSeen(q, v); }
    SoloStep(p, w, DecideResolved(w, p.call, p.decision));
  }

  /** After the three reads. */
  lemma {:induction false} SoloOverrides(p: Process, w: World)
    requires p.failure.None? && (p.call.ref.isDigestPinned || Gated(p.call))
    requires OverrideOf(p) == LocalOverride(w.db, p.decision.subject.image, p.decision.subject.digest, p.call.now)
    requires ReadOverride(w.db, p.call, p.decision).Ok?
    ensures Reaches(AfterOverrides(p), w,
                    if p.call.ref.isDigestPinned then DecidePinned(w, p.call, p.decision)
                    else DecideResolved(w, p.call, p.decision))
  {
    var q := AfterOverrides(p);
    if q.pc.AtDecision? {
      SoloRecord(q, w);
    } else if q.pc.AtLookup? {
      SoloLookup(q, w);
    } else {
      SoloVerify(q, w);
    }
  }

  lemma {:induction false} SoloReads(p: Process, w: World)
    requires p.pc.AtFreeze? && p.failure.None? && (p.call.ref.isDigestPinned || Gated(p.call))
    ensures Reaches(p, w,
                    if p.call.ref.isDigestPinned then DecidePinned(w, p.call, p.decision)
                    else DecideResolved(w, p.call, p.decision))
  {
    var s := p.decision.subject;
    var r := if p.call.ref.isDigestPinned then DecidePinned(w, p.call, p.decision)
             else DecideResolved(w, p.call, p.decision);
    var p1 := StepRead(p, w.db);
    if !p1.pc.Done? {
      var p2 := StepRead(p1, w.db);
      if !p2.pc.Done? {
        var p3 := StepRead(p2, w.db);
        if ReadBypass !in p.call.faults {
          SoloOverrides(p2.(view := p2.view.(bypass := ActiveBypass(w.db.bypasses, s.image, p.call.now))), w);
        }
        SoloStep(p2, w, r);
      }
      SoloStep(p1, w, r);
    }
    SoloStep(p, w, r);
  }

  /** Left alone, a request of the protocol does exactly what the sequential engine does. */
  lemma {:induction false} SoloRefinesDecide(c: Call, w: World)
    ensures Reaches(Begin(c), w, Decide(w, c))
  {
    var p := Begin(c);
    if p.pc.AtDecision? {
      SoloRecord(p, w);
    } else {
      SoloReads(p, w);
    }
  }
}
