/** What freezes, approvals and bypasses do to the requests that come after them, in runs and over interleavings. */
module Operators {
  import opened Prelude
  import opened Tables
  import opened Quarantine
  import opened Runs
  import opened Verdicts
  import opened Reports
  import opened Faults
  import opened Machine
  import opened Protocol

  // ---------------------------------------------------------------- the exact effect of a command

  /** The tables differ by these rows of overrides, and otherwise not. */
  ghost predicate Adds(before: Database, after: Database, freeze: Option<FreezeRow>, approval: Option<ApprovalRow>,
                       bypass: Option<BypassRow>)
  {
    && after.observations == before.observations && after.decisions == before.decisions && after.cosign == before.cosign
    && (forall image, digest, now ::
          Frozen(after, image, digest, now) <==>
          Frozen(before, image, digest, now)
          || (freeze.Some? && FreezeApplies(freeze.value, image, digest, now)))
    && (forall image, digest, now ::
          Approved(after, image, digest, now) <==>
          Approved(before, image, digest, now)
          || (approval.Some? && ApprovalApplies(approval.value, image, digest, now)))
    && (forall image, now ::
          Bypassing(after, image, now) <==>
          Bypassing(before, image, now) || (bypass.Some? && BypassApplies(bypass.value, image, now)))
  }

  lemma {:induction false} FreezeAdds(db: Database, row: FreezeRow)
    requires Valid(db)
    ensures Adds(db, db.(freezes := Insert(db.freezes, row)), Some(row), None, None)
  {
    var after := db.(freezes := Insert(db.freezes, row));
    assert after.freezes.rows[after.freezes.last] == row;
    forall image, digest, now
      ensures Frozen(after, image, digest, now) <==>
              Frozen(db, image, digest, now) || FreezeApplies(row, image, digest, now)
    {
      if Frozen(db, image, digest, now) {
        var id :| id in db.freezes.rows && FreezeApplies(db.freezes.rows[id], image, digest, now);
        assert after.freezes.rows[id] == db.freezes.rows[id];
      }
    }
  }

  lemma {:induction false} ApprovalAdds(db: Database, row: ApprovalRow)
    requires Valid(db)
    ensures Adds(db, db.(approvals := Insert(db.approvals, row)), None, Some(row), None)
  {
    var after := db.(approvals := Insert(db.approvals, row));
    assert after.approvals.rows[after.approvals.last] == row;
    forall image, digest, now
      ensures Approved(after, image, digest, now) <==>
              Approved(db, image, digest, now) || ApprovalApplies(row, image, digest, now)
    {
      if Approved(db, image, digest, now) {
        var id :| id in db.approvals.rows && ApprovalApplies(db.approvals.rows[id], image, digest, now);
        assert after.approvals.rows[id] == db.approvals.rows[id];
      }
    }
  }

  lemma {:induction false} BypassAdds(db: Database, row: BypassRow)
    requires Valid(db)
    ensures Adds(db, db.(bypasses := Insert(db.bypasses, row)), None, None, Some(row))
  {
    var after := db.(bypasses := Insert(db.bypasses, row));
    assert after.bypasses.rows[after.bypasses.last] == row;
    forall image, now
      ensures Bypassing(after, image, now) <==> Bypassing(db, image, now) || BypassApplies(row, image, now)
    {
      if Bypassing(db, image, now) {
        var id :| id in db.bypasses.rows && BypassApplies(db.bypasses.rows[id], image, now);
        assert after.bypasses.rows[id] == db.bypasses.rows[id];
      }
    }
  }

  /** In a sequential run a command does this and nothing else. */
  lemma {:induction false} CommandTakesEffect(w: World, op: Op)
    requires Valid(w.db) && !op.Pull?
    ensures var after := Apply(w, op);
            && after.audit == w.audit
            && match op
               case Freeze(row) => Adds(w.db, after.db, Some(row), None, None)
               case Approve(row) => Adds(w.db, after.db, None, Some(row), None)
               case Bypass(row) => Adds(w.db, after.db, None, None, Some(row))
  {
    match op
    case Freeze(row) => FreezeAdds(w.db, row);
    case Approve(row) => ApprovalAdds(w.db, row);
    case Bypass(row) => BypassAdds(w.db, row);
  }

  /** Between the steps of any requests, too: all of them find the tables so from then on. */
  lemma {:induction false} ActionTakesEffect(s: State, a: Action)
    requires Valid(s.world.db) && !a.Start? && !a.Advance?
    ensures var after := Act(s, a);
            && after.procs == s.procs && after.world.audit == s.world.audit
            && match a
               case AddFreeze(row) => Adds(s.world.db, after.world.db, Some(row), None, None)
               case AddApproval(row) => Adds(s.world.db, after.world.db, None, Some(row), None)
               case AddBypass(row) => Adds(s.world.db, after.world.db, None, None, Some(row))
  {
    match a
    case AddFreeze(row) => FreezeAdds(s.world.db, row);
    case AddApproval(row) => ApprovalAdds(s.world.db, row);
    case AddBypass(row) => BypassAdds(s.world.db, row);
  }

  // ---------------------------------------------------------------- overrides stay

  /** Nothing lifts an override. */
  ghost predicate OverridesStay(before: Database, after: Database) {
    && (forall image, digest, now :: Frozen(before, image, digest, now) ==> Frozen(after, image, digest, now))
    && (forall image, digest, now :: Approved(before, image, digest, now) ==> Approved(after, image, digest, now))
    && (forall image, now :: Bypassing(before, image, now) ==> Bypassing(after, image, now))
  }

  predicate SameTables(before: Database, after: Database) {
    after.freezes == before.freezes && after.approvals == before.approvals && after.bypasses == before.bypasses
  }

  lemma {:induction false} SameTablesStay(before: Database, after: Database)
    requires SameTables(before, after)
    ensures OverridesStay(before, after)
  {
    forall image, digest, now ensures Frozen(before, image, digest, now) ==> Frozen(after, image, digest, now) { }
    forall image, digest, now ensures Approved(before, image, digest, now) ==> Approved(after, image, digest, now) { }
    forall image, now ensures Bypassing(before, image, now) ==> Bypassing(after, image, now) { }
  }

  lemma {:induction false} AllowKeepsTables(w: World, c: Call, id: int, d: Decision)
    ensures var (db, d') := AllowWithVerification(w.db, c, id, d); SameTables(w.db, Record(w.(db := db), c, d').0.db)
  {
    VerificationKeepsTables(w.db, c, d);
  }

  lemma {:induction false} VerificationKeepsTables(db: Database, c: Call, d: Decision)
    ensures SameTables(db, VerifyCosign(db, c, d).0)
  {
  }

  lemma {:induction false} FirstSeenKeepsTables(w: World, c: Call, d: Decision, o: Override)
    ensures SameTables(w.db, DecideFirstSeen(w, c, d, o).0.db)
  {
    var inserted := w.(db := w.db.(observations :=
      InsertObservation(w.db.observations, d.subject.image, d.subject.digest, Unix(c.now))));
    var found := GetObservation(inserted.db.observations, d.subject.image, d.subject.digest);
    if found.Some? {
      AllowKeepsTables(inserted, c, found.value.id, Overridden(Seen(d, found.value.firstSeenAt), o));
    }
  }

  lemma {:induction false} SeenKeepsTables(w: World, c: Call, d: Decision, o: Override, obs: Observation)
    ensures SameTables(w.db, DecideSeen(w, c, d, o, obs).0.db)
  {
    var touched := w.(db := w.db.(observations := TouchObservation(w.db.observations, obs.id, Unix(c.now))));
    var seen := Seen(d, obs.firstSeenAt);
    AllowKeepsTables(touched, c, obs.id, Overridden(seen, o));
    AllowKeepsTables(touched, c, obs.id, Aging(seen, Sub(c.now, obs.firstSeenAt)));
  }

  lemma {:induction false} PinnedKeepsTables(w: World, c: Call, d: Decision)
    ensures SameTables(w.db, DecidePinned(w, c, d).0.db)
  {
    VerificationKeepsTables(w.db, c, d);
  }

  lemma {:induction false} ResolvedKeepsTables(w: World, c: Call, d: Decision)
    ensures SameTables(w.db, DecideResolved(w, c, d).0.db)
  {
    var override := ReadOverride(w.db, c, d);
    var obs := GetObservation(w.db.observations, d.subject.image, d.subject.digest);
    if override.Ok? {
      FirstSeenKeepsTables(w, c, d, override.value);
      if obs.Some? { SeenKeepsTables(w, c, d, override.value, obs.value); }
    }
  }

  lemma {:induction false} DecideKeepsTables(w: World, c: Call)
    ensures SameTables(w.db, Decide(w, c).0.db)
  {
    PinnedKeepsTables(w, c, NewDecision(c));
    if c.resolution.Ok? { ResolvedKeepsTables(w, c, Resolved(NewDecision(c), c.resolution.value)); }
  }

  lemma {:induction false} StayTransitive(a: Database, b: Database, c: Database)
    requires OverridesStay(a, b) && OverridesStay(b, c)
    ensures OverridesStay(a, c)
  {
    forall image, digest, now ensures Frozen(a, image, digest, now) ==> Frozen(c, image, digest, now) { }
    forall image, digest, now ensures Approved(a, image, digest, now) ==> Approved(c, image, digest, now) { }
    forall image, now ensures Bypassing(a, image, now) ==> Bypassing(c, image, now) { }
  }

  lemma {:induction false} AddedStay(before: Database, after: Database, freeze: Option<FreezeRow>,
                                     approval: Option<ApprovalRow>, bypass: Option<BypassRow>)
    requires Adds(before, after, freeze, approval, bypass)
    ensures OverridesStay(before, after)
  {
    forall image, digest, now ensures Frozen(before, image, digest, now) ==> Frozen(after, image, digest, now) { }
    forall image, digest, now ensures Approved(before, image, digest, now) ==> Approved(after, image, digest, now) { }
    forall image, now ensures Bypassing(before, image, now) ==> Bypassing(after, image, now) { }
  }

  lemma {:induction false} ApplyKeepsOverrides(w: World, op: Op)
    requires Valid(w.db)
    ensures OverridesStay(w.db, Apply(w, op).db)
  {
    match op
    case Pull(c) =>
      DecideKeepsTables(w, c);
      SameTablesStay(w.db, Apply(w, op).db);
    case Freeze(row) =>
      FreezeAdds(w.db, row);
      AddedStay(w.db, Apply(w, op).db, Some(row), None, None);
    case Approve(row) =>
      ApprovalAdds(w.db, row);
      AddedStay(w.db, Apply(w, op).db, None, Some(row), None);
    case Bypass(row) =>
      BypassAdds(w.db, row);
      AddedStay(w.db, Apply(w, op).db, None, None, Some(row));
  }

  lemma {:induction false} OneMoreKeepsOverrides(w: World, ops: seq<Op>)
    requires Valid(w.db) && ops != [] && forall i :: 0 <= i < |ops| ==> OpOk(ops[i])
    ensures OverridesStay(Run(w, ops[..|ops| - 1]).db, Run(w, ops).db)
  {
    RunExtends(w, ops, |ops| - 1);
    ApplyKeepsOverrides(Run(w, ops[..|ops| - 1]), ops[|ops| - 1]);
  }

  lemma {:induction false} RunKeepsOverrides(w: World, ops: seq<Op>, k: nat)
    requires Valid(w.db) && k <= |ops| && forall i :: 0 <= i < |ops| ==> OpOk(ops[i])
    ensures OverridesStay(Run(w, ops[..k]).db, Run(w, ops).db)
    decreases |ops|
  {
    if k == |ops| {
      assert ops[..k] == ops;
    } else {
      var init := ops[..|ops| - 1];
      assert init[..k] == ops[..k];
      RunKeepsOverrides(w, init, k);
      OneMoreKeepsOverrides(w, ops);
      StayTransitive(Run(w, ops[..k]).db, Run(w, init).db, Run(w, ops).db);
    }
  }

  // ---------------------------------------------------------------- in sequential runs

  /** The override that the command adds is there, where it applies. */
  ghost predicate Heeded(db: Database, op: Op, image: TagKey, digest: string, now: Time) {
    match op
    case Pull(_) => true
    case Freeze(row) => FreezeApplies(row, image, digest, now) ==> Frozen(db, image, digest, now)
    case Approve(row) => ApprovalApplies(row, image, digest, now) ==> Approved(db, image, digest, now)
    case Bypass(row) => BypassApplies(row, image, now) ==> Bypassing(db, image, now)
  }

  lemma {:induction false} HeededNow(w: World, op: Op, image: TagKey, digest: string, now: Time)
    requires Valid(w.db)
    ensures Heeded(Apply(w, op).db, op, image, digest, now)
  {
    if !op.Pull? { CommandTakesEffect(w, op); }
  }

  lemma {:induction false} HeededStays(before: Database, after: Database, op: Op, image: TagKey, digest: string,
                                       now: Time)
    requires Heeded(before, op, image, digest, now) && OverridesStay(before, after)
    ensures Heeded(after, op, image, digest, now)
  {
  }

  /** A command is heeded from then on. */
  lemma {:induction false} InForce(w: World, ops: seq<Op>, k: nat, image: TagKey, digest: string, now: Time)
    requires Valid(w.db) && k < |ops| && (forall i :: 0 <= i < |ops| ==> OpOk(ops[i]))
    ensures Valid(Run(w, ops).db) && Heeded(Run(w, ops).db, ops[k], image, digest, now)
  {
    var upTo := ops[..k + 1];
    assert upTo[..k] == ops[..k] && upTo[k] == ops[k];
    RunExtends(w, ops, k);
    HeededNow(Run(w, ops[..k]), ops[k], image, digest, now);
    RunKeepsOverrides(w, ops, k + 1);
    HeededStays(Run(w, upTo).db, Run(w, ops).db, ops[k], image, digest, now);
  }

  /**
   A freeze takes effect: whatever happens after it, and whatever fails, no request that asks the store is allowed
   while it applies.
   */
  lemma {:induction false} FreezeStopsPulls(w: World, ops: seq<Op>, k: nat, c: Call)
    requires Valid(w.db) && k < |ops| && (forall i :: 0 <= i < |ops| ==> OpOk(ops[i])) && ops[k].Freeze?
    requires AsksStore(c) && FreezeApplies(ops[k].freeze, ImageOf(c), DigestOf(c), c.now)
    ensures !Decide(Run(w, ops), c).1.decision.allowed
  {
    InForce(w, ops, k, ImageOf(c), DigestOf(c), c.now);
    FailsClosed(Run(w, ops), c);
  }

  /** An approval takes effect: a tag whose digest it covers is allowed, unless frozen or without its signature. */
  lemma {:induction false} ApprovalAdmitsPulls(w: World, ops: seq<Op>, k: nat, c: Call)
    requires Valid(w.db) && k < |ops| && (forall i :: 0 <= i < |ops| ==> OpOk(ops[i])) && ops[k].Approve?
    requires AsksStore(c) && !c.ref.isDigestPinned && c.faults == map[]
    requires ApprovalApplies(ops[k].approval, ImageOf(c), DigestOf(c), c.now)
    ensures var db := Run(w, ops).db;
            Decide(Run(w, ops), c).1.decision.allowed <==>
            !Frozen(db, ImageOf(c), DigestOf(c), c.now) && SignaturePasses(db, ImageOf(c), DigestOf(c), c)
  {
    InForce(w, ops, k, ImageOf(c), DigestOf(c), c.now);
    DecisionIsVerdict(Run(w, ops), c);
    assert VerdictOf(Decide(Run(w, ops), c).1.decision) == VerdictOn(Run(w, ops).db, c);
  }

  /** So does a bypass, for every digest of its tag. */
  lemma {:induction false} BypassAdmitsPulls(w: World, ops: seq<Op>, k: nat, c: Call)
    requires Valid(w.db) && k < |ops| && (forall i :: 0 <= i < |ops| ==> OpOk(ops[i])) && ops[k].Bypass?
    requires AsksStore(c) && !c.ref.isDigestPinned && c.faults == map[]
    requires BypassApplies(ops[k].bypass, ImageOf(c), c.now)
    ensures var db := Run(w, ops).db;
            Decide(Run(w, ops), c).1.decision.allowed <==>
            !Frozen(db, ImageOf(c), DigestOf(c), c.now) && SignaturePasses(db, ImageOf(c), DigestOf(c), c)
  {
    InForce(w, ops, k, ImageOf(c), DigestOf(c), c.now);
    DecisionIsVerdict(Run(w, ops), c);
    assert VerdictOf(Decide(Run(w, ops), c).1.decision) == VerdictOn(Run(w, ops).db, c);
  }

  // ---------------------------------------------------------------- over interleavings

  lemma {:induction false} StepKeepsTables(p: Process, w: World)
    ensures SameTables(w.db, Step(p, w).1.db)
  {
  }

  lemma {:induction false} ActionKeepsOverrides(s: State, a: Action)
    requires Valid(s.world.db)
    ensures OverridesStay(s.world.db, Act(s, a).world.db)
  {
    var before, after := s.world.db, Act(s, a).world.db;
    match a
    case Start(_) => SameTablesStay(before, after);
    case Advance(i) =>
      if i < |s.procs| { StepKeepsTables(s.procs[i], s.world); }
      SameTablesStay(before, after);
    case AddFreeze(row) =>
      FreezeAdds(before, row);
      AddedStay(before, after, Some(row), None, None);
    case AddApproval(row) =>
      ApprovalAdds(before, row);
      AddedStay(before, after, None, Some(row), None);
    case AddBypass(row) =>
      BypassAdds(before, row);
      AddedStay(before, after, None, None, Some(row));
  }

  lemma {:induction false} OverridesStayInRun(w: World, run: seq<Action>, k: nat)
    requires Valid(w.db) && RunOk(run) && k <= |run|
    ensures OverridesStay(After(w, run[..k]).world.db, After(w, run).world.db)
    decreases |run|
  {
    if k == |run| {
      assert run[..k] == run;
    } else {
      var n := |run| - 1;
      assert run[..n][..k] == run[..k];
      OverridesStayInRun(w, run[..n], k);
      InvariantHolds(w, run[..n]);
      ActionKeepsOverrides(After(w, run[..n]), run[n]);
      StayTransitive(After(w, run[..k]).world.db, After(w, run[..n]).world.db, After(w, run).world.db);
    }
  }

  /** What a request is about, in the machine. */
  lemma {:induction false} BeginsAbout(c: Call)
    ensures Initial(c).subject == SubjectOf(c) && (Guarded(c) <==> AsksStore(c))
    ensures Begin(c).call == c && (AsksStore(c) <==> Begin(c).pc.AtFreeze?)
  {
  }

  /** A freeze is in the tables from the action on that adds it. */
  lemma {:induction false} FrozenFrom(w: World, run: seq<Action>, k: nat, image: TagKey, digest: string, now: Time)
    requires Valid(w.db) && RunOk(run) && k < |run| && run[k].AddFreeze?
    requires FreezeApplies(run[k].freeze, image, digest, now)
    ensures Frozen(After(w, run).world.db, image, digest, now)
  {
    var upTo := run[..k + 1];
    assert upTo == run[..k] + [run[k]];
    AfterOne(w, run[..k], run[k]);
    InvariantHolds(w, run[..k]);
    FreezeAdds(After(w, run[..k]).world.db, run[k].freeze);
    OverridesStayInRun(w, run, k + 1);
    assert Frozen(After(w, upTo).world.db, image, digest, now);
  }

  /** A request that starts later finds the freeze whenever it looks. */
  lemma {:induction false} NeverUnfrozen(w: World, run: seq<Action>, k: nat, m: nat, i: nat, c: Call)
    requires Valid(w.db) && RunOk(run) && k < m < |run| && run[k].AddFreeze?
    requires run[m] == Start(c) && i == |After(w, run[..m]).procs|
    requires FreezeApplies(run[k].freeze, ImageOf(c), DigestOf(c), c.now)
    ensures !Found(w, run, i, NoFreeze)
  {
    forall n | 0 <= n < |run| && run[n] == Advance(i) ensures !FindsAt(w, run[..n], i, NoFreeze) {
      if n < m {
        FewerBefore(w, run, n, m);
      } else {
        StartedCall(w, run, m, n);
        assert run[..n][k] == run[k];
        FrozenFrom(w, run[..n], k, ImageOf(c), DigestOf(c), c.now);
        BeginsAbout(c);
      }
    }
  }

  lemma {:induction false} FewerBefore(w: World, run: seq<Action>, n: nat, m: nat)
    requires n <= m <= |run|
    ensures |After(w, run[..n]).procs| <= |After(w, run[..m]).procs|
    decreases m
  {
    if n < m {
      assert run[..m][..m - 1] == run[..m - 1];
      FewerBefore(w, run, n, m - 1);
    }
  }

  /** The request that starts at `m` has its number and its call from then on. */
  lemma {:induction false} StartedCall(w: World, run: seq<Action>, m: nat, n: nat)
    requires m < n <= |run| && run[m].Start?
    ensures var i := |After(w, run[..m]).procs|;
            i < |After(w, run[..n]).procs| && After(w, run[..n]).procs[i].call == run[m].call
  {
    var early := run[..n];
    assert early[..m + 1] == run[..m] + [run[m]] && early[..m] == run[..m];
    AfterOne(w, run[..m], run[m]);
    CallsStay(w, early, m + 1, |After(w, run[..m]).procs|);
  }

  /**
   A freeze takes effect among concurrent requests: none that starts after it, and to which it applies, is ever
   allowed, however its steps interleave with those of others, and whatever fails.
   */
  lemma {:induction false} FreezeStopsRequests(w: World, run: seq<Action>, k: nat, m: nat, i: nat, c: Call)
    requires Valid(w.db) && RunOk(run) && k < m < |run| && run[k].AddFreeze?
    requires run[m] == Start(c) && i == |After(w, run[..m]).procs|
    requires AsksStore(c) && FreezeApplies(run[k].freeze, ImageOf(c), DigestOf(c), c.now)
    ensures i < |After(w, run).procs| && !After(w, run).procs[i].decision.allowed
  {
    assert run[..|run|] == run;
    StartedCall(w, run, m, |run|);
    NeverUnfrozen(w, run, k, m, i, c);
    AllowedIsGrounded(w, run, i);
    BeginsAbout(c);
  }
}
