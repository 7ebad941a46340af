/** Safety of every interleaving of requests and operator commands. */
module Protocol {
  import opened Prelude
  import opened Policy
  import opened Tables
  import opened Quarantine
  import opened Runs
  import opened Laws
  import opened Machine

  // ---------------------------------------------------------------- evidence in a run

  /** What a request can find, or do, when one of its steps is executed. */
  datatype Finding =
    | NoFreeze
    | AnApproval
    | ABypass
    | NoRow
    | NewRow(image: TagKey, digest: string, firstSeen: Seconds)
    | Signature(key: CosignKey)

  /** What the next step of `p` finds; images and digests are those that the request resolved. */
  ghost predicate Finds(f: Finding, p: Process, db: Database) {
    var c, about := p.call, Initial(p.call).subject;
    match f
    case NoFreeze => p.pc.AtFreeze? && !Frozen(db, about.image, about.digest, c.now)
    case AnApproval => p.pc.AtApproval? && Approved(db, about.image, about.digest, c.now)
    case ABypass => p.pc.AtBypass? && Bypassing(db, about.image, c.now)
    case NoRow => p.pc.AtLookup? && forall t :: !Observed(db, about.image, about.digest, t)
    case NewRow(image, digest, t) =>
      && p.pc.AtInsert? && Gated(c) && about.image == image && about.digest == digest && Unix(c.now) == t
      && InsertNew !in c.faults && forall t :: !Observed(db, image, digest, t)
    case Signature(key) =>
      && p.pc.AtCacheRead? && key == CosignKeyOf(about.image, about.digest, c.policy)
      && ReadCosign !in c.faults && !CacheHit(db, c, p.decision) && Succeeds(c.verifier, key, c.policy.cosign)
  }

  ghost predicate FindsAt(w: World, run: seq<Action>, i: nat, f: Finding) {
    var s := After(w, run);
    i < |s.procs| && Finds(f, s.procs[i], s.world.db)
  }

  /** At some step of the run, request `i` found that. */
  ghost predicate Found(w: World, run: seq<Action>, i: nat, f: Finding) {
    exists k :: 0 <= k < |run| && run[k] == Advance(i) && FindsAt(w, run[..k], i, f)
  }

  /** A first-seen time comes from the initial store, or is the start of a request that inserted the row. */
  ghost predicate FirstSeenBy(w: World, run: seq<Action>, image: TagKey, digest: string, t: Seconds) {
    Observed(w.db, image, digest, t) || exists q :: Found(w, run, q, NewRow(image, digest, t))
  }

  /** A verification with this cache key succeeded before the run or for some request of it. */
  ghost predicate VerifiedBy(w: World, run: seq<Action>, key: CosignKey) {
    Verified(w.db, key) || exists q :: Found(w, run, q, Signature(key))
  }

  ghost predicate SeesRow(w: World, run: seq<Action>, i: nat, t: Seconds) {
    var s := After(w, run);
    i < |s.procs| && s.procs[i].pc.AtLookup?
    && var about := Initial(s.procs[i].call).subject;
       FirstSeenBy(w, run, about.image, about.digest, t)
  }

  /** When request `i` looked its digest up, the row had been there since `t`, put there before. */
  ghost predicate SawRow(w: World, run: seq<Action>, i: nat, t: Seconds) {
    exists k :: 0 <= k < |run| && run[k] == Advance(i) && SeesRow(w, run[..k], i, t)
  }

  ghost predicate SawDueRow(w: World, run: seq<Action>, i: nat, c: Call) {
    exists t :: SawRow(w, run, i, t) && c.now >= Due(t, c.policy)
  }

  /** A request that the override table and the store decide, not the policy alone. */
  predicate Guarded(c: Call) {
    c.ref.isDigestPinned || Gated(c)
  }

  ghost predicate Justified(w: World, run: seq<Action>, i: nat, c: Call) {
    if c.ref.isDigestPinned then c.policy.digestPinnedImages != ACTION_DENY
    else
      || Found(w, run, i, AnApproval)
      || Found(w, run, i, ABypass)
      || (c.policy.mutableTags.allowFirstSeenPull && Found(w, run, i, NoRow))
      || SawDueRow(w, run, i, c)
  }

  ghost predicate Signed(w: World, run: seq<Action>, c: Call) {
    var about := Initial(c).subject;
    c.policy.cosign.required ==> VerifiedBy(w, run, CosignKeyOf(about.image, about.digest, c.policy))
  }

  ghost predicate Grounded(w: World, run: seq<Action>, i: nat, c: Call) {
    Found(w, run, i, NoFreeze) && Justified(w, run, i, c) && Signed(w, run, c)
  }

  // ---------------------------------------------------------------- the invariant

  predicate Settled(pc: Pc) {
    pc.AtDecision? || pc.AtAudit? || pc.Done?
  }

  predicate Allowing(pc: Pc) {
    pc.AtCacheRead? || pc.AtCacheWrite? || pc.AtMark?
  }

  /** The row a request has read is still there, with the same first-seen time. */
  ghost predicate Stored(db: Database, p: Process) {
    && p.observation.Some?
    && p.observation.value.id in db.observations.rows
    && var row := db.observations.rows[p.observation.value.id];
       var about := Initial(p.call).subject;
       SameKey(row, about.image, about.digest) && p.observation.value.firstSeenAt == FromUnix(row.firstSeen)
  }

  ghost predicate ViewOk(w: World, run: seq<Action>, i: nat, p: Process) {
    && (p.pc.AtFreeze? ==> p.view == NO_VIEW)
    && (!p.pc.AtFreeze? && !p.pc.AtApproval? && !p.pc.AtBypass? && !Settled(p.pc) ==> p.view.freeze.None?)
    && (!p.pc.AtFreeze? && p.view.freeze.None? && !Settled(p.pc) ==> Found(w, run, i, NoFreeze))
    && (p.view.approval.Some? ==> Found(w, run, i, AnApproval))
    && (p.view.bypass.Some? ==> Found(w, run, i, ABypass))
  }

  ghost predicate RowOk(w: World, run: seq<Action>, i: nat, p: Process, db: Database) {
    var about := Initial(p.call).subject;
    && (p.pc.AtInsert? || p.pc.AtReread? ==> Found(w, run, i, NoRow))
    && (p.pc.AtReread? ==> exists t :: Observed(db, about.image, about.digest, t))
    && (p.pc.AtTouch? ==> Stored(db, p) && SawRow(w, run, i, Unix(p.observation.value.firstSeenAt)))
    && (Allowing(p.pc) && !p.call.ref.isDigestPinned ==> Stored(db, p))
  }

  ghost predicate AllowOk(w: World, run: seq<Action>, i: nat, p: Process) {
    && (Allowing(p.pc) ==> Justified(w, run, i, p.call))
    && (p.pc.AtMark? ==> Signed(w, run, p.call))
    && (p.decision.allowed ==> Settled(p.pc) && Grounded(w, run, i, p.call))
  }

  /** What is known of every request, whatever its policy. */
  ghost predicate AnyOk(w: World, run: seq<Action>, p: Process) {
    var about := Initial(p.call).subject;
    && (!p.pc.Done? ==> p.failure.None? && p.decision.subject == about)
    && p.failure != Some(NilObservation)
    && (!Settled(p.pc) ==> Guarded(p.call))
    && (p.pc.AtLookup? || p.pc.AtInsert? || p.pc.AtReread? || p.pc.AtTouch? || p.pc.AtMark? ==>
          !p.call.ref.isDigestPinned)
    && (p.pc.AtCacheWrite? && p.answer.success ==>
          VerifiedBy(w, run, CosignKeyOf(about.image, about.digest, p.call.policy)))
  }

  ghost predicate ProcessOk(w: World, run: seq<Action>, i: nat, p: Process, db: Database) {
    && AnyOk(w, run, p)
    && (Guarded(p.call) ==> ViewOk(w, run, i, p) && RowOk(w, run, i, p, db) && AllowOk(w, run, i, p))
  }

  /** Every stored first-seen time and every stored success has its origin. */
  ghost predicate OriginsOk(w: World, run: seq<Action>, db: Database) {
    && (forall id :: id in db.observations.rows ==>
          FirstSeenBy(w, run, db.observations.rows[id].image, db.observations.rows[id].digest,
                      db.observations.rows[id].firstSeen))
    && (forall id :: id in db.cosign.rows && db.cosign.rows[id].success != 0 ==>
          VerifiedBy(w, run, db.cosign.rows[id].key))
  }

  ghost predicate Invariant(w: World, run: seq<Action>, s: State) {
    && Valid(s.world.db)
    && OriginsOk(w, run, s.world.db)
    && forall i :: 0 <= i < |s.procs| ==> ProcessOk(w, run, i, s.procs[i], s.world.db)
  }

  // ---------------------------------------------------------------- evidence is never lost

  lemma {:induction false} FoundStays(w: World, run: seq<Action>, a: Action, i: nat, f: Finding)
    ensures Found(w, run, i, f) ==> Found(w, run + [a], i, f)
  {
    if Found(w, run, i, f) {
      var k :| 0 <= k < |run| && run[k] == Advance(i) && FindsAt(w, run[..k], i, f);
      assert (run + [a])[..k] == run[..k] && (run + [a])[k] == run[k];
    }
  }

  lemma {:induction false} FoundNow(w: World, run: seq<Action>, i: nat, f: Finding)
    requires FindsAt(w, run, i, f)
    ensures Found(w, run + [Advance(i)], i, f)
  {
    var next := run + [Advance(i)];
    assert next[..|run|] == run && next[|run|] == Advance(i);
  }

  lemma {:induction false} FirstSeenStays(w: World, run: seq<Action>, a: Action, image: TagKey, digest: string,
                                          t: Seconds)
    requires FirstSeenBy(w, run, image, digest, t)
    ensures FirstSeenBy(w, run + [a], image, digest, t)
  {
    if !Observed(w.db, image, digest, t) {
      var q :| Found(w, run, q, NewRow(image, digest, t));
      FoundStays(w, run, a, q, NewRow(image, digest, t));
    }
  }

  lemma {:induction false} VerifiedByStays(w: World, run: seq<Action>, a: Action, key: CosignKey)
    ensures VerifiedBy(w, run, key) ==> VerifiedBy(w, run + [a], key)
  {
    if VerifiedBy(w, run, key) && !Verified(w.db, key) {
      var q :| Found(w, run, q, Signature(key));
      FoundStays(w, run, a, q, Signature(key));
    }
  }

  lemma {:induction false} SawRowStays(w: World, run: seq<Action>, a: Action, i: nat, t: Seconds)
    requires SawRow(w, run, i, t)
    ensures SawRow(w, run + [a], i, t)
  {
    var k :| 0 <= k < |run| && run[k] == Advance(i) && SeesRow(w, run[..k], i, t);
    assert (run + [a])[..k] == run[..k] && (run + [a])[k] == run[k];
  }

  lemma {:induction false} JustifiedStays(w: World, run: seq<Action>, a: Action, i: nat, c: Call)
    ensures Justified(w, run, i, c) ==> Justified(w, run + [a], i, c)
  {
    FoundStays(w, run, a, i, AnApproval);
    FoundStays(w, run, a, i, ABypass);
    FoundStays(w, run, a, i, NoRow);
    if SawDueRow(w, run, i, c) {
      var t :| SawRow(w, run, i, t) && c.now >= Due(t, c.policy);
      SawRowStays(w, run, a, i, t);
    }
  }

  lemma {:induction false} SignedStays(w: World, run: seq<Action>, a: Action, c: Call)
    ensures Signed(w, run, c) ==> Signed(w, run + [a], c)
  {
    var about := Initial(c).subject;
    VerifiedByStays(w, run, a, CosignKeyOf(about.image, about.digest, c.policy));
  }

  lemma {:induction false} ViewStays(w: World, run: seq<Action>, a: Action, i: nat, p: Process)
    requires ViewOk(w, run, i, p)
    ensures ViewOk(w, run + [a], i, p)
  {
    FoundStays(w, run, a, i, NoFreeze);
    FoundStays(w, run, a, i, AnApproval);
    FoundStays(w, run, a, i, ABypass);
  }

  lemma {:induction false} ObservedPersists(before: Database, after: Database, image: TagKey, digest: string,
                                            t: Seconds)
    requires ObservationsStay(before, after) && Observed(before, image, digest, t)
    ensures Observed(after, image, digest, t)
  {
  }

  lemma {:induction false} StoredStays(before: Database, after: Database, p: Process)
    requires ObservationsStay(before, after)
    ensures Stored(before, p) ==> Stored(after, p)
  {
  }

  lemma {:induction false} RowStays(w: World, run: seq<Action>, a: Action, i: nat, p: Process, before: Database,
                                    after: Database)
    requires ObservationsStay(before, after) && RowOk(w, run, i, p, before)
    ensures RowOk(w, run + [a], i, p, after)
  {
    FoundStays(w, run, a, i, NoRow);
    StoredStays(before, after, p);
    if p.pc.AtTouch? {
      SawRowStays(w, run, a, i, Unix(p.observation.value.firstSeenAt));
    }
    if p.pc.AtReread? {
      var about := Initial(p.call).subject;
      var t :| Observed(before, about.image, about.digest, t);
      ObservedPersists(before, after, about.image, about.digest, t);
    }
  }

  lemma {:induction false} AllowStays(w: World, run: seq<Action>, a: Action, i: nat, p: Process)
    requires AllowOk(w, run, i, p)
    ensures AllowOk(w, run + [a], i, p)
  {
    FoundStays(w, run, a, i, NoFreeze);
    JustifiedStays(w, run, a, i, p.call);
    SignedStays(w, run, a, p.call);
  }

  /** A request that does not move keeps its part of the invariant. */
  lemma {:induction false} IdleProcess(w: World, run: seq<Action>, a: Action, i: nat, p: Process, before: Database,
                                       after: Database)
    requires ProcessOk(w, run, i, p, before) && ObservationsStay(before, after)
    ensures ProcessOk(w, run + [a], i, p, after)
  {
    var about := Initial(p.call).subject;
    VerifiedByStays(w, run, a, CosignKeyOf(about.image, about.digest, p.call.policy));
    if Guarded(p.call) {
      ViewStays(w, run, a, i, p);
      RowStays(w, run, a, i, p, before, after);
      AllowStays(w, run, a, i, p);
    }
  }

  lemma {:induction false} OriginsStay(w: World, run: seq<Action>, a: Action, before: Database, after: Database)
    requires OriginsOk(w, run, before)
    requires after.observations == before.observations && after.cosign == before.cosign
    ensures OriginsOk(w, run + [a], after)
  {
    forall id | id in after.observations.rows
      ensures FirstSeenBy(w, run + [a], after.observations.rows[id].image, after.observations.rows[id].digest,
                          after.observations.rows[id].firstSeen)
    {
      var row := before.observations.rows[id];
      FirstSeenStays(w, run, a, row.image, row.digest, row.firstSeen);
    }
    forall id | id in after.cosign.rows && after.cosign.rows[id].success != 0
      ensures VerifiedBy(w, run + [a], after.cosign.rows[id].key)
    {
      VerifiedByStays(w, run, a, before.cosign.rows[id].key);
    }
  }

  // ---------------------------------------------------------------- one step of one request

  lemma {:induction false} ReadsMeaning(db: Database, image: TagKey, digest: string, now: Time)
    ensures ActiveFreeze(db.freezes, image, digest, now).Some? <==> Frozen(db, image, digest, now)
    ensures ActiveApproval(db.approvals, image, digest, now).Some? <==> Approved(db, image, digest, now)
    ensures ActiveBypass(db.bypasses, image, now).Some? <==> Bypassing(db, image, now)
  {
    LocalOverrideMeaning(db, image, digest, now);
  }

  lemma {:induction false} FailedOk(w: World, run: seq<Action>, i: nat, p: Process, db: Database, f: Failure)
    requires ProcessOk(w, run, i, p, db) && !Settled(p.pc) && f != NilObservation
    ensures ProcessOk(w, run, i, Fail(p, f), db)
  {
  }

  /** A request may conclude with any denial, and with an allow that is grounded. */
  lemma {:induction false} ConcludedOk(w: World, run: seq<Action>, i: nat, p: Process, db: Database, d: Decision)
    requires ProcessOk(w, run, i, p, db) && !Settled(p.pc)
    requires d.subject == p.decision.subject && (d.allowed ==> Grounded(w, run, i, p.call))
    ensures ProcessOk(w, run, i, Conclude(p, d), db)
  {
  }

  lemma {:induction false} FreezeKeeps(w: World, run: seq<Action>, i: nat, p: Process, db: Database)
    requires ProcessOk(w, run, i, p, db) && p.pc.AtFreeze?
    requires Finds(NoFreeze, p, db) ==> Found(w, run, i, NoFreeze)
    ensures ProcessOk(w, run, i, StepRead(p, db), db)
  {
    var s := p.decision.subject;
    ReadsMeaning(db, s.image, s.digest, p.call.now);
    if ReadFreeze in p.call.faults { FailedOk(w, run, i, p, db, Failed(ReadFreeze)); }
  }

  lemma {:induction false} ApprovalKeeps(w: World, run: seq<Action>, i: nat, p: Process, db: Database)
    requires ProcessOk(w, run, i, p, db) && p.pc.AtApproval?
    requires Finds(AnApproval, p, db) ==> Found(w, run, i, AnApproval)
    ensures ProcessOk(w, run, i, StepRead(p, db), db)
  {
    var s := p.decision.subject;
    ReadsMeaning(db, s.image, s.digest, p.call.now);
    if ReadApproval in p.call.faults { FailedOk(w, run, i, p, db, Failed(ReadApproval)); }
  }

  lemma {:induction false} BypassKeeps(w: World, run: seq<Action>, i: nat, p: Process, db: Database)
    requires ProcessOk(w, run, i, p, db) && p.pc.AtBypass?
    requires Finds(ABypass, p, db) ==> Found(w, run, i, ABypass)
    ensures ProcessOk(w, run, i, StepRead(p, db), db)
  {
    var s := p.decision.subject;
    ReadsMeaning(db, s.image, s.digest, p.call.now);
    if ReadBypass in p.call.faults { FailedOk(w, run, i, p, db, Failed(ReadBypass)); }
    else {
      var q := p.(view := p.view.(bypass := ActiveBypass(db.bypasses, s.image, p.call.now)));
      OverridesKeep(w, run, i, q, db);
    }
  }

  lemma {:induction false} OverridesKeep(w: World, run: seq<Action>, i: nat, p: Process, db: Database)
    requires ProcessOk(w, run, i, p, db) && p.pc.AtBypass?
    ensures ProcessOk(w, run, i, AfterOverrides(p), db)
  {
    var o := OverrideOf(p);
    if o.decision == DECISION_DENY {
      ConcludedOk(w, run, i, p, db, DenyFrozen(p.decision));
    } else if p.call.ref.isDigestPinned {
      if p.call.policy.digestPinnedImages == ACTION_DENY {
        ConcludedOk(w, run, i, p, db, Deny(p.decision, PinnedDenied));
      } else if !p.call.policy.cosign.required {
        ConcludedOk(w, run, i, p, db, AllowPinned(p.decision, o));
      }
    }
  }

  lemma {:induction false} ObservedMeaning(t: Table<ObservationRow>, db: Database, image: TagKey, digest: string)
    requires UniqueObservations(t) && t == db.observations
    ensures var o := GetObservation(t, image, digest);
            && (o.None? <==> forall s :: !Observed(db, image, digest, s))
            && (o.Some? ==> Observed(db, image, digest, Unix(o.value.firstSeenAt)))
  {
    ObservationFound(t, image, digest);
    var o := GetObservation(t, image, digest);
    if o.Some? {
      assert Observed(db, image, digest, t.rows[o.value.id].firstSeen);
    }
  }

  lemma {:induction false} LookupKeeps(w: World, run: seq<Action>, i: nat, p: Process, db: Database)
    requires ProcessOk(w, run, i, p, db) && p.pc.AtLookup? && Valid(db)
    requires Finds(NoRow, p, db) ==> Found(w, run, i, NoRow)
    requires var about := Initial(p.call).subject;
             forall t :: Observed(db, about.image, about.digest, t) ==> SawRow(w, run, i, t)
    ensures var (q, after) := StepObservation(p, db); after == db && ProcessOk(w, run, i, q, db)
  {
    var s := p.decision.subject;
    ObservedMeaning(db.observations, db, s.image, s.digest);
    ObservationFound(db.observations, s.image, s.digest);
    if ReadObservation in p.call.faults { FailedOk(w, run, i, p, db, Failed(ReadObservation)); }
  }

  lemma {:induction false} InsertKeeps(w: World, run: seq<Action>, i: nat, p: Process, db: Database)
    requires ProcessOk(w, run, i, p, db) && p.pc.AtInsert? && Valid(db)
    ensures var (q, after) := StepObservation(p, db);
            Valid(after) && ObservationsStay(db, after) && ProcessOk(w, run, i, q, after)
  {
    var s := p.decision.subject;
    if InsertNew in p.call.faults { FailedOk(w, run, i, p, db, Failed(InsertNew)); }
    else {
      InsertObservationExtends(db, s.image, s.digest, Unix(p.call.now));
      var after := db.(observations := InsertObservation(db.observations, s.image, s.digest, Unix(p.call.now)));
      ObservedMeaning(after.observations, after, s.image, s.digest);
    }
  }

  lemma {:induction false} RereadKeeps(w: World, run: seq<Action>, i: nat, p: Process, db: Database)
    requires ProcessOk(w, run, i, p, db) && p.pc.AtReread? && Valid(db)
    ensures var (q, after) := StepObservation(p, db); after == db && ProcessOk(w, run, i, q, db)
  {
    var s := p.decision.subject;
    ObservedMeaning(db.observations, db, s.image, s.digest);
    ObservationFound(db.observations, s.image, s.digest);
    if RereadObservation in p.call.faults { FailedOk(w, run, i, p, db, Failed(RereadObservation)); }
    else { FoundRowKeeps(w, run, i, p, db, GetObservation(db.observations, s.image, s.digest).value); }
  }

  lemma {:induction false} FoundRowKeeps(w: World, run: seq<Action>, i: nat, p: Process, db: Database, obs: Observation)
    requires ProcessOk(w, run, i, p, db) && p.pc.AtReread? && Stored(db, p.(observation := Some(obs)))
    ensures ProcessOk(w, run, i, AfterReread(p, obs), db)
  {
    var q := p.(observation := Some(obs));
    var seen := Seen(p.decision, obs.firstSeenAt);
    if OverrideOf(p).decision != DECISION_ALLOW && !p.call.policy.mutableTags.allowFirstSeenPull {
      ConcludedOk(w, run, i, q, db,
                  Quarantined(seen, obs.firstSeenAt, p.call.policy.mutableTags.minDigestAge, NewDigest));
    } else {
      ToAllowKeeps(w, run, i, q, db, Overridden(seen, OverrideOf(p)));
    }
  }

  lemma {:induction false} ToAllowKeeps(w: World, run: seq<Action>, i: nat, p: Process, db: Database, d: Decision)
    requires ProcessOk(w, run, i, p, db) && (p.pc.AtReread? || p.pc.AtTouch?)
    requires Stored(db, p) && Justified(w, run, i, p.call) && d.subject == p.decision.subject && !d.allowed
    ensures ProcessOk(w, run, i, ToAllow(p, d), db)
  {
  }

  lemma {:induction false} TouchKeeps(w: World, run: seq<Action>, i: nat, p: Process, db: Database)
    requires ProcessOk(w, run, i, p, db) && p.pc.AtTouch? && Valid(db)
    ensures var (q, after) := StepTouch(p, db);
            Valid(after) && ObservationsStay(db, after) && ProcessOk(w, run, i, q, after)
  {
    var obs := p.observation.value;
    if TouchSeen in p.call.faults {
      FailedOk(w, run, i, p, db, Failed(TouchSeen));
    } else {
      UpdateObservationExtends(db, obs.id, Unix(p.call.now));
      var after := db.(observations := TouchObservation(db.observations, obs.id, Unix(p.call.now)));
      StoredStays(db, after, p);
      TouchedKeeps(w, run, i, p, after);
    }
  }

  lemma {:induction false} TouchedKeeps(w: World, run: seq<Action>, i: nat, p: Process, db: Database)
    requires ProcessOk(w, run, i, p, db) && p.pc.AtTouch?
    ensures ProcessOk(w, run, i, AfterTouching(p, p.observation.value), db)
  {
    var obs := p.observation.value;
    var seen := Seen(p.decision, obs.firstSeenAt);
    var age := Sub(p.call.now, obs.firstSeenAt);
    AgeComparison(p.call.now, Unix(obs.firstSeenAt), p.call.policy);
    if OverrideOf(p).decision == DECISION_ALLOW {
      ToAllowKeeps(w, run, i, p, db, Overridden(seen, OverrideOf(p)));
    } else if age < p.call.policy.mutableTags.minDigestAge {
      ConcludedOk(w, run, i, p, db,
        Quarantined(Aging(seen, age), obs.firstSeenAt, p.call.policy.mutableTags.minDigestAge, StillInQuarantine));
    } else {
      assert SawDueRow(w, run, i, p.call);
      ToAllowKeeps(w, run, i, p, db, Aging(seen, age));
    }
  }

  // ---------------------------------------------------------------- verification and logging

  lemma {:induction false} VerifiedKeeps(w: World, run: seq<Action>, i: nat, p: Process, db: Database, d: Decision)
    requires ProcessOk(w, run, i, p, db) && (p.pc.AtCacheRead? || p.pc.AtCacheWrite?)
    requires d.subject == p.decision.subject && !d.allowed && Signed(w, run, p.call)
    ensures ProcessOk(w, run, i, AfterVerified(p, d), db)
  {
    if p.call.ref.isDigestPinned {
      ConcludedOk(w, run, i, p, db, AllowPinned(d, OverrideOf(p)));
    }
  }

  lemma {:induction false} CacheReadKeeps(w: World, run: seq<Action>, i: nat, p: Process, db: Database)
    requires ProcessOk(w, run, i, p, db) && p.pc.AtCacheRead? && Valid(db)
    requires forall key :: Verified(db, key) ==> VerifiedBy(w, run, key)
    requires var about := Initial(p.call).subject;
             var key := CosignKeyOf(about.image, about.digest, p.call.policy);
             Finds(Signature(key), p, db) ==> Found(w, run, i, Signature(key))
    ensures ProcessOk(w, run, i, StepCacheRead(p, db), db)
  {
    var s := p.decision.subject;
    var key := CosignKeyOf(s.image, s.digest, p.call.policy);
    var answer := p.call.verifier(s.image.registry, s.image.repository, s.digest, p.call.policy.cosign);
    CosignFound(db.cosign, key);
    if ReadCosign in p.call.faults {
      ConcludedOk(w, run, i, p, db, Deny(p.decision, CacheUnreadable(p.call.faults[ReadCosign])));
    } else if CacheHit(db, p.call, p.decision) {
      assert Verified(db, key);
      VerifiedKeeps(w, run, i, p, db, p.decision.(cosignVerified := true, cosignCached := true));
    } else if answer.Err? {
      ConcludedOk(w, run, i, p, db, Deny(p.decision, CosignFailed(answer.error)));
    }
  }

  /** Writing a verification keeps the constraints and changes no other row. */
  lemma {:induction false} RecordCosignRows(db: Database, row: CosignRow)
    requires Valid(db) && row.success == BoolInt(row.success != 0)
    ensures var after := db.(cosign := RecordCosign(db.cosign, row));
            && Valid(after)
            && forall id :: id in after.cosign.rows ==>
                 after.cosign.rows[id] == row || (id in db.cosign.rows && db.cosign.rows[id] == after.cosign.rows[id])
  {
    CosignFound(db.cosign, row.key);
    LatestIdMeaning(CosignWithKey(db.cosign, row.key));
  }

  lemma {:induction false} CacheWriteKeeps(w: World, run: seq<Action>, i: nat, p: Process, db: Database)
    requires ProcessOk(w, run, i, p, db) && p.pc.AtCacheWrite? && Valid(db)
    ensures var (q, after) := StepCacheWrite(p, db);
            Valid(after) && after == db.(cosign := after.cosign) && ProcessOk(w, run, i, q, after)
  {
    RecordCosignRows(db, CacheRow(p.call, p.decision, p.answer));
    var after := db.(cosign := RecordCosign(db.cosign, CacheRow(p.call, p.decision, p.answer)));
    if WriteCosign in p.call.faults {
      ConcludedOk(w, run, i, p, db, Deny(p.decision, CacheUnwritable(p.call.faults[WriteCosign])));
    } else if !p.answer.success {
      ConcludedOk(w, run, i, p, after, Deny(p.decision, CosignFailed(p.answer.reason)));
    } else {
      VerifiedKeeps(w, run, i, p, after, p.decision.(cosignVerified := true));
    }
  }

  lemma {:induction false} MarkKeeps(w: World, run: seq<Action>, i: nat, p: Process, db: Database)
    requires ProcessOk(w, run, i, p, db) && p.pc.AtMark? && Valid(db)
    ensures var (q, after) := StepMark(p, db);
            Valid(after) && ObservationsStay(db, after) && ProcessOk(w, run, i, q, after)
  {
    var (after, d) := MarkAndAllow(db, p.call, p.observation.value.id, p.decision);
    MarkAndAllowExtends(db, p.call, p.observation.value.id, p.decision);
    StoredStays(db, after, p);
    ConcludedOk(w, run, i, p, after, d);
  }

  lemma {:induction false} LogKeeps(w: World, run: seq<Action>, i: nat, p: Process, v: World)
    requires ProcessOk(w, run, i, p, v.db) && (p.pc.AtDecision? || p.pc.AtAudit?) && Valid(v.db)
    ensures var (q, after) := StepLog(p, v);
            Valid(after.db) && after.db == v.db.(decisions := after.db.decisions) && ProcessOk(w, run, i, q, after.db)
  {
  }

  // ---------------------------------------------------------------- where the stored rows come from

  /** Every row of `after` has the key and the first-seen time of a row of `before`. */
  ghost predicate NoNewRows(before: Database, after: Database) {
    forall id :: id in after.observations.rows ==>
      id in before.observations.rows
      && SameKey(after.observations.rows[id], before.observations.rows[id].image, before.observations.rows[id].digest)
      && after.observations.rows[id].firstSeen == before.observations.rows[id].firstSeen
  }

  lemma {:induction false} OriginsAfterUpdate(w: World, run: seq<Action>, before: Database, after: Database)
    requires OriginsOk(w, run, before) && NoNewRows(before, after) && after.cosign == before.cosign
    ensures OriginsOk(w, run, after)
  {
  }

  lemma {:induction false} OriginsAfterInsert(w: World, run: seq<Action>, db: Database, image: TagKey, digest: string,
                                              t: Seconds)
    requires OriginsOk(w, run, db)
    requires (forall s :: !Observed(db, image, digest, s)) ==> FirstSeenBy(w, run, image, digest, t)
    ensures OriginsOk(w, run, db.(observations := InsertObservation(db.observations, image, digest, t)))
  {
    var found := WithKey(db.observations, image, digest);
    if found == map[] {
      forall s ensures !Observed(db, image, digest, s) {
        assert forall id ::
          id in db.observations.rows && SameKey(db.observations.rows[id], image, digest) ==> id in found;
      }
    }
  }

  lemma {:induction false} OriginsAfterCosign(w: World, run: seq<Action>, db: Database, row: CosignRow)
    requires OriginsOk(w, run, db) && Valid(db) && row.success == BoolInt(row.success != 0)
    requires row.success != 0 ==> VerifiedBy(w, run, row.key)
    ensures OriginsOk(w, run, db.(cosign := RecordCosign(db.cosign, row)))
  {
    RecordCosignRows(db, row);
  }

  lemma {:induction false} VerifiedOrigins(w: World, run: seq<Action>, db: Database)
    requires OriginsOk(w, run, db)
    ensures forall key :: Verified(db, key) ==> VerifiedBy(w, run, key)
  {
  }

  lemma {:induction false} OriginsAfterStep(w: World, run: seq<Action>, i: nat, p: Process, v: World)
    requires OriginsOk(w, run, v.db) && Valid(v.db) && ProcessOk(w, run, i, p, v.db)
    requires var about := Initial(p.call).subject;
             forall t :: Finds(NewRow(about.image, about.digest, t), p, v.db) ==>
               Found(w, run, i, NewRow(about.image, about.digest, t))
    ensures OriginsOk(w, run, Step(p, v).1.db)
  {
    var s := p.decision.subject;
    var after := Step(p, v).1.db;
    if p.pc.AtInsert? {
      if InsertNew !in p.call.faults {
        var t := Unix(p.call.now);
        if forall r :: !Observed(v.db, s.image, s.digest, r) {
          assert Finds(NewRow(s.image, s.digest, t), p, v.db);
        }
        OriginsAfterInsert(w, run, v.db, s.image, s.digest, t);
      }
    } else if p.pc.AtCacheWrite? {
      OriginsAfterCosign(w, run, v.db, CacheRow(p.call, p.decision, p.answer));
    } else {
      StepUpdates(p, v);
      OriginsAfterUpdate(w, run, v.db, after);
    }
  }

  lemma {:induction false} StepUpdates(p: Process, v: World)
    requires !p.pc.AtInsert? && !p.pc.AtCacheWrite?
    ensures NoNewRows(v.db, Step(p, v).1.db) && Step(p, v).1.db.cosign == v.db.cosign
  {
  }

  // ---------------------------------------------------------------- every run

  predicate WritesObservation(pc: Pc) {
    pc.AtInsert? || pc.AtTouch? || pc.AtMark?
  }

  predicate WritesElsewhere(pc: Pc) {
    pc.AtCacheWrite? || pc.AtDecision? || pc.AtAudit?
  }

  lemma {:induction false} ObservationWriteKeeps(w: World, run: seq<Action>, i: nat, p: Process, v: World)
    requires ProcessOk(w, run, i, p, v.db) && Valid(v.db) && WritesObservation(p.pc)
    ensures Valid(Step(p, v).1.db) && ObservationsStay(v.db, Step(p, v).1.db)
    ensures ProcessOk(w, run, i, Step(p, v).0, Step(p, v).1.db)
  {
    if p.pc.AtInsert? { InsertKeeps(w, run, i, p, v.db); }
    else if p.pc.AtTouch? { TouchKeeps(w, run, i, p, v.db); }
    else { MarkKeeps(w, run, i, p, v.db); }
  }

  lemma {:induction false} OtherWriteKeeps(w: World, run: seq<Action>, i: nat, p: Process, v: World)
    requires ProcessOk(w, run, i, p, v.db) && Valid(v.db) && WritesElsewhere(p.pc)
    ensures Valid(Step(p, v).1.db) && ObservationsStay(v.db, Step(p, v).1.db)
    ensures ProcessOk(w, run, i, Step(p, v).0, Step(p, v).1.db)
  {
    if p.pc.AtCacheWrite? { CacheWriteKeeps(w, run, i, p, v.db); } else { LogKeeps(w, run, i, p, v); }
  }

  lemma {:induction false} DatabaseKeeps(w: World, run: seq<Action>, i: nat, p: Process, v: World)
    requires ProcessOk(w, run, i, p, v.db) && Valid(v.db)
    ensures Valid(Step(p, v).1.db) && ObservationsStay(v.db, Step(p, v).1.db)
  {
    if WritesObservation(p.pc) { ObservationWriteKeeps(w, run, i, p, v); }
    else if WritesElsewhere(p.pc) { OtherWriteKeeps(w, run, i, p, v); }
    else { NothingWritten(p, v); }
  }

  lemma {:induction false} NothingWritten(p: Process, v: World)
    requires !WritesObservation(p.pc) && !WritesElsewhere(p.pc)
    ensures Step(p, v).1 == v
  {
  }

  lemma {:induction false} OverrideReadKeeps(w: World, run: seq<Action>, i: nat, p: Process, v: World)
    requires ProcessOk(w, run, i, p, v.db) && (p.pc.AtFreeze? || p.pc.AtApproval? || p.pc.AtBypass?)
    requires forall f :: Finds(f, p, v.db) ==> Found(w, run, i, f)
    ensures ProcessOk(w, run, i, StepRead(p, v.db), v.db)
  {
    if p.pc.AtFreeze? { FreezeKeeps(w, run, i, p, v.db); }
    else if p.pc.AtApproval? { ApprovalKeeps(w, run, i, p, v.db); }
    else { BypassKeeps(w, run, i, p, v.db); }
  }

  /** The step of a request that has found what its finding says keeps its part of the invariant. */
  lemma {:induction false} StepKeeps(w: World, run: seq<Action>, i: nat, p: Process, v: World)
    requires ProcessOk(w, run, i, p, v.db) && Valid(v.db) && OriginsOk(w, run, v.db)
    requires forall f :: Finds(f, p, v.db) ==> Found(w, run, i, f)
    requires p.pc.AtLookup? ==>
      var about := Initial(p.call).subject;
      forall t :: Observed(v.db, about.image, about.digest, t) ==> SawRow(w, run, i, t)
    ensures ProcessOk(w, run, i, Step(p, v).0, Step(p, v).1.db)
  {
    if WritesObservation(p.pc) { ObservationWriteKeeps(w, run, i, p, v); }
    else if WritesElsewhere(p.pc) { OtherWriteKeeps(w, run, i, p, v); }
    else if p.pc.AtLookup? { LookupKeeps(w, run, i, p, v.db); }
    else if p.pc.AtReread? { RereadKeeps(w, run, i, p, v.db); }
    else if p.pc.AtCacheRead? {
      VerifiedOrigins(w, run, v.db);
      CacheReadKeeps(w, run, i, p, v.db);
    } else if !p.pc.Done? { OverrideReadKeeps(w, run, i, p, v); }
  }

  lemma {:induction false} SawRowNow(w: World, run: seq<Action>, i: nat, t: Seconds)
    requires SeesRow(w, run, i, t)
    ensures SawRow(w, run + [Advance(i)], i, t)
  {
    var next := run + [Advance(i)];
    assert next[..|run|] == run && next[|run|] == Advance(i);
  }

  /** What the acting request needs to know about its own step. */
  lemma {:induction false} EvidenceNow(w: World, run: seq<Action>, i: nat)
    requires var s := After(w, run); Invariant(w, run, s) && i < |s.procs|
    ensures var s := After(w, run);
            var p, next := s.procs[i], run + [Advance(i)];
            && (forall f :: Finds(f, p, s.world.db) ==> Found(w, next, i, f))
            && (p.pc.AtLookup? ==>
                  var about := Initial(p.call).subject;
                  forall t :: Observed(s.world.db, about.image, about.digest, t) ==> SawRow(w, next, i, t))
  {
    var s := After(w, run);
    var p := s.procs[i];
    var about := Initial(p.call).subject;
    forall f | Finds(f, p, s.world.db) ensures Found(w, run + [Advance(i)], i, f) {
      FoundNow(w, run, i, f);
    }
    if p.pc.AtLookup? {
      forall t | Observed(s.world.db, about.image, about.digest, t) ensures SawRow(w, run + [Advance(i)], i, t) {
        assert SeesRow(w, run, i, t);
        SawRowNow(w, run, i, t);
      }
    }
  }

  lemma {:induction false} AfterOne(w: World, run: seq<Action>, a: Action)
    ensures After(w, run + [a]) == Act(After(w, run), a)
  {
    assert (run + [a])[..|run|] == run;
  }

  lemma {:induction false} AdvanceKeeps(w: World, run: seq<Action>, i: nat)
    requires Invariant(w, run, After(w, run)) && i < |After(w, run).procs|
    ensures var s := After(w, run + [Advance(i)]);
            Invariant(w, run + [Advance(i)], s) && ObservationsStay(After(w, run).world.db, s.world.db)
  {
    var s, a := After(w, run), Advance(i);
    var p, next := s.procs[i], run + [a];
    var (q, v) := Step(p, s.world);
    AfterOne(w, run, a);
    EvidenceNow(w, run, i);
    OriginsStay(w, run, a, s.world.db, s.world.db);
    IdleProcess(w, run, a, i, p, s.world.db, s.world.db);
    StepKeeps(w, next, i, p, s.world);
    DatabaseKeeps(w, next, i, p, s.world);
    OriginsAfterStep(w, next, i, p, s.world);
    forall j | 0 <= j < |s.procs| && j != i ensures ProcessOk(w, next, j, s.procs[j], v.db) {
      IdleProcess(w, run, a, j, s.procs[j], s.world.db, v.db);
    }
  }

  lemma {:induction false} BeginOk(w: World, run: seq<Action>, i: nat, c: Call, db: Database)
    ensures ProcessOk(w, run, i, Begin(c), db)
  {
  }

  /** A new request, and every operator command. */
  lemma {:induction false} OtherActionKeeps(w: World, run: seq<Action>, a: Action)
    requires Invariant(w, run, After(w, run)) && ActionOk(a)
    requires a.Advance? ==> a.process >= |After(w, run).procs|
    ensures var s := After(w, run + [a]);
            Invariant(w, run + [a], s) && ObservationsStay(After(w, run).world.db, s.world.db)
  {
    var s, s' := After(w, run), Act(After(w, run), a);
    AfterOne(w, run, a);
    OriginsStay(w, run, a, s.world.db, s'.world.db);
    forall j | 0 <= j < |s'.procs| ensures ProcessOk(w, run + [a], j, s'.procs[j], s'.world.db) {
      if j < |s.procs| {
        IdleProcess(w, run, a, j, s.procs[j], s.world.db, s'.world.db);
      } else {
        BeginOk(w, run + [a], j, a.call, s'.world.db);
      }
    }
  }

  ghost predicate RunOk(run: seq<Action>) {
    forall k :: 0 <= k < |run| ==> ActionOk(run[k])
  }

  lemma {:induction false} InvariantHolds(w: World, run: seq<Action>)
    requires Valid(w.db) && RunOk(run)
    ensures Invariant(w, run, After(w, run))
    decreases |run|
  {
    if run == [] {
      InitialOrigins(w);
    } else {
      var before, a := run[..|run| - 1], run[|run| - 1];
      assert run == before + [a];
      InvariantHolds(w, before);
      if a.Advance? && a.process < |After(w, before).procs| { AdvanceKeeps(w, before, a.process); }
      else { OtherActionKeeps(w, before, a); }
    }
  }

  lemma {:induction false} InitialOrigins(w: World)
    ensures OriginsOk(w, [], w.db)
  {
  }

  // ---------------------------------------------------------------- safety

  /**
   Core safety, for every interleaving of requests, approvals, bypasses and freezes over any store: a
   request about a pinned digest, or about a tag under quarantine that resolved, is allowed only if its
   own freeze read found none; if the policy admits pinned digests, or the request found an approval, a
   bypass, or no row where first pulls are permitted, or a row that was due; and, where a signature is
   required, only if a verification under the same cache key succeeded.
   */
  lemma {:induction false} AllowedIsGrounded(w: World, run: seq<Action>, i: nat)
    requires Valid(w.db) && RunOk(run) && i < |After(w, run).procs|
    ensures var p := After(w, run).procs[i];
            Guarded(p.call) && p.decision.allowed ==> Grounded(w, run, i, p.call)
  {
    InvariantHolds(w, run);
  }

  /** Before request `i` looked the digest up, another request that resolved it had inserted its row at `t`. */
  ghost predicate InsertedBefore(w: World, run: seq<Action>, q: nat, i: nat, image: TagKey, digest: string,
                                 t: Seconds)
  {
    exists k :: 0 <= k < |run| && run[k] == Advance(i) && AtLookupOf(w, run[..k], i, image, digest)
                && Found(w, run[..k], q, NewRow(image, digest, t))
  }

  ghost predicate AtLookupOf(w: World, run: seq<Action>, i: nat, image: TagKey, digest: string) {
    var s := After(w, run);
    i < |s.procs| && s.procs[i].pc.AtLookup?
    && Initial(s.procs[i].call).subject.image == image && Initial(s.procs[i].call).subject.digest == digest
  }

  lemma {:induction false} InsertingIsPastLookup(w: World, run: seq<Action>, q: nat, f: Finding)
    requires FindsAt(w, run, q, f) && f.NewRow?
    ensures q < |After(w, run).procs| && Rank(After(w, run).procs[q].pc) < Rank(AtLookup)
  {
  }

  lemma {:induction false} StillPastLookup(w: World, run: seq<Action>, k: nat, q: nat)
    requires k <= |run| && q < |After(w, run[..k]).procs| && Rank(After(w, run[..k]).procs[q].pc) < Rank(AtLookup)
    ensures q < |After(w, run).procs| && Rank(After(w, run).procs[q].pc) < Rank(AtLookup)
    decreases |run|
  {
    if k == |run| {
      assert run[..k] == run;
    } else {
      var before := run[..|run| - 1];
      assert before[..k] == run[..k];
      StillPastLookup(w, before, k, q);
      RankFalls(After(w, before), run[|run| - 1], q);
    }
  }

  /** A request that has inserted its row is past the lookup for good. */
  lemma {:induction false} InserterMovesOn(w: World, run: seq<Action>, q: nat, f: Finding)
    requires Found(w, run, q, f) && f.NewRow?
    ensures q < |After(w, run).procs| && Rank(After(w, run).procs[q].pc) < Rank(AtLookup)
  {
    var k :| 0 <= k < |run| && run[k] == Advance(q) && FindsAt(w, run[..k], q, f);
    InsertingIsPastLookup(w, run[..k], q, f);
    StillPastLookup(w, run, k, q);
  }

  lemma {:induction false} RankFalls(s: State, a: Action, q: nat)
    requires q < |s.procs|
    ensures q < |Act(s, a).procs| && Rank(Act(s, a).procs[q].pc) <= Rank(s.procs[q].pc)
  {
    if !s.procs[q].pc.Done? {
      StepAdvances(s.procs[q], s.world);
    }
  }

  /**
   From an empty store, age alone admits a tag under quarantine only if an earlier, different request
   resolved the same registry, repository, tag and digest, and its start time rounded down to the second
   plus the minimum age has been reached.
   */
  lemma {:induction false} AllowedFromEmptyStore(audit: seq<Event>, run: seq<Action>, i: nat)
    requires RunOk(run) && i < |After(World(EMPTY_DATABASE, audit), run).procs|
    ensures var w := World(EMPTY_DATABASE, audit);
            var p := After(w, run).procs[i];
            var about := Initial(p.call).subject;
            Gated(p.call) && p.decision.allowed ==>
              && Found(w, run, i, NoFreeze)
              && (|| Found(w, run, i, AnApproval)
                  || Found(w, run, i, ABypass)
                  || (p.call.policy.mutableTags.allowFirstSeenPull && Found(w, run, i, NoRow))
                  || exists q, t :: q != i && InsertedBefore(w, run, q, i, about.image, about.digest, t)
                                    && p.call.now >= FromUnix(t) + p.call.policy.mutableTags.minDigestAge)
              && (p.call.policy.cosign.required ==>
                    exists q :: Found(w, run, q, Signature(CosignKeyOf(about.image, about.digest, p.call.policy))))
  {
    var w := World(EMPTY_DATABASE, audit);
    AllowedIsGrounded(w, run, i);
    var p := After(w, run).procs[i];
    if Gated(p.call) && p.decision.allowed && SawDueRow(w, run, i, p.call) {
      var t :| SawRow(w, run, i, t) && p.call.now >= Due(t, p.call.policy);
      RowWasInserted(w, run, i, t);
    }
  }

  lemma {:induction false} RowWasInserted(w: World, run: seq<Action>, i: nat, t: Seconds)
    requires w.db == EMPTY_DATABASE && SawRow(w, run, i, t)
    ensures i < |After(w, run).procs|
    ensures var about := Initial(After(w, run).procs[i].call).subject;
            exists q :: q != i && InsertedBefore(w, run, q, i, about.image, about.digest, t)
  {
    var k :| 0 <= k < |run| && run[k] == Advance(i) && SeesRow(w, run[..k], i, t);
    var early := run[..k];
    CallsStay(w, run, k, i);
    var about := Initial(After(w, early).procs[i].call).subject;
    var q :| Found(w, early, q, NewRow(about.image, about.digest, t));
    InserterMovesOn(w, early, q, NewRow(about.image, about.digest, t));
    assert AtLookupOf(w, early, i, about.image, about.digest);
    assert q != i && InsertedBefore(w, run, q, i, about.image, about.digest, t);
  }

  lemma {:induction false} CallsStay(w: World, run: seq<Action>, k: nat, i: nat)
    requires k <= |run| && i < |After(w, run[..k]).procs|
    ensures i < |After(w, run).procs| && After(w, run).procs[i].call == After(w, run[..k]).procs[i].call
    decreases |run|
  {
    if k == |run| {
      assert run[..k] == run;
    } else {
      var before := run[..|run| - 1];
      assert before[..k] == run[..k];
      CallsStay(w, before, k, i);
      CallStays(After(w, before), run[|run| - 1], i);
    }
  }

  lemma {:induction false} CallStays(s: State, a: Action, i: nat)
    requires i < |s.procs|
    ensures i < |Act(s, a).procs| && Act(s, a).procs[i].call == s.procs[i].call
  {
  }

  // ---------------------------------------------------------------- the observation table

  lemma {:induction false} ObservationsStayInRun(w: World, run: seq<Action>, k: nat)
    requires Valid(w.db) && RunOk(run) && k <= |run|
    ensures ObservationsStay(After(w, run[..k]).world.db, After(w, run).world.db)
    decreases |run|
  {
    if k == |run| {
      assert run[..k] == run;
    } else {
      var before, a := run[..|run| - 1], run[|run| - 1];
      assert run == before + [a] && before[..k] == run[..k];
      ObservationsStayInRun(w, before, k);
      InvariantHolds(w, before);
      if a.Advance? && a.process < |After(w, before).procs| { AdvanceKeeps(w, before, a.process); }
      else { OtherActionKeeps(w, before, a); }
    }
  }

  /**
   Between any two points of a run, rows keep their id, key and first-seen time; there is at most one row
   per key; each first-seen time comes from the initial store or is the start time, in seconds, of a
   request that resolved that digest; and no request ever reads back nothing after its insert.
   */
  lemma {:induction false} ObservationsOfARun(w: World, run: seq<Action>, k: nat)
    requires Valid(w.db) && RunOk(run) && k <= |run|
    ensures var early, late := After(w, run[..k]).world.db, After(w, run).world.db;
            && ObservationsStay(early, late)
            && UniqueObservations(late.observations)
            && (forall id :: id in late.observations.rows ==>
                  FirstSeenBy(w, run, late.observations.rows[id].image, late.observations.rows[id].digest,
                              late.observations.rows[id].firstSeen))
    ensures forall i :: 0 <= i < |After(w, run).procs| ==> After(w, run).procs[i].failure != Some(NilObservation)
  {
    ObservationsStayInRun(w, run, k);
    InvariantHolds(w, run);
  }

  /** A request whose insert loses reads back the row that was there first. */
  lemma {:induction false} LoserReadsWinner(w: World, run: seq<Action>, k: nat, i: nat, id: int)
    requires Valid(w.db) && RunOk(run) && k <= |run| && i < |After(w, run[..k]).procs|
    requires var early, p := After(w, run[..k]).world.db.observations, After(w, run[..k]).procs[i];
             p.pc.AtInsert? && id in early.rows
             && SameKey(early.rows[id], Initial(p.call).subject.image, Initial(p.call).subject.digest)
    requires i < |After(w, run).procs| && After(w, run).procs[i].pc.AtReread?
    ensures var row, p := After(w, run[..k]).world.db.observations.rows[id], After(w, run).procs[i];
            var q := Step(p, After(w, run).world).0;
            RereadObservation !in p.call.faults ==>
              q.observation.Some? && q.observation.value.id == id
              && q.observation.value.firstSeenAt == FromUnix(row.firstSeen)
  {
    CallsStay(w, run, k, i);
    ObservationsStayInRun(w, run, k);
    InvariantHolds(w, run);
    var db, p := After(w, run).world.db, After(w, run).procs[i];
    assert ProcessOk(w, run, i, p, db);
    ObservationFound(db.observations, p.decision.subject.image, p.decision.subject.digest);
  }
}
