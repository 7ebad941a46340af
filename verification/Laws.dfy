/** Laws of sequential runs: exact decisions, stable allows, exact deadlines, one-second truncation. */
module Laws {
  import opened Prelude
  import opened Policy
  import opened Verify
  import opened Tables
  import opened Quarantine
  import opened Runs

  /** A mutable tag under quarantine that the registry resolved to `digest`. */
  ghost predicate Resolves(c: Call, image: TagKey, digest: string) {
    && !c.ref.isDigestPinned
    && c.policy.mutableTags.action != ACTION_ALLOW && c.policy.mutableTags.action != ACTION_DENY
    && c.resolution == Ok(digest)
    && image == TagKey(c.ref.registry, c.ref.repository, c.ref.tag)
  }

  ghost predicate Observed(db: Database, image: TagKey, digest: string, firstSeen: Seconds) {
    exists id :: id in db.observations.rows && SameKey(db.observations.rows[id], image, digest)
                 && db.observations.rows[id].firstSeen == firstSeen
  }

  function CosignKeyOf(image: TagKey, digest: string, policy: EffectivePolicy): CosignKey {
    CosignKey(image.registry, image.repository, digest, CosignPolicyKey(policy.cosign))
  }

  /** The time from which a digest is old enough. */
  function Due(firstSeen: Seconds, policy: EffectivePolicy): Time {
    FromUnix(firstSeen) + policy.mutableTags.minDigestAge
  }

  /** The saturating subtraction never changes the comparison with a minimum age. */
  lemma {:induction false} AgeComparison(now: Time, firstSeen: Seconds, policy: EffectivePolicy)
    ensures Sub(now, FromUnix(firstSeen)) < policy.mutableTags.minDigestAge <==> now < Due(firstSeen, policy)
  {
  }

  // ---------------------------------------------------------------- the exact decision for a known digest

  lemma {:induction false} VerifiedPasses(db: Database, c: Call, d: Decision)
    requires Valid(db) && c.faults == map[] && Verified(db, CacheKey(c, d))
    ensures VerifyCosign(db, c, d) == (db, d.(cosignVerified := true, cosignCached := true), true)
  {
    CosignFound(db.cosign, CacheKey(c, d));
  }

  lemma {:induction false} AllowSucceeds(db: Database, c: Call, id: int, d: Decision)
    requires Valid(db) && c.faults == map[] && id in db.observations.rows
    requires c.policy.cosign.required ==> Verified(db, CacheKey(c, d))
    ensures AllowWithVerification(db, c, id, d).1.allowed
  {
    if c.policy.cosign.required {
      VerifiedPasses(db, c, d);
    }
  }

  lemma {:induction false} KnownAllowed(w: World, c: Call, d: Decision, o: Override, obs: Observation)
    requires Valid(w.db) && c.faults == map[] && obs.id in w.db.observations.rows
    requires o.decision == DECISION_ALLOW || Sub(c.now, obs.firstSeenAt) >= c.policy.mutableTags.minDigestAge
    requires c.policy.cosign.required ==> Verified(w.db, CacheKey(c, d))
    ensures var outcome := DecideSeen(w, c, d, o, obs).1; outcome.failure.None? && outcome.decision.allowed
  {
    var touched := w.db.(observations := TouchObservation(w.db.observations, obs.id, Unix(c.now)));
    UpdateObservationExtends(w.db, obs.id, Unix(c.now));
    var seen := Seen(d, obs.firstSeenAt);
    if o.decision == DECISION_ALLOW {
      AllowSucceeds(touched, c, obs.id, Overridden(seen, o));
    } else {
      AllowSucceeds(touched, c, obs.id, Aging(seen, Sub(c.now, obs.firstSeenAt)));
    }
  }

  /** The branch that a known digest takes. */
  lemma {:induction false} KnownBranch(w: World, c: Call, id: int, d: Decision)
    requires Valid(w.db) && c.faults == map[] && id in w.db.observations.rows
    requires SameKey(w.db.observations.rows[id], d.subject.image, d.subject.digest)
    ensures var o := LocalOverride(w.db, d.subject.image, d.subject.digest, c.now);
            DecideResolved(w, c, d) ==
            if o.decision == DECISION_DENY then Record(w, c, DenyFrozen(d))
            else DecideSeen(w, c, d, o, ScanObservation(id, w.db.observations.rows[id]))
  {
    ObservationFound(w.db.observations, d.subject.image, d.subject.digest);
  }

  /** Too young and without overrides: denied until due. */
  lemma {:induction false} KnownDenied(w: World, c: Call, d: Decision, o: Override, obs: Observation)
    requires c.faults == map[] && obs.id in w.db.observations.rows
    requires o.decision != DECISION_ALLOW && Sub(c.now, obs.firstSeenAt) < c.policy.mutableTags.minDigestAge
    ensures var outcome := DecideSeen(w, c, d, o, obs).1;
            && outcome.failure.None? && !outcome.decision.allowed
            && outcome.decision.standing.nextAllowedAt == Some(obs.firstSeenAt + c.policy.mutableTags.minDigestAge)
  {
  }

  /**
   Without store errors, and with a verification in the cache if one is required, a known digest is
   allowed exactly when it is not frozen and is approved, bypassed or due; otherwise the decision
   reports when it is due.
   */
  lemma {:induction false} KnownDigest(w: World, c: Call, image: TagKey, digest: string, firstSeen: Seconds)
    requires Valid(w.db) && c.faults == map[] && Resolves(c, image, digest)
    requires Observed(w.db, image, digest, firstSeen)
    requires c.policy.cosign.required ==> Verified(w.db, CosignKeyOf(image, digest, c.policy))
    ensures var Outcome(d, failure) := Decide(w, c).1;
            && failure.None?
            && (d.allowed <==> !Frozen(w.db, image, digest, c.now)
                               && (Approved(w.db, image, digest, c.now) || Bypassing(w.db, image, c.now)
                                   || c.now >= Due(firstSeen, c.policy)))
            && (!d.allowed && !Frozen(w.db, image, digest, c.now) ==>
                  d.standing.nextAllowedAt == Some(Due(firstSeen, c.policy)))
  {
    var id :| id in w.db.observations.rows && SameKey(w.db.observations.rows[id], image, digest)
              && w.db.observations.rows[id].firstSeen == firstSeen;
    var d := Resolved(NewDecision(c), digest);
    var obs := ScanObservation(id, w.db.observations.rows[id]);
    var o := LocalOverride(w.db, image, digest, c.now);
    assert Decide(w, c) == DecideResolved(w, c, d);
    LocalOverrideMeaning(w.db, image, digest, c.now);
    KnownBranch(w, c, id, d);
    AgeComparison(c.now, firstSeen, c.policy);
    if o.decision != DECISION_DENY {
      if o.decision == DECISION_ALLOW || c.now >= Due(firstSeen, c.policy) {
        KnownAllowed(w, c, d, o, obs);
      } else {
        KnownDenied(w, c, d, o, obs);
      }
    }
  }

  // ---------------------------------------------------------------- what a decision leaves behind

  /** A reported first-seen time and deadline are those of a stored observation. */
  ghost predicate Backed(after: Database, c: Call, image: TagKey, digest: string, d: Decision) {
    && (d.standing.firstSeenAt.Some? ==>
          exists s :: Observed(after, image, digest, s) && d.standing.firstSeenAt == Some(FromUnix(s)))
    && (d.standing.nextAllowedAt.Some? ==>
          && d.standing.firstSeenAt.Some? && !d.allowed
          && d.standing.nextAllowedAt.value == d.standing.firstSeenAt.value + c.policy.mutableTags.minDigestAge)
    && (d.standing.firstSeenAt.Some? && d.allowed && c.policy.cosign.required ==>
          Verified(after, CosignKeyOf(image, digest, c.policy)))
  }

  lemma {:induction false} BackedAfterAllow(w: World, c: Call, id: int, d: Decision)
    requires Valid(w.db) && id in w.db.observations.rows
    requires SameKey(w.db.observations.rows[id], d.subject.image, d.subject.digest)
    requires d.standing.firstSeenAt == Some(FromUnix(w.db.observations.rows[id].firstSeen))
    requires d.standing.nextAllowedAt.None?
    ensures var (db, d') := AllowWithVerification(w.db, c, id, d);
            var (after, outcome) := Record(w.(db := db), c, d');
            outcome.decision == d' && Backed(after.db, c, d.subject.image, d.subject.digest, d')
  {
    AllowExtends(w.db, c, id, d);
    var (db, d') := AllowWithVerification(w.db, c, id, d);
    RecordExtends(w.(db := db), c, d');
    var after := Record(w.(db := db), c, d').0;
    ExtendsTransitive(w.db, db, after.db);
    assert Observed(after.db, d.subject.image, d.subject.digest, w.db.observations.rows[id].firstSeen);
  }

  lemma {:induction false} BackedAfterDenial(w: World, c: Call, id: int, d: Decision)
    requires Valid(w.db) && id in w.db.observations.rows && !d.allowed
    requires SameKey(w.db.observations.rows[id], d.subject.image, d.subject.digest)
    requires d.standing.firstSeenAt == Some(FromUnix(w.db.observations.rows[id].firstSeen))
    requires d.standing.nextAllowedAt == Some(d.standing.firstSeenAt.value + c.policy.mutableTags.minDigestAge)
    ensures var (after, outcome) := Record(w, c, d);
            outcome.decision == d && Backed(after.db, c, d.subject.image, d.subject.digest, d)
  {
    RecordExtends(w, c, d);
    assert Observed(Record(w, c, d).0.db, d.subject.image, d.subject.digest, w.db.observations.rows[id].firstSeen);
  }

  lemma {:induction false} FirstSeenBacked(w: World, c: Call, d: Decision, o: Override)
    requires Valid(w.db) && d.standing == NO_STANDING
    ensures var (after, outcome) := DecideFirstSeen(w, c, d, o);
            Backed(after.db, c, d.subject.image, d.subject.digest, outcome.decision)
  {
    if InsertNew !in c.faults && RereadObservation !in c.faults {
      var t := InsertObservation(w.db.observations, d.subject.image, d.subject.digest, Unix(c.now));
      var inserted := w.(db := w.db.(observations := t));
      InsertObservationExtends(w.db, d.subject.image, d.subject.digest, Unix(c.now));
      ObservationFound(t, d.subject.image, d.subject.digest);
      var obs := GetObservation(t, d.subject.image, d.subject.digest).value;
      var seen := Seen(d, obs.firstSeenAt);
      if o.decision == DECISION_ALLOW || c.policy.mutableTags.allowFirstSeenPull {
        BackedAfterAllow(inserted, c, obs.id, Overridden(seen, o));
      } else {
        BackedAfterDenial(inserted, c, obs.id,
                          Quarantined(seen, obs.firstSeenAt, c.policy.mutableTags.minDigestAge, NewDigest));
      }
    }
  }

  lemma {:induction false} SeenBacked(w: World, c: Call, d: Decision, o: Override)
    requires Valid(w.db) && d.standing == NO_STANDING
    requires GetObservation(w.db.observations, d.subject.image, d.subject.digest).Some?
    ensures var obs := GetObservation(w.db.observations, d.subject.image, d.subject.digest).value;
            var (after, outcome) := DecideSeen(w, c, d, o, obs);
            Backed(after.db, c, d.subject.image, d.subject.digest, outcome.decision)
  {
    ObservationFound(w.db.observations, d.subject.image, d.subject.digest);
    if TouchSeen !in c.faults {
      var obs := GetObservation(w.db.observations, d.subject.image, d.subject.digest).value;
      var touched := w.(db := w.db.(observations := TouchObservation(w.db.observations, obs.id, Unix(c.now))));
      UpdateObservationExtends(w.db, obs.id, Unix(c.now));
      var seen := Seen(d, obs.firstSeenAt);
      var aged := Aging(seen, Sub(c.now, obs.firstSeenAt));
      if o.decision == DECISION_ALLOW {
        BackedAfterAllow(touched, c, obs.id, Overridden(seen, o));
      } else if Sub(c.now, obs.firstSeenAt) < c.policy.mutableTags.minDigestAge {
        BackedAfterDenial(touched, c, obs.id,
          Quarantined(aged, obs.firstSeenAt, c.policy.mutableTags.minDigestAge, StillInQuarantine));
      } else {
        BackedAfterAllow(touched, c, obs.id, aged);
      }
    }
  }

  lemma {:induction false} DecisionBacked(w: World, c: Call, image: TagKey, digest: string)
    requires Valid(w.db) && Resolves(c, image, digest)
    ensures var (after, outcome) := Decide(w, c); Backed(after.db, c, image, digest, outcome.decision)
  {
    var d := Resolved(NewDecision(c), digest);
    var override := ReadOverride(w.db, c, d);
    if override.Ok? && override.value.decision != DECISION_DENY && ReadObservation !in c.faults {
      if GetObservation(w.db.observations, image, digest).None? {
        FirstSeenBacked(w, c, d, override.value);
      } else {
        SeenBacked(w, c, d, override.value);
      }
    }
  }

  lemma {:induction false} ObservedStays(before: Database, after: Database, image: TagKey, digest: string,
                                         firstSeen: Seconds)
    requires Extends(before, after) && Observed(before, image, digest, firstSeen)
    ensures Observed(after, image, digest, firstSeen)
  {
  }

  lemma {:induction false} VerifiedStays(before: Database, after: Database, key: CosignKey)
    requires Extends(before, after) && Verified(before, key)
    ensures Verified(after, key)
  {
  }

  lemma {:induction false} RunSteps(w: World, ops: seq<Op>, i: nat, j: nat)
    requires Valid(w.db) && i < j <= |ops| && forall k :: 0 <= k < |ops| ==> OpOk(ops[k])
    ensures Run(w, ops[..i + 1]) == Apply(Run(w, ops[..i]), ops[i])
    ensures Valid(Run(w, ops[..i]).db) && Valid(Run(w, ops[..j]).db)
    ensures Extends(Run(w, ops[..i + 1]).db, Run(w, ops[..j]).db)
  {
    assert ops[..i + 1][..i] == ops[..i];
    RunExtends(w, ops, i);
    RunExtends(w, ops[..j], i + 1);
    assert ops[..j][..i + 1] == ops[..i + 1];
  }

  // ---------------------------------------------------------------- whole runs

  /**
   Stability: once a digest has been allowed when it was due, every later request that resolves the tag
   to it is allowed, unless a matching freeze is active. Anything may happen in between.
   */
  lemma {:induction false} OnceDueAlwaysAllowed(w: World, ops: seq<Op>, i: nat, j: nat, image: TagKey, digest: string)
    requires Valid(w.db) && i < j < |ops| && forall k :: 0 <= k < |ops| ==> OpOk(ops[k])
    requires ops[i].Pull? && ops[j].Pull? && ops[i].call.policy == ops[j].call.policy
    requires Resolves(ops[i].call, image, digest) && Resolves(ops[j].call, image, digest)
    requires var d := Decide(Run(w, ops[..i]), ops[i].call).1.decision;
             d.allowed && d.standing.firstSeenAt.Some?
             && ops[i].call.now >= d.standing.firstSeenAt.value + ops[i].call.policy.mutableTags.minDigestAge
    requires ops[i].call.now <= ops[j].call.now && ops[j].call.faults == map[]
    requires !Frozen(Run(w, ops[..j]).db, image, digest, ops[j].call.now)
    ensures var outcome := Decide(Run(w, ops[..j]), ops[j].call).1;
            outcome.failure.None? && outcome.decision.allowed
  {
    var c := ops[i].call;
    RunSteps(w, ops, i, j);
    DecisionBacked(Run(w, ops[..i]), c, image, digest);
    var mid, late := Run(w, ops[..i + 1]), Run(w, ops[..j]);
    var s :| Observed(mid.db, image, digest, s)
             && Decide(Run(w, ops[..i]), c).1.decision.standing.firstSeenAt == Some(FromUnix(s));
    ObservedStays(mid.db, late.db, image, digest, s);
    if c.policy.cosign.required {
      VerifiedStays(mid.db, late.db, CosignKeyOf(image, digest, c.policy));
    }
    KnownDigest(late, ops[j].call, image, digest, s);
  }

  /**
   The reported deadline is exact: after a denial that reports T, a later request without overrides is
   allowed from T on and denied before it, and a repeated denial reports the same T.
   */
  lemma {:induction false} NextAllowedAtIsExact(w: World, ops: seq<Op>, i: nat, j: nat, image: TagKey, digest: string,
                                                T: Time)
    requires Valid(w.db) && i < j < |ops| && forall k :: 0 <= k < |ops| ==> OpOk(ops[k])
    requires ops[i].Pull? && ops[j].Pull? && ops[i].call.policy == ops[j].call.policy
    requires Resolves(ops[i].call, image, digest) && Resolves(ops[j].call, image, digest)
    requires Decide(Run(w, ops[..i]), ops[i].call).1.decision.standing.nextAllowedAt == Some(T)
    requires ops[j].call.faults == map[] && !ops[j].call.policy.cosign.required
    requires var db, now := Run(w, ops[..j]).db, ops[j].call.now;
             !Frozen(db, image, digest, now) && !Approved(db, image, digest, now) && !Bypassing(db, image, now)
    ensures var Outcome(d, failure) := Decide(Run(w, ops[..j]), ops[j].call).1;
            && failure.None? && (d.allowed <==> ops[j].call.now >= T)
            && (!d.allowed ==> d.standing.nextAllowedAt == Some(T))
  {
    var c := ops[i].call;
    RunSteps(w, ops, i, j);
    DecisionBacked(Run(w, ops[..i]), c, image, digest);
    var mid, late := Run(w, ops[..i + 1]), Run(w, ops[..j]);
    DeadlineIsStored(mid.db, c, image, digest, Decide(Run(w, ops[..i]), c).1.decision, T);
    var s :| Observed(mid.db, image, digest, s) && Due(s, c.policy) == T;
    ObservedStays(mid.db, late.db, image, digest, s);
    KnownDigest(late, ops[j].call, image, digest, s);
  }

  lemma {:induction false} DeadlineIsStored(db: Database, c: Call, image: TagKey, digest: string, d: Decision, T: Time)
    requires Backed(db, c, image, digest, d) && d.standing.nextAllowedAt == Some(T)
    ensures exists s :: Observed(db, image, digest, s) && Due(s, c.policy) == T
  {
    var s :| Observed(db, image, digest, s) && d.standing.firstSeenAt == Some(FromUnix(s));
    assert Due(s, c.policy) == T;
  }

  // ---------------------------------------------------------------- truncation to seconds

  /** The first request for a digest stores its own start time, rounded down to the second. */
  lemma {:induction false} FirstRequestIsStored(w: World, c: Call, image: TagKey, digest: string)
    requires Valid(w.db) && c.faults == map[] && Resolves(c, image, digest)
    requires !Frozen(w.db, image, digest, c.now)
    requires forall s :: !Observed(w.db, image, digest, s)
    ensures Observed(Decide(w, c).0.db, image, digest, Unix(c.now))
  {
    var d := Resolved(NewDecision(c), digest);
    ObservationFound(w.db.observations, image, digest);
    LocalOverrideMeaning(w.db, image, digest, c.now);
    var o := LocalOverride(w.db, image, digest, c.now);
    forall id | id in w.db.observations.rows ensures !SameKey(w.db.observations.rows[id], image, digest) {
      assert !Observed(w.db, image, digest, w.db.observations.rows[id].firstSeen);
    }
    assert DecideResolved(w, c, d) == DecideFirstSeen(w, c, d, o);
    var found := WithKey(w.db.observations, image, digest);
    NonEmpty(found);
    var t := InsertObservation(w.db.observations, image, digest, Unix(c.now));
    assert t.rows[t.last] == ObservationRow(image, digest, Unix(c.now), Unix(c.now), None, STATUS_QUARANTINED);
    var inserted := w.(db := w.db.(observations := t));
    assert Observed(inserted.db, image, digest, Unix(c.now));
    InsertObservationExtends(w.db, image, digest, Unix(c.now));
    FirstSeenAfterInsert(w, c, d, o);
    ObservedStays(inserted.db, Decide(w, c).0.db, image, digest, Unix(c.now));
  }

  lemma {:induction false} FirstSeenAfterInsert(w: World, c: Call, d: Decision, o: Override)
    requires Valid(w.db) && c.faults == map[]
    ensures var t := InsertObservation(w.db.observations, d.subject.image, d.subject.digest, Unix(c.now));
            Extends(w.db.(observations := t), DecideFirstSeen(w, c, d, o).0.db)
  {
    var t := InsertObservation(w.db.observations, d.subject.image, d.subject.digest, Unix(c.now));
    var inserted := w.(db := w.db.(observations := t));
    InsertObservationExtends(w.db, d.subject.image, d.subject.digest, Unix(c.now));
    var obs := GetObservation(t, d.subject.image, d.subject.digest).value;
    var seen := Seen(d, obs.firstSeenAt);
    AllowThenRecord(inserted, c, obs.id, Overridden(seen, o));
    RecordExtends(inserted, c, Quarantined(seen, obs.firstSeenAt, c.policy.mutableTags.minDigestAge, NewDigest));
  }

  /**
   Age bounds: when the first request for a digest started at t0, a later request without overrides is
   allowed once the minimum age has passed since t0, and never a second or more before that.
   */
  lemma {:induction false} AgeWithinOneSecond(w: World, ops: seq<Op>, i: nat, j: nat, image: TagKey, digest: string)
    requires Valid(w.db) && i < j < |ops| && forall k :: 0 <= k < |ops| ==> OpOk(ops[k])
    requires ops[i].Pull? && ops[j].Pull?
    requires Resolves(ops[i].call, image, digest) && Resolves(ops[j].call, image, digest)
    requires ops[i].call.faults == map[] && ops[j].call.faults == map[] && !ops[j].call.policy.cosign.required
    requires !Frozen(Run(w, ops[..i]).db, image, digest, ops[i].call.now)
    requires forall s :: !Observed(Run(w, ops[..i]).db, image, digest, s)
    requires var db, now := Run(w, ops[..j]).db, ops[j].call.now;
             !Frozen(db, image, digest, now) && !Approved(db, image, digest, now) && !Bypassing(db, image, now)
    ensures var t0, now, min := ops[i].call.now, ops[j].call.now, ops[j].call.policy.mutableTags.minDigestAge;
            var allowed := Decide(Run(w, ops[..j]), ops[j].call).1.decision.allowed;
            && (now >= t0 + min ==> allowed)
            && (allowed ==> now > t0 + min - SECOND)
  {
    RunSteps(w, ops, i, j);
    FirstRequestIsStored(Run(w, ops[..i]), ops[i].call, image, digest);
    var mid, late := Run(w, ops[..i + 1]), Run(w, ops[..j]);
    ObservedStays(mid.db, late.db, image, digest, Unix(ops[i].call.now));
    KnownDigest(late, ops[j].call, image, digest, Unix(ops[i].call.now));
  }

  /** An override is active exactly until the second in which it expires. */
  lemma {:induction false} ExpiryWithinOneSecond(expires: Time, now: Time)
    ensures var active := Unexpired(NullableUnix(Some(expires)), Unix(now));
            && (now >= expires ==> !active)
            && (now <= expires - SECOND ==> active)
            && (active <==> now < FromUnix(Unix(expires)))
  {
  }

  // ---------------------------------------------------------------- operator commands

  /** A freeze stops its tag and digest, or every digest of the tag if it names none, and nothing else. */
  lemma {:induction false} FreezeTakesEffect(db: Database, image: TagKey, digest: string, created: Time, author: string,
                                             reason: string, expires: Option<Time>, about: TagKey, d: string, now: Time)
    requires Sequenced(db.freezes)
    ensures var row := FreezeRow(image, NullableString(digest), Unix(created), author, reason, NullableUnix(expires));
            Frozen(db.(freezes := Insert(db.freezes, row)), about, d, now) <==>
            || Frozen(db, about, d, now)
            || (about == image && (digest == "" || d == digest)
                && (expires.None? || now < FromUnix(Unix(expires.value))))
  {
    var row := FreezeRow(image, NullableString(digest), Unix(created), author, reason, NullableUnix(expires));
    var after := db.(freezes := Insert(db.freezes, row));
    assert after.freezes.rows[after.freezes.last] == row;
    if Frozen(db, about, d, now) {
      var id :| id in db.freezes.rows && FreezeApplies(db.freezes.rows[id], about, d, now);
      assert after.freezes.rows[id] == db.freezes.rows[id];
    }
  }

  /** An approval admits exactly its tag and digest until it expires. */
  lemma {:induction false} ApprovalTakesEffect(db: Database, image: TagKey, digest: string, approved: Time,
                                               author: string, reason: string, expires: Option<Time>, about: TagKey,
                                               d: string, now: Time)
    requires Sequenced(db.approvals)
    ensures var row := ApprovalRow(image, digest, Unix(approved), author, reason, NullableUnix(expires));
            Approved(db.(approvals := Insert(db.approvals, row)), about, d, now) <==>
            || Approved(db, about, d, now)
            || (about == image && d == digest && (expires.None? || now < FromUnix(Unix(expires.value))))
  {
    var row := ApprovalRow(image, digest, Unix(approved), author, reason, NullableUnix(expires));
    var after := db.(approvals := Insert(db.approvals, row));
    assert after.approvals.rows[after.approvals.last] == row;
    if Approved(db, about, d, now) {
      var id :| id in db.approvals.rows && ApprovalApplies(db.approvals.rows[id], about, d, now);
      assert after.approvals.rows[id] == db.approvals.rows[id];
    }
  }

  /** A bypass admits every digest of its tag until it expires. */
  lemma {:induction false} BypassTakesEffect(db: Database, image: TagKey, created: Time, author: string, reason: string,
                                             expires: Option<Time>, about: TagKey, now: Time)
    requires Sequenced(db.bypasses)
    ensures var row := BypassRow(image, Unix(created), author, reason, NullableUnix(expires));
            Bypassing(db.(bypasses := Insert(db.bypasses, row)), about, now) <==>
            Bypassing(db, about, now) || (about == image && (expires.None? || now < FromUnix(Unix(expires.value))))
  {
    var row := BypassRow(image, Unix(created), author, reason, NullableUnix(expires));
    var after := db.(bypasses := Insert(db.bypasses, row));
    assert after.bypasses.rows[after.bypasses.last] == row;
    if Bypassing(db, about, now) {
      var id :| id in db.bypasses.rows && BypassApplies(db.bypasses.rows[id], about, now);
      assert after.bypasses.rows[id] == db.bypasses.rows[id];
    }
  }
}
