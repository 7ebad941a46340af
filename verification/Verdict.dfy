/**
 The verdict on a request, said without the engine's steps: from the tables, the policy and the answers
 of the outside world alone. Whenever no store operation fails, the engine decides exactly so.
 */
module Verdicts {
  import opened Prelude
  import opened Policy
  import opened Tables
  import opened Quarantine
  import opened Runs
  import opened Laws

  datatype Verdict = Verdict(allowed: bool, reason: Reason)

  ghost predicate Known(db: Database, image: TagKey, digest: string) {
    exists t :: Observed(db, image, digest, t)
  }

  /** The digest was first seen long enough ago. */
  ghost predicate IsDue(db: Database, image: TagKey, digest: string, c: Call) {
    exists t :: Observed(db, image, digest, t) && c.now >= Due(t, c.policy)
  }

  /** A success is cached, or the verifier reports one now. */
  ghost predicate SignaturePasses(db: Database, image: TagKey, digest: string, c: Call) {
    var key := CosignKeyOf(image, digest, c.policy);
    c.policy.cosign.required ==> Verified(db, key) || Succeeds(c.verifier, key, c.policy.cosign)
  }

  function SignatureFailure(image: TagKey, digest: string, c: Call): Reason {
    var answer := c.verifier(image.registry, image.repository, digest, c.policy.cosign);
    CosignFailed(if answer.Err? then answer.error else answer.value.reason)
  }

  ghost function IfSigned(db: Database, image: TagKey, digest: string, c: Call, reason: Reason): Verdict {
    if SignaturePasses(db, image, digest, c) then Verdict(true, reason)
    else Verdict(false, SignatureFailure(image, digest, c))
  }

  ghost function PinnedVerdict(db: Database, image: TagKey, digest: string, c: Call): Verdict {
    if Frozen(db, image, digest, c.now) then Verdict(false, TagOrDigestFrozen)
    else if c.policy.digestPinnedImages == ACTION_DENY then Verdict(false, PinnedDenied)
    else IfSigned(db, image, digest, c, PinnedAllowed)
  }

  ghost function TagVerdict(db: Database, image: TagKey, digest: string, c: Call): Verdict {
    if Frozen(db, image, digest, c.now) then Verdict(false, TagOrDigestFrozen)
    else if Approved(db, image, digest, c.now) then IfSigned(db, image, digest, c, ManuallyApproved)
    else if Bypassing(db, image, c.now) then IfSigned(db, image, digest, c, BypassActive)
    else if !Known(db, image, digest) && !c.policy.mutableTags.allowFirstSeenPull then Verdict(false, NewDigest)
    else if Known(db, image, digest) && !IsDue(db, image, digest, c) then Verdict(false, StillInQuarantine)
    else IfSigned(db, image, digest, c, if c.policy.cosign.required then AgedAndVerified else Aged)
  }

  ghost function VerdictOn(db: Database, c: Call): Verdict {
    var image := TagKey(c.ref.registry, c.ref.repository, c.ref.tag);
    if c.ref.isDigestPinned then PinnedVerdict(db, image, c.ref.digest, c)
    else if c.policy.mutableTags.action == ACTION_ALLOW then Verdict(true, TagAllowed)
    else if c.policy.mutableTags.action == ACTION_DENY then Verdict(false, TagDenied)
    else
      match c.resolution
      case Ok(digest) => TagVerdict(db, image, digest, c)
      case Err(e) =>
        if c.policy.failedRegistryResolution == ACTION_ALLOW then Verdict(true, Fallback)
        else Verdict(false, Unresolved(e))
  }

  function VerdictOf(d: Decision): Verdict {
    Verdict(d.allowed, d.reason)
  }

  // ---------------------------------------------------------------- verification

  /** A decision on its way: not allowed yet, nothing verified yet. */
  predicate Open(d: Decision) {
    !d.allowed && !d.cosignVerified
  }

  lemma {:induction false} HitIffVerified(db: Database, c: Call, d: Decision)
    requires Valid(db)
    ensures CacheHit(db, c, d) <==> Verified(db, CacheKey(c, d))
  {
    CosignFound(db.cosign, CacheKey(c, d));
  }

  lemma {:induction false} VerifyVerdict(db: Database, c: Call, d: Decision)
    requires Valid(db) && c.faults == map[] && c.policy.cosign.required && Open(d)
    ensures var image, digest := d.subject.image, d.subject.digest;
            var (after, d', passed) := VerifyCosign(db, c, d);
            && passed == SignaturePasses(db, image, digest, c)
            && d'.standing == d.standing
            && (if passed then !d'.allowed && d'.cosignVerified
                else VerdictOf(d') == Verdict(false, SignatureFailure(image, digest, c)))
  {
    HitIffVerified(db, c, d);
  }

  lemma {:induction false} AllowVerdict(db: Database, c: Call, id: int, d: Decision)
    requires Valid(db) && c.faults == map[] && Open(d) && id in db.observations.rows
    ensures VerdictOf(AllowWithVerification(db, c, id, d).1)
            == IfSigned(db, d.subject.image, d.subject.digest, c,
                        AllowedReason(d.(cosignVerified := c.policy.cosign.required)))
  {
    if c.policy.cosign.required {
      VerifyVerdict(db, c, d);
      VerifyCosignExtends(db, c, d);
    }
  }

  lemma {:induction false} RecordVerdict(w: World, c: Call, d: Decision)
    requires c.faults == map[]
    ensures Record(w, c, d).1 == Outcome(d, None)
  {
  }

  // ---------------------------------------------------------------- the branches

  lemma {:induction false} PinnedIsVerdict(w: World, c: Call, d: Decision)
    requires Valid(w.db) && c.faults == map[] && Open(d)
    ensures var outcome := DecidePinned(w, c, d).1;
            && outcome.failure.None?
            && VerdictOf(outcome.decision) == PinnedVerdict(w.db, d.subject.image, d.subject.digest, c)
  {
    var o := LocalOverride(w.db, d.subject.image, d.subject.digest, c.now);
    LocalOverrideMeaning(w.db, d.subject.image, d.subject.digest, c.now);
    if o.decision != DECISION_DENY && c.policy.digestPinnedImages != ACTION_DENY && c.policy.cosign.required {
      VerifyVerdict(w.db, c, d);
      var (db, d', passed) := VerifyCosign(w.db, c, d);
      RecordVerdict(w.(db := db), c, if passed then AllowPinned(d', o) else d');
    }
  }

  /** The verdict once a request may be allowed, by an override or otherwise. */
  ghost function Admitted(db: Database, image: TagKey, digest: string, c: Call): Verdict {
    IfSigned(db, image, digest, c,
             if Approved(db, image, digest, c.now) then ManuallyApproved
             else if Bypassing(db, image, c.now) then BypassActive
             else if c.policy.cosign.required then AgedAndVerified
             else Aged)
  }

  /** The cosign table and the overrides are all that the verdict on an admitted request looks at. */
  lemma {:induction false} AdmittedFrame(before: Database, after: Database, image: TagKey, digest: string, c: Call)
    requires after == before.(observations := after.observations)
    ensures Admitted(before, image, digest, c) == Admitted(after, image, digest, c)
  {
    var key := CosignKeyOf(image, digest, c.policy);
    assert Verified(before, key) == Verified(after, key);
    assert Approved(before, image, digest, c.now) == Approved(after, image, digest, c.now);
    assert Bypassing(before, image, c.now) == Bypassing(after, image, c.now);
  }

  lemma {:induction false} AllowIsAdmitted(w: World, c: Call, id: int, d: Decision)
    requires Valid(w.db) && c.faults == map[] && Open(d) && id in w.db.observations.rows
    requires d.standing.manualApproval == Approved(w.db, d.subject.image, d.subject.digest, c.now)
    requires d.standing.bypassed == (Bypassing(w.db, d.subject.image, c.now)
                                     && !Approved(w.db, d.subject.image, d.subject.digest, c.now))
    ensures var (db, d') := AllowWithVerification(w.db, c, id, d);
            var outcome := Record(w.(db := db), c, d').1;
            outcome.failure.None? && VerdictOf(outcome.decision) == Admitted(w.db, d.subject.image, d.subject.digest, c)
  {
    AllowVerdict(w.db, c, id, d);
    var (db, d') := AllowWithVerification(w.db, c, id, d);
    RecordVerdict(w.(db := db), c, d');
  }

  /** What the overrides of a request amount to. */
  ghost predicate OverrideIs(db: Database, c: Call, d: Decision, o: Override) {
    && o == LocalOverride(db, d.subject.image, d.subject.digest, c.now)
    && !Frozen(db, d.subject.image, d.subject.digest, c.now)
  }

  lemma {:induction false} FirstSeenIsVerdict(w: World, c: Call, d: Decision, o: Override)
    requires Valid(w.db) && c.faults == map[] && Open(d) && d.standing == NO_STANDING && OverrideIs(w.db, c, d, o)
    ensures var outcome := DecideFirstSeen(w, c, d, o).1;
            && outcome.failure.None?
            && VerdictOf(outcome.decision) ==
               if o.decision == DECISION_ALLOW || c.policy.mutableTags.allowFirstSeenPull then
                 Admitted(w.db, d.subject.image, d.subject.digest, c)
               else Verdict(false, NewDigest)
  {
    var t := InsertObservation(w.db.observations, d.subject.image, d.subject.digest, Unix(c.now));
    var inserted := w.(db := w.db.(observations := t));
    InsertObservationExtends(w.db, d.subject.image, d.subject.digest, Unix(c.now));
    ObservationFound(t, d.subject.image, d.subject.digest);
    LocalOverrideMeaning(w.db, d.subject.image, d.subject.digest, c.now);
    var obs := GetObservation(t, d.subject.image, d.subject.digest).value;
    var seen := Seen(d, obs.firstSeenAt);
    if o.decision == DECISION_ALLOW || c.policy.mutableTags.allowFirstSeenPull {
      AdmittedFrame(w.db, inserted.db, d.subject.image, d.subject.digest, c);
      OverridesFrame(w.db, inserted.db, d.subject.image, d.subject.digest, c.now);
      AllowIsAdmitted(inserted, c, obs.id, Overridden(seen, o));
    } else {
      RecordVerdict(inserted, c, Quarantined(seen, obs.firstSeenAt, c.policy.mutableTags.minDigestAge, NewDigest));
    }
  }

  lemma {:induction false} OverridesFrame(before: Database, after: Database, image: TagKey, digest: string, now: Time)
    requires after == before.(observations := after.observations)
    ensures Approved(before, image, digest, now) == Approved(after, image, digest, now)
    ensures Bypassing(before, image, now) == Bypassing(after, image, now)
  {
  }

  lemma {:induction false} SeenIsVerdict(w: World, c: Call, d: Decision, o: Override, obs: Observation)
    requires Valid(w.db) && c.faults == map[] && Open(d) && d.standing == NO_STANDING && OverrideIs(w.db, c, d, o)
    requires obs.id in w.db.observations.rows
    ensures var outcome := DecideSeen(w, c, d, o, obs).1;
            && outcome.failure.None?
            && VerdictOf(outcome.decision) ==
               if o.decision == DECISION_ALLOW || Sub(c.now, obs.firstSeenAt) >= c.policy.mutableTags.minDigestAge then
                 Admitted(w.db, d.subject.image, d.subject.digest, c)
               else Verdict(false, StillInQuarantine)
  {
    var touched := w.(db := w.db.(observations := TouchObservation(w.db.observations, obs.id, Unix(c.now))));
    UpdateObservationExtends(w.db, obs.id, Unix(c.now));
    LocalOverrideMeaning(w.db, d.subject.image, d.subject.digest, c.now);
    AdmittedFrame(w.db, touched.db, d.subject.image, d.subject.digest, c);
    OverridesFrame(w.db, touched.db, d.subject.image, d.subject.digest, c.now);
    var seen := Seen(d, obs.firstSeenAt);
    var aged := Aging(seen, Sub(c.now, obs.firstSeenAt));
    if o.decision == DECISION_ALLOW {
      AllowIsAdmitted(touched, c, obs.id, Overridden(seen, o));
    } else if Sub(c.now, obs.firstSeenAt) >= c.policy.mutableTags.minDigestAge {
      AllowIsAdmitted(touched, c, obs.id, aged);
    }
  }

  lemma {:induction false} DueIsAge(db: Database, image: TagKey, digest: string, c: Call, id: int)
    requires Valid(db) && id in db.observations.rows && SameKey(db.observations.rows[id], image, digest)
    ensures Known(db, image, digest)
    ensures IsDue(db, image, digest, c) <==>
            Sub(c.now, FromUnix(db.observations.rows[id].firstSeen)) >= c.policy.mutableTags.minDigestAge
  {
    var t := db.observations.rows[id].firstSeen;
    assert Observed(db, image, digest, t);
    AgeComparison(c.now, t, c.policy);
  }

  lemma {:induction false} ResolvedIsVerdict(w: World, c: Call, d: Decision)
    requires Valid(w.db) && c.faults == map[] && Open(d) && d.standing == NO_STANDING
    ensures var outcome := DecideResolved(w, c, d).1;
            && outcome.failure.None?
            && VerdictOf(outcome.decision) == TagVerdict(w.db, d.subject.image, d.subject.digest, c)
  {
    var image, digest := d.subject.image, d.subject.digest;
    var o := LocalOverride(w.db, image, digest, c.now);
    LocalOverrideMeaning(w.db, image, digest, c.now);
    ObservationFound(w.db.observations, image, digest);
    if o.decision != DECISION_DENY {
      var obs := GetObservation(w.db.observations, image, digest);
      if obs.None? {
        FirstSeenIsVerdict(w, c, d, o);
      } else {
        DueIsAge(w.db, image, digest, c, obs.value.id);
        SeenIsVerdict(w, c, d, o, obs.value);
      }
    }
  }

  /**
   The exact decision, for every request and every store: when no store operation fails, the engine returns
   no error, and whether it allows, and why, is the verdict.
   */
  lemma {:induction false} DecisionIsVerdict(w: World, c: Call)
    requires Valid(w.db) && c.faults == map[]
    ensures var outcome := Decide(w, c).1;
            outcome.failure.None? && VerdictOf(outcome.decision) == VerdictOn(w.db, c)
  {
    var d := NewDecision(c);
    if c.ref.isDigestPinned {
      PinnedIsVerdict(w, c, d);
    } else if c.policy.mutableTags.action != ACTION_ALLOW && c.policy.mutableTags.action != ACTION_DENY
              && c.resolution.Ok? {
      ResolvedIsVerdict(w, c, Resolved(d, c.resolution.value));
    }
  }

  /** A tag under quarantine that the registry resolved to that digest. */
  predicate Quarantines(c: Call, digest: string) {
    && !c.ref.isDigestPinned && c.resolution == Ok(digest)
    && c.policy.mutableTags.action != ACTION_ALLOW && c.policy.mutableTags.action != ACTION_DENY
  }

  /** When a digest is met for the first time: a bypass counts as much as an approval or a permitted first pull. */
  lemma {:induction false} NewDigestAllowedIff(w: World, c: Call, digest: string)
    requires Valid(w.db) && c.faults == map[] && Quarantines(c, digest)
    requires !Known(w.db, TagKey(c.ref.registry, c.ref.repository, c.ref.tag), digest)
    ensures var image := TagKey(c.ref.registry, c.ref.repository, c.ref.tag);
            Decide(w, c).1.decision.allowed <==>
            && !Frozen(w.db, image, digest, c.now) && SignaturePasses(w.db, image, digest, c)
            && (|| Approved(w.db, image, digest, c.now) || Bypassing(w.db, image, c.now)
                || c.policy.mutableTags.allowFirstSeenPull)
  {
    DecisionIsVerdict(w, c);
    assert VerdictOf(Decide(w, c).1.decision).allowed == Decide(w, c).1.decision.allowed;
  }

  /** A store that holds nothing but a bypass admits a digest that it has never seen. */
  lemma {:induction false} BypassAdmitsNewDigest(c: Call, digest: string, row: BypassRow)
    requires c.faults == map[] && Quarantines(c, digest) && !c.policy.cosign.required
    requires BypassApplies(row, TagKey(c.ref.registry, c.ref.repository, c.ref.tag), c.now)
    ensures Decide(World(EMPTY_DATABASE.(bypasses := Table(map[1 := row], 1)), []), c).1.decision.allowed
  {
    var w := World(EMPTY_DATABASE.(bypasses := Table(map[1 := row], 1)), []);
    assert 1 in w.db.bypasses.rows && w.db.bypasses.rows[1] == row;
    NewDigestAllowedIff(w, c, digest);
  }
}
