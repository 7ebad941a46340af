/**
 The whole decision, said without the engine's steps: what it is about, where the digest stands, which override it
 found, and what became of the signature. Whenever no store operation fails, the engine returns exactly this.
 */
module Reports {
  import opened Prelude
  import opened Tables
  import opened Quarantine
  import opened Runs
  import opened Laws
  import opened Verdicts

  /** A pinned digest, or a tag under quarantine that the registry resolved: the store is asked. */
  predicate AsksStore(c: Call) {
    || c.ref.isDigestPinned
    || (c.policy.mutableTags.action != "allow" && c.policy.mutableTags.action != "deny" && c.resolution.Ok?)
  }

  function ImageOf(c: Call): TagKey {
    TagKey(c.ref.registry, c.ref.repository, c.ref.tag)
  }

  /** The digest of the reference, or of the registry for a tag under quarantine. */
  function DigestOf(c: Call): string {
    if !c.ref.isDigestPinned && AsksStore(c) then c.resolution.value else c.ref.digest
  }

  function SubjectOf(c: Call): Subject {
    Subject(c.ref.canonicalRef, ImageOf(c), DigestOf(c), c.matchedRule, c.policy.mutableTags.minDigestAge)
  }

  /** The second since which the digest has been known; for a new digest, that of the request. */
  ghost function FirstSeen(db: Database, c: Call): Seconds {
    if t :| Observed(db, ImageOf(c), DigestOf(c), t) then t else c.now / 1_000_000_000
  }

  /** A duration of Go: as long as 64 bits hold. */
  function Lasting(d: int): int {
    Max(-0x8000_0000_0000_0000, Min(d, 0x7FFF_FFFF_FFFF_FFFF))
  }

  ghost function OnApproval(db: Database, c: Call): bool {
    Approved(db, ImageOf(c), DigestOf(c), c.now)
  }

  ghost function OnBypass(db: Database, c: Call): bool {
    Bypassing(db, ImageOf(c), c.now) && !OnApproval(db, c)
  }

  /**
   Frozen, and then nothing else. For a pinned digest, the override, once it is allowed. For a tag: the first-seen
   time; the override; without one, the age of a known digest and, if it has to wait, until when.
   */
  ghost function StandingOn(db: Database, c: Call): Standing {
    var first, waits := FirstSeen(db, c) * 1_000_000_000, VerdictOn(db, c).reason in {NewDigest, StillInQuarantine};
    var overridden := OnApproval(db, c) || OnBypass(db, c);
    if !AsksStore(c) then Standing(None, 0, None, false, false, false)
    else if Frozen(db, ImageOf(c), DigestOf(c), c.now) then Standing(None, 0, None, false, false, true)
    else if c.ref.isDigestPinned then
      var allowed := VerdictOn(db, c).allowed;
      Standing(None, 0, None, allowed && OnApproval(db, c), allowed && OnBypass(db, c), false)
    else
      Standing(Some(first),
               if Known(db, ImageOf(c), DigestOf(c)) && !overridden then Lasting(c.now - first) else 0,
               if waits then Some(first + c.policy.mutableTags.minDigestAge) else None,
               OnApproval(db, c), OnBypass(db, c), false)
  }

  /** A signature was asked for and accepted. */
  ghost function SignedOn(db: Database, c: Call): bool {
    AsksStore(c) && c.policy.cosign.required && VerdictOn(db, c).allowed
  }

  ghost function CachedOn(db: Database, c: Call): bool {
    SignedOn(db, c) && Verified(db, CosignKeyOf(ImageOf(c), DigestOf(c), c.policy))
  }

  ghost function ReportOn(db: Database, c: Call): Decision {
    Decision(SubjectOf(c), StandingOn(db, c), VerdictOn(db, c).allowed, VerdictOn(db, c).reason, SignedOn(db, c),
             CachedOn(db, c))
  }

  // ---------------------------------------------------------------- beside the verdict

  predicate Fresh(d: Decision) {
    !d.allowed && !d.cosignVerified && !d.cosignCached
  }

  /** What verification and marking do to the rest of a decision. */
  ghost predicate RestOn(db: Database, c: Call, before: Decision, after: Decision) {
    && after.subject == before.subject
    && after.cosignVerified == (after.allowed && c.policy.cosign.required)
    && after.cosignCached == (after.cosignVerified && Verified(db, CacheKey(c, before)))
  }

  lemma {:induction false} SignatureRest(db: Database, c: Call, d: Decision)
    requires Valid(db) && c.faults == map[] && c.policy.cosign.required && Fresh(d)
    ensures var (after, d', passed) := VerifyCosign(db, c, d);
            && d'.standing == d.standing && RestOn(db, c, d, d'.(allowed := passed)) && !d'.allowed
  {
    HitIffVerified(db, c, d);
  }

  lemma {:induction false} MarkRest(db: Database, c: Call, id: int, d: Decision)
    requires c.faults == map[] && id in db.observations.rows
    ensures MarkAndAllow(db, c, id, d).1 == d.(allowed := true, reason := AllowedReason(d))
  {
  }

  lemma {:induction false} AllowRest(db: Database, c: Call, id: int, d: Decision)
    requires Valid(db) && c.faults == map[] && Fresh(d) && id in db.observations.rows
    ensures var d' := AllowWithVerification(db, c, id, d).1;
            RestOn(db, c, d, d') && d'.standing == d.standing
  {
    if c.policy.cosign.required {
      SignatureRest(db, c, d);
      VerifyCosignExtends(db, c, d);
      var (after, d', passed) := VerifyCosign(db, c, d);
      if passed { MarkRest(after, c, id, d'); }
    } else {
      MarkRest(db, c, id, d);
    }
  }

  /** The rows about verifications are all that this looks at. */
  lemma {:induction false} RestFrame(before: Database, after: Database, c: Call, d: Decision, d': Decision)
    requires after == before.(observations := after.observations) && RestOn(after, c, d, d')
    ensures RestOn(before, c, d, d')
  {
    assert Verified(before, CacheKey(c, d)) == Verified(after, CacheKey(c, d));
  }

  ghost function FrozenOr(db: Database, c: Call, d: Decision, standing: Standing): Standing {
    if Frozen(db, d.subject.image, d.subject.digest, c.now) then NO_STANDING.(frozen := true) else standing
  }

  ghost function WithOverride(db: Database, c: Call, d: Decision, standing: Standing): Standing {
    var approved := Approved(db, d.subject.image, d.subject.digest, c.now);
    standing.(manualApproval := approved, bypassed := Bypassing(db, d.subject.image, c.now) && !approved)
  }

  lemma {:induction false} PinnedRest(w: World, c: Call, d: Decision)
    requires Valid(w.db) && c.faults == map[] && Fresh(d) && d.standing == NO_STANDING
    ensures var d' := DecidePinned(w, c, d).1.decision;
            && RestOn(w.db, c, d, d')
            && d'.standing == FrozenOr(w.db, c, d, if d'.allowed then WithOverride(w.db, c, d, NO_STANDING)
                                                   else NO_STANDING)
  {
    LocalOverrideMeaning(w.db, d.subject.image, d.subject.digest, c.now);
    if c.policy.cosign.required { SignatureRest(w.db, c, d); }
  }

  lemma {:induction false} FirstSeenRest(w: World, c: Call, d: Decision, o: Override)
    requires Valid(w.db) && c.faults == map[] && Fresh(d) && d.standing == NO_STANDING && OverrideIs(w.db, c, d, o)
    requires !Known(w.db, d.subject.image, d.subject.digest)
    ensures var d', first := DecideFirstSeen(w, c, d, o).1.decision, FromUnix(Unix(c.now));
            && RestOn(w.db, c, d, d')
            && d'.standing == WithOverride(w.db, c, d, Standing(Some(first), 0,
                 if o.decision == DECISION_ALLOW || c.policy.mutableTags.allowFirstSeenPull then None
                 else Some(first + c.policy.mutableTags.minDigestAge), false, false, false))
  {
    var image, digest := d.subject.image, d.subject.digest;
    var t := InsertObservation(w.db.observations, image, digest, Unix(c.now));
    var inserted := w.(db := w.db.(observations := t));
    InsertObservationExtends(w.db, image, digest, Unix(c.now));
    ObservationFound(t, image, digest);
    LocalOverrideMeaning(w.db, image, digest, c.now);
    NewRowIsFirst(w.db, image, digest, Unix(c.now));
    var obs := GetObservation(t, image, digest).value;
    var seen := Seen(d, obs.firstSeenAt);
    if o.decision == DECISION_ALLOW || c.policy.mutableTags.allowFirstSeenPull {
      AllowRest(inserted.db, c, obs.id, Overridden(seen, o));
      RestFrame(w.db, inserted.db, c, Overridden(seen, o), DecideFirstSeen(w, c, d, o).1.decision);
    }
  }

  lemma {:induction false} NewRowIsFirst(db: Database, image: TagKey, digest: string, at: Seconds)
    requires Valid(db) && !Known(db, image, digest)
    ensures var obs := GetObservation(InsertObservation(db.observations, image, digest, at), image, digest);
            obs.Some? && obs.value.firstSeenAt == FromUnix(at)
  {
    var found, t := WithKey(db.observations, image, digest), InsertObservation(db.observations, image, digest, at);
    NonEmpty(found);
    if found != map[] {
      var id :| id in found;
      assert Observed(db, image, digest, db.observations.rows[id].firstSeen);
    }
    InsertObservationExtends(db, image, digest, at);
    ObservationFound(t, image, digest);
    assert SameKey(t.rows[t.last], image, digest);
  }

  lemma {:induction false} SeenRest(w: World, c: Call, d: Decision, o: Override, obs: Observation)
    requires Valid(w.db) && c.faults == map[] && Fresh(d) && d.standing == NO_STANDING && OverrideIs(w.db, c, d, o)
    requires obs.id in w.db.observations.rows
    ensures var d', age := DecideSeen(w, c, d, o, obs).1.decision, Sub(c.now, obs.firstSeenAt);
            && RestOn(w.db, c, d, d')
            && d'.standing == WithOverride(w.db, c, d, Standing(Some(obs.firstSeenAt),
                 if o.decision == DECISION_ALLOW then 0 else age,
                 if o.decision != DECISION_ALLOW && age < c.policy.mutableTags.minDigestAge then
                   Some(obs.firstSeenAt + c.policy.mutableTags.minDigestAge)
                 else None, false, false, false))
  {
    var touched := w.(db := w.db.(observations := TouchObservation(w.db.observations, obs.id, Unix(c.now))));
    UpdateObservationExtends(w.db, obs.id, Unix(c.now));
    LocalOverrideMeaning(w.db, d.subject.image, d.subject.digest, c.now);
    var seen, d' := Seen(d, obs.firstSeenAt), DecideSeen(w, c, d, o, obs).1.decision;
    var aged := Aging(seen, Sub(c.now, obs.firstSeenAt));
    if o.decision == DECISION_ALLOW {
      AllowRest(touched.db, c, obs.id, Overridden(seen, o));
      RestFrame(w.db, touched.db, c, Overridden(seen, o), d');
    } else if Sub(c.now, obs.firstSeenAt) >= c.policy.mutableTags.minDigestAge {
      AllowRest(touched.db, c, obs.id, aged);
      RestFrame(w.db, touched.db, c, aged, d');
    }
  }

  // ---------------------------------------------------------------- the whole decision

  lemma {:induction false} FirstSeenOf(db: Database, c: Call, id: int)
    requires Valid(db) && id in db.observations.rows && SameKey(db.observations.rows[id], ImageOf(c), DigestOf(c))
    ensures Known(db, ImageOf(c), DigestOf(c)) && FirstSeen(db, c) == db.observations.rows[id].firstSeen
  {
    assert Observed(db, ImageOf(c), DigestOf(c), db.observations.rows[id].firstSeen);
  }

  lemma {:induction false} SubIsLasting(now: Time, t: Time)
    ensures Sub(now, t) == Lasting(now - t)
  {
  }

  lemma {:induction false} TagIsReport(w: World, c: Call)
    requires Valid(w.db) && c.faults == map[] && AsksStore(c) && !c.ref.isDigestPinned
    ensures var d := Decide(w, c).1.decision;
            RestOn(w.db, c, Resolved(NewDecision(c), DigestOf(c)), d) && d.standing == StandingOn(w.db, c)
  {
    var d := Resolved(NewDecision(c), DigestOf(c));
    var image, digest := d.subject.image, d.subject.digest;
    var o := LocalOverride(w.db, image, digest, c.now);
    DecisionIsVerdict(w, c);
    LocalOverrideMeaning(w.db, image, digest, c.now);
    ObservationFound(w.db.observations, image, digest);
    if o.decision != DECISION_DENY {
      var obs := GetObservation(w.db.observations, image, digest);
      if obs.None? {
        NotKnown(w.db, image, digest);
        FirstSeenRest(w, c, d, o);
        TagVerdictOfNew(w.db, c);
      } else {
        FirstSeenOf(w.db, c, obs.value.id);
        DueIsAge(w.db, image, digest, c, obs.value.id);
        SubIsLasting(c.now, obs.value.firstSeenAt);
        SeenRest(w, c, d, o, obs.value);
        TagVerdictOfKnown(w.db, c);
      }
    }
  }

  lemma {:induction false} NotKnown(db: Database, image: TagKey, digest: string)
    requires Valid(db) && GetObservation(db.observations, image, digest).None?
    ensures !Known(db, image, digest)
  {
    ObservationFound(db.observations, image, digest);
  }

  lemma {:induction false} TagVerdictOfNew(db: Database, c: Call)
    requires AsksStore(c) && !c.ref.isDigestPinned && !Frozen(db, ImageOf(c), DigestOf(c), c.now)
    requires !Known(db, ImageOf(c), DigestOf(c))
    ensures VerdictOn(db, c).reason in {NewDigest, StillInQuarantine} <==>
            !OnApproval(db, c) && !OnBypass(db, c) && !c.policy.mutableTags.allowFirstSeenPull
  {
  }

  lemma {:induction false} TagVerdictOfKnown(db: Database, c: Call)
    requires AsksStore(c) && !c.ref.isDigestPinned && !Frozen(db, ImageOf(c), DigestOf(c), c.now)
    requires Known(db, ImageOf(c), DigestOf(c))
    ensures VerdictOn(db, c).reason in {NewDigest, StillInQuarantine} <==>
            !OnApproval(db, c) && !OnBypass(db, c) && !IsDue(db, ImageOf(c), DigestOf(c), c)
  {
  }

  /** The exact decision, in every field, for every request and every store: what the engine returns is the report. */
  lemma {:induction false} DecisionIsReport(w: World, c: Call)
    requires Valid(w.db) && c.faults == map[]
    ensures Decide(w, c).1 == Outcome(ReportOn(w.db, c), None)
  {
    var d := NewDecision(c);
    DecisionIsVerdict(w, c);
    if c.ref.isDigestPinned {
      PinnedRest(w, c, d);
    } else if AsksStore(c) {
      TagIsReport(w, c);
    }
    assert VerdictOf(Decide(w, c).1.decision) == VerdictOn(w.db, c);
  }
}
