/** What a request leaves in the tables. */
module Effects {
  import opened Prelude
  import opened Verify
  import opened Tables
  import opened Quarantine
  import opened Runs
  import opened Laws
  import opened Verdicts
  import opened Reports

  /** The row of the digest after a request at `now`: created if new, seen now, and allowed now if it was. */
  function StampedRow(before: Table<ObservationRow>, id: int, image: TagKey, digest: string, now: Seconds,
                      allowed: bool)
    : ObservationRow
  {
    var row := if id in before.rows then before.rows[id]
               else ObservationRow(image, digest, now, now, None, "quarantined");
    if allowed then row.(lastSeen := now, lastAllowed := Some(now)) else row.(lastSeen := now)
  }

  /** Exactly the row of that digest has been stamped. */
  ghost predicate Stamped(before: Table<ObservationRow>, after: Table<ObservationRow>, image: TagKey, digest: string,
                          now: Seconds, allowed: bool)
  {
    && (exists id :: id in after.rows && SameKey(after.rows[id], image, digest)
                     && after.rows[id] == StampedRow(before, id, image, digest, now, allowed))
    && (forall id :: id in after.rows && !SameKey(after.rows[id], image, digest) ==>
          id in before.rows && before.rows[id] == after.rows[id])
    && (forall id :: id in before.rows ==> id in after.rows)
  }

  ghost predicate SameOverrides(before: Database, after: Database) {
    after.approvals == before.approvals && after.freezes == before.freezes && after.bypasses == before.bypasses
  }

  /** The row is marked exactly when the request is allowed. */
  lemma {:induction false} AllowEffect(db: Database, c: Call, id: int, d: Decision)
    requires c.faults == map[] && id in db.observations.rows && !d.allowed
    ensures var (after, d') := AllowWithVerification(db, c, id, d);
            && after.observations == (if d'.allowed then MarkObservationAllowed(db.observations, id, Unix(c.now))
                                      else db.observations)
            && SameOverrides(db, after)
  {
    VerifyCosignDecision(db, c, d);
  }

  lemma {:induction false} FirstSeenEffect(w: World, c: Call, d: Decision, o: Override)
    requires Valid(w.db) && c.faults == map[] && !d.allowed
    requires GetObservation(w.db.observations, d.subject.image, d.subject.digest).None?
    ensures var (after, outcome) := DecideFirstSeen(w, c, d, o);
            && Stamped(w.db.observations, after.db.observations, d.subject.image, d.subject.digest, Unix(c.now),
                       outcome.decision.allowed)
            && SameOverrides(w.db, after.db)
  {
    var image, digest, now := d.subject.image, d.subject.digest, Unix(c.now);
    var t := InsertObservation(w.db.observations, image, digest, now);
    var inserted := w.(db := w.db.(observations := t));
    InsertObservationExtends(w.db, image, digest, now);
    ObservationFound(w.db.observations, image, digest);
    ObservationFound(t, image, digest);
    var obs := GetObservation(t, image, digest).value;
    var seen := Seen(d, obs.firstSeenAt);
    NewRowEffect(w.db.observations, image, digest, now, obs.id);
    if o.decision == DECISION_ALLOW || c.policy.mutableTags.allowFirstSeenPull {
      AllowEffect(inserted.db, c, obs.id, Overridden(seen, o));
    }
  }

  lemma {:induction false} NewRowEffect(before: Table<ObservationRow>, image: TagKey, digest: string, now: Seconds,
                                        id: int)
    requires Sequenced(before) && forall j :: j in before.rows ==> !SameKey(before.rows[j], image, digest)
    requires var t := InsertObservation(before, image, digest, now);
             id in t.rows && SameKey(t.rows[id], image, digest)
    ensures var t := InsertObservation(before, image, digest, now);
            && Stamped(before, t, image, digest, now, false)
            && Stamped(before, MarkObservationAllowed(t, id, now), image, digest, now, true)
  {
    var t := InsertObservation(before, image, digest, now);
    assert WithKey(before, image, digest) == map[];
    assert id == before.last + 1 && id !in before.rows;
    assert t.rows[id] == StampedRow(before, id, image, digest, now, false);
    assert MarkObservationAllowed(t, id, now).rows[id] == StampedRow(before, id, image, digest, now, true);
  }

  lemma {:induction false} SeenEffect(w: World, c: Call, d: Decision, o: Override, obs: Observation)
    requires Valid(w.db) && c.faults == map[] && !d.allowed
    requires GetObservation(w.db.observations, d.subject.image, d.subject.digest) == Some(obs)
    ensures var (after, outcome) := DecideSeen(w, c, d, o, obs);
            && Stamped(w.db.observations, after.db.observations, d.subject.image, d.subject.digest, Unix(c.now),
                       outcome.decision.allowed)
            && SameOverrides(w.db, after.db)
  {
    var image, digest, now := d.subject.image, d.subject.digest, Unix(c.now);
    ObservationFound(w.db.observations, image, digest);
    var touched := w.(db := w.db.(observations := TouchObservation(w.db.observations, obs.id, now)));
    var seen := Seen(d, obs.firstSeenAt);
    var aged := Aging(seen, Sub(c.now, obs.firstSeenAt));
    OldRowEffect(w.db.observations, image, digest, now, obs.id);
    if o.decision == DECISION_ALLOW {
      AllowEffect(touched.db, c, obs.id, Overridden(seen, o));
    } else if Sub(c.now, obs.firstSeenAt) >= c.policy.mutableTags.minDigestAge {
      AllowEffect(touched.db, c, obs.id, aged);
    }
  }

  lemma {:induction false} OldRowEffect(before: Table<ObservationRow>, image: TagKey, digest: string, now: Seconds,
                                        id: int)
    requires UniqueObservations(before) && id in before.rows && SameKey(before.rows[id], image, digest)
    ensures var t := TouchObservation(before, id, now);
            && Stamped(before, t, image, digest, now, false)
            && Stamped(before, MarkObservationAllowed(t, id, now), image, digest, now, true)
  {
    var t := TouchObservation(before, id, now);
    assert t.rows[id] == StampedRow(before, id, image, digest, now, false);
    assert MarkObservationAllowed(t, id, now).rows[id] == StampedRow(before, id, image, digest, now, true);
  }

  /**
   A request for a resolved tag under quarantine that is not frozen stamps exactly the row of its digest, as
   allowed if and only if it is allowed; a request writes no approval, freeze or bypass.
   */
  lemma {:induction false} ResolvedStampsItsRow(w: World, c: Call, image: TagKey, digest: string)
    requires Valid(w.db) && c.faults == map[] && Resolves(c, image, digest)
    ensures var (after, outcome) := Decide(w, c);
            && SameOverrides(w.db, after.db)
            && (if Frozen(w.db, image, digest, c.now) then after.db.observations == w.db.observations
                else Stamped(w.db.observations, after.db.observations, image, digest, Unix(c.now),
                             outcome.decision.allowed))
  {
    var d := Resolved(NewDecision(c), digest);
    assert Decide(w, c) == DecideResolved(w, c, d);
    var o := LocalOverride(w.db, image, digest, c.now);
    LocalOverrideMeaning(w.db, image, digest, c.now);
    if o.decision != DECISION_DENY {
      var obs := GetObservation(w.db.observations, image, digest);
      if obs.None? { FirstSeenEffect(w, c, d, o); } else { SeenEffect(w, c, d, o, obs.value); }
    }
  }

  ghost predicate CachedAs(cached: Option<CosignVerification>, s: Subject, now: Seconds, answer: CosignResult) {
    && cached.Some? && cached.value.success == answer.success && cached.value.reason == answer.reason
    && cached.value.imageRef == DigestReference(s.image.registry, s.image.repository, s.digest)
    && Unix(cached.value.verifiedAt) == now
  }

  /** A verification that was run is what the cache says of its key from then on; other keys are not affected. */
  lemma {:induction false} VerificationIsCached(db: Database, c: Call, d: Decision)
    requires Valid(db) && c.faults == map[] && !CacheHit(db, c, d)
    ensures var s, key := d.subject, CacheKey(c, d);
            var answer := c.verifier(s.image.registry, s.image.repository, s.digest, c.policy.cosign);
            var after := VerifyCosign(db, c, d).0;
            answer.Ok? ==>
              && CachedAs(GetCosign(after.cosign, key), s, Unix(c.now), answer.value)
              && forall id :: id in after.cosign.rows && after.cosign.rows[id].key != key ==>
                   id in db.cosign.rows && db.cosign.rows[id] == after.cosign.rows[id]
  {
    var s, key := d.subject, CacheKey(c, d);
    var answer := c.verifier(s.image.registry, s.image.repository, s.digest, c.policy.cosign);
    if answer.Ok? {
      var row := CacheRow(c, d, answer.value);
      CosignFound(db.cosign, key);
      RecordCosignExtends(db, row);
      var t := RecordCosign(db.cosign, row);
      CosignFound(t, key);
      var id :| id in t.rows && t.rows[id] == row;
      assert GetCosign(t, key) == Some(ScanCosign(id, row));
    }
  }

  // ---------------------------------------------------------------- every table after every request

  /** Nothing but a missing signature stands between the request and an allow. */
  ghost predicate NeedsSignature(db: Database, c: Call) {
    && AsksStore(c) && c.policy.cosign.required && !Frozen(db, ImageOf(c), DigestOf(c), c.now)
    && if c.ref.isDigestPinned then c.policy.digestPinnedImages != "deny"
       else
         || OnApproval(db, c) || OnBypass(db, c)
         || (if Known(db, ImageOf(c), DigestOf(c)) then IsDue(db, ImageOf(c), DigestOf(c), c)
             else c.policy.mutableTags.allowFirstSeenPull)
  }

  /** The row for an answer of the verifier about the request's digest. */
  function AnswerRow(c: Call, digest: string, answer: CosignResult): CosignRow {
    CosignRow(CosignKey(c.ref.registry, c.ref.repository, digest, CosignPolicyKey(c.policy.cosign)),
              c.ref.registry + "/" + c.ref.repository + "@" + digest, c.now / 1_000_000_000,
              if answer.success then 1 else 0, answer.reason)
  }

  /** The cache after a request that needs a signature: unchanged on a hit, or if the verifier cannot answer. */
  ghost function CacheAfter(db: Database, c: Call, digest: string): Table<CosignRow> {
    var answer := c.verifier(c.ref.registry, c.ref.repository, digest, c.policy.cosign);
    if Verified(db, CosignKeyOf(ImageOf(c), digest, c.policy)) || answer.Err? then db.cosign
    else RecordCosign(db.cosign, AnswerRow(c, digest, answer.value))
  }

  predicate About(d: Decision, c: Call) {
    !d.allowed && d.subject.image == ImageOf(c) && d.subject.digest == DigestOf(c)
  }

  lemma {:induction false} VerificationEffect(db: Database, c: Call, d: Decision)
    requires Valid(db) && c.faults == map[] && About(d, c)
    ensures VerifyCosign(db, c, d).0 == db.(cosign := CacheAfter(db, c, DigestOf(c)))
  {
    HitIffVerified(db, c, d);
  }

  lemma {:induction false} AllowCacheEffect(db: Database, c: Call, id: int, d: Decision)
    requires Valid(db) && c.faults == map[] && About(d, c) && id in db.observations.rows
    ensures AllowWithVerification(db, c, id, d).0.cosign
            == if c.policy.cosign.required then CacheAfter(db, c, DigestOf(c)) else db.cosign
  {
    if c.policy.cosign.required {
      VerificationEffect(db, c, d);
    }
  }

  lemma {:induction false} CacheAfterFrame(before: Database, after: Database, c: Call, digest: string)
    requires after == before.(observations := after.observations)
    ensures CacheAfter(before, c, digest) == CacheAfter(after, c, digest)
  {
    var key := CosignKeyOf(ImageOf(c), digest, c.policy);
    assert Verified(before, key) == Verified(after, key);
  }

  lemma {:induction false} FirstSeenCache(w: World, c: Call, d: Decision, o: Override)
    requires Valid(w.db) && c.faults == map[] && About(d, c)
    ensures DecideFirstSeen(w, c, d, o).0.db.cosign
            == if c.policy.cosign.required && (o.decision == DECISION_ALLOW || c.policy.mutableTags.allowFirstSeenPull)
               then CacheAfter(w.db, c, DigestOf(c)) else w.db.cosign
  {
    var image, digest := d.subject.image, d.subject.digest;
    var t := InsertObservation(w.db.observations, image, digest, Unix(c.now));
    var inserted := w.(db := w.db.(observations := t));
    InsertObservationExtends(w.db, image, digest, Unix(c.now));
    ObservationFound(t, image, digest);
    var obs := GetObservation(t, image, digest).value;
    AllowCacheEffect(inserted.db, c, obs.id, Overridden(Seen(d, obs.firstSeenAt), o));
    CacheAfterFrame(w.db, inserted.db, c, DigestOf(c));
  }

  lemma {:induction false} SeenCache(w: World, c: Call, d: Decision, o: Override, obs: Observation)
    requires Valid(w.db) && c.faults == map[] && About(d, c) && obs.id in w.db.observations.rows
    ensures DecideSeen(w, c, d, o, obs).0.db.cosign
            == if c.policy.cosign.required
                  && (o.decision == DECISION_ALLOW
                      || Sub(c.now, obs.firstSeenAt) >= c.policy.mutableTags.minDigestAge)
               then CacheAfter(w.db, c, DigestOf(c)) else w.db.cosign
  {
    var touched := w.(db := w.db.(observations := TouchObservation(w.db.observations, obs.id, Unix(c.now))));
    UpdateObservationExtends(w.db, obs.id, Unix(c.now));
    var seen := Seen(d, obs.firstSeenAt);
    AllowCacheEffect(touched.db, c, obs.id, Overridden(seen, o));
    AllowCacheEffect(touched.db, c, obs.id, Aging(seen, Sub(c.now, obs.firstSeenAt)));
    CacheAfterFrame(w.db, touched.db, c, DigestOf(c));
  }

  lemma {:induction false} PinnedLeaves(w: World, c: Call)
    requires Valid(w.db) && c.faults == map[] && c.ref.isDigestPinned
    ensures var after := Decide(w, c).0.db;
            && after.observations == w.db.observations && SameOverrides(w.db, after)
            && after.cosign == if NeedsSignature(w.db, c) then CacheAfter(w.db, c, c.ref.digest) else w.db.cosign
  {
    LocalOverrideMeaning(w.db, ImageOf(c), DigestOf(c), c.now);
    VerificationEffect(w.db, c, NewDecision(c));
  }

  lemma {:induction false} TagLeaves(w: World, c: Call)
    requires Valid(w.db) && c.faults == map[] && AsksStore(c) && !c.ref.isDigestPinned
    ensures Decide(w, c).0.db.cosign
            == if NeedsSignature(w.db, c) then CacheAfter(w.db, c, DigestOf(c)) else w.db.cosign
  {
    var d := Resolved(NewDecision(c), DigestOf(c));
    var image, digest := d.subject.image, d.subject.digest;
    var o := LocalOverride(w.db, image, digest, c.now);
    LocalOverrideMeaning(w.db, image, digest, c.now);
    ObservationFound(w.db.observations, image, digest);
    if o.decision != DECISION_DENY {
      var obs := GetObservation(w.db.observations, image, digest);
      if obs.None? {
        NotKnown(w.db, image, digest);
        FirstSeenCache(w, c, d, o);
      } else {
        FirstSeenOf(w.db, c, obs.value.id);
        DueIsAge(w.db, image, digest, c, obs.value.id);
        SeenCache(w, c, d, o, obs.value);
      }
    }
  }

  /**
   What every request leaves in every table but the decisions. Observations: nothing, unless it is about a tag under
   quarantine that is resolved and not frozen; then exactly the row of its digest is stamped. Cache: nothing, unless
   only a signature is missing; then the verifier's answer, under the key of the request. Overrides: nothing, ever.
   */
  lemma {:induction false} TablesAfter(w: World, c: Call)
    requires Valid(w.db) && c.faults == map[]
    ensures var (after, Outcome(d, _)) := Decide(w, c);
            && SameOverrides(w.db, after.db)
            && after.db.cosign == (if NeedsSignature(w.db, c) then CacheAfter(w.db, c, DigestOf(c)) else w.db.cosign)
            && if !AsksStore(c) || c.ref.isDigestPinned || Frozen(w.db, ImageOf(c), DigestOf(c), c.now)
               then after.db.observations == w.db.observations
               else Stamped(w.db.observations, after.db.observations, ImageOf(c), DigestOf(c),
                            c.now / 1_000_000_000, d.allowed)
  {
    if c.ref.isDigestPinned {
      PinnedLeaves(w, c);
    } else if AsksStore(c) {
      TagLeaves(w, c);
      ResolvedStampsItsRow(w, c, ImageOf(c), DigestOf(c));
    }
  }
}
