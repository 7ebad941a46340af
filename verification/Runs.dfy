/** Sequential runs of the engine and of operator commands over one store, and the laws they obey. */
module Runs {
  import opened Prelude
  import opened Policy
  import opened Verify
  import opened Tables
  import opened Quarantine

  datatype Op =
    | Pull(call: Call)
    | Approve(approval: ApprovalRow)
    | Freeze(freeze: FreezeRow)
    | Bypass(bypass: BypassRow)

  /** Freeze rows come from `FreezeTag`, which stores NULL for an empty digest. */
  ghost predicate OpOk(op: Op) {
    op.Freeze? ==> op.freeze.digest != Some("")
  }

  ghost function Apply(w: World, op: Op): World {
    match op
    case Pull(c) => Decide(w, c).0
    case Approve(row) => w.(db := w.db.(approvals := Insert(w.db.approvals, row)))
    case Freeze(row) => w.(db := w.db.(freezes := Insert(w.db.freezes, row)))
    case Bypass(row) => w.(db := w.db.(bypasses := Insert(w.db.bypasses, row)))
  }

  ghost function Run(w: World, ops: seq<Op>): World
    decreases |ops|
  {
    if ops == [] then w else Apply(Run(w, ops[..|ops| - 1]), ops[|ops| - 1])
  }

  // ---------------------------------------------------------------- what never changes

  /** Observations keep their id, key and first-seen time. */
  ghost predicate ObservationsStay(before: Database, after: Database) {
    forall id :: id in before.observations.rows ==>
      id in after.observations.rows
      && SameKey(after.observations.rows[id], before.observations.rows[id].image, before.observations.rows[id].digest)
      && after.observations.rows[id].firstSeen == before.observations.rows[id].firstSeen
  }

  /** In a sequential run, successful verifications stay successful, too. */
  ghost predicate Extends(before: Database, after: Database) {
    && ObservationsStay(before, after)
    && (forall id :: id in before.cosign.rows && before.cosign.rows[id].success != 0 ==>
          id in after.cosign.rows && after.cosign.rows[id].key == before.cosign.rows[id].key
          && after.cosign.rows[id].success != 0)
  }

  lemma {:induction false} ObservationFound(t: Table<ObservationRow>, image: TagKey, digest: string)
    requires UniqueObservations(t)
    ensures var o := GetObservation(t, image, digest);
            && (o.Some? <==> exists id :: id in t.rows && SameKey(t.rows[id], image, digest))
            && (o.Some? ==> o.value.id in t.rows && o.value == ScanObservation(o.value.id, t.rows[o.value.id])
                            && SameKey(t.rows[o.value.id], image, digest))
            && (forall id :: id in t.rows && SameKey(t.rows[id], image, digest) ==>
                  o == Some(ScanObservation(id, t.rows[id])))
  {
    var found := WithKey(t, image, digest);
    forall id | id in t.rows && SameKey(t.rows[id], image, digest) ensures id in found && found != map[] { }
    LatestIdMeaning(found);
  }

  lemma {:induction false} CosignFound(t: Table<CosignRow>, key: CosignKey)
    requires UniqueCosign(t)
    ensures var o := GetCosign(t, key);
            && (o.Some? ==> o.value.id in t.rows && o.value == ScanCosign(o.value.id, t.rows[o.value.id])
                            && t.rows[o.value.id].key == key)
            && (forall id :: id in t.rows && t.rows[id].key == key ==> o == Some(ScanCosign(id, t.rows[id])))
  {
    var found := CosignWithKey(t, key);
    forall id | id in t.rows && t.rows[id].key == key ensures id in found && found != map[] { }
    LatestIdMeaning(found);
  }

  lemma {:induction false} InsertObservationExtends(db: Database, image: TagKey, digest: string, at: Seconds)
    requires Valid(db)
    ensures var after := db.(observations := InsertObservation(db.observations, image, digest, at));
            Valid(after) && Extends(db, after) && GetObservation(after.observations, image, digest).Some?
  {
    var t := InsertObservation(db.observations, image, digest, at);
    var found := WithKey(db.observations, image, digest);
    NonEmpty(found);
    if found == map[] {
      assert forall id ::
        id in db.observations.rows && SameKey(db.observations.rows[id], image, digest) ==> id in found;
      assert SameKey(t.rows[t.last], image, digest);
    } else {
      var id :| id in found;
      assert SameKey(t.rows[id], image, digest);
    }
    ObservationFound(t, image, digest);
  }

  lemma {:induction false} UpdateObservationExtends(db: Database, id: int, at: Seconds)
    requires Valid(db)
    ensures var touched := db.(observations := TouchObservation(db.observations, id, at));
            Valid(touched) && Extends(db, touched)
    ensures var marked := db.(observations := MarkObservationAllowed(db.observations, id, at));
            Valid(marked) && Extends(db, marked)
  {
  }

  lemma {:induction false} RecordCosignExtends(db: Database, row: CosignRow)
    requires Valid(db) && row.success == BoolInt(row.success != 0)
    requires GetCosign(db.cosign, row.key).Some? ==> !GetCosign(db.cosign, row.key).value.success
    ensures var after := db.(cosign := RecordCosign(db.cosign, row));
            Valid(after) && Extends(db, after)
    ensures exists id :: id in RecordCosign(db.cosign, row).rows && RecordCosign(db.cosign, row).rows[id] == row
  {
    CosignFound(db.cosign, row.key);
    var t := RecordCosign(db.cosign, row);
    var id := LatestId(CosignWithKey(db.cosign, row.key));
    LatestIdMeaning(CosignWithKey(db.cosign, row.key));
    if id.None? {
      assert t.rows[t.last] == row;
    } else {
      assert t.rows[id.value] == row;
    }
  }

  /** A success row for exactly the command line that a call needs. */
  ghost predicate Verified(db: Database, key: CosignKey) {
    exists id :: id in db.cosign.rows && db.cosign.rows[id].key == key && db.cosign.rows[id].success != 0
  }

  lemma {:induction false} VerifyCosignExtends(db: Database, c: Call, d: Decision)
    requires Valid(db)
    ensures var (after, d', passed) := VerifyCosign(db, c, d);
            && Valid(after) && Extends(db, after) && after == db.(cosign := after.cosign)
            && (passed ==> Verified(after, CacheKey(c, d)))
  {
    CosignFound(db.cosign, CacheKey(c, d));
    var r := c.verifier(d.subject.image.registry, d.subject.image.repository, d.subject.digest, c.policy.cosign);
    if ReadCosign in c.faults || CacheHit(db, c, d) || r.Err? || WriteCosign in c.faults {
      assert VerifyCosign(db, c, d).0 == db;
    } else {
      RecordCosignExtends(db, CacheRow(c, d, r.value));
    }
  }

  /** Everything verification and marking leave alone. */
  predicate SameSubject(a: Decision, b: Decision) {
    a.subject == b.subject && a.standing == b.standing
  }

  lemma {:induction false} VerifyCosignDecision(db: Database, c: Call, d: Decision)
    ensures var (after, d', passed) := VerifyCosign(db, c, d);
            SameSubject(d', d) && d'.allowed == (passed && d.allowed)
  {
    if !(ReadCosign in c.faults || CacheHit(db, c, d)) {
      RunVerifierDecision(db, c, d, c.verifier(d.subject.image.registry, d.subject.image.repository, d.subject.digest,
                                               c.policy.cosign));
    }
  }

  lemma {:induction false} RunVerifierDecision(db: Database, c: Call, d: Decision, answer: Result<CosignResult, string>)
    ensures var (after, d', passed) := RunVerifier(db, c, d, answer);
            SameSubject(d', d) && d'.allowed == (passed && d.allowed)
  {
  }

  lemma {:induction false} MarkAndAllowExtends(db: Database, c: Call, id: int, d: Decision)
    requires Valid(db)
    ensures var (after, d') := MarkAndAllow(db, c, id, d);
            && Valid(after) && Extends(db, after) && after == db.(observations := after.observations)
            && SameSubject(d', d)
  {
    UpdateObservationExtends(db, id, Unix(c.now));
  }

  lemma {:induction false} ExtendsTransitive(a: Database, b: Database, c: Database)
    requires Extends(a, b) && Extends(b, c)
    ensures Extends(a, c)
  {
  }

  lemma {:induction false} AllowExtends(db: Database, c: Call, id: int, d: Decision)
    requires Valid(db)
    ensures var (after, d') := AllowWithVerification(db, c, id, d);
            && Valid(after) && Extends(db, after)
            && after == db.(observations := after.observations, cosign := after.cosign)
            && SameSubject(d', d)
            && (d'.allowed && c.policy.cosign.required ==> Verified(after, CacheKey(c, d)))
  {
    if c.policy.cosign.required {
      var (verified, d', passed) := VerifyCosign(db, c, d);
      VerifyCosignExtends(db, c, d);
      VerifyCosignDecision(db, c, d);
      if passed {
        MarkAndAllowExtends(verified, c, id, d');
        ExtendsTransitive(db, verified, MarkAndAllow(verified, c, id, d').0);
      }
    } else {
      MarkAndAllowExtends(db, c, id, d);
    }
  }

  lemma {:induction false} RecordExtends(w: World, c: Call, d: Decision)
    requires Valid(w.db)
    ensures var (after, outcome) := Record(w, c, d);
            && Valid(after.db) && Extends(w.db, after.db) && outcome.decision == d
            && after.db == w.db.(decisions := after.db.decisions)
            && (c.faults == map[] ==> outcome.failure.None?)
  {
  }

  lemma {:induction false} FirstSeenExtends(w: World, c: Call, d: Decision, o: Override)
    requires Valid(w.db)
    ensures var after := DecideFirstSeen(w, c, d, o).0; Valid(after.db) && Extends(w.db, after.db)
  {
    if InsertNew !in c.faults {
      var t := InsertObservation(w.db.observations, d.subject.image, d.subject.digest, Unix(c.now));
      var inserted := w.(db := w.db.(observations := t));
      InsertObservationExtends(w.db, d.subject.image, d.subject.digest, Unix(c.now));
      if RereadObservation !in c.faults {
        var obs := GetObservation(t, d.subject.image, d.subject.digest).value;
        var seen := Seen(d, obs.firstSeenAt);
        if o.decision == DECISION_ALLOW || c.policy.mutableTags.allowFirstSeenPull {
          AllowThenRecord(inserted, c, obs.id, Overridden(seen, o));
          var allowed := AllowWithVerification(inserted.db, c, obs.id, Overridden(seen, o));
          ExtendsTransitive(w.db, inserted.db, Record(inserted.(db := allowed.0), c, allowed.1).0.db);
        } else {
          var q := Quarantined(seen, obs.firstSeenAt, c.policy.mutableTags.minDigestAge, NewDigest);
          RecordExtends(inserted, c, q);
          ExtendsTransitive(w.db, inserted.db, Record(inserted, c, q).0.db);
        }
      }
    }
  }

  lemma {:induction false} AllowThenRecord(w: World, c: Call, id: int, d: Decision)
    requires Valid(w.db)
    ensures var (db, d') := AllowWithVerification(w.db, c, id, d);
            var after := Record(w.(db := db), c, d').0;
            Valid(after.db) && Extends(w.db, after.db)
  {
    var (db, d') := AllowWithVerification(w.db, c, id, d);
    AllowExtends(w.db, c, id, d);
    RecordExtends(w.(db := db), c, d');
    ExtendsTransitive(w.db, db, Record(w.(db := db), c, d').0.db);
  }

  lemma {:induction false} SeenExtends(w: World, c: Call, d: Decision, o: Override, obs: Observation)
    requires Valid(w.db)
    ensures var after := DecideSeen(w, c, d, o, obs).0; Valid(after.db) && Extends(w.db, after.db)
  {
    if TouchSeen !in c.faults && obs.id in w.db.observations.rows {
      var touched := w.(db := w.db.(observations := TouchObservation(w.db.observations, obs.id, Unix(c.now))));
      UpdateObservationExtends(w.db, obs.id, Unix(c.now));
      TouchedExtends(touched, c, d, o, obs);
      ExtendsTransitive(w.db, touched.db, AfterTouch(touched, c, d, o, obs).0.db);
    }
  }

  /** `DecideSeen` from the update of the last-seen time on. */
  ghost function AfterTouch(touched: World, c: Call, d: Decision, o: Override, obs: Observation): (World, Outcome) {
    var seen := Seen(d, obs.firstSeenAt);
    var aged := Aging(seen, Sub(c.now, obs.firstSeenAt));
    if o.decision != DECISION_ALLOW && Sub(c.now, obs.firstSeenAt) < c.policy.mutableTags.minDigestAge then
      Record(touched, c, Quarantined(aged, obs.firstSeenAt, c.policy.mutableTags.minDigestAge, StillInQuarantine))
    else
      var (db, d') := AllowWithVerification(touched.db, c, obs.id,
                                            if o.decision == DECISION_ALLOW then Overridden(seen, o) else aged);
      Record(touched.(db := db), c, d')
  }

  lemma {:induction false} TouchedExtends(touched: World, c: Call, d: Decision, o: Override, obs: Observation)
    requires Valid(touched.db)
    ensures var after := AfterTouch(touched, c, d, o, obs).0; Valid(after.db) && Extends(touched.db, after.db)
  {
    var seen := Seen(d, obs.firstSeenAt);
    var aged := Aging(seen, Sub(c.now, obs.firstSeenAt));
    AllowThenRecord(touched, c, obs.id, if o.decision == DECISION_ALLOW then Overridden(seen, o) else aged);
    RecordExtends(touched, c, Quarantined(aged, obs.firstSeenAt, c.policy.mutableTags.minDigestAge, StillInQuarantine));
  }

  lemma {:induction false} ResolvedExtends(w: World, c: Call, d: Decision)
    requires Valid(w.db)
    ensures var after := DecideResolved(w, c, d).0; Valid(after.db) && Extends(w.db, after.db)
  {
    var override := ReadOverride(w.db, c, d);
    if override.Ok? {
      RecordExtends(w, c, DenyFrozen(d));
      var obs := GetObservation(w.db.observations, d.subject.image, d.subject.digest);
      if obs.None? { FirstSeenExtends(w, c, d, override.value); }
      else { SeenExtends(w, c, d, override.value, obs.value); }
    }
  }

  lemma {:induction false} PinnedExtends(w: World, c: Call, d: Decision)
    requires Valid(w.db)
    ensures var after := DecidePinned(w, c, d).0; Valid(after.db) && Extends(w.db, after.db)
  {
    var override := ReadOverride(w.db, c, d);
    if override.Ok? {
      var (db, d', passed) := VerifyCosign(w.db, c, d);
      VerifyCosignExtends(w.db, c, d);
      var verified := w.(db := db);
      var final := if passed then AllowPinned(d', override.value) else d';
      RecordExtends(verified, c, final);
      ExtendsTransitive(w.db, db, Record(verified, c, final).0.db);
      RecordExtends(w, c, DenyFrozen(d));
      RecordExtends(w, c, Deny(d, PinnedDenied));
      RecordExtends(w, c, AllowPinned(d, override.value));
    }
  }

  /** One request keeps the schema's constraints, every observation, and every successful verification. */
  lemma {:induction false} DecideExtends(w: World, c: Call)
    requires Valid(w.db)
    ensures var after := Decide(w, c).0; Valid(after.db) && Extends(w.db, after.db)
  {
    var d := NewDecision(c);
    if c.ref.isDigestPinned {
      PinnedExtends(w, c, d);
    } else if c.policy.mutableTags.action == ACTION_ALLOW {
      RecordExtends(w, c, Allow(d, TagAllowed));
    } else if c.policy.mutableTags.action == ACTION_DENY {
      RecordExtends(w, c, Deny(d, TagDenied));
    } else if c.resolution.Err? {
      RecordExtends(w, c, Allow(d, Fallback));
      RecordExtends(w, c, Deny(d, Unresolved(c.resolution.error)));
    } else {
      ResolvedExtends(w, c, Resolved(d, c.resolution.value));
    }
  }

  lemma {:induction false} ApplyExtends(w: World, op: Op)
    requires Valid(w.db) && OpOk(op)
    ensures Valid(Apply(w, op).db) && Extends(w.db, Apply(w, op).db)
  {
    if op.Pull? {
      DecideExtends(w, op.call);
    }
  }

  lemma {:induction false} RunExtends(w: World, ops: seq<Op>, i: nat)
    requires Valid(w.db) && i <= |ops| && forall k :: 0 <= k < |ops| ==> OpOk(ops[k])
    ensures Valid(Run(w, ops[..i]).db) && Valid(Run(w, ops).db) && Extends(Run(w, ops[..i]).db, Run(w, ops).db)
    decreases |ops|
  {
    if i == |ops| {
      assert ops[..i] == ops;
      if ops != [] {
        RunExtends(w, ops[..i - 1], i - 1);
        ApplyExtends(Run(w, ops[..i - 1]), ops[i - 1]);
      }
    } else {
      var init := ops[..|ops| - 1];
      assert init[..i] == ops[..i];
      RunExtends(w, init, i);
      ApplyExtends(Run(w, init), ops[|ops| - 1]);
      ExtendsTransitive(Run(w, ops[..i]).db, Run(w, init).db, Run(w, ops).db);
    }
  }
}
