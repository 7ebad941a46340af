/** The Cosign cache refines an engine that runs the verifier every time. */
module CacheRefinement {
  import opened Prelude
  import opened Image
  import opened Policy
  import opened Verify
  import opened Tables
  import opened Quarantine
  import opened Runs

  function WithoutCache(db: Database): Database {
    db.(cosign := EmptyTable())
  }

  /** The reference engine: nothing is ever found in a cache. */
  ghost function DecideUncached(w: World, c: Call): (World, Outcome) {
    Decide(w.(db := WithoutCache(w.db)), c)
  }

  ghost function ApplyUncached(w: World, op: Op): World {
    if op.Pull? then DecideUncached(w, op.call).0 else Apply(w, op)
  }

  ghost function RunUncached(w: World, ops: seq<Op>): World
    decreases |ops|
  {
    if ops == [] then w else ApplyUncached(RunUncached(w, ops[..|ops| - 1]), ops[|ops| - 1])
  }

  // ---------------------------------------------------------------- equal but for `CosignCached`

  function Hide(d: Decision): Decision {
    d.(cosignCached := false)
  }

  function HideEvent(e: Event): Event {
    e.(cosignCached := false)
  }

  ghost predicate SameLog(a: seq<Event>, b: seq<Event>) {
    |a| == |b| && forall i :: 0 <= i < |a| ==> HideEvent(a[i]) == HideEvent(b[i])
  }

  ghost predicate SameButCache(a: World, b: World) {
    WithoutCache(a.db) == WithoutCache(b.db) && SameLog(a.audit, b.audit)
  }

  ghost predicate SameOutcome(a: Outcome, b: Outcome) {
    Hide(a.decision) == Hide(b.decision) && a.failure == b.failure
  }

  ghost predicate SameResult(a: (World, Outcome), b: (World, Outcome)) {
    SameButCache(a.0, b.0) && SameOutcome(a.1, b.1)
  }

  // ---------------------------------------------------------------- soundness of the cache

  /** The verifier depends on nothing but the command line, or on the error that replaces it. */
  ghost predicate ByArguments(v: Verifier) {
    forall registry, repository, digest, a, b ::
      CosignVerifyArgs(registry, repository, digest, a) == CosignVerifyArgs(registry, repository, digest, b) ==>
        v(registry, repository, digest, a) == v(registry, repository, digest, b)
  }

  lemma {:induction false} CommandsDependOnArguments(command: CosignCommand)
    ensures ByArguments(CommandVerifier(command))
  {
  }

  /** The verifier that answers, and the policies with a signature that requests may have. */
  datatype Trust = Trust(verify: Verifier, policies: iset<CosignPolicy>)

  /** Every success in the cache is what the verifier says of some of the policies with that key. */
  ghost predicate CacheSound(db: Database, t: Trust) {
    forall id :: id in db.cosign.rows && db.cosign.rows[id].success != 0 ==>
      exists cfg :: cfg in t.policies && CosignPolicyKey(cfg) == db.cosign.rows[id].key.policyKey
                    && Succeeds(t.verify, db.cosign.rows[id].key, cfg)
  }

  /** What succeeds for one policy succeeds for every other one with its cache key. */
  ghost predicate Transfers(t: Trust) {
    forall key, a, b :: a in t.policies && b in t.policies && SharesKey(key, a, b) && Succeeds(t.verify, key, a) ==>
      Succeeds(t.verify, key, b)
  }

  predicate SharesKey(key: CosignKey, a: CosignPolicy, b: CosignPolicy) {
    CosignPolicyKey(a) == key.policyKey && CosignPolicyKey(b) == key.policyKey
  }

  /** What the refinement asks of a request: that verifier, one of those policies, a working cache. */
  ghost predicate Comparable(c: Call, t: Trust) {
    && c.verifier == t.verify && (c.policy.cosign.required ==> c.policy.cosign in t.policies)
    && ReadCosign !in c.faults && WriteCosign !in c.faults
  }

  lemma {:induction false} HitMeansSuccess(db: Database, c: Call, d: Decision, t: Trust)
    requires Valid(db) && CacheSound(db, t) && Transfers(t) && Comparable(c, t) && CacheHit(db, c, d)
    requires c.policy.cosign.required
    ensures Succeeds(t.verify, CacheKey(c, d), c.policy.cosign)
  {
    var key := CacheKey(c, d);
    CosignFound(db.cosign, key);
    var id := GetCosign(db.cosign, key).value.id;
    var cfg :| cfg in t.policies && CosignPolicyKey(cfg) == key.policyKey
               && Succeeds(t.verify, db.cosign.rows[id].key, cfg);
    assert SharesKey(key, cfg, c.policy.cosign);
  }

  lemma {:induction false} MissInEmptyCache(db: Database, c: Call, d: Decision)
    ensures !CacheHit(WithoutCache(db), c, d)
  {
    assert CosignWithKey(EmptyTable(), CacheKey(c, d)) == map[];
    LatestIdMeaning(CosignWithKey(EmptyTable(), CacheKey(c, d)));
  }

  lemma {:induction false} VerifyRefines(a: Database, b: Database, c: Call, d: Decision, t: Trust)
    requires Valid(a) && WithoutCache(a) == WithoutCache(b)
    requires CacheSound(a, t) && Transfers(t) && Comparable(c, t) && c.policy.cosign.required
    ensures var ra, rb := VerifyCosign(a, c, d), VerifyCosign(WithoutCache(b), c, d);
            && WithoutCache(ra.0) == WithoutCache(rb.0) && Hide(ra.1) == Hide(rb.1) && ra.2 == rb.2
            && CacheSound(ra.0, t)
  {
    MissInEmptyCache(b, c, d);
    if CacheHit(a, c, d) {
      HitMeansSuccess(a, c, d, t);
    } else {
      var answer := c.verifier(d.subject.image.registry, d.subject.image.repository, d.subject.digest, c.policy.cosign);
      RunVerifierSound(a, c, d, t, answer);
    }
  }

  lemma {:induction false} RunVerifierSound(db: Database, c: Call, d: Decision, t: Trust,
                                            answer: Result<CosignResult, string>)
    requires Valid(db) && CacheSound(db, t) && Comparable(c, t) && c.policy.cosign.required
    requires answer == t.verify(d.subject.image.registry, d.subject.image.repository, d.subject.digest, c.policy.cosign)
    ensures CacheSound(RunVerifier(db, c, d, answer).0, t)
  {
    if answer.Ok? {
      var row := CacheRow(c, d, answer.value);
      var table := RecordCosign(db.cosign, row);
      CosignFound(db.cosign, row.key);
      forall id | id in table.rows && table.rows[id].success != 0
        ensures exists cfg :: cfg in t.policies && CosignPolicyKey(cfg) == table.rows[id].key.policyKey
                              && Succeeds(t.verify, table.rows[id].key, cfg)
      {
        if table.rows[id] == row {
          assert Succeeds(t.verify, row.key, c.policy.cosign);
        } else {
          assert id in db.cosign.rows && db.cosign.rows[id] == table.rows[id];
        }
      }
    }
  }

  // ---------------------------------------------------------------- the rest of a request

  lemma {:induction false} AllowRefines(a: Database, b: Database, c: Call, id: int, d: Decision, t: Trust)
    requires Valid(a) && WithoutCache(a) == WithoutCache(b)
    requires CacheSound(a, t) && Transfers(t) && Comparable(c, t)
    ensures var ra, rb := AllowWithVerification(a, c, id, d), AllowWithVerification(WithoutCache(b), c, id, d);
            WithoutCache(ra.0) == WithoutCache(rb.0) && Hide(ra.1) == Hide(rb.1) && CacheSound(ra.0, t)
  {
    if c.policy.cosign.required {
      VerifyRefines(a, b, c, d, t);
      var ra, rb := VerifyCosign(a, c, d), VerifyCosign(WithoutCache(b), c, d);
      MarkRefines(ra.0, rb.0, c, id, ra.1, rb.1, t);
    } else {
      MarkRefines(a, WithoutCache(b), c, id, d, d, t);
    }
  }

  lemma {:induction false} MarkRefines(a: Database, b: Database, c: Call, id: int, d: Decision, e: Decision,
                                       t: Trust)
    requires WithoutCache(a) == WithoutCache(b) && Hide(d) == Hide(e) && CacheSound(a, t)
    ensures var ra, rb := MarkAndAllow(a, c, id, d), MarkAndAllow(b, c, id, e);
            WithoutCache(ra.0) == WithoutCache(rb.0) && Hide(ra.1) == Hide(rb.1) && CacheSound(ra.0, t)
  {
    assert a.observations == WithoutCache(a).observations == WithoutCache(b).observations == b.observations;
    assert d.standing == Hide(d).standing == Hide(e).standing == e.standing;
    assert d.cosignVerified == Hide(d).cosignVerified == Hide(e).cosignVerified == e.cosignVerified;
    assert MarkAndAllow(a, c, id, d).0.cosign == a.cosign;
  }

  lemma {:induction false} HiddenEntries(c: Call, d: Decision, e: Decision)
    requires Hide(d) == Hide(e)
    ensures EntryOf(c, d) == EntryOf(c, e) && HideEvent(EventOf(c, d)) == HideEvent(EventOf(c, e))
  {
    assert d.subject == Hide(d).subject == Hide(e).subject == e.subject;
    assert d.allowed == Hide(d).allowed == Hide(e).allowed == e.allowed;
    assert d.reason == Hide(d).reason == Hide(e).reason == e.reason;
    assert d.cosignVerified == Hide(d).cosignVerified == Hide(e).cosignVerified == e.cosignVerified;
  }

  lemma {:induction false} RecordRefines(a: World, b: World, c: Call, d: Decision, e: Decision, t: Trust)
    requires SameButCache(a, b) && Hide(d) == Hide(e) && CacheSound(a.db, t)
    ensures SameResult(Record(a, c, d), Record(b, c, e)) && CacheSound(Record(a, c, d).0.db, t)
  {
    HiddenEntries(c, d, e);
    LogRefines(a, b, c, d);
    assert LogDecision(b, c, d) == LogDecision(b, c, e);
  }

  lemma {:induction false} LogRefines(a: World, b: World, c: Call, d: Decision)
    requires SameButCache(a, b)
    ensures SameButCache(LogDecision(a, c, d), LogDecision(b, c, d))
    ensures LogDecision(a, c, d).db.cosign == a.db.cosign
  {
    assert a.db.decisions == WithoutCache(a.db).decisions == WithoutCache(b.db).decisions == b.db.decisions;
  }

  lemma {:induction false} AllowThenRecordRefines(a: World, b: World, c: Call, id: int, d: Decision, t: Trust)
    requires Valid(a.db) && SameButCache(a, b)
    requires CacheSound(a.db, t) && Transfers(t) && Comparable(c, t)
    ensures var ra, rb := AllowWithVerification(a.db, c, id, d), AllowWithVerification(WithoutCache(b.db), c, id, d);
            && SameResult(Record(a.(db := ra.0), c, ra.1), Record(b.(db := rb.0), c, rb.1))
            && CacheSound(Record(a.(db := ra.0), c, ra.1).0.db, t)
  {
    var ra, rb := AllowWithVerification(a.db, c, id, d), AllowWithVerification(WithoutCache(b.db), c, id, d);
    AllowRefines(a.db, b.db, c, id, d, t);
    RecordRefines(a.(db := ra.0), b.(db := rb.0), c, ra.1, rb.1, t);
  }

  /** `b` is the uncached world with its cache already emptied. */
  ghost predicate Paired(a: World, b: World, c: Call, t: Trust) {
    && Valid(a.db) && SameButCache(a, b) && b.db == WithoutCache(b.db)
    && CacheSound(a.db, t) && Transfers(t) && Comparable(c, t)
  }

  lemma {:induction false} PairedTables(a: World, b: World)
    requires SameButCache(a, b)
    ensures a.db.observations == b.db.observations && a.db.freezes == b.db.freezes
            && a.db.approvals == b.db.approvals && a.db.bypasses == b.db.bypasses && a.db.decisions == b.db.decisions
  {
    assert WithoutCache(a.db).observations == a.db.observations && WithoutCache(b.db).observations == b.db.observations;
    assert WithoutCache(a.db).freezes == a.db.freezes && WithoutCache(b.db).freezes == b.db.freezes;
    assert WithoutCache(a.db).approvals == a.db.approvals && WithoutCache(b.db).approvals == b.db.approvals;
    assert WithoutCache(a.db).bypasses == a.db.bypasses && WithoutCache(b.db).bypasses == b.db.bypasses;
    assert WithoutCache(a.db).decisions == a.db.decisions && WithoutCache(b.db).decisions == b.db.decisions;
  }

  lemma {:induction false} FirstSeenRefines(a: World, b: World, c: Call, d: Decision, o: Override, t: Trust)
    requires Paired(a, b, c, t)
    ensures SameResult(DecideFirstSeen(a, c, d, o), DecideFirstSeen(b, c, d, o))
    ensures CacheSound(DecideFirstSeen(a, c, d, o).0.db, t)
  {
    PairedTables(a, b);
    if InsertNew !in c.faults {
      var table := InsertObservation(a.db.observations, d.subject.image, d.subject.digest, Unix(c.now));
      var a', b' := a.(db := a.db.(observations := table)), b.(db := b.db.(observations := table));
      InsertObservationExtends(a.db, d.subject.image, d.subject.digest, Unix(c.now));
      if RereadObservation !in c.faults {
        var obs := GetObservation(table, d.subject.image, d.subject.digest).value;
        var seen := Seen(d, obs.firstSeenAt);
        AllowThenRecordRefines(a', b', c, obs.id, Overridden(seen, o), t);
        var q := Quarantined(seen, obs.firstSeenAt, c.policy.mutableTags.minDigestAge, NewDigest);
        RecordRefines(a', b', c, q, q, t);
      }
    }
  }

  lemma {:induction false} SeenRefines(a: World, b: World, c: Call, d: Decision, o: Override, obs: Observation,
                                       t: Trust)
    requires Paired(a, b, c, t)
    ensures SameResult(DecideSeen(a, c, d, o, obs), DecideSeen(b, c, d, o, obs))
    ensures CacheSound(DecideSeen(a, c, d, o, obs).0.db, t)
  {
    PairedTables(a, b);
    if TouchSeen !in c.faults && obs.id in a.db.observations.rows {
      var table := TouchObservation(a.db.observations, obs.id, Unix(c.now));
      var a', b' := a.(db := a.db.(observations := table)), b.(db := b.db.(observations := table));
      UpdateObservationExtends(a.db, obs.id, Unix(c.now));
      var seen := Seen(d, obs.firstSeenAt);
      var aged := Aging(seen, Sub(c.now, obs.firstSeenAt));
      AllowThenRecordRefines(a', b', c, obs.id, if o.decision == DECISION_ALLOW then Overridden(seen, o) else aged, t);
      var q := Quarantined(aged, obs.firstSeenAt, c.policy.mutableTags.minDigestAge, StillInQuarantine);
      RecordRefines(a', b', c, q, q, t);
      assert DecideSeen(a, c, d, o, obs) == AfterTouch(a', c, d, o, obs);
      assert DecideSeen(b, c, d, o, obs) == AfterTouch(b', c, d, o, obs);
    }
  }

  lemma {:induction false} ResolvedRefines(a: World, b: World, c: Call, d: Decision, t: Trust)
    requires Paired(a, b, c, t)
    ensures SameResult(DecideResolved(a, c, d), DecideResolved(b, c, d)) && CacheSound(DecideResolved(a, c, d).0.db, t)
  {
    PairedTables(a, b);
    var o := LocalOverride(a.db, d.subject.image, d.subject.digest, c.now);
    assert ReadOverride(a.db, c, d) == ReadOverride(b.db, c, d);
    if o.decision == DECISION_DENY {
      RecordRefines(a, b, c, DenyFrozen(d), DenyFrozen(d), t);
    } else {
      var obs := GetObservation(a.db.observations, d.subject.image, d.subject.digest);
      if obs.None? { FirstSeenRefines(a, b, c, d, o, t); } else { SeenRefines(a, b, c, d, o, obs.value, t); }
    }
  }

  /** What a pinned request does once its overrides admit it and a signature is required. */
  ghost function AfterPinned(w: World, c: Call, d: Decision, o: Override): (World, Outcome) {
    var (db, d', passed) := VerifyCosign(w.db, c, d);
    Record(w.(db := db), c, if passed then AllowPinned(d', o) else d')
  }

  lemma {:induction false} PinnedVerified(a: World, b: World, c: Call, d: Decision, o: Override, t: Trust)
    requires Paired(a, b, c, t) && c.policy.cosign.required
    ensures SameResult(AfterPinned(a, c, d, o), AfterPinned(b, c, d, o)) && CacheSound(AfterPinned(a, c, d, o).0.db, t)
  {
    VerifyRefines(a.db, b.db, c, d, t);
    var ra, rb := VerifyCosign(a.db, c, d), VerifyCosign(b.db, c, d);
    HiddenAllow(ra.1, rb.1, o);
    RecordRefines(a.(db := ra.0), b.(db := rb.0), c, if ra.2 then AllowPinned(ra.1, o) else ra.1,
                  if rb.2 then AllowPinned(rb.1, o) else rb.1, t);
  }

  /** Without a verification the cache plays no part. */
  lemma {:induction false} PinnedUnverified(a: World, b: World, c: Call, d: Decision, o: Override, t: Trust)
    requires Paired(a, b, c, t) && ReadOverride(a.db, c, d) == Ok(o) == ReadOverride(b.db, c, d)
    requires o.decision == DECISION_DENY || c.policy.digestPinnedImages == ACTION_DENY || !c.policy.cosign.required
    ensures SameResult(DecidePinned(a, c, d), DecidePinned(b, c, d)) && CacheSound(DecidePinned(a, c, d).0.db, t)
  {
    var final := if o.decision == DECISION_DENY then DenyFrozen(d)
                 else if c.policy.digestPinnedImages == ACTION_DENY then Deny(d, PinnedDenied)
                 else AllowPinned(d, o);
    RecordRefines(a, b, c, final, final, t);
    assert DecidePinned(a, c, d) == Record(a, c, final);
    assert DecidePinned(b, c, d) == Record(b, c, final);
  }

  lemma {:induction false} PinnedRefines(a: World, b: World, c: Call, d: Decision, t: Trust)
    requires Paired(a, b, c, t)
    ensures SameResult(DecidePinned(a, c, d), DecidePinned(b, c, d)) && CacheSound(DecidePinned(a, c, d).0.db, t)
  {
    PairedTables(a, b);
    assert ReadOverride(a.db, c, d) == ReadOverride(b.db, c, d);
    if ReadOverride(a.db, c, d).Ok? {
      var o := ReadOverride(a.db, c, d).value;
      if o.decision == DECISION_DENY || c.policy.digestPinnedImages == ACTION_DENY || !c.policy.cosign.required {
        PinnedUnverified(a, b, c, d, o, t);
      } else {
        PinnedVerified(a, b, c, d, o, t);
        assert DecidePinned(a, c, d) == AfterPinned(a, c, d, o);
        assert DecidePinned(b, c, d) == AfterPinned(b, c, d, o);
      }
    }
  }

  lemma {:induction false} HiddenAllow(d: Decision, e: Decision, o: Override)
    requires Hide(d) == Hide(e)
    ensures Hide(AllowPinned(d, o)) == Hide(AllowPinned(e, o))
  {
    assert AllowPinned(d, o) == AllowPinned(Hide(d), o).(cosignCached := d.cosignCached);
    assert AllowPinned(e, o) == AllowPinned(Hide(e), o).(cosignCached := e.cosignCached);
  }

  /** One request: same outcome but for `CosignCached`, same tables but for the cache. */
  lemma {:induction false} DecideRefines(a: World, b: World, c: Call, t: Trust)
    requires Valid(a.db) && SameButCache(a, b) && CacheSound(a.db, t) && Transfers(t) && Comparable(c, t)
    ensures SameResult(Decide(a, c), DecideUncached(b, c)) && CacheSound(Decide(a, c).0.db, t)
  {
    var b' := b.(db := WithoutCache(b.db));
    var d := NewDecision(c);
    if c.ref.isDigestPinned {
      PinnedRefines(a, b', c, d, t);
    } else if c.policy.mutableTags.action == ACTION_ALLOW {
      RecordRefines(a, b', c, Allow(d, TagAllowed), Allow(d, TagAllowed), t);
    } else if c.policy.mutableTags.action == ACTION_DENY {
      RecordRefines(a, b', c, Deny(d, TagDenied), Deny(d, TagDenied), t);
    } else if c.resolution.Err? {
      RecordRefines(a, b', c, Allow(d, Fallback), Allow(d, Fallback), t);
      var u := Deny(d, Unresolved(c.resolution.error));
      RecordRefines(a, b', c, u, u, t);
    } else {
      ResolvedRefines(a, b', c, Resolved(d, c.resolution.value), t);
    }
  }

  ghost predicate ComparableRun(ops: seq<Op>, t: Trust) {
    forall k :: 0 <= k < |ops| ==> OpOk(ops[k]) && (ops[k].Pull? ==> Comparable(ops[k].call, t))
  }

  lemma {:induction false} RunRefines(w: World, ops: seq<Op>, t: Trust)
    requires Valid(w.db) && CacheSound(w.db, t) && Transfers(t) && ComparableRun(ops, t)
    ensures SameButCache(Run(w, ops), RunUncached(w, ops))
    ensures Valid(Run(w, ops).db) && CacheSound(Run(w, ops).db, t)
    decreases |ops|
  {
    if ops != [] {
      var init, op := ops[..|ops| - 1], ops[|ops| - 1];
      RunRefines(w, init, t);
      var a, b := Run(w, init), RunUncached(w, init);
      ApplyExtends(a, op);
      if op.Pull? {
        DecideRefines(a, b, op.call, t);
      } else {
        PairedTables(a, b);
      }
    }
  }

  /** Request `i` of the run is decided with and without a cache alike. */
  ghost predicate DecidesAlike(w: World, ops: seq<Op>, i: nat)
    requires i < |ops| && ops[i].Pull?
  {
    SameOutcome(Decide(Run(w, ops[..i]), ops[i].call).1, DecideUncached(RunUncached(w, ops[..i]), ops[i].call).1)
  }

  /** From an empty cache, every request of every run is decided as without a cache. */
  ghost predicate Refines(t: Trust) {
    forall w: World, ops: seq<Op>, i: nat ::
      Valid(w.db) && w.db.cosign == EmptyTable() && ComparableRun(ops, t) && i < |ops| && ops[i].Pull? ==>
        DecidesAlike(w, ops, i)
  }

  lemma {:induction false} TransfersRefines(w: World, ops: seq<Op>, i: nat, t: Trust)
    requires Valid(w.db) && w.db.cosign == EmptyTable() && Transfers(t) && ComparableRun(ops, t)
    requires i < |ops| && ops[i].Pull?
    ensures DecidesAlike(w, ops, i) && SameButCache(Run(w, ops), RunUncached(w, ops))
  {
    RunRefines(w, ops[..i], t);
    DecideRefines(Run(w, ops[..i]), RunUncached(w, ops[..i]), ops[i].call, t);
    RunRefines(w, ops, t);
  }

  /** Policies without a NUL. */
  ghost function NulFreePolicies(): iset<CosignPolicy> {
    iset cfg: CosignPolicy | NulFree(cfg)
  }

  lemma {:induction false} NulFreeTransfers(v: Verifier)
    requires ByArguments(v)
    ensures Transfers(Trust(v, NulFreePolicies()))
  {
    forall key, a, b | NulFree(a) && NulFree(b) && SharesKey(key, a, b) && Succeeds(v, key, a)
      ensures Succeeds(v, key, b)
    {
      SameKeySameArgs(key.registry, key.repository, key.digest, a, b);
    }
  }

  /**
   Refinement: from an empty cache, with a verifier that depends on its command line only and policies without NUL,
   the cached engine and the engine without a cache decide every request of every run alike, even when the policy
   changes between requests.
   */
  lemma {:induction false} CachedEngineRefinesUncached(w: World, ops: seq<Op>, i: nat, v: Verifier)
    requires Valid(w.db) && w.db.cosign == EmptyTable() && ByArguments(v)
    requires ComparableRun(ops, Trust(v, NulFreePolicies())) && i < |ops| && ops[i].Pull?
    ensures SameOutcome(Decide(Run(w, ops[..i]), ops[i].call).1,
                        DecideUncached(RunUncached(w, ops[..i]), ops[i].call).1)
    ensures SameButCache(Run(w, ops), RunUncached(w, ops))
  {
    NulFreeTransfers(v);
    TransfersRefines(w, ops, i, Trust(v, NulFreePolicies()));
  }

  // ---------------------------------------------------------------- exactly when it refines

  /** A pull of a pinned image, under a policy that asks for that signature. */
  function SignedPull(ref: Reference, cosign: CosignPolicy, v: Verifier): Call {
    Call(Request(ref.canonicalRef, "", "GET", ""), ref,
         EffectivePolicy(MutableTagPolicy(ACTION_QUARANTINE, 1, false), ACTION_ALLOW, ACTION_DENY, ACTION_DENY, cosign),
         "default_policy", 0, Err(""), v, map[], false)
  }

  predicate NeedsSignature(c: Call) {
    && c.ref.isDigestPinned && c.policy.digestPinnedImages == ACTION_ALLOW && c.policy.cosign.required
    && c.faults == map[]
  }

  lemma {:induction false} PinnedPull(w: World, c: Call)
    requires w.db.freezes == EmptyTable() && NeedsSignature(c)
    ensures var (db, d, passed) := VerifyCosign(w.db, c, NewDecision(c));
            && Decide(w, c).0.db.cosign == db.cosign && Decide(w, c).0.db.freezes == db.freezes
            && Decide(w, c).1.decision.allowed == passed
  {
    var d := NewDecision(c);
    LocalOverrideMeaning(w.db, d.subject.image, d.subject.digest, c.now);
    VerifyCosignDecision(w.db, c, d);
  }

  /** A verification that succeeded is used by every request with its cache key, also by one that would fail. */
  lemma {:induction false} SharedKeyAnswersBoth(first: Call, second: Call)
    requires NeedsSignature(first) && NeedsSignature(second)
    requires CacheKey(first, NewDecision(first)) == CacheKey(second, NewDecision(second))
    requires Succeeds(first.verifier, CacheKey(first, NewDecision(first)), first.policy.cosign)
    requires !Succeeds(second.verifier, CacheKey(second, NewDecision(second)), second.policy.cosign)
    ensures var w1 := Decide(World(EMPTY_DATABASE, []), first).0;
            !DecideUncached(w1, second).1.decision.allowed && Decide(w1, second).1.decision.allowed
  {
    var w := World(EMPTY_DATABASE, []);
    var w1 := Decide(w, first).0;
    PinnedPull(w, first);
    VerifyCosignExtends(w.db, first, NewDecision(first));
    MissInEmptyCache(w.db, first, NewDecision(first));
    DecideExtends(w, first);
    CosignFound(w1.db.cosign, CacheKey(second, NewDecision(second)));
    PinnedPull(w1, second);
    PinnedPull(w1.(db := WithoutCache(w1.db)), second);
    MissInEmptyCache(w1.db, second, NewDecision(second));
  }

  /** The pinned image that a cache key is about. */
  function ImageOf(key: CosignKey): Reference {
    Reference(key.registry, key.repository, "", key.digest, false, true, "")
  }

  /** Two requests with one cache key, in one run from an empty cache. */
  lemma {:induction false} DecidesApart(first: Call, second: Call, ops: seq<Op>)
    requires NeedsSignature(first) && NeedsSignature(second) && ops == [Pull(first), Pull(second)]
    requires CacheKey(first, NewDecision(first)) == CacheKey(second, NewDecision(second))
    requires Succeeds(first.verifier, CacheKey(first, NewDecision(first)), first.policy.cosign)
    requires !Succeeds(second.verifier, CacheKey(second, NewDecision(second)), second.policy.cosign)
    ensures !DecidesAlike(World(EMPTY_DATABASE, []), ops, 1)
  {
    var w := World(EMPTY_DATABASE, []);
    SharedKeyAnswersBoth(first, second);
    RunOfOne(w, ops);
    UncachedAnswer(w, first);
    UncachedAnswer(DecideUncached(w, first).0, second);
    AllowedDiffers(Decide(Run(w, ops[..1]), second).1, DecideUncached(RunUncached(w, ops[..1]), second).1);
  }

  lemma {:induction false} PullsAreComparable(ops: seq<Op>, t: Trust)
    requires forall k :: 0 <= k < |ops| ==> ops[k].Pull? && Comparable(ops[k].call, t)
    ensures ComparableRun(ops, t)
  {
  }

  lemma {:induction false} DoesNotRefine(w: World, ops: seq<Op>, i: nat, t: Trust)
    requires Valid(w.db) && w.db.cosign == EmptyTable() && ComparableRun(ops, t) && i < |ops| && ops[i].Pull?
    requires !DecidesAlike(w, ops, i)
    ensures !Refines(t)
  {
  }

  lemma {:induction false} SharedKeyRun(t: Trust, key: CosignKey, a: CosignPolicy, b: CosignPolicy)
    requires a in t.policies && b in t.policies && a.required && b.required && SharesKey(key, a, b)
    requires Succeeds(t.verify, key, a) && !Succeeds(t.verify, key, b)
    ensures !Refines(t)
  {
    var first, second := SignedPull(ImageOf(key), a, t.verify), SignedPull(ImageOf(key), b, t.verify);
    var ops := [Pull(first), Pull(second)];
    assert CacheKey(first, NewDecision(first)) == key && CacheKey(second, NewDecision(second)) == key;
    DecidesApart(first, second, ops);
    PullsAreComparable(ops, t);
    DoesNotRefine(World(EMPTY_DATABASE, []), ops, 1, t);
  }

  lemma {:induction false} AllowedDiffers(a: Outcome, b: Outcome)
    requires a.decision.allowed != b.decision.allowed
    ensures !SameOutcome(a, b)
  {
    assert Hide(a.decision).allowed == a.decision.allowed && Hide(b.decision).allowed == b.decision.allowed;
  }

  lemma {:induction false} RunOfOne(w: World, ops: seq<Op>)
    requires |ops| == 2 && ops[0].Pull?
    ensures Run(w, ops[..1]) == Decide(w, ops[0].call).0
    ensures RunUncached(w, ops[..1]) == DecideUncached(w, ops[0].call).0
  {
    var one := ops[..1];
    assert one[..0] == [];
    assert Run(w, one[..0]) == w && RunUncached(w, one[..0]) == w;
  }

  lemma {:induction false} UncachedAnswer(w: World, c: Call)
    requires w.db.freezes == EmptyTable() && NeedsSignature(c)
    ensures var (after, outcome) := DecideUncached(w, c);
            after.db.freezes == EmptyTable()
            && outcome.decision.allowed == Succeeds(c.verifier, CacheKey(c, NewDecision(c)), c.policy.cosign)
  {
    PinnedPull(w.(db := WithoutCache(w.db)), c);
    MissInEmptyCache(w.db, c, NewDecision(c));
  }

  ghost predicate AllRequired(policies: iset<CosignPolicy>) {
    forall cfg :: cfg in policies ==> cfg.required
  }

  /** For one verifier: caching changes no decision if and only if policies with one key have the same successes. */
  lemma {:induction false} RefinesIff(t: Trust)
    requires AllRequired(t.policies)
    ensures Refines(t) <==> Transfers(t)
  {
    if Transfers(t) {
      forall w: World, ops: seq<Op>, i: nat
        | Valid(w.db) && w.db.cosign == EmptyTable() && ComparableRun(ops, t) && i < |ops| && ops[i].Pull?
        ensures DecidesAlike(w, ops, i)
      {
        TransfersRefines(w, ops, i, t);
      }
    } else {
      var key, a, b :| a in t.policies && b in t.policies && SharesKey(key, a, b) && Succeeds(t.verify, key, a)
                       && !Succeeds(t.verify, key, b);
      SharedKeyRun(t, key, a, b);
    }
  }

  function ArgsFor(key: CosignKey, cfg: CosignPolicy): Result<seq<string>, ArgsError> {
    CosignVerifyArgs(key.registry, key.repository, key.digest, cfg)
  }

  /** No two of the policies share a key and have different command lines. */
  ghost predicate SeparateKeys(policies: iset<CosignPolicy>) {
    forall key, a, b :: a in policies && b in policies && SharesKey(key, a, b) ==> ArgsFor(key, a) == ArgsFor(key, b)
  }

  /** The verifier that succeeds on one command line, or on the error in its place. */
  function OnlyOn(args: Result<seq<string>, ArgsError>): Verifier {
    (registry, repository, digest, cfg) =>
      Ok(CosignResult(CosignVerifyArgs(registry, repository, digest, cfg) == args, ""))
  }

  /** For every verifier that goes by the command line. */
  lemma {:induction false} RefinesByArgumentsIff(policies: iset<CosignPolicy>)
    requires AllRequired(policies)
    ensures (forall v :: ByArguments(v) ==> Refines(Trust(v, policies))) <==> SeparateKeys(policies)
  {
    if SeparateKeys(policies) {
      forall v | ByArguments(v) ensures Refines(Trust(v, policies)) {
        RefinesIff(Trust(v, policies));
      }
    } else {
      var key, a, b :| a in policies && b in policies && SharesKey(key, a, b) && ArgsFor(key, a) != ArgsFor(key, b);
      var v := OnlyOn(ArgsFor(key, a));
      assert ByArguments(v);
      assert Succeeds(v, key, a) && !Succeeds(v, key, b);
      RefinesIff(Trust(v, policies));
    }
  }

  ghost predicate HasNul(args: seq<string>) {
    exists a :: a in args && '\0' in a
  }

  /** Running a command with a NUL in an argument fails, as the operating system cannot pass it. */
  ghost predicate RefusesNul(command: CosignCommand) {
    forall args :: HasNul(args) ==> !command(args).success
  }

  /** If one of two policies that share a key has a command line that can be run, the other has the same. */
  ghost predicate SeparateCommands(policies: iset<CosignPolicy>) {
    forall key, a, b ::
      a in policies && b in policies && SharesKey(key, a, b)
      && ArgsFor(key, a).Ok? && !HasNul(ArgsFor(key, a).value) ==>
        ArgsFor(key, a) == ArgsFor(key, b)
  }

  lemma {:induction false} CommandTransfers(command: CosignCommand, policies: iset<CosignPolicy>)
    requires RefusesNul(command) && SeparateCommands(policies)
    ensures Transfers(Trust(CommandVerifier(command), policies))
  {
    var v := CommandVerifier(command);
    forall key, a, b | a in policies && b in policies && SharesKey(key, a, b) && Succeeds(v, key, a)
      ensures Succeeds(v, key, b)
    {
      assert ArgsFor(key, a).Ok? && !HasNul(ArgsFor(key, a).value);
      assert ArgsFor(key, a) == ArgsFor(key, b);
    }
  }

  /** A command that succeeds on one command line. */
  function OnlyRuns(args: seq<string>): CosignCommand {
    given => CosignResult(given == args, "")
  }

  /** For every command that can be run. */
  lemma {:induction false} RefinesCommandsIff(policies: iset<CosignPolicy>)
    requires AllRequired(policies)
    ensures (forall command :: RefusesNul(command) ==> Refines(Trust(CommandVerifier(command), policies)))
            <==> SeparateCommands(policies)
  {
    if SeparateCommands(policies) {
      forall command | RefusesNul(command) ensures Refines(Trust(CommandVerifier(command), policies)) {
        CommandTransfers(command, policies);
        RefinesIff(Trust(CommandVerifier(command), policies));
      }
    } else {
      var key, a, b :| a in policies && b in policies && SharesKey(key, a, b) && ArgsFor(key, a).Ok?
                       && !HasNul(ArgsFor(key, a).value) && ArgsFor(key, a) != ArgsFor(key, b);
      var command := OnlyRuns(ArgsFor(key, a).value);
      assert RefusesNul(command);
      var v := CommandVerifier(command);
      assert Succeeds(v, key, a) && !Succeeds(v, key, b);
      RefinesIff(Trust(v, policies));
    }
  }

  // ---------------------------------------------------------------- with a NUL

  /** Two policies with one cache key that name different keys: the NUL is in the key, or in the unused issuer. */
  const NUL_KEY := CosignPolicy(true, "key", "k\0", "", "", "")
  const NUL_ISSUER := CosignPolicy(true, "key", "k", "\0", "", "")

  lemma {:induction false} NulsShareKey()
    ensures CosignPolicyKey(NUL_KEY) == CosignPolicyKey(NUL_ISSUER) && NUL_KEY.key != NUL_ISSUER.key
  {
    JoinFive(KeyFields(NUL_KEY));
    JoinFive(KeyFields(NUL_ISSUER));
    var separator: string := "\0";
    assert "k\0" == "k" + separator;
    NulsAssociate("k", separator, separator + ("" + separator + ("" + separator + "")));
  }

  lemma {:induction false} NulsAssociate(k: string, separator: string, rest: string)
    ensures (k + separator) + separator + rest == k + separator + (separator + rest)
  {
  }

  /** A command that accepts one key, and that can be run. */
  function AcceptsKey(key: string): CosignCommand {
    args => CosignResult(|args| == 4 && args[2] == key && (forall i :: 0 <= i < |args| ==> '\0' !in args[i]), "")
  }

  /**
   What becomes of the refinement when policies may hold NULs: after a pull has been verified with the key `k`, under
   a policy with a NUL for an issuer, the cache lets a pull pass whose key holds a NUL and whose own command cannot
   even be run.
   */
  lemma {:induction false} NulBreaksRefinement(ref: Reference)
    requires ref.isDigestPinned && ref.digest != ""
    requires '\0' !in DigestReference(ref.registry, ref.repository, ref.digest)
    ensures RefusesNul(AcceptsKey("k"))
    ensures var w, v := World(EMPTY_DATABASE, []), CommandVerifier(AcceptsKey("k"));
            var first, second := SignedPull(ref, NUL_ISSUER, v), SignedPull(ref, NUL_KEY, v);
            && !DecideUncached(Decide(w, first).0, second).1.decision.allowed
            && Decide(Decide(w, first).0, second).1.decision.allowed
  {
    var v := CommandVerifier(AcceptsKey("k"));
    NulsShareKey();
    AcceptedKey(ref);
    SharedKeyAnswersBoth(SignedPull(ref, NUL_ISSUER, v), SignedPull(ref, NUL_KEY, v));
  }

  lemma {:induction false} AcceptedKey(ref: Reference)
    requires ref.digest != "" && '\0' !in DigestReference(ref.registry, ref.repository, ref.digest)
    ensures var v := CommandVerifier(AcceptsKey("k"));
            && v(ref.registry, ref.repository, ref.digest, NUL_ISSUER) == Ok(CosignResult(true, ""))
            && v(ref.registry, ref.repository, ref.digest, NUL_KEY) == Ok(CosignResult(false, ""))
  {
    var image := DigestReference(ref.registry, ref.repository, ref.digest);
    assert ["verify"] + ["--key", "k"] + [image] == ["verify", "--key", "k", image];
    assert ["verify"] + ["--key", "k\0"] + [image] == ["verify", "--key", "k\0", image];
    assert CosignVerifyArgs(ref.registry, ref.repository, ref.digest, NUL_ISSUER)
           == Ok(["verify", "--key", "k", image]);
    assert CosignVerifyArgs(ref.registry, ref.repository, ref.digest, NUL_KEY)
           == Ok(["verify", "--key", "k\0", image]);
    assert "k\0" != "k" && |"k\0"| == 2;
  }
}
