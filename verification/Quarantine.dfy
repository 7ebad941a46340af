/**
 The decision engine (internal/quarantine/engine.go) as a function of the store, of one request and
 of the answers of the outside world: the registry, the cosign executable, the clock, and which
 store operations fail.
 */
module Quarantine {
  import opened Prelude
  import opened Image
  import opened Policy
  import opened Verify
  import opened Tables

  /** The operations that can fail, one for each SQL statement of a request and one for the audit log. */
  datatype Operation =
    | ReadFreeze
    | ReadApproval
    | ReadBypass
    | ReadObservation
    | InsertNew
    | RereadObservation
    | TouchSeen
    | MarkAllowed
    | ReadCosign
    | WriteCosign
    | WriteDecision
    | WriteAudit

  datatype Request = Request(imageRef: string, clientUser: string, requestMethod: string, requestURI: string)

  /** A request after parsing and policy matching, with everything the outside world will answer. */
  datatype Call = Call(
    request: Request,
    ref: Reference,
    policy: EffectivePolicy,
    matchedRule: string,
    now: Time,
    resolution: Result<string, string>,
    verifier: Verifier,
    faults: map<Operation, string>,
    audited: bool)

  /** What a decision is about. */
  datatype Subject = Subject(imageRef: string, image: TagKey, digest: string, matchedRule: string, requiredAge: int)

  /** Where the digest stands in its quarantine, and what overrides it. */
  datatype Standing = Standing(
    firstSeenAt: Option<Time>,
    currentAge: int,
    nextAllowedAt: Option<Time>,
    manualApproval: bool,
    bypassed: bool,
    frozen: bool)

  /** The Go struct, with its fields in three groups. */
  datatype Decision = Decision(
    subject: Subject,
    standing: Standing,
    allowed: bool,
    reason: Reason,
    cosignVerified: bool,
    cosignCached: bool)

  /** The audit event: the columns of the decision row and what only the log has. */
  datatype Event = Event(timestamp: Time, entry: Entry, matchedRule: string, cosignVerified: bool, cosignCached: bool)

  datatype World = World(db: Database, audit: seq<Event>)

  datatype Failure =
    | StoreRequired
    | BadReference(error: ReferenceError)
    | Failed(operation: Operation)
    | NilObservation

  datatype Outcome = Outcome(decision: Decision, failure: Option<Failure>)

  const NO_STANDING := Standing(None, 0, None, false, false, false)
  const NO_DECISION := Decision(Subject("", TagKey("", "", ""), "", "", 0), NO_STANDING, false, NoReason, false, false)

  /** `now.Sub(t)`: a 64-bit duration that saturates. */
  function Sub(now: Time, t: Time): int {
    var d := now - t;
    if d > MAX_INT64 then MAX_INT64 else if d < -MAX_INT64 - 1 then -MAX_INT64 - 1 else d
  }

  function NewDecision(c: Call): Decision {
    Decision(
      Subject(c.ref.canonicalRef, TagKey(c.ref.registry, c.ref.repository, c.ref.tag), c.ref.digest, c.matchedRule,
              c.policy.mutableTags.minDigestAge),
      NO_STANDING, false, NoReason, false, false)
  }

  /** `decision.Digest = resolved.Digest` */
  function Resolved(d: Decision, digest: string): Decision {
    d.(subject := d.subject.(digest := digest))
  }

  function Seen(d: Decision, firstSeenAt: Time): Decision {
    d.(standing := d.standing.(firstSeenAt := Some(firstSeenAt)))
  }

  function Aging(d: Decision, age: int): Decision {
    d.(standing := d.standing.(currentAge := age))
  }

  function Deny(d: Decision, reason: Reason): Decision {
    d.(allowed := false, reason := reason)
  }

  function Allow(d: Decision, reason: Reason): Decision {
    d.(allowed := true, reason := reason)
  }

  // ---------------------------------------------------------------- record

  function EntryOf(c: Call, d: Decision): Entry {
    Entry(d.subject.imageRef, d.subject.image, d.subject.digest,
          if d.allowed then DECISION_ALLOW else DECISION_DENY, d.reason,
          c.request.clientUser, c.request.requestMethod, c.request.requestURI)
  }

  function EventOf(c: Call, d: Decision): Event {
    Event(c.now, EntryOf(c, d), d.subject.matchedRule, d.cosignVerified, d.cosignCached)
  }

  function LogDecision(w: World, c: Call, d: Decision): World {
    w.(db := w.db.(decisions := Insert(w.db.decisions, DecisionRow(Unix(c.now), EntryOf(c, d)))))
  }

  function LogAudit(w: World, c: Call, d: Decision): World {
    w.(audit := w.audit + [EventOf(c, d)])
  }

  function Record(w: World, c: Call, d: Decision): (World, Outcome) {
    if WriteDecision in c.faults then (w, Outcome(d, Some(Failed(WriteDecision))))
    else
      var logged := LogDecision(w, c, d);
      if !c.audited then (logged, Outcome(d, None))
      else if WriteAudit in c.faults then (logged, Outcome(d, Some(Failed(WriteAudit))))
      else (LogAudit(logged, c, d), Outcome(d, None))
  }

  function Abort(w: World, o: Operation): (World, Outcome) {
    (w, Outcome(NO_DECISION, Some(Failed(o))))
  }

  // ---------------------------------------------------------------- verification

  function CacheKey(c: Call, d: Decision): CosignKey {
    CosignKey(d.subject.image.registry, d.subject.image.repository, d.subject.digest, CosignPolicyKey(c.policy.cosign))
  }

  function CacheRow(c: Call, d: Decision, r: CosignResult): CosignRow {
    CosignRow(CacheKey(c, d), DigestReference(d.subject.image.registry, d.subject.image.repository, d.subject.digest),
              Unix(c.now), BoolInt(r.success), r.reason)
  }

  /** engine.go:232-283; the flag tells whether verification passed. */
  ghost function VerifyCosign(db: Database, c: Call, d: Decision): (Database, Decision, bool) {
    if ReadCosign in c.faults then (db, Deny(d, CacheUnreadable(c.faults[ReadCosign])), false)
    else if CacheHit(db, c, d) then (db, d.(cosignVerified := true, cosignCached := true), true)
    else
      RunVerifier(db, c, d, c.verifier(d.subject.image.registry, d.subject.image.repository, d.subject.digest,
                                       c.policy.cosign))
  }

  ghost predicate CacheHit(db: Database, c: Call, d: Decision) {
    var cached := GetCosign(db.cosign, CacheKey(c, d));
    cached.Some? && cached.value.success
  }

  /** engine.go:252-282: what the verifier answered is recorded, then used. */
  ghost function RunVerifier(db: Database, c: Call, d: Decision, answer: Result<CosignResult, string>)
    : (Database, Decision, bool)
  {
    if answer.Err? then (db, Deny(d, CosignFailed(answer.error)), false)
    else if WriteCosign in c.faults then (db, Deny(d, CacheUnwritable(c.faults[WriteCosign])), false)
    else
      var written := db.(cosign := RecordCosign(db.cosign, CacheRow(c, d, answer.value)));
      if !answer.value.success then (written, Deny(d, CosignFailed(answer.value.reason)), false)
      else (written, d.(cosignVerified := true), true)
  }

  /** The verifier accepts a digest under a policy. */
  predicate Succeeds(v: Verifier, key: CosignKey, cfg: CosignPolicy) {
    var r := v(key.registry, key.repository, key.digest, cfg);
    r.Ok? && r.value.success
  }

  function AllowedReason(d: Decision): Reason {
    if d.standing.manualApproval then ManuallyApproved
    else if d.standing.bypassed then BypassActive
    else if d.cosignVerified then AgedAndVerified
    else Aged
  }

  /** engine.go:211-229 */
  function MarkAndAllow(db: Database, c: Call, id: int, d: Decision): (Database, Decision) {
    if MarkAllowed in c.faults then (db, Deny(d, NotMarked(c.faults[MarkAllowed])))
    else if id !in db.observations.rows then (db, Deny(d, NotMarked("no matching row")))
    else
      (db.(observations := MarkObservationAllowed(db.observations, id, Unix(c.now))), Allow(d, AllowedReason(d)))
  }

  ghost function AllowWithVerification(db: Database, c: Call, id: int, d: Decision): (Database, Decision) {
    if !c.policy.cosign.required then MarkAndAllow(db, c, id, d)
    else
      var (verified, d', passed) := VerifyCosign(db, c, d);
      if passed then MarkAndAllow(verified, c, id, d') else (verified, d')
  }

  // ---------------------------------------------------------------- decide

  ghost function ReadOverride(db: Database, c: Call, d: Decision): Result<Override, Operation> {
    if ReadFreeze in c.faults then Err(ReadFreeze)
    else if ReadApproval in c.faults then Err(ReadApproval)
    else if ReadBypass in c.faults then Err(ReadBypass)
    else Ok(LocalOverride(db, d.subject.image, d.subject.digest, c.now))
  }

  function Overridden(d: Decision, o: Override): Decision {
    d.(standing := d.standing.(manualApproval := o.approval.Some?, bypassed := o.bypass.Some? && o.approval.None?))
  }

  function DenyFrozen(d: Decision): Decision {
    Deny(d, TagOrDigestFrozen).(standing := d.standing.(frozen := true))
  }

  ghost function DecidePinned(w: World, c: Call, d: Decision): (World, Outcome) {
    match ReadOverride(w.db, c, d)
    case Err(op) => Abort(w, op)
    case Ok(o) =>
      if o.decision == DECISION_DENY then Record(w, c, DenyFrozen(d))
      else if c.policy.digestPinnedImages == ACTION_DENY then Record(w, c, Deny(d, PinnedDenied))
      else if !c.policy.cosign.required then Record(w, c, AllowPinned(d, o))
      else
        var (db, d', passed) := VerifyCosign(w.db, c, d);
        Record(w.(db := db), c, if passed then AllowPinned(d', o) else d')
  }

  function AllowPinned(d: Decision, o: Override): Decision {
    Overridden(Allow(d, PinnedAllowed), o)
  }

  function Quarantined(d: Decision, firstSeen: Time, min: Duration, reason: Reason): Decision {
    Deny(d, reason).(standing := d.standing.(nextAllowedAt := Some(firstSeen + min)))
  }

  /** engine.go:135-150 */
  ghost function DecideFirstSeen(w: World, c: Call, d: Decision, o: Override): (World, Outcome) {
    if InsertNew in c.faults then Abort(w, InsertNew)
    else
      var inserted := w.(db := w.db.(observations :=
        InsertObservation(w.db.observations, d.subject.image, d.subject.digest, Unix(c.now))));
      if RereadObservation in c.faults then Abort(inserted, RereadObservation)
      else
        match GetObservation(inserted.db.observations, d.subject.image, d.subject.digest)
        case None => (inserted, Outcome(NO_DECISION, Some(NilObservation)))
        case Some(obs) =>
          var seen := Seen(d, obs.firstSeenAt);
          if o.decision == DECISION_ALLOW || c.policy.mutableTags.allowFirstSeenPull then
            var (db, d') := AllowWithVerification(inserted.db, c, obs.id, Overridden(seen, o));
            Record(inserted.(db := db), c, d')
          else
            Record(inserted, c, Quarantined(seen, obs.firstSeenAt, c.policy.mutableTags.minDigestAge, NewDigest))
  }

  /** engine.go:152-172 */
  ghost function DecideSeen(w: World, c: Call, d: Decision, o: Override, obs: Observation): (World, Outcome) {
    if TouchSeen in c.faults || obs.id !in w.db.observations.rows then Abort(w, TouchSeen)
    else
      var touched := w.(db := w.db.(observations := TouchObservation(w.db.observations, obs.id, Unix(c.now))));
      var seen := Seen(d, obs.firstSeenAt);
      if o.decision == DECISION_ALLOW then
        var (db, d') := AllowWithVerification(touched.db, c, obs.id, Overridden(seen, o));
        Record(touched.(db := db), c, d')
      else
        var age := Sub(c.now, obs.firstSeenAt);
        var aged := Aging(seen, age);
        if age < c.policy.mutableTags.minDigestAge then
          Record(touched, c, Quarantined(aged, obs.firstSeenAt, c.policy.mutableTags.minDigestAge, StillInQuarantine))
        else
          var (db, d') := AllowWithVerification(touched.db, c, obs.id, aged);
          Record(touched.(db := db), c, d')
  }

  /** engine.go:119-172 */
  ghost function DecideResolved(w: World, c: Call, d: Decision): (World, Outcome) {
    match ReadOverride(w.db, c, d)
    case Err(op) => Abort(w, op)
    case Ok(o) =>
      if o.decision == DECISION_DENY then Record(w, c, DenyFrozen(d))
      else if ReadObservation in c.faults then Abort(w, ReadObservation)
      else
        match GetObservation(w.db.observations, d.subject.image, d.subject.digest)
        case None => DecideFirstSeen(w, c, d, o)
        case Some(obs) => DecideSeen(w, c, d, o, obs)
  }

  /** `Decide` after parsing and policy matching. */
  ghost function Decide(w: World, c: Call): (World, Outcome) {
    var d := NewDecision(c);
    if c.ref.isDigestPinned then DecidePinned(w, c, d)
    else if c.policy.mutableTags.action == ACTION_ALLOW then Record(w, c, Allow(d, TagAllowed))
    else if c.policy.mutableTags.action == ACTION_DENY then Record(w, c, Deny(d, TagDenied))
    else
      match c.resolution
      case Err(e) =>
        Record(w, c, if c.policy.failedRegistryResolution == ACTION_ALLOW then Allow(d, Fallback)
                     else Deny(d, Unresolved(e)))
      case Ok(digest) => DecideResolved(w, c, Resolved(d, digest))
  }
}
