/** What becomes of a request when statements fail: exactly the first one that fails on its way decides. */
module Faults {
  import opened Prelude
  import opened Tables
  import opened Quarantine
  import opened Runs
  import opened Laws
  import opened Verdicts
  import opened Reports

  // ---------------------------------------------------------------- the way of a request

  /** The first of these operations that fails. */
  function FirstFault(path: seq<Operation>, faults: map<Operation, string>): Option<Operation> {
    if path == [] then None else if path[0] in faults then Some(path[0]) else FirstFault(path[1..], faults)
  }

  /** The cache is read; on a miss, what the verifier answers is written. */
  ghost function SignatureWay(db: Database, image: TagKey, digest: string, c: Call): seq<Operation> {
    if !c.policy.cosign.required then []
    else if Verified(db, CosignKeyOf(image, digest, c.policy)) then [ReadCosign]
    else if c.verifier(image.registry, image.repository, digest, c.policy.cosign).Err? then [ReadCosign]
    else [ReadCosign, WriteCosign]
  }

  /** A request that may be allowed is marked once its signature has passed. */
  ghost function AllowWay(db: Database, image: TagKey, digest: string, c: Call): seq<Operation> {
    SignatureWay(db, image, digest, c) + if SignaturePasses(db, image, digest, c) then [MarkAllowed] else []
  }

  ghost predicate Admissible(db: Database, image: TagKey, digest: string, c: Call) {
    || Approved(db, image, digest, c.now) || Bypassing(db, image, c.now)
    || (if Known(db, image, digest) then IsDue(db, image, digest, c) else c.policy.mutableTags.allowFirstSeenPull)
  }

  ghost function TagWay(db: Database, image: TagKey, digest: string, c: Call): seq<Operation> {
    (if Known(db, image, digest) then [ReadObservation, TouchSeen] else [ReadObservation, InsertNew, RereadObservation])
    + if Admissible(db, image, digest, c) then AllowWay(db, image, digest, c) else []
  }

  /** The operations of a request, up to its decision, as long as none fails. */
  ghost function Way(db: Database, c: Call): seq<Operation> {
    if !AsksStore(c) then []
    else
      [ReadFreeze, ReadApproval, ReadBypass]
      + if Frozen(db, ImageOf(c), DigestOf(c), c.now) then []
        else if !c.ref.isDigestPinned then TagWay(db, ImageOf(c), DigestOf(c), c)
        else if c.policy.digestPinnedImages == "deny" then []
        else SignatureWay(db, ImageOf(c), DigestOf(c), c)
  }

  /** A failure of these denies the request; any other failure is an error. */
  predicate Denies(o: Operation) {
    o == ReadCosign || o == WriteCosign || o == MarkAllowed
  }

  function FaultReason(o: Operation, error: string): Reason {
    if o == ReadCosign then CacheUnreadable(error)
    else if o == WriteCosign then CacheUnwritable(error)
    else NotMarked(error)
  }

  /** A failure of the log writes is reported beside the decision. */
  function LogFailure(c: Call): Option<Failure> {
    if WriteDecision in c.faults then Some(Failed(WriteDecision))
    else if c.audited && WriteAudit in c.faults then Some(Failed(WriteAudit))
    else None
  }

  /** How a request ends, given the first operation that fails on its way, and the verdict if none does. */
  ghost predicate Ends(outcome: Outcome, first: Option<Operation>, verdict: Verdict, c: Call) {
    match first
    case None => VerdictOf(outcome.decision) == verdict && outcome.failure == LogFailure(c)
    case Some(o) =>
      if !Denies(o) then outcome == Outcome(NO_DECISION, Some(Failed(o)))
      else
        && o in c.faults && VerdictOf(outcome.decision) == Verdict(false, FaultReason(o, c.faults[o]))
        && outcome.failure == LogFailure(c)
  }

  // ---------------------------------------------------------------- branch by branch

  lemma {:induction false} FirstFaultConcat(a: seq<Operation>, b: seq<Operation>, faults: map<Operation, string>)
    ensures FirstFault(a + b, faults)
            == if FirstFault(a, faults).Some? then FirstFault(a, faults) else FirstFault(b, faults)
  {
    if a == [] {
      assert a + b == b;
    } else {
      assert (a + b)[1..] == a[1..] + b;
      FirstFaultConcat(a[1..], b, faults);
    }
  }

  lemma {:induction false} FirstOfOne(o: Operation, faults: map<Operation, string>)
    ensures FirstFault([o], faults) == if o in faults then Some(o) else None
  {
    assert [o][1..] == [];
  }

  lemma {:induction false} FirstOfTwo(o: Operation, p: Operation, faults: map<Operation, string>)
    ensures FirstFault([o, p], faults) == if o in faults then Some(o) else if p in faults then Some(p) else None
  {
    assert [o, p][1..] == [p];
    FirstOfOne(p, faults);
  }

  lemma {:induction false} FirstOfThree(o: Operation, p: Operation, q: Operation, faults: map<Operation, string>)
    ensures FirstFault([o, p, q], faults)
            == if o in faults then Some(o) else if p in faults then Some(p) else if q in faults then Some(q) else None
  {
    assert [o, p, q][1..] == [p, q];
    FirstOfTwo(p, q, faults);
  }

  lemma {:induction false} RecordEnds(w: World, c: Call, d: Decision)
    ensures Record(w, c, d).1 == Outcome(d, LogFailure(c))
  {
  }

  lemma {:induction false} SignatureEnds(db: Database, c: Call, d: Decision)
    requires Valid(db) && c.policy.cosign.required && Open(d)
    ensures var image, digest := d.subject.image, d.subject.digest;
            var (after, d', passed) := VerifyCosign(db, c, d);
            && Valid(after) && after.observations == db.observations && d'.subject == d.subject
            && d'.standing == d.standing
            && match FirstFault(SignatureWay(db, image, digest, c), c.faults)
               case Some(o) =>
                 !passed && Denies(o) && o in c.faults
                 && VerdictOf(d') == Verdict(false, FaultReason(o, c.faults[o]))
               case None =>
                 && passed == SignaturePasses(db, image, digest, c)
                 && (if passed then !d'.allowed && d'.cosignVerified
                     else VerdictOf(d') == Verdict(false, SignatureFailure(image, digest, c)))
  {
    HitIffVerified(db, c, d);
    VerifyCosignExtends(db, c, d);
    VerifyCosignDecision(db, c, d);
    FirstOfOne(ReadCosign, c.faults);
    FirstOfTwo(ReadCosign, WriteCosign, c.faults);
  }

  /** The verdict of a request that may be allowed, or the fault that stops it. */
  ghost function Allows(db: Database, c: Call, d: Decision, first: Option<Operation>): Verdict {
    if first.Some? && first.value in c.faults then Verdict(false, FaultReason(first.value, c.faults[first.value]))
    else IfSigned(db, d.subject.image, d.subject.digest, c,
                  AllowedReason(d.(cosignVerified := c.policy.cosign.required)))
  }

  lemma {:induction false} MarkEnds(db: Database, c: Call, id: int, d: Decision)
    requires id in db.observations.rows
    ensures VerdictOf(MarkAndAllow(db, c, id, d).1)
            == if MarkAllowed in c.faults then Verdict(false, NotMarked(c.faults[MarkAllowed]))
               else Verdict(true, AllowedReason(d))
  {
  }

  lemma {:induction false} AllowEnds(db: Database, c: Call, id: int, d: Decision)
    requires Valid(db) && Open(d) && id in db.observations.rows
    ensures var first := FirstFault(AllowWay(db, d.subject.image, d.subject.digest, c), c.faults);
            && (first.Some? ==> Denies(first.value) && first.value in c.faults)
            && VerdictOf(AllowWithVerification(db, c, id, d).1) == Allows(db, c, d, first)
  {
    var image, digest := d.subject.image, d.subject.digest;
    var way := SignatureWay(db, image, digest, c);
    FirstFaultConcat(way, [MarkAllowed], c.faults);
    FirstFaultConcat(way, [], c.faults);
    FirstOfOne(MarkAllowed, c.faults);
    if c.policy.cosign.required {
      SignatureEnds(db, c, d);
      var (after, d', passed) := VerifyCosign(db, c, d);
      if passed { MarkEnds(after, c, id, d'); }
    } else {
      MarkEnds(db, c, id, d);
    }
  }

  /** The tables that the way of an admitted request looks at. */
  lemma {:induction false} WayFrame(before: Database, after: Database, image: TagKey, digest: string, c: Call)
    requires after == before.(observations := after.observations)
    ensures AllowWay(before, image, digest, c) == AllowWay(after, image, digest, c)
    ensures SignaturePasses(before, image, digest, c) == SignaturePasses(after, image, digest, c)
  {
    var key := CosignKeyOf(image, digest, c.policy);
    assert Verified(before, key) == Verified(after, key);
  }

  /** An admitted request, from the table that its observation is in. */
  lemma {:induction false} AdmittedEnds(w: World, v: World, c: Call, id: int, d: Decision)
    requires Valid(v.db) && Open(d) && id in v.db.observations.rows && v.db == w.db.(observations := v.db.observations)
    ensures var image, digest := d.subject.image, d.subject.digest;
            var (db, d') := AllowWithVerification(v.db, c, id, d);
            Ends(Record(v.(db := db), c, d').1, FirstFault(AllowWay(w.db, image, digest, c), c.faults),
                 IfSigned(w.db, image, digest, c, AllowedReason(d.(cosignVerified := c.policy.cosign.required))), c)
  {
    var (db, d') := AllowWithVerification(v.db, c, id, d);
    AllowEnds(v.db, c, id, d);
    WayFrame(w.db, v.db, d.subject.image, d.subject.digest, c);
    RecordEnds(v.(db := db), c, d');
  }

  lemma {:induction false} FirstSeenEnds(w: World, c: Call, d: Decision, o: Override)
    requires Valid(w.db) && Open(d) && d.standing == NO_STANDING && OverrideIs(w.db, c, d, o)
    requires !Known(w.db, d.subject.image, d.subject.digest)
    ensures var image, digest := d.subject.image, d.subject.digest;
            Ends(DecideFirstSeen(w, c, d, o).1,
                 FirstFault([InsertNew, RereadObservation]
                            + if Admissible(w.db, image, digest, c) then AllowWay(w.db, image, digest, c) else [],
                            c.faults),
                 TagVerdict(w.db, image, digest, c), c)
  {
    var image, digest := d.subject.image, d.subject.digest;
    var rest := if Admissible(w.db, image, digest, c) then AllowWay(w.db, image, digest, c) else [];
    FirstFaultConcat([InsertNew, RereadObservation], rest, c.faults);
    FirstOfTwo(InsertNew, RereadObservation, c.faults);
    LocalOverrideMeaning(w.db, image, digest, c.now);
    if InsertNew !in c.faults && RereadObservation !in c.faults {
      FirstSeenGoesOn(w, c, d, o);
    }
  }

  lemma {:induction false} FirstSeenGoesOn(w: World, c: Call, d: Decision, o: Override)
    requires Valid(w.db) && Open(d) && d.standing == NO_STANDING && OverrideIs(w.db, c, d, o)
    requires !Known(w.db, d.subject.image, d.subject.digest)
    requires InsertNew !in c.faults && RereadObservation !in c.faults
    ensures var image, digest := d.subject.image, d.subject.digest;
            var rest := if Admissible(w.db, image, digest, c) then AllowWay(w.db, image, digest, c) else [];
            Ends(DecideFirstSeen(w, c, d, o).1, FirstFault(rest, c.faults), TagVerdict(w.db, image, digest, c), c)
  {
    var image, digest := d.subject.image, d.subject.digest;
    var t := InsertObservation(w.db.observations, image, digest, Unix(c.now));
    var inserted := w.(db := w.db.(observations := t));
    InsertObservationExtends(w.db, image, digest, Unix(c.now));
    ObservationFound(t, image, digest);
    LocalOverrideMeaning(w.db, image, digest, c.now);
    var obs := GetObservation(t, image, digest).value;
    var seen := Seen(d, obs.firstSeenAt);
    if o.decision == DECISION_ALLOW || c.policy.mutableTags.allowFirstSeenPull {
      AdmittedEnds(w, inserted, c, obs.id, Overridden(seen, o));
    } else {
      RecordEnds(inserted, c, Quarantined(seen, obs.firstSeenAt, c.policy.mutableTags.minDigestAge, NewDigest));
    }
  }

  lemma {:induction false} SeenEnds(w: World, c: Call, d: Decision, o: Override, id: int)
    requires Valid(w.db) && Open(d) && d.standing == NO_STANDING && OverrideIs(w.db, c, d, o)
    requires id in w.db.observations.rows && SameKey(w.db.observations.rows[id], d.subject.image, d.subject.digest)
    ensures var image, digest := d.subject.image, d.subject.digest;
            Ends(DecideSeen(w, c, d, o, ScanObservation(id, w.db.observations.rows[id])).1,
                 FirstFault([TouchSeen]
                            + if Admissible(w.db, image, digest, c) then AllowWay(w.db, image, digest, c) else [],
                            c.faults),
                 TagVerdict(w.db, image, digest, c), c)
  {
    var image, digest := d.subject.image, d.subject.digest;
    var rest := if Admissible(w.db, image, digest, c) then AllowWay(w.db, image, digest, c) else [];
    FirstFaultConcat([TouchSeen], rest, c.faults);
    FirstOfOne(TouchSeen, c.faults);
    if TouchSeen !in c.faults {
      SeenGoesOn(w, c, d, o, id);
    }
  }

  lemma {:induction false} SeenGoesOn(w: World, c: Call, d: Decision, o: Override, id: int)
    requires Valid(w.db) && Open(d) && d.standing == NO_STANDING && OverrideIs(w.db, c, d, o) && TouchSeen !in c.faults
    requires id in w.db.observations.rows && SameKey(w.db.observations.rows[id], d.subject.image, d.subject.digest)
    ensures var image, digest := d.subject.image, d.subject.digest;
            var rest := if Admissible(w.db, image, digest, c) then AllowWay(w.db, image, digest, c) else [];
            Ends(DecideSeen(w, c, d, o, ScanObservation(id, w.db.observations.rows[id])).1,
                 FirstFault(rest, c.faults), TagVerdict(w.db, image, digest, c), c)
  {
    var image, digest := d.subject.image, d.subject.digest;
    var obs := ScanObservation(id, w.db.observations.rows[id]);
    var touched := w.(db := w.db.(observations := TouchObservation(w.db.observations, obs.id, Unix(c.now))));
    UpdateObservationExtends(w.db, obs.id, Unix(c.now));
    LocalOverrideMeaning(w.db, image, digest, c.now);
    DueIsAge(w.db, image, digest, c, id);
    var seen := Seen(d, obs.firstSeenAt);
    var aged := Aging(seen, Sub(c.now, obs.firstSeenAt));
    if o.decision == DECISION_ALLOW {
      AdmittedEnds(w, touched, c, obs.id, Overridden(seen, o));
    } else if Sub(c.now, obs.firstSeenAt) >= c.policy.mutableTags.minDigestAge {
      AdmittedEnds(w, touched, c, obs.id, aged);
    } else {
      RecordEnds(touched, c,
                 Quarantined(aged, obs.firstSeenAt, c.policy.mutableTags.minDigestAge, StillInQuarantine));
    }
  }

  lemma {:induction false} TagWayBegins(db: Database, image: TagKey, digest: string, c: Call)
    ensures var rest := if Admissible(db, image, digest, c) then AllowWay(db, image, digest, c) else [];
            var first := FirstFault(TagWay(db, image, digest, c), c.faults);
            if ReadObservation in c.faults then first == Some(ReadObservation)
            else first == FirstFault((if Known(db, image, digest) then [TouchSeen] else [InsertNew, RereadObservation])
                                     + rest, c.faults)
  {
    var rest := if Admissible(db, image, digest, c) then AllowWay(db, image, digest, c) else [];
    var start := if Known(db, image, digest) then [TouchSeen] else [InsertNew, RereadObservation];
    assert TagWay(db, image, digest, c) == [ReadObservation] + (start + rest);
    FirstFaultConcat([ReadObservation], start + rest, c.faults);
    FirstOfOne(ReadObservation, c.faults);
  }

  /** After the overrides: a tag that is not frozen. */
  lemma {:induction false} ResolvedEnds(w: World, c: Call, d: Decision)
    requires Valid(w.db) && Open(d) && d.standing == NO_STANDING
    requires ReadFreeze !in c.faults && ReadApproval !in c.faults && ReadBypass !in c.faults
    requires !Frozen(w.db, d.subject.image, d.subject.digest, c.now)
    ensures var image, digest := d.subject.image, d.subject.digest;
            Ends(DecideResolved(w, c, d).1, FirstFault(TagWay(w.db, image, digest, c), c.faults),
                 TagVerdict(w.db, image, digest, c), c)
  {
    var image, digest := d.subject.image, d.subject.digest;
    var o := LocalOverride(w.db, image, digest, c.now);
    LocalOverrideMeaning(w.db, image, digest, c.now);
    ObservationFound(w.db.observations, image, digest);
    TagWayBegins(w.db, image, digest, c);
    if ReadObservation !in c.faults {
      var obs := GetObservation(w.db.observations, image, digest);
      if obs.None? {
        NotKnown(w.db, image, digest);
        FirstSeenEnds(w, c, d, o);
      } else {
        assert Observed(w.db, image, digest, w.db.observations.rows[obs.value.id].firstSeen);
        SeenEnds(w, c, d, o, obs.value.id);
      }
    }
  }

  lemma {:induction false} PinnedEnds(w: World, c: Call, d: Decision)
    requires Valid(w.db) && Open(d) && c.policy.digestPinnedImages != "deny"
    requires ReadFreeze !in c.faults && ReadApproval !in c.faults && ReadBypass !in c.faults
    requires !Frozen(w.db, d.subject.image, d.subject.digest, c.now)
    ensures var image, digest := d.subject.image, d.subject.digest;
            Ends(DecidePinned(w, c, d).1, FirstFault(SignatureWay(w.db, image, digest, c), c.faults),
                 PinnedVerdict(w.db, image, digest, c), c)
  {
    LocalOverrideMeaning(w.db, d.subject.image, d.subject.digest, c.now);
    if c.policy.cosign.required {
      SignatureEnds(w.db, c, d);
      var (db, d', passed) := VerifyCosign(w.db, c, d);
      var o := LocalOverride(w.db, d.subject.image, d.subject.digest, c.now);
      RecordEnds(w.(db := db), c, if passed then AllowPinned(d', o) else d');
    }
  }

  lemma {:induction false} WayBegins(db: Database, c: Call)
    requires AsksStore(c)
    ensures var first := FirstFault(Way(db, c), c.faults);
            if ReadFreeze in c.faults then first == Some(ReadFreeze)
            else if ReadApproval in c.faults then first == Some(ReadApproval)
            else if ReadBypass in c.faults then first == Some(ReadBypass)
            else first == FirstFault(Way(db, c)[3..], c.faults)
  {
    var first := [ReadFreeze, ReadApproval, ReadBypass];
    assert Way(db, c) == first + Way(db, c)[3..];
    FirstFaultConcat(first, Way(db, c)[3..], c.faults);
    FirstOfThree(ReadFreeze, ReadApproval, ReadBypass, c.faults);
  }

  lemma {:induction false} OverridesUnread(w: World, c: Call)
    requires AsksStore(c) && (ReadFreeze in c.faults || ReadApproval in c.faults || ReadBypass in c.faults)
    ensures Ends(Decide(w, c).1, FirstFault(Way(w.db, c), c.faults), VerdictOn(w.db, c), c)
  {
    WayBegins(w.db, c);
  }

  lemma {:induction false} FrozenEnds(w: World, c: Call)
    requires AsksStore(c) && Frozen(w.db, ImageOf(c), DigestOf(c), c.now)
    requires ReadFreeze !in c.faults && ReadApproval !in c.faults && ReadBypass !in c.faults
    ensures Ends(Decide(w, c).1, None, VerdictOn(w.db, c), c)
  {
    LocalOverrideMeaning(w.db, ImageOf(c), DigestOf(c), c.now);
  }

  /**
   How every request ends, whatever fails. The first operation that fails on its way decides: an override, the
   observation or its update end it with that error; the cache or the mark deny it, with that reason. If none fails,
   it is decided by the verdict. A log that cannot be written is reported beside the decision.
   */
  lemma {:induction false} EndsByFirstFault(w: World, c: Call)
    requires Valid(w.db)
    ensures Ends(Decide(w, c).1, FirstFault(Way(w.db, c), c.faults), VerdictOn(w.db, c), c)
  {
    if AsksStore(c) {
      if ReadFreeze in c.faults || ReadApproval in c.faults || ReadBypass in c.faults {
        OverridesUnread(w, c);
      } else {
        WayBegins(w.db, c);
        var d := if c.ref.isDigestPinned then NewDecision(c) else Resolved(NewDecision(c), DigestOf(c));
        if Frozen(w.db, ImageOf(c), DigestOf(c), c.now) {
          FrozenEnds(w, c);
        } else if !c.ref.isDigestPinned {
          ResolvedEnds(w, c, d);
          assert Way(w.db, c)[3..] == TagWay(w.db, ImageOf(c), DigestOf(c), c);
        } else if c.policy.digestPinnedImages != "deny" {
          PinnedEnds(w, c, d);
          assert Way(w.db, c)[3..] == SignatureWay(w.db, ImageOf(c), DigestOf(c), c);
        }
      }
    }
  }

  /** It fails closed: whatever fails, no request is allowed that the verdict denies. */
  lemma {:induction false} FailsClosed(w: World, c: Call)
    requires Valid(w.db)
    ensures Decide(w, c).1.decision.allowed ==> VerdictOn(w.db, c).allowed
  {
    EndsByFirstFault(w, c);
  }
}
