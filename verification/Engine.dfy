/** The store and the engine as objects that are updated in place, proved against Tables and Quarantine. */
module Store {
  import opened Prelude
  import opened Tables
  import opened Transfer

  lemma {:induction false} InsertMeaning(t: Table<ObservationRow>, image: TagKey, digest: string, at: Seconds)
    ensures var after := InsertObservation(t, image, digest, at);
            && (exists id :: id in after.rows && SameKey(after.rows[id], image, digest))
            && (forall id :: id in after.rows && id !in t.rows ==>
                  && after.rows[id] == ObservationRow(image, digest, at, at, None, "quarantined")
                  && forall k :: k in t.rows ==> !SameKey(t.rows[k], image, digest))
    ensures Sequenced(t) && UniqueObservations(t) ==>
              var after := InsertObservation(t, image, digest, at);
              && Sequenced(after) && UniqueObservations(after)
              && forall id :: id in t.rows ==> id in after.rows && after.rows[id] == t.rows[id]
  {
    var found, after := WithKey(t, image, digest), InsertObservation(t, image, digest, at);
    NonEmpty(found);
    assert forall id :: id in t.rows && SameKey(t.rows[id], image, digest) ==> id in found;
    if found == map[] {
      assert SameKey(after.rows[t.last + 1], image, digest);
    } else {
      var id :| id in found;
      assert SameKey(after.rows[id], image, digest);
    }
  }

  lemma {:induction false} UpdatesKeepKeys(t: Table<ObservationRow>, id: int, at: Seconds)
    ensures Tables.TouchObservation(t, id, at).rows.Keys == t.rows.Keys
    ensures Tables.MarkObservationAllowed(t, id, at).rows.Keys == t.rows.Keys
  {
  }

  /** A time as it is read back after having been stored: without its part of a second. */
  function Truncated(t: Time): Time {
    t - t % 1_000_000_000
  }

  lemma {:induction false} RecordMeaning(t: Table<CosignRow>, row: CosignRow)
    ensures Sequenced(t) && UniqueCosign(t) ==>
              var after := RecordCosign(t, row);
              && (forall id :: id in t.rows ==>
                    id in after.rows && after.rows[id] == if t.rows[id].key == row.key then row else t.rows[id])
              && (forall id :: id in after.rows && id !in t.rows ==>
                    id == t.last + 1 && after.rows[id] == row
                    && forall k :: k in t.rows ==> t.rows[k].key != row.key)
              && (exists id :: id in after.rows && after.rows[id] == row)
  {
    var found, after := CosignWithKey(t, row.key), RecordCosign(t, row);
    LatestIdMeaning(found);
    assert forall id :: id in t.rows && t.rows[id].key == row.key ==> id in found;
    if LatestId(found).None? {
      assert after.rows[t.last + 1] == row;
    } else {
      assert after.rows[LatestId(found).value] == row;
    }
  }

  /** The handle of internal/store/sqlite.go. Its callers stop before a statement that fails, which changes nothing. */
  class SQLiteStore {
    var db: Database

    constructor ()
      ensures db == EMPTY_DATABASE
    {
      db := EMPTY_DATABASE;
    }

    method GetObservation(image: TagKey, digest: string) returns (r: Option<Observation>)
      ensures r == Tables.GetObservation(db.observations, image, digest)
    {
      var id := SelectLatest(WithKey(db.observations, image, digest));
      r := if id.None? then None else Some(ScanObservation(id.value, db.observations.rows[id.value]));
    }

    /** An existing row with the key wins: afterwards the key has a row, and no row that was there has changed. */
    method InsertNewObservation(image: TagKey, digest: string, now: Time)
      modifies this
      ensures db == old(db).(observations := InsertObservation(old(db).observations, image, digest, Unix(now)))
      ensures exists id :: id in db.observations.rows && SameKey(db.observations.rows[id], image, digest)
      ensures forall id :: id in db.observations.rows && id !in old(db).observations.rows ==>
                && db.observations.rows[id]
                   == ObservationRow(image, digest, Unix(now), Unix(now), None, "quarantined")
                && forall k :: k in old(db).observations.rows ==> !SameKey(old(db).observations.rows[k], image, digest)
      ensures Valid(old(db)) ==>
                Valid(db) && forall id :: id in old(db).observations.rows ==>
                  id in db.observations.rows && db.observations.rows[id] == old(db).observations.rows[id]
    {
      InsertMeaning(db.observations, image, digest, Unix(now));
      db := db.(observations := InsertObservation(db.observations, image, digest, Unix(now)));
    }

    /** The result tells whether a row was affected; of that row the last-seen time changes, and nothing else. */
    method TouchObservation(id: int, now: Time) returns (ok: bool)
      modifies this
      ensures ok == (id in old(db).observations.rows)
      ensures db == old(db).(observations := Tables.TouchObservation(old(db).observations, id, Unix(now)))
      ensures db.observations.rows.Keys == old(db).observations.rows.Keys
      ensures forall k :: k in db.observations.rows ==>
                var before, after := old(db).observations.rows[k], db.observations.rows[k];
                after.(lastSeen := before.lastSeen) == before
                && after.lastSeen == if k == id then Unix(now) else before.lastSeen
      ensures Valid(old(db)) ==> Valid(db)
    {
      ok := id in db.observations.rows;
      UpdatesKeepKeys(db.observations, id, Unix(now));
      db := db.(observations := Tables.TouchObservation(db.observations, id, Unix(now)));
    }

    /** The same for the last-seen and the last-allowed time. */
    method MarkObservationAllowed(id: int, now: Time) returns (ok: bool)
      modifies this
      ensures ok == (id in old(db).observations.rows)
      ensures db == old(db).(observations := Tables.MarkObservationAllowed(old(db).observations, id, Unix(now)))
      ensures db.observations.rows.Keys == old(db).observations.rows.Keys
      ensures forall k :: k in db.observations.rows ==>
                var before, after := old(db).observations.rows[k], db.observations.rows[k];
                && after.(lastSeen := before.lastSeen, lastAllowed := before.lastAllowed) == before
                && after.lastSeen == (if k == id then Unix(now) else before.lastSeen)
                && after.lastAllowed == (if k == id then Some(Unix(now)) else before.lastAllowed)
      ensures Valid(old(db)) ==> Valid(db)
    {
      ok := id in db.observations.rows;
      UpdatesKeepKeys(db.observations, id, Unix(now));
      db := db.(observations := Tables.MarkObservationAllowed(db.observations, id, Unix(now)));
    }

    /** One row more, under an id that no row has had: nothing on record is overwritten. */
    method RecordDecision(at: Time, entry: Entry)
      modifies this
      ensures db == old(db).(decisions := Insert(old(db).decisions, DecisionRow(Unix(at), entry)))
      ensures Valid(old(db)) ==>
                && Valid(db) && db.decisions.last !in old(db).decisions.rows
                && db.decisions.rows.Keys == old(db).decisions.rows.Keys + {db.decisions.last}
                && (forall id :: id in old(db).decisions.rows ==> db.decisions.rows[id] == old(db).decisions.rows[id])
                && ScanDecision(db.decisions.last, db.decisions.rows[db.decisions.last])
                   == DecisionRecord(db.decisions.last, FromUnix(Unix(at)), entry)
    {
      db := db.(decisions := Insert(db.decisions, DecisionRow(Unix(at), entry)));
    }

    method ApproveDigest(image: TagKey, digest: string, at: Time, author: string, reason: string, expires: Option<Time>)
      returns (approval: Approval)
      modifies this
      ensures var row := ApprovalRow(image, digest, Unix(at), author, reason, NullableUnix(expires));
              && db == old(db).(approvals := Insert(old(db).approvals, row))
              && approval == ScanApproval(db.approvals.last, row)
      ensures approval == Approval(old(db).approvals.last + 1, image, digest, Truncated(at), author, reason,
                                   if expires.Some? then Some(Truncated(expires.value)) else None)
    {
      var row := ApprovalRow(image, digest, Unix(at), author, reason, NullableUnix(expires));
      db := db.(approvals := Insert(db.approvals, row));
      approval := ScanApproval(db.approvals.last, db.approvals.rows[db.approvals.last]);
    }

    method FreezeTag(image: TagKey, digest: string, at: Time, author: string, reason: string, expires: Option<Time>)
      returns (freeze: Freeze)
      modifies this
      ensures var row := FreezeRow(image, NullableString(digest), Unix(at), author, reason, NullableUnix(expires));
              && db == old(db).(freezes := Insert(old(db).freezes, row))
              && freeze == ScanFreeze(db.freezes.last, row)
      ensures freeze == Freeze(old(db).freezes.last + 1, image, digest, Truncated(at), author, reason,
                               if expires.Some? then Some(Truncated(expires.value)) else None)
    {
      var row := FreezeRow(image, NullableString(digest), Unix(at), author, reason, NullableUnix(expires));
      db := db.(freezes := Insert(db.freezes, row));
      freeze := ScanFreeze(db.freezes.last, db.freezes.rows[db.freezes.last]);
    }

    method BypassTag(image: TagKey, at: Time, author: string, reason: string, expires: Option<Time>)
      returns (bypass: Bypass)
      modifies this
      ensures var row := BypassRow(image, Unix(at), author, reason, NullableUnix(expires));
              && db == old(db).(bypasses := Insert(old(db).bypasses, row))
              && bypass == ScanBypass(db.bypasses.last, row)
      ensures bypass == Bypass(old(db).bypasses.last + 1, image, Truncated(at), author, reason,
                               if expires.Some? then Some(Truncated(expires.value)) else None)
    {
      var row := BypassRow(image, Unix(at), author, reason, NullableUnix(expires));
      db := db.(bypasses := Insert(db.bypasses, row));
      bypass := ScanBypass(db.bypasses.last, db.bypasses.rows[db.bypasses.last]);
    }

    method ActiveFreeze(image: TagKey, digest: string, now: Time) returns (r: Option<Freeze>)
      ensures r == Tables.ActiveFreeze(db.freezes, image, digest, now)
    {
      var id := SelectLatest(ActiveFreezes(db.freezes, image, digest, now));
      r := if id.None? then None else Some(ScanFreeze(id.value, db.freezes.rows[id.value]));
    }

    method ActiveApproval(image: TagKey, digest: string, now: Time) returns (r: Option<Approval>)
      ensures r == Tables.ActiveApproval(db.approvals, image, digest, now)
    {
      var id := SelectLatest(ActiveApprovals(db.approvals, image, digest, now));
      r := if id.None? then None else Some(ScanApproval(id.value, db.approvals.rows[id.value]));
    }

    method ActiveBypass(image: TagKey, now: Time) returns (r: Option<Bypass>)
      ensures r == Tables.ActiveBypass(db.bypasses, image, now)
    {
      var id := SelectLatest(ActiveBypasses(db.bypasses, image, now));
      r := if id.None? then None else Some(ScanBypass(id.value, db.bypasses.rows[id.value]));
    }

    method GetCosignVerification(key: CosignKey) returns (r: Option<CosignVerification>)
      ensures r == GetCosign(db.cosign, key)
    {
      var id := SelectLatest(CosignWithKey(db.cosign, key));
      r := if id.None? then None else Some(ScanCosign(id.value, db.cosign.rows[id.value]));
    }

    /** A row with the key is overwritten under its id; otherwise one is added. No other row changes. */
    method RecordCosignVerification(row: CosignRow)
      modifies this
      ensures db == old(db).(cosign := RecordCosign(old(db).cosign, row))
      ensures Valid(old(db)) ==>
                var before, after := old(db).cosign, db.cosign;
                && (forall id :: id in before.rows ==>
                      id in after.rows && after.rows[id] == if before.rows[id].key == row.key then row
                                                            else before.rows[id])
                && (forall id :: id in after.rows && id !in before.rows ==>
                      id == before.last + 1 && after.rows[id] == row
                      && forall k :: k in before.rows ==> before.rows[k].key != row.key)
                && (exists id :: id in after.rows && after.rows[id] == row)
    {
      RecordMeaning(db.cosign, row);
      var id := SelectLatest(CosignWithKey(db.cosign, row.key));
      if id.None? {
        db := db.(cosign := Insert(db.cosign, row));
      } else {
        db := db.(cosign := Table(db.cosign.rows[id.value := row], db.cosign.last + 1));
      }
    }

    method ExportState() returns (s: ExportedState)
      ensures s == Export(db)
    {
      var ids := OrderIds(ById(db.observations));
      var observations := ListRows(db.observations.rows, ids, ScanObservation);
      ids := OrderIds(ByTimestamp(db.decisions));
      var decisions := ListRows(db.decisions.rows, ids, ScanDecision);
      ids := OrderIds(ById(db.approvals));
      var approvals := ListRows(db.approvals.rows, ids, ScanApproval);
      ids := OrderIds(ById(db.freezes));
      var freezes := ListRows(db.freezes.rows, ids, ScanFreeze);
      ids := OrderIds(ById(db.bypasses));
      var bypasses := ListRows(db.bypasses.rows, ids, ScanBypass);
      ids := OrderIds(ById(db.cosign));
      var cosign := ListRows(db.cosign.rows, ids, ScanCosign);
      s := ExportedState(1, observations, decisions, approvals, freezes, bypasses, cosign);
    }

    /** One transaction: a statement or a commit that fails rolls everything back, and nothing else fails. */
    method ImportState(s: ExportedState, fault: ImportFault) returns (ok: bool)
      modifies this
      ensures ok <==> s.version == 1 && !Strikes(fault, s)
      ensures db == if ok then Import(old(db), s) else old(db)
    {
      if s.version != 1 { return false; }
      if fault.AtBegin? { return false; }
      var tx := ImportTables(s, fault);
      if tx.None? || fault.AtCommit? { return false; }
      db := tx.value;
      ok := true;
    }

    /** The six loops, on what the transaction sees. */
    method ImportTables(s: ExportedState, fault: ImportFault) returns (tx: Option<Database>)
      requires s.version == 1
      ensures tx == if fault.AtRow? && fault.row < Rows(s, fault.table) then None else Some(Import(db, s))
    {
      var observations := ImportLoop(db.observations, SameObservation, BindAll(s.observations, BindObservation),
                                     RowAt(fault, Observations));
      if observations.None? { return None; }
      var decisions := ImportLoop(db.decisions, NeverSame, BindAll(s.decisions, BindDecision),
                                  RowAt(fault, Decisions));
      if decisions.None? { return None; }
      var approvals := ImportLoop(db.approvals, NeverSame, BindAll(s.approvals, BindApproval),
                                  RowAt(fault, Approvals));
      if approvals.None? { return None; }
      var freezes := ImportLoop(db.freezes, NeverSame, BindAll(s.freezes, BindFreeze), RowAt(fault, Freezes));
      if freezes.None? { return None; }
      var bypasses := ImportLoop(db.bypasses, NeverSame, BindAll(s.bypasses, BindBypass), RowAt(fault, Bypasses));
      if bypasses.None? { return None; }
      var cosign := ImportLoop(db.cosign, SameCosign, BindAll(s.cosign, BindCosign), RowAt(fault, Verifications));
      if cosign.None? { return None; }
      tx := Some(Database(observations.value, decisions.value, approvals.value, freezes.value, bypasses.value,
                          cosign.value));
    }
  }

  datatype ImportTable = Observations | Decisions | Approvals | Freezes | Bypasses | Verifications

  /** Which step of an import fails, if any: the `row`th statement of a table may not exist. */
  datatype ImportFault = NoFault | AtBegin | AtRow(table: ImportTable, row: nat) | AtCommit

  function RowAt(fault: ImportFault, table: ImportTable): Option<nat> {
    if fault.AtRow? && fault.table == table then Some(fault.row) else None
  }

  function Rows(s: ExportedState, table: ImportTable): nat {
    match table
    case Observations => |s.observations|
    case Decisions => |s.decisions|
    case Approvals => |s.approvals|
    case Freezes => |s.freezes|
    case Bypasses => |s.bypasses|
    case Verifications => |s.cosign|
  }

  /** The failing step is one of those that importing this state takes. */
  predicate Strikes(fault: ImportFault, s: ExportedState) {
    match fault
    case NoFault => false
    case AtBegin => true
    case AtRow(table, row) => row < Rows(s, table)
    case AtCommit => true
  }
}

module Engines {
  import opened Prelude
  import opened Image
  import opened Policy
  import opened Matcher
  import opened Verify
  import opened Tables
  import opened Store
  import opened Quarantine

  /** What the outside world answers to one request. */
  datatype Answers = Answers(
    now: Time,
    resolve: Reference -> Result<string, string>,
    verifier: Verifier,
    faults: map<Operation, string>)

  function MakeCall(config: Config, ref: Reference, request: Request, audited: bool, a: Answers): Call {
    var matched := EffectivePolicyFor(config, ref);
    Call(request, ref, matched.policy, matched.matchedRule, a.now, a.resolve(ref), a.verifier, a.faults, audited)
  }

  /** `Engine.Decide` from the image reference text on. */
  ghost function DecideRequest(w: World, config: Config, request: Request, audited: bool, a: Answers)
    : (World, Outcome)
  {
    match ParseReference(request.imageRef)
    case Err(e) => (w, Outcome(NO_DECISION, Some(BadReference(e))))
    case Ok(ref) => Decide(w, MakeCall(config, ref, request, audited, a))
  }

  class Engine {
    const config: Config
    const store: SQLiteStore?
    const audited: bool
    var audit: seq<Event>

    constructor (config: Config, store: SQLiteStore?, audited: bool)
      ensures this.config == config && this.store == store && this.audited == audited && audit == []
    {
      this.config := config;
      this.store := store;
      this.audited := audited;
      audit := [];
    }

    ghost function Now(): World
      requires store != null
      reads this, store
    {
      World(store.db, audit)
    }

    method Decide(request: Request, a: Answers) returns (outcome: Outcome)
      modifies this, store
      ensures store == null ==> outcome == Outcome(NO_DECISION, Some(StoreRequired)) && audit == old(audit)
      ensures store != null ==> (Now(), outcome) == DecideRequest(old(Now()), config, request, audited, a)
    {
      if store == null { return Outcome(NO_DECISION, Some(StoreRequired)); }
      var parsed := ParseReference(request.imageRef);
      if parsed.Err? { return Outcome(NO_DECISION, Some(BadReference(parsed.error))); }
      var c := MakeCall(config, parsed.value, request, audited, a);
      var d := NewDecision(c);
      if c.ref.isDigestPinned {
        outcome := DecideDigestPinned(c, d);
        return;
      }
      if c.policy.mutableTags.action == ACTION_ALLOW {
        outcome := RecordOutcome(c, Allow(d, TagAllowed));
        return;
      }
      if c.policy.mutableTags.action == ACTION_DENY {
        outcome := RecordOutcome(c, Deny(d, TagDenied));
        return;
      }
      if c.resolution.Err? {
        if c.policy.failedRegistryResolution == ACTION_ALLOW {
          d := Allow(d, Fallback);
        } else {
          d := Deny(d, Unresolved(c.resolution.error));
        }
        outcome := RecordOutcome(c, d);
        return;
      }
      outcome := DecideDigest(c, Resolved(d, c.resolution.value));
    }

    /** engine.go:119-172, once the tag has a digest. */
    method DecideDigest(c: Call, d: Decision) returns (outcome: Outcome)
      requires store != null && c.audited == audited
      modifies this, store
      ensures (Now(), outcome) == DecideResolved(old(Now()), c, d)
    {
      var override := LocalOverride(c, d);
      if override.Err? { return Outcome(NO_DECISION, Some(Failed(override.error))); }
      var o := override.value;
      if o.decision == DECISION_DENY {
        outcome := RecordOutcome(c, DenyFrozen(d));
        return;
      }
      if ReadObservation in c.faults { return Outcome(NO_DECISION, Some(Failed(ReadObservation))); }
      var obs := store.GetObservation(d.subject.image, d.subject.digest);
      if obs.None? {
        outcome := DecideNew(c, d, o);
      } else {
        outcome := DecideKnown(c, d, o, obs.value);
      }
    }

    method DecideNew(c: Call, d: Decision, o: Override) returns (outcome: Outcome)
      requires store != null && c.audited == audited
      modifies this, store
      ensures (Now(), outcome) == DecideFirstSeen(old(Now()), c, d, o)
    {
      if InsertNew in c.faults { return Outcome(NO_DECISION, Some(Failed(InsertNew))); }
      store.InsertNewObservation(d.subject.image, d.subject.digest, c.now);
      if RereadObservation in c.faults { return Outcome(NO_DECISION, Some(Failed(RereadObservation))); }
      var obs := store.GetObservation(d.subject.image, d.subject.digest);
      if obs.None? { return Outcome(NO_DECISION, Some(NilObservation)); }
      var seen := Seen(d, obs.value.firstSeenAt);
      if o.decision == DECISION_ALLOW || c.policy.mutableTags.allowFirstSeenPull {
        seen := Overridden(seen, o);
        seen := AllowVerified(c, obs.value.id, seen);
      } else {
        seen := Quarantined(seen, obs.value.firstSeenAt, c.policy.mutableTags.minDigestAge, NewDigest);
      }
      outcome := RecordOutcome(c, seen);
    }

    method DecideKnown(c: Call, d: Decision, o: Override, obs: Observation) returns (outcome: Outcome)
      requires store != null && c.audited == audited
      modifies this, store
      ensures (Now(), outcome) == DecideSeen(old(Now()), c, d, o, obs)
    {
      if TouchSeen in c.faults { return Outcome(NO_DECISION, Some(Failed(TouchSeen))); }
      var touched := store.TouchObservation(obs.id, c.now);
      if !touched { return Outcome(NO_DECISION, Some(Failed(TouchSeen))); }
      var seen := Seen(d, obs.firstSeenAt);
      if o.decision == DECISION_ALLOW {
        seen := Overridden(seen, o);
        seen := AllowVerified(c, obs.id, seen);
        outcome := RecordOutcome(c, seen);
        return;
      }
      var age := Sub(c.now, obs.firstSeenAt);
      seen := Aging(seen, age);
      if age < c.policy.mutableTags.minDigestAge {
        seen := Quarantined(seen, obs.firstSeenAt, c.policy.mutableTags.minDigestAge, StillInQuarantine);
        outcome := RecordOutcome(c, seen);
        return;
      }
      seen := AllowVerified(c, obs.id, seen);
      outcome := RecordOutcome(c, seen);
    }

    method DecideDigestPinned(c: Call, d0: Decision) returns (outcome: Outcome)
      requires store != null && c.audited == audited
      modifies this, store
      ensures (Now(), outcome) == DecidePinned(old(Now()), c, d0)
    {
      var d := d0;
      var override := LocalOverride(c, d);
      if override.Err? { return Outcome(NO_DECISION, Some(Failed(override.error))); }
      var o := override.value;
      if o.decision == DECISION_DENY {
        d := DenyFrozen(d);
      } else if c.policy.digestPinnedImages == ACTION_DENY {
        d := Deny(d, PinnedDenied);
      } else {
        var passed := true;
        if c.policy.cosign.required {
          d, passed := VerifySignature(c, d);
        }
        if passed {
          d := AllowPinned(d, o);
        }
      }
      outcome := RecordOutcome(c, d);
    }

    method LocalOverride(c: Call, d: Decision) returns (r: Result<Override, Operation>)
      requires store != null
      ensures r == ReadOverride(store.db, c, d)
    {
      if ReadFreeze in c.faults { return Err(ReadFreeze); }
      var freeze := store.ActiveFreeze(d.subject.image, d.subject.digest, c.now);
      if ReadApproval in c.faults { return Err(ReadApproval); }
      var approval := store.ActiveApproval(d.subject.image, d.subject.digest, c.now);
      if ReadBypass in c.faults { return Err(ReadBypass); }
      var bypass := store.ActiveBypass(d.subject.image, c.now);
      r := Ok(CombineOverrides(freeze, approval, bypass));
    }

    method AllowVerified(c: Call, id: int, d0: Decision) returns (d: Decision)
      requires store != null
      modifies store
      ensures (store.db, d) == AllowWithVerification(old(store.db), c, id, d0)
    {
      d := d0;
      if c.policy.cosign.required {
        var passed;
        d, passed := VerifySignature(c, d);
        if !passed { return; }
      }
      if MarkAllowed in c.faults {
        return Deny(d, NotMarked(c.faults[MarkAllowed]));
      }
      var marked := store.MarkObservationAllowed(id, c.now);
      if !marked {
        return Deny(d, NotMarked("no matching row"));
      }
      d := d.(allowed := true);
      if d.standing.manualApproval {
        d := d.(reason := ManuallyApproved);
      } else if d.standing.bypassed {
        d := d.(reason := BypassActive);
      } else if d.cosignVerified {
        d := d.(reason := AgedAndVerified);
      } else {
        d := d.(reason := Aged);
      }
    }

    method VerifySignature(c: Call, d0: Decision) returns (d: Decision, passed: bool)
      requires store != null
      modifies store
      ensures (store.db, d, passed) == VerifyCosign(old(store.db), c, d0)
    {
      d := d0;
      if ReadCosign in c.faults {
        return Deny(d, CacheUnreadable(c.faults[ReadCosign])), false;
      }
      var cached := store.GetCosignVerification(CacheKey(c, d));
      if cached.Some? && cached.value.success {
        return d.(cosignVerified := true, cosignCached := true), true;
      }
      var answer := c.verifier(d.subject.image.registry, d.subject.image.repository, d.subject.digest, c.policy.cosign);
      if answer.Err? {
        return Deny(d, CosignFailed(answer.error)), false;
      }
      if WriteCosign in c.faults {
        return Deny(d, CacheUnwritable(c.faults[WriteCosign])), false;
      }
      store.RecordCosignVerification(CacheRow(c, d, answer.value));
      if !answer.value.success {
        return Deny(d, CosignFailed(answer.value.reason)), false;
      }
      return d.(cosignVerified := true), true;
    }

    method RecordOutcome(c: Call, d: Decision) returns (outcome: Outcome)
      requires store != null && c.audited == audited
      modifies this, store
      ensures (Now(), outcome) == Record(old(Now()), c, d)
    {
      if WriteDecision in c.faults { return Outcome(d, Some(Failed(WriteDecision))); }
      store.RecordDecision(c.now, EntryOf(c, d));
      if !audited { return Outcome(d, None); }
      if WriteAudit in c.faults { return Outcome(d, Some(Failed(WriteAudit))); }
      audit := audit + [EventOf(c, d)];
      outcome := Outcome(d, None);
    }
  }

  /** The request with what it depends on: the policy of the first rule that matches, the clock, the outside world. */
  ghost predicate CallFor(c: Call, config: Config, request: Request, ref: Reference, audited: bool, a: Answers,
                          k: nat)
  {
    && c.request == request && c.ref == ref && c.policy == EffectivePolicyFor(config, ref).policy
    && c.matchedRule == (if k < |config.rules| then config.rules[k].pattern else "default_policy")
    && c.now == a.now && c.resolution == a.resolve(ref) && c.verifier == a.verifier
    && c.faults == a.faults && c.audited == audited
  }

  lemma {:induction false} CallIsMade(config: Config, request: Request, ref: Reference, audited: bool, a: Answers,
                                      k: nat)
    requires MatchesFirst(config.rules, ref, k)
    ensures CallFor(MakeCall(config, ref, request, audited, a), config, request, ref, audited, a, k)
  {
    EffectiveFields(config, ref, k);
  }

  /**
   From the text of a request to its decision: a text that is no reference is an error and changes nothing; any other
   is decided under the first rule that matches it, with the request, the clock and the outside world as they are.
   */
  lemma {:induction false} RequestIsDecided(w: World, config: Config, request: Request, audited: bool, a: Answers,
                                            k: nat)
    requires ParseReference(request.imageRef).Ok? ==>
               MatchesFirst(config.rules, ParseReference(request.imageRef).value, k)
    ensures match ParseReference(request.imageRef)
            case Err(e) =>
              DecideRequest(w, config, request, audited, a) == (w, Outcome(NO_DECISION, Some(BadReference(e))))
            case Ok(ref) =>
              exists c :: CallFor(c, config, request, ref, audited, a, k)
                          && DecideRequest(w, config, request, audited, a) == Decide(w, c)
  {
    var parsed := ParseReference(request.imageRef);
    if parsed.Ok? {
      CallIsMade(config, request, parsed.value, audited, a, k);
    }
  }
}
