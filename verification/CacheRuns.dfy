/**
 The Cosign cache under interleaving: exactly which action loses a stored success, exactly when none ever does, and
 that every signature is one for the request's own command line.
 */
module CacheRuns {
  import opened Prelude
  import opened Image
  import opened Policy
  import opened Verify
  import opened Tables
  import opened Quarantine
  import opened Runs
  import opened Laws
  import opened CacheRefinement
  import opened Machine
  import opened Protocol

  // ---------------------------------------------------------------- when a success is lost

  /** The action is the write of a failing verification with that key. */
  ghost predicate StoresFailure(s: State, a: Action, key: CosignKey) {
    && a.Advance? && a.process < |s.procs|
    && var p := s.procs[a.process];
       && p.pc.AtCacheWrite? && CacheKey(p.call, p.decision) == key
       && !p.answer.success && WriteCosign !in p.call.faults
  }

  /** A write decides what the cache says of its own key, and of no other. */
  lemma {:induction false} RecordedVerified(db: Database, row: CosignRow, key: CosignKey)
    requires Valid(db)
    ensures Verified(db.(cosign := RecordCosign(db.cosign, row)), key)
            <==> if key == row.key then row.success != 0 else Verified(db, key)
  {
    var t, after := db.cosign, RecordCosign(db.cosign, row);
    var existing := LatestId(CosignWithKey(t, row.key));
    CosignFound(t, row.key);
    LatestIdMeaning(CosignWithKey(t, row.key));
    var written := if existing.None? then t.last + 1 else existing.value;
    assert after.rows[written] == row;
    if key != row.key && Verified(db, key) {
      var id :| id in t.rows && t.rows[id].key == key && t.rows[id].success != 0;
      assert after.rows[id] == t.rows[id];
    }
  }

  lemma {:induction false} OnlyWritesTouchCache(s: State, a: Action)
    requires !(a.Advance? && a.process < |s.procs| && s.procs[a.process].pc.AtCacheWrite?)
    ensures Act(s, a).world.db.cosign == s.world.db.cosign
  {
  }

  lemma {:induction false} VerifiedAfterWrite(s: State, i: nat, key: CosignKey)
    requires Valid(s.world.db) && i < |s.procs| && s.procs[i].pc.AtCacheWrite?
    ensures var p := s.procs[i];
            Verified(Act(s, Advance(i)).world.db, key)
            <==> if WriteCosign !in p.call.faults && CacheKey(p.call, p.decision) == key then p.answer.success
                 else Verified(s.world.db, key)
  {
    var p := s.procs[i];
    if WriteCosign !in p.call.faults {
      RecordedVerified(s.world.db, CacheRow(p.call, p.decision, p.answer), key);
    }
  }

  /** A success is lost if and only if the action stores a failing verification with its key. */
  lemma {:induction false} LostExactly(s: State, a: Action, key: CosignKey)
    requires Valid(s.world.db) && Verified(s.world.db, key)
    ensures !Verified(Act(s, a).world.db, key) <==> StoresFailure(s, a, key)
  {
    if a.Advance? && a.process < |s.procs| && s.procs[a.process].pc.AtCacheWrite? {
      VerifiedAfterWrite(s, a.process, key);
    } else {
      OnlyWritesTouchCache(s, a);
    }
  }

  // ---------------------------------------------------------------- that it can be lost

  /** A pinned request that gets as far as the verifier, and what the verifier answers. */
  ghost predicate Racing(c: Call, db: Database, answer: CosignResult) {
    var d := NewDecision(c);
    && c.ref.isDigestPinned && c.policy.digestPinnedImages != ACTION_DENY && c.policy.cosign.required
    && c.faults == map[] && !Frozen(db, d.subject.image, d.subject.digest, c.now)
    && !Verified(db, CacheKey(c, d))
    && c.verifier(d.subject.image.registry, d.subject.image.repository, d.subject.digest, c.policy.cosign) == Ok(answer)
  }

  ghost predicate AboutToWrite(p: Process, c: Call, answer: CosignResult) {
    p.pc.AtCacheWrite? && p.call == c && p.decision == NewDecision(c) && p.answer == answer
  }

  lemma {:induction false} ReadsOverrides(c: Call, db: Database, answer: CosignResult) returns (p: Process)
    requires Valid(db) && Racing(c, db, answer)
    ensures Begin(c).pc.AtFreeze? && StepRead(Begin(c), db).pc.AtApproval?
    ensures StepRead(StepRead(Begin(c), db), db).pc.AtBypass?
    ensures p == StepRead(StepRead(StepRead(Begin(c), db), db), db)
    ensures p.pc.AtCacheRead? && p.call == c && p.decision == NewDecision(c)
  {
    var d := NewDecision(c);
    ReadsMeaning(db, d.subject.image, d.subject.digest, c.now);
    p := StepRead(StepRead(StepRead(Begin(c), db), db), db);
  }

  lemma {:induction false} MissesCache(p: Process, db: Database, c: Call, answer: CosignResult)
    requires Valid(db) && Racing(c, db, answer) && p.pc.AtCacheRead? && p.call == c && p.decision == NewDecision(c)
    ensures AboutToWrite(StepCacheRead(p, db), c, answer)
  {
    CosignFound(db.cosign, CacheKey(c, NewDecision(c)));
  }

  /** Four steps of one request, with nothing in between. */
  function Four(i: nat): seq<Action> {
    [Advance(i), Advance(i), Advance(i), Advance(i)]
  }

  lemma {:induction false} StepsOnce(w: World, run: seq<Action>, s: State, i: nat, q: Process)
    requires After(w, run) == s && i < |s.procs| && Step(s.procs[i], s.world) == (q, s.world)
    ensures After(w, run + [Advance(i)]) == s.(procs := s.procs[i := q])
  {
    AfterOne(w, run, Advance(i));
  }

  lemma {:induction false} RacesToWrite(w: World, run: seq<Action>, i: nat, c: Call, answer: CosignResult)
    requires var s := After(w, run);
             i < |s.procs| && s.procs[i] == Begin(c) && Valid(s.world.db) && Racing(c, s.world.db, answer)
    ensures var s, s' := After(w, run), After(w, run + Four(i));
            && s'.world == s.world && |s'.procs| == |s.procs| && AboutToWrite(s'.procs[i], c, answer)
            && forall j :: 0 <= j < |s.procs| && j != i ==> s'.procs[j] == s.procs[j]
  {
    var s := After(w, run);
    var db := s.world.db;
    var p3 := ReadsOverrides(c, db, answer);
    var p1 := StepRead(Begin(c), db);
    var p2 := StepRead(p1, db);
    var p4 := StepCacheRead(p3, db);
    MissesCache(p3, db, c, answer);
    var s1 := s.(procs := s.procs[i := p1]);
    var s2 := s1.(procs := s1.procs[i := p2]);
    var s3 := s2.(procs := s2.procs[i := p3]);
    var a := Advance(i);
    StepsOnce(w, run, s, i, p1);
    StepsOnce(w, run + [a], s1, i, p2);
    StepsOnce(w, run + [a] + [a], s2, i, p3);
    StepsOnce(w, run + [a] + [a] + [a], s3, i, p4);
    assert run + [a] + [a] + [a] + [a] == run + Four(i);
  }

  /** Both requests miss the cache before either writes. */
  function BothMiss(good: Call, bad: Call): seq<Action> {
    [Start(good)] + [Start(bad)] + Four(0) + Four(1)
  }

  lemma {:induction false} BothAboutToWrite(w: World, good: Call, bad: Call, success: CosignResult,
                                            failed: CosignResult)
    requires Valid(w.db) && Racing(good, w.db, success) && Racing(bad, w.db, failed)
    ensures var s := After(w, BothMiss(good, bad));
            && s.world == w && |s.procs| == 2
            && AboutToWrite(s.procs[0], good, success) && AboutToWrite(s.procs[1], bad, failed)
  {
    var none: seq<Action> := [];
    AfterOne(w, none, Start(good));
    assert none + [Start(good)] == [Start(good)];
    AfterOne(w, [Start(good)], Start(bad));
    RacesToWrite(w, [Start(good)] + [Start(bad)], 0, good, success);
    RacesToWrite(w, [Start(good)] + [Start(bad)] + Four(0), 1, bad, failed);
  }

  /**
   The success is lost in a race: two requests with one cache key both miss; the one whose verification succeeds
   writes first, and the one whose verification fails writes last.
   */
  lemma {:induction false} RaceLosesSuccess(w: World, good: Call, bad: Call, success: CosignResult,
                                            failed: CosignResult)
    requires Valid(w.db) && Racing(good, w.db, success) && Racing(bad, w.db, failed)
    requires success.success && !failed.success
    requires CacheKey(good, NewDecision(good)) == CacheKey(bad, NewDecision(bad))
    ensures var key, run := CacheKey(good, NewDecision(good)), BothMiss(good, bad);
            && Verified(After(w, run + [Advance(0)]).world.db, key)
            && !Verified(After(w, run + [Advance(0)] + [Advance(1)]).world.db, key)
  {
    var key, run := CacheKey(good, NewDecision(good)), BothMiss(good, bad);
    BothAboutToWrite(w, good, bad, success, failed);
    var s := After(w, run);
    AfterOne(w, run, Advance(0));
    VerifiedAfterWrite(s, 0, key);
    WriteKeepsValid(s, 0);
    AfterOne(w, run + [Advance(0)], Advance(1));
    VerifiedAfterWrite(After(w, run + [Advance(0)]), 1, key);
  }

  lemma {:induction false} WriteKeepsValid(s: State, i: nat)
    requires Valid(s.world.db) && i < |s.procs| && s.procs[i].pc.AtCacheWrite?
    ensures Valid(Act(s, Advance(i)).world.db)
    ensures forall j :: 0 <= j < |s.procs| && j != i ==> Act(s, Advance(i)).procs[j] == s.procs[j]
  {
    var p := s.procs[i];
    RecordCosignRows(s.world.db, CacheRow(p.call, p.decision, p.answer));
  }

  /** A pull of a pinned image that needs a signature with a key, whose verification has that outcome. */
  function Answered(ref: Reference, success: bool): Call {
    SignedPull(ref, CosignPolicy(true, "key", "cosign.pub", "", "", ""),
               (_, _, _, _) => Ok(CosignResult(success, "")))
  }

  /** On an empty store, two such pulls of any pinned image can race as described. */
  lemma {:induction false} SuccessCanBeLost(ref: Reference)
    requires ref.isDigestPinned
    ensures var w, good, bad := World(EMPTY_DATABASE, []), Answered(ref, true), Answered(ref, false);
            var key, run := CacheKey(good, NewDecision(good)), BothMiss(good, bad) + [Advance(0)];
            Verified(After(w, run).world.db, key) && !Verified(After(w, run + [Advance(1)]).world.db, key)
  {
    RaceLosesSuccess(World(EMPTY_DATABASE, []), Answered(ref, true), Answered(ref, false), CosignResult(true, ""),
                     CosignResult(false, ""));
  }

  // ---------------------------------------------------------------- exactly when it is never lost

  /** All requests ask that verifier, under those policies where they need a signature. */
  ghost predicate OneVerifier(run: seq<Action>, t: Trust) {
    forall k :: 0 <= k < |run| && run[k].Start? ==> Entrusted(run[k].call, t)
  }

  ghost predicate Entrusted(c: Call, t: Trust) {
    c.verifier == t.verify && (c.policy.cosign.required ==> c.policy.cosign in t.policies)
  }

  /** The verifier reports that a signature does not hold, as opposed to giving no answer. */
  predicate Fails(v: Verifier, key: CosignKey, cfg: CosignPolicy) {
    var r := v(key.registry, key.repository, key.digest, cfg);
    r.Ok? && !r.value.success
  }

  /** No policy fails where another one with its cache key succeeds. */
  ghost predicate Agrees(t: Trust) {
    forall key, a, b :: a in t.policies && b in t.policies && SharesKey(key, a, b) && Succeeds(t.verify, key, a) ==>
      !Fails(t.verify, key, b)
  }

  /** The request asks that verifier, if it needs a signature, and carries its answer to the write. */
  ghost predicate Asks(p: Process, t: Trust) {
    && Entrusted(p.call, t)
    && (p.pc.AtCacheRead? || p.pc.AtCacheWrite? ==> p.call.policy.cosign.required)
    && var s := p.decision.subject;
       p.pc.AtCacheWrite? ==>
         t.verify(s.image.registry, s.image.repository, s.digest, p.call.policy.cosign) == Ok(p.answer)
  }

  lemma {:induction false} StepAsks(p: Process, w: World, t: Trust)
    requires Asks(p, t)
    ensures Asks(Step(p, w).0, t) && (!p.pc.AtCacheRead? ==> !Step(p, w).0.pc.AtCacheWrite?)
  {
  }

  lemma {:induction false} AlwaysAsks(w: World, run: seq<Action>, t: Trust)
    requires OneVerifier(run, t)
    ensures forall i :: 0 <= i < |After(w, run).procs| ==> Asks(After(w, run).procs[i], t)
    decreases |run|
  {
    if run != [] {
      var before, a := run[..|run| - 1], run[|run| - 1];
      AlwaysAsks(w, before, t);
      var s := After(w, before);
      if a.Advance? && a.process < |s.procs| { StepAsks(s.procs[a.process], s.world, t); }
    }
  }

  ghost predicate HarmlessWrite(p: Process, db: Database) {
    p.pc.AtCacheWrite? && !p.answer.success ==> !Verified(db, CacheKey(p.call, p.decision))
  }

  ghost predicate AllHarmless(s: State, t: Trust) {
    Valid(s.world.db) && forall i :: 0 <= i < |s.procs| ==> Asks(s.procs[i], t) && HarmlessWrite(s.procs[i], s.world.db)
  }

  /** A cache read that leads to a write has missed. */
  lemma {:induction false} MissIsHarmless(p: Process, db: Database)
    requires Valid(db) && p.pc.AtCacheRead?
    ensures HarmlessWrite(StepCacheRead(p, db), db)
  {
    CosignFound(db.cosign, CacheKey(p.call, p.decision));
  }

  lemma {:induction false} NoOpposedAnswers(p: Process, q: Process, t: Trust)
    requires Agrees(t) && Asks(p, t) && Asks(q, t) && p.pc.AtCacheWrite? && q.pc.AtCacheWrite?
    requires CacheKey(p.call, p.decision) == CacheKey(q.call, q.decision) && !q.answer.success
    ensures !p.answer.success
  {
    assert SharesKey(CacheKey(p.call, p.decision), p.call.policy.cosign, q.call.policy.cosign);
  }

  /** Other requests' writes stay harmless, whatever request `i` does. */
  lemma {:induction false} OthersStayHarmless(s: State, i: nat, j: nat, t: Trust)
    requires AllHarmless(s, t) && Agrees(t) && i < |s.procs| && j < |s.procs|
    ensures HarmlessWrite(s.procs[j], Act(s, Advance(i)).world.db)
  {
    var p, q := s.procs[i], s.procs[j];
    if q.pc.AtCacheWrite? && !q.answer.success {
      var key := CacheKey(q.call, q.decision);
      if p.pc.AtCacheWrite? {
        VerifiedAfterWrite(s, i, key);
        if CacheKey(p.call, p.decision) == key { NoOpposedAnswers(p, q, t); }
      } else {
        OnlyWritesTouchCache(s, Advance(i));
      }
    }
  }

  lemma {:induction false} AdvanceStaysHarmless(s: State, i: nat, t: Trust)
    requires AllHarmless(s, t) && Agrees(t) && i < |s.procs| && Valid(Act(s, Advance(i)).world.db)
    ensures AllHarmless(Act(s, Advance(i)), t)
  {
    var p, s' := s.procs[i], Act(s, Advance(i));
    StepAsks(p, s.world, t);
    if p.pc.AtCacheRead? { MissIsHarmless(p, s.world.db); }
    forall j | 0 <= j < |s'.procs| ensures Asks(s'.procs[j], t) && HarmlessWrite(s'.procs[j], s'.world.db) {
      if j != i { OthersStayHarmless(s, i, j, t); }
    }
  }

  lemma {:induction false} OtherActionStaysHarmless(s: State, a: Action, t: Trust)
    requires AllHarmless(s, t) && Valid(Act(s, a).world.db) && (a.Advance? ==> a.process >= |s.procs|)
    requires a.Start? ==> Entrusted(a.call, t)
    ensures AllHarmless(Act(s, a), t)
  {
    OnlyWritesTouchCache(s, a);
  }

  lemma {:induction false} AlwaysHarmless(w: World, run: seq<Action>, t: Trust)
    requires Valid(w.db) && RunOk(run) && Agrees(t) && OneVerifier(run, t)
    ensures AllHarmless(After(w, run), t)
    decreases |run|
  {
    InvariantHolds(w, run);
    if run != [] {
      var before, a := run[..|run| - 1], run[|run| - 1];
      AlwaysHarmless(w, before, t);
      if a.Advance? && a.process < |After(w, before).procs| {
        AdvanceStaysHarmless(After(w, before), a.process, t);
      } else {
        OtherActionStaysHarmless(After(w, before), a, t);
      }
    }
  }

  lemma {:induction false} AgreementKeeps(w: World, run: seq<Action>, t: Trust, k: nat, key: CosignKey)
    requires Valid(w.db) && RunOk(run) && Agrees(t) && OneVerifier(run, t) && k <= |run|
    requires Verified(After(w, run[..k]).world.db, key)
    ensures Verified(After(w, run).world.db, key)
    decreases |run|
  {
    if k == |run| {
      assert run[..k] == run;
    } else {
      var before, a := run[..|run| - 1], run[|run| - 1];
      assert before[..k] == run[..k];
      AgreementKeeps(w, before, t, k, key);
      AlwaysHarmless(w, before, t);
      LostExactly(After(w, before), a, key);
    }
  }

  /** In every interleaving, a stored success stays. */
  ghost predicate NeverLoses(t: Trust) {
    forall w: World, run: seq<Action>, k: nat, key: CosignKey ::
      Valid(w.db) && RunOk(run) && OneVerifier(run, t) && k <= |run| ==> Keeps(w, run, k, key)
  }

  ghost predicate Keeps(w: World, run: seq<Action>, k: nat, key: CosignKey)
    requires k <= |run|
  {
    Verified(After(w, run[..k]).world.db, key) ==> Verified(After(w, run).world.db, key)
  }

  /** The race of two policies that share a key, one of which fails. */
  lemma {:induction false} OpposedAnswersLose(t: Trust, key: CosignKey, a: CosignPolicy, b: CosignPolicy)
    requires a in t.policies && b in t.policies && a.required && b.required && SharesKey(key, a, b)
    requires Succeeds(t.verify, key, a) && Fails(t.verify, key, b)
    ensures !NeverLoses(t)
  {
    var w := World(EMPTY_DATABASE, []);
    var good, bad := SignedPull(ImageOf(key), a, t.verify), SignedPull(ImageOf(key), b, t.verify);
    var success := t.verify(key.registry, key.repository, key.digest, a).value;
    var failed := t.verify(key.registry, key.repository, key.digest, b).value;
    assert CacheKey(good, NewDecision(good)) == key && CacheKey(bad, NewDecision(bad)) == key;
    RaceLosesSuccess(w, good, bad, success, failed);
    RaceIsEntrusted(good, bad, t);
    Loses(w, BothMiss(good, bad) + [Advance(0)], key, t);
  }

  lemma {:induction false} RaceIsEntrusted(good: Call, bad: Call, t: Trust)
    requires Entrusted(good, t) && Entrusted(bad, t)
    ensures var run := BothMiss(good, bad) + [Advance(0)] + [Advance(1)]; OneVerifier(run, t) && RunOk(run)
  {
  }

  lemma {:induction false} Loses(w: World, before: seq<Action>, key: CosignKey, t: Trust)
    requires Valid(w.db) && RunOk(before + [Advance(1)]) && OneVerifier(before + [Advance(1)], t)
    requires Verified(After(w, before).world.db, key) && !Verified(After(w, before + [Advance(1)]).world.db, key)
    ensures !NeverLoses(t)
  {
    var run, k := before + [Advance(1)], |before|;
    assert run[..k] == before;
    assert !Keeps(w, run, k, key);
  }

  /**
   Over all interleavings of requests that ask one verifier: a stored success is never lost if and only if no policy
   fails where another one with its cache key succeeds.
   */
  lemma {:induction false} NeverLosesIff(t: Trust)
    requires AllRequired(t.policies)
    ensures NeverLoses(t) <==> Agrees(t)
  {
    if Agrees(t) {
      forall w: World, run: seq<Action>, k: nat, key: CosignKey
        | Valid(w.db) && RunOk(run) && OneVerifier(run, t) && k <= |run|
        ensures Keeps(w, run, k, key)
      {
        if Verified(After(w, run[..k]).world.db, key) { AgreementKeeps(w, run, t, k, key); }
      }
    } else {
      var key, a, b :| a in t.policies && b in t.policies && SharesKey(key, a, b) && Succeeds(t.verify, key, a)
                       && Fails(t.verify, key, b);
      OpposedAnswersLose(t, key, a, b);
    }
  }

  lemma {:induction false} TransferAgrees(t: Trust)
    requires Transfers(t)
    ensures Agrees(t)
  {
  }

  /** In particular with a verifier that answers by command line, and policies without NUL. */
  lemma {:induction false} SuccessIsNeverLost(w: World, run: seq<Action>, v: Verifier, k: nat, key: CosignKey)
    requires Valid(w.db) && RunOk(run) && ByArguments(v) && OneVerifier(run, Trust(v, NulFreePolicies())) && k <= |run|
    requires Verified(After(w, run[..k]).world.db, key)
    ensures Verified(After(w, run).world.db, key)
  {
    NulFreeTransfers(v);
    TransferAgrees(Trust(v, NulFreePolicies()));
    AgreementKeeps(w, run, Trust(v, NulFreePolicies()), k, key);
  }

  // ---------------------------------------------------------------- signatures are the request's own

  /** Request `q` ran its verifier on that digest, with the command line that `cfg` asks for, and it succeeded. */
  ghost predicate SignedBy(w: World, run: seq<Action>, q: nat, key: CosignKey, cfg: CosignPolicy) {
    && Found(w, run, q, Signature(key)) && q < |After(w, run).procs|
    && var c := After(w, run).procs[q].call;
       && Succeeds(c.verifier, key, c.policy.cosign)
       && CosignVerifyArgs(key.registry, key.repository, key.digest, c.policy.cosign)
          == CosignVerifyArgs(key.registry, key.repository, key.digest, cfg)
  }

  lemma {:induction false} FoundSignature(w: World, run: seq<Action>, q: nat, key: CosignKey)
    requires Found(w, run, q, Signature(key))
    ensures q < |After(w, run).procs|
    ensures var c := After(w, run).procs[q].call;
            CosignPolicyKey(c.policy.cosign) == key.policyKey && Succeeds(c.verifier, key, c.policy.cosign)
  {
    var k :| 0 <= k < |run| && run[k] == Advance(q) && FindsAt(w, run[..k], q, Signature(key));
    CallsStay(w, run, k, q);
  }

  lemma {:induction false} SignedByFound(w: World, run: seq<Action>, q: nat, key: CosignKey, cfg: CosignPolicy)
    requires Found(w, run, q, Signature(key)) && NulFree(cfg) && CosignPolicyKey(cfg) == key.policyKey
    ensures SignedBy(w, run, q, key, cfg)
  {
    FoundSignature(w, run, q, key);
    SameKeySameArgs(key.registry, key.repository, key.digest, cfg, After(w, run).procs[q].call.policy.cosign);
  }

  /**
   Over all interleavings, and for any verifiers: a request whose policy requires a signature and holds no NUL is
   allowed only if some request of the run, itself or another, ran its verifier successfully on this very digest
   with this very command line, or the store held a success under the key before the run.
   */
  lemma {:induction false} AllowedByOwnCommand(w: World, run: seq<Action>, i: nat)
    requires Valid(w.db) && RunOk(run) && i < |After(w, run).procs|
    requires NulFree(After(w, run).procs[i].call.policy.cosign)
    ensures var p := After(w, run).procs[i];
            var about := Initial(p.call).subject;
            var key := CosignKeyOf(about.image, about.digest, p.call.policy);
            Guarded(p.call) && p.decision.allowed && p.call.policy.cosign.required ==>
              Verified(w.db, key) || exists q :: SignedBy(w, run, q, key, p.call.policy.cosign)
  {
    var p := After(w, run).procs[i];
    var about := Initial(p.call).subject;
    var key := CosignKeyOf(about.image, about.digest, p.call.policy);
    AllowedIsGrounded(w, run, i);
    if Guarded(p.call) && p.decision.allowed && p.call.policy.cosign.required && !Verified(w.db, key) {
      var q :| Found(w, run, q, Signature(key));
      SignedByFound(w, run, q, key, p.call.policy.cosign);
    }
  }

  lemma {:induction false} CallsOfRun(w: World, run: seq<Action>, t: Trust, i: nat)
    requires OneVerifier(run, t) && i < |After(w, run).procs|
    ensures Entrusted(After(w, run).procs[i].call, t)
  {
    AlwaysAsks(w, run, t);
  }

  /** A request that ran its verifier needed a signature. */
  lemma {:induction false} FoundAmongPolicies(w: World, run: seq<Action>, q: nat, key: CosignKey, t: Trust)
    requires OneVerifier(run, t) && Found(w, run, q, Signature(key))
    ensures exists cfg :: cfg in t.policies && CosignPolicyKey(cfg) == key.policyKey && Succeeds(t.verify, key, cfg)
  {
    var k :| 0 <= k < |run| && run[k] == Advance(q) && FindsAt(w, run[..k], q, Signature(key));
    AlwaysAsks(w, run[..k], t);
    assert After(w, run[..k]).procs[q].call.policy.cosign in t.policies;
  }

  /** Every success the cache holds, at any time, is what the verifier says of some of the policies with its key. */
  lemma {:induction false} CacheStaysSound(w: World, run: seq<Action>, t: Trust)
    requires Valid(w.db) && RunOk(run) && CacheSound(w.db, t) && OneVerifier(run, t)
    ensures CacheSound(After(w, run).world.db, t)
  {
    var rows := After(w, run).world.db.cosign.rows;
    InvariantHolds(w, run);
    forall id | id in rows && rows[id].success != 0
      ensures exists cfg :: cfg in t.policies && CosignPolicyKey(cfg) == rows[id].key.policyKey
                            && Succeeds(t.verify, rows[id].key, cfg)
    {
      var key := rows[id].key;
      assert VerifiedBy(w, run, key);
      if !Verified(w.db, key) {
        var q :| Found(w, run, q, Signature(key));
        FoundAmongPolicies(w, run, q, key, t);
      }
    }
  }

  lemma {:induction false} SoundlyVerified(db: Database, key: CosignKey, cfg: CosignPolicy, t: Trust)
    requires CacheSound(db, t) && Transfers(t) && Verified(db, key)
    requires cfg in t.policies && CosignPolicyKey(cfg) == key.policyKey
    ensures Succeeds(t.verify, key, cfg)
  {
    var id :| id in db.cosign.rows && db.cosign.rows[id].key == key && db.cosign.rows[id].success != 0;
    var other :| other in t.policies && CosignPolicyKey(other) == key.policyKey && Succeeds(t.verify, key, other);
    assert SharesKey(key, other, cfg);
  }

  /** Whenever a request hits the cache, running the verifier instead would have succeeded. */
  lemma {:induction false} HitsAreTrue(w: World, run: seq<Action>, t: Trust, i: nat)
    requires Valid(w.db) && RunOk(run) && CacheSound(w.db, t) && OneVerifier(run, t) && Transfers(t)
    requires var s := After(w, run);
             i < |s.procs| && s.procs[i].pc.AtCacheRead? && CacheHit(s.world.db, s.procs[i].call, s.procs[i].decision)
    ensures var p := After(w, run).procs[i]; Succeeds(t.verify, CacheKey(p.call, p.decision), p.call.policy.cosign)
  {
    var s, p := After(w, run), After(w, run).procs[i];
    InvariantHolds(w, run);
    CacheStaysSound(w, run, t);
    AlwaysAsks(w, run, t);
    CosignFound(s.world.db.cosign, CacheKey(p.call, p.decision));
    SoundlyVerified(s.world.db, CacheKey(p.call, p.decision), p.call.policy.cosign, t);
  }

  /** So, with one verifier, an allowed request that needs a signature has one, by that verifier and for its policy. */
  lemma {:induction false} AllowedIsSigned(w: World, run: seq<Action>, t: Trust, i: nat)
    requires Valid(w.db) && RunOk(run) && CacheSound(w.db, t) && OneVerifier(run, t) && Transfers(t)
    requires i < |After(w, run).procs|
    ensures var p := After(w, run).procs[i];
            var about := Initial(p.call).subject;
            Guarded(p.call) && p.decision.allowed && p.call.policy.cosign.required ==>
              Succeeds(t.verify, CosignKeyOf(about.image, about.digest, p.call.policy), p.call.policy.cosign)
  {
    var p := After(w, run).procs[i];
    var about := Initial(p.call).subject;
    var key := CosignKeyOf(about.image, about.digest, p.call.policy);
    CallsOfRun(w, run, t, i);
    AllowedIsGrounded(w, run, i);
    if Guarded(p.call) && p.decision.allowed && p.call.policy.cosign.required {
      if Verified(w.db, key) {
        SoundlyVerified(w.db, key, p.call.policy.cosign, t);
      } else {
        var q :| Found(w, run, q, Signature(key));
        FoundAmongPolicies(w, run, q, key, t);
        var cfg :| cfg in t.policies && CosignPolicyKey(cfg) == key.policyKey && Succeeds(t.verify, key, cfg);
        assert SharesKey(key, cfg, p.call.policy.cosign);
      }
    }
  }
}
