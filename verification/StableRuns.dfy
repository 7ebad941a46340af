/** The laws of known digests over interleavings: what a stored first-seen time means for every later request. */
module StableRuns {
  import opened Prelude
  import opened Tables
  import opened Quarantine
  import opened Runs
  import opened Laws
  import opened Machine
  import opened Protocol

  /** A tag under quarantine, a store that works, and a signature that holds if one is needed. */
  ghost predicate Ready(c: Call) {
    var about := Initial(c).subject;
    && Gated(c) && c.faults == map[]
    && (c.policy.cosign.required ==>
          Succeeds(c.verifier, CosignKeyOf(about.image, about.digest, c.policy), c.policy.cosign))
  }

  ghost predicate SeenAt(db: Database, c: Call, t: Seconds) {
    Observed(db, Initial(c).subject.image, Initial(c).subject.digest, t)
  }

  // ---------------------------------------------------------------- a request about a known digest

  /** What the decision says of overrides is what the request read. */
  predicate FlagsOk(p: Process) {
    && (p.decision.standing.frozen ==> p.view.freeze.Some?)
    && (p.decision.standing.manualApproval ==> p.view.approval.Some?)
    && (p.decision.standing.bypassed ==> p.view.bypass.Some?)
  }

  predicate Overrides(d: Decision) {
    d.standing.manualApproval || d.standing.bypassed
  }

  /** Denied as frozen, allowed by an override, or decided by the age alone, with the date that this implies. */
  predicate Concluded(d: Decision, c: Call, t: Seconds) {
    if d.standing.frozen then !d.allowed
    else if Overrides(d) then d.allowed
    else
      && (d.allowed <==> c.now >= Due(t, c.policy))
      && (!d.allowed ==> d.standing.nextAllowedAt == Some(Due(t, c.policy)))
  }

  predicate Admitted(d: Decision, c: Call, t: Seconds) {
    !d.allowed && !d.standing.frozen && (Overrides(d) || c.now >= Due(t, c.policy))
  }

  predicate Undecided(p: Process) {
    p.decision.standing == NO_STANDING && !p.decision.allowed
  }

  ghost predicate Placed(p: Process, c: Call, t: Seconds, db: Database) {
    match p.pc
    case AtFreeze => Undecided(p)
    case AtApproval => Undecided(p)
    case AtBypass => Undecided(p)
    case AtLookup => Undecided(p) && p.view.freeze.None?
    case AtInsert => false
    case AtReread => false
    case AtTouch =>
      Undecided(p) && p.view.freeze.None? && Stored(db, p) && p.observation.value.firstSeenAt == FromUnix(t)
    case AtCacheRead => Admitted(p.decision, c, t) && Stored(db, p) && c.policy.cosign.required
    case AtCacheWrite => Admitted(p.decision, c, t) && Stored(db, p) && p.answer.success
    case AtMark => Admitted(p.decision, c, t) && Stored(db, p)
    case AtDecision => Concluded(p.decision, c, t)
    case AtAudit => Concluded(p.decision, c, t)
    case Done => Concluded(p.decision, c, t)
  }

  ghost predicate OnTrack(p: Process, c: Call, t: Seconds, db: Database) {
    && p.call == c && p.failure.None? && p.decision.subject == Initial(c).subject
    && SeenAt(db, c, t) && FlagsOk(p) && Placed(p, c, t, db)
  }

  lemma {:induction false} ReadOnTrack(p: Process, c: Call, t: Seconds, db: Database)
    requires OnTrack(p, c, t, db) && Ready(c) && (p.pc.AtFreeze? || p.pc.AtApproval? || p.pc.AtBypass?)
    ensures OnTrack(StepRead(p, db), c, t, db)
  {
  }

  lemma {:induction false} LookupOnTrack(p: Process, c: Call, t: Seconds, db: Database)
    requires OnTrack(p, c, t, db) && Ready(c) && p.pc.AtLookup? && Valid(db)
    ensures StepObservation(p, db).1 == db && OnTrack(StepObservation(p, db).0, c, t, db)
  {
    var s := p.decision.subject;
    ObservationFound(db.observations, s.image, s.digest);
  }

  lemma {:induction false} TouchOnTrack(p: Process, c: Call, t: Seconds, db: Database)
    requires OnTrack(p, c, t, db) && Ready(c) && p.pc.AtTouch? && Valid(db)
    ensures OnTrack(StepTouch(p, db).0, c, t, StepTouch(p, db).1)
  {
    var obs := p.observation.value;
    UpdateObservationExtends(db, obs.id, Unix(c.now));
    var after := db.(observations := TouchObservation(db.observations, obs.id, Unix(c.now)));
    StoredStays(db, after, p);
    ObservedPersists(db, after, Initial(c).subject.image, Initial(c).subject.digest, t);
    AgeComparison(c.now, t, c.policy);
  }

  lemma {:induction false} CacheReadOnTrack(p: Process, c: Call, t: Seconds, db: Database)
    requires OnTrack(p, c, t, db) && Ready(c) && p.pc.AtCacheRead?
    ensures OnTrack(StepCacheRead(p, db), c, t, db)
  {
  }

  lemma {:induction false} CacheWriteOnTrack(p: Process, c: Call, t: Seconds, db: Database)
    requires OnTrack(p, c, t, db) && Ready(c) && p.pc.AtCacheWrite?
    ensures OnTrack(StepCacheWrite(p, db).0, c, t, StepCacheWrite(p, db).1)
  {
  }

  lemma {:induction false} MarkOnTrack(p: Process, c: Call, t: Seconds, db: Database)
    requires OnTrack(p, c, t, db) && Ready(c) && p.pc.AtMark? && Valid(db)
    ensures OnTrack(StepMark(p, db).0, c, t, StepMark(p, db).1)
  {
    MarkAndAllowExtends(db, c, p.observation.value.id, p.decision);
    ObservedPersists(db, StepMark(p, db).1, Initial(c).subject.image, Initial(c).subject.digest, t);
  }

  lemma {:induction false} LogOnTrack(p: Process, c: Call, t: Seconds, w: World)
    requires OnTrack(p, c, t, w.db) && Ready(c) && (p.pc.AtDecision? || p.pc.AtAudit?)
    ensures OnTrack(StepLog(p, w).0, c, t, StepLog(p, w).1.db)
  {
  }

  lemma {:induction false} StepOnTrack(p: Process, c: Call, t: Seconds, w: World)
    requires OnTrack(p, c, t, w.db) && Ready(c) && Valid(w.db)
    ensures OnTrack(Step(p, w).0, c, t, Step(p, w).1.db)
  {
    match p.pc
    case AtFreeze => ReadOnTrack(p, c, t, w.db);
    case AtApproval => ReadOnTrack(p, c, t, w.db);
    case AtBypass => ReadOnTrack(p, c, t, w.db);
    case AtLookup => LookupOnTrack(p, c, t, w.db);
    case AtTouch => TouchOnTrack(p, c, t, w.db);
    case AtCacheRead => CacheReadOnTrack(p, c, t, w.db);
    case AtCacheWrite => CacheWriteOnTrack(p, c, t, w.db);
    case AtMark => MarkOnTrack(p, c, t, w.db);
    case AtDecision => LogOnTrack(p, c, t, w);
    case AtAudit => LogOnTrack(p, c, t, w);
    case _ =>
  }

  /** Other requests and operator commands do not disturb it. */
  lemma {:induction false} IdleOnTrack(p: Process, c: Call, t: Seconds, before: Database, after: Database)
    requires OnTrack(p, c, t, before) && ObservationsStay(before, after)
    ensures OnTrack(p, c, t, after)
  {
    StoredStays(before, after, p);
    ObservedPersists(before, after, Initial(c).subject.image, Initial(c).subject.digest, t);
  }

  lemma {:induction false} BeginsOnTrack(c: Call, t: Seconds, db: Database)
    requires Ready(c) && SeenAt(db, c, t)
    ensures OnTrack(Begin(c), c, t, db)
  {
  }

  /** The request starts at step `k` of the run, as process `i`, when its digest has a row from `t`. */
  ghost predicate StartsKnown(w: World, run: seq<Action>, k: nat, i: nat, c: Call, t: Seconds) {
    && k < |run| && run[k] == Start(c) && i == |After(w, run[..k]).procs|
    && SeenAt(After(w, run[..k]).world.db, c, t)
  }

  lemma {:induction false} StaysOnTrack(w: World, run: seq<Action>, k: nat, i: nat, c: Call, t: Seconds)
    requires Valid(w.db) && RunOk(run) && Ready(c) && StartsKnown(w, run, k, i, c, t)
    ensures i < |After(w, run).procs| && OnTrack(After(w, run).procs[i], c, t, After(w, run).world.db)
    decreases |run|
  {
    var n := |run| - 1;
    var before, a := run[..n], run[n];
    assert run == before + [a] && before[..k] == run[..k];
    AfterOne(w, before, a);
    InvariantHolds(w, before);
    if k == n {
      BeginsOnTrack(c, t, After(w, before).world.db);
    } else {
      StaysOnTrack(w, before, k, i, c, t);
      var s := After(w, before);
      if a.Advance? && a.process < |s.procs| {
        AdvanceKeeps(w, before, a.process);
        if a.process == i {
          StepOnTrack(s.procs[i], c, t, s.world);
        } else {
          IdleOnTrack(s.procs[i], c, t, s.world.db, After(w, run).world.db);
        }
      } else {
        OtherActionKeeps(w, before, a);
        IdleOnTrack(s.procs[i], c, t, s.world.db, After(w, run).world.db);
      }
    }
  }

  // ---------------------------------------------------------------- the freezes it saw

  ghost predicate FrozenAt(w: World, run: seq<Action>, i: nat) {
    var s := After(w, run);
    i < |s.procs| && s.procs[i].pc.AtFreeze?
    && var c := s.procs[i].call;
       Frozen(s.world.db, Initial(c).subject.image, Initial(c).subject.digest, c.now)
  }

  /** When request `i` read the freezes, one was active. */
  ghost predicate SawFreeze(w: World, run: seq<Action>, i: nat) {
    exists k :: 0 <= k < |run| && run[k] == Advance(i) && FrozenAt(w, run[..k], i)
  }

  lemma {:induction false} SawFreezeStays(w: World, run: seq<Action>, a: Action, i: nat)
    requires SawFreeze(w, run, i)
    ensures SawFreeze(w, run + [a], i)
  {
    var k :| 0 <= k < |run| && run[k] == Advance(i) && FrozenAt(w, run[..k], i);
    assert (run + [a])[..k] == run[..k] && (run + [a])[k] == run[k];
  }

  lemma {:induction false} SawFreezeNow(w: World, run: seq<Action>, i: nat)
    requires FrozenAt(w, run, i)
    ensures SawFreeze(w, run + [Advance(i)], i)
  {
    var next := run + [Advance(i)];
    assert next[..|run|] == run && next[|run|] == Advance(i);
  }

  lemma {:induction false} OnlyReadSetsFreeze(p: Process, w: World)
    requires p.view.freeze.None? && Step(p, w).0.view.freeze.Some?
    ensures p.pc.AtFreeze?
    ensures ActiveFreeze(w.db.freezes, p.decision.subject.image, p.decision.subject.digest, p.call.now).Some?
  {
  }

  /** A freeze in the view of a request was there when it looked. */
  lemma {:induction false} FreezesAreSeen(w: World, run: seq<Action>, i: nat)
    requires Valid(w.db) && RunOk(run) && i < |After(w, run).procs|
    ensures After(w, run).procs[i].view.freeze.Some? ==> SawFreeze(w, run, i)
    decreases |run|
  {
    if run != [] && After(w, run).procs[i].view.freeze.Some? {
      var n := |run| - 1;
      var before, a := run[..n], run[n];
      assert run == before + [a];
      var s := After(w, before);
      AfterOne(w, before, a);
      InvariantHolds(w, before);
      if i < |s.procs| {
        FreezesAreSeen(w, before, i);
        if s.procs[i].view.freeze.Some? {
          SawFreezeStays(w, before, a, i);
        } else {
          var p := s.procs[i];
          OnlyReadSetsFreeze(p, s.world);
          assert ProcessOk(w, before, i, p, s.world.db);
          ReadsMeaning(s.world.db, p.decision.subject.image, p.decision.subject.digest, p.call.now);
          SawFreezeNow(w, before, i);
        }
      }
    }
  }

  // ---------------------------------------------------------------- the laws

  /**
   The exact decision about a known digest, over every interleaving: a request that starts when its digest has a row
   from `t` ends denied because it saw an active freeze, or allowed because it found an approval or a bypass, or it is
   allowed if and only if the row is due by then, and a denial says when that is.
   */
  lemma {:induction false} KnownDigestDecided(w: World, run: seq<Action>, k: nat, i: nat, c: Call, t: Seconds)
    requires Valid(w.db) && RunOk(run) && Ready(c) && StartsKnown(w, run, k, i, c, t)
    ensures i < |After(w, run).procs|
    ensures var p := After(w, run).procs[i];
            Settled(p.pc) ==>
              && p.failure.None? && Concluded(p.decision, c, t)
              && (p.decision.standing.frozen ==> SawFreeze(w, run, i))
              && (Overrides(p.decision) ==> Found(w, run, i, AnApproval) || Found(w, run, i, ABypass))
  {
    StaysOnTrack(w, run, k, i, c, t);
    FreezesAreSeen(w, run, i);
    InvariantHolds(w, run);
    assert ProcessOk(w, run, i, After(w, run).procs[i], After(w, run).world.db);
  }

  /** A first-seen time that a run accounts for is in the table. */
  lemma {:induction false} FirstSeenIsStored(w: World, run: seq<Action>, image: TagKey, digest: string, t: Seconds)
    requires Valid(w.db) && RunOk(run) && FirstSeenBy(w, run, image, digest, t)
    ensures Observed(After(w, run).world.db, image, digest, t)
  {
    if Observed(w.db, image, digest, t) {
      assert run[..0] == [];
      ObservationsStayInRun(w, run, 0);
      ObservedPersists(w.db, After(w, run).world.db, image, digest, t);
    } else {
      var q :| Found(w, run, q, NewRow(image, digest, t));
      var k :| 0 <= k < |run| && run[k] == Advance(q) && FindsAt(w, run[..k], q, NewRow(image, digest, t));
      InsertedIsStored(w, run, k, q, image, digest, t);
    }
  }

  lemma {:induction false} InsertedIsStored(w: World, run: seq<Action>, k: nat, q: nat, image: TagKey, digest: string,
                                            t: Seconds)
    requires Valid(w.db) && RunOk(run) && k < |run| && run[k] == Advance(q)
    requires FindsAt(w, run[..k], q, NewRow(image, digest, t))
    ensures Observed(After(w, run).world.db, image, digest, t)
  {
    var s := After(w, run[..k]);
    var p := s.procs[q];
    InvariantHolds(w, run[..k]);
    assert ProcessOk(w, run[..k], q, p, s.world.db);
    assert run[..k + 1] == run[..k] + [run[k]];
    AfterOne(w, run[..k], run[k]);
    InsertIsObserved(s.world.db, image, digest, t);
    ObservationsStayInRun(w, run, k + 1);
    ObservedPersists(After(w, run[..k + 1]).world.db, After(w, run).world.db, image, digest, t);
  }

  lemma {:induction false} InsertIsObserved(db: Database, image: TagKey, digest: string, t: Seconds)
    requires forall s :: !Observed(db, image, digest, s)
    ensures Observed(db.(observations := InsertObservation(db.observations, image, digest, t)), image, digest, t)
  {
    var found, after := WithKey(db.observations, image, digest), InsertObservation(db.observations, image, digest, t);
    NonEmpty(found);
    if found != map[] {
      var id :| id in found;
      assert Observed(db, image, digest, db.observations.rows[id].firstSeen);
    }
    assert after.rows[after.last].firstSeen == t;
  }

  lemma {:induction false} SeenRowIsStored(w: World, run: seq<Action>, j: nat, t: Seconds)
    requires Valid(w.db) && RunOk(run) && SawRow(w, run, j, t)
    ensures j < |After(w, run).procs| && SeenAt(After(w, run).world.db, After(w, run).procs[j].call, t)
  {
    var k :| 0 <= k < |run| && run[k] == Advance(j) && SeesRow(w, run[..k], j, t);
    var about := Initial(After(w, run[..k]).procs[j].call).subject;
    CallsStay(w, run, k, j);
    FirstSeenIsStored(w, run[..k], about.image, about.digest, t);
    ObservationsStayInRun(w, run, k);
    ObservedPersists(After(w, run[..k]).world.db, After(w, run).world.db, about.image, about.digest, t);
  }

  /** The later request is about the same tag and digest, under no longer an age, and not earlier. */
  predicate Follows(c: Call, earlier: Call) {
    && Initial(c).subject.image == Initial(earlier).subject.image
    && Initial(c).subject.digest == Initial(earlier).subject.digest
    && c.policy.mutableTags.minDigestAge <= earlier.policy.mutableTags.minDigestAge && earlier.now <= c.now
  }

  /**
   Stability over every interleaving: once a request has found a row that was due, every request about the same tag
   and digest that starts later is allowed, unless it sees an active freeze itself.
   */
  lemma {:induction false} OnceDueAllowedInRuns(w: World, run: seq<Action>, k: nat, j: nat, i: nat, c: Call, t: Seconds)
    requires Valid(w.db) && RunOk(run) && Ready(c)
    requires k < |run| && run[k] == Start(c) && i == |After(w, run[..k]).procs| && j < i
    requires var earlier := After(w, run[..k]).procs[j].call;
             SawRow(w, run[..k], j, t) && earlier.now >= Due(t, earlier.policy) && Follows(c, earlier)
    ensures i < |After(w, run).procs|
    ensures var p := After(w, run).procs[i];
            Settled(p.pc) ==> p.failure.None? && (p.decision.allowed || SawFreeze(w, run, i))
  {
    SeenRowIsStored(w, run[..k], j, t);
    KnownDigestDecided(w, run, k, i, c, t);
  }

  // ---------------------------------------------------------------- reported deadlines

  /** A date that a decision reports is that of a row in the table. */
  ghost predicate DeadlineOk(p: Process, db: Database) {
    p.decision.standing.nextAllowedAt.Some? ==>
      exists t :: SeenAt(db, p.call, t) && p.decision.standing.nextAllowedAt.value == Due(t, p.call.policy)
  }

  lemma {:induction false} OnlyRowsSetDeadlines(p: Process, w: World)
    requires Step(p, w).0.decision.standing.nextAllowedAt.Some?
    requires !p.pc.AtReread? && !p.pc.AtTouch?
    ensures Step(p, w).0.decision.standing.nextAllowedAt == p.decision.standing.nextAllowedAt
  {
    match p.pc
    case AtLookup =>
    case AtInsert =>
    case AtCacheRead =>
    case AtCacheWrite =>
    case AtMark =>
    case _ =>
  }

  lemma {:induction false} RereadSetsDeadline(p: Process, w: World)
    requires p.pc.AtReread? && Valid(w.db) && p.decision.subject == Initial(p.call).subject && DeadlineOk(p, w.db)
    ensures DeadlineOk(Step(p, w).0, Step(p, w).1.db)
  {
    var s := p.decision.subject;
    var found := GetObservation(w.db.observations, s.image, s.digest);
    ObservedMeaning(w.db.observations, w.db, s.image, s.digest);
    ObservationFound(w.db.observations, s.image, s.digest);
    if RereadObservation !in p.call.faults && found.Some? {
      var t := Unix(found.value.firstSeenAt);
      assert SeenAt(w.db, p.call, t) && found.value.firstSeenAt + p.call.policy.mutableTags.minDigestAge
                                        == Due(t, p.call.policy);
    }
  }

  lemma {:induction false} TouchSetsDeadline(p: Process, w: World)
    requires p.pc.AtTouch? && Valid(w.db) && Stored(w.db, p) && DeadlineOk(p, w.db)
    ensures DeadlineOk(Step(p, w).0, Step(p, w).1.db)
  {
    var obs := p.observation.value;
    if TouchSeen !in p.call.faults {
      UpdateObservationExtends(w.db, obs.id, Unix(p.call.now));
      var after := w.db.(observations := TouchObservation(w.db.observations, obs.id, Unix(p.call.now)));
      var t := w.db.observations.rows[obs.id].firstSeen;
      assert SeenAt(w.db, p.call, t);
      ObservedPersists(w.db, after, Initial(p.call).subject.image, Initial(p.call).subject.digest, t);
      DeadlineStays(p, w.db, after);
      assert obs.firstSeenAt + p.call.policy.mutableTags.minDigestAge == Due(t, p.call.policy);
    }
  }

  lemma {:induction false} DeadlineStays(p: Process, before: Database, after: Database)
    requires DeadlineOk(p, before) && ObservationsStay(before, after)
    ensures DeadlineOk(p, after)
  {
    if p.decision.standing.nextAllowedAt.Some? {
      var t :| SeenAt(before, p.call, t) && p.decision.standing.nextAllowedAt.value == Due(t, p.call.policy);
      ObservedPersists(before, after, Initial(p.call).subject.image, Initial(p.call).subject.digest, t);
    }
  }

  lemma {:induction false} StepKeepsDeadline(w: World, run: seq<Action>, i: nat, p: Process, v: World)
    requires ProcessOk(w, run, i, p, v.db) && Valid(v.db) && DeadlineOk(p, v.db)
    requires ObservationsStay(v.db, Step(p, v).1.db)
    ensures DeadlineOk(Step(p, v).0, Step(p, v).1.db)
  {
    if p.pc.AtReread? {
      RereadSetsDeadline(p, v);
    } else if p.pc.AtTouch? {
      TouchSetsDeadline(p, v);
    } else if Step(p, v).0.decision.standing.nextAllowedAt.Some? {
      OnlyRowsSetDeadlines(p, v);
      DeadlineStays(p, v.db, Step(p, v).1.db);
      StepKeepsCall(p, v);
    }
  }

  lemma {:induction false} StepKeepsCall(p: Process, v: World)
    ensures Step(p, v).0.call == p.call
  {
  }

  lemma {:induction false} BegunHasNoDeadline(c: Call, db: Database)
    ensures DeadlineOk(Begin(c), db)
  {
  }

  lemma {:induction false} AdvanceKeepsDeadlines(w: World, run: seq<Action>, i: nat, j: nat)
    requires Valid(w.db) && RunOk(run)
    requires var s := After(w, run); i < |s.procs| && j < |s.procs| && DeadlineOk(s.procs[j], s.world.db)
    ensures var s := After(w, run + [Advance(i)]); j < |s.procs| && DeadlineOk(s.procs[j], s.world.db)
  {
    var s := After(w, run);
    AfterOne(w, run, Advance(i));
    InvariantHolds(w, run);
    AdvanceKeeps(w, run, i);
    if i == j {
      assert ProcessOk(w, run, j, s.procs[j], s.world.db);
      StepKeepsDeadline(w, run, j, s.procs[j], s.world);
    } else {
      DeadlineStays(s.procs[j], s.world.db, After(w, run + [Advance(i)]).world.db);
    }
  }

  lemma {:induction false} OtherKeepsDeadlines(w: World, run: seq<Action>, a: Action, j: nat)
    requires Valid(w.db) && RunOk(run + [a]) && !(a.Advance? && a.process < |After(w, run).procs|)
    requires var s := After(w, run); j < |s.procs| ==> DeadlineOk(s.procs[j], s.world.db)
    ensures var s := After(w, run + [a]); j < |s.procs| ==> DeadlineOk(s.procs[j], s.world.db)
  {
    var s := After(w, run);
    AfterOne(w, run, a);
    InvariantHolds(w, run);
    OtherActionKeeps(w, run, a);
    if j < |s.procs| {
      DeadlineStays(s.procs[j], s.world.db, After(w, run + [a]).world.db);
    } else if a.Start? {
      BegunHasNoDeadline(a.call, s.world.db);
    }
  }

  lemma {:induction false} DeadlinesAreStored(w: World, run: seq<Action>, j: nat)
    requires Valid(w.db) && RunOk(run) && j < |After(w, run).procs|
    ensures DeadlineOk(After(w, run).procs[j], After(w, run).world.db)
    decreases |run|
  {
    if run != [] {
      var before, a := run[..|run| - 1], run[|run| - 1];
      assert run == before + [a];
      AfterOne(w, before, a);
      if j < |After(w, before).procs| {
        DeadlinesAreStored(w, before, j);
      }
      if a.Advance? && a.process < |After(w, before).procs| {
        AdvanceKeepsDeadlines(w, before, a.process, j);
      } else {
        OtherKeepsDeadlines(w, before, a, j);
      }
    }
  }

  /**
   Reported deadlines over every interleaving: after a request has reported T, a request about the same tag and digest
   that starts later, with the same age and without a freeze, an approval or a bypass, is allowed if and only if it
   starts at T or after it, and otherwise reports the same T.
   */
  lemma {:induction false} NextAllowedAtInRuns(w: World, run: seq<Action>, k: nat, j: nat, i: nat, c: Call, T: Time)
    requires Valid(w.db) && RunOk(run) && Ready(c)
    requires k < |run| && run[k] == Start(c) && i == |After(w, run[..k]).procs| && j < i
    requires var q := After(w, run[..k]).procs[j];
             && q.decision.standing.nextAllowedAt == Some(T)
             && q.call.policy.mutableTags.minDigestAge == c.policy.mutableTags.minDigestAge
             && Initial(q.call).subject.image == Initial(c).subject.image
             && Initial(q.call).subject.digest == Initial(c).subject.digest
    ensures i < |After(w, run).procs|
    ensures var p := After(w, run).procs[i];
            Settled(p.pc) && !SawFreeze(w, run, i) && !Found(w, run, i, AnApproval) && !Found(w, run, i, ABypass) ==>
              && p.failure.None? && (p.decision.allowed <==> c.now >= T)
              && (!p.decision.allowed ==> p.decision.standing.nextAllowedAt == Some(T))
  {
    var q := After(w, run[..k]).procs[j];
    DeadlinesAreStored(w, run[..k], j);
    var t :| SeenAt(After(w, run[..k]).world.db, q.call, t) && T == Due(t, q.call.policy);
    KnownDigestDecided(w, run, k, i, c, t);
  }
}
