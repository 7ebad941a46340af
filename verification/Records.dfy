/** What the two logs say, column by column: for one request, and over every interleaving. */
module Records {
  import opened Tables
  import opened Quarantine
  import opened Machine
  import opened Logs

  // ---------------------------------------------------------------- one request

  /** The columns of a decision: `allow` if and only if the decision allows, what it is about, and who asked. */
  predicate Tells(e: Entry, c: Call, d: Decision) {
    && e.decision == (if d.allowed then "allow" else "deny") && e.reason == d.reason
    && e.imageRef == d.subject.imageRef && e.digest == d.subject.digest
    && e.image.registry == d.subject.image.registry && e.image.repository == d.subject.image.repository
    && e.image.tag == d.subject.image.tag
    && e.clientUser == c.request.clientUser && e.requestMethod == c.request.requestMethod
    && e.requestURI == c.request.requestURI
  }

  predicate RowTells(row: DecisionRow, c: Call, d: Decision) {
    row.timestamp == c.now / 1_000_000_000 && Tells(row.entry, c, d)
  }

  /** The audit event says the same, at the full time, and names the rule and what became of the signature. */
  predicate EventTells(e: Event, c: Call, d: Decision) {
    && e.timestamp == c.now && Tells(e.entry, c, d) && e.matchedRule == d.subject.matchedRule
    && e.cosignVerified == d.cosignVerified && e.cosignCached == d.cosignCached
  }

  /** One row more, which tells the decision; all others as they were. */
  ghost predicate RowAdded(before: Table<DecisionRow>, after: Table<DecisionRow>, c: Call, d: Decision) {
    && after.last == before.last + 1 && after.last !in before.rows
    && after.rows.Keys == before.rows.Keys + {after.last}
    && (forall id :: id in before.rows ==> after.rows[id] == before.rows[id])
    && RowTells(after.rows[after.last], c, d)
  }

  ghost predicate EventAdded(before: seq<Event>, after: seq<Event>, c: Call, d: Decision) {
    && |after| == |before| + 1 && after[..|before|] == before
    && EventTells(after[|before|], c, d)
  }

  lemma {:induction false} EntryTells(c: Call, d: Decision)
    ensures RowTells(DecisionRow(Unix(c.now), EntryOf(c, d)), c, d) && EventTells(EventOf(c, d), c, d)
  {
  }

  /**
   What one request leaves on record, in the words of the decision it returns: without an error, a row and, if
   audited, an event; with an error, nothing, but for the row before a failed audit write.
   */
  lemma {:induction false} RequestIsOnRecord(w: World, c: Call)
    requires Valid(w.db)
    ensures var (after, Outcome(d, failure)) := Decide(w, c);
            && (if failure.None? || failure.value == Failed(WriteAudit)
                then RowAdded(w.db.decisions, after.db.decisions, c, d)
                else after.db.decisions == w.db.decisions)
            && (if failure.None? && c.audited then EventAdded(w.audit, after.audit, c, d) else after.audit == w.audit)
  {
    DecideLogs(w, c);
    EntryTells(c, Decide(w, c).1.decision);
  }

  // ---------------------------------------------------------------- every interleaving

  /** The request has put its row into the table. */
  predicate HasRow(p: Process) {
    p.pc.AtAudit? || (p.pc.Done? && (p.failure.None? || p.failure.value == Failed(WriteAudit)))
  }

  /** The request has put its event into the log. */
  predicate HasEvent(p: Process) {
    p.pc.Done? && p.failure.None? && p.call.audited
  }

  function RowsOf(p: Process, row: DecisionRow): nat {
    One(HasRow(p) && RowTells(row, p.call, p.decision))
  }

  function EventsOf(p: Process, row: DecisionRow): nat {
    One(HasEvent(p) && RowTells(row, p.call, p.decision))
  }

  function Sum(procs: seq<Process>, row: DecisionRow, count: (Process, DecisionRow) -> nat): nat {
    if procs == [] then 0 else Sum(procs[..|procs| - 1], row, count) + count(procs[|procs| - 1], row)
  }

  lemma {:induction false} SumUpdate(procs: seq<Process>, i: nat, p: Process, row: DecisionRow,
                                     count: (Process, DecisionRow) -> nat)
    requires i < |procs|
    ensures Sum(procs[i := p], row, count) + count(procs[i], row) == Sum(procs, row, count) + count(p, row)
  {
    var n := |procs| - 1;
    if i == n {
      assert procs[i := p][..n] == procs[..n];
    } else {
      assert procs[i := p][..n] == procs[..n][i := p];
      SumUpdate(procs[..n], i, p, row, count);
    }
  }

  lemma {:induction false} SumAppend(procs: seq<Process>, p: Process, row: DecisionRow,
                                     count: (Process, DecisionRow) -> nat)
    ensures Sum(procs + [p], row, count) == Sum(procs, row, count) + count(p, row)
  {
    assert (procs + [p])[..|procs|] == procs;
  }

  /** The row determines what it tells. */
  lemma {:induction false} OneRowTells(row: DecisionRow, c: Call, d: Decision)
    ensures RowTells(row, c, d) <==> row == DecisionRow(Unix(c.now), EntryOf(c, d))
  {
  }

  /** A step that is not a write of a log changes neither log, nor what the request has in them. */
  lemma {:induction false} OtherStep(p: Process, w: World, row: DecisionRow)
    requires !p.pc.AtDecision? && !p.pc.AtAudit?
    ensures var (q, v) := Step(p, w);
            && v.db.decisions == w.db.decisions && v.audit == w.audit
            && RowsOf(q, row) == RowsOf(p, row) && EventsOf(q, row) == EventsOf(p, row)
  {
    match p.pc
    case AtLookup =>
    case AtInsert =>
    case AtReread =>
    case AtCacheRead =>
    case AtCacheWrite =>
    case AtMark =>
    case _ =>
  }

  /** A request that has not ended has not failed, and only an audited one comes to its audit write. */
  predicate OnItsWay(p: Process) {
    && (!p.pc.Done? ==> p.failure.None?)
    && (p.pc.AtAudit? ==> p.call.audited)
  }

  ghost predicate Accounted(w: World, s: State, row: DecisionRow) {
    && Grown(w, s.world)
    && Logged(s.world.db.decisions, w.db.decisions.last, row) == Sum(s.procs, row, RowsOf)
    && Audited(s.world.audit[|w.audit|..], row) == Sum(s.procs, row, EventsOf)
  }

  lemma {:induction false} RowStep(w: World, p: Process, v: World, row: DecisionRow)
    requires Grown(w, v) && p.pc.AtDecision? && OnItsWay(p)
    ensures var (q, after) := StepLog(p, v);
            && Grown(w, after) && after.audit == v.audit && EventsOf(q, row) == EventsOf(p, row)
            && Logged(after.db.decisions, w.db.decisions.last, row) + RowsOf(p, row)
               == Logged(v.db.decisions, w.db.decisions.last, row) + RowsOf(q, row)
  {
    var added := DecisionRow(Unix(p.call.now), EntryOf(p.call, p.decision));
    OneRowTells(row, p.call, p.decision);
    LoggedInsert(v.db.decisions, w.db.decisions.last, added, row);
  }

  lemma {:induction false} EventStep(w: World, p: Process, v: World, row: DecisionRow)
    requires Grown(w, v) && p.pc.AtAudit? && OnItsWay(p)
    ensures var (q, after) := StepLog(p, v);
            && Grown(w, after) && after.db == v.db && RowsOf(q, row) == RowsOf(p, row)
            && Audited(after.audit[|w.audit|..], row) + EventsOf(p, row)
               == Audited(v.audit[|w.audit|..], row) + EventsOf(q, row)
  {
    OneRowTells(row, p.call, p.decision);
    AuditedAfter(v.audit, |w.audit|, EventOf(p.call, p.decision), row);
  }

  lemma {:induction false} AuditedAfter(events: seq<Event>, n: nat, e: Event, row: DecisionRow)
    requires n <= |events|
    ensures Audited((events + [e])[n..], row) == Audited(events[n..], row) + One(RowOf(e) == row)
  {
    AuditedAppend(events[n..], e, row);
    assert (events + [e])[n..] == events[n..] + [e];
  }

  ghost predicate AllOnTheirWay(procs: seq<Process>) {
    forall i :: 0 <= i < |procs| ==> OnItsWay(procs[i])
  }

  lemma {:induction false} StepStaysOnItsWay(p: Process, w: World)
    requires OnItsWay(p)
    ensures OnItsWay(Step(p, w).0)
  {
    match p.pc
    case AtLookup =>
    case AtInsert =>
    case AtCacheRead =>
    case AtCacheWrite =>
    case AtMark =>
    case _ =>
  }

  lemma {:induction false} AdvanceAccounted(w: World, s: State, i: nat, row: DecisionRow)
    requires Accounted(w, s, row) && AllOnTheirWay(s.procs) && i < |s.procs|
    ensures Accounted(w, Act(s, Advance(i)), row)
  {
    var p := s.procs[i];
    SumUpdate(s.procs, i, Step(p, s.world).0, row, RowsOf);
    SumUpdate(s.procs, i, Step(p, s.world).0, row, EventsOf);
    if p.pc.AtDecision? {
      RowStep(w, p, s.world, row);
    } else if p.pc.AtAudit? {
      EventStep(w, p, s.world, row);
    } else {
      OtherStep(p, s.world, row);
    }
  }

  lemma {:induction false} BeginAccounted(c: Call, row: DecisionRow)
    ensures RowsOf(Begin(c), row) == 0 && EventsOf(Begin(c), row) == 0 && OnItsWay(Begin(c))
  {
  }

  lemma {:induction false} ActAccounted(w: World, s: State, a: Action, row: DecisionRow)
    requires Accounted(w, s, row) && AllOnTheirWay(s.procs)
    ensures Accounted(w, Act(s, a), row) && AllOnTheirWay(Act(s, a).procs)
  {
    if a.Advance? {
      if a.process < |s.procs| {
        AdvanceAccounted(w, s, a.process, row);
        StepStaysOnItsWay(s.procs[a.process], s.world);
      }
    } else if a.Start? {
      BeginAccounted(a.call, row);
      SumAppend(s.procs, Begin(a.call), row, RowsOf);
      SumAppend(s.procs, Begin(a.call), row, EventsOf);
    }
  }

  /**
   Over every interleaving, failures included: each row occurs among the decision rows that a run has added exactly as
   often as there are requests of the run that have recorded just that decision, and among its audit events exactly
   as often as there are audited ones of them that have finished without an error.
   */
  lemma {:induction false} LogsTellDecisions(w: World, run: seq<Action>, row: DecisionRow)
    ensures Accounted(w, After(w, run), row) && AllOnTheirWay(After(w, run).procs)
    decreases |run|
  {
    if run != [] {
      var before := run[..|run| - 1];
      LogsTellDecisions(w, before, row);
      ActAccounted(w, After(w, before), run[|run| - 1], row);
    }
  }
}
