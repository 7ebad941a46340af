/**
 The six SQLite tables of internal/store/sqlite.go as values, and what each SQL statement does to
 them. A table maps row ids to rows; `last` is its AUTOINCREMENT sequence. Columns hold seconds and
 NULLs; the Go structs that the statements read and write hold nanoseconds and empty strings.
 */
module Tables {
  import opened Prelude
  import opened Verify

  /** Nanoseconds since the epoch. */
  type Time = int
  type Seconds = int

  const SECOND := 1_000_000_000

  /** `t.UTC().Unix()`: floor, also before the epoch. */
  function Unix(t: Time): Seconds { t / SECOND }

  /** `time.Unix(s, 0)` */
  function FromUnix(s: Seconds): (t: Time)
    ensures Unix(t) == s
  {
    s * SECOND
  }

  function NullableUnix(t: Option<Time>): Option<Seconds> {
    if t.Some? then Some(Unix(t.value)) else None
  }

  function ScanNullable(s: Option<Seconds>): (t: Option<Time>)
    ensures NullableUnix(t) == s
  {
    if s.Some? then Some(FromUnix(s.value)) else None
  }

  function NullableString(s: string): Option<string> {
    if s == "" then None else Some(s)
  }

  function ScanString(s: Option<string>): string {
    if s.Some? then s.value else ""
  }

  function BoolInt(b: bool): int {
    if b then 1 else 0
  }

  // ---------------------------------------------------------------- rows and structs

  const DECISION_ALLOW := "allow"
  const DECISION_DENY := "deny"
  const STATUS_QUARANTINED := "quarantined"

  datatype TagKey = TagKey(registry: string, repository: string, tag: string)

  datatype ObservationRow = ObservationRow(
    image: TagKey,
    digest: string,
    firstSeen: Seconds,
    lastSeen: Seconds,
    lastAllowed: Option<Seconds>,
    status: string)

  datatype Observation = Observation(
    id: int,
    image: TagKey,
    digest: string,
    firstSeenAt: Time,
    lastSeenAt: Time,
    lastAllowedAt: Option<Time>,
    status: string)

  /** The reasons the engine writes, each standing for its text; `Text` is any other text. */
  datatype Reason =
    | NoReason
    | TagAllowed
    | TagDenied
    | Fallback
    | Unresolved(error: string)
    | TagOrDigestFrozen
    | NewDigest
    | StillInQuarantine
    | PinnedDenied
    | PinnedAllowed
    | NotMarked(error: string)
    | ManuallyApproved
    | BypassActive
    | AgedAndVerified
    | Aged
    | CacheUnreadable(error: string)
    | CacheUnwritable(error: string)
    | CosignFailed(reason: string)
    | Text(text: string)

  /** The columns that `pull_decisions` and the audit log have in common. */
  datatype Entry = Entry(
    imageRef: string,
    image: TagKey,
    digest: string,
    decision: string,
    reason: Reason,
    clientUser: string,
    requestMethod: string,
    requestURI: string)

  datatype DecisionRow = DecisionRow(timestamp: Seconds, entry: Entry)
  datatype DecisionRecord = DecisionRecord(id: int, timestamp: Time, entry: Entry)

  datatype ApprovalRow = ApprovalRow(
    image: TagKey,
    digest: string,
    approvedAt: Seconds,
    approvedBy: string,
    reason: string,
    expiresAt: Option<Seconds>)

  datatype Approval = Approval(
    id: int,
    image: TagKey,
    digest: string,
    approvedAt: Time,
    approvedBy: string,
    reason: string,
    expiresAt: Option<Time>)

  /** A freeze without a digest stores NULL and covers every digest of the tag. */
  datatype FreezeRow = FreezeRow(
    image: TagKey,
    digest: Option<string>,
    createdAt: Seconds,
    createdBy: string,
    reason: string,
    expiresAt: Option<Seconds>)

  datatype Freeze = Freeze(
    id: int,
    image: TagKey,
    digest: string,
    createdAt: Time,
    createdBy: string,
    reason: string,
    expiresAt: Option<Time>)

  datatype BypassRow = BypassRow(
    image: TagKey,
    createdAt: Seconds,
    createdBy: string,
    reason: string,
    expiresAt: Option<Seconds>)

  datatype Bypass = Bypass(
    id: int,
    image: TagKey,
    createdAt: Time,
    createdBy: string,
    reason: string,
    expiresAt: Option<Time>)

  datatype CosignKey = CosignKey(registry: string, repository: string, digest: string, policyKey: Sha256)

  datatype CosignRow = CosignRow(key: CosignKey, imageRef: string, verifiedAt: Seconds, success: int, reason: string)

  datatype CosignVerification = CosignVerification(
    id: int,
    key: CosignKey,
    imageRef: string,
    verifiedAt: Time,
    success: bool,
    reason: string)

  datatype Table<R> = Table(rows: map<int, R>, last: int)

  datatype Database = Database(
    observations: Table<ObservationRow>,
    decisions: Table<DecisionRow>,
    approvals: Table<ApprovalRow>,
    freezes: Table<FreezeRow>,
    bypasses: Table<BypassRow>,
    cosign: Table<CosignRow>)

  function EmptyTable<R>(): Table<R> { Table(map[], 0) }

  const EMPTY_DATABASE :=
    Database(EmptyTable(), EmptyTable(), EmptyTable(), EmptyTable(), EmptyTable(), EmptyTable())

  // ---------------------------------------------------------------- what SQLite guarantees

  ghost predicate Sequenced<R>(t: Table<R>) {
    forall id :: id in t.rows ==> id <= t.last
  }

  predicate SameKey(row: ObservationRow, image: TagKey, digest: string) {
    row.image == image && row.digest == digest
  }

  ghost predicate UniqueObservations(t: Table<ObservationRow>) {
    forall i, j ::
      i in t.rows && j in t.rows && SameKey(t.rows[i], t.rows[j].image, t.rows[j].digest) ==> i == j
  }

  ghost predicate UniqueCosign(t: Table<CosignRow>) {
    forall i, j :: i in t.rows && j in t.rows && t.rows[i].key == t.rows[j].key ==> i == j
  }

  ghost predicate Valid(db: Database) {
    && Sequenced(db.observations) && Sequenced(db.decisions) && Sequenced(db.approvals)
    && Sequenced(db.freezes) && Sequenced(db.bypasses) && Sequenced(db.cosign)
    && UniqueObservations(db.observations) && UniqueCosign(db.cosign)
    && NoEmptyDigest(db.freezes) && BooleanSuccess(db.cosign)
  }

  /** The writers store NULL for a freeze without a digest, never an empty string ... */
  ghost predicate NoEmptyDigest(t: Table<FreezeRow>) {
    forall id :: id in t.rows ==> t.rows[id].digest != Some("")
  }

  /** ... and 0 or 1 for a verification result. */
  ghost predicate BooleanSuccess(t: Table<CosignRow>) {
    forall id :: id in t.rows ==> t.rows[id].success == BoolInt(t.rows[id].success != 0)
  }

  // ---------------------------------------------------------------- ORDER BY time DESC, id DESC LIMIT 1

  lemma {:induction false} NonEmpty(m: map<int, Seconds>)
    ensures m != map[] <==> exists k :: k in m
  {
    if forall k :: k !in m {
      assert m == map[];
    }
  }

  ghost predicate IsLatest(at: map<int, Seconds>, id: int) {
    id in at && forall j :: j in at ==> at[j] < at[id] || (at[j] == at[id] && j <= id)
  }

  lemma {:induction false} LatestExists(at: map<int, Seconds>) returns (id: int)
    requires at != map[]
    ensures IsLatest(at, id)
    decreases |at|
  {
    NonEmpty(at);
    id :| id in at;
    var rest := at - {id};
    if rest != map[] {
      var best := LatestExists(rest);
      assert forall j :: j in at ==> j == id || (j in rest && rest[j] == at[j]);
      if at[best] > at[id] || (at[best] == at[id] && best > id) { id := best; }
    } else {
      assert forall j :: j in at ==> j == id || j in rest;
    }
  }

  /** The id of the newest row among the selected ones. */
  ghost function LatestId(at: map<int, Seconds>): (r: Option<int>)
    ensures r.Some? ==> r.value in at
  {
    if at == map[] then None
    else
      assert exists id :: IsLatest(at, id) by { var id := LatestExists(at); }
      var id :| IsLatest(at, id);
      Some(id)
  }

  lemma {:induction false} LatestIdMeaning(at: map<int, Seconds>)
    ensures LatestId(at).None? <==> at == map[]
    ensures LatestId(at).Some? ==> IsLatest(at, LatestId(at).value)
  {
    if at != map[] {
      var id := LatestExists(at);
    }
  }

  /** The query itself, as a scan over the selected rows. */
  method SelectLatest(at: map<int, Seconds>) returns (r: Option<int>)
    ensures r == LatestId(at)
  {
    r := None;
    var todo := at.Keys;
    while todo != {}
      invariant todo <= at.Keys
      invariant r.None? ==> at.Keys <= todo
      invariant r.Some? ==> r.value in at && forall j :: j in at && j !in todo ==>
        at[j] < at[r.value] || (at[j] == at[r.value] && j <= r.value)
      decreases |todo|
    {
      SomeElement(todo);
      var id :| id in todo;
      todo := todo - {id};
      if r.None? || at[r.value] < at[id] || (at[r.value] == at[id] && r.value < id) {
        r := Some(id);
      }
    }
    LatestIdMeaning(at);
    if r.Some? {
      assert IsLatest(at, r.value);
    } else {
      assert at == map[];
    }
  }

  // ---------------------------------------------------------------- statements: observations

  function ScanObservation(id: int, row: ObservationRow): Observation {
    Observation(id, row.image, row.digest, FromUnix(row.firstSeen), FromUnix(row.lastSeen),
                ScanNullable(row.lastAllowed), row.status)
  }

  function WithKey(t: Table<ObservationRow>, image: TagKey, digest: string): map<int, Seconds> {
    map id | id in t.rows && SameKey(t.rows[id], image, digest) :: 0
  }

  ghost function GetObservation(t: Table<ObservationRow>, image: TagKey, digest: string): Option<Observation> {
    var id := LatestId(WithKey(t, image, digest));
    if id.None? then None else Some(ScanObservation(id.value, t.rows[id.value]))
  }

  function Insert<R>(t: Table<R>, row: R): Table<R> {
    Table(t.rows[t.last + 1 := row], t.last + 1)
  }

  /** `INSERT OR IGNORE`: a row with the same key wins, yet the sequence advances. */
  function InsertObservation(t: Table<ObservationRow>, image: TagKey, digest: string, at: Seconds)
    : Table<ObservationRow>
  {
    if WithKey(t, image, digest) != map[] then Table(t.rows, t.last + 1)
    else Insert(t, ObservationRow(image, digest, at, at, None, STATUS_QUARANTINED))
  }

  function TouchObservation(t: Table<ObservationRow>, id: int, at: Seconds): Table<ObservationRow> {
    if id in t.rows then Table(t.rows[id := t.rows[id].(lastSeen := at)], t.last) else t
  }

  function MarkObservationAllowed(t: Table<ObservationRow>, id: int, at: Seconds): Table<ObservationRow> {
    if id in t.rows then Table(t.rows[id := t.rows[id].(lastSeen := at, lastAllowed := Some(at))], t.last) else t
  }

  // ---------------------------------------------------------------- statements: overrides

  predicate Unexpired(expiresAt: Option<Seconds>, now: Seconds) {
    expiresAt.None? || expiresAt.value > now
  }

  predicate FreezeApplies(row: FreezeRow, image: TagKey, digest: string, now: Time) {
    row.image == image && (row.digest.None? || row.digest.value == digest) && Unexpired(row.expiresAt, Unix(now))
  }

  predicate ApprovalApplies(row: ApprovalRow, image: TagKey, digest: string, now: Time) {
    row.image == image && row.digest == digest && Unexpired(row.expiresAt, Unix(now))
  }

  predicate BypassApplies(row: BypassRow, image: TagKey, now: Time) {
    row.image == image && Unexpired(row.expiresAt, Unix(now))
  }

  function ActiveFreezes(t: Table<FreezeRow>, image: TagKey, digest: string, now: Time): map<int, Seconds> {
    map id | id in t.rows && FreezeApplies(t.rows[id], image, digest, now) :: t.rows[id].createdAt
  }

  function ActiveApprovals(t: Table<ApprovalRow>, image: TagKey, digest: string, now: Time): map<int, Seconds> {
    map id | id in t.rows && ApprovalApplies(t.rows[id], image, digest, now) :: t.rows[id].approvedAt
  }

  function ActiveBypasses(t: Table<BypassRow>, image: TagKey, now: Time): map<int, Seconds> {
    map id | id in t.rows && BypassApplies(t.rows[id], image, now) :: t.rows[id].createdAt
  }

  function ScanFreeze(id: int, row: FreezeRow): Freeze {
    Freeze(id, row.image, ScanString(row.digest), FromUnix(row.createdAt), row.createdBy, row.reason,
           ScanNullable(row.expiresAt))
  }

  function ScanApproval(id: int, row: ApprovalRow): Approval {
    Approval(id, row.image, row.digest, FromUnix(row.approvedAt), row.approvedBy, row.reason,
             ScanNullable(row.expiresAt))
  }

  function ScanBypass(id: int, row: BypassRow): Bypass {
    Bypass(id, row.image, FromUnix(row.createdAt), row.createdBy, row.reason, ScanNullable(row.expiresAt))
  }

  ghost function ActiveFreeze(t: Table<FreezeRow>, image: TagKey, digest: string, now: Time): Option<Freeze> {
    var id := LatestId(ActiveFreezes(t, image, digest, now));
    if id.None? then None else Some(ScanFreeze(id.value, t.rows[id.value]))
  }

  ghost function ActiveApproval(t: Table<ApprovalRow>, image: TagKey, digest: string, now: Time): Option<Approval> {
    var id := LatestId(ActiveApprovals(t, image, digest, now));
    if id.None? then None else Some(ScanApproval(id.value, t.rows[id.value]))
  }

  ghost function ActiveBypass(t: Table<BypassRow>, image: TagKey, now: Time): Option<Bypass> {
    var id := LatestId(ActiveBypasses(t, image, now));
    if id.None? then None else Some(ScanBypass(id.value, t.rows[id.value]))
  }

  datatype Override = Override(
    approval: Option<Approval>,
    freeze: Option<Freeze>,
    bypass: Option<Bypass>,
    decision: string)

  function CombineOverrides(freeze: Option<Freeze>, approval: Option<Approval>, bypass: Option<Bypass>): Override {
    Override(approval, freeze, bypass,
             if freeze.Some? then DECISION_DENY
             else if approval.Some? || bypass.Some? then DECISION_ALLOW
             else "")
  }

  ghost function LocalOverride(db: Database, image: TagKey, digest: string, now: Time): Override {
    CombineOverrides(ActiveFreeze(db.freezes, image, digest, now),
                     ActiveApproval(db.approvals, image, digest, now),
                     ActiveBypass(db.bypasses, image, now))
  }

  ghost predicate Frozen(db: Database, image: TagKey, digest: string, now: Time) {
    exists id :: id in db.freezes.rows && FreezeApplies(db.freezes.rows[id], image, digest, now)
  }

  ghost predicate Approved(db: Database, image: TagKey, digest: string, now: Time) {
    exists id :: id in db.approvals.rows && ApprovalApplies(db.approvals.rows[id], image, digest, now)
  }

  ghost predicate Bypassing(db: Database, image: TagKey, now: Time) {
    exists id :: id in db.bypasses.rows && BypassApplies(db.bypasses.rows[id], image, now)
  }

  /** Freeze over approval and bypass; a row of each kind is reported exactly if an active one exists. */
  lemma {:induction false} LocalOverrideMeaning(db: Database, image: TagKey, digest: string, now: Time)
    ensures var o := LocalOverride(db, image, digest, now);
            && (o.decision == DECISION_DENY <==> Frozen(db, image, digest, now))
            && (o.decision == DECISION_ALLOW <==>
                  !Frozen(db, image, digest, now) && (Approved(db, image, digest, now) || Bypassing(db, image, now)))
            && (o.freeze.Some? <==> Frozen(db, image, digest, now))
            && (o.approval.Some? <==> Approved(db, image, digest, now))
            && (o.bypass.Some? <==> Bypassing(db, image, now))
  {
    var freezes := ActiveFreezes(db.freezes, image, digest, now);
    var approvals := ActiveApprovals(db.approvals, image, digest, now);
    var bypasses := ActiveBypasses(db.bypasses, image, now);
    NonEmpty(freezes);
    NonEmpty(approvals);
    NonEmpty(bypasses);
    LatestIdMeaning(freezes);
    LatestIdMeaning(approvals);
    LatestIdMeaning(bypasses);
    assert forall id :: id in freezes <==>
      id in db.freezes.rows && FreezeApplies(db.freezes.rows[id], image, digest, now);
    assert forall id :: id in approvals <==>
      id in db.approvals.rows && ApprovalApplies(db.approvals.rows[id], image, digest, now);
    assert forall id :: id in bypasses <==>
      id in db.bypasses.rows && BypassApplies(db.bypasses.rows[id], image, now);
  }

  predicate Later(at: Seconds, id: int, than: Seconds, thanId: int) {
    than < at || (than == at && thanId <= id)
  }

  ghost predicate NewestFreeze(t: Table<FreezeRow>, image: TagKey, digest: string, now: Time, id: int) {
    id in t.rows && FreezeApplies(t.rows[id], image, digest, now)
    && forall j :: j in t.rows && FreezeApplies(t.rows[j], image, digest, now) ==>
         Later(t.rows[id].createdAt, id, t.rows[j].createdAt, j)
  }

  ghost predicate NewestApproval(t: Table<ApprovalRow>, image: TagKey, digest: string, now: Time, id: int) {
    id in t.rows && ApprovalApplies(t.rows[id], image, digest, now)
    && forall j :: j in t.rows && ApprovalApplies(t.rows[j], image, digest, now) ==>
         Later(t.rows[id].approvedAt, id, t.rows[j].approvedAt, j)
  }

  ghost predicate NewestBypass(t: Table<BypassRow>, image: TagKey, now: Time, id: int) {
    id in t.rows && BypassApplies(t.rows[id], image, now)
    && forall j :: j in t.rows && BypassApplies(t.rows[j], image, now) ==>
         Later(t.rows[id].createdAt, id, t.rows[j].createdAt, j)
  }

  /** The row reported for each kind of override is its newest active row, by time and then by id. */
  lemma {:induction false} ReportedRowsAreNewest(db: Database, image: TagKey, digest: string, now: Time)
    ensures var o := LocalOverride(db, image, digest, now);
            && (o.freeze.Some? ==>
                  var id := o.freeze.value.id;
                  NewestFreeze(db.freezes, image, digest, now, id)
                  && o.freeze.value == ScanFreeze(id, db.freezes.rows[id]))
            && (o.approval.Some? ==>
                  var id := o.approval.value.id;
                  NewestApproval(db.approvals, image, digest, now, id)
                  && o.approval.value == ScanApproval(id, db.approvals.rows[id]))
            && (o.bypass.Some? ==>
                  var id := o.bypass.value.id;
                  NewestBypass(db.bypasses, image, now, id) && o.bypass.value == ScanBypass(id, db.bypasses.rows[id]))
  {
    LatestIdMeaning(ActiveFreezes(db.freezes, image, digest, now));
    LatestIdMeaning(ActiveApprovals(db.approvals, image, digest, now));
    LatestIdMeaning(ActiveBypasses(db.bypasses, image, now));
    var o := LocalOverride(db, image, digest, now);
    if o.freeze.Some? {
      var at := ActiveFreezes(db.freezes, image, digest, now);
      assert forall j :: j in db.freezes.rows && FreezeApplies(db.freezes.rows[j], image, digest, now) ==>
        j in at && at[j] == db.freezes.rows[j].createdAt;
    }
    if o.approval.Some? {
      var at := ActiveApprovals(db.approvals, image, digest, now);
      assert forall j :: j in db.approvals.rows && ApprovalApplies(db.approvals.rows[j], image, digest, now) ==>
        j in at && at[j] == db.approvals.rows[j].approvedAt;
    }
    if o.bypass.Some? {
      var at := ActiveBypasses(db.bypasses, image, now);
      assert forall j :: j in db.bypasses.rows && BypassApplies(db.bypasses.rows[j], image, now) ==>
        j in at && at[j] == db.bypasses.rows[j].createdAt;
    }
  }

  // ---------------------------------------------------------------- statements: Cosign cache

  function ScanCosign(id: int, row: CosignRow): CosignVerification {
    CosignVerification(id, row.key, row.imageRef, FromUnix(row.verifiedAt), row.success != 0, row.reason)
  }

  function CosignWithKey(t: Table<CosignRow>, key: CosignKey): map<int, Seconds> {
    map id | id in t.rows && t.rows[id].key == key :: 0
  }

  ghost function GetCosign(t: Table<CosignRow>, key: CosignKey): Option<CosignVerification> {
    var id := LatestId(CosignWithKey(t, key));
    if id.None? then None else Some(ScanCosign(id.value, t.rows[id.value]))
  }

  /** `INSERT ... ON CONFLICT DO UPDATE`: the row with the key keeps its id; the sequence advances. */
  ghost function RecordCosign(t: Table<CosignRow>, row: CosignRow): Table<CosignRow> {
    var id := LatestId(CosignWithKey(t, row.key));
    if id.None? then Insert(t, row) else Table(t.rows[id.value := row], t.last + 1)
  }
}
