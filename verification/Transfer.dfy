/** State export and import (internal/store/sqlite.go:497-609). */
module Transfer {
  import opened Prelude
  import opened Tables

  datatype ExportedState = ExportedState(
    version: int,
    observations: seq<Observation>,
    decisions: seq<DecisionRecord>,
    approvals: seq<Approval>,
    freezes: seq<Freeze>,
    bypasses: seq<Bypass>,
    cosign: seq<CosignVerification>)

  // ---------------------------------------------------------------- reading: ORDER BY and scans

  lemma {:induction false} OneFewer(m: map<int, Seconds>, k: int)
    requires k in m
    ensures |m - {k}| < |m|
  {
    assert (m - {k}).Keys == m.Keys - {k};
  }

  /** The selected ids in ascending order of (time, id). */
  ghost function Ascending(at: map<int, Seconds>): (ids: seq<int>)
    ensures forall id :: id in at <==> id in ids
    ensures forall i :: 0 <= i < |ids| ==> ids[i] in at
    ensures forall i, j :: 0 <= i < j < |ids| ==> ids[i] != ids[j]
    decreases |at|
  {
    var last := LatestId(at);
    LatestIdMeaning(at);
    if last.None? then []
    else
      OneFewer(at, last.value);
      Ascending(at - {last.value}) + [last.value]
  }

  lemma {:induction false} Reassociate<T>(a: seq<T>, b: seq<T>, c: seq<T>)
    ensures (a + b) + c == a + (b + c)
  {
  }

  method OrderIds(at: map<int, Seconds>) returns (ids: seq<int>)
    ensures ids == Ascending(at)
  {
    ids := [];
    var rest := at;
    var next := SelectLatest(rest);
    while next.Some?
      invariant next == LatestId(rest)
      invariant Ascending(at) == Ascending(rest) + ids
      decreases |rest|
    {
      OneFewer(rest, next.value);
      Reassociate(Ascending(rest - {next.value}), [next.value], ids);
      ids := [next.value] + ids;
      rest := rest - {next.value};
      next := SelectLatest(rest);
    }
  }

  function Listing<R, S>(rows: map<int, R>, ids: seq<int>, scan: (int, R) -> S): seq<S>
    requires forall i :: 0 <= i < |ids| ==> ids[i] in rows
  {
    seq(|ids|, i requires 0 <= i < |ids| => scan(ids[i], rows[ids[i]]))
  }

  /** The `rows.Next()` loops of the list methods. */
  method ListRows<R, S>(rows: map<int, R>, ids: seq<int>, scan: (int, R) -> S) returns (list: seq<S>)
    requires forall i :: 0 <= i < |ids| ==> ids[i] in rows
    ensures list == Listing(rows, ids, scan)
  {
    list := [];
    for i := 0 to |ids|
      invariant list == Listing(rows, ids, scan)[..i]
    {
      list := list + [scan(ids[i], rows[ids[i]])];
    }
  }

  function ById<R>(t: Table<R>): map<int, Seconds> {
    map id | id in t.rows :: 0
  }

  function ByTimestamp(t: Table<DecisionRow>): map<int, Seconds> {
    map id | id in t.rows :: t.rows[id].timestamp
  }

  function ScanDecision(id: int, row: DecisionRow): DecisionRecord {
    DecisionRecord(id, FromUnix(row.timestamp), row.entry)
  }

  ghost function Export(db: Database): ExportedState {
    ExportedState(
      1,
      Listing(db.observations.rows, Ascending(ById(db.observations)), ScanObservation),
      Listing(db.decisions.rows, Ascending(ByTimestamp(db.decisions)), ScanDecision),
      Listing(db.approvals.rows, Ascending(ById(db.approvals)), ScanApproval),
      Listing(db.freezes.rows, Ascending(ById(db.freezes)), ScanFreeze),
      Listing(db.bypasses.rows, Ascending(ById(db.bypasses)), ScanBypass),
      Listing(db.cosign.rows, Ascending(ById(db.cosign)), ScanCosign))
  }

  predicate Before(at: map<int, Seconds>, i: int, j: int) {
    i in at && j in at && (at[i] < at[j] || (at[i] == at[j] && i < j))
  }

  ghost predicate Ordered(at: map<int, Seconds>, ids: seq<int>) {
    forall i, j :: 0 <= i < j < |ids| ==> Before(at, ids[i], ids[j])
  }

  lemma {:induction false} OrderedUpToLatest(at: map<int, Seconds>, ids: seq<int>, last: int)
    requires IsLatest(at, last) && Ordered(at - {last}, ids)
    requires forall i :: 0 <= i < |ids| ==> ids[i] in at - {last}
    ensures Ordered(at, ids + [last])
  {
    var all := ids + [last];
    forall i, j | 0 <= i < j < |all| ensures Before(at, all[i], all[j]) {
      assert all[i] == ids[i];
      if j < |ids| { assert all[j] == ids[j] && Before(at - {last}, ids[i], ids[j]); }
    }
  }

  lemma {:induction false} AscendingIsOrdered(at: map<int, Seconds>)
    ensures Ordered(at, Ascending(at))
    decreases |at|
  {
    var last := LatestId(at);
    LatestIdMeaning(at);
    if last.Some? {
      OneFewer(at, last.value);
      AscendingIsOrdered(at - {last.value});
      OrderedUpToLatest(at, Ascending(at - {last.value}), last.value);
    }
  }

  /** Every row is listed once, in the order of its time and id. */
  ghost predicate Listed<R(!new), S>(rows: map<int, R>, at: map<int, Seconds>, list: seq<S>, id: S -> int,
                                     scan: (int, R) -> S)
  {
    && (forall i :: 0 <= i < |list| ==> id(list[i]) in rows && list[i] == scan(id(list[i]), rows[id(list[i])]))
    && (forall k :: k in rows ==> exists i :: 0 <= i < |list| && id(list[i]) == k)
    && (forall i, j :: 0 <= i < j < |list| ==> Before(at, id(list[i]), id(list[j])))
  }

  /** Listing the rows under distinct ids in order. */
  lemma {:induction false} ListingIsOrdered<R(!new), S>(rows: map<int, R>, at: map<int, Seconds>, ids: seq<int>,
                                                        id: S -> int, scan: (int, R) -> S)
    requires (forall i :: 0 <= i < |ids| ==> ids[i] in rows) && (forall k :: k in rows ==> k in ids)
    requires Ordered(at, ids) && forall k, row :: id(scan(k, row)) == k
    ensures Listed(rows, at, Listing(rows, ids, scan), id, scan)
  {
    var list := Listing(rows, ids, scan);
    forall i | 0 <= i < |list| ensures id(list[i]) == ids[i] { }
    forall k | k in rows ensures exists i :: 0 <= i < |list| && id(list[i]) == k {
      var i :| 0 <= i < |ids| && ids[i] == k;
      assert id(list[i]) == k;
    }
  }

  /** The same, in the order of ids alone. */
  ghost predicate ListedById<R(!new), S>(rows: map<int, R>, list: seq<S>, id: S -> int, scan: (int, R) -> S) {
    && (forall i :: 0 <= i < |list| ==> id(list[i]) in rows && list[i] == scan(id(list[i]), rows[id(list[i])]))
    && (forall k :: k in rows ==> exists i :: 0 <= i < |list| && id(list[i]) == k)
    && (forall i, j :: 0 <= i < j < |list| ==> id(list[i]) < id(list[j]))
  }

  lemma {:induction false} ListingById<R(!new), S>(t: Table<R>, ids: seq<int>, id: S -> int, scan: (int, R) -> S)
    requires ids == Ascending(ById(t)) && forall k, row :: id(scan(k, row)) == k
    ensures ListedById(t.rows, Listing(t.rows, ids, scan), id, scan)
  {
    var at, list := ById(t), Listing(t.rows, ids, scan);
    AscendingIsOrdered(at);
    ListingIsOrdered(t.rows, at, ids, id, scan);
    forall i, j | 0 <= i < j < |list| ensures id(list[i]) < id(list[j]) {
      assert Before(at, id(list[i]), id(list[j]));
    }
  }

  /** An export lists every row of every table once: in the order of ids, and the decisions by time and then by id. */
  lemma {:induction false} ExportIsOrdered(db: Database)
    ensures var s := Export(db);
            && s.version == 1
            && ListedById(db.observations.rows, s.observations, (o: Observation) => o.id, ScanObservation)
            && ListedById(db.approvals.rows, s.approvals, (a: Approval) => a.id, ScanApproval)
            && ListedById(db.freezes.rows, s.freezes, (f: Freeze) => f.id, ScanFreeze)
            && ListedById(db.bypasses.rows, s.bypasses, (b: Bypass) => b.id, ScanBypass)
            && ListedById(db.cosign.rows, s.cosign, (v: CosignVerification) => v.id, ScanCosign)
            && Listed(db.decisions.rows, map id | id in db.decisions.rows :: db.decisions.rows[id].timestamp,
                      s.decisions, (d: DecisionRecord) => d.id, ScanDecision)
  {
    ListingById(db.observations, Ascending(ById(db.observations)), (o: Observation) => o.id, ScanObservation);
    ListingById(db.approvals, Ascending(ById(db.approvals)), (a: Approval) => a.id, ScanApproval);
    ListingById(db.freezes, Ascending(ById(db.freezes)), (f: Freeze) => f.id, ScanFreeze);
    ListingById(db.bypasses, Ascending(ById(db.bypasses)), (b: Bypass) => b.id, ScanBypass);
    ListingById(db.cosign, Ascending(ById(db.cosign)), (v: CosignVerification) => v.id, ScanCosign);
    DecisionsAreOrdered(db.decisions);
  }

  lemma {:induction false} DecisionsAreOrdered(t: Table<DecisionRow>)
    ensures Listed(t.rows, map id | id in t.rows :: t.rows[id].timestamp,
                   Listing(t.rows, Ascending(ByTimestamp(t)), ScanDecision), (d: DecisionRecord) => d.id, ScanDecision)
  {
    var at := ByTimestamp(t);
    assert at == map id | id in t.rows :: t.rows[id].timestamp;
    AscendingIsOrdered(at);
    ListingIsOrdered(t.rows, at, Ascending(at), (d: DecisionRecord) => d.id, ScanDecision);
  }

  // ---------------------------------------------------------------- writing: INSERT OR REPLACE

  function BindObservation(o: Observation): (int, ObservationRow) {
    (o.id, ObservationRow(o.image, o.digest, Unix(o.firstSeenAt), Unix(o.lastSeenAt), NullableUnix(o.lastAllowedAt),
                          o.status))
  }

  function BindDecision(d: DecisionRecord): (int, DecisionRow) {
    (d.id, DecisionRow(Unix(d.timestamp), d.entry))
  }

  function BindApproval(a: Approval): (int, ApprovalRow) {
    (a.id, ApprovalRow(a.image, a.digest, Unix(a.approvedAt), a.approvedBy, a.reason, NullableUnix(a.expiresAt)))
  }

  function BindFreeze(f: Freeze): (int, FreezeRow) {
    (f.id, FreezeRow(f.image, NullableString(f.digest), Unix(f.createdAt), f.createdBy, f.reason,
                     NullableUnix(f.expiresAt)))
  }

  function BindBypass(b: Bypass): (int, BypassRow) {
    (b.id, BypassRow(b.image, Unix(b.createdAt), b.createdBy, b.reason, NullableUnix(b.expiresAt)))
  }

  function BindCosign(v: CosignVerification): (int, CosignRow) {
    (v.id, CosignRow(v.key, v.imageRef, Unix(v.verifiedAt), BoolInt(v.success), v.reason))
  }

  function BindAll<R, S>(list: seq<S>, bind: S -> (int, R)): seq<(int, R)> {
    seq(|list|, i requires 0 <= i < |list| => bind(list[i]))
  }

  // The UNIQUE constraints, beyond the primary key.
  predicate SameObservation(a: ObservationRow, b: ObservationRow) { SameKey(a, b.image, b.digest) }
  predicate SameCosign(a: CosignRow, b: CosignRow) { a.key == b.key }
  predicate NeverSame<R>(a: R, b: R) { false }

  /** Rows with the same id or the same unique key are deleted, then the row is inserted. */
  function Replace<R>(t: Table<R>, same: (R, R) -> bool, id: int, row: R): Table<R> {
    Table((map i | i in t.rows && !same(t.rows[i], row) :: t.rows[i])[id := row], Max(t.last, id))
  }

  function ImportRows<R>(t: Table<R>, same: (R, R) -> bool, list: seq<(int, R)>): Table<R>
    decreases |list|
  {
    if list == [] then t
    else
      var (id, row) := list[|list| - 1];
      Replace(ImportRows(t, same, list[..|list| - 1]), same, id, row)
  }

  /** One of the six import loops; at a statement that fails nothing is returned. */
  method ImportLoop<R>(t: Table<R>, same: (R, R) -> bool, list: seq<(int, R)>, failing: Option<nat>)
    returns (result: Option<Table<R>>)
    ensures result == if failing.Some? && failing.value < |list| then None else Some(ImportRows(t, same, list))
  {
    var tx := t;
    for i := 0 to |list|
      invariant tx == ImportRows(t, same, list[..i]) && (failing.Some? ==> i <= failing.value)
    {
      if failing == Some(i) { return None; }
      assert list[..i + 1][..i] == list[..i];
      tx := Replace(tx, same, list[i].0, list[i].1);
    }
    assert list[..|list|] == list;
    result := Some(tx);
  }

  function Import(db: Database, s: ExportedState): Database {
    if s.version != 1 then db
    else
      Database(
        ImportRows(db.observations, SameObservation, BindAll(s.observations, BindObservation)),
        ImportRows(db.decisions, NeverSame, BindAll(s.decisions, BindDecision)),
        ImportRows(db.approvals, NeverSame, BindAll(s.approvals, BindApproval)),
        ImportRows(db.freezes, NeverSame, BindAll(s.freezes, BindFreeze)),
        ImportRows(db.bypasses, NeverSame, BindAll(s.bypasses, BindBypass)),
        ImportRows(db.cosign, SameCosign, BindAll(s.cosign, BindCosign)))
  }

  // ---------------------------------------------------------------- what a merge contains

  ghost predicate Holds<R(!new)>(t: Table<R>, id: int, row: R) {
    id in t.rows && t.rows[id] == row
  }

  predicate Clash<R>(same: (R, R) -> bool, a: (int, R), b: (int, R)) {
    a.0 == b.0 || same(a.1, b.1)
  }

  /** An existing row that no imported row displaces. */
  ghost predicate Kept<R(!new)>(t: Table<R>, same: (R, R) -> bool, list: seq<(int, R)>, id: int, row: R) {
    Holds(t, id, row) && forall j :: 0 <= j < |list| ==> !Clash(same, (id, row), list[j])
  }

  /** An imported row that no later imported row displaces. */
  ghost predicate Survives<R(!new)>(same: (R, R) -> bool, list: seq<(int, R)>, id: int, row: R) {
    exists j :: 0 <= j < |list| && list[j] == (id, row)
                && forall k :: j < k < |list| ==> !Clash(same, (id, row), list[k])
  }

  /** The merge contains the surviving imported rows, the kept existing rows, and nothing else. */
  ghost predicate Merged<R(!new)>(before: Table<R>, same: (R, R) -> bool, list: seq<(int, R)>, after: Table<R>) {
    forall id, row :: Holds(after, id, row) <==> Survives(same, list, id, row) || Kept(before, same, list, id, row)
  }

  lemma {:induction false} ImportRowsMerges<R(!new)>(t: Table<R>, same: (R, R) -> bool, list: seq<(int, R)>)
    ensures Merged(t, same, list, ImportRows(t, same, list))
    decreases |list|
  {
    if list != [] {
      var init, e := list[..|list| - 1], list[|list| - 1];
      var before, after := ImportRows(t, same, init), ImportRows(t, same, list);
      ImportRowsMerges(t, same, init);
      forall id, row
        ensures Holds(after, id, row) <==> Survives(same, list, id, row) || Kept(t, same, list, id, row)
      {
        assert Holds(after, id, row) <==> e == (id, row) || (Holds(before, id, row) && !Clash(same, (id, row), e));
        MergeStep(t, same, list, id, row);
      }
    }
  }

  lemma {:induction false} MergeStep<R(!new)>(t: Table<R>, same: (R, R) -> bool, list: seq<(int, R)>, id: int, row: R)
    requires list != []
    ensures var init, e := list[..|list| - 1], list[|list| - 1];
            && (Kept(t, same, list, id, row) <==> Kept(t, same, init, id, row) && !Clash(same, (id, row), e))
            && (Survives(same, list, id, row) <==>
                  e == (id, row) || (Survives(same, init, id, row) && !Clash(same, (id, row), e)))
  {
    var n := |list| - 1;
    var init := list[..n];
    if Survives(same, init, id, row) && !Clash(same, (id, row), list[n]) {
      var j :| 0 <= j < n && init[j] == (id, row) && forall k :: j < k < n ==> !Clash(same, (id, row), init[k]);
      assert list[j] == (id, row);
      assert forall k :: j < k < n ==> init[k] == list[k];
    }
    if Survives(same, list, id, row) && list[n] != (id, row) {
      var j :| 0 <= j <= n && list[j] == (id, row) && forall k :: j < k <= n ==> !Clash(same, (id, row), list[k]);
      assert init[j] == (id, row);
      assert forall k :: j < k < n ==> init[k] == list[k];
    }
    if Kept(t, same, init, id, row) && !Clash(same, (id, row), list[n]) {
      assert forall k :: 0 <= k < n ==> init[k] == list[k];
    }
    if Kept(t, same, list, id, row) {
      assert forall k :: 0 <= k < n ==> init[k] == list[k];
    }
  }

  lemma {:induction false} SameTable<R(!new)>(a: Table<R>, b: Table<R>)
    requires forall id, row :: Holds(a, id, row) <==> Holds(b, id, row)
    ensures a.rows == b.rows
  {
    forall id | id in a.rows ensures id in b.rows && b.rows[id] == a.rows[id] { assert Holds(a, id, a.rows[id]); }
    forall id | id in b.rows ensures id in a.rows { assert Holds(b, id, b.rows[id]); }
  }

  lemma {:induction false} ImportRowsLast<R>(t: Table<R>, same: (R, R) -> bool, list: seq<(int, R)>)
    ensures t.last <= ImportRows(t, same, list).last
    ensures forall j :: 0 <= j < |list| ==> list[j].0 <= ImportRows(t, same, list).last
    ensures (forall j :: 0 <= j < |list| ==> list[j].0 <= t.last) ==> ImportRows(t, same, list).last == t.last
    decreases |list|
  {
    if list != [] {
      ImportRowsLast(t, same, list[..|list| - 1]);
    }
  }

  lemma {:induction false} ImportRowsTwice<R(!new)>(t: Table<R>, same: (R, R) -> bool, list: seq<(int, R)>)
    ensures ImportRows(ImportRows(t, same, list), same, list) == ImportRows(t, same, list)
  {
    var once := ImportRows(t, same, list);
    var twice := ImportRows(once, same, list);
    ImportRowsMerges(t, same, list);
    ImportRowsMerges(once, same, list);
    forall id, row ensures Holds(twice, id, row) <==> Holds(once, id, row) {
      assert Kept(once, same, list, id, row) <==> Kept(t, same, list, id, row);
    }
    SameTable(twice, once);
    ImportRowsLast(t, same, list);
    ImportRowsLast(once, same, list);
  }

  ghost predicate UniqueRows<R>(t: Table<R>, same: (R, R) -> bool) {
    forall i, j :: i in t.rows && j in t.rows && same(t.rows[i], t.rows[j]) ==> i == j
  }

  ghost predicate Symmetric<R(!new)>(same: (R, R) -> bool) {
    forall a: R, b: R :: same(a, b) ==> same(b, a)
  }

  lemma {:induction false} ImportRowsValid<R(!new)>(t: Table<R>, same: (R, R) -> bool, list: seq<(int, R)>)
    requires Sequenced(t) && UniqueRows(t, same)
    requires Symmetric(same)
    ensures Sequenced(ImportRows(t, same, list)) && UniqueRows(ImportRows(t, same, list), same)
    decreases |list|
  {
    if list != [] {
      var (id, row) := list[|list| - 1];
      var before, after := ImportRows(t, same, list[..|list| - 1]), ImportRows(t, same, list);
      ImportRowsValid(t, same, list[..|list| - 1]);
      forall i, j | i in after.rows && j in after.rows && same(after.rows[i], after.rows[j]) ensures i == j {
        var a, b := after.rows[i], after.rows[j];
        assert same(a, b) ==> same(b, a);
        assert i != id ==> i in before.rows && before.rows[i] == after.rows[i] && !same(after.rows[i], row);
        assert j != id ==> j in before.rows && before.rows[j] == after.rows[j] && !same(after.rows[j], row);
      }
    }
  }

  // ---------------------------------------------------------------- exporting, then importing

  /** Whatever the order, a listing of a whole table imports into an empty one as the same rows. */
  lemma {:induction false} ImportListing<R(!new), S>(t: Table<R>, same: (R, R) -> bool, ids: seq<int>,
                                                     scan: (int, R) -> S, bind: S -> (int, R))
    requires UniqueRows(t, same) && (forall i :: 0 <= i < |ids| ==> ids[i] in t.rows)
    requires forall id :: id in t.rows ==> id in ids
    requires forall i, j :: 0 <= i < j < |ids| ==> ids[i] != ids[j]
    requires forall id :: id in t.rows ==> bind(scan(id, t.rows[id])) == (id, t.rows[id])
    ensures ImportRows(EmptyTable(), same, BindAll(Listing(t.rows, ids, scan), bind)).rows == t.rows
  {
    var list := BindAll(Listing(t.rows, ids, scan), bind);
    var after := ImportRows(EmptyTable(), same, list);
    ImportRowsMerges(EmptyTable(), same, list);
    assert forall i :: 0 <= i < |ids| ==> list[i] == (ids[i], t.rows[ids[i]]);
    forall id, row ensures Holds(after, id, row) <==> Holds(t, id, row) {
      if Holds(t, id, row) {
        var j :| 0 <= j < |ids| && ids[j] == id;
        assert list[j] == (id, row);
        assert forall k :: j < k < |list| ==> !Clash(same, (id, row), list[k]);
        assert Survives(same, list, id, row);
      }
      if Holds(after, id, row) {
        assert Survives(same, list, id, row);
      }
    }
    SameTable(after, t);
  }

  ghost predicate SameRows(a: Database, b: Database) {
    && a.observations.rows == b.observations.rows && a.decisions.rows == b.decisions.rows
    && a.approvals.rows == b.approvals.rows && a.freezes.rows == b.freezes.rows
    && a.bypasses.rows == b.bypasses.rows && a.cosign.rows == b.cosign.rows
  }

  /** Round trip: an empty store that imports an export has the exported rows, and exports the same. */
  lemma {:induction false} ExportThenImport(db: Database)
    requires Valid(db)
    ensures SameRows(Import(EMPTY_DATABASE, Export(db)), db)
    ensures Export(Import(EMPTY_DATABASE, Export(db))) == Export(db)
  {
    ObservationsRoundTrip(db.observations);
    DecisionsRoundTrip(db.decisions);
    ApprovalsRoundTrip(db.approvals);
    FreezesRoundTrip(db.freezes);
    BypassesRoundTrip(db.bypasses);
    CosignRoundTrip(db.cosign);
    SameRowsSameExport(Import(EMPTY_DATABASE, Export(db)), db);
  }

  lemma {:induction false} ObservationsRoundTrip(t: Table<ObservationRow>)
    requires UniqueObservations(t)
    ensures ImportRows(EmptyTable(), SameObservation,
                       BindAll(Listing(t.rows, Ascending(ById(t)), ScanObservation), BindObservation)).rows == t.rows
  {
    ImportListing(t, SameObservation, Ascending(ById(t)), ScanObservation, BindObservation);
  }

  lemma {:induction false} DecisionsRoundTrip(t: Table<DecisionRow>)
    ensures ImportRows(EmptyTable(), NeverSame,
                       BindAll(Listing(t.rows, Ascending(ByTimestamp(t)), ScanDecision), BindDecision)).rows == t.rows
  {
    ImportListing(t, NeverSame, Ascending(ByTimestamp(t)), ScanDecision, BindDecision);
  }

  lemma {:induction false} ApprovalsRoundTrip(t: Table<ApprovalRow>)
    ensures ImportRows(EmptyTable(), NeverSame,
                       BindAll(Listing(t.rows, Ascending(ById(t)), ScanApproval), BindApproval)).rows == t.rows
  {
    ImportListing(t, NeverSame, Ascending(ById(t)), ScanApproval, BindApproval);
  }

  lemma {:induction false} FreezesRoundTrip(t: Table<FreezeRow>)
    requires NoEmptyDigest(t)
    ensures ImportRows(EmptyTable(), NeverSame,
                       BindAll(Listing(t.rows, Ascending(ById(t)), ScanFreeze), BindFreeze)).rows == t.rows
  {
    ImportListing(t, NeverSame, Ascending(ById(t)), ScanFreeze, BindFreeze);
  }

  lemma {:induction false} BypassesRoundTrip(t: Table<BypassRow>)
    ensures ImportRows(EmptyTable(), NeverSame,
                       BindAll(Listing(t.rows, Ascending(ById(t)), ScanBypass), BindBypass)).rows == t.rows
  {
    ImportListing(t, NeverSame, Ascending(ById(t)), ScanBypass, BindBypass);
  }

  lemma {:induction false} CosignRoundTrip(t: Table<CosignRow>)
    requires UniqueCosign(t) && BooleanSuccess(t)
    ensures ImportRows(EmptyTable(), SameCosign,
                       BindAll(Listing(t.rows, Ascending(ById(t)), ScanCosign), BindCosign)).rows == t.rows
  {
    ImportListing(t, SameCosign, Ascending(ById(t)), ScanCosign, BindCosign);
  }

  lemma {:induction false} SameRowsSameExport(a: Database, b: Database)
    requires SameRows(a, b)
    ensures Export(a) == Export(b)
  {
    assert ById(a.observations) == ById(b.observations) && ById(a.approvals) == ById(b.approvals);
    assert ById(a.freezes) == ById(b.freezes) && ById(a.bypasses) == ById(b.bypasses);
    assert ById(a.cosign) == ById(b.cosign) && ByTimestamp(a.decisions) == ByTimestamp(b.decisions);
  }

  /** Importing the same state again changes nothing, not even a sequence. */
  lemma {:induction false} ImportTwice(db: Database, s: ExportedState)
    ensures Import(Import(db, s), s) == Import(db, s)
  {
    if s.version == 1 {
      ImportRowsTwice(db.observations, SameObservation, BindAll(s.observations, BindObservation));
      ImportRowsTwice(db.decisions, NeverSame, BindAll(s.decisions, BindDecision));
      ImportRowsTwice(db.approvals, NeverSame, BindAll(s.approvals, BindApproval));
      ImportRowsTwice(db.freezes, NeverSame, BindAll(s.freezes, BindFreeze));
      ImportRowsTwice(db.bypasses, NeverSame, BindAll(s.bypasses, BindBypass));
      ImportRowsTwice(db.cosign, SameCosign, BindAll(s.cosign, BindCosign));
    }
  }

  /** Table by table, exactly what an import leaves: unrelated local rows are not wiped. */
  lemma {:induction false} ImportMerges(db: Database, s: ExportedState)
    requires s.version == 1
    ensures var after := Import(db, s);
            && Merged(db.observations, SameObservation, BindAll(s.observations, BindObservation), after.observations)
            && Merged(db.decisions, NeverSame, BindAll(s.decisions, BindDecision), after.decisions)
            && Merged(db.approvals, NeverSame, BindAll(s.approvals, BindApproval), after.approvals)
            && Merged(db.freezes, NeverSame, BindAll(s.freezes, BindFreeze), after.freezes)
            && Merged(db.bypasses, NeverSame, BindAll(s.bypasses, BindBypass), after.bypasses)
            && Merged(db.cosign, SameCosign, BindAll(s.cosign, BindCosign), after.cosign)
  {
    ImportRowsMerges(db.observations, SameObservation, BindAll(s.observations, BindObservation));
    ImportRowsMerges(db.decisions, NeverSame, BindAll(s.decisions, BindDecision));
    ImportRowsMerges(db.approvals, NeverSame, BindAll(s.approvals, BindApproval));
    ImportRowsMerges(db.freezes, NeverSame, BindAll(s.freezes, BindFreeze));
    ImportRowsMerges(db.bypasses, NeverSame, BindAll(s.bypasses, BindBypass));
    ImportRowsMerges(db.cosign, SameCosign, BindAll(s.cosign, BindCosign));
  }

  /** A row with an id of its own stays if and only if no imported row has its unique key. */
  lemma {:induction false} StaysIff<R(!new)>(t: Table<R>, same: (R, R) -> bool, list: seq<(int, R)>, id: int)
    requires id in t.rows && forall j :: 0 <= j < |list| ==> list[j].0 != id
    ensures var after := ImportRows(t, same, list).rows;
            && (id in after <==> forall j :: 0 <= j < |list| ==> !same(t.rows[id], list[j].1))
            && (id in after ==> after[id] == t.rows[id])
    decreases |list|
  {
    if list != [] {
      var n := |list| - 1;
      StaysIff(t, same, list[..n], id);
      assert forall j :: 0 <= j < n ==> list[..n][j] == list[j];
    }
  }

  /** With an id that is not imported, an observation stays unless its registry, repository, tag and digest are. */
  lemma {:induction false} ObservationStaysIff(db: Database, s: ExportedState, id: int)
    requires s.version == 1
    requires id in db.observations.rows && forall i :: 0 <= i < |s.observations| ==> s.observations[i].id != id
    ensures var row := db.observations.rows[id];
            id in Import(db, s).observations.rows <==>
            forall i :: 0 <= i < |s.observations| ==>
              var o := s.observations[i];
              !(o.image.registry == row.image.registry && o.image.repository == row.image.repository
                && o.image.tag == row.image.tag && o.digest == row.digest)
  {
    var bound := BindAll(s.observations, BindObservation);
    assert forall i :: 0 <= i < |s.observations| ==> bound[i] == BindObservation(s.observations[i]);
    StaysIff(db.observations, SameObservation, bound, id);
  }

  /** A verification stays unless its registry, repository, digest and policy are imported. */
  lemma {:induction false} VerificationStaysIff(db: Database, s: ExportedState, id: int)
    requires s.version == 1
    requires id in db.cosign.rows && forall i :: 0 <= i < |s.cosign| ==> s.cosign[i].id != id
    ensures var key := db.cosign.rows[id].key;
            id in Import(db, s).cosign.rows <==>
            forall i :: 0 <= i < |s.cosign| ==>
              var other := s.cosign[i].key;
              !(other.registry == key.registry && other.repository == key.repository
                && other.digest == key.digest && other.policyKey == key.policyKey)
  {
    var bound := BindAll(s.cosign, BindCosign);
    assert forall i :: 0 <= i < |s.cosign| ==> bound[i] == BindCosign(s.cosign[i]);
    StaysIff(db.cosign, SameCosign, bound, id);
  }

  lemma {:induction false} RowStays<R(!new), S>(t: Table<R>, list: seq<S>, bind: S -> (int, R), id: int)
    requires id in t.rows && forall i :: 0 <= i < |list| ==> bind(list[i]).0 != id
    ensures id in ImportRows(t, NeverSame, BindAll(list, bind)).rows
  {
    StaysIff(t, NeverSame, BindAll(list, bind), id);
  }

  /** Decisions, approvals, freezes and bypasses stay. */
  lemma {:induction false} OtherRowsStay(db: Database, s: ExportedState, id: int)
    requires s.version == 1
    ensures id in db.decisions.rows && (forall i :: 0 <= i < |s.decisions| ==> s.decisions[i].id != id) ==>
              id in Import(db, s).decisions.rows
    ensures id in db.approvals.rows && (forall i :: 0 <= i < |s.approvals| ==> s.approvals[i].id != id) ==>
              id in Import(db, s).approvals.rows
    ensures id in db.freezes.rows && (forall i :: 0 <= i < |s.freezes| ==> s.freezes[i].id != id) ==>
              id in Import(db, s).freezes.rows
    ensures id in db.bypasses.rows && (forall i :: 0 <= i < |s.bypasses| ==> s.bypasses[i].id != id) ==>
              id in Import(db, s).bypasses.rows
  {
    if id in db.decisions.rows && (forall i :: 0 <= i < |s.decisions| ==> s.decisions[i].id != id) {
      RowStays(db.decisions, s.decisions, BindDecision, id);
    }
    if id in db.approvals.rows && (forall i :: 0 <= i < |s.approvals| ==> s.approvals[i].id != id) {
      RowStays(db.approvals, s.approvals, BindApproval, id);
    }
    if id in db.freezes.rows && (forall i :: 0 <= i < |s.freezes| ==> s.freezes[i].id != id) {
      RowStays(db.freezes, s.freezes, BindFreeze, id);
    }
    if id in db.bypasses.rows && (forall i :: 0 <= i < |s.bypasses| ==> s.bypasses[i].id != id) {
      RowStays(db.bypasses, s.bypasses, BindBypass, id);
    }
  }

  /** A state with nothing but one freeze. */
  function OnlyFreeze(f: Freeze): ExportedState {
    ExportedState(1, [], [], [], [f], [], [])
  }

  /**
   An import can displace a row about something else. The ids of two stores are not related: importing a freeze
   replaces the local freeze that has its id, and the tag which that one froze is frozen no longer.
   */
  lemma {:induction false} ImportLiftsFreeze(row: FreezeRow, f: Freeze, digest: string, now: Time)
    requires FreezeApplies(row, row.image, digest, now) && f.image != row.image
    ensures var db := EMPTY_DATABASE.(freezes := Table(map[f.id := row], f.id));
            && Frozen(db, row.image, digest, now)
            && !Frozen(Import(db, OnlyFreeze(f)), row.image, digest, now)
            && Import(db, OnlyFreeze(f)).freezes.rows == map[f.id := BindFreeze(f).1]
  {
    var t := Table(map[f.id := row], f.id);
    var list := BindAll([f], BindFreeze);
    assert f.id in t.rows && FreezeApplies(t.rows[f.id], row.image, digest, now);
    assert list == [BindFreeze(f)] && list[..0] == [];
    assert ImportRows(t, NeverSame, list[..0]) == t;
    assert ImportRows(t, NeverSame, list).rows == map[f.id := BindFreeze(f).1];
  }

  /** An import keeps every constraint of the schema, whatever the imported state holds. */
  lemma {:induction false} ImportKeepsValid(db: Database, s: ExportedState)
    requires Valid(db)
    ensures Valid(Import(db, s))
  {
    if s.version == 1 {
      ImportRowsValid(db.observations, SameObservation, BindAll(s.observations, BindObservation));
      ImportRowsValid(db.decisions, NeverSame, BindAll(s.decisions, BindDecision));
      ImportRowsValid(db.approvals, NeverSame, BindAll(s.approvals, BindApproval));
      ImportRowsValid(db.freezes, NeverSame, BindAll(s.freezes, BindFreeze));
      ImportRowsValid(db.bypasses, NeverSame, BindAll(s.bypasses, BindBypass));
      ImportRowsValid(db.cosign, SameCosign, BindAll(s.cosign, BindCosign));
      ImportMerges(db, s);
      EncodedAfterImport(db, s);
    }
  }

  lemma {:induction false} EncodedAfterImport(db: Database, s: ExportedState)
    requires Valid(db) && s.version == 1
    requires Merged(db.freezes, NeverSame, BindAll(s.freezes, BindFreeze), Import(db, s).freezes)
    requires Merged(db.cosign, SameCosign, BindAll(s.cosign, BindCosign), Import(db, s).cosign)
    ensures NoEmptyDigest(Import(db, s).freezes) && BooleanSuccess(Import(db, s).cosign)
  {
    var after := Import(db, s);
    forall id | id in after.freezes.rows ensures after.freezes.rows[id].digest != Some("") {
      var row := after.freezes.rows[id];
      assert Holds(after.freezes, id, row);
      if Survives(NeverSame, BindAll(s.freezes, BindFreeze), id, row) {
        var j :| 0 <= j < |s.freezes| && BindAll(s.freezes, BindFreeze)[j] == (id, row);
        assert BindFreeze(s.freezes[j]).1 == row;
      }
    }
    forall id | id in after.cosign.rows
      ensures after.cosign.rows[id].success == BoolInt(after.cosign.rows[id].success != 0)
    {
      var row := after.cosign.rows[id];
      assert Holds(after.cosign, id, row);
      if Survives(SameCosign, BindAll(s.cosign, BindCosign), id, row) {
        var j :| 0 <= j < |s.cosign| && BindAll(s.cosign, BindCosign)[j] == (id, row);
        assert BindCosign(s.cosign[j]).1 == row;
      }
    }
  }
}
