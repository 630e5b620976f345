/** The tables as the migrations declare them, and the guarded writes the repositories make
    (001_init.sql, mysql-package.repository.ts). */
module Database {
  import opened Common
  import opened Packages

  datatype LockerStatus = InService | OutOfService | Decommissioned

  datatype LockerRow = LockerRow(stationId: Id, code: string, size: Size, status: LockerStatus) {
    predicate Live() {
      !status.Decommissioned?
    }
  }

  datatype PackageRow = PackageRow(customerId: Id, size: Size, status: Status, updatedAt: int)

  datatype AssignmentRow = AssignmentRow(
    packageId: Id, lockerId: Id, pickupCodeHash: string, storedByAgent: Option<string>,
    storedAt: int, retrievedAt: Option<int>, storageFeeMinor: Option<int>)
  {
    /** `active_locker_id IS NOT NULL`. */
    predicate Active() {
      retrievedAt.None?
    }
  }

  datatype Tables = Tables(
    stations: map<Id, bool>,            // whether the station is ACTIVE
    lockers: map<Id, LockerRow>,
    packages: map<Id, PackageRow>,
    assignments: map<Id, AssignmentRow>)

  // ---- Reads ----

  predicate HasRow(t: Tables, packageId: Id) {
    exists a :: a in t.assignments && t.assignments[a].packageId == packageId
  }

  predicate Occupied(t: Tables, lockerId: Id) {
    exists a :: a in t.assignments && t.assignments[a].Active() && t.assignments[a].lockerId == lockerId
  }

  function ToAssignment(id: Id, row: AssignmentRow): LockerAssignment {
    LockerAssignment(id, row.lockerId, row.pickupCodeHash, row.storedByAgent,
                     row.storedAt, row.retrievedAt, row.storageFeeMinor)
  }

  function ToPackage(id: Id, p: PackageRow, assignment: Option<LockerAssignment>): Package {
    Package(id, p.customerId, p.size, p.status, p.updatedAt, assignment)
  }

  /** The package left-joined with its assignment, `LIMIT 1`. */
  ghost predicate FindById(t: Tables, id: Id, found: Option<Package>) {
    if id !in t.packages then found == None
    else if HasRow(t, id) then
      exists a :: a in t.assignments && t.assignments[a].packageId == id
                  && found == Some(ToPackage(id, t.packages[id], Some(ToAssignment(a, t.assignments[a]))))
    else found == Some(ToPackage(id, t.packages[id], None))
  }

  /** The package whose assignment is active at `lockerId`, `LIMIT 1`. */
  ghost predicate FindActiveByLocker(t: Tables, lockerId: Id, found: Option<Package>) {
    if found.None? then
      forall a | a in t.assignments && t.assignments[a].packageId in t.packages ::
        !(t.assignments[a].Active() && t.assignments[a].lockerId == lockerId)
    else
      exists a :: a in t.assignments && t.assignments[a].packageId in t.packages
                  && t.assignments[a].Active() && t.assignments[a].lockerId == lockerId
                  && found == Some(ToPackage(t.assignments[a].packageId, t.packages[t.assignments[a].packageId],
                                             Some(ToAssignment(a, t.assignments[a]))))
  }

  // ---- Storing ----

  datatype UniqueKey = PrimaryKey | OneActivePerLocker | OnePerPackage

  /** Whether inserting `row` under `id` would break `key`. */
  predicate Violates(t: Tables, id: Id, row: AssignmentRow, key: UniqueKey) {
    match key
    case PrimaryKey => id in t.assignments
    case OneActivePerLocker => row.Active() && Occupied(t, row.lockerId)
    case OnePerPackage => HasRow(t, row.packageId)
  }

  predicate ViolatesAny(t: Tables, id: Id, row: AssignmentRow) {
    exists key :: Violates(t, id, row, key)
  }

  function ToRow(packageId: Id, a: LockerAssignment): AssignmentRow {
    AssignmentRow(packageId, a.lockerId, a.pickupCodeHash, a.storedByAgent, a.storedAt, None, None)
  }

  datatype StoreError = JustTaken | PackageTaken | MissingReference

  /**
   * The write half of `reserveLockerAndStore`: insert the assignment, then set the status
   * without a condition; rolled back as a whole. When several keys reject the insert, `reported`
   * is the one the database names.
   */
  function StoreTx(t: Tables, packageId: Id, a: LockerAssignment, reported: UniqueKey): Result<Tables, StoreError> {
    var row := ToRow(packageId, a);
    if ViolatesAny(t, a.id, row) then
      if reported == OnePerPackage then Err(PackageTaken) else Err(JustTaken)
    else if packageId !in t.packages || a.lockerId !in t.lockers then Err(MissingReference)
    else Ok(t.(assignments := t.assignments[a.id := row],
               packages := t.packages[packageId := t.packages[packageId].(status := Stored, updatedAt := a.storedAt)]))
  }

  // ---- Re-issuing and retrieving: `WHERE id = :id AND retrieved_at IS NULL` ----

  predicate StillOpen(t: Tables, id: Id) {
    id in t.assignments && t.assignments[id].Active()
  }

  /** `None` is zero affected rows. */
  function SetHash(t: Tables, id: Id, hash: string): Option<Tables> {
    if !StillOpen(t, id) then None
    else Some(t.(assignments := t.assignments[id := t.assignments[id].(pickupCodeHash := hash)]))
  }

  function Touch(t: Tables, packageId: Id, updatedAt: int): Tables {
    if packageId !in t.packages then t
    else t.(packages := t.packages[packageId := t.packages[packageId].(updatedAt := updatedAt)])
  }

  /** Closes the row and sets the status, in one transaction. */
  function CloseTx(t: Tables, id: Id, packageId: Id, retrievedAt: int, fee: int): Option<Tables> {
    if !StillOpen(t, id) then None
    else
      var closed := t.assignments[id].(retrievedAt := Some(retrievedAt), storageFeeMinor := Some(fee));
      var t' := t.(assignments := t.assignments[id := closed]);
      if packageId !in t.packages then Some(t')
      else Some(t'.(packages := t.packages[packageId :=
                      t.packages[packageId].(status := Retrieved, updatedAt := retrievedAt)]))
  }

  // ---- Stations and lockers: each service call is one step ----

  datatype AdminError =
    | StationNotFound | StationRetired | StationNotEmpty
    | LockerNotFound | LockerRetired | LockerOccupied | CodeTaken | InvalidCode | IdTaken

  // Codes arrive trimmed.

  /** `existsByStationAndCode`: codes compare by the column's collation, here by weight. */
  ghost predicate CodeInUse(weight: string -> real, t: Tables, stationId: Id, code: string) {
    exists l :: l in t.lockers && t.lockers[l].stationId == stationId
                && weight(t.lockers[l].code) == weight(code)
  }

  ghost function CreateLocker(weight: string -> real, t: Tables, id: Id, stationId: Id, code: string, size: Size)
    : Result<Tables, AdminError>
  {
    if stationId !in t.stations then Err(StationNotFound)
    else if !t.stations[stationId] then Err(StationRetired)
    else if CodeInUse(weight, t, stationId, code) then Err(CodeTaken)
    else if code == "" then Err(InvalidCode)
    else if id in t.lockers then Err(IdTaken)
    else Ok(t.(lockers := t.lockers[id := LockerRow(stationId, code, size, InService)]))
  }

  /** `status`, when given, is IN_SERVICE or OUT_OF_SERVICE: `Some(true)` for in service. */
  ghost function UpdateLocker(weight: string -> real, t: Tables, id: Id, code: Option<string>, status: Option<bool>)
    : Result<Tables, AdminError>
  {
    if id !in t.lockers then Err(LockerNotFound)
    else
      var l := t.lockers[id];
      if code.Some? && code.value != l.code && CodeInUse(weight, t, l.stationId, code.value) then Err(CodeTaken)
      else if !l.Live() then Err(LockerRetired)
      else if code == Some("") then Err(InvalidCode)
      else
        var code' := if code.Some? then code.value else l.code;
        var status' := if status.None? then l.status else if status.value then InService else OutOfService;
        Ok(t.(lockers := t.lockers[id := l.(code := code', status := status')]))
  }

  ghost function DecommissionLocker(t: Tables, id: Id): Result<Tables, AdminError> {
    if id !in t.lockers then Err(LockerNotFound)
    else if Occupied(t, id) then Err(LockerOccupied)
    else if !t.lockers[id].Live() then Err(LockerRetired)
    else Ok(t.(lockers := t.lockers[id := t.lockers[id].(status := Decommissioned)]))
  }

  ghost predicate HasLiveLocker(t: Tables, stationId: Id) {
    exists l :: l in t.lockers && t.lockers[l].stationId == stationId && t.lockers[l].Live()
  }

  ghost function DecommissionStation(t: Tables, id: Id): Result<Tables, AdminError> {
    if id !in t.stations then Err(StationNotFound)
    else if HasLiveLocker(t, id) then Err(StationNotEmpty)
    else if !t.stations[id] then Err(StationRetired)
    else Ok(t.(stations := t.stations[id := false]))
  }

  // ---- Allocation ----

  /** A locker the allocating `SELECT` may return: `shown` are the lockers its snapshot of the
      assignments shows as taken, `locked` the rows it skips. */
  predicate Candidate(t: Tables, shown: set<Id>, locked: set<Id>, stationId: Id, required: Size, l: Id) {
    && l in t.lockers
    && t.lockers[l].stationId == stationId
    && t.lockers[l].status.InService?
    && l !in shown
    && l !in locked
    && t.lockers[l].size.Rank() >= required.Rank()
  }

  /** Smaller size first, then smaller code. */
  predicate Precedes(weight: string -> real, a: LockerRow, b: LockerRow) {
    a.size.Rank() < b.size.Rank() || (a.size.Rank() == b.size.Rank() && weight(a.code) < weight(b.code))
  }

  /** The best candidate of the whole bank, or none when there is no candidate. */
  ghost predicate IsAllocation(weight: string -> real, t: Tables, shown: set<Id>, locked: set<Id>,
                               stationId: Id, required: Size, choice: Option<Id>)
  {
    match choice
    case None => forall l :: !Candidate(t, shown, locked, stationId, required, l)
    case Some(best) =>
      && Candidate(t, shown, locked, stationId, required, best)
      && forall l | Candidate(t, shown, locked, stationId, required, l) && l != best ::
           Precedes(weight, t.lockers[best], t.lockers[l])
  }

  /** `uq_locker_code_per_station`. */
  ghost predicate CodesUnique(weight: string -> real, t: Tables) {
    forall l, m | l in t.lockers && m in t.lockers && l != m && t.lockers[l].stationId == t.lockers[m].stationId ::
      weight(t.lockers[l].code) != weight(t.lockers[m].code)
  }
}
