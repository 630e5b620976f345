/**
 * The repositories and services as the source writes them: methods over mutable tables, one
 * statement after another, with other requests at work between any two calls to the database or
 * the counter store (mysql-package.repository.ts, store-package.service.ts,
 * retrieve-package.service.ts, reissue-pickup-code.service.ts, transaction.ts).
 */
module LockerBank {
  import opened Common
  import opened Packages
  import opened Database
  import opened Allocation
  import opened AttemptCounter
  import opened Protocol
  import opened Safety
  import opened Interleaving
  import opened Calls
  import opened Turns
  import opened Outcomes
  import Rates = StorageRateTable

  datatype StoredPackage = StoredPackage(assignmentId: Id, lockerId: Id, code: string)

  datatype RetrievedPackage = RetrievedPackage(packageId: Id, assignmentId: Id, retrievedAt: int, fee: int)

  datatype ReissuedPickupCode = ReissuedPickupCode(packageId: Id, lockerId: Id, code: string)

  function StoreOutcome(call: StoreCall, r: Result<StoredPackage, Failure>): Outcome {
    match r
    case Ok(s) => StoreDone(call.packageId, s.assignmentId, s.lockerId, call.stationId, s.code)
    case Err(why) => Failed(why)
  }

  function RetrieveOutcome(door: Id, r: Result<RetrievedPackage, Failure>): Outcome {
    match r
    case Ok(s) => RetrieveDone(s.packageId, s.assignmentId, door, s.retrievedAt, s.fee)
    case Err(why) => Failed(why)
  }

  function ReissueOutcome(r: Result<ReissuedPickupCode, Failure>): Outcome {
    match r
    case Ok(s) => ReissueDone(s.packageId, s.lockerId, s.code)
    case Err(why) => Failed(why)
  }

  /** What one attempt at storing draws from outside: the code and id generators, what the
      allocating query's snapshot shows and skips, and which of several broken keys is named. */
  datatype Draw = Draw(code: string, id: Id, shown: set<Id>, locked: set<Id>, named: UniqueKey)

  class Bank {
    const c: Config
    const keys: KeyStore
    const rateTable: Rates.RateTable

    var stations: map<Id, bool>
    var lockers: map<Id, LockerRow>
    var index: Index
    var packages: map<Id, PackageRow>
    var assignments: map<Id, AssignmentRow>
    var now: int

    function AllTables(): Tables
      reads this
    {
      Tables(stations, lockers, packages, assignments)
    }

    function Snapshot(): World
      reads this, keys, rateTable
    {
      World(AllTables(), rateTable.rows, keys.entries, now)
    }

    ghost predicate Valid()
      reads this, keys, rateTable
    {
      && WorldOk(c, Snapshot())
      && WellIndexed(c.weight, lockers, index)
      && c.doorLimit.lingers == keys.lingers == c.reissueLimit.lingers
    }

    constructor (c: Config, keys: KeyStore, rateTable: Rates.RateTable,
                 stations: map<Id, bool>, lockers: map<Id, LockerRow>, index: Index, now: int)
      requires c.doorLimit.lingers == keys.lingers == c.reissueLimit.lingers
      requires Rates.Sound(rateTable.rows) && WellIndexed(c.weight, lockers, index)
      requires LockersOk(Tables(stations, lockers, map[], map[])) && CodesUnique(c.weight, Tables(stations, lockers, map[], map[]))
      ensures Valid() && this.c == c && this.keys == keys && this.rateTable == rateTable
      ensures Snapshot() == World(Tables(stations, lockers, map[], map[]), rateTable.rows, keys.entries, now)
    {
      this.c, this.keys, this.rateTable := c, keys, rateTable;
      this.stations, this.lockers, this.index := stations, lockers, index;
      packages, assignments, this.now := map[], map[], now;
    }

    /** Whatever other requests, operators and the clock do meanwhile. The body is one thing they
        may do; callers know only what every step of the protocol keeps. */
    method Others(ghost held: set<Id>)
      requires Valid()
      modifies this, keys, rateTable
      ensures Valid() && Meanwhile(c, old(Snapshot()), Snapshot(), held)
    {
      EvolvesReflexive(Snapshot(), held);
    }

    /** A call in progress, waiting for the answer to its next one to the outside. */
    method Await(ghost p: Progress) returns (ghost p': Progress)
      requires Valid() && Performed(c, p) && p.w == Snapshot()
      modifies this, keys, rateTable
      ensures Valid() && Performed(c, p') && p' == p.(w := Snapshot())
      ensures old(now) <= now
    {
      Others(Held(p.q));
      Waits(c, p, Snapshot());
      p' := p.(w := Snapshot());
    }

    // ---- Repository ----

    method FindPackage(id: Id) returns (found: Option<Package>)
      ensures FindById(AllTables(), id, found)
    {
      if id !in packages {
        return None;
      }
      if a :| a in assignments && assignments[a].packageId == id {
        return Some(ToPackage(id, packages[id], Some(ToAssignment(a, assignments[a]))));
      }
      return Some(ToPackage(id, packages[id], None));
    }

    method FindActive(lockerId: Id) returns (found: Option<Package>)
      ensures FindActiveByLocker(AllTables(), lockerId, found)
    {
      if a :| a in assignments && assignments[a].packageId in packages
              && assignments[a].Active() && assignments[a].lockerId == lockerId
      {
        var p := assignments[a].packageId;
        return Some(ToPackage(p, packages[p], Some(ToAssignment(a, assignments[a]))));
      }
      return None;
    }

    method SelectLocker(shown: set<Id>, locked: set<Id>, stationId: Id, required: Size) returns (choice: Option<Id>)
      requires Valid()
      ensures IsAllocation(c.weight, AllTables(), shown, locked, stationId, required, choice)
    {
      choice := FirstFit(c.weight, AllTables(), index, shown, locked, stationId, required);
    }

    /** The key a duplicate-entry error names: `named` if that one is broken, else another. */
    method NameKey(id: Id, row: AssignmentRow, named: UniqueKey) returns (key: UniqueKey)
      requires ViolatesAny(AllTables(), id, row)
      ensures Violates(AllTables(), id, row, key)
      ensures Violates(AllTables(), id, row, named) ==> key == named
    {
      if Violates(AllTables(), id, row, named) {
        return named;
      } else if Violates(AllTables(), id, row, PrimaryKey) {
        return PrimaryKey;
      } else if Violates(AllTables(), id, row, OneActivePerLocker) {
        return OneActivePerLocker;
      }
      return OnePerPackage;
    }

    /** The insert and the unconditional status update, in one transaction. */
    method InsertStored(packageId: Id, a: LockerAssignment, named: UniqueKey) returns (key: UniqueKey, failure: Option<StoreError>)
      modifies this`packages, this`assignments
      ensures ViolatesAny(old(AllTables()), a.id, ToRow(packageId, a)) ==> Violates(old(AllTables()), a.id, ToRow(packageId, a), key)
      ensures match StoreTx(old(AllTables()), packageId, a, key)
              case Ok(after) => failure == None && AllTables() == after
              case Err(e) => failure == Some(e) && AllTables() == old(AllTables())
      ensures failure == Some(PackageTaken) ==> HasRow(old(AllTables()), packageId)
      ensures failure == Some(JustTaken) ==> a.id in old(assignments) || Occupied(old(AllTables()), a.lockerId)
      ensures failure == None ==>
                Stamped(AllTables(), StoreDone(packageId, a.id, a.lockerId, "", ""), a.storedAt, a.storedByAgent)
    {
      var savedPackages, savedAssignments := packages, assignments;
      var row := ToRow(packageId, a);
      key := named;
      if ViolatesAny(AllTables(), a.id, row) {
        key := NameKey(a.id, row, named);
        return key, Some(if key == OnePerPackage then PackageTaken else JustTaken);
      }
      assignments := assignments[a.id := row];
      if packageId !in packages || a.lockerId !in lockers {
        packages, assignments := savedPackages, savedAssignments;
        return key, Some(MissingReference);
      }
      packages := packages[packageId := packages[packageId].(status := Stored, updatedAt := a.storedAt)];
      return key, None;
    }

    /** `UPDATE ... WHERE id = :id AND retrieved_at IS NULL`, then the package's `updated_at`: two
        statements and no transaction, so others come in `between`. */
    method SavePickupCode(pkg: Package) returns (ok: bool, ghost between: World)
      requires Valid() && pkg.assignment.Some?
      modifies this, keys, rateTable
      ensures Valid()
      ensures var la, w := pkg.assignment.value, old(Snapshot());
              match SetHash(w.tables, la.id, la.pickupCodeHash)
              case None => !ok && Snapshot() == w
              case Some(t) => ok && Meanwhile(c, w.(tables := t), between, {})
                              && Snapshot() == between.(tables := Touch(between.tables, pkg.id, pkg.updatedAt))
    {
      hide Evolves, WorldOk, WellIndexed;
      var la := pkg.assignment.value;
      ghost var w := Snapshot();
      between := w;
      if la.id !in assignments || !assignments[la.id].Active() {
        return false, w;
      }
      assignments := assignments[la.id := assignments[la.id].(pickupCodeHash := la.pickupCodeHash)];
      SetHashSafe(c, w, la.id, la.pickupCodeHash, {});
      assert Snapshot() == w.(tables := SetHash(w.tables, la.id, la.pickupCodeHash).value);

      Others({});
      between := Snapshot();

      if pkg.id in packages {
        packages := packages[pkg.id := packages[pkg.id].(updatedAt := pkg.updatedAt)];
      }
      TouchSafe(c, between, pkg.id, pkg.updatedAt, {});
      assert Snapshot() == between.(tables := Touch(between.tables, pkg.id, pkg.updatedAt));
      ok := true;
    }

    /** Closes the row if it is still open and sets the status, in one transaction; no row
        affected rolls back. */
    method SaveRetrieval(pkg: Package) returns (ok: bool)
      requires HasClosed(pkg)
      modifies this`packages, this`assignments
      ensures var la := pkg.assignment.value;
              match CloseTx(old(AllTables()), la.id, pkg.id, la.retrievedAt.value, la.storageFeeMinor.value)
              case None => !ok && AllTables() == old(AllTables())
              case Some(t) => ok && AllTables() == t
    {
      var la := pkg.assignment.value;
      var savedPackages, savedAssignments := packages, assignments;
      if la.id in assignments && assignments[la.id].Active() {
        assignments := assignments[la.id := assignments[la.id].(retrievedAt := la.retrievedAt, storageFeeMinor := la.storageFeeMinor)];
        ok := true;
      } else {
        ok := false;
      }
      if !ok {
        packages, assignments := savedPackages, savedAssignments;
        return;
      }
      if pkg.id in packages {
        packages := packages[pkg.id := packages[pkg.id].(status := Retrieved, updatedAt := la.retrievedAt.value)];
      }
    }

    // ---- Limiters ----

    /** `recordFailure` of the pickup attempt limiter. */
    method RecordFailure(door: Id)
      requires Valid()
      modifies keys
      ensures Snapshot() == old(Snapshot()).(counters :=
                Put(old(keys.entries), Door(door), Counted(c.doorLimit, old(Snapshot()).Slot(Door(door)), now)))
    {
      keys.CountFailure(Door(door), c.doorLimit.window, now);
      assert c.doorLimit == Limit(c.doorLimit.cap, c.doorLimit.window, keys.lingers);
    }

    /** `recordIssue` of the re-issue limiter. */
    method RecordIssue(packageId: Id)
      requires Valid()
      modifies keys
      ensures Snapshot() == old(Snapshot()).(counters :=
                Put(old(keys.entries), Parcel(packageId), Counted(c.reissueLimit, old(Snapshot()).Slot(Parcel(packageId)), now)))
    {
      keys.CountFailure(Parcel(packageId), c.reissueLimit.window, now);
      assert c.reissueLimit == Limit(c.reissueLimit.cap, c.reissueLimit.window, keys.lingers);
    }

    // ---- Services: whatever the others do, each takes exactly the turns of the protocol ----

    /** A call begun as `first` in the world `from` is now at `q`. */
    ghost predicate Stands(p: Progress, from: World, first: Request, q: Request)
      reads this, keys, rateTable
    {
      && Valid() && Performed(c, p)
      && p.from == from && p.first == first && p.w == Snapshot() && p.q == q
    }

    /** `reserveLockerAndStore`: select, build, insert; a rejected insert is rolled back. */
    method ReserveLockerAndStore(call: StoreCall, pkg: Package, draw: Draw, reading: int, ghost p: Progress)
      returns (reserved: Result<Option<StoredPackage>, StoreError>, ghost p': Progress)
      requires Valid() && Performed(c, p) && p.w == Snapshot() && reading <= now
      requires p.q.StoreAllocating? && p.q.call == call && p.q.pkg == pkg && pkg.status.Registered?
      modifies this, keys, rateTable
      ensures Stands(p', p.from, p.first,
                match reserved
                case Ok(None) => Fail(NoSuitableLocker)
                case Ok(Some(s)) => Finished(StoreOutcome(call, Ok(s)))
                case Err(e) => AfterRejection(call, pkg, p.q.attempt, e))
      ensures old(now) <= now
      ensures reserved.Ok? && reserved.value.Some? ==>
                Stamped(AllTables(), StoreOutcome(call, Ok(reserved.value.value)), reading, call.agent)
    {
      hide Performed, Evolves, WorldOk, WellIndexed, BlockLeft, Counted, Put, FindById, FindActiveByLocker,
           StoreTx, SetHash, Touch, CloseTx, Rates.Quote;
      var locker := SelectLocker(draw.shown, draw.locked, call.stationId, pkg.size);
      ghost var answer := QUIET.(reading := reading, code := draw.code, id := draw.id, shown := draw.shown, locker := locker);
      if locker.None? {
        p' := StoreSelects(c, p, draw.locked, answer, pkg);
        return Ok(None), p';
      }
      var stored := pkg.StoreInLocker(draw.id, locker.value, c.hash(draw.code, draw.id), call.agent, reading);
      p' := StoreSelects(c, p, draw.locked, answer, stored.value);
      var assignment := stored.value.assignment.value;

      p' := Await(p');
      var key, failure := InsertStored(call.packageId, assignment, draw.named);
      p' := StoreInserts(c, p', key);
      if failure.Some? {
        return Err(failure.value), p';
      }
      return Ok(Some(StoredPackage(assignment.id, assignment.lockerId, draw.code))), p';
    }

    method Store(call: StoreCall, draws: seq<Draw>) returns (r: Result<StoredPackage, Failure>, ghost p: Progress)
      requires Valid() && |draws| == MAX_ATTEMPTS
      modifies this, keys, rateTable
      ensures Stands(p, old(Snapshot()), StoreLoading(call), Finished(StoreOutcome(call, r)))
      ensures r.Ok? ==>
                exists stamp :: old(now) <= stamp <= now && Stamped(AllTables(), StoreOutcome(call, r), stamp, call.agent)
    {
      hide Performed, Evolves, WorldOk, WellIndexed, BlockLeft, Counted, Put, FindById, FindActiveByLocker,
           StoreTx, SetHash, Touch, CloseTx, Rates.Quote, Stamped;
      ghost var from, first := Snapshot(), StoreLoading(call);
      p := Progress(from, first, [], from, first);
      Begins(c, from, first);

      var found := FindPackage(call.packageId);
      p := StoreLoads(c, p, found);
      if found.None? {
        return Err(PackageNotFound), p;
      }
      var pkg := found.value;
      if !pkg.status.Registered? {
        return Err(PackageAlreadyStored), p;
      }

      p := Await(p);
      p := StoreFindsStation(c, p);
      if call.stationId !in stations {
        return Err(StationMissing), p;
      }
      if !stations[call.stationId] {
        return Err(StationClosed), p;
      }

      var attempt := 1;
      while true
        invariant 1 <= attempt <= MAX_ATTEMPTS && old(now) <= now
        invariant Stands(p, from, first, StoreAllocating(call, pkg, attempt))
        decreases MAX_ATTEMPTS - attempt
      {
        var draw, reading := draws[attempt - 1], now;
        p := Await(p);
        var reserved;
        reserved, p := ReserveLockerAndStore(call, pkg, draw, reading, p);
        match reserved {
          case Ok(None) => return Err(NoSuitableLocker), p;
          case Ok(Some(s)) =>
            assert Stamped(AllTables(), StoreOutcome(call, Ok(s)), reading, call.agent);
            return Ok(s), p;
          case Err(PackageTaken) => return Err(PackageAlreadyStored), p;
          case Err(MissingReference) => return Err(Broken), p;
          case Err(JustTaken) =>
            if attempt == MAX_ATTEMPTS {
              return Err(LostEveryRace), p;
            }
            attempt := attempt + 1;
        }
      }
    }

    /** `reading` is the clock at the moment of pricing. */
    method Retrieve(door: Id, code: string, reading: int) returns (r: Result<RetrievedPackage, Failure>, ghost p: Progress)
      requires Valid()
      modifies this, keys, rateTable
      ensures Stands(p, old(Snapshot()), RetrieveChecking(door, code), Finished(RetrieveOutcome(door, r)))
    {
      hide Performed, Evolves, WorldOk, WellIndexed, BlockLeft, Counted, Put, FindById, FindActiveByLocker,
           StoreTx, SetHash, Touch, CloseTx, Rates.Quote;
      ghost var from, first := Snapshot(), RetrieveChecking(door, code);
      p := Progress(from, first, [], from, first);
      Begins(c, from, first);

      var block := keys.Check(c.doorLimit, Door(door), now);
      p := RetrieveChecks(c, p);
      if block.Some? {
        return Err(TooManyAttempts), p;
      }
      if !IsPickupCode(code) {
        return Err(MalformedCode), p;
      }

      p := Await(p);
      p := RetrieveFindsLocker(c, p);
      if door !in lockers {
        return Err(NothingMatches), p;
      }

      p := Await(p);
      var found := FindActive(door);
      p := RetrieveLoads(c, p, found);
      if found.None? {
        return Err(NothingMatches), p;
      }
      var pkg := found.value;
      var assignment := pkg.assignment.value;
      if c.hash(code, assignment.id) != assignment.pickupCodeHash {
        p := Await(p);
        RecordFailure(door);
        p := RetrieveCounts(c, p);
        return Err(NothingMatches), p;
      }
      r, p := Collect(door, pkg, reading, p);
    }

    /** The rest of a retrieval, once the code has matched: price, close, clear. */
    method Collect(door: Id, pkg: Package, reading: int, ghost p: Progress)
      returns (r: Result<RetrievedPackage, Failure>, ghost p': Progress)
      requires Stands(p, p.from, p.first, RetrievePricing(door, pkg)) && pkg.assignment.Some?
      modifies this, keys, rateTable
      ensures Stands(p', p.from, p.first, Finished(RetrieveOutcome(door, r)))
    {
      hide Performed, Evolves, WorldOk, WellIndexed, BlockLeft, Counted, Put, FindById, FindActiveByLocker,
           StoreTx, SetHash, Touch, CloseTx, Rates.Quote;
      p' := Await(p);
      var fee := Rates.Quote(rateTable.rows, pkg.size, pkg.assignment.value.storedAt, reading);
      p' := RetrievePrices(c, p', reading);
      if fee.Err? {
        return Err(CannotPrice), p';
      }
      var retrieved := pkg.Retrieve(reading, fee.value);
      if retrieved.Err? {
        return Err(PackageAlreadyRetrieved), p';
      }
      var closed := retrieved.value.assignment.value;

      p' := Await(p');
      var ok := SaveRetrieval(retrieved.value);
      p' := RetrieveSaves(c, p');
      if !ok {
        return Err(PackageAlreadyRetrieved), p';
      }

      p' := Await(p');
      keys.Del(Door(door));
      p' := RetrieveClears(c, p');
      return Ok(RetrievedPackage(pkg.id, closed.id, closed.retrievedAt.value, fee.value)), p';
    }

    /** `code` is the code drawn, `reading` the clock when it was. */
    method Reissue(customerId: Id, packageId: Id, code: string, reading: int)
      returns (r: Result<ReissuedPickupCode, Failure>, ghost p: Progress)
      requires Valid()
      modifies this, keys, rateTable
      ensures Stands(p, old(Snapshot()), ReissueChecking(customerId, packageId), Finished(ReissueOutcome(r)))
    {
      hide Performed, Evolves, WorldOk, WellIndexed, BlockLeft, Counted, Put, FindById, FindActiveByLocker,
           StoreTx, SetHash, Touch, CloseTx, Rates.Quote;
      ghost var from, first := Snapshot(), ReissueChecking(customerId, packageId);
      p := Progress(from, first, [], from, first);
      Begins(c, from, first);

      var block := keys.Check(c.reissueLimit, Parcel(packageId), now);
      p := ReissueChecks(c, p);
      if block.Some? {
        return Err(TooManyReissues), p;
      }

      p := Await(p);
      var found := FindPackage(packageId);
      p := ReissueLoads(c, p, found);
      if found.None? || found.value.customerId != customerId {
        return Err(NotReissuable), p;
      }
      var pkg := found.value;
      if !pkg.IsStored() {
        return Err(PackageNotStored), p;
      }

      p := Await(p);
      p := ReissueFindsLocker(c, p, code, reading);
      var assignment := pkg.assignment.value;
      if assignment.lockerId !in lockers {
        return Err(NotReissuable), p;
      }
      var reissued := pkg.ReissuePickupCode(c.hash(code, assignment.id), reading);
      if reissued.Err? {
        return Err(PackageAlreadyRetrieved), p;
      }
      r, p := Issue(packageId, reissued.value, code, p);
    }

    /** The rest of a re-issue: save the new code, count it, clear the door. */
    method Issue(packageId: Id, pkg: Package, code: string, ghost p: Progress)
      returns (r: Result<ReissuedPickupCode, Failure>, ghost p': Progress)
      requires Stands(p, p.from, p.first, ReissueSaving(packageId, pkg, code)) && pkg.assignment.Some?
      modifies this, keys, rateTable
      ensures Stands(p', p.from, p.first, Finished(ReissueOutcome(r)))
    {
      hide Performed, Evolves, WorldOk, WellIndexed, BlockLeft, Counted, Put, FindById, FindActiveByLocker,
           StoreTx, SetHash, Touch, CloseTx, Rates.Quote;
      p' := Await(p);
      ghost var between;
      var ok;
      ok, between := SavePickupCode(pkg);
      p' := ReissueSaves(c, p');
      if !ok {
        return Err(PackageAlreadyRetrieved), p';
      }
      Waits(c, p', between);
      p' := ReissueTouches(c, p'.(w := between));

      p' := Await(p');
      RecordIssue(packageId);
      p' := ReissueCounts(c, p');

      p' := Await(p');
      keys.Del(Door(pkg.assignment.value.lockerId));
      p' := ReissueClears(c, p');
      return Ok(ReissuedPickupCode(packageId, pkg.assignment.value.lockerId, code)), p';
    }
  }
}
