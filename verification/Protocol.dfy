/**
 * Any number of store, retrieve and re-issue requests against one database, interleaved at
 * their repository and limiter calls, beside registrations, operator edits and rate changes
 * (store-package.service.ts, retrieve-package.service.ts, reissue-pickup-code.service.ts).
 */
module Protocol {
  import opened Common
  import opened Packages
  import opened Database
  import opened AttemptCounter
  import StorageRate
  import StorageRateSchedule
  import Rates = StorageRateTable

  /** What the deployment fixes: the keyed hash, the collation, and the two limits. */
  datatype Config = Config(
    hash: (string, Id) -> string,
    weight: string -> real,
    doorLimit: Limit,
    reissueLimit: Limit)

  datatype World = World(
    tables: Tables,
    rates: seq<Rates.RateRow>,
    counters: map<Key, Entry>,
    now: int)
  {
    function Slot(key: Key): Option<Entry> {
      if key in counters then Some(counters[key]) else None
    }
  }

  // ---- Requests ----

  datatype StoreCall = StoreCall(packageId: Id, agent: Option<string>, stationId: Id)

  datatype Failure =
    | PackageNotFound | PackageAlreadyStored | StationMissing | StationClosed | NoSuitableLocker | LostEveryRace
    | Broken
    | TooManyAttempts | MalformedCode | NothingMatches | CannotPrice | PackageAlreadyRetrieved
    | TooManyReissues | NotReissuable | PackageNotStored

  datatype Outcome =
    | StoreDone(packageId: Id, assignmentId: Id, lockerId: Id, stationId: Id, code: string)
    | RetrieveDone(packageId: Id, assignmentId: Id, lockerId: Id, retrievedAt: int, fee: int)
    | ReissueDone(packageId: Id, lockerId: Id, code: string)
    | Failed(why: Failure)

  /** Where a request stands: each constructor is the point before one call to the outside. */
  datatype Request =
    // StorePackageService.store
    | StoreLoading(call: StoreCall)
    | StoreAtStation(call: StoreCall, pkg: Package)
    | StoreAllocating(call: StoreCall, pkg: Package, attempt: int)
    | StoreInserting(call: StoreCall, pkg: Package, attempt: int, stored: Package, code: string)
    // RetrievePackageService.retrieve
    | RetrieveChecking(door: Id, code: string)
    | RetrieveFinding(door: Id, code: string)
    | RetrieveLoading(door: Id, code: string)
    | RetrieveFailing(door: Id)
    | RetrievePricing(door: Id, pkg: Package)
    | RetrieveSaving(door: Id, pkg: Package)
    | RetrieveClearing(door: Id, pkg: Package)
    // ReissuePickupCodeService.reissue
    | ReissueChecking(customerId: Id, packageId: Id)
    | ReissueLoading(customerId: Id, packageId: Id)
    | ReissueFinding(packageId: Id, pkg: Package)
    | ReissueSaving(packageId: Id, pkg: Package, code: string)
    | ReissueTouching(packageId: Id, pkg: Package, code: string)
    | ReissueCounting(packageId: Id, pkg: Package, code: string)
    | ReissueClearing(packageId: Id, pkg: Package, code: string)
    | Finished(outcome: Outcome)

  predicate Initial(q: Request) {
    q.StoreLoading? || q.RetrieveChecking? || q.ReissueChecking?
  }

  const MAX_ATTEMPTS := 3

  predicate IsPickupCode(code: string) {
    |code| == 6 && forall ch | ch in code :: '0' <= ch <= '9'
  }

  datatype State = State(world: World, requests: map<nat, Request>)

  /** What the outside answers in one step. Each step reads only the fields it needs. */
  datatype Answer = Answer(
    reading: int,              // the application clock
    code: string,              // the code generator
    id: Id,                    // the id generator
    shown: set<Id>,            // lockers a snapshot, however stale, shows as taken
    locker: Option<Id>,        // the locker selected
    reported: UniqueKey,       // the key named in a duplicate-entry error
    found: Option<Package>)    // the package read

  datatype Label =
    | Tick(now: int)
    | Register(packageId: Id, customerId: Id, size: Size)
    | AddStation(stationId: Id)
    | AddLocker(lockerId: Id, at: Id, lockerCode: string, lockerSize: Size)
    | EditLocker(lockerId: Id, newCode: Option<string>, inService: Option<bool>)
    | RetireLocker(lockerId: Id)
    | RetireStation(stationId: Id)
    | PublishRates(rateSize: Size, effectiveFrom: Option<int>, bands: seq<StorageRate.BandInput>, ids: seq<Id>)
    | Begin(rid: nat, request: Request)
    | Advance(rid: nat, answer: Answer)

  /** The locker row an inserting request holds locked until its transaction ends. */
  function Held(q: Request): set<Id> {
    if q.StoreInserting? && q.stored.assignment.Some? then {q.stored.assignment.value.lockerId} else {}
  }

  ghost function Locked(requests: map<nat, Request>): set<Id> {
    set rid, l | rid in requests && l in Held(requests[rid]) :: l
  }

  // ---- One step of one request ----

  /** What the outside may answer to request `q`. */
  ghost predicate Answers(c: Config, w: World, locked: set<Id>, q: Request, a: Answer) {
    match q
    case StoreLoading(call) => FindById(w.tables, call.packageId, a.found)
    case StoreAllocating(call, pkg, _) =>
      && a.reading <= w.now
      && IsAllocation(c.weight, w.tables, a.shown, locked, call.stationId, pkg.size, a.locker)
    case StoreInserting(call, _, _, stored, _) =>
      stored.assignment.Some? ==>
        var row := ToRow(call.packageId, stored.assignment.value);
        var id := stored.assignment.value.id;
        ViolatesAny(w.tables, id, row) ==> Violates(w.tables, id, row, a.reported)
    case RetrieveLoading(door, _) => FindActiveByLocker(w.tables, door, a.found)
    case ReissueLoading(_, packageId) => FindById(w.tables, packageId, a.found)
    case Finished(_) => false
    case _ => true
  }

  function Fail(why: Failure): Request {
    Finished(Failed(why))
  }

  /** What the step leaves behind, in the world and in the request. */
  ghost function Next(c: Config, w: World, q: Request, a: Answer): (World, Request) {
    var t := w.tables;
    match q
    case StoreLoading(call) =>
      if a.found.None? then (w, Fail(PackageNotFound))
      else if !a.found.value.status.Registered? then (w, Fail(PackageAlreadyStored))
      else (w, StoreAtStation(call, a.found.value))
    case StoreAtStation(call, pkg) =>
      if call.stationId !in t.stations then (w, Fail(StationMissing))
      else if !t.stations[call.stationId] then (w, Fail(StationClosed))
      else (w, StoreAllocating(call, pkg, 1))
    case StoreAllocating(call, pkg, attempt) =>
      if a.locker.None? then (w, Fail(NoSuitableLocker))
      else
        (match pkg.StoreInLocker(a.id, a.locker.value, c.hash(a.code, a.id), call.agent, a.reading)
         case Err(_) => (w, Fail(PackageAlreadyStored))
         case Ok(stored) => (w, StoreInserting(call, pkg, attempt, stored, a.code)))
    case StoreInserting(call, pkg, attempt, stored, code) =>
      if stored.assignment.None? then (w, Fail(Broken))
      else
        (match StoreTx(t, call.packageId, stored.assignment.value, a.reported)
         case Ok(t') =>
           (w.(tables := t'), Finished(StoreDone(call.packageId, stored.assignment.value.id,
                                                 stored.assignment.value.lockerId, call.stationId, code)))
         case Err(JustTaken) =>
           if attempt < MAX_ATTEMPTS then (w, StoreAllocating(call, pkg, attempt + 1)) else (w, Fail(LostEveryRace))
         case Err(PackageTaken) => (w, Fail(PackageAlreadyStored))
         case Err(MissingReference) => (w, Fail(Broken)))
    case RetrieveChecking(door, code) =>
      if BlockLeft(c.doorLimit, w.Slot(Door(door)), w.now) > 0 then (w, Fail(TooManyAttempts))
      else if !IsPickupCode(code) then (w, Fail(MalformedCode))
      else (w, RetrieveFinding(door, code))
    case RetrieveFinding(door, code) =>
      if door !in t.lockers then (w, Fail(NothingMatches)) else (w, RetrieveLoading(door, code))
    case RetrieveLoading(door, code) =>
      if a.found.None? then (w, Fail(NothingMatches))
      else if a.found.value.assignment.None? then (w, Fail(Broken))
      else
        var la := a.found.value.assignment.value;
        if c.hash(code, la.id) != la.pickupCodeHash then (w, RetrieveFailing(door))
        else (w, RetrievePricing(door, a.found.value))
    case RetrieveFailing(door) =>
      (w.(counters := Put(w.counters, Door(door), Counted(c.doorLimit, w.Slot(Door(door)), w.now))), Fail(NothingMatches))
    case RetrievePricing(door, pkg) =>
      if pkg.assignment.None? then (w, Fail(Broken))
      else
        (match Rates.Quote(w.rates, pkg.size, pkg.assignment.value.storedAt, a.reading)
         case Err(_) => (w, Fail(CannotPrice))
         case Ok(fee) =>
           match pkg.Retrieve(a.reading, fee)
           case Err(_) => (w, Fail(PackageAlreadyRetrieved))
           case Ok(retrieved) => (w, RetrieveSaving(door, retrieved)))
    case RetrieveSaving(door, pkg) =>
      if pkg.assignment.None? || pkg.assignment.value.retrievedAt.None? || pkg.assignment.value.storageFeeMinor.None? then
        (w, Fail(Broken))
      else
        var la := pkg.assignment.value;
        (match CloseTx(t, la.id, pkg.id, la.retrievedAt.value, la.storageFeeMinor.value)
         case None => (w, Fail(PackageAlreadyRetrieved))
         case Some(t') => (w.(tables := t'), RetrieveClearing(door, pkg)))
    case RetrieveClearing(door, pkg) =>
      if pkg.assignment.None? || pkg.assignment.value.retrievedAt.None? || pkg.assignment.value.storageFeeMinor.None? then
        (w, Fail(Broken))
      else
        var la := pkg.assignment.value;
        (w.(counters := w.counters - {Door(door)}),
         Finished(RetrieveDone(pkg.id, la.id, door, la.retrievedAt.value, la.storageFeeMinor.value)))
    case ReissueChecking(customerId, packageId) =>
      if BlockLeft(c.reissueLimit, w.Slot(Parcel(packageId)), w.now) > 0 then (w, Fail(TooManyReissues))
      else (w, ReissueLoading(customerId, packageId))
    case ReissueLoading(customerId, packageId) =>
      if a.found.None? || a.found.value.customerId != customerId then (w, Fail(NotReissuable))
      else if !a.found.value.IsStored() then (w, Fail(PackageNotStored))
      else (w, ReissueFinding(packageId, a.found.value))
    case ReissueFinding(packageId, pkg) =>
      if pkg.assignment.None? then (w, Fail(Broken))
      else if pkg.assignment.value.lockerId !in t.lockers then (w, Fail(NotReissuable))
      else
        (match pkg.ReissuePickupCode(c.hash(a.code, pkg.assignment.value.id), a.reading)
         case Err(_) => (w, Fail(PackageAlreadyRetrieved))
         case Ok(reissued) => (w, ReissueSaving(packageId, reissued, a.code)))
    case ReissueSaving(packageId, pkg, code) =>
      if pkg.assignment.None? then (w, Fail(Broken))
      else
        (match SetHash(t, pkg.assignment.value.id, pkg.assignment.value.pickupCodeHash)
         case None => (w, Fail(PackageAlreadyRetrieved))
         case Some(t') => (w.(tables := t'), ReissueTouching(packageId, pkg, code)))
    case ReissueTouching(packageId, pkg, code) =>
      (w.(tables := Touch(t, pkg.id, pkg.updatedAt)), ReissueCounting(packageId, pkg, code))
    case ReissueCounting(packageId, pkg, code) =>
      (w.(counters := Put(w.counters, Parcel(packageId), Counted(c.reissueLimit, w.Slot(Parcel(packageId)), w.now))),
       ReissueClearing(packageId, pkg, code))
    case ReissueClearing(packageId, pkg, code) =>
      if pkg.assignment.None? then (w, Fail(Broken))
      else
        (w.(counters := w.counters - {Door(pkg.assignment.value.lockerId)}),
         Finished(ReissueDone(packageId, pkg.assignment.value.lockerId, code)))
    case Finished(_) => (w, q)
  }

  // ---- One step of the whole system ----

  /** `StorageRateSchedule.publish` followed by the catalog's `publish`, as one step. */
  function Published(rates: seq<Rates.RateRow>, l: Label, now: int): seq<Rates.RateRow>
    requires l.PublishRates? && |l.ids| == |l.bands|
  {
    match StorageRateSchedule.Outcome(l.effectiveFrom, l.bands, now)
    case Err(_) => rates
    case Ok(bands) =>
      if |bands| != |l.ids| then rates
      else
        var s := StorageRateSchedule.Versioned(l.rateSize, l.effectiveFrom.value, bands, l.ids, now);
        match Rates.AppendAll(rates, Rates.RowsOf(s))
        case Err(_) => rates
        case Ok(after) => after
  }

  ghost predicate Enabled(c: Config, s: State, l: Label) {
    match l
    case Tick(now) => s.world.now <= now
    case EditLocker(id, _, _) => id !in Locked(s.requests)
    case RetireLocker(id) => id !in Locked(s.requests)
    case PublishRates(_, _, bands, ids) => |ids| == |bands|
    case Begin(rid, q) => rid !in s.requests && Initial(q)
    case Advance(rid, a) =>
      rid in s.requests && Answers(c, s.world, Locked(s.requests), s.requests[rid], a)
    case _ => true
  }

  function OrElse(t: Tables, r: Result<Tables, AdminError>): Tables {
    if r.Ok? then r.value else t
  }

  ghost function AdminTables(c: Config, t: Tables, l: Label, now: int): Tables {
    match l
    case Register(id, customerId, size) =>
      if id in t.packages then t
      else t.(packages := t.packages[id := PackageRow(customerId, size, Registered, now)])
    case AddStation(id) => if id in t.stations then t else t.(stations := t.stations[id := true])
    case AddLocker(id, at, code, size) => OrElse(t, CreateLocker(c.weight, t, id, at, code, size))
    case EditLocker(id, code, inService) => OrElse(t, UpdateLocker(c.weight, t, id, code, inService))
    case RetireLocker(id) => OrElse(t, DecommissionLocker(t, id))
    case RetireStation(id) => OrElse(t, DecommissionStation(t, id))
    case _ => t
  }

  ghost function Step(c: Config, s: State, l: Label): State
    requires Enabled(c, s, l)
  {
    match l
    case Tick(now) => s.(world := s.world.(now := now))
    case PublishRates(_, _, _, _) => s.(world := s.world.(rates := Published(s.world.rates, l, s.world.now)))
    case Begin(rid, q) => s.(requests := s.requests[rid := q])
    case Advance(rid, a) =>
      var (w', q') := Next(c, s.world, s.requests[rid], a);
      State(w', s.requests[rid := q'])
    case _ => s.(world := s.world.(tables := AdminTables(c, s.world.tables, l, s.world.now)))
  }

  // ---- Runs ----

  ghost predicate Run(c: Config, s: State, ls: seq<Label>)
    decreases |ls|, 0
  {
    ls == [] || var n := |ls| - 1; Run(c, s, ls[..n]) && Enabled(c, Final(c, s, ls[..n]), ls[n])
  }

  ghost function Final(c: Config, s: State, ls: seq<Label>): State
    requires Run(c, s, ls)
    decreases |ls|, 1
  {
    if ls == [] then s else var n := |ls| - 1; Step(c, Final(c, s, ls[..n]), ls[n])
  }
}
