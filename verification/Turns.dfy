/** Each call a service makes to a repository or a limiter, as one turn of its `Progress`. */
module Turns {
  import opened Common
  import opened Packages
  import opened Database
  import opened AttemptCounter
  import opened Protocol
  import opened Safety
  import opened Interleaving
  import opened Calls
  import Rates = StorageRateTable

  const QUIET := Answer(0, "", "", {}, None, PrimaryKey, None)

  /** `p'` is `p` some turns on, now at `q` in the world `w`. */
  ghost predicate Reaches(c: Config, p: Progress, p': Progress, w: World, q: Request) {
    && Performed(c, p') && p'.from == p.from && p'.first == p.first
    && p'.w == w && p'.q == q && WorldOk(c, w)
  }

  // ---- Store ----

  lemma StoreLoads(c: Config, p: Progress, found: Option<Package>) returns (p': Progress)
    requires Performed(c, p) && p.q.StoreLoading? && FindById(p.w.tables, p.q.call.packageId, found)
    ensures Reaches(c, p, p', p.w,
              if found.None? then Fail(PackageNotFound)
              else if !found.value.status.Registered? then Fail(PackageAlreadyStored)
              else StoreAtStation(p.q.call, found.value))
  {
    var a := QUIET.(found := found);
    p' := TakesTurn(c, p, {}, a, p.w, Next(c, p.w, p.q, a).1);
  }

  lemma StoreFindsStation(c: Config, p: Progress) returns (p': Progress)
    requires Performed(c, p) && p.q.StoreAtStation?
    ensures Reaches(c, p, p', p.w,
              if p.q.call.stationId !in p.w.tables.stations then Fail(StationMissing)
              else if !p.w.tables.stations[p.q.call.stationId] then Fail(StationClosed)
              else StoreAllocating(p.q.call, p.q.pkg, 1))
  {
    p' := TakesTurn(c, p, {}, QUIET, p.w, Next(c, p.w, p.q, QUIET).1);
  }

  lemma StoreSelects(c: Config, p: Progress, locked: set<Id>, a: Answer, stored: Package) returns (p': Progress)
    requires Performed(c, p) && p.q.StoreAllocating? && Answers(c, p.w, locked, p.q, a)
    requires a.locker.Some? ==>
               p.q.pkg.StoreInLocker(a.id, a.locker.value, c.hash(a.code, a.id), p.q.call.agent, a.reading) == Ok(stored)
    ensures Reaches(c, p, p', p.w,
              if a.locker.None? then Fail(NoSuitableLocker)
              else StoreInserting(p.q.call, p.q.pkg, p.q.attempt, stored, a.code))
  {
    p' := TakesTurn(c, p, locked, a, p.w, Next(c, p.w, p.q, a).1);
  }

  lemma InsertNext(c: Config, w: World, q: Request, a: Answer)
    requires q.StoreInserting? && q.stored.assignment.Some?
    ensures var la := q.stored.assignment.value;
            Next(c, w, q, a)
            == match StoreTx(w.tables, q.call.packageId, la, a.reported)
               case Ok(t) => (w.(tables := t), Finished(StoreDone(q.call.packageId, la.id, la.lockerId, q.call.stationId, q.code)))
               case Err(e) => (w, AfterRejection(q.call, q.pkg, q.attempt, e))
  {
  }

  /** A lost race is tried again, up to the last attempt. */
  function AfterRejection(call: StoreCall, pkg: Package, attempt: int, e: StoreError): Request {
    match e
    case JustTaken => if attempt < MAX_ATTEMPTS then StoreAllocating(call, pkg, attempt + 1) else Fail(LostEveryRace)
    case PackageTaken => Fail(PackageAlreadyStored)
    case MissingReference => Fail(Broken)
  }

  lemma StoreInserts(c: Config, p: Progress, key: UniqueKey) returns (p': Progress)
    requires Performed(c, p) && p.q.StoreInserting? && p.q.stored.assignment.Some?
    requires var la := p.q.stored.assignment.value;
             ViolatesAny(p.w.tables, la.id, ToRow(p.q.call.packageId, la)) ==>
               Violates(p.w.tables, la.id, ToRow(p.q.call.packageId, la), key)
    ensures var la := p.q.stored.assignment.value;
            match StoreTx(p.w.tables, p.q.call.packageId, la, key)
            case Ok(t) => Reaches(c, p, p', p.w.(tables := t),
                                  Finished(StoreDone(p.q.call.packageId, la.id, la.lockerId, p.q.call.stationId, p.q.code)))
            case Err(e) => Reaches(c, p, p', p.w, AfterRejection(p.q.call, p.q.pkg, p.q.attempt, e))
  {
    var a := QUIET.(reported := key);
    var la := p.q.stored.assignment.value;
    InsertNext(c, p.w, p.q, a);
    match StoreTx(p.w.tables, p.q.call.packageId, la, key)
    case Ok(t) =>
      p' := TakesTurn(c, p, {}, a, p.w.(tables := t),
                      Finished(StoreDone(p.q.call.packageId, la.id, la.lockerId, p.q.call.stationId, p.q.code)));
    case Err(e) => p' := TakesTurn(c, p, {}, a, p.w, AfterRejection(p.q.call, p.q.pkg, p.q.attempt, e));
  }

  // ---- Retrieve ----

  lemma RetrieveChecks(c: Config, p: Progress) returns (p': Progress)
    requires Performed(c, p) && p.q.RetrieveChecking?
    ensures Reaches(c, p, p', p.w,
              if BlockLeft(c.doorLimit, p.w.Slot(Door(p.q.door)), p.w.now) > 0 then Fail(TooManyAttempts)
              else if !IsPickupCode(p.q.code) then Fail(MalformedCode)
              else RetrieveFinding(p.q.door, p.q.code))
  {
    p' := TakesTurn(c, p, {}, QUIET, p.w, Next(c, p.w, p.q, QUIET).1);
  }

  lemma RetrieveFindsLocker(c: Config, p: Progress) returns (p': Progress)
    requires Performed(c, p) && p.q.RetrieveFinding?
    ensures Reaches(c, p, p', p.w,
              if p.q.door !in p.w.tables.lockers then Fail(NothingMatches) else RetrieveLoading(p.q.door, p.q.code))
  {
    p' := TakesTurn(c, p, {}, QUIET, p.w, Next(c, p.w, p.q, QUIET).1);
  }

  lemma RetrieveLoads(c: Config, p: Progress, found: Option<Package>) returns (p': Progress)
    requires Performed(c, p) && p.q.RetrieveLoading? && FindActiveByLocker(p.w.tables, p.q.door, found)
    ensures found.Some? ==> found.value.assignment.Some?
    ensures Reaches(c, p, p', p.w,
              if found.None? then Fail(NothingMatches)
              else if c.hash(p.q.code, found.value.assignment.value.id) != found.value.assignment.value.pickupCodeHash then
                RetrieveFailing(p.q.door)
              else RetrievePricing(p.q.door, found.value))
  {
    var a := QUIET.(found := found);
    p' := TakesTurn(c, p, {}, a, p.w, Next(c, p.w, p.q, a).1);
  }

  lemma RetrieveCounts(c: Config, p: Progress) returns (p': Progress)
    requires Performed(c, p) && p.q.RetrieveFailing?
    ensures Reaches(c, p, p',
              p.w.(counters := Put(p.w.counters, Door(p.q.door), Counted(c.doorLimit, p.w.Slot(Door(p.q.door)), p.w.now))),
              Fail(NothingMatches))
  {
    var (w', q') := Next(c, p.w, p.q, QUIET);
    p' := TakesTurn(c, p, {}, QUIET, w', q');
  }

  lemma RetrievePrices(c: Config, p: Progress, reading: int) returns (p': Progress)
    requires Performed(c, p) && p.q.RetrievePricing? && p.q.pkg.assignment.Some?
    ensures Reaches(c, p, p', p.w,
              match Rates.Quote(p.w.rates, p.q.pkg.size, p.q.pkg.assignment.value.storedAt, reading)
              case Err(_) => Fail(CannotPrice)
              case Ok(fee) =>
                match p.q.pkg.Retrieve(reading, fee)
                case Err(_) => Fail(PackageAlreadyRetrieved)
                case Ok(retrieved) => RetrieveSaving(p.q.door, retrieved))
  {
    var a := QUIET.(reading := reading);
    p' := TakesTurn(c, p, {}, a, p.w, Next(c, p.w, p.q, a).1);
  }

  lemma RetrieveSaves(c: Config, p: Progress) returns (p': Progress)
    requires Performed(c, p) && p.q.RetrieveSaving? && HasClosed(p.q.pkg)
    ensures var la := p.q.pkg.assignment.value;
            match CloseTx(p.w.tables, la.id, p.q.pkg.id, la.retrievedAt.value, la.storageFeeMinor.value)
            case None => Reaches(c, p, p', p.w, Fail(PackageAlreadyRetrieved))
            case Some(t) => Reaches(c, p, p', p.w.(tables := t), RetrieveClearing(p.q.door, p.q.pkg))
  {
    var la := p.q.pkg.assignment.value;
    var closed := CloseTx(p.w.tables, la.id, p.q.pkg.id, la.retrievedAt.value, la.storageFeeMinor.value);
    SaveNext(c, p.w, p.q, QUIET);
    if closed.None? {
      p' := TakesTurn(c, p, {}, QUIET, p.w, Fail(PackageAlreadyRetrieved));
    } else {
      p' := TakesTurn(c, p, {}, QUIET, p.w.(tables := closed.value), RetrieveClearing(p.q.door, p.q.pkg));
    }
  }

  lemma RetrieveClears(c: Config, p: Progress) returns (p': Progress)
    requires Performed(c, p) && p.q.RetrieveClearing? && HasClosed(p.q.pkg)
    ensures var la := p.q.pkg.assignment.value;
            Reaches(c, p, p', p.w.(counters := p.w.counters - {Door(p.q.door)}),
              Finished(RetrieveDone(p.q.pkg.id, la.id, p.q.door, la.retrievedAt.value, la.storageFeeMinor.value)))
  {
    var (w', q') := Next(c, p.w, p.q, QUIET);
    p' := TakesTurn(c, p, {}, QUIET, w', q');
  }

  // ---- Re-issue ----

  lemma ReissueChecks(c: Config, p: Progress) returns (p': Progress)
    requires Performed(c, p) && p.q.ReissueChecking?
    ensures Reaches(c, p, p', p.w,
              if BlockLeft(c.reissueLimit, p.w.Slot(Parcel(p.q.packageId)), p.w.now) > 0 then Fail(TooManyReissues)
              else ReissueLoading(p.q.customerId, p.q.packageId))
  {
    p' := TakesTurn(c, p, {}, QUIET, p.w, Next(c, p.w, p.q, QUIET).1);
  }

  lemma LoadsNext(c: Config, w: World, q: Request, a: Answer)
    requires q.ReissueLoading?
    ensures Next(c, w, q, a)
         == if a.found.None? || a.found.value.customerId != q.customerId then (w, Fail(NotReissuable))
            else if !a.found.value.IsStored() then (w, Fail(PackageNotStored))
            else (w, ReissueFinding(q.packageId, a.found.value))
  {
  }

  lemma ReissueLoads(c: Config, p: Progress, found: Option<Package>) returns (p': Progress)
    requires Performed(c, p) && p.q.ReissueLoading? && FindById(p.w.tables, p.q.packageId, found)
    ensures Reaches(c, p, p', p.w,
              if found.None? || found.value.customerId != p.q.customerId then Fail(NotReissuable)
              else if !found.value.IsStored() then Fail(PackageNotStored)
              else ReissueFinding(p.q.packageId, found.value))
  {
    var a := QUIET.(found := found);
    LoadsNext(c, p.w, p.q, a);
    p' := TakesTurn(c, p, {}, a, p.w, Next(c, p.w, p.q, a).1);
  }

  lemma ReissueFindsLocker(c: Config, p: Progress, code: string, reading: int) returns (p': Progress)
    requires Performed(c, p) && p.q.ReissueFinding? && p.q.pkg.assignment.Some?
    ensures var la := p.q.pkg.assignment.value;
            Reaches(c, p, p', p.w,
              if la.lockerId !in p.w.tables.lockers then Fail(NotReissuable)
              else
                match p.q.pkg.ReissuePickupCode(c.hash(code, la.id), reading)
                case Err(_) => Fail(PackageAlreadyRetrieved)
                case Ok(reissued) => ReissueSaving(p.q.packageId, reissued, code))
  {
    var a := QUIET.(code := code, reading := reading);
    p' := TakesTurn(c, p, {}, a, p.w, Next(c, p.w, p.q, a).1);
  }

  lemma ReissueSaves(c: Config, p: Progress) returns (p': Progress)
    requires Performed(c, p) && p.q.ReissueSaving? && p.q.pkg.assignment.Some?
    ensures var la := p.q.pkg.assignment.value;
            match SetHash(p.w.tables, la.id, la.pickupCodeHash)
            case None => Reaches(c, p, p', p.w, Fail(PackageAlreadyRetrieved))
            case Some(t) => Reaches(c, p, p', p.w.(tables := t), ReissueTouching(p.q.packageId, p.q.pkg, p.q.code))
  {
    var la := p.q.pkg.assignment.value;
    var t := SetHash(p.w.tables, la.id, la.pickupCodeHash);
    RehashNext(c, p.w, p.q, QUIET);
    if t.None? {
      p' := TakesTurn(c, p, {}, QUIET, p.w, Fail(PackageAlreadyRetrieved));
    } else {
      p' := TakesTurn(c, p, {}, QUIET, p.w.(tables := t.value), ReissueTouching(p.q.packageId, p.q.pkg, p.q.code));
    }
  }

  lemma ReissueTouches(c: Config, p: Progress) returns (p': Progress)
    requires Performed(c, p) && p.q.ReissueTouching?
    ensures Reaches(c, p, p', p.w.(tables := Touch(p.w.tables, p.q.pkg.id, p.q.pkg.updatedAt)),
              ReissueCounting(p.q.packageId, p.q.pkg, p.q.code))
  {
    var (w', q') := Next(c, p.w, p.q, QUIET);
    p' := TakesTurn(c, p, {}, QUIET, w', q');
  }

  lemma ReissueCounts(c: Config, p: Progress) returns (p': Progress)
    requires Performed(c, p) && p.q.ReissueCounting?
    ensures Reaches(c, p, p',
              p.w.(counters := Put(p.w.counters, Parcel(p.q.packageId),
                                   Counted(c.reissueLimit, p.w.Slot(Parcel(p.q.packageId)), p.w.now))),
              ReissueClearing(p.q.packageId, p.q.pkg, p.q.code))
  {
    var (w', q') := Next(c, p.w, p.q, QUIET);
    p' := TakesTurn(c, p, {}, QUIET, w', q');
  }

  lemma ReissueClears(c: Config, p: Progress) returns (p': Progress)
    requires Performed(c, p) && p.q.ReissueClearing? && p.q.pkg.assignment.Some?
    ensures var la := p.q.pkg.assignment.value;
            Reaches(c, p, p', p.w.(counters := p.w.counters - {Door(la.lockerId)}),
              Finished(ReissueDone(p.q.packageId, la.lockerId, p.q.code)))
  {
    var (w', q') := Next(c, p.w, p.q, QUIET);
    p' := TakesTurn(c, p, {}, QUIET, w', q');
  }
}
