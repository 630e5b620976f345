/** The inductive invariant of the interleaved system, request by request. */
module Interleaving {
  import opened Common
  import opened Packages
  import opened Database
  import opened AttemptCounter
  import opened Protocol
  import opened Safety
  import Rates = StorageRateTable

  // ---- What a request may still rely on from what it once read ----

  /** The copy `pkg`, however stale, is right about the columns that never change. */
  ghost predicate Known(w: World, pkg: Package) {
    && pkg.id in w.tables.packages
    && w.tables.packages[pkg.id].customerId == pkg.customerId
    && w.tables.packages[pkg.id].size == pkg.size
  }

  ghost predicate KnownRow(w: World, pkg: Package) {
    && Known(w, pkg)
    && pkg.assignment.Some?
    && pkg.assignment.value.id in w.tables.assignments
    && var la, row := pkg.assignment.value, w.tables.assignments[pkg.assignment.value.id];
       row.packageId == pkg.id && row.lockerId == la.lockerId && row.storedAt == la.storedAt
  }

  predicate HasClosed(pkg: Package) {
    pkg.assignment.Some? && pkg.assignment.value.retrievedAt.Some? && pkg.assignment.value.storageFeeMinor.Some?
  }

  /** The episode `pkg` carries is closed, at the price of its own stay. */
  ghost predicate ClosedAtPrice(w: World, pkg: Package) {
    && KnownRow(w, pkg)
    && var la := pkg.assignment.value;
       && la.retrievedAt.Some? && la.storageFeeMinor.Some?
       && la.storedAt <= la.retrievedAt.value
       && 0 <= la.storageFeeMinor.value
       && Rates.Quote(w.rates, pkg.size, la.storedAt, la.retrievedAt.value) == Ok(la.storageFeeMinor.value)
  }

  ghost predicate CanStore(w: World, call: StoreCall, pkg: Package) {
    Known(w, pkg) && pkg.id == call.packageId && pkg.status.Registered?
  }

  /** What is to be inserted fits the locker, at the station named, that is held for it. */
  ghost predicate CanInsert(c: Config, w: World, call: StoreCall, pkg: Package, stored: Package, code: string) {
    && stored.assignment.Some?
    && var la := stored.assignment.value;
       && la.IsActive()
       && la.storedAt <= w.now
       && la.pickupCodeHash == c.hash(code, la.id)
       && la.lockerId in w.tables.lockers
       && w.tables.lockers[la.lockerId].stationId == call.stationId
       && w.tables.lockers[la.lockerId].status.InService?
       && w.tables.lockers[la.lockerId].size.Fits(pkg.size)
  }

  ghost predicate Committed(w: World, o: Outcome)
    requires o.StoreDone?
  {
    && o.assignmentId in w.tables.assignments
    && w.tables.assignments[o.assignmentId].packageId == o.packageId
    && w.tables.assignments[o.assignmentId].lockerId == o.lockerId
    && o.packageId in w.tables.packages
    && o.lockerId in w.tables.lockers
    && w.tables.lockers[o.lockerId].stationId == o.stationId
    && w.tables.lockers[o.lockerId].size.Fits(w.tables.packages[o.packageId].size)
  }

  ghost predicate RowClosed(w: World, id: Id, packageId: Id, lockerId: Id, retrievedAt: int, fee: int) {
    && id in w.tables.assignments
    && w.tables.assignments[id].packageId == packageId
    && w.tables.assignments[id].lockerId == lockerId
    && w.tables.assignments[id].retrievedAt == Some(retrievedAt)
    && w.tables.assignments[id].storageFeeMinor == Some(fee)
  }

  ghost predicate RequestOk(c: Config, w: World, q: Request) {
    match q
    case StoreAtStation(call, pkg) => CanStore(w, call, pkg)
    case StoreAllocating(call, pkg, attempt) =>
      CanStore(w, call, pkg) && call.stationId in w.tables.stations && 1 <= attempt <= MAX_ATTEMPTS
    case StoreInserting(call, pkg, attempt, stored, code) =>
      && CanStore(w, call, pkg) && call.stationId in w.tables.stations && 1 <= attempt <= MAX_ATTEMPTS
      && CanInsert(c, w, call, pkg, stored, code)
    case RetrievePricing(door, pkg) =>
      KnownRow(w, pkg) && pkg.assignment.value.lockerId == door && pkg.IsStored()
    case RetrieveSaving(door, pkg) => ClosedAtPrice(w, pkg) && pkg.assignment.value.lockerId == door
    case RetrieveClearing(door, pkg) =>
      && ClosedAtPrice(w, pkg) && pkg.assignment.value.lockerId == door
      && RowClosed(w, pkg.assignment.value.id, pkg.id, door,
                   pkg.assignment.value.retrievedAt.value, pkg.assignment.value.storageFeeMinor.value)
    case ReissueFinding(packageId, pkg) => KnownRow(w, pkg) && pkg.id == packageId && pkg.IsStored()
    case ReissueSaving(packageId, pkg, code) =>
      && KnownRow(w, pkg) && pkg.id == packageId
      && pkg.assignment.value.pickupCodeHash == c.hash(code, pkg.assignment.value.id)
    case ReissueTouching(packageId, pkg, _) => KnownRow(w, pkg) && pkg.id == packageId
    case ReissueCounting(packageId, pkg, _) => KnownRow(w, pkg) && pkg.id == packageId
    case ReissueClearing(packageId, pkg, _) => KnownRow(w, pkg) && pkg.id == packageId
    case Finished(o) =>
      (match o
       case StoreDone(_, _, _, _, _) => Committed(w, o)
       case RetrieveDone(p, id, l, at, fee) => RowClosed(w, id, p, l, at, fee)
       case ReissueDone(_, _, _) => true
       case Failed(why) => why != Broken)
    case _ => true
  }

  // ---- What other steps leave alone ----

  lemma KnownStays(w: World, w': World, held: set<Id>, pkg: Package)
    requires Evolves(w, w', held)
    ensures Known(w, pkg) ==> Known(w', pkg)
    ensures KnownRow(w, pkg) ==> KnownRow(w', pkg)
  {
  }

  lemma ClosedAtPriceStays(c: Config, w: World, w': World, held: set<Id>, pkg: Package)
    requires WorldOk(c, w) && Evolves(w, w', held) && ClosedAtPrice(w, pkg)
    ensures ClosedAtPrice(w', pkg)
  {
    KnownStays(w, w', held, pkg);
    var la := pkg.assignment.value;
    assert w.tables.assignments[la.id].storedAt <= w.now;
    QuoteIsStable(w, w', pkg.size, la.storedAt, la.retrievedAt.value);
  }

  lemma RowClosedStays(w: World, w': World, held: set<Id>, id: Id, p: Id, l: Id, at: int, fee: int)
    requires Evolves(w, w', held) && RowClosed(w, id, p, l, at, fee)
    ensures RowClosed(w', id, p, l, at, fee)
  {
  }

  lemma CommittedStays(w: World, w': World, held: set<Id>, o: Outcome)
    requires Evolves(w, w', held) && o.StoreDone? && Committed(w, o)
    ensures Committed(w', o)
  {
  }

  lemma CanInsertStays(c: Config, w: World, w': World, held: set<Id>, call: StoreCall, pkg: Package, stored: Package, code: string)
    requires Evolves(w, w', held) && CanInsert(c, w, call, pkg, stored, code)
    requires stored.assignment.value.lockerId in held
    ensures CanInsert(c, w', call, pkg, stored, code)
  {
  }

  /** No step of anyone else falsifies what a request stands on. */
  lemma {:induction false} RequestStays(c: Config, w: World, w': World, held: set<Id>, q: Request)
    requires WorldOk(c, w) && Evolves(w, w', held) && Held(q) <= held
    requires RequestOk(c, w, q)
    ensures RequestOk(c, w', q)
  {
    match q
    case StoreAtStation(_, pkg) => KnownStays(w, w', held, pkg);
    case StoreAllocating(_, pkg, _) => KnownStays(w, w', held, pkg);
    case StoreInserting(call, pkg, _, stored, code) =>
      KnownStays(w, w', held, pkg);
      assert stored.assignment.value.lockerId in Held(q);
      CanInsertStays(c, w, w', held, call, pkg, stored, code);
    case RetrievePricing(_, pkg) => KnownStays(w, w', held, pkg);
    case RetrieveSaving(_, pkg) => ClosedAtPriceStays(c, w, w', held, pkg);
    case RetrieveClearing(door, pkg) =>
      ClosedAtPriceStays(c, w, w', held, pkg);
      RowClosedStays(w, w', held, pkg.assignment.value.id, pkg.id, door,
                     pkg.assignment.value.retrievedAt.value, pkg.assignment.value.storageFeeMinor.value);
    case ReissueFinding(_, pkg) => KnownStays(w, w', held, pkg);
    case ReissueSaving(_, pkg, _) => KnownStays(w, w', held, pkg);
    case ReissueTouching(_, pkg, _) => KnownStays(w, w', held, pkg);
    case ReissueCounting(_, pkg, _) => KnownStays(w, w', held, pkg);
    case ReissueClearing(_, pkg, _) => KnownStays(w, w', held, pkg);
    case Finished(o) =>
      match o {
        case StoreDone(_, _, _, _, _) => CommittedStays(w, w', held, o);
        case RetrieveDone(p, id, l, at, fee) => RowClosedStays(w, w', held, id, p, l, at, fee);
        case _ =>
      }
    case _ =>
  }

  // ---- A request's own step ----

  lemma ReadIsKnown(w: World, id: Id, found: Option<Package>)
    requires FindById(w.tables, id, found) && found.Some?
    ensures Known(w, found.value) && found.value.id == id
    ensures found.value.assignment.Some? ==> KnownRow(w, found.value)
  {
  }

  lemma ReadAtDoorIsKnown(c: Config, w: World, door: Id, found: Option<Package>)
    requires WorldOk(c, w) && FindActiveByLocker(w.tables, door, found) && found.Some?
    ensures KnownRow(w, found.value) && found.value.assignment.value.lockerId == door && found.value.IsStored()
  {
  }

  lemma StoreStep(c: Config, w: World, locked: set<Id>, q: Request, a: Answer, held: set<Id>)
    requires WorldOk(c, w) && RequestOk(c, w, q) && Answers(c, w, locked, q, a)
    requires q.StoreLoading? || q.StoreAtStation? || q.StoreAllocating?
    ensures var (w', q') := Next(c, w, q, a);
            w' == w && RequestOk(c, w, q')
  {
    hide WorldOk, FindById;
    if q.StoreLoading? && a.found.Some? {
      ReadIsKnown(w, q.call.packageId, a.found);
    }
  }

  lemma InsertCommits(w: World, call: StoreCall, la: LockerAssignment, key: UniqueKey, code: string)
    requires Insertable(w, call.packageId, la) && StoreTx(w.tables, call.packageId, la, key).Ok?
    requires w.tables.lockers[la.lockerId].stationId == call.stationId
    ensures Committed(w.(tables := StoreTx(w.tables, call.packageId, la, key).value),
                      StoreDone(call.packageId, la.id, la.lockerId, call.stationId, code))
  {
  }

  lemma InsertStep(c: Config, w: World, locked: set<Id>, q: Request, a: Answer, held: set<Id>)
    requires WorldOk(c, w) && RequestOk(c, w, q) && Answers(c, w, locked, q, a) && q.StoreInserting?
    ensures var (w', q') := Next(c, w, q, a);
            WorldOk(c, w') && Evolves(w, w', held) && RequestOk(c, w', q')
  {
    var la := q.stored.assignment.value;
    assert Insertable(w, q.call.packageId, la);
    if StoreTx(w.tables, q.call.packageId, la, a.reported).Ok? {
      StoreTxSafe(c, w, q.call.packageId, la, a.reported, held);
      InsertCommits(w, q.call, la, a.reported, q.code);
    } else {
      InsertFails(c, w, q, a);
      EvolvesReflexive(w, held);
    }
  }

  lemma InsertFails(c: Config, w: World, q: Request, a: Answer)
    requires RequestOk(c, w, q) && q.StoreInserting?
    requires StoreTx(w.tables, q.call.packageId, q.stored.assignment.value, a.reported).Err?
    ensures Next(c, w, q, a).0 == w && RequestOk(c, w, Next(c, w, q, a).1)
  {
  }

  lemma LoadingNext(c: Config, w: World, q: Request, a: Answer)
    requires q.RetrieveLoading? && (a.found.Some? ==> a.found.value.assignment.Some?)
    ensures Next(c, w, q, a)
         == if a.found.None? then (w, Fail(NothingMatches))
            else if c.hash(q.code, a.found.value.assignment.value.id) != a.found.value.assignment.value.pickupCodeHash then
              (w, RetrieveFailing(q.door))
            else (w, RetrievePricing(q.door, a.found.value))
  {
  }

  lemma RetrieveReadStep(c: Config, w: World, locked: set<Id>, q: Request, a: Answer)
    requires WorldOk(c, w) && Answers(c, w, locked, q, a)
    requires q.RetrieveChecking? || q.RetrieveFinding? || q.RetrieveLoading?
    ensures var (w', q') := Next(c, w, q, a);
            w' == w && RequestOk(c, w, q')
  {
    hide WorldOk, FindActiveByLocker;
    if q.RetrieveLoading? {
      if a.found.Some? {
        ReadAtDoorIsKnown(c, w, q.door, a.found);
      }
      LoadingNext(c, w, q, a);
    }
  }

  lemma ReissueReadStep(c: Config, w: World, locked: set<Id>, q: Request, a: Answer)
    requires WorldOk(c, w) && RequestOk(c, w, q) && Answers(c, w, locked, q, a)
    requires q.ReissueChecking? || q.ReissueLoading? || q.ReissueFinding?
    ensures var (w', q') := Next(c, w, q, a);
            w' == w && RequestOk(c, w, q')
  {
    hide WorldOk, FindById;
    if q.ReissueLoading? && a.found.Some? {
      ReadIsKnown(w, q.packageId, a.found);
    }
  }

  lemma ReadStep(c: Config, w: World, locked: set<Id>, q: Request, a: Answer)
    requires WorldOk(c, w) && RequestOk(c, w, q) && Answers(c, w, locked, q, a)
    requires q.RetrieveChecking? || q.RetrieveFinding? || q.RetrieveLoading?
             || q.ReissueChecking? || q.ReissueLoading? || q.ReissueFinding?
    ensures var (w', q') := Next(c, w, q, a);
            w' == w && RequestOk(c, w, q')
  {
    if q.RetrieveChecking? || q.RetrieveFinding? || q.RetrieveLoading? {
      RetrieveReadStep(c, w, locked, q, a);
    } else {
      ReissueReadStep(c, w, locked, q, a);
    }
  }

  /** The clock read while pricing may even lie before `storedAt`: the closed copy, clamped, still
      carries the price of its own stay. */
  lemma PriceStep(c: Config, w: World, locked: set<Id>, q: Request, a: Answer)
    requires WorldOk(c, w) && RequestOk(c, w, q) && q.RetrievePricing?
    ensures var (w', q') := Next(c, w, q, a);
            w' == w && RequestOk(c, w, q')
  {
    var la := q.pkg.assignment.value;
    Rates.QuoteOfClamped(w.rates, q.pkg.size, la.storedAt, a.reading);
    Rates.PricedExactlyFromTheFirstVersionOn(w.rates, q.pkg.size, la.storedAt, a.reading);
  }

  lemma SaveCloses(w: World, pkg: Package)
    requires ClosedAtPrice(w, pkg)
    requires var la := pkg.assignment.value;
             CloseTx(w.tables, la.id, pkg.id, la.retrievedAt.value, la.storageFeeMinor.value).Some?
    ensures var la := pkg.assignment.value;
            var w' := w.(tables := CloseTx(w.tables, la.id, pkg.id, la.retrievedAt.value, la.storageFeeMinor.value).value);
            && ClosedAtPrice(w', pkg)
            && RowClosed(w', la.id, pkg.id, la.lockerId, la.retrievedAt.value, la.storageFeeMinor.value)
  {
  }

  lemma SaveStep(c: Config, w: World, q: Request, a: Answer, held: set<Id>)
    requires WorldOk(c, w) && RequestOk(c, w, q) && q.RetrieveSaving?
    ensures var (w', q') := Next(c, w, q, a);
            WorldOk(c, w') && Evolves(w, w', held) && RequestOk(c, w', q')
  {
    var la := q.pkg.assignment.value;
    var closed := CloseTx(w.tables, la.id, q.pkg.id, la.retrievedAt.value, la.storageFeeMinor.value);
    SaveNext(c, w, q, a);
    if closed.Some? {
      CloseTxSafe(c, w, la.id, q.pkg.id, la.retrievedAt.value, la.storageFeeMinor.value, held);
      SaveCloses(w, q.pkg);
    } else {
      EvolvesReflexive(w, held);
    }
  }

  lemma SaveNext(c: Config, w: World, q: Request, a: Answer)
    requires q.RetrieveSaving? && HasClosed(q.pkg)
    ensures var la := q.pkg.assignment.value;
            var closed := CloseTx(w.tables, la.id, q.pkg.id, la.retrievedAt.value, la.storageFeeMinor.value);
            Next(c, w, q, a) == if closed.None? then (w, Fail(PackageAlreadyRetrieved))
                                else (w.(tables := closed.value), RetrieveClearing(q.door, q.pkg))
  {
  }

  lemma RehashNext(c: Config, w: World, q: Request, a: Answer)
    requires q.ReissueSaving? && q.pkg.assignment.Some?
    ensures var la := q.pkg.assignment.value;
            Next(c, w, q, a) == match SetHash(w.tables, la.id, la.pickupCodeHash)
                                case None => (w, Fail(PackageAlreadyRetrieved))
                                case Some(t') => (w.(tables := t'), ReissueTouching(q.packageId, q.pkg, q.code))
  {
  }

  lemma RehashStep(c: Config, w: World, q: Request, a: Answer, held: set<Id>)
    requires WorldOk(c, w) && RequestOk(c, w, q) && q.ReissueSaving?
    ensures var (w', q') := Next(c, w, q, a);
            WorldOk(c, w') && Evolves(w, w', held) && RequestOk(c, w', q')
  {
    var la := q.pkg.assignment.value;
    var t' := SetHash(w.tables, la.id, la.pickupCodeHash);
    RehashNext(c, w, q, a);
    if t'.Some? {
      SetHashSafe(c, w, la.id, la.pickupCodeHash, held);
      KnownStays(w, w.(tables := t'.value), held, q.pkg);
    } else {
      EvolvesReflexive(w, held);
    }
  }

  lemma TouchStep(c: Config, w: World, q: Request, a: Answer, held: set<Id>)
    requires WorldOk(c, w) && RequestOk(c, w, q) && q.ReissueTouching?
    ensures var (w', q') := Next(c, w, q, a);
            WorldOk(c, w') && Evolves(w, w', held) && RequestOk(c, w', q')
  {
    TouchSafe(c, w, q.pkg.id, q.pkg.updatedAt, held);
    KnownStays(w, Next(c, w, q, a).0, held, q.pkg);
  }

  lemma CounterNext(c: Config, w: World, q: Request, a: Answer)
    requires RequestOk(c, w, q)
    requires q.RetrieveFailing? || q.RetrieveClearing? || q.ReissueCounting? || q.ReissueClearing?
    ensures var (w', q') := Next(c, w, q, a);
            && w' == w.(counters := w'.counters)
            && match q
               case RetrieveFailing(_) => q' == Fail(NothingMatches)
               case RetrieveClearing(door, pkg) =>
                 var la := pkg.assignment.value;
                 q' == Finished(RetrieveDone(pkg.id, la.id, door, la.retrievedAt.value, la.storageFeeMinor.value))
               case ReissueCounting(p, pkg, code) => q' == ReissueClearing(p, pkg, code)
               case ReissueClearing(p, pkg, code) => q' == Finished(ReissueDone(p, pkg.assignment.value.lockerId, code))
  {
  }

  lemma CounterStep(c: Config, w: World, q: Request, a: Answer, held: set<Id>)
    requires WorldOk(c, w) && RequestOk(c, w, q)
    requires q.RetrieveFailing? || q.RetrieveClearing? || q.ReissueCounting? || q.ReissueClearing?
    ensures var (w', q') := Next(c, w, q, a);
            WorldOk(c, w') && Evolves(w, w', held) && RequestOk(c, w', q')
  {
    var w' := Next(c, w, q, a).0;
    CounterNext(c, w, q, a);
    CountersDoNotMatter(c, w, w'.counters, held);
  }

  lemma StoreOwnStep(c: Config, w: World, locked: set<Id>, q: Request, a: Answer, held: set<Id>)
    requires WorldOk(c, w) && RequestOk(c, w, q) && Answers(c, w, locked, q, a)
    requires q.StoreLoading? || q.StoreAtStation? || q.StoreAllocating? || q.StoreInserting?
    ensures var (w', q') := Next(c, w, q, a);
            WorldOk(c, w') && Evolves(w, w', held) && RequestOk(c, w', q')
  {
    if q.StoreInserting? {
      InsertStep(c, w, locked, q, a, held);
    } else {
      StoreStep(c, w, locked, q, a, held);
      EvolvesReflexive(w, held);
    }
  }

  lemma RetrieveOwnStep(c: Config, w: World, locked: set<Id>, q: Request, a: Answer, held: set<Id>)
    requires WorldOk(c, w) && RequestOk(c, w, q) && Answers(c, w, locked, q, a)
    requires q.RetrieveChecking? || q.RetrieveFinding? || q.RetrieveLoading? || q.RetrieveFailing?
             || q.RetrievePricing? || q.RetrieveSaving? || q.RetrieveClearing?
    ensures var (w', q') := Next(c, w, q, a);
            WorldOk(c, w') && Evolves(w, w', held) && RequestOk(c, w', q')
  {
    if q.RetrieveSaving? {
      SaveStep(c, w, q, a, held);
    } else if q.RetrieveFailing? || q.RetrieveClearing? {
      CounterStep(c, w, q, a, held);
    } else {
      EvolvesReflexive(w, held);
      if q.RetrievePricing? {
        PriceStep(c, w, locked, q, a);
      } else {
        ReadStep(c, w, locked, q, a);
      }
    }
  }

  lemma ReissueOwnStep(c: Config, w: World, locked: set<Id>, q: Request, a: Answer, held: set<Id>)
    requires WorldOk(c, w) && RequestOk(c, w, q) && Answers(c, w, locked, q, a)
    requires q.ReissueChecking? || q.ReissueLoading? || q.ReissueFinding? || q.ReissueSaving?
             || q.ReissueTouching? || q.ReissueCounting? || q.ReissueClearing?
    ensures var (w', q') := Next(c, w, q, a);
            WorldOk(c, w') && Evolves(w, w', held) && RequestOk(c, w', q')
  {
    if q.ReissueSaving? {
      RehashStep(c, w, q, a, held);
    } else if q.ReissueTouching? {
      TouchStep(c, w, q, a, held);
    } else if q.ReissueCounting? || q.ReissueClearing? {
      CounterStep(c, w, q, a, held);
    } else {
      EvolvesReflexive(w, held);
      ReadStep(c, w, locked, q, a);
    }
  }

  lemma OwnStep(c: Config, w: World, locked: set<Id>, q: Request, a: Answer, held: set<Id>)
    requires WorldOk(c, w) && RequestOk(c, w, q) && Answers(c, w, locked, q, a)
    ensures var (w', q') := Next(c, w, q, a);
            WorldOk(c, w') && Evolves(w, w', held) && RequestOk(c, w', q')
  {
    if q.StoreLoading? || q.StoreAtStation? || q.StoreAllocating? || q.StoreInserting? {
      StoreOwnStep(c, w, locked, q, a, held);
    } else if q.RetrieveChecking? || q.RetrieveFinding? || q.RetrieveLoading? || q.RetrieveFailing?
              || q.RetrievePricing? || q.RetrieveSaving? || q.RetrieveClearing?
    {
      RetrieveOwnStep(c, w, locked, q, a, held);
    } else {
      ReissueOwnStep(c, w, locked, q, a, held);
    }
  }
}
