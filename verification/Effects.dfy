/**
 * What each turn of a call does and answers, said of the tables' columns and the counters alone:
 * when it goes on, when it fails and with what, and everything it changes
 * (mysql-package.repository.ts and the three services).
 */
module Effects {
  import opened Common
  import opened Packages
  import opened Database
  import opened AttemptCounter
  import opened Protocol
  import opened Safety
  import opened Interleaving
  import opened Calls
  import Turns
  import PriceHistory
  import Rates = StorageRateTable

  /** A turn of a call that is where it may be, in a sound world. */
  ghost predicate Proper(c: Config, t: Turn) {
    Took(c, t) && WorldOk(c, t.before) && RequestOk(c, t.before, t.request)
  }

  lemma TurnIsProper(c: Config, p: Progress)
    requires Performed(c, p) && p.log != []
    ensures Proper(c, p.Last())
  {
    hide Next, Evolves, WorldOk, RequestOk;
    BeforeLast(c, p);
    CallIsSafe(c, p.Before());
  }

  // ---- Store ----

  lemma StoreLoadingTurn(c: Config, t: Turn)
    requires Proper(c, t) && t.request.StoreLoading?
    ensures var id, packages := t.request.call.packageId, t.before.tables.packages;
            && t.after == t.before
            && (t.next == Fail(PackageNotFound) <==> id !in packages)
            && (t.next == Fail(PackageAlreadyStored) <==> id in packages && packages[id].status != Registered)
            && (t.next.StoreAtStation? <==> id in packages && packages[id].status == Registered)
            && (t.next.StoreAtStation? ==> t.next.call == t.request.call && t.next.pkg.id == id && t.next.pkg.size == packages[id].size)
  {
    hide WorldOk;
  }

  lemma StationTurn(c: Config, t: Turn)
    requires Proper(c, t) && t.request.StoreAtStation?
    ensures var id, stations := t.request.call.stationId, t.before.tables.stations;
            && t.after == t.before
            && (t.next == Fail(StationMissing) <==> id !in stations)
            && (t.next == Fail(StationClosed) <==> id in stations && !stations[id])
            && (t.next.StoreAllocating? <==> id in stations && stations[id])
            && (t.next.StoreAllocating? ==> t.next == StoreAllocating(t.request.call, t.request.pkg, 1))
  {
    hide WorldOk;
  }

  /** An in-service locker of the station, large enough, free in the snapshot and not held. */
  predicate Suits(t: Tables, shown: set<Id>, held: set<Id>, stationId: Id, size: Size, l: Id) {
    && l in t.lockers && l !in shown && l !in held
    && t.lockers[l].stationId == stationId && t.lockers[l].status == InService && t.lockers[l].size.Fits(size)
  }

  /** A smaller locker, or one as large with a code that sorts earlier. */
  predicate ComesFirst(weight: string -> real, a: LockerRow, b: LockerRow) {
    !a.size.Fits(b.size) || (a.size == b.size && weight(a.code) < weight(b.code))
  }

  /** The first suitable locker, or the failure when there is none; the row to be written takes its
      stamp from the clock, its id and code from what was drawn, its agent from the call. */
  lemma AllocatingTurn(c: Config, t: Turn)
    requires Proper(c, t) && t.request.StoreAllocating?
    ensures t.after == t.before && t.answer.reading <= t.before.now
    ensures var call, pkg := t.request.call, t.request.pkg;
            if !exists l :: Suits(t.before.tables, t.answer.shown, t.locked, call.stationId, pkg.size, l) then
              t.next == Fail(NoSuitableLocker)
            else
              && t.next.StoreInserting? && t.next.call == call && t.next.pkg == pkg && t.next.attempt == t.request.attempt
              && t.next.code == t.answer.code && t.next.stored.assignment.Some?
              && var la := t.next.stored.assignment.value;
                 && la.id == t.answer.id && la.pickupCodeHash == c.hash(t.answer.code, t.answer.id)
                 && la.storedByAgent == call.agent && la.storedAt == t.answer.reading
                 && Suits(t.before.tables, t.answer.shown, t.locked, call.stationId, pkg.size, la.lockerId)
                 && forall l | Suits(t.before.tables, t.answer.shown, t.locked, call.stationId, pkg.size, l) && l != la.lockerId ::
                      ComesFirst(c.weight, t.before.tables.lockers[la.lockerId], t.before.tables.lockers[l])
  {
    hide WorldOk;
    var call, pkg := t.request.call, t.request.pkg;
    forall l ensures Candidate(t.before.tables, t.answer.shown, t.locked, call.stationId, pkg.size, l)
                <==> Suits(t.before.tables, t.answer.shown, t.locked, call.stationId, pkg.size, l)
    {
    }
    if t.answer.locker.Some? {
      assert Candidate(t.before.tables, t.answer.shown, t.locked, call.stationId, pkg.size, t.answer.locker.value);
    }
  }

  ghost predicate IdUsed(t: Turn)
    requires t.request.StoreInserting? && t.request.stored.assignment.Some?
  {
    t.request.stored.assignment.value.id in t.before.tables.assignments
  }

  ghost predicate LockerTaken(t: Turn)
    requires t.request.StoreInserting? && t.request.stored.assignment.Some?
  {
    Occupied(t.before.tables, t.request.stored.assignment.value.lockerId)
  }

  ghost predicate ParcelHasRow(t: Turn)
    requires t.request.StoreInserting?
  {
    HasRow(t.before.tables, t.request.call.packageId)
  }

  function Retry(q: Request): Request
    requires q.StoreInserting?
  {
    if q.attempt < 3 then StoreAllocating(q.call, q.pkg, q.attempt + 1) else Fail(LostEveryRace)
  }

  /** A clash on the parcel's own row ends the call; any other sends it back to allocate while
      attempts are left; without one the row is written and the parcel is STORED. */
  lemma InsertingTurn(c: Config, t: Turn)
    requires Proper(c, t) && t.request.StoreInserting?
    ensures t.request.stored.assignment.Some?
    ensures t.next == Fail(PackageAlreadyStored) ==> ParcelHasRow(t)
    ensures t.next == Retry(t.request) ==> IdUsed(t) || LockerTaken(t)
    ensures ParcelHasRow(t) && !IdUsed(t) && !LockerTaken(t) ==> t.next == Fail(PackageAlreadyStored)
    ensures !ParcelHasRow(t) && (IdUsed(t) || LockerTaken(t)) ==> t.next == Retry(t.request)
    ensures IdUsed(t) || LockerTaken(t) || ParcelHasRow(t) ==>
              t.after == t.before && (t.next == Fail(PackageAlreadyStored) || t.next == Retry(t.request))
    ensures !IdUsed(t) && !LockerTaken(t) && !ParcelHasRow(t) ==>
              var la, id, tables := t.request.stored.assignment.value, t.request.call.packageId, t.before.tables;
              && id in tables.packages
              && t.after == t.before.(tables := tables.(
                   assignments := tables.assignments[la.id :=
                     AssignmentRow(id, la.lockerId, la.pickupCodeHash, la.storedByAgent, la.storedAt, None, None)],
                   packages := tables.packages[id :=
                     PackageRow(tables.packages[id].customerId, tables.packages[id].size, Stored, la.storedAt)]))
              && t.next == Finished(StoreDone(id, la.id, la.lockerId, t.request.call.stationId, t.request.code))
  {
    hide WorldOk;
    var la, id, tables := t.request.stored.assignment.value, t.request.call.packageId, t.before.tables;
    var row := AssignmentRow(id, la.lockerId, la.pickupCodeHash, la.storedByAgent, la.storedAt, None, None);
    assert IdUsed(t) <==> Violates(tables, la.id, row, PrimaryKey);
    assert LockerTaken(t) <==> Violates(tables, la.id, row, OneActivePerLocker);
    assert ParcelHasRow(t) <==> Violates(tables, la.id, row, OnePerPackage);
    assert ViolatesAny(tables, la.id, row) <==> IdUsed(t) || LockerTaken(t) || ParcelHasRow(t);
  }

  // ---- Retrieve ----

  lemma RetrieveCheckingTurn(c: Config, t: Turn)
    requires Proper(c, t) && t.request.RetrieveChecking?
    ensures var door, code := t.request.door, t.request.code;
            && t.after == t.before
            && t.next == (if Blocked(c.doorLimit, t.before.Slot(Door(door)), t.before.now) then Fail(TooManyAttempts)
                          else if |code| != 6 || exists ch :: ch in code && !('0' <= ch <= '9') then Fail(MalformedCode)
                          else RetrieveFinding(door, code))
  {
    hide WorldOk;
    BlockLeftMeans(c.doorLimit, t.before.Slot(Door(t.request.door)), t.before.now);
  }

  lemma RetrieveFindingTurn(c: Config, t: Turn)
    requires Proper(c, t) && t.request.RetrieveFinding?
    ensures t.after == t.before
    ensures t.next == if t.request.door in t.before.tables.lockers then RetrieveLoading(t.request.door, t.request.code)
                      else Fail(NothingMatches)
  {
    hide WorldOk;
  }

  predicate OpenAt(t: Tables, door: Id, id: Id) {
    id in t.assignments && t.assignments[id].retrievedAt == None && t.assignments[id].lockerId == door
  }

  /** The code is compared with the one open row at the door, if there is one. */
  lemma RetrieveLoadingTurn(c: Config, t: Turn)
    requires Proper(c, t) && t.request.RetrieveLoading?
    ensures var door, code, tables := t.request.door, t.request.code, t.before.tables;
            && t.after == t.before
            && (t.next == Fail(NothingMatches) <==> !exists id :: OpenAt(tables, door, id))
            && forall id | OpenAt(tables, door, id) ::
                 if c.hash(code, id) != tables.assignments[id].pickupCodeHash then t.next == RetrieveFailing(door)
                 else
                   && t.next.RetrievePricing? && t.next.door == door && t.next.pkg.id == tables.assignments[id].packageId
                   && t.next.pkg.assignment.Some? && t.next.pkg.assignment.value.id == id
  {
    var door, tables := t.request.door, t.before.tables;
    forall id | OpenAt(tables, door, id) ensures RowOk(tables, tables.assignments[id]) {
    }
    forall a, b | OpenAt(tables, door, a) && OpenAt(tables, door, b) ensures a == b {
      assert Compatible(tables.assignments[a], tables.assignments[b]) || a == b;
    }
    hide WorldOk;
    LoadingFinds(tables, door, t.answer.found);
    LoadingNext(c, t.before, t.request, t.answer);
    hide Next;
    if t.answer.found.None? {
      forall id ensures !OpenAt(tables, door, id) {
      }
    }
  }

  lemma LoadingFinds(tables: Tables, door: Id, found: Option<Package>)
    requires FindActiveByLocker(tables, door, found)
    ensures found.Some? ==>
              && found.value.assignment.Some?
              && var la := found.value.assignment.value;
                 OpenAt(tables, door, la.id) && found.value.id == tables.assignments[la.id].packageId
                 && la.pickupCodeHash == tables.assignments[la.id].pickupCodeHash
  {
  }

  /** A wrong code counts on its door's key, for a whole window from now, and on no other. */
  lemma RetrieveFailingTurn(c: Config, t: Turn)
    requires Proper(c, t) && t.request.RetrieveFailing? && 1 <= c.doorLimit.window
    ensures var key := Door(t.request.door);
            && t.after == t.before.(counters := t.before.counters[key :=
                 Entry(CountOf(c.doorLimit.lingers, t.before.Slot(key), t.before.now) + 1, Some(t.before.now + c.doorLimit.window))])
            && t.next == Fail(NothingMatches)
  {
    hide WorldOk;
  }

  function Later(a: int, b: int): int {
    if a < b then b else a
  }

  /** Goes on to save exactly when the size had a version by the time the stay began; what is to be
      recorded is the later of the reading and `storedAt`, and the price of the days begun by then. */
  lemma RetrievePricingTurn(c: Config, t: Turn)
    requires Proper(c, t) && t.request.RetrievePricing?
    ensures t.after == t.before && t.request.pkg.assignment.Some?
    ensures var id, w := t.request.pkg.assignment.value.id, t.before;
            && id in w.tables.assignments && t.request.pkg.id in w.tables.packages
            && var row, size := w.tables.assignments[id], w.tables.packages[t.request.pkg.id].size;
               var at := Later(t.answer.reading, row.storedAt);
               if exists r :: r in w.rates && r.size == size && r.effectiveFrom <= row.storedAt then
                 && t.next.RetrieveSaving? && t.next.door == t.request.door && t.next.pkg.id == t.request.pkg.id
                 && t.next.pkg.assignment.Some?
                 && var la := t.next.pkg.assignment.value;
                    && la.id == id && la.storedAt == row.storedAt && la.retrievedAt == Some(at) && la.storageFeeMinor.Some?
                    && PriceHistory.ChargedByTheDay(w.rates, size, row.storedAt, at, la.storageFeeMinor.value)
               else t.next == Fail(CannotPrice)
  {
    var la, size := t.request.pkg.assignment.value, t.request.pkg.size;
    var at := Later(t.answer.reading, la.storedAt);
    assert Rates.Sound(t.before.rates);
    hide WorldOk;
    PriceHistory.QuotedByTheDay(t.before.rates, size, la.storedAt, t.answer.reading);
    PriceHistory.QuotedByTheDay(t.before.rates, size, la.storedAt, at);
    Rates.QuoteOfClamped(t.before.rates, size, la.storedAt, t.answer.reading);
    hide Rates.Quote, PriceHistory.ChargedByTheDay;
  }

  /** A row still open is closed as priced, and its parcel RETRIEVED at that instant; otherwise
      nothing changes. */
  lemma RetrieveSavingTurn(c: Config, t: Turn)
    requires Proper(c, t) && t.request.RetrieveSaving?
    ensures HasClosed(t.request.pkg)
    ensures var la, p, tables := t.request.pkg.assignment.value, t.request.pkg.id, t.before.tables;
            && la.id in tables.assignments && p in tables.packages && tables.assignments[la.id].packageId == p
            && if tables.assignments[la.id].retrievedAt == None then
                 && t.after == t.before.(tables := tables.(
                      assignments := tables.assignments[la.id := tables.assignments[la.id].(
                        retrievedAt := la.retrievedAt, storageFeeMinor := la.storageFeeMinor)],
                      packages := tables.packages[p :=
                        PackageRow(tables.packages[p].customerId, tables.packages[p].size, Retrieved, la.retrievedAt.value)]))
                 && t.next == RetrieveClearing(t.request.door, t.request.pkg)
               else t.after == t.before && t.next == Fail(PackageAlreadyRetrieved)
  {
    hide WorldOk, Rates.Quote;
    SaveNext(c, t.before, t.request, t.answer);
    hide Next;
  }

  lemma RetrieveClearingTurn(c: Config, t: Turn)
    requires Proper(c, t) && t.request.RetrieveClearing?
    ensures HasClosed(t.request.pkg)
    ensures t.after == t.before.(counters := t.before.counters - {Door(t.request.door)})
    ensures var la := t.request.pkg.assignment.value;
            t.next == Finished(RetrieveDone(t.request.pkg.id, la.id, t.request.door, la.retrievedAt.value, la.storageFeeMinor.value))
  {
    hide WorldOk, Rates.Quote;
  }

  // ---- Re-issue ----

  lemma ReissueCheckingTurn(c: Config, t: Turn)
    requires Proper(c, t) && t.request.ReissueChecking?
    ensures t.after == t.before
    ensures t.next == if Blocked(c.reissueLimit, t.before.Slot(Parcel(t.request.packageId)), t.before.now) then Fail(TooManyReissues)
                      else ReissueLoading(t.request.customerId, t.request.packageId)
  {
    hide WorldOk;
    BlockLeftMeans(c.reissueLimit, t.before.Slot(Parcel(t.request.packageId)), t.before.now);
  }

  predicate OpenFor(t: Tables, packageId: Id, id: Id) {
    id in t.assignments && t.assignments[id].retrievedAt == None && t.assignments[id].packageId == packageId
  }

  /** Only the customer's own parcel, and only while it has an open row. */
  lemma ReissueLoadingTurn(c: Config, t: Turn)
    requires Proper(c, t) && t.request.ReissueLoading?
    ensures var p, tables := t.request.packageId, t.before.tables;
            && t.after == t.before
            && if p !in tables.packages || tables.packages[p].customerId != t.request.customerId then
                 t.next == Fail(NotReissuable)
               else if !exists id :: OpenFor(tables, p, id) then t.next == Fail(PackageNotStored)
               else
                 && t.next.ReissueFinding? && t.next.packageId == p && t.next.pkg.id == p
                 && t.next.pkg.assignment.Some? && OpenFor(tables, p, t.next.pkg.assignment.value.id)
  {
    var p, tables := t.request.packageId, t.before.tables;
    hide Next, TablesOk, FindById;
    ReissueFinds(c.weight, tables, p, t.answer.found);
    Turns.LoadsNext(c, t.before, t.request, t.answer);
  }

  lemma ReissueFinds(weight: string -> real, tables: Tables, p: Id, found: Option<Package>)
    requires TablesOk(weight, tables) && FindById(tables, p, found)
    ensures found.None? <==> p !in tables.packages
    ensures found.Some? ==>
              && found.value.id == p && found.value.customerId == tables.packages[p].customerId
              && (found.value.IsStored() <==> exists id :: OpenFor(tables, p, id))
              && (found.value.IsStored() ==> OpenFor(tables, p, found.value.assignment.value.id))
  {
    if p in tables.packages && HasRow(tables, p) {
      var a :| a in tables.assignments && tables.assignments[a].packageId == p
               && found == Some(ToPackage(p, tables.packages[p], Some(ToAssignment(a, tables.assignments[a]))));
      assert RowOk(tables, tables.assignments[a]);
      forall id | OpenFor(tables, p, id) ensures id == a {
        assert Compatible(tables.assignments[id], tables.assignments[a]) || id == a;
      }
      assert tables.assignments[a].Active() ==> OpenFor(tables, p, a);
    }
  }

  /** The new code is hashed under the row's own id, and stamped with the clock. */
  lemma ReissueFindingTurn(c: Config, t: Turn)
    requires Proper(c, t) && t.request.ReissueFinding?
    ensures t.after == t.before && t.request.pkg.assignment.Some?
    ensures var id := t.request.pkg.assignment.value.id;
            && t.next.ReissueSaving? && t.next.packageId == t.request.packageId && t.next.pkg.id == t.request.packageId
            && t.next.code == t.answer.code && t.next.pkg.updatedAt == t.answer.reading
            && t.next.pkg.assignment.Some? && t.next.pkg.assignment.value.id == id
            && t.next.pkg.assignment.value.pickupCodeHash == c.hash(t.answer.code, id)
            && t.next.pkg.assignment.value.lockerId == t.request.pkg.assignment.value.lockerId
  {
    assert RowOk(t.before.tables, t.before.tables.assignments[t.request.pkg.assignment.value.id]);
    hide WorldOk;
  }

  /** A row still open takes the new hash and nothing else; a closed one is left alone. */
  lemma ReissueSavingTurn(c: Config, t: Turn)
    requires Proper(c, t) && t.request.ReissueSaving?
    ensures t.request.pkg.assignment.Some?
    ensures var id, tables := t.request.pkg.assignment.value.id, t.before.tables;
            && id in tables.assignments
            && if tables.assignments[id].retrievedAt == None then
                 && t.after == t.before.(tables := tables.(assignments := tables.assignments[id :=
                      tables.assignments[id].(pickupCodeHash := c.hash(t.request.code, id))]))
                 && t.next == ReissueTouching(t.request.packageId, t.request.pkg, t.request.code)
               else t.after == t.before && t.next == Fail(PackageAlreadyRetrieved)
  {
    hide WorldOk;
    RehashNext(c, t.before, t.request, t.answer);
    hide Next;
  }

  lemma ReissueTouchingTurn(c: Config, t: Turn)
    requires Proper(c, t) && t.request.ReissueTouching?
    ensures var p, packages := t.request.packageId, t.before.tables.packages;
            && p in packages
            && t.after == t.before.(tables := t.before.tables.(packages := packages[p :=
                 PackageRow(packages[p].customerId, packages[p].size, packages[p].status, t.request.pkg.updatedAt)]))
            && t.next == ReissueCounting(p, t.request.pkg, t.request.code)
  {
    hide WorldOk;
  }

  lemma ReissueCountingTurn(c: Config, t: Turn)
    requires Proper(c, t) && t.request.ReissueCounting? && 1 <= c.reissueLimit.window
    ensures var key := Parcel(t.request.packageId);
            && t.after == t.before.(counters := t.before.counters[key :=
                 Entry(CountOf(c.reissueLimit.lingers, t.before.Slot(key), t.before.now) + 1, Some(t.before.now + c.reissueLimit.window))])
            && t.next == ReissueClearing(t.request.packageId, t.request.pkg, t.request.code)
  {
    hide WorldOk;
  }

  lemma ReissueClearingTurn(c: Config, t: Turn)
    requires Proper(c, t) && t.request.ReissueClearing?
    ensures t.request.pkg.assignment.Some?
    ensures var door := t.request.pkg.assignment.value.lockerId;
            && t.after == t.before.(counters := t.before.counters - {Door(door)})
            && t.next == Finished(ReissueDone(t.request.packageId, door, t.request.code))
  {
    hide WorldOk;
  }
}
