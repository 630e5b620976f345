/** What holds of the database in every reachable state, and what never changes from one
    state to any later one. */
module Safety {
  import opened Common
  import opened Packages
  import opened Database
  import opened AttemptCounter
  import opened Protocol
  import StorageRate
  import StorageRateSchedule
  import Rates = StorageRateTable

  // ---- The tables ----

  /** `uq_one_active_assignment_per_locker` and `uq_one_assignment_per_package`. */
  ghost predicate KeysHold(rows: map<Id, AssignmentRow>) {
    forall a, b | a in rows && b in rows :: Compatible(rows[a], rows[b]) || a == b
  }

  predicate Compatible(a: AssignmentRow, b: AssignmentRow) {
    && a.packageId != b.packageId
    && !(a.Active() && b.Active() && a.lockerId == b.lockerId)
  }

  /** Foreign keys, CHECK constraints, the fit, and the status that goes with the row. */
  ghost predicate RowOk(t: Tables, row: AssignmentRow) {
    && row.packageId in t.packages
    && row.lockerId in t.lockers
    && t.lockers[row.lockerId].size.Fits(t.packages[row.packageId].size)
    && (row.retrievedAt.None? <==> row.storageFeeMinor.None?)
    && (row.retrievedAt.Some? ==> row.storedAt <= row.retrievedAt.value && 0 <= row.storageFeeMinor.value)
    && t.packages[row.packageId].status == (if row.Active() then Stored else Retrieved)
    && (row.Active() ==> t.lockers[row.lockerId].Live())
  }

  ghost predicate LockerOk(t: Tables, l: LockerRow) {
    l.stationId in t.stations && (l.Live() ==> t.stations[l.stationId])
  }

  ghost predicate RowsOk(t: Tables) {
    forall a | a in t.assignments :: RowOk(t, t.assignments[a])
  }

  /** A parcel past REGISTERED has its row. */
  ghost predicate PackagesOk(t: Tables) {
    forall p | p in t.packages :: t.packages[p].status.Registered? || HasRow(t, p)
  }

  ghost predicate LockersOk(t: Tables) {
    forall l | l in t.lockers :: LockerOk(t, t.lockers[l])
  }

  ghost predicate TablesOk(weight: string -> real, t: Tables) {
    && KeysHold(t.assignments)
    && RowsOk(t)
    && PackagesOk(t)
    && LockersOk(t)
    && CodesUnique(weight, t)
  }

  /** The parcel's status and its row say the same thing, each way round. */
  lemma StatusIsTheRow(weight: string -> real, t: Tables, p: Id)
    requires TablesOk(weight, t) && p in t.packages
    ensures t.packages[p].status.Registered? <==> !HasRow(t, p)
    ensures t.packages[p].status.Stored?
       <==> exists a :: a in t.assignments && t.assignments[a].packageId == p && t.assignments[a].Active()
    ensures t.packages[p].status.Retrieved?
       <==> exists a :: a in t.assignments && t.assignments[a].packageId == p && !t.assignments[a].Active()
  {
  }

  /** Why `UPDATE package SET status = 'STORED'` needs no condition of its own. */
  lemma UnconditionalUpdateOverwritesOnlyRegistered(weight: string -> real, t: Tables, p: Id, a: LockerAssignment, key: UniqueKey)
    requires TablesOk(weight, t) && StoreTx(t, p, a, key).Ok?
    ensures p in t.packages && t.packages[p].status.Registered?
  {
    assert !Violates(t, a.id, ToRow(p, a), OnePerPackage);
    StatusIsTheRow(weight, t, p);
  }

  // ---- The world ----

  /** What a closed row was charged is what its own stay costs under the rates of the day it began. */
  ghost predicate Priced(rates: seq<Rates.RateRow>, t: Tables, row: AssignmentRow) {
    row.packageId in t.packages && row.retrievedAt.Some? && row.storageFeeMinor.Some? ==>
      Rates.Quote(rates, t.packages[row.packageId].size, row.storedAt, row.retrievedAt.value)
      == Ok(row.storageFeeMinor.value)
  }

  ghost predicate WorldOk(c: Config, w: World) {
    && TablesOk(c.weight, w.tables)
    && Rates.Sound(w.rates)
    && forall a | a in w.tables.assignments ::
         Priced(w.rates, w.tables, w.tables.assignments[a]) && w.tables.assignments[a].storedAt <= w.now
  }

  // ---- From one state to a later one ----

  ghost predicate PackagesEvolve(t: Tables, t': Tables) {
    forall p | p in t.packages ::
      && p in t'.packages
      && t'.packages[p].customerId == t.packages[p].customerId
      && t'.packages[p].size == t.packages[p].size
      && t.packages[p].status.Stage() <= t'.packages[p].status.Stage()
  }

  /** A row keeps everything but its code until it is closed, and then keeps that too. */
  predicate RowEvolves(row: AssignmentRow, row': AssignmentRow) {
    && row'.packageId == row.packageId
    && row'.lockerId == row.lockerId
    && row'.storedByAgent == row.storedByAgent
    && row'.storedAt == row.storedAt
    && (!row.Active() ==> row' == row)
  }

  ghost predicate RowsEvolve(t: Tables, t': Tables) {
    forall a | a in t.assignments :: a in t'.assignments && RowEvolves(t.assignments[a], t'.assignments[a])
  }

  /** Hardware stays put, and a retired locker is frozen. */
  predicate LockerEvolves(l: LockerRow, l': LockerRow) {
    l'.stationId == l.stationId && l'.size == l.size && (!l.Live() ==> l' == l)
  }

  /** Nobody changes a row somebody else holds locked. */
  ghost predicate LockersEvolve(t: Tables, t': Tables, held: set<Id>) {
    forall l | l in t.lockers ::
      && l in t'.lockers
      && LockerEvolves(t.lockers[l], t'.lockers[l])
      && (l in held ==> t'.lockers[l] == t.lockers[l])
  }

  ghost predicate StationsEvolve(t: Tables, t': Tables) {
    forall x | x in t.stations :: x in t'.stations && (!t.stations[x] ==> !t'.stations[x])
  }

  /** Nothing published later changes the bands in force at an instant already reached. */
  ghost predicate RatesEvolve(w: World, w': World) {
    && w.rates <= w'.rates
    && forall size, asOf | asOf <= w.now ::
         Rates.FindBandsFor(w'.rates, size, asOf) == Rates.FindBandsFor(w.rates, size, asOf)
  }

  ghost predicate Evolves(w: World, w': World, held: set<Id>) {
    && w.now <= w'.now
    && PackagesEvolve(w.tables, w'.tables)
    && RowsEvolve(w.tables, w'.tables)
    && LockersEvolve(w.tables, w'.tables, held)
    && StationsEvolve(w.tables, w'.tables)
    && RatesEvolve(w, w')
  }

  lemma EvolvesReflexive(w: World, held: set<Id>)
    ensures Evolves(w, w, held)
  {
  }

  lemma EvolvesTransitive(a: World, b: World, c: World, held: set<Id>)
    requires Evolves(a, b, held) && Evolves(b, c, held)
    ensures Evolves(a, c, held)
  {
  }

  /** A quote for a stay already begun is the same ever after. */
  lemma QuoteIsStable(w: World, w': World, size: Size, storedAt: int, retrievedAt: int)
    requires RatesEvolve(w, w') && storedAt <= w.now
    ensures Rates.Quote(w'.rates, size, storedAt, retrievedAt) == Rates.Quote(w.rates, size, storedAt, retrievedAt)
  {
  }

  // ---- The three writes of the protocol ----

  /** Rows outside `touched` are as they were. */
  ghost predicate SameRowsBut(t: Tables, t': Tables, touched: set<Id>) {
    forall a | a in t'.assignments && a !in touched ::
      a in t.assignments && t'.assignments[a] == t.assignments[a]
  }

  ghost predicate TablesEvolve(t: Tables, t': Tables, held: set<Id>) {
    PackagesEvolve(t, t') && RowsEvolve(t, t') && LockersEvolve(t, t', held) && StationsEvolve(t, t')
  }

  /** Only the tables differ, with new facts only about the rows `touched`. */
  lemma TablesChange(c: Config, w: World, t': Tables, touched: set<Id>, held: set<Id>)
    requires WorldOk(c, w) && TablesOk(c.weight, t')
    requires TablesEvolve(w.tables, t', held) && SameRowsBut(w.tables, t', touched)
    requires forall a | a in t'.assignments && a in touched ::
               Priced(w.rates, t', t'.assignments[a]) && t'.assignments[a].storedAt <= w.now
    ensures WorldOk(c, w.(tables := t')) && Evolves(w, w.(tables := t'), held)
  {
  }

  ghost predicate Insertable(w: World, packageId: Id, a: LockerAssignment) {
    && packageId in w.tables.packages
    && a.lockerId in w.tables.lockers
    && w.tables.lockers[a.lockerId].Live()
    && w.tables.lockers[a.lockerId].size.Fits(w.tables.packages[packageId].size)
    && a.storedAt <= w.now
  }

  lemma InsertKeepsKeys(t: Tables, id: Id, row: AssignmentRow)
    requires KeysHold(t.assignments) && row.Active() && !ViolatesAny(t, id, row)
    ensures KeysHold(t.assignments[id := row])
  {
    assert !Violates(t, id, row, OneActivePerLocker) && !Violates(t, id, row, OnePerPackage);
    forall a | a in t.assignments ensures Compatible(t.assignments[a], row) {
      assert t.assignments[a].packageId == row.packageId ==> HasRow(t, row.packageId);
    }
  }

  lemma UpdateKeepsKeys(rows: map<Id, AssignmentRow>, id: Id, row: AssignmentRow)
    requires KeysHold(rows) && id in rows
    requires row.packageId == rows[id].packageId && row.lockerId == rows[id].lockerId && (row.Active() ==> rows[id].Active())
    ensures KeysHold(rows[id := row])
  {
  }

  /** Rows go on naming the packages they named. */
  lemma StillHasRow(t: Tables, t': Tables, p: Id)
    requires HasRow(t, p)
    requires forall a | a in t.assignments :: a in t'.assignments && t'.assignments[a].packageId == t.assignments[a].packageId
    ensures HasRow(t', p)
  {
  }

  lemma StoreTxTables(weight: string -> real, t: Tables, packageId: Id, a: LockerAssignment, key: UniqueKey)
    requires TablesOk(weight, t) && StoreTx(t, packageId, a, key).Ok?
    requires t.lockers[a.lockerId].Live() && t.lockers[a.lockerId].size.Fits(t.packages[packageId].size)
    ensures TablesOk(weight, StoreTx(t, packageId, a, key).value)
    ensures t.packages[packageId].status.Registered? && a.id !in t.assignments
  {
    var t' := StoreTx(t, packageId, a, key).value;
    var row := ToRow(packageId, a);
    assert !Violates(t, a.id, row, PrimaryKey) && !Violates(t, a.id, row, OnePerPackage);
    InsertKeepsKeys(t, a.id, row);
    UnconditionalUpdateOverwritesOnlyRegistered(weight, t, packageId, a, key);
    forall x | x in t'.assignments ensures RowOk(t', t'.assignments[x]) {
      if x != a.id {
        assert RowOk(t, t.assignments[x]);
        assert t.assignments[x].packageId == packageId ==> HasRow(t, packageId);
      }
    }
    forall p | p in t'.packages ensures t'.packages[p].status.Registered? || HasRow(t', p) {
      if p == packageId {
        assert t'.assignments[a.id].packageId == p;
      } else if HasRow(t, p) {
        StillHasRow(t, t', p);
      }
    }
  }

  lemma StoreTxEvolves(weight: string -> real, t: Tables, packageId: Id, a: LockerAssignment, key: UniqueKey, held: set<Id>)
    requires TablesOk(weight, t) && StoreTx(t, packageId, a, key).Ok?
    ensures var t' := StoreTx(t, packageId, a, key).value;
            TablesEvolve(t, t', held) && SameRowsBut(t, t', {a.id}) && t'.assignments[a.id] == ToRow(packageId, a)
  {
    assert !Violates(t, a.id, ToRow(packageId, a), PrimaryKey);
    UnconditionalUpdateOverwritesOnlyRegistered(weight, t, packageId, a, key);
  }

  lemma StoreTxSafe(c: Config, w: World, packageId: Id, a: LockerAssignment, key: UniqueKey, held: set<Id>)
    requires WorldOk(c, w) && Insertable(w, packageId, a) && StoreTx(w.tables, packageId, a, key).Ok?
    ensures var w' := w.(tables := StoreTx(w.tables, packageId, a, key).value);
            WorldOk(c, w') && Evolves(w, w', held)
  {
    StoreTxTables(c.weight, w.tables, packageId, a, key);
    StoreTxEvolves(c.weight, w.tables, packageId, a, key, held);
    TablesChange(c, w, StoreTx(w.tables, packageId, a, key).value, {a.id}, held);
  }

  lemma SetHashTables(weight: string -> real, t: Tables, id: Id, hash: string)
    requires TablesOk(weight, t) && SetHash(t, id, hash).Some?
    ensures TablesOk(weight, SetHash(t, id, hash).value)
  {
    var t' := SetHash(t, id, hash).value;
    UpdateKeepsKeys(t.assignments, id, t'.assignments[id]);
    RowsOkAfter(t, t');
    PackagesOkAfter(t, t');
  }

  lemma SetHashEvolves(t: Tables, id: Id, hash: string, held: set<Id>)
    requires SetHash(t, id, hash).Some?
    ensures var t' := SetHash(t, id, hash).value;
            && TablesEvolve(t, t', held) && SameRowsBut(t, t', {id})
            && t'.assignments[id] == t.assignments[id].(pickupCodeHash := hash)
  {
  }

  lemma SetHashSafe(c: Config, w: World, id: Id, hash: string, held: set<Id>)
    requires WorldOk(c, w) && SetHash(w.tables, id, hash).Some?
    ensures var w' := w.(tables := SetHash(w.tables, id, hash).value);
            WorldOk(c, w') && Evolves(w, w', held)
  {
    SetHashTables(c.weight, w.tables, id, hash);
    SetHashEvolves(w.tables, id, hash, held);
    TablesChange(c, w, SetHash(w.tables, id, hash).value, {id}, held);
  }

  /** Row by row nothing changes that `RowOk` looks at. */
  lemma RowsOkAfter(t: Tables, t': Tables)
    requires RowsOk(t) && t'.assignments.Keys == t.assignments.Keys && t'.lockers == t.lockers
    requires forall a | a in t.assignments ::
               t'.assignments[a] == t.assignments[a].(pickupCodeHash := t'.assignments[a].pickupCodeHash)
    requires forall p | p in t.packages :: p in t'.packages && t'.packages[p].status == t.packages[p].status
                                           && t'.packages[p].size == t.packages[p].size
    ensures RowsOk(t')
  {
  }

  lemma PackagesOkAfter(t: Tables, t': Tables)
    requires PackagesOk(t)
    requires forall a | a in t.assignments :: a in t'.assignments && t'.assignments[a].packageId == t.assignments[a].packageId
    requires forall p | p in t'.packages ::
               t'.packages[p].status.Registered? || (p in t.packages && t'.packages[p].status == t.packages[p].status)
               || HasRow(t, p)
    ensures PackagesOk(t')
  {
  }

  lemma TouchTables(weight: string -> real, t: Tables, p: Id, at: int, held: set<Id>)
    requires TablesOk(weight, t)
    ensures TablesOk(weight, Touch(t, p, at)) && TablesEvolve(t, Touch(t, p, at), held)
    ensures SameRowsBut(t, Touch(t, p, at), {})
  {
    RowsOkAfter(t, Touch(t, p, at));
    PackagesOkAfter(t, Touch(t, p, at));
  }

  lemma TouchSafe(c: Config, w: World, p: Id, at: int, held: set<Id>)
    requires WorldOk(c, w)
    ensures var w' := w.(tables := Touch(w.tables, p, at));
            WorldOk(c, w') && Evolves(w, w', held)
  {
    TouchTables(c.weight, w.tables, p, at, held);
    TablesChange(c, w, Touch(w.tables, p, at), {}, held);
  }

  lemma CloseTxTables(weight: string -> real, t: Tables, id: Id, p: Id, at: int, fee: int)
    requires TablesOk(weight, t) && CloseTx(t, id, p, at, fee).Some?
    requires t.assignments[id].packageId == p && t.assignments[id].storedAt <= at && 0 <= fee
    ensures TablesOk(weight, CloseTx(t, id, p, at, fee).value)
    ensures p in t.packages && t.packages[p].status.Stored?
  {
    var t' := CloseTx(t, id, p, at, fee).value;
    assert RowOk(t, t.assignments[id]);
    UpdateKeepsKeys(t.assignments, id, t'.assignments[id]);
    assert HasRow(t, p);
    PackagesOkAfter(t, t');
    forall a | a in t'.assignments ensures RowOk(t', t'.assignments[a]) {
      assert RowOk(t, t.assignments[a]);
      assert a != id ==> Compatible(t.assignments[a], t.assignments[id]);
    }
  }

  lemma CloseTxEvolves(t: Tables, id: Id, p: Id, at: int, fee: int, held: set<Id>)
    requires CloseTx(t, id, p, at, fee).Some?
    ensures var t' := CloseTx(t, id, p, at, fee).value;
            && TablesEvolve(t, t', held) && SameRowsBut(t, t', {id})
            && t'.assignments[id].storedAt == t.assignments[id].storedAt
            && t'.assignments[id].packageId == t.assignments[id].packageId
            && t'.assignments[id].retrievedAt == Some(at) && t'.assignments[id].storageFeeMinor == Some(fee)
            && forall x | x in t.packages :: x in t'.packages && t'.packages[x].size == t.packages[x].size
  {
  }

  lemma ClosePriced(w: World, id: Id, p: Id, at: int, fee: int)
    requires CloseTx(w.tables, id, p, at, fee).Some? && w.tables.assignments[id].packageId == p
    requires p in w.tables.packages ==>
               Rates.Quote(w.rates, w.tables.packages[p].size, w.tables.assignments[id].storedAt, at) == Ok(fee)
    ensures var t' := CloseTx(w.tables, id, p, at, fee).value; Priced(w.rates, t', t'.assignments[id])
  {
  }

  lemma CloseTxSafe(c: Config, w: World, id: Id, p: Id, at: int, fee: int, held: set<Id>)
    requires WorldOk(c, w) && CloseTx(w.tables, id, p, at, fee).Some?
    requires w.tables.assignments[id].packageId == p && w.tables.assignments[id].storedAt <= at && 0 <= fee
    requires p in w.tables.packages ==>
               Rates.Quote(w.rates, w.tables.packages[p].size, w.tables.assignments[id].storedAt, at) == Ok(fee)
    ensures var w' := w.(tables := CloseTx(w.tables, id, p, at, fee).value);
            WorldOk(c, w') && Evolves(w, w', held)
  {
    CloseTxTables(c.weight, w.tables, id, p, at, fee);
    CloseTxEvolves(w.tables, id, p, at, fee, held);
    ClosePriced(w, id, p, at, fee);
    TablesChange(c, w, CloseTx(w.tables, id, p, at, fee).value, {id}, held);
  }

  // ---- Everything else that happens ----

  lemma CountersDoNotMatter(c: Config, w: World, counters: map<Key, Entry>, held: set<Id>)
    requires WorldOk(c, w)
    ensures WorldOk(c, w.(counters := counters)) && Evolves(w, w.(counters := counters), held)
  {
  }

  lemma TickSafe(c: Config, w: World, now: int, held: set<Id>)
    requires WorldOk(c, w) && w.now <= now
    ensures WorldOk(c, w.(now := now)) && Evolves(w, w.(now := now), held)
  {
  }

  lemma PublishSafe(c: Config, w: World, l: Label, held: set<Id>)
    requires WorldOk(c, w) && l.PublishRates? && |l.ids| == |l.bands|
    ensures var w' := w.(rates := Published(w.rates, l, w.now));
            WorldOk(c, w') && Evolves(w, w', held)
  {
    var after := Published(w.rates, l, w.now);
    if after != w.rates {
      StorageRateSchedule.AcceptedExactlyWhenSomeOrderTiles(l.effectiveFrom, l.bands, w.now);
      var bands := StorageRateSchedule.Outcome(l.effectiveFrom, l.bands, w.now).value;
      var v := StorageRateSchedule.Versioned(l.rateSize, l.effectiveFrom.value, bands, l.ids, w.now);
      assert StorageRate.Tiles(v.Bands());
      Rates.PublishKeepsSound(w.rates, v);
      AppendSafe(c, w, Rates.RowsOf(v), held);
    } else {
      assert w.(rates := after) == w;
    }
  }

  lemma AppendSafe(c: Config, w: World, added: seq<Rates.RateRow>, held: set<Id>)
    requires WorldOk(c, w) && Rates.Sound(w.rates + added)
    requires forall r | r in added :: r.effectiveFrom > w.now
    ensures var w' := w.(rates := w.rates + added);
            WorldOk(c, w') && Evolves(w, w', held)
  {
    var w' := w.(rates := w.rates + added);
    forall size, asOf | asOf <= w.now
      ensures Rates.FindBandsFor(w'.rates, size, asOf) == Rates.FindBandsFor(w.rates, size, asOf)
    {
      Rates.LaterRowsLeaveThePastAlone(w.rates, added, size, asOf);
    }
    forall a | a in w.tables.assignments ensures Priced(w'.rates, w.tables, w.tables.assignments[a]) {
      var row := w.tables.assignments[a];
      assert Priced(w.rates, w.tables, row);
      if row.packageId in w.tables.packages && row.retrievedAt.Some? {
        QuoteIsStable(w, w', w.tables.packages[row.packageId].size, row.storedAt, row.retrievedAt.value);
      }
    }
  }

  /** New parcels, new stations and emptied stations leave rows and lockers as they are. */
  ghost predicate LeavesRowsAndLockers(t: Tables, t': Tables) {
    && t'.assignments == t.assignments && t'.lockers == t.lockers
    && (forall p | p in t.packages :: p in t'.packages && t'.packages[p] == t.packages[p])
    && (forall p | p in t'.packages && p !in t.packages :: t'.packages[p].status.Registered?)
    && StationsEvolve(t, t')
    && (forall l | l in t.lockers && t.lockers[l].Live() && t.lockers[l].stationId in t.stations ::
          t'.stations[t.lockers[l].stationId] == t.stations[t.lockers[l].stationId])
  }

  lemma LeavesSafe(c: Config, w: World, t': Tables, held: set<Id>)
    requires WorldOk(c, w) && LeavesRowsAndLockers(w.tables, t')
    ensures WorldOk(c, w.(tables := t')) && Evolves(w, w.(tables := t'), held)
  {
  }

  lemma RegisterLeaves(c: Config, t: Tables, l: Label, now: int)
    requires l.Register? || l.AddStation?
    ensures LeavesRowsAndLockers(t, AdminTables(c, t, l, now))
  {
  }

  lemma RetireStationLeaves(c: Config, t: Tables, l: Label, now: int)
    requires l.RetireStation?
    ensures LeavesRowsAndLockers(t, AdminTables(c, t, l, now))
  {
  }

  lemma StationsAndParcelsSafe(c: Config, w: World, l: Label, held: set<Id>)
    requires WorldOk(c, w) && (l.Register? || l.AddStation? || l.RetireStation?)
    ensures var w' := w.(tables := AdminTables(c, w.tables, l, w.now));
            WorldOk(c, w') && Evolves(w, w', held)
  {
    if l.RetireStation? {
      RetireStationLeaves(c, w.tables, l, w.now);
    } else {
      RegisterLeaves(c, w.tables, l, w.now);
    }
    LeavesSafe(c, w, AdminTables(c, w.tables, l, w.now), held);
  }

  /** Creating, editing and retiring a locker: what each may change. */
  lemma LockerEdit(c: Config, t: Tables, l: Label, now: int)
    requires TablesOk(c.weight, t) && (l.AddLocker? || l.EditLocker? || l.RetireLocker?)
    ensures var t' := AdminTables(c, t, l, now);
            && t'.(lockers := t.lockers) == t
            && (forall x | x in t.lockers && x != l.lockerId :: x in t'.lockers && t'.lockers[x] == t.lockers[x])
            && (forall x | x in t'.lockers && x != l.lockerId :: x in t.lockers)
            && (forall x | x in t'.lockers && x !in t.lockers ::
                  t'.lockers[x].stationId in t.stations && t.stations[t'.lockers[x].stationId])
            && (l.lockerId in t.lockers ==>
                  && l.lockerId in t'.lockers
                  && LockerEvolves(t.lockers[l.lockerId], t'.lockers[l.lockerId])
                  && (t'.lockers[l.lockerId].Live() || !t.lockers[l.lockerId].Live() || !Occupied(t, l.lockerId)))
  {
    hide PackagesOk, RowsOk;
  }

  lemma CodesStayUnique(c: Config, t: Tables, l: Label, now: int)
    requires CodesUnique(c.weight, t) && (l.AddLocker? || l.EditLocker? || l.RetireLocker?)
    ensures CodesUnique(c.weight, AdminTables(c, t, l, now))
  {
  }

  lemma LockerEditKeepsRowsOk(c: Config, t: Tables, l: Label, now: int)
    requires TablesOk(c.weight, t) && (l.AddLocker? || l.EditLocker? || l.RetireLocker?)
    ensures RowsOk(AdminTables(c, t, l, now))
  {
    var t' := AdminTables(c, t, l, now);
    LockerEdit(c, t, l, now);
    forall a | a in t'.assignments ensures RowOk(t', t'.assignments[a]) {
      var row := t.assignments[a];
      assert RowOk(t, row);
      assert row.Active() && row.lockerId == l.lockerId ==> Occupied(t, l.lockerId);
    }
  }

  lemma LockerEditKeepsLockersOk(c: Config, t: Tables, l: Label, now: int)
    requires TablesOk(c.weight, t) && (l.AddLocker? || l.EditLocker? || l.RetireLocker?)
    ensures LockersOk(AdminTables(c, t, l, now))
  {
  }

  lemma LockerEditTables(c: Config, t: Tables, l: Label, now: int)
    requires TablesOk(c.weight, t) && (l.AddLocker? || l.EditLocker? || l.RetireLocker?)
    ensures TablesOk(c.weight, AdminTables(c, t, l, now))
  {
    LockerEdit(c, t, l, now);
    CodesStayUnique(c, t, l, now);
    LockerEditKeepsRowsOk(c, t, l, now);
    LockerEditKeepsLockersOk(c, t, l, now);
    PackagesOkAfter(t, AdminTables(c, t, l, now));
  }

  lemma LockerEditSafe(c: Config, w: World, l: Label, held: set<Id>)
    requires WorldOk(c, w) && (l.AddLocker? || l.EditLocker? || l.RetireLocker?)
    requires (l.EditLocker? || l.RetireLocker?) ==> l.lockerId !in held
    ensures var w' := w.(tables := AdminTables(c, w.tables, l, w.now));
            WorldOk(c, w') && Evolves(w, w', held)
  {
    hide RowOk, Priced, HasRow, LockerOk, CodesUnique, KeysHold;
    LockerEdit(c, w.tables, l, w.now);
    LockerEditTables(c, w.tables, l, w.now);
    hide AdminTables;
    TablesChange(c, w, AdminTables(c, w.tables, l, w.now), {}, held);
  }
}
