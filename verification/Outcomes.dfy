/** Whole calls, from what their turns do: what a success has recorded and where it took it from,
    and when a call cannot but succeed. */
module Outcomes {
  import opened Common
  import opened Packages
  import opened Database
  import opened AttemptCounter
  import opened Protocol
  import opened Safety
  import opened Interleaving
  import opened Runs
  import opened Calls
  import opened Effects
  import PriceHistory
  import Rates = StorageRateTable

  // ---- Which turn comes before which ----

  lemma StoreComesFrom(c: Config, t: Turn)
    requires Took(c, t)
    ensures t.next.StoreInserting? ==> t.request.StoreAllocating?
    ensures t.next.Finished? && t.next.outcome.StoreDone? ==> t.request.StoreInserting?
    ensures Storing(t.next) ==> Storing(t.request) && t.next.call == t.request.call
  {
  }

  lemma RetrieveComesFrom(c: Config, t: Turn)
    requires Took(c, t)
    ensures t.next.RetrieveSaving? ==> t.request.RetrievePricing? && t.next.door == t.request.door
    ensures t.next.RetrieveClearing? ==> t.request.RetrieveSaving? && t.next.door == t.request.door
    ensures t.next.Finished? && t.next.outcome.RetrieveDone? ==> t.request.RetrieveClearing?
  {
  }

  lemma ReissueComesFrom(c: Config, t: Turn)
    requires Took(c, t)
    ensures t.next.ReissueSaving? ==> t.request.ReissueFinding?
    ensures t.next.ReissueTouching? ==> t.request.ReissueSaving?
    ensures t.next.ReissueCounting? ==> t.request.ReissueTouching?
    ensures t.next.ReissueClearing? ==> t.request.ReissueCounting?
    ensures t.next.Finished? && t.next.outcome.ReissueDone? ==> t.request.ReissueClearing?
  {
  }

  /** A call that has moved on has a last turn, which took it where it is. */
  lemma Moved(c: Config, p: Progress)
    requires Performed(c, p) && !Initial(p.q)
    ensures p.log != [] && Proper(c, p.Last()) && p.Last().next == p.q && Performed(c, p.Before())
  {
    hide Next, Evolves, WorldOk, RequestOk, Chained;
    TurnIsProper(c, p);
    LastLeads(c, p);
  }

  // ---- Store ----

  lemma {:induction false} StoreKeepsItsCall(c: Config, p: Progress)
    requires Performed(c, p) && Storing(p.q)
    ensures p.first.StoreLoading? && p.q.call == p.first.call
    decreases |p.log|
  {
    hide Next, Evolves, WorldOk, RequestOk, Chained;
    if p.log != [] {
      TurnIsProper(c, p);
      LastLeads(c, p);
      StoreComesFrom(c, p.Last());
      StoreKeepsItsCall(c, p.Before());
    }
  }

  /** The row a store has written, and the parcel beside it. */
  ghost predicate Stamped(t: Tables, o: Outcome, stamp: int, agent: Option<string>)
    requires o.StoreDone?
  {
    && o.assignmentId in t.assignments && o.packageId in t.packages
    && t.assignments[o.assignmentId].storedAt == stamp
    && t.assignments[o.assignmentId].storedByAgent == agent
    && t.packages[o.packageId].updatedAt == stamp
  }

  /** What a store that succeeds has recorded is the clock reading, the code, the id and the locker
      of its last allocation, and the agent, parcel and station of its call. */
  lemma StoreRecordsItsLastAllocation(c: Config, p: Progress)
    requires Performed(c, p) && p.q.Finished? && p.q.outcome.StoreDone?
    ensures |p.log| >= 2 && p.first.StoreLoading?
    ensures var o, n, call := p.q.outcome, |p.log|, p.first.call;
            && p.log[n - 2].request.StoreAllocating? && p.log[n - 1].request.StoreInserting?
            && var a := p.log[n - 2].answer;
               && Stamped(p.log[n - 1].after.tables, o, a.reading, call.agent)
               && o.assignmentId == a.id && o.code == a.code && o.packageId == call.packageId && o.stationId == call.stationId
               && Suits(p.log[n - 2].before.tables, a.shown, p.log[n - 2].locked, call.stationId, p.log[n - 2].request.pkg.size, o.lockerId)
  {
    hide Next, Evolves, WorldOk, RequestOk, Chained, HasRow, Occupied;
    Moved(c, p);
    StoreComesFrom(c, p.Last());
    InsertingTurn(c, p.Last());
    var q := p.Before();
    StoreKeepsItsCall(c, q);
    Moved(c, q);
    StoreComesFrom(c, q.Last());
    AllocatingTurn(c, q.Last());
    assert q.Last() == p.log[|p.log| - 2];
  }

  // ---- Retrieve ----

  /** `o` is what a row stored at `storedAt` comes to when priced by `reading`. */
  ghost predicate PricedBy(w: World, o: Outcome, storedAt: int, reading: int)
    requires o.RetrieveDone?
  {
    && o.packageId in w.tables.packages
    && o.retrievedAt == Later(reading, storedAt)
    && PriceHistory.ChargedByTheDay(w.rates, w.tables.packages[o.packageId].size, storedAt, o.retrievedAt, o.fee)
  }

  /** The open row takes the instant and the fee reported, and its parcel becomes RETRIEVED then. */
  ghost predicate RecordedIn(t: Tables, t': Tables, o: Outcome)
    requires o.RetrieveDone?
  {
    && o.assignmentId in t.assignments && o.assignmentId in t'.assignments && o.packageId in t'.packages
    && t.assignments[o.assignmentId].retrievedAt == None
    && t'.assignments[o.assignmentId]
       == t.assignments[o.assignmentId].(retrievedAt := Some(o.retrievedAt), storageFeeMinor := Some(o.fee))
    && t'.packages[o.packageId].status == Retrieved && t'.packages[o.packageId].updatedAt == o.retrievedAt
  }

  /** What a retrieval that succeeds reports and records: the later of the clock it priced by and
      `storedAt`, and for the days begun by then what the version in force at `storedAt` asks. */
  lemma RetrievalRecordsItsPricing(c: Config, p: Progress)
    requires Performed(c, p) && p.q.Finished? && p.q.outcome.RetrieveDone?
    ensures |p.log| >= 3
    ensures var o, pricing, saving := p.q.outcome, p.log[|p.log| - 3], p.log[|p.log| - 2];
            && pricing.request.RetrievePricing? && pricing.request.door == o.lockerId && saving.request.RetrieveSaving?
            && RecordedIn(saving.before.tables, saving.after.tables, o)
            && PricedBy(pricing.before, o, saving.before.tables.assignments[o.assignmentId].storedAt, pricing.answer.reading)
  {
    hide Next, Evolves, WorldOk, RequestOk, Chained, PriceHistory.ChargedByTheDay;
    Moved(c, p);
    RetrieveComesFrom(c, p.Last());
    RetrieveClearingTurn(c, p.Last());
    var q := p.Before();
    Moved(c, q);
    RetrieveComesFrom(c, q.Last());
    RetrieveSavingTurn(c, q.Last());
    SavingKnowsItsRow(c, q.Last());
    var r := q.Before();
    Moved(c, r);
    RetrieveComesFrom(c, r.Last());
    RetrievePricingTurn(c, r.Last());
    assert q.Last() == p.log[|p.log| - 2] && r.Last() == p.log[|p.log| - 3];
  }

  lemma SavingKnowsItsRow(c: Config, t: Turn)
    requires Proper(c, t) && t.request.RetrieveSaving?
    ensures HasClosed(t.request.pkg)
    ensures var la := t.request.pkg.assignment.value;
            la.id in t.before.tables.assignments && t.before.tables.assignments[la.id].storedAt == la.storedAt
  {
    hide Next, WorldOk;
  }

  /** The row `id` is open at the door, answers to the code, and its size had a price when it began. */
  ghost predicate Collectable(c: Config, w: World, door: Id, code: string, id: Id) {
    && OpenAt(w.tables, door, id)
    && w.tables.assignments[id].pickupCodeHash == c.hash(code, id)
    && w.tables.assignments[id].packageId in w.tables.packages
    && exists r :: r in w.rates && r.size == w.tables.packages[w.tables.assignments[id].packageId].size
                   && r.effectiveFrom <= w.tables.assignments[id].storedAt
  }

  ghost predicate CollectableTillClosed(c: Config, log: seq<Turn>, door: Id, code: string, id: Id) {
    forall i | 0 <= i < |log| :: log[i].request.RetrieveClearing? || Collectable(c, log[i].before, door, code, id)
  }

  predicate SixDigits(code: string) {
    |code| == 6 && forall ch | ch in code :: '0' <= ch <= '9'
  }

  /** Where a retrieval of row `id` may stand that has met no obstacle. */
  predicate CollectingSmoothly(q: Request, door: Id, code: string, id: Id) {
    match q
    case RetrieveChecking(d, x) => d == door && x == code
    case RetrieveFinding(d, x) => d == door && x == code
    case RetrieveLoading(d, x) => d == door && x == code
    case RetrievePricing(d, pkg) => d == door && pkg.assignment.Some? && pkg.assignment.value.id == id
    case RetrieveSaving(d, pkg) => d == door && pkg.assignment.Some? && pkg.assignment.value.id == id
    case RetrieveClearing(d, pkg) => d == door && pkg.assignment.Some? && pkg.assignment.value.id == id
    case Finished(o) => o.RetrieveDone? && o.assignmentId == id && o.lockerId == door
    case _ => false
  }

  lemma CollectsOneTurn(c: Config, t: Turn, door: Id, code: string, id: Id)
    requires Proper(c, t) && CollectingSmoothly(t.request, door, code, id) && SixDigits(code)
    requires t.request.RetrieveClearing? || Collectable(c, t.before, door, code, id)
    requires t.request.RetrieveChecking? ==> !Blocked(c.doorLimit, t.before.Slot(Door(door)), t.before.now)
    ensures CollectingSmoothly(t.next, door, code, id)
  {
    hide Next, WorldOk, RequestOk, PriceHistory.ChargedByTheDay;
    if t.request.RetrieveChecking? {
      RetrieveCheckingTurn(c, t);
    } else if t.request.RetrieveFinding? {
      RetrieveFindingTurn(c, t);
      RowsHaveLockers(c, t.before, id);
    } else if t.request.RetrieveLoading? {
      RetrieveLoadingTurn(c, t);
    } else if t.request.RetrievePricing? {
      RetrievePricingTurn(c, t);
      PricingKnowsItsParcel(c, t);
    } else if t.request.RetrieveSaving? {
      RetrieveSavingTurn(c, t);
    } else if t.request.RetrieveClearing? {
      RetrieveClearingTurn(c, t);
    }
  }

  lemma RowsHaveLockers(c: Config, w: World, id: Id)
    requires WorldOk(c, w) && id in w.tables.assignments
    ensures w.tables.assignments[id].lockerId in w.tables.lockers
  {
    assert RowOk(w.tables, w.tables.assignments[id]);
  }

  lemma PricingKnowsItsParcel(c: Config, t: Turn)
    requires Proper(c, t) && t.request.RetrievePricing?
    ensures t.request.pkg.assignment.Some? && t.request.pkg.assignment.value.id in t.before.tables.assignments
    ensures t.before.tables.assignments[t.request.pkg.assignment.value.id].packageId == t.request.pkg.id
  {
    hide Next, WorldOk;
  }

  lemma {:induction false} CollectsSmoothly(c: Config, p: Progress, door: Id, code: string, id: Id)
    requires Performed(c, p) && p.first == RetrieveChecking(door, code) && SixDigits(code)
    requires p.log != [] ==> !Blocked(c.doorLimit, p.log[0].before.Slot(Door(door)), p.log[0].before.now)
    requires CollectableTillClosed(c, p.log, door, code, id)
    ensures CollectingSmoothly(p.q, door, code, id)
    decreases |p.log|
  {
    hide Next, Evolves, WorldOk, RequestOk, Chained, Collectable;
    if p.log != [] {
      TurnIsProper(c, p);
      LastLeads(c, p);
      var q := p.Before();
      assert forall i | 0 <= i < |q.log| :: q.log[i] == p.log[i];
      CollectsSmoothly(c, q, door, code, id);
      if Initial(p.Last().request) {
        CheckedFirst(c, p);
      }
      CollectsOneTurn(c, p.Last(), door, code, id);
    }
  }

  lemma CheckedFirst(c: Config, p: Progress)
    requires Performed(c, p) && p.log != [] && Initial(p.Last().request)
    ensures |p.log| == 1
  {
    hide Evolves, WorldOk, RequestOk;
    if |p.log| > 1 {
      LastLeads(c, p);
      var q := p.Before();
      TurnIsProper(c, q);
      BeforeLast(c, q);
    }
  }

  /**
   * With the right code at a door that is not blocked, for a row nobody else closes or re-issues
   * meanwhile and whose size has a price, a retrieval that runs to its end succeeds.
   */
  lemma RetrievalSucceeds(c: Config, p: Progress, door: Id, code: string, id: Id)
    requires Performed(c, p) && p.first == RetrieveChecking(door, code) && p.q.Finished? && SixDigits(code)
    requires p.log != [] ==> !Blocked(c.doorLimit, p.log[0].before.Slot(Door(door)), p.log[0].before.now)
    requires CollectableTillClosed(c, p.log, door, code, id)
    ensures p.q.outcome.RetrieveDone? && p.q.outcome.assignmentId == id && p.q.outcome.lockerId == door
  {
    hide Next, Evolves, WorldOk, RequestOk, Chained, Performed, Collectable;
    CollectsSmoothly(c, p, door, code, id);
  }

  // ---- Re-issue ----

  /** What a re-issue that succeeds has recorded: the code it drew, hashed under the open row's own
      id, and the clock it read, on its parcel. */
  lemma ReissueRecordsItsCode(c: Config, p: Progress)
    requires Performed(c, p) && p.q.Finished? && p.q.outcome.ReissueDone?
    ensures |p.log| >= 5
    ensures var o, n := p.q.outcome, |p.log|;
            var drawn, saving, touching := p.log[n - 5].answer, p.log[n - 4], p.log[n - 3];
            && p.log[n - 5].request.ReissueFinding? && saving.request.ReissueSaving? && touching.request.ReissueTouching?
            && o.code == drawn.code
            && HashedIn(c, saving.before.tables, saving.after.tables, o)
            && o.packageId in touching.after.tables.packages
            && touching.after.tables.packages[o.packageId].updatedAt == drawn.reading
  {
    hide Next, Evolves, WorldOk, RequestOk, Chained;
    Moved(c, p);
    ReissueComesFrom(c, p.Last());
    ReissueClearingTurn(c, p.Last());
    var p1 := p.Before();
    Moved(c, p1);
    ReissueComesFrom(c, p1.Last());
    CountingKeeps(c, p1.Last());
    var p2 := p1.Before();
    Moved(c, p2);
    ReissueComesFrom(c, p2.Last());
    ReissueTouchingTurn(c, p2.Last());
    assert p2.Last() == p.log[|p.log| - 3];
    RehashRecordsItsCode(c, p2.Before());
    assert p2.Before().log[|p2.Before().log| - 1] == p.log[|p.log| - 4];
    assert p2.Before().log[|p2.Before().log| - 2] == p.log[|p.log| - 5];
  }

  lemma CountingKeeps(c: Config, t: Turn)
    requires Took(c, t) && t.request.ReissueCounting?
    ensures t.next == ReissueClearing(t.request.packageId, t.request.pkg, t.request.code)
  {
  }

  /** The parcel's open row at the locker reported answers to the code reported, from now on. */
  ghost predicate HashedIn(c: Config, t: Tables, t': Tables, o: Outcome)
    requires o.ReissueDone?
  {
    exists id :: && id in t.assignments && t.assignments[id].retrievedAt == None
                 && t.assignments[id].packageId == o.packageId && t.assignments[id].lockerId == o.lockerId
                 && t' == t.(assignments := t.assignments[id := t.assignments[id].(pickupCodeHash := c.hash(o.code, id))])
  }

  lemma RehashRecordsItsCode(c: Config, p: Progress)
    requires Performed(c, p) && p.q.ReissueTouching?
    ensures |p.log| >= 2 && p.q.pkg.assignment.Some?
    ensures var saving, drawing := p.log[|p.log| - 1], p.log[|p.log| - 2];
            && saving.request.ReissueSaving? && drawing.request.ReissueFinding?
            && p.q.code == drawing.answer.code && p.q.pkg.updatedAt == drawing.answer.reading
            && HashedIn(c, saving.before.tables, saving.after.tables,
                        ReissueDone(p.q.packageId, p.q.pkg.assignment.value.lockerId, p.q.code))
  {
    hide Next, Evolves, WorldOk, RequestOk, Chained;
    Moved(c, p);
    ReissueComesFrom(c, p.Last());
    ReissueSavingTurn(c, p.Last());
    RehashKnowsItsRow(c, p.Last());
    var q := p.Before();
    Moved(c, q);
    ReissueComesFrom(c, q.Last());
    ReissueFindingTurn(c, q.Last());
    assert q.Last() == p.log[|p.log| - 2];
  }

  lemma RehashKnowsItsRow(c: Config, t: Turn)
    requires Proper(c, t) && t.request.ReissueSaving?
    ensures t.request.pkg.assignment.Some? && t.request.pkg.assignment.value.id in t.before.tables.assignments
    ensures var la := t.request.pkg.assignment.value;
            t.before.tables.assignments[la.id].packageId == t.request.packageId
            && t.before.tables.assignments[la.id].lockerId == la.lockerId
  {
    hide Next, WorldOk;
  }

  /** The row `id` is open for this customer's parcel. */
  ghost predicate Reissuable(w: World, customerId: Id, packageId: Id, id: Id) {
    && OpenFor(w.tables, packageId, id)
    && packageId in w.tables.packages && w.tables.packages[packageId].customerId == customerId
  }

  ghost predicate ReissuableThroughout(log: seq<Turn>, customerId: Id, packageId: Id, id: Id) {
    forall i | 0 <= i < |log| :: Reissuable(log[i].before, customerId, packageId, id)
  }

  /** Where a re-issue for row `id` may stand that has met no obstacle. */
  predicate ReissuingSmoothly(q: Request, customerId: Id, packageId: Id, id: Id) {
    match q
    case ReissueChecking(who, p) => who == customerId && p == packageId
    case ReissueLoading(who, p) => who == customerId && p == packageId
    case ReissueFinding(p, pkg) => p == packageId && pkg.assignment.Some? && pkg.assignment.value.id == id
    case ReissueSaving(p, pkg, _) => p == packageId && pkg.assignment.Some? && pkg.assignment.value.id == id
    case ReissueTouching(p, _, _) => p == packageId
    case ReissueCounting(p, _, _) => p == packageId
    case ReissueClearing(p, _, _) => p == packageId
    case Finished(o) => o.ReissueDone? && o.packageId == packageId
    case _ => false
  }

  lemma OneOpenRow(c: Config, w: World, packageId: Id, a: Id, b: Id)
    requires WorldOk(c, w) && OpenFor(w.tables, packageId, a) && OpenFor(w.tables, packageId, b)
    ensures a == b
  {
    assert Compatible(w.tables.assignments[a], w.tables.assignments[b]) || a == b;
  }

  lemma ReissuesOneTurn(c: Config, t: Turn, customerId: Id, packageId: Id, id: Id)
    requires Proper(c, t) && ReissuingSmoothly(t.request, customerId, packageId, id)
    requires Reissuable(t.before, customerId, packageId, id)
    requires t.request.ReissueChecking? ==> !Blocked(c.reissueLimit, t.before.Slot(Parcel(packageId)), t.before.now)
    ensures ReissuingSmoothly(t.next, customerId, packageId, id)
  {
    hide Next, WorldOk, RequestOk;
    if t.request.ReissueChecking? {
      ReissueCheckingTurn(c, t);
    } else if t.request.ReissueLoading? {
      ReissueLoadingTurn(c, t);
      OneOpenRow(c, t.before, packageId, id, t.next.pkg.assignment.value.id);
    } else if t.request.ReissueFinding? {
      ReissueFindingTurn(c, t);
    } else if t.request.ReissueSaving? {
      ReissueSavingTurn(c, t);
    } else if t.request.ReissueTouching? {
      ReissueTouchingTurn(c, t);
    } else if t.request.ReissueCounting? {
      CountingKeeps(c, t);
    } else if t.request.ReissueClearing? {
      ReissueClearingTurn(c, t);
    }
  }

  lemma {:induction false} ReissuesSmoothly(c: Config, p: Progress, customerId: Id, packageId: Id, id: Id)
    requires Performed(c, p) && p.first == ReissueChecking(customerId, packageId)
    requires p.log != [] ==> !Blocked(c.reissueLimit, p.log[0].before.Slot(Parcel(packageId)), p.log[0].before.now)
    requires ReissuableThroughout(p.log, customerId, packageId, id)
    ensures ReissuingSmoothly(p.q, customerId, packageId, id)
    decreases |p.log|
  {
    hide Next, Evolves, WorldOk, RequestOk, Chained, Reissuable;
    if p.log != [] {
      TurnIsProper(c, p);
      LastLeads(c, p);
      var q := p.Before();
      assert forall i | 0 <= i < |q.log| :: q.log[i] == p.log[i];
      ReissuesSmoothly(c, q, customerId, packageId, id);
      if Initial(p.Last().request) {
        CheckedFirst(c, p);
      }
      ReissuesOneTurn(c, p.Last(), customerId, packageId, id);
    }
  }

  /** For a customer's own parcel that stays open meanwhile, within its budget, a re-issue that
      runs to its end succeeds. */
  lemma ReissueSucceeds(c: Config, p: Progress, customerId: Id, packageId: Id, id: Id)
    requires Performed(c, p) && p.first == ReissueChecking(customerId, packageId) && p.q.Finished?
    requires p.log != [] ==> !Blocked(c.reissueLimit, p.log[0].before.Slot(Parcel(packageId)), p.log[0].before.now)
    requires ReissuableThroughout(p.log, customerId, packageId, id)
    ensures p.q.outcome.ReissueDone? && p.q.outcome.packageId == packageId
  {
    hide Next, Evolves, WorldOk, RequestOk, Chained, Performed, Reissuable;
    ReissuesSmoothly(c, p, customerId, packageId, id);
  }

  // ---- When a store succeeds ----

  /** The parcel still waits, its station is open, and a locker is found that nobody else takes. */
  ghost predicate Unhindered(t: Turn) {
    match t.request
    case StoreLoading(call) => call.packageId in t.before.tables.packages && t.before.tables.packages[call.packageId].status == Registered
    case StoreAtStation(call, _) => call.stationId in t.before.tables.stations && t.before.tables.stations[call.stationId]
    case StoreAllocating(call, pkg, _) =>
      exists l :: Suits(t.before.tables, t.answer.shown, t.locked, call.stationId, pkg.size, l)
    case StoreInserting(_, _, _, stored, _) => stored.assignment.Some? && !IdUsed(t) && !LockerTaken(t) && !ParcelHasRow(t)
    case _ => true
  }

  lemma StoresOneTurn(c: Config, t: Turn)
    requires Proper(c, t) && Storing(t.request) && Unhindered(t)
    ensures Storing(t.next) || (t.next.Finished? && t.next.outcome.StoreDone?)
  {
    hide Next, WorldOk, RequestOk;
    if t.request.StoreLoading? {
      StoreLoadingTurn(c, t);
    } else if t.request.StoreAtStation? {
      StationTurn(c, t);
    } else if t.request.StoreAllocating? {
      AllocatingTurn(c, t);
    } else {
      InsertingTurn(c, t);
    }
  }

  lemma NoTurnAfterTheLast(c: Config, t: Turn)
    requires Took(c, t)
    ensures !t.request.Finished?
  {
  }

  /** A store that meets no clash and always finds a locker ends in success. */
  lemma {:induction false} StoreSucceeds(c: Config, p: Progress)
    requires Performed(c, p) && p.first.StoreLoading? && forall i | 0 <= i < |p.log| :: Unhindered(p.log[i])
    ensures Storing(p.q) || (p.q.Finished? && p.q.outcome.StoreDone?)
    decreases |p.log|
  {
    hide Next, Evolves, WorldOk, RequestOk, Chained, Unhindered;
    if p.log != [] {
      TurnIsProper(c, p);
      LastLeads(c, p);
      var q := p.Before();
      assert forall i | 0 <= i < |q.log| :: q.log[i] == p.log[i];
      StoreSucceeds(c, q);
      NoTurnAfterTheLast(c, p.Last());
      StoresOneTurn(c, p.Last());
    }
  }
}
