/** Whole runs of the interleaved system: safety, conservation, termination. */
module Runs {
  import opened Common
  import opened Packages
  import opened Database
  import opened AttemptCounter
  import opened Protocol
  import opened Safety
  import opened Interleaving
  import StorageRate
  import StorageFee
  import PriceHistory
  import Rates = StorageRateTable

  // ---- Rows and the calls that made and closed them ----

  /** The row a successful store call committed. */
  function Made(q: Request): Option<Id> {
    if q.Finished? && q.outcome.StoreDone? then Some(q.outcome.assignmentId) else None
  }

  /** The row a retrieval closed: from its commit on, it can only report success. */
  function Closed(q: Request): Option<Id> {
    if q.RetrieveClearing? && q.pkg.assignment.Some? then Some(q.pkg.assignment.value.id)
    else if q.Finished? && q.outcome.RetrieveDone? then Some(q.outcome.assignmentId)
    else None
  }

  ghost predicate Credited(requests: map<nat, Request>, f: Request -> Option<Id>, id: Id) {
    exists rid :: rid in requests && f(requests[rid]) == Some(id)
  }

  /** Each of `ids` is credited to exactly one request, and nothing else is. */
  ghost predicate OneToOne(requests: map<nat, Request>, f: Request -> Option<Id>, ids: set<Id>) {
    && (forall rid | rid in requests && f(requests[rid]).Some? :: f(requests[rid]).value in ids)
    && (forall r1, r2 | r1 in requests && r2 in requests && f(requests[r1]).Some? && f(requests[r1]) == f(requests[r2]) :: r1 == r2)
    && (forall id | id in ids :: Credited(requests, f, id))
  }

  function ClosedRows(t: Tables): set<Id> {
    set a | a in t.assignments && !t.assignments[a].Active()
  }

  lemma OneToOneKept(requests: map<nat, Request>, f: Request -> Option<Id>, ids: set<Id>, rid: nat, q: Request)
    requires OneToOne(requests, f, ids)
    requires f(q) == if rid in requests then f(requests[rid]) else None
    ensures OneToOne(requests[rid := q], f, ids)
  {
    var after := requests[rid := q];
    forall id | id in ids ensures Credited(after, f, id) {
      assert Credited(requests, f, id);
      var r :| r in requests && f(requests[r]) == Some(id);
      assert r in after && f(after[r]) == Some(id);
    }
  }

  lemma OneToOneGains(requests: map<nat, Request>, f: Request -> Option<Id>, ids: set<Id>, rid: nat, q: Request)
    requires OneToOne(requests, f, ids) && rid in requests
    requires f(requests[rid]).None? && f(q).Some? && f(q).value !in ids
    ensures OneToOne(requests[rid := q], f, ids + {f(q).value})
  {
    var after := requests[rid := q];
    forall id | id in ids + {f(q).value} ensures Credited(after, f, id) {
      if id in ids {
        assert Credited(requests, f, id);
        var r :| r in requests && f(requests[r]) == Some(id);
        assert r in after && f(after[r]) == Some(id);
      } else {
        assert rid in after && f(after[rid]) == Some(id);
      }
    }
  }

  // ---- The invariant ----

  ghost predicate Started(c: Config, s: State) {
    && s.requests == map[]
    && s.world.tables.assignments == map[] && s.world.tables.packages == map[]
    && LockersOk(s.world.tables) && CodesUnique(c.weight, s.world.tables)
    && Rates.Sound(s.world.rates)
    && s.world.counters == map[]
  }

  ghost predicate RequestsOk(c: Config, s: State) {
    forall rid | rid in s.requests :: RequestOk(c, s.world, s.requests[rid])
  }

  /** Requests never hold the same locker row. */
  ghost predicate LocksDistinct(requests: map<nat, Request>) {
    forall r1, r2 | r1 in requests && r2 in requests && r1 != r2 :: Held(requests[r1]) !! Held(requests[r2])
  }

  ghost predicate Inv(c: Config, s: State) {
    && WorldOk(c, s.world)
    && RequestsOk(c, s)
    && LocksDistinct(s.requests)
    && OneToOne(s.requests, Made, s.world.tables.assignments.Keys)
    && OneToOne(s.requests, Closed, ClosedRows(s.world.tables))
  }

  lemma StartedIsSafe(c: Config, s: State)
    requires Started(c, s)
    ensures Inv(c, s)
  {
  }

  /** Either nothing changed hands, or one row came up and its request with it. */
  predicate Credit(before: Option<Id>, after: Option<Id>, ids: set<Id>, ids': set<Id>) {
    if after == before then ids' == ids
    else before.None? && after.Some? && after.value !in ids && ids' == ids + {after.value}
  }

  lemma InsertCredits(c: Config, w: World, q: Request, a: Answer)
    requires RequestOk(c, w, q) && q.StoreInserting?
    ensures var (w', q') := Next(c, w, q, a);
            && Credit(Made(q), Made(q'), w.tables.assignments.Keys, w'.tables.assignments.Keys)
            && Closed(q') == Closed(q) && ClosedRows(w'.tables) == ClosedRows(w.tables)
  {
    var la := q.stored.assignment.value;
    var row := ToRow(q.call.packageId, la);
    if !ViolatesAny(w.tables, la.id, row) {
      assert !Violates(w.tables, la.id, row, PrimaryKey);
    }
  }

  lemma SaveCredits(c: Config, w: World, q: Request, a: Answer)
    requires RequestOk(c, w, q) && q.RetrieveSaving?
    ensures var (w', q') := Next(c, w, q, a);
            && Made(q') == Made(q) && w'.tables.assignments.Keys == w.tables.assignments.Keys
            && Credit(Closed(q), Closed(q'), ClosedRows(w.tables), ClosedRows(w'.tables))
  {
  }

  lemma OtherCredits(c: Config, w: World, q: Request, a: Answer)
    requires RequestOk(c, w, q) && !q.Finished? && !q.StoreInserting? && !q.RetrieveSaving?
    ensures var (w', q') := Next(c, w, q, a);
            && Made(q') == Made(q) && w'.tables.assignments.Keys == w.tables.assignments.Keys
            && Closed(q') == Closed(q) && ClosedRows(w'.tables) == ClosedRows(w.tables)
  {
  }

  /** What a step does to the rows and who is credited with them. */
  lemma StepCredits(c: Config, w: World, q: Request, a: Answer)
    requires RequestOk(c, w, q) && !q.Finished?
    ensures var (w', q') := Next(c, w, q, a);
            && Credit(Made(q), Made(q'), w.tables.assignments.Keys, w'.tables.assignments.Keys)
            && Credit(Closed(q), Closed(q'), ClosedRows(w.tables), ClosedRows(w'.tables))
  {
    if q.StoreInserting? {
      InsertCredits(c, w, q, a);
    } else if q.RetrieveSaving? {
      SaveCredits(c, w, q, a);
    } else {
      OtherCredits(c, w, q, a);
    }
  }

  lemma LocksStayDistinct(c: Config, s: State, rid: nat, a: Answer)
    requires LocksDistinct(s.requests) && Enabled(c, s, Advance(rid, a))
    ensures LocksDistinct(Step(c, s, Advance(rid, a)).requests)
  {
    hide WorldOk, StoreTx, SetHash, Touch, CloseTx, Rates.Quote, Counted, Put, BlockLeft;
    var q, q' := s.requests[rid], Next(c, s.world, s.requests[rid], a).1;
    assert Held(q') <= Held(q) || Held(q') !! Locked(s.requests);
    forall r, l | r in s.requests && l in Held(s.requests[r]) ensures l in Locked(s.requests) {
    }
  }

  lemma AdvanceKeepsRequestsOk(c: Config, s: State, rid: nat, a: Answer)
    requires WorldOk(c, s.world) && RequestsOk(c, s) && Enabled(c, s, Advance(rid, a))
    ensures var s' := Step(c, s, Advance(rid, a));
            WorldOk(c, s'.world) && RequestsOk(c, s') && Evolves(s.world, s'.world, Locked(s.requests))
  {
    var q := s.requests[rid];
    var (w', q') := Next(c, s.world, q, a);
    OwnStep(c, s.world, Locked(s.requests), q, a, Locked(s.requests));
    EveryoneStays(c, s, w');
  }

  lemma AdvanceIsSafe(c: Config, s: State, rid: nat, a: Answer)
    requires Inv(c, s) && Enabled(c, s, Advance(rid, a))
    ensures Inv(c, Step(c, s, Advance(rid, a)))
    ensures Evolves(s.world, Step(c, s, Advance(rid, a)).world, Locked(s.requests))
  {
    AdvanceKeepsRequestsOk(c, s, rid, a);
    LocksStayDistinct(c, s, rid, a);
    CreditsStay(c, s, rid, a);
  }

  lemma CreditsStay(c: Config, s: State, rid: nat, a: Answer)
    requires Enabled(c, s, Advance(rid, a)) && RequestOk(c, s.world, s.requests[rid])
    requires OneToOne(s.requests, Made, s.world.tables.assignments.Keys)
    requires OneToOne(s.requests, Closed, ClosedRows(s.world.tables))
    ensures var s' := Step(c, s, Advance(rid, a));
            && OneToOne(s'.requests, Made, s'.world.tables.assignments.Keys)
            && OneToOne(s'.requests, Closed, ClosedRows(s'.world.tables))
  {
    var q := s.requests[rid];
    var (w', q') := Next(c, s.world, q, a);
    StepCredits(c, s.world, q, a);
    if Made(q') == Made(q) {
      OneToOneKept(s.requests, Made, s.world.tables.assignments.Keys, rid, q');
    } else {
      OneToOneGains(s.requests, Made, s.world.tables.assignments.Keys, rid, q');
    }
    if Closed(q') == Closed(q) {
      OneToOneKept(s.requests, Closed, ClosedRows(s.world.tables), rid, q');
    } else {
      OneToOneGains(s.requests, Closed, ClosedRows(s.world.tables), rid, q');
    }
  }

  lemma WorldStep(c: Config, s: State, l: Label)
    requires WorldOk(c, s.world) && Enabled(c, s, l) && !l.Advance? && !l.Begin?
    ensures WorldOk(c, Step(c, s, l).world) && Evolves(s.world, Step(c, s, l).world, Locked(s.requests))
  {
    var held := Locked(s.requests);
    match l
    case Tick(now) => TickSafe(c, s.world, now, held);
    case Register(_, _, _) => StationsAndParcelsSafe(c, s.world, l, held);
    case AddStation(_) => StationsAndParcelsSafe(c, s.world, l, held);
    case AddLocker(_, _, _, _) => LockerEditSafe(c, s.world, l, held);
    case EditLocker(_, _, _) => LockerEditSafe(c, s.world, l, held);
    case RetireLocker(_) => LockerEditSafe(c, s.world, l, held);
    case RetireStation(_) => StationsAndParcelsSafe(c, s.world, l, held);
    case PublishRates(_, _, _, _) => PublishSafe(c, s.world, l, held);
  }

  lemma WorldStepKeepsRows(c: Config, s: State, l: Label)
    requires Enabled(c, s, l) && !l.Advance? && !l.Begin?
    ensures Step(c, s, l).requests == s.requests
    ensures Step(c, s, l).world.tables.assignments == s.world.tables.assignments
    ensures ClosedRows(Step(c, s, l).world.tables) == ClosedRows(s.world.tables)
  {
  }

  lemma EveryoneStays(c: Config, s: State, w': World)
    requires WorldOk(c, s.world) && RequestsOk(c, s) && Evolves(s.world, w', Locked(s.requests))
    ensures forall r | r in s.requests :: RequestOk(c, w', s.requests[r])
  {
    forall r | r in s.requests ensures RequestOk(c, w', s.requests[r]) {
      assert Held(s.requests[r]) <= Locked(s.requests);
      RequestStays(c, s.world, w', Locked(s.requests), s.requests[r]);
    }
  }

  lemma BeginIsSafe(c: Config, s: State, rid: nat, q: Request)
    requires Inv(c, s) && Enabled(c, s, Begin(rid, q))
    ensures Inv(c, Step(c, s, Begin(rid, q)))
  {
    hide WorldOk, Next, OneToOne;
    OneToOneKept(s.requests, Made, s.world.tables.assignments.Keys, rid, q);
    OneToOneKept(s.requests, Closed, ClosedRows(s.world.tables), rid, q);
  }

  lemma StepIsSafe(c: Config, s: State, l: Label)
    requires Inv(c, s) && Enabled(c, s, l)
    ensures Inv(c, Step(c, s, l))
    ensures Evolves(s.world, Step(c, s, l).world, Locked(s.requests))
  {
    if l.Advance? {
      AdvanceIsSafe(c, s, l.rid, l.answer);
    } else if l.Begin? {
      EvolvesReflexive(s.world, Locked(s.requests));
      BeginIsSafe(c, s, l.rid, l.request);
    } else {
      WorldStep(c, s, l);
      WorldStepKeepsRows(c, s, l);
      EveryoneStays(c, s, Step(c, s, l).world);
    }
  }

  // ---- Every run ----

  /** The invariant holds in every state reachable from a started system. */
  lemma {:induction false} ReachableIsSafe(c: Config, s: State, ls: seq<Label>)
    requires Started(c, s) && Run(c, s, ls)
    ensures Inv(c, Final(c, s, ls))
  {
    if ls == [] {
      StartedIsSafe(c, s);
    } else {
      var n := |ls| - 1;
      ReachableIsSafe(c, s, ls[..n]);
      StepIsSafe(c, Final(c, s, ls[..n]), ls[n]);
    }
  }

  lemma EvolvesForLess(w: World, w': World, held: set<Id>)
    requires Evolves(w, w', held)
    ensures Evolves(w, w', {})
  {
  }

  /** Between any two moments of a run, everything only evolves. */
  lemma {:induction false} HistoryOnlyEvolves(c: Config, s: State, before: seq<Label>, more: seq<Label>)
    requires Started(c, s) && Run(c, s, before + more)
    ensures Run(c, s, before)
    ensures Evolves(Final(c, s, before).world, Final(c, s, before + more).world, {})
  {
    if more == [] {
      assert before + more == before;
      EvolvesReflexive(Final(c, s, before).world, {});
    } else {
      var n := |more| - 1;
      var init := before + more[..n];
      assert (before + more)[..|before + more| - 1] == init;
      HistoryOnlyEvolves(c, s, before, more[..n]);
      ReachableIsSafe(c, s, init);
      var mid := Final(c, s, init);
      StepIsSafe(c, mid, more[n]);
      EvolvesForLess(mid.world, Final(c, s, before + more).world, Locked(mid.requests));
      EvolvesTransitive(Final(c, s, before).world, mid.world, Final(c, s, before + more).world, {});
    }
  }

  /** One open row per locker, one row per parcel, and a status that says which: in every
      reachable state, whatever is in flight. */
  lemma RowsAndStatusesAgree(c: Config, s: State, ls: seq<Label>)
    requires Started(c, s) && Run(c, s, ls)
    ensures var t := Final(c, s, ls).world.tables;
            && (forall a, b | a in t.assignments && b in t.assignments && a != b ::
                  Compatible(t.assignments[a], t.assignments[b]))
            && (forall p | p in t.packages ::
                  && (t.packages[p].status.Registered? <==> !HasRow(t, p))
                  && (t.packages[p].status.Stored? <==>
                        exists a :: a in t.assignments && t.assignments[a].packageId == p && t.assignments[a].Active())
                  && (t.packages[p].status.Retrieved? <==>
                        exists a :: a in t.assignments && t.assignments[a].packageId == p && !t.assignments[a].Active()))
  {
    ReachableIsSafe(c, s, ls);
    var t := Final(c, s, ls).world.tables;
    forall p | p in t.packages
      ensures && (t.packages[p].status.Registered? <==> !HasRow(t, p))
              && (t.packages[p].status.Stored? <==>
                    exists a :: a in t.assignments && t.assignments[a].packageId == p && t.assignments[a].Active())
              && (t.packages[p].status.Retrieved? <==>
                    exists a :: a in t.assignments && t.assignments[a].packageId == p && !t.assignments[a].Active())
    {
      StatusIsTheRow(c.weight, t, p);
    }
  }

  ghost predicate RetrievedIt(q: Request, packageId: Id) {
    q.Finished? && q.outcome.RetrieveDone? && q.outcome.packageId == packageId
  }

  lemma RequestIsOk(c: Config, s: State, ls: seq<Label>, rid: nat)
    requires Started(c, s) && Run(c, s, ls) && rid in Final(c, s, ls).requests
    ensures RequestOk(c, Final(c, s, ls).world, Final(c, s, ls).requests[rid])
    ensures WorldOk(c, Final(c, s, ls).world)
  {
    ReachableIsSafe(c, s, ls);
  }

  lemma SameRow(w: World, id1: Id, id2: Id, p: Id, l1: Id, l2: Id, at1: int, at2: int, fee1: int, fee2: int)
    requires KeysHold(w.tables.assignments)
    requires RowClosed(w, id1, p, l1, at1, fee1) && RowClosed(w, id2, p, l2, at2, fee2)
    ensures id1 == id2
  {
  }

  lemma CreditedOnce(requests: map<nat, Request>, f: Request -> Option<Id>, ids: set<Id>, r1: nat, r2: nat)
    requires OneToOne(requests, f, ids) && r1 in requests && r2 in requests
    requires f(requests[r1]).Some? && f(requests[r1]) == f(requests[r2])
    ensures r1 == r2
  {
  }

  /** However many retrievals of a parcel race, at most one ever reports success. */
  lemma AtMostOneRetrievalSucceeds(c: Config, s: State, ls: seq<Label>, packageId: Id, r1: nat, r2: nat)
    requires Started(c, s) && Run(c, s, ls)
    requires r1 in Final(c, s, ls).requests && RetrievedIt(Final(c, s, ls).requests[r1], packageId)
    requires r2 in Final(c, s, ls).requests && RetrievedIt(Final(c, s, ls).requests[r2], packageId)
    ensures r1 == r2
  {
    var f := Final(c, s, ls);
    RequestIsOk(c, s, ls, r1);
    RequestIsOk(c, s, ls, r2);
    var o1, o2 := f.requests[r1].outcome, f.requests[r2].outcome;
    SameRow(f.world, o1.assignmentId, o2.assignmentId, packageId, o1.lockerId, o2.lockerId,
            o1.retrievedAt, o2.retrievedAt, o1.fee, o2.fee);
    RowsAreSuccessfulCalls(c, s, ls);
    CreditedOnce(f.requests, Closed, ClosedRows(f.world.tables), r1, r2);
  }

  /** Once closed, a row never changes again: not its code, not its instant, not its fee. */
  lemma ClosedRowsAreFinal(c: Config, s: State, before: seq<Label>, more: seq<Label>, a: Id)
    requires Started(c, s) && Run(c, s, before + more) && Run(c, s, before)
    requires a in Final(c, s, before).world.tables.assignments && !Final(c, s, before).world.tables.assignments[a].Active()
    ensures a in Final(c, s, before + more).world.tables.assignments
    ensures Final(c, s, before + more).world.tables.assignments[a] == Final(c, s, before).world.tables.assignments[a]
  {
    HistoryOnlyEvolves(c, s, before, more);
    assert RowEvolves(Final(c, s, before).world.tables.assignments[a], Final(c, s, before + more).world.tables.assignments[a]);
  }

  /**
   * Every fee on record is what its own stay, from its `stored_at` to its clamped `retrieved_at`,
   * costs by the version in force when it began: the sum, over the days started, of the rate
   * posted for each. It is read off today's table, whatever has been published since.
   */
  lemma EveryFeeIsTheStaysOwn(c: Config, s: State, ls: seq<Label>, a: Id)
    requires Started(c, s) && Run(c, s, ls)
    requires a in Final(c, s, ls).world.tables.assignments && !Final(c, s, ls).world.tables.assignments[a].Active()
    ensures var w := Final(c, s, ls).world;
            var row := w.tables.assignments[a];
            && row.packageId in w.tables.packages && row.storageFeeMinor.Some?
            && row.storedAt <= row.retrievedAt.value
            && PriceHistory.ChargedByTheDay(w.rates, w.tables.packages[row.packageId].size, row.storedAt,
                                            row.retrievedAt.value, row.storageFeeMinor.value)
            && var bands := Rates.FindBandsFor(w.rates, w.tables.packages[row.packageId].size, row.storedAt);
               && StorageRate.Tiles(bands)
               && row.storageFeeMinor.value
                  == StorageFee.SumOfDailyRates(bands, StorageFee.ChargeableDays(row.storedAt, row.retrievedAt.value))
  {
    ReachableIsSafe(c, s, ls);
    var w := Final(c, s, ls).world;
    var row := w.tables.assignments[a];
    assert RowOk(w.tables, row) && Priced(w.rates, w.tables, row);
    Rates.PricedExactlyFromTheFirstVersionOn(w.rates, w.tables.packages[row.packageId].size, row.storedAt, row.retrievedAt.value);
    PriceHistory.QuotedByTheDay(w.rates, w.tables.packages[row.packageId].size, row.storedAt, row.retrievedAt.value);
  }

  /** The bands for an instant already reached are the same at every later moment. */
  lemma PastRatesNeverChange(c: Config, s: State, before: seq<Label>, more: seq<Label>, size: Size, asOf: int)
    requires Started(c, s) && Run(c, s, before + more) && Run(c, s, before)
    requires asOf <= Final(c, s, before).world.now
    ensures Rates.FindBandsFor(Final(c, s, before + more).world.rates, size, asOf)
         == Rates.FindBandsFor(Final(c, s, before).world.rates, size, asOf)
    ensures Rates.Sound(Final(c, s, before + more).world.rates)
  {
    HistoryOnlyEvolves(c, s, before, more);
    ReachableIsSafe(c, s, before + more);
    assert RatesEvolve(Final(c, s, before).world, Final(c, s, before + more).world);
  }

  /** Rows and successful store calls are one to one, and so are closed rows and retrievals that
      got past their commit: a call that fails leaves nothing behind. */
  lemma RowsAreSuccessfulCalls(c: Config, s: State, ls: seq<Label>)
    requires Started(c, s) && Run(c, s, ls)
    ensures var f := Final(c, s, ls);
            && OneToOne(f.requests, Made, f.world.tables.assignments.Keys)
            && OneToOne(f.requests, Closed, ClosedRows(f.world.tables))
  {
    ReachableIsSafe(c, s, ls);
  }

  /** A store that reported success has its row ever after, at a locker of the station it named
      that is large enough for the parcel. */
  lemma StoredStaysPlaced(c: Config, s: State, ls: seq<Label>, rid: nat)
    requires Started(c, s) && Run(c, s, ls) && rid in Final(c, s, ls).requests
    requires Final(c, s, ls).requests[rid].Finished? && Final(c, s, ls).requests[rid].outcome.StoreDone?
    ensures Committed(Final(c, s, ls).world, Final(c, s, ls).requests[rid].outcome)
  {
    RequestIsOk(c, s, ls, rid);
  }

  lemma InsertWrites(c: Config, w: World, q: Request, a: Answer)
    requires TablesOk(c.weight, w.tables) && RequestOk(c, w, q)
    requires var q' := Next(c, w, q, a).1; !q.Finished? && q'.Finished? && q'.outcome.StoreDone?
    ensures var (w', q') := Next(c, w, q, a);
            WritesTheRow(c, w.tables, w'.tables, q'.outcome)
  {
    assert q.StoreInserting?;
    StoreTxTables(c.weight, w.tables, q.call.packageId, q.stored.assignment.value, a.reported);
  }

  /** One new row, open, under a fresh id, whose hash goes with the code returned; and a parcel
      that was REGISTERED until then. */
  ghost predicate WritesTheRow(c: Config, t: Tables, t': Tables, o: Outcome)
    requires o.StoreDone?
  {
    && o.assignmentId !in t.assignments && o.assignmentId in t'.assignments
    && t'.assignments == t.assignments[o.assignmentId := t'.assignments[o.assignmentId]]
    && t'.assignments[o.assignmentId].Active()
    && t'.assignments[o.assignmentId].packageId == o.packageId
    && t'.assignments[o.assignmentId].lockerId == o.lockerId
    && t'.assignments[o.assignmentId].pickupCodeHash == c.hash(o.code, o.assignmentId)
    && o.packageId in t.packages && t.packages[o.packageId].status.Registered?
    && o.packageId in t'.packages && t'.packages[o.packageId].status.Stored?
  }

  /** What a store commits in the step that makes it succeed. */
  lemma StoreCommitsItsCode(c: Config, s: State, ls: seq<Label>, rid: nat, a: Answer)
    requires Started(c, s) && Run(c, s, ls) && Enabled(c, Final(c, s, ls), Advance(rid, a))
    requires var s' := Step(c, Final(c, s, ls), Advance(rid, a));
             s'.requests[rid].Finished? && s'.requests[rid].outcome.StoreDone?
    ensures var s' := Step(c, Final(c, s, ls), Advance(rid, a));
            WritesTheRow(c, Final(c, s, ls).world.tables, s'.world.tables, s'.requests[rid].outcome)
  {
    RequestIsOk(c, s, ls, rid);
    InsertWrites(c, Final(c, s, ls).world, Final(c, s, ls).requests[rid], a);
  }

  lemma HashesKept(c: Config, w: World, q: Request, a: Answer, id: Id)
    requires RequestOk(c, w, q) && !q.Finished? && id in w.tables.assignments
    ensures var t' := Next(c, w, q, a).0.tables;
            && id in t'.assignments
            && (t'.assignments[id].pickupCodeHash != w.tables.assignments[id].pickupCodeHash ==>
                  && q.ReissueSaving? && q.pkg.assignment.value.id == id && w.tables.assignments[id].Active()
                  && t'.assignments[id].pickupCodeHash == c.hash(q.code, id))
  {
    if q.StoreInserting? {
      StoreKeepsOthers(c, w, q, a, id);
    } else if q.RetrieveSaving? {
      SaveNext(c, w, q, a);
    }
  }

  /** Only committing a re-issue ever changes the code an open row answers to. */
  lemma OnlyReissueChangesTheCode(c: Config, s: State, l: Label, id: Id)
    requires RequestsOk(c, s) && Enabled(c, s, l) && id in s.world.tables.assignments
    ensures var rows, rows' := s.world.tables.assignments, Step(c, s, l).world.tables.assignments;
            && id in rows'
            && (rows'[id].pickupCodeHash != rows[id].pickupCodeHash ==>
                  && l.Advance? && s.requests[l.rid].ReissueSaving?
                  && s.requests[l.rid].pkg.assignment.Some? && s.requests[l.rid].pkg.assignment.value.id == id
                  && rows[id].Active()
                  && rows'[id].pickupCodeHash == c.hash(s.requests[l.rid].code, id))
  {
    if l.Advance? {
      HashesKept(c, s.world, s.requests[l.rid], l.answer, id);
    } else if !l.Begin? {
      WorldStepKeepsRows(c, s, l);
    }
  }

  lemma StoreKeepsOthers(c: Config, w: World, q: Request, a: Answer, id: Id)
    requires RequestOk(c, w, q) && q.StoreInserting? && id in w.tables.assignments
    ensures id in Next(c, w, q, a).0.tables.assignments
    ensures Next(c, w, q, a).0.tables.assignments[id] == w.tables.assignments[id]
  {
    var la := q.stored.assignment.value;
    if !ViolatesAny(w.tables, la.id, ToRow(q.call.packageId, la)) {
      assert !Violates(w.tables, la.id, ToRow(q.call.packageId, la), PrimaryKey);
    }
  }

  /** An occupied locker is never retired, a live locker stands at a live station, and neither
      kind of retirement is ever undone. */
  lemma RetirementsHold(c: Config, s: State, before: seq<Label>, more: seq<Label>)
    requires Started(c, s) && Run(c, s, before + more) && Run(c, s, before)
    ensures var t, t' := Final(c, s, before).world.tables, Final(c, s, before + more).world.tables;
            && (forall a | a in t'.assignments && t'.assignments[a].Active() ::
                  t'.assignments[a].lockerId in t'.lockers && t'.lockers[t'.assignments[a].lockerId].Live())
            && (forall l | l in t'.lockers && t'.lockers[l].Live() ::
                  t'.lockers[l].stationId in t'.stations && t'.stations[t'.lockers[l].stationId])
            && (forall l | l in t.lockers && !t.lockers[l].Live() :: l in t'.lockers && t'.lockers[l] == t.lockers[l])
            && (forall x | x in t.stations && !t.stations[x] :: x in t'.stations && !t'.stations[x])
  {
    ReachableIsSafe(c, s, before + more);
    HistoryOnlyEvolves(c, s, before, more);
    var t, t' := Final(c, s, before).world.tables, Final(c, s, before + more).world.tables;
    forall a | a in t'.assignments ensures RowOk(t', t'.assignments[a]) {
    }
    forall l | l in t'.lockers ensures LockerOk(t', t'.lockers[l]) {
    }
    forall l | l in t.lockers && !t.lockers[l].Live() ensures l in t'.lockers && t'.lockers[l] == t.lockers[l] {
      assert LockerEvolves(t.lockers[l], t'.lockers[l]);
    }
  }

  // ---- Termination ----

  /** Steps a request can still take. A store takes two, then two for each attempt left. */
  function StepsLeft(q: Request): int {
    match q
    case StoreLoading(_) => 8
    case StoreAtStation(_, _) => 7
    case StoreAllocating(_, _, attempt) => 2 * (MAX_ATTEMPTS - attempt) + 2
    case StoreInserting(_, _, attempt, _, _) => 2 * (MAX_ATTEMPTS - attempt) + 1
    case RetrieveChecking(_, _) => 6
    case RetrieveFinding(_, _) => 5
    case RetrieveLoading(_, _) => 4
    case RetrieveFailing(_) => 1
    case RetrievePricing(_, _) => 3
    case RetrieveSaving(_, _) => 2
    case RetrieveClearing(_, _) => 1
    case ReissueChecking(_, _) => 7
    case ReissueLoading(_, _) => 6
    case ReissueFinding(_, _) => 5
    case ReissueSaving(_, _, _) => 4
    case ReissueTouching(_, _, _) => 3
    case ReissueCounting(_, _, _) => 2
    case ReissueClearing(_, _, _) => 1
    case Finished(_) => 0
  }

  function Taken(ls: seq<Label>, rid: nat): nat {
    if ls == [] then 0
    else Taken(ls[..|ls| - 1], rid) + if ls[|ls| - 1].Advance? && ls[|ls| - 1].rid == rid then 1 else 0
  }

  predicate Storing(q: Request) {
    q.StoreLoading? || q.StoreAtStation? || q.StoreAllocating? || q.StoreInserting?
  }

  lemma StoreRunsOut(c: Config, w: World, q: Request, a: Answer)
    requires Storing(q) && (q.StoreAllocating? || q.StoreInserting? ==> 1 <= q.attempt <= MAX_ATTEMPTS)
    ensures 0 <= StepsLeft(Next(c, w, q, a).1) < StepsLeft(q)
  {
  }

  lemma OthersRunOut(c: Config, w: World, q: Request, a: Answer)
    requires !Storing(q) && !q.Finished?
    ensures 0 <= StepsLeft(Next(c, w, q, a).1) < StepsLeft(q)
  {
  }

  lemma StepsLeftMeans(c: Config, w: World, q: Request)
    requires RequestOk(c, w, q)
    ensures 0 <= StepsLeft(q) <= 8
    ensures StepsLeft(q) == 0 <==> q.Finished?
    ensures q.StoreAllocating? || q.StoreInserting? ==> 1 <= q.attempt <= MAX_ATTEMPTS
  {
  }

  lemma WhoMoves(c: Config, s: State, l: Label, rid: nat)
    requires Enabled(c, s, l)
    ensures var s' := Step(c, s, l);
            if l.Advance? && l.rid == rid then
              rid in s.requests && !s.requests[rid].Finished? && rid in s'.requests
              && s'.requests[rid] == Next(c, s.world, s.requests[rid], l.answer).1
            else if l.Begin? && l.rid == rid then rid !in s.requests
            else (rid in s'.requests <==> rid in s.requests) && (rid in s.requests ==> s'.requests[rid] == s.requests[rid])
  {
  }

  /** Every request is done after eight steps of its own at most; a store gets there by way of
      three attempts at most. */
  lemma {:induction false} RequestsTerminate(c: Config, s: State, ls: seq<Label>, rid: nat)
    requires Started(c, s) && Run(c, s, ls)
    ensures var rs := Final(c, s, ls).requests;
            && (rid !in rs ==> Taken(ls, rid) == 0)
            && (rid in rs ==>
                  && 0 <= StepsLeft(rs[rid]) <= 8 - Taken(ls, rid)
                  && (StepsLeft(rs[rid]) == 0 <==> rs[rid].Finished?)
                  && (rs[rid].StoreAllocating? || rs[rid].StoreInserting? ==> 1 <= rs[rid].attempt <= MAX_ATTEMPTS))
  {
    if rid in Final(c, s, ls).requests {
      RequestIsOk(c, s, ls, rid);
      StepsLeftMeans(c, Final(c, s, ls).world, Final(c, s, ls).requests[rid]);
    }
    if ls != [] {
      var n := |ls| - 1;
      var g := Final(c, s, ls[..n]);
      RequestsTerminate(c, s, ls[..n], rid);
      WhoMoves(c, g, ls[n], rid);
      if ls[n].Advance? && ls[n].rid == rid {
        RequestIsOk(c, s, ls[..n], rid);
        StepsLeftMeans(c, g.world, g.requests[rid]);
        if Storing(g.requests[rid]) {
          StoreRunsOut(c, g.world, g.requests[rid], ls[n].answer);
        } else {
          OthersRunOut(c, g.world, g.requests[rid], ls[n].answer);
        }
      }
    }
  }
}
