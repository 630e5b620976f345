/**
 * One service call as its caller lives through it: its own turns, each a step of the protocol,
 * and whatever everybody else does between them.
 */
module Calls {
  import opened Common
  import opened Packages
  import opened Database
  import opened AttemptCounter
  import opened Protocol
  import opened Safety
  import opened Interleaving
  import opened Runs
  import Rates = StorageRateTable

  datatype Turn = Turn(before: World, request: Request, locked: set<Id>, answer: Answer, after: World, next: Request)

  ghost predicate Took(c: Config, t: Turn) {
    && Answers(c, t.before, t.locked, t.request, t.answer)
    && Next(c, t.before, t.request, t.answer) == (t.after, t.next)
  }

  /** What others may do while a request holds `held`. */
  ghost predicate Meanwhile(c: Config, w: World, w': World, held: set<Id>) {
    Evolves(w, w', held) && WorldOk(c, w')
  }

  /** Turn `i` leads on to the one after it. */
  ghost predicate LeadsOn(c: Config, log: seq<Turn>, i: nat)
    requires i + 1 < |log|
  {
    log[i + 1].request == log[i].next && Meanwhile(c, log[i].after, log[i + 1].before, Held(log[i].next))
  }

  ghost predicate Chained(c: Config, log: seq<Turn>) {
    && (forall i {:trigger Took(c, log[i])} | 0 <= i < |log| :: Took(c, log[i]))
    && (forall i | 0 <= i < |log| - 1 :: LeadsOn(c, log, i))
  }

  /** A call begun as `first` in `from` has taken the turns `log`, and is at `q` now that the
      world is `w`. */
  datatype Progress = Progress(from: World, first: Request, log: seq<Turn>, w: World, q: Request) {
    function Last(): Turn
      requires log != []
    {
      log[|log| - 1]
    }

    /** Where it stood before its last turn. */
    function Before(): Progress
      requires log != []
    {
      Progress(from, first, log[..|log| - 1], Last().before, Last().request)
    }
  }

  ghost predicate Performed(c: Config, p: Progress) {
    && WorldOk(c, p.from) && Initial(p.first)
    && Chained(c, p.log)
    && (p.log == [] ==> p.q == p.first && Meanwhile(c, p.from, p.w, Held(p.q)))
    && (p.log != [] ==>
          && p.log[0].request == p.first && Meanwhile(c, p.from, p.log[0].before, Held(p.first))
          && p.Last().next == p.q && Meanwhile(c, p.Last().after, p.w, Held(p.q)))
  }

  lemma Begins(c: Config, w: World, q: Request)
    requires WorldOk(c, w) && Initial(q)
    ensures Performed(c, Progress(w, q, [], w, q))
  {
  }

  lemma Waits(c: Config, p: Progress, w': World)
    requires Performed(c, p) && Meanwhile(c, p.w, w', Held(p.q))
    ensures Performed(c, p.(w := w'))
  {
    EvolvesTransitive(if p.log == [] then p.from else p.Last().after, p.w, w', Held(p.q));
  }

  lemma ChainedBefore(c: Config, log: seq<Turn>, n: nat)
    requires Chained(c, log) && n <= |log|
    ensures Chained(c, log[..n])
  {
    forall i | 0 <= i < n - 1 ensures LeadsOn(c, log[..n], i) {
      assert LeadsOn(c, log, i);
    }
  }

  lemma LastLeads(c: Config, p: Progress)
    requires Performed(c, p) && p.log != []
    ensures Performed(c, p.Before())
  {
    var n := |p.log| - 1;
    var b := p.Before();
    ChainedBefore(c, p.log, n);
    if n > 0 {
      assert LeadsOn(c, p.log, n - 1);
      assert b.log[0] == p.log[0] && b.Last() == p.log[n - 1];
      assert Meanwhile(c, b.Last().after, b.w, Held(b.q));
    }
  }

  lemma BeforeLast(c: Config, p: Progress)
    requires Performed(c, p) && p.log != []
    ensures Performed(c, p.Before())
    ensures Took(c, p.Last()) && p.Last().next == p.q && Meanwhile(c, p.Last().after, p.w, Held(p.q))
  {
    LastLeads(c, p);
  }

  /** What a call stands on holds wherever it stands. */
  lemma {:induction false} CallIsSafe(c: Config, p: Progress)
    requires Performed(c, p)
    ensures WorldOk(c, p.w) && RequestOk(c, p.w, p.q) && Evolves(p.from, p.w, {})
    decreases |p.log|
  {
    if p.log == [] {
      EvolvesForLess(p.from, p.w, Held(p.q));
    } else {
      var t := p.Last();
      BeforeLast(c, p);
      CallIsSafe(c, p.Before());
      OwnStep(c, t.before, t.locked, t.request, t.answer, {});
      RequestStays(c, t.after, p.w, Held(p.q), p.q);
      EvolvesForLess(t.after, p.w, Held(p.q));
      EvolvesTransitive(p.from, t.before, t.after, {});
      EvolvesTransitive(p.from, t.after, p.w, {});
    }
  }

  /** One turn more. */
  lemma TakesTurn(c: Config, p: Progress, locked: set<Id>, a: Answer, w': World, q': Request) returns (p': Progress)
    requires Performed(c, p)
    requires Answers(c, p.w, locked, p.q, a) && Next(c, p.w, p.q, a) == (w', q')
    ensures Performed(c, p') && WorldOk(c, w')
    ensures p' == Progress(p.from, p.first, p.log + [Turn(p.w, p.q, locked, a, w', q')], w', q')
  {
    CallIsSafe(c, p);
    OwnStep(c, p.w, locked, p.q, a, {});
    EvolvesReflexive(w', Held(q'));
    var t := Turn(p.w, p.q, locked, a, w', q');
    p' := Progress(p.from, p.first, p.log + [t], w', q');
    Appends(c, p, t);
  }

  lemma Appends(c: Config, p: Progress, t: Turn)
    requires Performed(c, p)
    requires t.before == p.w && t.request == p.q && Took(c, t) && Meanwhile(c, t.after, t.after, Held(t.next))
    ensures Performed(c, Progress(p.from, p.first, p.log + [t], t.after, t.next))
  {
    hide Took, Evolves, WorldOk;
    var log' := p.log + [t];
    forall i | 0 <= i < |log'| ensures Took(c, log'[i]) {
      assert i < |p.log| ==> Took(c, p.log[i]);
    }
    forall i | 0 <= i < |log'| - 1 ensures LeadsOn(c, log', i) {
      assert i < |p.log| - 1 ==> LeadsOn(c, p.log, i);
    }
  }

  /** No call takes more than eight turns. */
  lemma {:induction false} CallIsShort(c: Config, p: Progress)
    requires Performed(c, p)
    ensures |p.log| + StepsLeft(p.q) <= StepsLeft(p.first) <= 8
    ensures 0 <= StepsLeft(p.q)
    decreases |p.log|
  {
    CallIsSafe(c, p);
    StepsLeftMeans(c, p.w, p.q);
    if p.log != [] {
      BeforeLast(c, p);
      CallIsShort(c, p.Before());
      TurnShortens(c, p.Before(), p.Last());
    }
  }

  lemma TurnShortens(c: Config, p: Progress, t: Turn)
    requires Performed(c, p) && t.before == p.w && t.request == p.q && Took(c, t)
    ensures StepsLeft(t.next) < StepsLeft(t.request)
  {
    CallIsSafe(c, p);
    StepsLeftMeans(c, t.before, t.request);
    if Storing(t.request) {
      StoreRunsOut(c, t.before, t.request, t.answer);
    } else {
      OthersRunOut(c, t.before, t.request, t.answer);
    }
  }

  // ---- What a call leaves behind ----

  ghost predicate ChangedNothing(log: seq<Turn>) {
    forall i | 0 <= i < |log| :: log[i].after == log[i].before
  }

  /** Of the tables, a call has changed nothing but at its turn `n`. */
  ghost predicate ChangedTablesOnlyAt(log: seq<Turn>, n: int) {
    forall i | 0 <= i < |log| && i != n :: log[i].after.tables == log[i].before.tables
  }

  /** No turn of a store changes anything before the one that makes it succeed, and that one
      writes its row; so a store that fails has changed nothing at all. */
  lemma {:induction false} StoreChangesOnlyItsRow(c: Config, p: Progress)
    requires Performed(c, p) && p.first.StoreLoading?
    ensures Storing(p.q) || p.q.Finished?
    ensures if p.q.Finished? && p.q.outcome.StoreDone? then
              && p.log != [] && ChangedNothing(p.Before().log)
              && WritesTheRow(c, p.Last().before.tables, p.Last().after.tables, p.q.outcome)
            else ChangedNothing(p.log)
    decreases |p.log|
  {
    hide Next, Evolves, WorldOk;
    if p.log != [] {
      LastLeads(c, p);
      StoreChangesOnlyItsRow(c, p.Before());
      StoreLastTurn(c, p);
      assert forall i | 0 <= i < |p.log| - 1 :: p.log[i] == p.Before().log[i];
    }
  }

  lemma StoreLastTurn(c: Config, p: Progress)
    requires Performed(c, p) && p.log != [] && (Storing(p.Before().q) || p.Before().q.Finished?)
    ensures Storing(p.Before().q) && (Storing(p.q) || p.q.Finished?)
    ensures if p.q.Finished? && p.q.outcome.StoreDone? then
              WritesTheRow(c, p.Last().before.tables, p.Last().after.tables, p.q.outcome)
            else p.Last().after == p.Last().before
  {
    hide Next, Evolves, WorldOk;
    BeforeLast(c, p);
    CallIsSafe(c, p.Before());
    StoreTurn(c, p.Last());
  }

  lemma StoreTurn(c: Config, t: Turn)
    requires WorldOk(c, t.before) && RequestOk(c, t.before, t.request) && Took(c, t) && (Storing(t.request) || t.request.Finished?)
    ensures Storing(t.request) && (Storing(t.next) || t.next.Finished?)
    ensures if t.next.Finished? && t.next.outcome.StoreDone? then
              WritesTheRow(c, t.before.tables, t.after.tables, t.next.outcome)
            else t.after == t.before
  {
    if t.next.Finished? && t.next.outcome.StoreDone? {
      InsertWrites(c, t.before, t.request, t.answer);
    }
  }

  predicate Retrieving(q: Request) {
    q.RetrieveChecking? || q.RetrieveFinding? || q.RetrieveLoading? || q.RetrieveFailing?
    || q.RetrievePricing? || q.RetrieveSaving? || q.RetrieveClearing?
  }

  /** Closes the one open row, with the instant and the fee reported, and changes no other. */
  ghost predicate ClosesTheRow(t: Tables, t': Tables, o: Outcome)
    requires o.RetrieveDone?
  {
    && o.assignmentId in t.assignments && t.assignments[o.assignmentId].Active()
    && t.assignments[o.assignmentId].lockerId == o.lockerId && t.assignments[o.assignmentId].packageId == o.packageId
    && t'.assignments == t.assignments[o.assignmentId :=
         t.assignments[o.assignmentId].(retrievedAt := Some(o.retrievedAt), storageFeeMinor := Some(o.fee))]
    && o.packageId in t'.packages && t'.packages[o.packageId].status.Retrieved?
  }

  /** What a retrieval that is clearing, or through, reports. */
  function Pending(q: Request): Option<Outcome> {
    if q.RetrieveClearing? && HasClosed(q.pkg) then
      var la := q.pkg.assignment.value;
      Some(RetrieveDone(q.pkg.id, la.id, q.door, la.retrievedAt.value, la.storageFeeMinor.value))
    else if q.Finished? && q.outcome.RetrieveDone? then Some(q.outcome)
    else None
  }

  /** Turns since the row was closed. */
  function SinceClosing(q: Request): nat {
    if q.Finished? then 2 else 1
  }

  lemma RetrieveTurn(c: Config, t: Turn)
    requires WorldOk(c, t.before) && RequestOk(c, t.before, t.request) && Took(c, t)
    requires Retrieving(t.request) || t.request.Finished?
    ensures Retrieving(t.request) && (Retrieving(t.next) || t.next.Finished?)
    ensures if Pending(t.request).None? && Pending(t.next).Some? then
              t.next.RetrieveClearing? && ClosesTheRow(t.before.tables, t.after.tables, Pending(t.next).value)
            else
              t.after.tables == t.before.tables
              && (Pending(t.request).Some? ==> t.request.RetrieveClearing? && Pending(t.next) == Pending(t.request) && t.next.Finished?)
  {
    hide WorldOk;
    if t.request.RetrieveSaving? {
      ClosingTurn(c, t);
    }
  }

  lemma ClosingTurn(c: Config, t: Turn)
    requires WorldOk(c, t.before) && RequestOk(c, t.before, t.request) && Took(c, t) && t.request.RetrieveSaving?
    ensures Pending(t.next).Some? ==>
              t.next.RetrieveClearing? && ClosesTheRow(t.before.tables, t.after.tables, Pending(t.next).value)
    ensures Pending(t.next).None? ==> t.next.Finished? && t.after == t.before
  {
    var la := t.request.pkg.assignment.value;
    assert RowOk(t.before.tables, t.before.tables.assignments[la.id]);
    SaveNext(c, t.before, t.request, t.answer);
    hide Next;
    assert CloseTx(t.before.tables, la.id, t.request.pkg.id, la.retrievedAt.value, la.storageFeeMinor.value).None? ==> t.next.Finished?;
  }

  lemma RetrieveLastTurn(c: Config, p: Progress)
    requires Performed(c, p) && p.log != [] && (Retrieving(p.Before().q) || p.Before().q.Finished?)
    ensures var t := p.Last();
            && Retrieving(t.request) && (Retrieving(p.q) || p.q.Finished?)
            && if Pending(t.request).None? && Pending(p.q).Some? then
                 p.q.RetrieveClearing? && ClosesTheRow(t.before.tables, t.after.tables, Pending(p.q).value)
               else
                 t.after.tables == t.before.tables
                 && (Pending(t.request).Some? ==> t.request.RetrieveClearing? && Pending(p.q) == Pending(t.request) && p.q.Finished?)
  {
    hide Next, Evolves, WorldOk;
    BeforeLast(c, p);
    CallIsSafe(c, p.Before());
    RetrieveTurn(c, p.Last());
  }

  /** A retrieval changes the tables in one turn only, the one that closes its row at the price it
      reports; one that fails leaves the tables alone. */
  lemma {:induction false} RetrieveClosesOnlyItsRow(c: Config, p: Progress)
    requires Performed(c, p) && p.first.RetrieveChecking?
    ensures Retrieving(p.q) || p.q.Finished?
    ensures if Pending(p.q).None? then ChangedTablesOnlyAt(p.log, -1)
            else
              var n := |p.log| - SinceClosing(p.q);
              && 0 <= n < |p.log| && ChangedTablesOnlyAt(p.log, n)
              && ClosesTheRow(p.log[n].before.tables, p.log[n].after.tables, Pending(p.q).value)
    decreases |p.log|
  {
    hide Next, Evolves, WorldOk, ClosesTheRow;
    if p.log != [] {
      LastLeads(c, p);
      RetrieveClosesOnlyItsRow(c, p.Before());
      RetrieveLastTurn(c, p);
      assert forall i | 0 <= i < |p.log| - 1 :: p.log[i] == p.Before().log[i];
    }
  }

  predicate Reissuing(q: Request) {
    q.ReissueChecking? || q.ReissueLoading? || q.ReissueFinding? || q.ReissueSaving?
    || q.ReissueTouching? || q.ReissueCounting? || q.ReissueClearing?
  }

  /** Turns since the new code was stored; 0 while it is not. */
  function SinceRehash(q: Request): nat {
    if q.ReissueTouching? then 1
    else if q.ReissueCounting? then 2
    else if q.ReissueClearing? then 3
    else if q.Finished? && q.outcome.ReissueDone? then 4
    else 0
  }

  function NewCode(q: Request): string {
    if q.ReissueTouching? || q.ReissueCounting? || q.ReissueClearing? then q.code
    else if q.Finished? && q.outcome.ReissueDone? then q.outcome.code
    else ""
  }

  /** The parcel's one open row answers to `code` and to no other change. */
  ghost predicate Rehashes(c: Config, t: Tables, t': Tables, packageId: Id, code: string) {
    exists id :: && id in t.assignments && t.assignments[id].Active() && t.assignments[id].packageId == packageId
                 && t' == t.(assignments := t.assignments[id := t.assignments[id].(pickupCodeHash := c.hash(code, id))])
  }

  lemma ReissueTurn(c: Config, t: Turn, packageId: Id)
    requires WorldOk(c, t.before) && RequestOk(c, t.before, t.request) && Took(c, t)
    requires Reissuing(t.request) || t.request.Finished?
    requires Reissuing(t.request) ==> t.request.packageId == packageId
    ensures Reissuing(t.request) && (Reissuing(t.next) || t.next.Finished?)
    ensures Reissuing(t.next) ==> t.next.packageId == packageId
    ensures if SinceRehash(t.next) == 0 then SinceRehash(t.request) == 0 && t.after == t.before
            else if SinceRehash(t.next) == 1 then
              SinceRehash(t.request) == 0 && Rehashes(c, t.before.tables, t.after.tables, packageId, NewCode(t.next))
            else
              && SinceRehash(t.next) == SinceRehash(t.request) + 1 && NewCode(t.next) == NewCode(t.request)
              && t.after.tables.assignments == t.before.tables.assignments
  {
    hide WorldOk, Rehashes, SetHash;
    if t.request.ReissueSaving? {
      RehashingTurn(c, t);
    }
  }

  lemma RehashingTurn(c: Config, t: Turn)
    requires RequestOk(c, t.before, t.request) && Took(c, t) && t.request.ReissueSaving?
    ensures if t.next.ReissueTouching? then
              t.next.packageId == t.request.packageId
              && Rehashes(c, t.before.tables, t.after.tables, t.request.packageId, NewCode(t.next))
            else t.next == Fail(PackageAlreadyRetrieved) && t.after == t.before
  {
    var id := t.request.pkg.assignment.value.id;
    RehashNext(c, t.before, t.request, t.answer);
    hide Next;
    assert StillOpen(t.before.tables, id) ==>
             t.after.tables == t.before.tables.(assignments := t.before.tables.assignments[id :=
               t.before.tables.assignments[id].(pickupCodeHash := c.hash(t.request.code, id))]);
  }

  lemma ReissueLastTurn(c: Config, p: Progress, packageId: Id)
    requires Performed(c, p) && p.log != [] && (Reissuing(p.Before().q) || p.Before().q.Finished?)
    requires Reissuing(p.Before().q) ==> p.Before().q.packageId == packageId
    ensures var t := p.Last();
            && Reissuing(t.request) && (Reissuing(p.q) || p.q.Finished?)
            && (Reissuing(p.q) ==> p.q.packageId == packageId)
            && if SinceRehash(p.q) == 0 then SinceRehash(t.request) == 0 && t.after == t.before
               else if SinceRehash(p.q) == 1 then
                 SinceRehash(t.request) == 0 && Rehashes(c, t.before.tables, t.after.tables, packageId, NewCode(p.q))
               else
                 && SinceRehash(p.q) == SinceRehash(t.request) + 1 && NewCode(p.q) == NewCode(t.request)
                 && t.after.tables.assignments == t.before.tables.assignments
  {
    hide Next, Evolves, WorldOk, Rehashes;
    BeforeLast(c, p);
    CallIsSafe(c, p.Before());
    ReissueTurn(c, p.Last(), packageId);
  }

  /** A re-issue that fails has changed nothing, its budget included; one that succeeds has in one
      turn given its parcel's open row the hash of the code returned, and changed no row besides. */
  lemma {:induction false} ReissueRehashesOnlyItsRow(c: Config, p: Progress)
    requires Performed(c, p) && p.first.ReissueChecking?
    ensures Reissuing(p.q) || p.q.Finished?
    ensures Reissuing(p.q) ==> p.q.packageId == p.first.packageId
    ensures if SinceRehash(p.q) == 0 then ChangedNothing(p.log)
            else
              var n := |p.log| - SinceRehash(p.q);
              && 0 <= n < |p.log|
              && Rehashes(c, p.log[n].before.tables, p.log[n].after.tables, p.first.packageId, NewCode(p.q))
              && forall i | 0 <= i < |p.log| && i != n ::
                   p.log[i].after.tables.assignments == p.log[i].before.tables.assignments
    decreases |p.log|
  {
    hide Next, Evolves, WorldOk, Rehashes;
    if p.log != [] {
      LastLeads(c, p);
      ReissueRehashesOnlyItsRow(c, p.Before());
      ReissueLastTurn(c, p, p.first.packageId);
      assert forall i | 0 <= i < |p.log| - 1 :: p.log[i] == p.Before().log[i];
    }
  }
}
