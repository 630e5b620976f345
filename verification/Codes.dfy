/** Which pickup codes open a door: over whole runs, only one some call has given out, and of
    those only the last. */
module Codes {
  import opened Common
  import opened Packages
  import opened Database
  import opened Protocol
  import opened Safety
  import opened Interleaving
  import opened Runs

  /** The code `q` has stored for row `id`, and returns or is about to return. */
  function CodeFor(q: Request, id: Id, packageId: Id): Option<string> {
    match q
    case Finished(StoreDone(_, a, _, _, code)) => if a == id then Some(code) else None
    case ReissueTouching(p, _, code) => if p == packageId then Some(code) else None
    case ReissueCounting(p, _, code) => if p == packageId then Some(code) else None
    case ReissueClearing(p, _, code) => if p == packageId then Some(code) else None
    case Finished(ReissueDone(p, _, code)) => if p == packageId then Some(code) else None
    case _ => None
  }

  ghost predicate GaveCode(c: Config, q: Request, id: Id, row: AssignmentRow) {
    var code := CodeFor(q, id, row.packageId);
    code.Some? && row.pickupCodeHash == c.hash(code.value, id)
  }

  ghost predicate SomeoneGaveCode(c: Config, requests: map<nat, Request>, id: Id, row: AssignmentRow) {
    exists rid :: rid in requests && GaveCode(c, requests[rid], id, row)
  }

  /** Every row answers to a code that a successful call has given out. */
  ghost predicate CodesGiven(c: Config, s: State) {
    forall id | id in s.world.tables.assignments :: SomeoneGaveCode(c, s.requests, id, s.world.tables.assignments[id])
  }

  lemma CodeForStays(c: Config, w: World, q: Request, a: Answer, id: Id, packageId: Id)
    requires CodeFor(q, id, packageId).Some? && RequestOk(c, w, q) && !q.Finished?
    ensures CodeFor(Next(c, w, q, a).1, id, packageId) == CodeFor(q, id, packageId)
  {
  }

  lemma RehashGivesCode(c: Config, w: World, q: Request, a: Answer, id: Id)
    requires RequestOk(c, w, q) && q.ReissueSaving? && q.pkg.assignment.value.id == id && StillOpen(w.tables, id)
    ensures var (w', q') := Next(c, w, q, a);
            id in w'.tables.assignments && GaveCode(c, q', id, w'.tables.assignments[id])
  {
  }

  /** An old row after a request's step: given its code by that request now, or still by another. */
  lemma OldRowStaysGiven(c: Config, s: State, rid: nat, a: Answer, id: Id)
    requires RequestsOk(c, s) && Enabled(c, s, Advance(rid, a)) && CodesGiven(c, s)
    requires id in s.world.tables.assignments && id in Step(c, s, Advance(rid, a)).world.tables.assignments
    requires Step(c, s, Advance(rid, a)).world.tables.assignments[id].packageId == s.world.tables.assignments[id].packageId
    ensures var s' := Step(c, s, Advance(rid, a));
            SomeoneGaveCode(c, s'.requests, id, s'.world.tables.assignments[id])
  {
    var q, s' := s.requests[rid], Step(c, s, Advance(rid, a));
    var row, row' := s.world.tables.assignments[id], s'.world.tables.assignments[id];
    HashesKept(c, s.world, q, a, id);
    if row'.pickupCodeHash != row.pickupCodeHash {
      RehashGivesCode(c, s.world, q, a, id);
      assert rid in s'.requests && GaveCode(c, s'.requests[rid], id, row');
    } else {
      assert SomeoneGaveCode(c, s.requests, id, row);
      var r :| r in s.requests && GaveCode(c, s.requests[r], id, row);
      if r == rid {
        CodeForStays(c, s.world, q, a, id, row.packageId);
      }
      hide Next;
      assert r in s'.requests && GaveCode(c, s'.requests[r], id, row');
    }
  }

  lemma NewRowIsGiven(c: Config, w: World, q: Request, a: Answer, id: Id)
    requires TablesOk(c.weight, w.tables) && RequestOk(c, w, q) && !q.Finished?
    requires id !in w.tables.assignments && id in Next(c, w, q, a).0.tables.assignments
    ensures GaveCode(c, Next(c, w, q, a).1, id, Next(c, w, q, a).0.tables.assignments[id])
  {
    StepCredits(c, w, q, a);
    InsertWrites(c, w, q, a);
  }

  lemma StepKeepsCodesGiven(c: Config, s: State, l: Label)
    requires Inv(c, s) && Enabled(c, s, l) && CodesGiven(c, s)
    ensures CodesGiven(c, Step(c, s, l))
  {
    hide Next, WorldOk, OneToOne, RequestOk;
    var s' := Step(c, s, l);
    StepIsSafe(c, s, l);
    if !l.Advance? && !l.Begin? {
      WorldStepKeepsRows(c, s, l);
    }
    forall id | id in s'.world.tables.assignments
      ensures SomeoneGaveCode(c, s'.requests, id, s'.world.tables.assignments[id])
    {
      if l.Advance? {
        if id in s.world.tables.assignments {
          assert RowEvolves(s.world.tables.assignments[id], s'.world.tables.assignments[id]);
          OldRowStaysGiven(c, s, l.rid, l.answer, id);
        } else {
          assert TablesOk(c.weight, s.world.tables) by { WorldMeansTables(c, s.world); }
          NewRowIsGiven(c, s.world, s.requests[l.rid], l.answer, id);
          assert l.rid in s'.requests;
        }
      } else {
        var row := s.world.tables.assignments[id];
        assert SomeoneGaveCode(c, s.requests, id, row);
        var r :| r in s.requests && GaveCode(c, s.requests[r], id, row);
        assert r in s'.requests && s'.requests[r] == s.requests[r];
      }
    }
  }

  lemma WorldMeansTables(c: Config, w: World)
    requires WorldOk(c, w)
    ensures TablesOk(c.weight, w.tables)
  {
  }

  /** In every reachable state each row answers to a code some successful call gave out. */
  lemma {:induction false} EveryHashIsOfAGivenCode(c: Config, s: State, ls: seq<Label>)
    requires Started(c, s) && Run(c, s, ls)
    ensures CodesGiven(c, Final(c, s, ls))
  {
    hide Next;
    if ls != [] {
      var n := |ls| - 1;
      EveryHashIsOfAGivenCode(c, s, ls[..n]);
      ReachableIsSafe(c, s, ls[..n]);
      StepKeepsCodesGiven(c, Final(c, s, ls[..n]), ls[n]);
    }
  }

  ghost predicate Injective(c: Config) {
    forall id, x, y | c.hash(x, id) == c.hash(y, id) :: x == y
  }

  /**
   * A retrieval gets past the comparison only with the code the row now answers to, one that
   * some store or re-issue has given out for it. Codes given out before that one no longer do.
   */
  lemma OnlyTheCurrentCodeOpens(c: Config, s: State, ls: seq<Label>, rid: nat, a: Answer)
    requires Started(c, s) && Run(c, s, ls) && Enabled(c, Final(c, s, ls), Advance(rid, a)) && Injective(c)
    requires var f := Final(c, s, ls); f.requests[rid].RetrieveLoading?
    ensures var f := Final(c, s, ls);
            var q, q' := f.requests[rid], Next(c, f.world, f.requests[rid], a).1;
            if !q'.RetrievePricing? then q' == Fail(NothingMatches) || q' == RetrieveFailing(q.door)
            else
              && q'.pkg.assignment.Some?
              && var id := q'.pkg.assignment.value.id;
                 && id in f.world.tables.assignments && f.world.tables.assignments[id].Active()
                 && f.world.tables.assignments[id].lockerId == q.door
                 && (exists r :: r in f.requests && CodeFor(f.requests[r], id, q'.pkg.id) == Some(q.code))
                 && forall other :: c.hash(other, id) == f.world.tables.assignments[id].pickupCodeHash ==> other == q.code
  {
    var f := Final(c, s, ls);
    var q, q' := f.requests[rid], Next(c, f.world, f.requests[rid], a).1;
    EveryHashIsOfAGivenCode(c, s, ls);
    ReachableIsSafe(c, s, ls);
    LoadedRow(c, f.world, Locked(f.requests), q, a);
    hide Next, Final, Step;
    if q'.RetrievePricing? {
      var id := q'.pkg.assignment.value.id;
      var row := f.world.tables.assignments[id];
      assert SomeoneGaveCode(c, f.requests, id, row);
      var r :| r in f.requests && GaveCode(c, f.requests[r], id, row);
      assert c.hash(CodeFor(f.requests[r], id, row.packageId).value, id) == c.hash(q.code, id);
      assert CodeFor(f.requests[r], id, q'.pkg.id) == Some(q.code);
    }
  }

  lemma LoadedRow(c: Config, w: World, locked: set<Id>, q: Request, a: Answer)
    requires WorldOk(c, w) && q.RetrieveLoading? && Answers(c, w, locked, q, a)
    ensures var q' := Next(c, w, q, a).1;
            if !q'.RetrievePricing? then q' == Fail(NothingMatches) || q' == RetrieveFailing(q.door)
            else
              && q'.pkg.assignment.Some?
              && var id := q'.pkg.assignment.value.id;
                 && id in w.tables.assignments && w.tables.assignments[id].Active()
                 && w.tables.assignments[id].lockerId == q.door && w.tables.assignments[id].packageId == q'.pkg.id
                 && w.tables.assignments[id].pickupCodeHash == c.hash(q.code, id)
  {
  }
}
