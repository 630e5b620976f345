/** The limiter bounds, carried over to the interleaved system: each counter key sees a run of
    `LimiterRuns`, whatever the requests are. */
module LimitsInForce {
  import opened Common
  import opened Database
  import opened AttemptCounter
  import opened Protocol
  import opened Interleaving
  import opened Runs
  import L = LimiterRuns

  function LimitOf(c: Config, key: Key): Limit {
    match key
    case Door(_) => c.doorLimit
    case Parcel(_) => c.reissueLimit
  }

  /** Let in by the check on `key`, and possibly still to record an event on it. */
  predicate InFlight(q: Request, key: Key) {
    match q
    case RetrieveFinding(door, _) => key == Door(door)
    case RetrieveLoading(door, _) => key == Door(door)
    case RetrieveFailing(door) => key == Door(door)
    case ReissueLoading(_, p) => key == Parcel(p)
    case ReissueFinding(p, _) => key == Parcel(p)
    case ReissueSaving(p, _, _) => key == Parcel(p)
    case ReissueTouching(p, _, _) => key == Parcel(p)
    case ReissueCounting(p, _, _) => key == Parcel(p)
    case _ => false
  }

  // ---- Counting requests ----

  function Those(requests: map<nat, Request>, p: Request -> bool): set<nat> {
    set rid | rid in requests && p(requests[rid])
  }

  lemma ThoseAfter(requests: map<nat, Request>, p: Request -> bool, rid: nat, q: Request)
    ensures |Those(requests[rid := q], p)|
         == |Those(requests, p)| - (if rid in requests && p(requests[rid]) then 1 else 0) + (if p(q) then 1 else 0)
  {
    var before, after := Those(requests, p), Those(requests[rid := q], p);
    assert after == if p(q) then before - {rid} + {rid} else before - {rid};
  }

  function FlyingTo(key: Key): Request -> bool {
    q => InFlight(q, key)
  }

  function Flying(s: State, key: Key): nat {
    |Those(s.requests, FlyingTo(key))|
  }

  function GateOf(s: State, key: Key): L.Gate {
    L.Gate(s.world.Slot(key), Flying(s, key), s.world.now)
  }

  // ---- What a step is to a key ----

  /** The step that runs COUNT_FAILURE on `key`. */
  predicate CountsOn(q: Request, key: Key) {
    match q
    case RetrieveFailing(door) => key == Door(door)
    case ReissueCounting(p, _, _) => key == Parcel(p)
    case _ => false
  }

  /** The step that deletes `key`: a pickup, or a re-issue for the parcel behind the door. */
  predicate Clears(q: Request, key: Key) {
    match q
    case RetrieveClearing(door, _) => key == Door(door)
    case ReissueClearing(_, pkg, _) => pkg.assignment.Some? && key == Door(pkg.assignment.value.lockerId)
    case _ => false
  }

  predicate Checks(q: Request, key: Key) {
    match q
    case RetrieveChecking(door, _) => key == Door(door)
    case ReissueChecking(_, p) => key == Parcel(p)
    case _ => false
  }

  ghost function KindOf(c: Config, s: State, l: Label, key: Key): L.Kind
    requires Enabled(c, s, l)
  {
    if !l.Advance? then L.Wait
    else
      var q := s.requests[l.rid];
      var q' := Next(c, s.world, q, l.answer).1;
      if Checks(q, key) && BlockLeft(LimitOf(c, key), s.world.Slot(key), s.world.now) > 0 then L.Reject
      else if CountsOn(q, key) then L.Record
      else if Clears(q, key) then L.Clear
      else if !InFlight(q, key) && InFlight(q', key) then L.Admit
      else if InFlight(q, key) && !InFlight(q', key) then L.Leave
      else L.Wait
  }

  ghost function EventOf(c: Config, s: State, l: Label, key: Key): L.Event
    requires Enabled(c, s, l)
  {
    L.Event(KindOf(c, s, l, key), Step(c, s, l).world.now)
  }

  /** The run as `key` sees it, one event a step. */
  ghost function Events(c: Config, s: State, ls: seq<Label>, key: Key): (es: seq<L.Event>)
    requires Run(c, s, ls)
    ensures |es| == |ls|
  {
    if ls == [] then []
    else var n := |ls| - 1; Events(c, s, ls[..n], key) + [EventOf(c, Final(c, s, ls[..n]), ls[n], key)]
  }

  /** At no moment are more than `k` calls let in on `key` and not yet done with it. */
  ghost predicate AtMost(c: Config, s: State, ls: seq<Label>, key: Key, k: int)
    requires Run(c, s, ls)
  {
    Flying(Final(c, s, ls), key) <= k && (ls == [] || AtMost(c, s, ls[..|ls| - 1], key, k))
  }

  predicate ValidLimits(c: Config) {
    c.doorLimit.Valid() && c.reissueLimit.Valid()
  }

  lemma AdvanceTouches(c: Config, w: World, q: Request, a: Answer, key: Key)
    requires ValidLimits(c) && !q.Finished? && RequestOk(c, w, q)
    ensures var w' := Next(c, w, q, a).0;
            && w'.now == w.now
            && w'.Slot(key) == (if CountsOn(q, key) then Counted(LimitOf(c, key), w.Slot(key), w.now)
                                else if Clears(q, key) then None else w.Slot(key))
  {
  }

  lemma AdvanceFlies(c: Config, w: World, q: Request, a: Answer, key: Key)
    requires !q.Finished?
    ensures var q' := Next(c, w, q, a).1;
            && (CountsOn(q, key) ==> InFlight(q, key) && !InFlight(q', key))
            && (Clears(q, key) || Checks(q, key) ==> !InFlight(q, key))
            && (Clears(q, key) ==> !InFlight(q', key))
            && (Checks(q, key) && BlockLeft(LimitOf(c, key), w.Slot(key), w.now) > 0 ==> !InFlight(q', key))
            && (!InFlight(q, key) && InFlight(q', key) ==> BlockLeft(LimitOf(c, key), w.Slot(key), w.now) == 0)
  {
  }

  lemma StepIsAnEvent(c: Config, s: State, l: Label, key: Key)
    requires ValidLimits(c) && Enabled(c, s, l) && RequestsOk(c, s)
    ensures var g, e := GateOf(s, key), EventOf(c, s, l, key);
            L.Allowed(LimitOf(c, key), g, e) && L.Step(LimitOf(c, key), g, e) == GateOf(Step(c, s, l), key)
  {
    hide Next, RequestOk, Counted;
    if l.Advance? {
      var q := s.requests[l.rid];
      AdvanceTouches(c, s.world, q, l.answer, key);
      AdvanceFlies(c, s.world, q, l.answer, key);
      ThoseAfter(s.requests, FlyingTo(key), l.rid, Next(c, s.world, q, l.answer).1);
      if InFlight(q, key) {
        assert l.rid in Those(s.requests, FlyingTo(key));
      }
    } else if l.Begin? {
      ThoseAfter(s.requests, FlyingTo(key), l.rid, l.request);
    }
  }

  /** Each counter sees a run from an unused key. */
  lemma {:induction false} KeySeesARun(c: Config, s: State, ls: seq<Label>, key: Key, k: int)
    requires ValidLimits(c) && Started(c, s) && Run(c, s, ls) && AtMost(c, s, ls, key, k)
    ensures L.Run(LimitOf(c, key), k, s.world.now, Events(c, s, ls, key))
    ensures L.Final(LimitOf(c, key), k, s.world.now, Events(c, s, ls, key)) == GateOf(Final(c, s, ls), key)
  {
    if ls == [] {
      assert Those(s.requests, FlyingTo(key)) == {};
    } else {
      var n := |ls| - 1;
      KeySeesARun(c, s, ls[..n], key, k);
      ReachableIsSafe(c, s, ls[..n]);
      StepIsAnEvent(c, Final(c, s, ls[..n]), ls[n], key);
      var es := Events(c, s, ls, key);
      assert es[..n] == Events(c, s, ls[..n], key);
    }
  }

  // ---- Doors ----

  /** Advancing `l` at `s` compares a code with the parcel behind `door`, and finds it wrong. */
  ghost predicate ComparesWrong(c: Config, s: State, l: Label, door: Id)
    requires Enabled(c, s, l)
  {
    l.Advance? && s.requests[l.rid].RetrieveLoading? && s.requests[l.rid].door == door
    && Next(c, s.world, s.requests[l.rid], l.answer).1.RetrieveFailing?
  }

  /** Wrong codes compared at `door` in the steps `more` that follow `before`. */
  ghost function WrongCodes(c: Config, s: State, before: seq<Label>, more: seq<Label>, door: Id): nat
    requires Run(c, s, before + more)
    decreases |more|
  {
    if more == [] then 0
    else
      var n := |more| - 1;
      var ls := before + more;
      assert ls[..|ls| - 1] == before + more[..n] && ls[|ls| - 1] == more[n];
      WrongCodes(c, s, before, more[..n], door) + if ComparesWrong(c, Final(c, s, before + more[..n]), more[n], door) then 1 else 0
  }

  function FailingAt(door: Id): Request -> bool {
    q => q == RetrieveFailing(door)
  }

  function AboutToCount(s: State, door: Id): nat {
    |Those(s.requests, FailingAt(door))|
  }

  lemma AboutToCountIsFlying(s: State, door: Id)
    ensures AboutToCount(s, door) <= Flying(s, Door(door))
  {
    var some, all := Those(s.requests, FailingAt(door)), Those(s.requests, FlyingTo(Door(door)));
    assert some <= all;
    assert |some| + |all - some| == |all|;
  }

  lemma FailingMeansCompared(c: Config, w: World, q: Request, a: Answer, door: Id)
    requires !q.Finished?
    ensures var q' := Next(c, w, q, a).1;
            && (q' == RetrieveFailing(door) <==> q.RetrieveLoading? && q.door == door && q'.RetrieveFailing?)
            && (CountsOn(q, Door(door)) <==> q == RetrieveFailing(door))
            && (Checks(q, Door(door)) ==> q != RetrieveFailing(door))
  {
  }

  lemma OneMoreWrong(c: Config, s: State, l: Label, door: Id)
    requires Enabled(c, s, l)
    ensures AboutToCount(Step(c, s, l), door) + (if KindOf(c, s, l, Door(door)).Record? then 1 else 0)
         == AboutToCount(s, door) + (if ComparesWrong(c, s, l, door) then 1 else 0)
  {
    if l.Advance? {
      var q := s.requests[l.rid];
      FailingMeansCompared(c, s.world, q, l.answer, door);
      ThoseAfter(s.requests, FailingAt(door), l.rid, Next(c, s.world, q, l.answer).1);
    } else if l.Begin? {
      ThoseAfter(s.requests, FailingAt(door), l.rid, l.request);
    }
  }

  lemma EventsSplit(c: Config, s: State, before: seq<Label>, more: seq<Label>, key: Key)
    requires Run(c, s, before + more)
    ensures Run(c, s, before) && Events(c, s, before + more, key)[..|before|] == Events(c, s, before, key)
    decreases |more|
  {
    if more == [] {
      assert before + more == before;
    } else {
      var n := |more| - 1;
      var ls := before + more;
      assert ls[..|ls| - 1] == before + more[..n];
      EventsSplit(c, s, before, more[..n], key);
    }
  }

  /** What `key` sees of the steps `more` after `before`. */
  ghost function EventsSince(c: Config, s: State, before: seq<Label>, more: seq<Label>, key: Key): (es: seq<L.Event>)
    requires Run(c, s, before + more)
    ensures |es| == |more|
  {
    Events(c, s, before + more, key)[|before|..]
  }

  lemma LastStep(c: Config, s: State, before: seq<Label>, more: seq<Label>)
    requires more != [] && Run(c, s, before + more)
    ensures var n := |more| - 1;
            && (before + more)[..|before + more| - 1] == before + more[..n]
            && Run(c, s, before + more[..n]) && Enabled(c, Final(c, s, before + more[..n]), more[n])
            && Final(c, s, before + more) == Step(c, Final(c, s, before + more[..n]), more[n])
  {
  }

  lemma LastEvent(c: Config, s: State, before: seq<Label>, more: seq<Label>, key: Key)
    requires more != [] && Run(c, s, before + more)
    requires var n := |more| - 1;
             && (before + more)[..|before + more| - 1] == before + more[..n]
             && Run(c, s, before + more[..n]) && Enabled(c, Final(c, s, before + more[..n]), more[n])
    ensures var n := |more| - 1;
            EventsSince(c, s, before, more, key)
            == EventsSince(c, s, before, more[..n], key) + [EventOf(c, Final(c, s, before + more[..n]), more[n], key)]
  {
  }

  /** Each wrong code compared has been counted, or is about to be. */
  lemma {:induction false} WrongCodesAreCounted(c: Config, s: State, before: seq<Label>, more: seq<Label>, door: Id)
    requires Run(c, s, before + more) && Run(c, s, before)
    ensures WrongCodes(c, s, before, more, door) + AboutToCount(Final(c, s, before), door)
         == L.Records(EventsSince(c, s, before, more, Door(door))) + AboutToCount(Final(c, s, before + more), door)
    decreases |more|
  {
    if more == [] {
      assert before + more == before;
    } else {
      var n := |more| - 1;
      LastStep(c, s, before, more);
      LastEvent(c, s, before, more, Door(door));
      WrongCodesAreCounted(c, s, before, more[..n], door);
      OneMoreWrong(c, Final(c, s, before + more[..n]), more[n], door);
    }
  }

  lemma SplitRun(c: Config, s: State, before: seq<Label>, more: seq<Label>, key: Key, k: int)
    requires ValidLimits(c) && Started(c, s) && Run(c, s, before + more) && AtMost(c, s, before + more, key, k)
    ensures Run(c, s, before)
    ensures var earlier, since := Events(c, s, before, key), EventsSince(c, s, before, more, key);
            && L.Run(LimitOf(c, key), k, s.world.now, earlier)
            && L.Final(LimitOf(c, key), k, s.world.now, earlier) == GateOf(Final(c, s, before), key)
            && L.Run(LimitOf(c, key), k, s.world.now, earlier + since)
            && L.Final(LimitOf(c, key), k, s.world.now, earlier + since) == GateOf(Final(c, s, before + more), key)
  {
    hide Next, Step, AtMost, Started;
    EventsSplit(c, s, before, more, key);
    AtMostEarlier(c, s, before, more, key, k);
    KeySeesARun(c, s, before + more, key, k);
    KeySeesARun(c, s, before, key, k);
    assert Events(c, s, before + more, key) == Events(c, s, before, key) + EventsSince(c, s, before, more, key);
  }

  lemma RecordsSinceAreBounded(c: Config, s: State, before: seq<Label>, more: seq<Label>, key: Key, k: int)
    requires ValidLimits(c) && 1 <= k && Started(c, s) && Run(c, s, before + more)
    requires AtMost(c, s, before + more, key, k)
    ensures Run(c, s, before)
    ensures var lim, es := LimitOf(c, key), EventsSince(c, s, before, more, key);
            var from, end := Final(c, s, before).world.now, Final(c, s, before + more).world.now;
            L.Records(es) + Flying(Final(c, s, before + more), key)
            <= L.Most(lim, k) * (L.Windows(lim, from, end) + 1 + L.Clears(es))
  {
    hide Next, Step, AtMost, Started, Final;
    SplitRun(c, s, before, more, key, k);
    L.RunRecordsAtMost(LimitOf(c, key), k, s.world.now, Events(c, s, before, key), EventsSince(c, s, before, more, key));
  }

  /**
   * In any stretch of any run, at most `cap + k - 1` wrong codes are ever compared at a door for
   * each lockout period started and each time its counter is cleared, when never more than `k`
   * attempts at it are under way at once; for one at a time, that is the cap itself.
   */
  lemma WrongCodesAreBounded(c: Config, s: State, before: seq<Label>, more: seq<Label>, door: Id, k: int)
    requires ValidLimits(c) && 1 <= k && Started(c, s) && Run(c, s, before + more)
    requires AtMost(c, s, before + more, Door(door), k)
    ensures Run(c, s, before)
    ensures var lasted := Final(c, s, before + more).world.now - Final(c, s, before).world.now;
            WrongCodes(c, s, before, more, door)
            <= (c.doorLimit.cap + k - 1)
               * (lasted / c.doorLimit.window + 1 + L.Clears(EventsSince(c, s, before, more, Door(door))))
  {
    hide Next, Step, Final;
    RecordsSinceAreBounded(c, s, before, more, Door(door), k);
    WrongCodesAreCounted(c, s, before, more, door);
    AboutToCountIsFlying(Final(c, s, before + more), door);
  }

  lemma AtMostEarlier(c: Config, s: State, before: seq<Label>, more: seq<Label>, key: Key, k: int)
    requires Run(c, s, before + more) && AtMost(c, s, before + more, key, k)
    ensures Run(c, s, before) && AtMost(c, s, before, key, k)
    decreases |more|
  {
    if more == [] {
      assert before + more == before;
    } else {
      var n := |more| - 1;
      var ls := before + more;
      assert ls[..|ls| - 1] == before + more[..n];
      AtMostEarlier(c, s, before, more[..n], key, k);
    }
  }

  /** A door's counter stays within `cap + k - 1`, in a store that drops keys on time. */
  lemma DoorCountIsBounded(c: Config, s: State, ls: seq<Label>, door: Id, k: int)
    requires ValidLimits(c) && 1 <= k && Started(c, s) && Run(c, s, ls) && AtMost(c, s, ls, Door(door), k)
    requires !c.doorLimit.lingers
    ensures var slot := Final(c, s, ls).world.Slot(Door(door));
            slot.Some? ==> slot.value.count <= c.doorLimit.cap + k - 1
  {
    KeySeesARun(c, s, ls, Door(door), k);
    L.CountBoundedExactlyWhenKeysDoNotLinger(c.doorLimit, k);
  }

  /** And whatever the store does, no door or parcel is blocked for longer than one window. */
  lemma {:induction false} NobodyIsLockedOutForGood(c: Config, s: State, ls: seq<Label>, key: Key, k: int)
    requires ValidLimits(c) && 1 <= k && Started(c, s) && Run(c, s, ls) && AtMost(c, s, ls, key, k)
    ensures var w := Final(c, s, ls).world;
            w.Slot(key).Some? ==>
              w.Slot(key).value.expiresAt.Some?
              && w.Slot(key).value.expiresAt.value <= w.now + LimitOf(c, key).window
              && BlockLeft(LimitOf(c, key), w.Slot(key), w.Slot(key).value.expiresAt.value) == 0
  {
    KeySeesARun(c, s, ls, key, k);
    L.NoBlockIsPermanent(LimitOf(c, key), k, s.world.now, Events(c, s, ls, key));
  }

  // ---- Parcels ----

  lemma {:induction false} ParcelsAreNeverCleared(c: Config, s: State, ls: seq<Label>, p: Id)
    requires Run(c, s, ls)
    ensures forall i | 0 <= i < |ls| :: !Events(c, s, ls, Parcel(p))[i].kind.Clear?
  {
    if ls != [] {
      ParcelsAreNeverCleared(c, s, ls[..|ls| - 1], p);
    }
  }

  lemma {:induction false} NoClears(es: seq<L.Event>)
    requires forall i | 0 <= i < |es| :: !es[i].kind.Clear?
    ensures L.Clears(es) == 0
  {
    if es != [] {
      NoClears(es[..|es| - 1]);
    }
  }

  /**
   * The re-issue budget is only ever spent: in any half-open window, whatever else happens, at
   * most `cap + k - 1` codes are counted against a parcel with at most `k` re-issues under way at
   * once; for one at a time, the cap itself.
   */
  lemma ReissuesInAWindow(c: Config, s: State, ls: seq<Label>, i: nat, j: nat, from: int, p: Id, k: int)
    requires ValidLimits(c) && 1 <= k && Started(c, s) && Run(c, s, ls) && AtMost(c, s, ls, Parcel(p), k)
    requires i <= j <= |ls| && L.InWindow(c.reissueLimit, from, Events(c, s, ls, Parcel(p))[i..j])
    ensures L.Records(Events(c, s, ls, Parcel(p))[i..j]) <= c.reissueLimit.cap + k - 1
  {
    var es := Events(c, s, ls, Parcel(p));
    KeySeesARun(c, s, ls, Parcel(p), k);
    ParcelsAreNeverCleared(c, s, ls, p);
    NoClears(es[i..j]);
    assert es == es[..i] + es[i..j] + es[j..];
    L.WindowHoldsAtMostTheCap(c.reissueLimit, k, s.world.now, from, es[..i], es[i..j], es[j..]);
  }
}
