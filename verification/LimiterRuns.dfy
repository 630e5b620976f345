/** Quantitative bounds on whole runs against one counter key. */
module LimiterRuns {
  import opened Common
  import opened AttemptCounter

  /**
   * What calls do to a key: a check lets one in or turns it away; one that was let in either
   * records an event or leaves without; anyone may delete the key; or time just passes.
   */
  datatype Kind = Admit | Reject | Record | Leave | Clear | Wait

  datatype Event = Event(kind: Kind, at: int)

  /** The key, how many calls have been let in and may still record, and the latest instant seen. */
  datatype Gate = Gate(slot: Option<Entry>, inFlight: nat, now: int)

  predicate Allowed(lim: Limit, g: Gate, e: Event) {
    && g.now <= e.at
    && match e.kind
       case Admit => BlockLeft(lim, g.slot, e.at) == 0
       case Reject => BlockLeft(lim, g.slot, e.at) > 0
       case Record => 0 < g.inFlight
       case Leave => 0 < g.inFlight
       case Clear => true
       case Wait => true
  }

  function Step(lim: Limit, g: Gate, e: Event): Gate
    requires Allowed(lim, g, e)
  {
    match e.kind
    case Admit => Gate(g.slot, g.inFlight + 1, e.at)
    case Reject => Gate(g.slot, g.inFlight, e.at)
    case Record => Gate(Counted(lim, g.slot, e.at), g.inFlight - 1, e.at)
    case Leave => Gate(g.slot, g.inFlight - 1, e.at)
    case Clear => Gate(None, g.inFlight, e.at)
    case Wait => Gate(g.slot, g.inFlight, e.at)
  }

  /** A run from an unused key at `start`, with at most `k` calls let in at any moment. */
  predicate Run(lim: Limit, k: int, start: int, es: seq<Event>)
    decreases |es|, 0
  {
    es == [] || var n := |es| - 1;
                && Run(lim, k, start, es[..n])
                && Allowed(lim, Final(lim, k, start, es[..n]), es[n])
                && Step(lim, Final(lim, k, start, es[..n]), es[n]).inFlight <= k
  }

  function Final(lim: Limit, k: int, start: int, es: seq<Event>): Gate
    requires Run(lim, k, start, es)
    decreases |es|, 1
  {
    if es == [] then Gate(None, 0, start)
    else var n := |es| - 1; Step(lim, Final(lim, k, start, es[..n]), es[n])
  }

  function Records(es: seq<Event>): nat {
    if es == [] then 0 else Records(es[..|es| - 1]) + if es[|es| - 1].kind.Record? then 1 else 0
  }

  function Clears(es: seq<Event>): nat {
    if es == [] then 0 else Clears(es[..|es| - 1]) + if es[|es| - 1].kind.Clear? then 1 else 0
  }

  // ---- The history a key's state reflects ----

  /** When the last event since the key was last cleared was recorded. */
  function LastRecord(es: seq<Event>): Option<int> {
    if es == [] then None
    else
      var e := es[|es| - 1];
      match e.kind
      case Record => Some(e.at)
      case Clear => None
      case _ => LastRecord(es[..|es| - 1])
  }

  /** Events recorded each less than a window after the one before, up to the latest. */
  function Streak(lim: Limit, es: seq<Event>): nat {
    if es == [] then 0
    else
      var before, e := es[..|es| - 1], es[|es| - 1];
      match e.kind
      case Record =>
        var last := LastRecord(before);
        if last.Some? && e.at < last.value + lim.window then Streak(lim, before) + 1 else 1
      case Clear => 0
      case _ => Streak(lim, before)
  }

  /** The most one streak can hold when `k` calls may be let in at once. */
  function Most(lim: Limit, k: int): int {
    lim.cap + k - 1
  }

  ghost predicate Reflects(lim: Limit, k: int, g: Gate, es: seq<Event>) {
    match LastRecord(es)
    case None => g.slot == None && Streak(lim, es) == 0
    case Some(last) =>
      && g.slot.Some? && g.slot.value.expiresAt == Some(last + lim.window)
      && last <= g.now
      && 1 <= Streak(lim, es) <= g.slot.value.count
      && Streak(lim, es) <= Most(lim, k)
      && (!lim.lingers ==> Streak(lim, es) == g.slot.value.count)
      && (g.now < last + lim.window ==> Streak(lim, es) + g.inFlight <= Most(lim, k))
  }

  lemma {:induction false} RunReflects(lim: Limit, k: int, start: int, es: seq<Event>)
    requires lim.Valid() && 1 <= k && Run(lim, k, start, es)
    ensures var g := Final(lim, k, start, es);
            Reflects(lim, k, g, es) && g.inFlight <= k && start <= g.now
  {
    if es != [] {
      RunReflects(lim, k, start, es[..|es| - 1]);
    }
  }

  /**
   * What a check answers, for as long as nothing more is recorded: once the count has reached
   * the cap, blocked until exactly one window after the last recorded event. Checks that are
   * turned away are no part of it, so they never prolong the block.
   */
  lemma BlockLiftsOneWindowAfterTheLastEvent(lim: Limit, k: int, start: int, es: seq<Event>, t: int)
    requires lim.Valid() && 1 <= k && Run(lim, k, start, es) && Final(lim, k, start, es).now <= t
    ensures var slot := Final(lim, k, start, es).slot;
            BlockLeft(lim, slot, t)
            == match LastRecord(es)
               case None => 0
               case Some(last) =>
                 if t < last + lim.window && slot.Some? && lim.cap <= slot.value.count then last + lim.window - t else 0
    ensures LastRecord(es).Some? ==> Final(lim, k, start, es).slot.Some?
    ensures LastRecord(es).Some? && !lim.lingers ==>
              Final(lim, k, start, es).slot.value.count == Streak(lim, es)
  {
    RunReflects(lim, k, start, es);
  }

  lemma {:induction false} PrefixRuns(lim: Limit, k: int, start: int, es: seq<Event>, more: seq<Event>)
    requires Run(lim, k, start, es + more)
    ensures Run(lim, k, start, es)
    ensures Final(lim, k, start, es).now <= Final(lim, k, start, es + more).now
  {
    if more == [] {
      assert es + more == es;
    } else {
      var n := |more| - 1;
      assert (es + more)[..|es + more| - 1] == es + more[..n];
      PrefixRuns(lim, k, start, es, more[..n]);
    }
  }

  // ---- Any one window ----

  ghost predicate InWindow(lim: Limit, from: int, es: seq<Event>) {
    forall i | 0 <= i < |es| :: from <= es[i].at < from + lim.window
  }

  lemma {:induction false} WindowIsOneStreak(lim: Limit, from: int, before: seq<Event>, window: seq<Event>)
    requires lim.Valid() && InWindow(lim, from, window) && Clears(window) == 0
    ensures Records(window) <= Streak(lim, before + window)
    ensures Records(window) > 0 ==> LastRecord(before + window).Some? && from <= LastRecord(before + window).value
  {
    if window != [] {
      var n := |window| - 1;
      assert (before + window)[..|before + window| - 1] == before + window[..n];
      WindowIsOneStreak(lim, from, before, window[..n]);
    }
  }

  /** In any half-open window free of clears, at most `cap` events, plus one for each further
      call that may be let in at the same time. With calls that do not overlap, at most `cap`. */
  lemma WindowHoldsAtMostTheCap(lim: Limit, k: int, start: int, from: int,
                                before: seq<Event>, window: seq<Event>, after: seq<Event>)
    requires lim.Valid() && 1 <= k && Run(lim, k, start, before + window + after)
    requires InWindow(lim, from, window) && Clears(window) == 0
    ensures Records(window) <= Most(lim, k)
  {
    PrefixRuns(lim, k, start, before + window, after);
    RunReflects(lim, k, start, before + window);
    WindowIsOneStreak(lim, from, before, window);
  }

  // ---- Any run ----

  /** Whole windows that fit between two instants. */
  function Windows(lim: Limit, from: int, to: int): int
    requires lim.Valid()
  {
    (to - from) / lim.window
  }

  lemma WindowsGrow(lim: Limit, from: int, a: int, b: int)
    requires lim.Valid() && a <= b
    ensures Windows(lim, from, a) <= Windows(lim, from, b)
    ensures a + lim.window <= b ==> Windows(lim, from, a) + 1 <= Windows(lim, from, b)
    ensures from <= a ==> 0 <= Windows(lim, from, a)
  {
    DivGrows(a - from, b - from, lim.window);
    if a + lim.window <= b {
      DivGrows(a - from + lim.window, b - from, lim.window);
      DivShift(a - from, lim.window);
    }
    if from <= a {
      DivGrows(0, a - from, lim.window);
    }
  }

  lemma DivShift(x: int, m: int)
    requires m >= 1
    ensures (x + m) / m == x / m + 1
  {
    assert (x / m + 1) * m == (x / m) * m + m;
    QuotientIs(x + m, m, x / m + 1);
  }

  lemma QuotientIs(x: int, m: int, q: int)
    requires m >= 1 && q * m <= x < q * m + m
    ensures x / m == q
  {
    var d := x / m - q;
    assert d * m == (x / m) * m - q * m;
    assert -m < d * m < m;
    if d >= 1 {
      MoreRoom(m, 1, d);
    } else if d <= -1 {
      MoreRoom(m, d, -1);
    }
  }

  lemma DivGrows(x: int, y: int, m: int)
    requires m >= 1 && x <= y
    ensures x / m <= y / m
  {
    if x / m >= y / m + 1 {
      MoreRoom(m, y / m + 1, x / m);
    }
  }

  lemma MoreRoom(most: int, a: int, b: int)
    requires 0 <= most && a <= b
    ensures most * a <= most * b
  {
  }

  /** The running account: each started window, and each clear, lets in one more streak. */
  ghost predicate Accounted(lim: Limit, k: int, from: int, n: int, clears: int, now: int, last: Option<int>, streak: int)
    requires lim.Valid()
  {
    n == 0 ||
    match last
    case None => n <= Most(lim, k) * (Windows(lim, from, now) + clears)
    case Some(l) => from <= l <= now && n <= Most(lim, k) * (Windows(lim, from, l) + clears) + streak
  }

  lemma {:induction false} RunIsAccounted(lim: Limit, k: int, start: int, before: seq<Event>, es: seq<Event>)
    requires lim.Valid() && 1 <= k && Run(lim, k, start, before + es)
    ensures Run(lim, k, start, before)
    ensures var from, now := Final(lim, k, start, before).now, Final(lim, k, start, before + es).now;
            from <= now && Accounted(lim, k, from, Records(es), Clears(es), now,
                                     LastRecord(before + es), Streak(lim, before + es))
  {
    PrefixRuns(lim, k, start, before, es);
    if es != [] {
      var n := |es| - 1;
      assert (before + es)[..|before + es| - 1] == before + es[..n];
      RunIsAccounted(lim, k, start, before, es[..n]);
      RunReflects(lim, k, start, before + es[..n]);
      var from, g := Final(lim, k, start, before).now, Final(lim, k, start, before + es[..n]);
      AccountOneMore(lim, k, from, g.now, es[n], Records(es[..n]), Clears(es[..n]),
                     LastRecord(before + es[..n]), Streak(lim, before + es[..n]));
    }
  }

  lemma AccountOneMore(lim: Limit, k: int, from: int, now: int, e: Event, n: nat, clears: nat, last: Option<int>, streak: nat)
    requires lim.Valid() && 1 <= k && from <= now <= e.at && streak <= Most(lim, k)
    requires last.Some? ==> last.value <= now
    requires last.None? ==> streak == 0
    requires Accounted(lim, k, from, n, clears, now, last, streak)
    ensures match e.kind
            case Record =>
              Accounted(lim, k, from, n + 1, clears, e.at, Some(e.at),
                        if last.Some? && e.at < last.value + lim.window then streak + 1 else 1)
            case Clear => Accounted(lim, k, from, n, clears + 1, e.at, None, 0)
            case _ => Accounted(lim, k, from, n, clears, e.at, last, streak)
  {
    var most := Most(lim, k);
    WindowsGrow(lim, from, now, e.at);
    MoreRoom(most, Windows(lim, from, now) + clears, Windows(lim, from, e.at) + clears);
    MoreRoom(most, 0, Windows(lim, from, e.at) + clears);
    if n > 0 && last.Some? {
      WindowsGrow(lim, from, last.value, e.at);
      MoreRoom(most, Windows(lim, from, last.value) + clears, Windows(lim, from, e.at) + clears);
      if last.value + lim.window <= e.at {
        MoreRoom(most, Windows(lim, from, last.value) + clears + 1, Windows(lim, from, e.at) + clears);
      }
    }
    assert most * (Windows(lim, from, e.at) + clears + 1) == most * (Windows(lim, from, e.at) + clears) + most;
    if n > 0 && last.Some? {
      assert most * (Windows(lim, from, last.value) + clears + 1) == most * (Windows(lim, from, last.value) + clears) + most;
    }
  }

  /**
   * However long a run goes on: the events recorded in it, and those calls still let in at its
   * end may record, come to at most `cap + k - 1` for each window started and each clear.
   */
  lemma RunRecordsAtMost(lim: Limit, k: int, start: int, before: seq<Event>, es: seq<Event>)
    requires lim.Valid() && 1 <= k && Run(lim, k, start, before + es)
    ensures Run(lim, k, start, before)
    ensures var from, end := Final(lim, k, start, before).now, Final(lim, k, start, before + es);
            Records(es) + end.inFlight <= Most(lim, k) * (Windows(lim, from, end.now) + 1 + Clears(es))
  {
    RunIsAccounted(lim, k, start, before, es);
    RunReflects(lim, k, start, before + es);
    var from, end := Final(lim, k, start, before).now, Final(lim, k, start, before + es);
    var most, clears, last := Most(lim, k), Clears(es), LastRecord(before + es);
    WindowsGrow(lim, from, from, end.now);
    MoreRoom(most, 0, Windows(lim, from, end.now) + clears);
    assert most * (Windows(lim, from, end.now) + 1 + clears) == most * (Windows(lim, from, end.now) + clears) + most;
    if Records(es) > 0 && last.Some? {
      WindowsGrow(lim, from, last.value, end.now);
      MoreRoom(most, Windows(lim, from, last.value) + clears, Windows(lim, from, end.now) + clears);
      if last.value + lim.window <= end.now {
        MoreRoom(most, Windows(lim, from, last.value) + clears + 1, Windows(lim, from, end.now) + clears);
        assert most * (Windows(lim, from, last.value) + clears + 1) == most * (Windows(lim, from, last.value) + clears) + most;
      }
    }
  }

  // ---- The counter itself ----

  /** A counter that is not zero always has an expiry, so no block is for ever. */
  lemma {:induction false} NoBlockIsPermanent(lim: Limit, k: int, start: int, es: seq<Event>)
    requires lim.Valid() && 1 <= k && Run(lim, k, start, es)
    ensures var g := Final(lim, k, start, es);
            g.slot.Some? ==> g.slot.value.expiresAt.Some?
                             && g.slot.value.expiresAt.value <= g.now + lim.window
                             && BlockLeft(lim, g.slot, g.slot.value.expiresAt.value) == 0
  {
    RunReflects(lim, k, start, es);
  }

  ghost predicate CountStaysWithin(lim: Limit, k: int, bound: int) {
    forall start, es :: Run(lim, k, start, es) && Final(lim, k, start, es).slot.Some? ==>
                          Final(lim, k, start, es).slot.value.count <= bound
  }

  /** One call that is let in and records, all at `t`. */
  function Attempt(t: int): seq<Event> {
    [Event(Admit, t), Event(Record, t)]
  }

  function LiftsAt(lim: Limit, n: nat): int {
    if n <= lim.cap then 0 else (n - lim.cap) * lim.window
  }

  lemma LiftsNext(lim: Limit, n: nat)
    requires lim.Valid()
    ensures LiftsAt(lim, n + 1) == if n < lim.cap then 0 else LiftsAt(lim, n) + lim.window
  {
  }

  /** One call after another: `cap` at instant 0, then one at each instant the block lifts. */
  function AtTheLastInstant(lim: Limit, n: nat): seq<Event> {
    if n == 0 then []
    else AtTheLastInstant(lim, n - 1) + Attempt(LiftsAt(lim, n))
  }

  lemma OneMore(lim: Limit, k: int, start: int, es: seq<Event>, e: Event)
    requires Run(lim, k, start, es) && Allowed(lim, Final(lim, k, start, es), e)
    requires Step(lim, Final(lim, k, start, es), e).inFlight <= k
    ensures Run(lim, k, start, es + [e])
    ensures Final(lim, k, start, es + [e]) == Step(lim, Final(lim, k, start, es), e)
  {
  }

  lemma AttemptRuns(lim: Limit, k: int, es: seq<Event>, t: int)
    requires lim.Valid() && 1 <= k && Run(lim, k, 0, es)
    requires var g := Final(lim, k, 0, es); g.inFlight == 0 && g.now <= t && BlockLeft(lim, g.slot, t) == 0
    ensures Run(lim, k, 0, es + Attempt(t))
    ensures Final(lim, k, 0, es + Attempt(t)) == Gate(Counted(lim, Final(lim, k, 0, es).slot, t), 0, t)
  {
    OneMore(lim, k, 0, es, Event(Admit, t));
    OneMore(lim, k, 0, es + [Event(Admit, t)], Event(Record, t));
    assert es + Attempt(t) == es + [Event(Admit, t)] + [Event(Record, t)];
  }

  lemma {:induction false} LastInstantCounts(lim: Limit, k: int, n: nat)
    requires lim.Valid() && lim.lingers && 1 <= k
    ensures var es := AtTheLastInstant(lim, n);
            && Run(lim, k, 0, es)
            && Final(lim, k, 0, es).inFlight == 0
            && Final(lim, k, 0, es).now == LiftsAt(lim, n)
            && (n > 0 ==> Final(lim, k, 0, es).slot == Some(Entry(n, Some(Final(lim, k, 0, es).now + lim.window))))
            && (n == 0 ==> Final(lim, k, 0, es).slot == None)
  {
    if n > 0 {
      LastInstantCounts(lim, k, n - 1);
      var t := LiftsAt(lim, n);
      LiftsNext(lim, n - 1);
      var g := Final(lim, k, 0, AtTheLastInstant(lim, n - 1));
      assert CountOf(true, g.slot, t) == n - 1;
      AttemptRuns(lim, k, AtTheLastInstant(lim, n - 1), t);
    }
  }

  /**
   * The bound `cap + k - 1` on the counter is one for stores that drop a key at the very instant
   * it expires, and only for those: a store that keeps it for that instant answers a time to
   * live of 0, `READ_BLOCK` lets the caller in, and the old count goes on growing.
   */
  lemma CountBoundedExactlyWhenKeysDoNotLinger(lim: Limit, k: int)
    requires lim.Valid() && 1 <= k
    ensures CountStaysWithin(lim, k, Most(lim, k)) <==> !lim.lingers
  {
    if lim.lingers {
      var n: nat := Most(lim, k) + 1;
      LastInstantCounts(lim, k, n);
      assert Run(lim, k, 0, AtTheLastInstant(lim, n));
    } else {
      forall start, es | Run(lim, k, start, es) && Final(lim, k, start, es).slot.Some?
        ensures Final(lim, k, start, es).slot.value.count <= Most(lim, k)
      {
        RunReflects(lim, k, start, es);
      }
    }
  }
}
