/** Validating operator input into a publishable version of one size's prices
    (storage-rate-schedule.ts). */
module StorageRateSchedule {
  import opened Common
  import opened Ordering
  import opened StorageRate

  datatype Entry = Entry(id: Id, band: Band)

  datatype Schedule = Schedule(size: Size, effectiveFrom: int, entries: seq<Entry>, createdAt: int, updatedAt: int) {
    function Bands(): seq<Band> {
      seq(|entries|, i requires 0 <= i < |entries| => entries[i].band)
    }

    function Ids(): seq<Id> {
      seq(|entries|, i requires 0 <= i < |entries| => entries[i].id)
    }
  }

  datatype PublishError =
    | NotADate
    | Backdated
    | NoBands
    | InvalidBand
    | NotFromDayZero
    | NotContiguous
    | NotOpenEnded

  predicate ByFromDay(a: Band, b: Band) {
    a.fromDay <= b.fromDay
  }

  /** `order` lists exactly `bands`, and tiles. */
  predicate IsTilingOf(bands: seq<Band>, order: seq<Band>) {
    multiset(order) == multiset(bands) && Tiles(order)
  }

  /** The bands the inputs stand for, unless one of them is invalid. */
  function Validated(inputs: seq<BandInput>): (r: Option<seq<Band>>)
    ensures r.Some? ==> |r.value| == |inputs| && AllValid(r.value)
                        && forall i | 0 <= i < |inputs| :: Of(inputs[i]) == Some(r.value[i])
    ensures r.None? ==> exists i :: 0 <= i < |inputs| && Of(inputs[i]).None?
  {
    if inputs == [] then Some([])
    else
      var first := Of(inputs[0]);
      var rest := Validated(inputs[1..]);
      if first.None? || rest.None? then
        assert rest.None? ==> exists i :: 0 <= i < |inputs[1..]| && Of(inputs[1..][i]).None?;
        None
      else Some([first.value] + rest.value)
  }

  /** What the contiguity loop and the two end checks find in bands sorted by first day. */
  function CheckTiling(ordered: seq<Band>): Option<PublishError>
    requires ordered != []
  {
    if ordered[0].fromDay != 0 then Some(NotFromDayZero)
    else if exists i :: 0 <= i < |ordered| - 1 && !MeetsNext(ordered, i) then Some(NotContiguous)
    else if ordered[|ordered| - 1].toDay.Some? then Some(NotOpenEnded)
    else None
  }

  /** Sorting, then the checks. */
  function Arrange(bands: seq<Band>): Result<seq<Band>, PublishError>
    requires bands != []
  {
    SortedBands(bands);
    var ordered := Sort(ByFromDay, bands);
    var error := CheckTiling(ordered);
    if error.Some? then Err(error.value) else Ok(ordered)
  }

  /** The bands of the version, in order, or the error thrown. */
  function Outcome(effectiveFrom: Option<int>, inputs: seq<BandInput>, now: int): Result<seq<Band>, PublishError> {
    if effectiveFrom.None? then Err(NotADate)
    else if effectiveFrom.value <= now then Err(Backdated)
    else if inputs == [] then Err(NoBands)
    else
      var bands := Validated(inputs);
      if bands.None? then Err(InvalidBand) else Arrange(bands.value)
  }

  lemma ByFromDayIsTotal()
    ensures TotalPreorder(ByFromDay)
  {
  }

  lemma SortedBands(bands: seq<Band>)
    ensures var ordered := Sort(ByFromDay, bands);
            multiset(ordered) == multiset(bands) && |ordered| == |bands| && Sorted(ByFromDay, ordered)
            && forall b :: b in ordered <==> b in bands
  {
    ByFromDayIsTotal();
    SortOrders(ByFromDay, bands);
    SameElements(bands, Sort(ByFromDay, bands));
  }

  /** The version itself: each band with the next id, stamped `now`. */
  function Versioned(size: Size, effectiveFrom: int, ordered: seq<Band>, ids: seq<Id>, now: int): (v: Schedule)
    requires |ids| == |ordered|
    ensures v.Bands() == ordered && v.Ids() == ids
  {
    var entries := seq(|ordered|, j requires 0 <= j < |ordered| => Entry(ids[j], ordered[j]));
    var v := Schedule(size, effectiveFrom, entries, now, now);
    assert v.Bands() == ordered && v.Ids() == ids;
    v
  }

  /** The walk over neighbours and the two end checks. */
  method WalkNeighbours(ordered: seq<Band>) returns (error: Option<PublishError>)
    requires ordered != []
    ensures error == CheckTiling(ordered)
  {
    if ordered[0].fromDay != 0 {
      return Some(NotFromDayZero);
    }
    var i := 0;
    while i < |ordered| - 1
      invariant 0 <= i <= |ordered| - 1
      invariant forall j | 0 <= j < i :: MeetsNext(ordered, j)
    {
      if ordered[i].toDay != Some(ordered[i + 1].fromDay) {
        assert !MeetsNext(ordered, i);
        return Some(NotContiguous);
      }
      i := i + 1;
    }
    if ordered[|ordered| - 1].toDay.Some? {
      return Some(NotOpenEnded);
    }
    return None;
  }

  /**
   * `ids` are the ids `nextId` will hand out, one per band; `effectiveFrom` is `None` for an
   * invalid date.
   */
  method Publish(size: Size, effectiveFrom: Option<int>, inputs: seq<BandInput>, ids: seq<Id>, now: int)
    returns (r: Result<Schedule, PublishError>)
    requires |ids| == |inputs|
    ensures match Outcome(effectiveFrom, inputs, now)
            case Err(e) => r == Err(e)
            case Ok(bands) =>
              && r.Ok? && r.value.Bands() == bands && r.value.Ids() == ids
              && r.value.size == size && r.value.effectiveFrom == effectiveFrom.value
              && r.value.createdAt == now == r.value.updatedAt
  {
    if effectiveFrom.None? {
      return Err(NotADate);
    }
    if effectiveFrom.value <= now {
      return Err(Backdated);
    }
    if inputs == [] {
      return Err(NoBands);
    }
    var bands := Validated(inputs);
    if bands.None? {
      return Err(InvalidBand);
    }
    SortedBands(bands.value);
    var ordered := Sort(ByFromDay, bands.value);
    var error := WalkNeighbours(ordered);
    if error.Some? {
      return Err(error.value);
    }
    return Ok(Versioned(size, effectiveFrom.value, ordered, ids, now));
  }

  // ---- What acceptance means ----

  lemma TilingIsSorted(order: seq<Band>)
    requires Tiles(order)
    ensures Sorted(ByFromDay, order)
    ensures forall x, y | x in order && y in order && ByFromDay(x, y) && ByFromDay(y, x) :: x == y
  {
    forall i, j | 0 <= i < j < |order| ensures order[i].fromDay < order[j].fromDay {
      TilesAscend(order, i, j);
    }
    forall x, y | x in order && y in order && ByFromDay(x, y) && ByFromDay(y, x) ensures x == y {
      var i :| 0 <= i < |order| && order[i] == x;
      var j :| 0 <= j < |order| && order[j] == y;
      assert i == j;
    }
  }

  /** Bands have at most one tiling order, and sorting by first day is how to find it. */
  lemma SortFindsTheTiling(bands: seq<Band>, order: seq<Band>)
    requires IsTilingOf(bands, order)
    ensures Sort(ByFromDay, bands) == order
  {
    SortedBands(bands);
    TilingIsSorted(order);
    OrderIsUnique(ByFromDay, order, Sort(ByFromDay, bands));
  }

  lemma ArrangedExactlyWhenSomeOrderTiles(bands: seq<Band>)
    requires bands != [] && AllValid(bands)
    ensures Arrange(bands).Ok? <==> exists order :: IsTilingOf(bands, order)
    ensures Arrange(bands).Ok? ==> IsTilingOf(bands, Arrange(bands).value)
  {
    SortedBands(bands);
    if Arrange(bands).Ok? {
      assert IsTilingOf(bands, Sort(ByFromDay, bands));
    }
    if order :| IsTilingOf(bands, order) {
      SortFindsTheTiling(bands, order);
    }
  }

  /** A version still in the future is accepted exactly when its bands are valid and can be
      put in an order that tiles, and then it holds them in that order. */
  lemma AcceptedExactlyWhenSomeOrderTiles(effectiveFrom: Option<int>, inputs: seq<BandInput>, now: int)
    requires effectiveFrom.Some? && now < effectiveFrom.value
    ensures Outcome(effectiveFrom, inputs, now).Ok?
       <==> Validated(inputs).Some? && exists order :: IsTilingOf(Validated(inputs).value, order)
    ensures Outcome(effectiveFrom, inputs, now).Ok? ==>
              IsTilingOf(Validated(inputs).value, Outcome(effectiveFrom, inputs, now).value)
  {
    if inputs != [] && Validated(inputs).Some? {
      ArrangedExactlyWhenSomeOrderTiles(Validated(inputs).value);
    } else if inputs == [] {
      assert Validated(inputs).value == [];
      forall order ensures !IsTilingOf([], order) {
        if multiset(order) == multiset([]) {
          SameElements([], order);
        }
      }
    }
  }

  // ---- Submission order ----

  lemma Without<T>(s: seq<T>, i: nat)
    requires i < |s|
    ensures multiset(s[..i] + s[i + 1..]) == multiset(s) - multiset{s[i]}
  {
    assert s == s[..i] + [s[i]] + s[i + 1..];
  }

  lemma TakeOut<T>(s: seq<T>, t: seq<T>, i: nat)
    requires s != [] && i < |t| && s[0] == t[i] && multiset(s) == multiset(t)
    ensures multiset(s[1..]) == multiset(t[..i] + t[i + 1..])
  {
    Without(s, 0);
    Without(t, i);
    assert s[..0] + s[1..] == s[1..];
  }

  lemma PutBack<T>(s: seq<T>, t: seq<T>, i: nat)
    requires s != [] && i < |t| && s[0] == t[i] && multiset(s[1..]) == multiset(t[..i] + t[i + 1..])
    ensures multiset(s) == multiset(t)
  {
    assert s == [s[0]] + s[1..];
    assert t == t[..i] + [t[i]] + t[i + 1..];
  }

  lemma {:induction false} ValidatedAt(inputs: seq<BandInput>, bands: seq<Band>)
    requires |inputs| == |bands| && forall i | 0 <= i < |inputs| :: Of(inputs[i]) == Some(bands[i])
    ensures Validated(inputs) == Some(bands)
  {
    if inputs != [] {
      ValidatedAt(inputs[1..], bands[1..]);
      assert bands == [bands[0]] + bands[1..];
    }
  }

  lemma ValidatedWithout(inputs: seq<BandInput>, i: nat)
    requires i < |inputs| && Validated(inputs).Some?
    ensures Validated(inputs[..i] + inputs[i + 1..])
         == Some(Validated(inputs).value[..i] + Validated(inputs).value[i + 1..])
  {
    var bands := Validated(inputs).value;
    ValidatedAt(inputs[..i] + inputs[i + 1..], bands[..i] + bands[i + 1..]);
  }

  lemma ValidatedIsShared(inputs: seq<BandInput>, shuffled: seq<BandInput>)
    requires multiset(inputs) == multiset(shuffled) && Validated(inputs).Some?
    ensures Validated(shuffled).Some?
  {
    SameElements(inputs, shuffled);
    forall i | 0 <= i < |shuffled| ensures Of(shuffled[i]).Some? {
      assert shuffled[i] in inputs;
    }
  }

  lemma {:induction false} ValidatedPermutes(inputs: seq<BandInput>, shuffled: seq<BandInput>)
    requires multiset(inputs) == multiset(shuffled) && Validated(inputs).Some?
    ensures Validated(shuffled).Some? && multiset(Validated(inputs).value) == multiset(Validated(shuffled).value)
  {
    SameElements(inputs, shuffled);
    ValidatedIsShared(inputs, shuffled);
    if inputs != [] {
      assert inputs[0] in shuffled;
      var i :| 0 <= i < |shuffled| && shuffled[i] == inputs[0];
      TakeOut(inputs, shuffled, i);
      ValidatedWithout(shuffled, i);
      ValidatedPermutes(inputs[1..], shuffled[..i] + shuffled[i + 1..]);
      PutBack(Validated(inputs).value, Validated(shuffled).value, i);
    }
  }

  lemma SharedStart(a: seq<Band>, b: seq<Band>)
    requires a != [] && multiset(a) == multiset(b) && Sorted(ByFromDay, a) && Sorted(ByFromDay, b)
    ensures b != [] && a[0].fromDay == b[0].fromDay
  {
    SameElements(a, b);
    assert a[0] in b && b[0] in a;
    var i :| 0 <= i < |b| && b[i] == a[0];
    var j :| 0 <= j < |a| && a[j] == b[0];
    assert i == 0 || ByFromDay(b[0], b[i]);
    assert j == 0 || ByFromDay(a[0], a[j]);
  }

  /** Valid bands that meet edge to edge leave no two with the same first day, so no two whose
      order a sort could choose. */
  lemma ContiguousLeavesNoTies(a: seq<Band>, b: seq<Band>)
    requires AllValid(a) && multiset(a) == multiset(b) && Sorted(ByFromDay, a) && Sorted(ByFromDay, b)
    requires forall i | 0 <= i < |a| - 1 :: MeetsNext(a, i)
    ensures a == b
  {
    forall i, j | 0 <= i < j < |a| ensures a[i].fromDay < a[j].fromDay {
      assert a[i] in a && MeetsNext(a, i);
      assert i + 1 < j ==> ByFromDay(a[i + 1], a[j]);
    }
    forall x, y | x in a && y in a && ByFromDay(x, y) && ByFromDay(y, x) ensures x == y {
      var i :| 0 <= i < |a| && a[i] == x;
      var j :| 0 <= j < |a| && a[j] == y;
      assert i == j;
    }
    OrderIsUnique(ByFromDay, a, b);
  }

  lemma ArrangeIgnoresOrder(p: seq<Band>, q: seq<Band>)
    requires p != [] && AllValid(p) && multiset(p) == multiset(q)
    ensures q != [] && Arrange(p) == Arrange(q)
  {
    SameElements(p, q);
    var a, b := Sort(ByFromDay, p), Sort(ByFromDay, q);
    SortedBands(p);
    SortedBands(q);
    SharedStart(a, b);
    if forall i | 0 <= i < |a| - 1 :: MeetsNext(a, i) {
      ContiguousLeavesNoTies(a, b);
    } else if forall i | 0 <= i < |b| - 1 :: MeetsNext(b, i) {
      ContiguousLeavesNoTies(b, a);
    }
  }

  /** Submission order changes nothing: neither acceptance, nor the bands, nor the error. */
  lemma SubmissionOrderIsIrrelevant(effectiveFrom: Option<int>, inputs: seq<BandInput>, shuffled: seq<BandInput>, now: int)
    requires multiset(inputs) == multiset(shuffled)
    ensures Outcome(effectiveFrom, inputs, now) == Outcome(effectiveFrom, shuffled, now)
  {
    SameElements(inputs, shuffled);
    if Validated(inputs).Some? {
      ValidatedPermutes(inputs, shuffled);
      if inputs != [] {
        ArrangeIgnoresOrder(Validated(inputs).value, Validated(shuffled).value);
      }
    } else if Validated(shuffled).Some? {
      ValidatedIsShared(shuffled, inputs);
    }
  }
}
