/** One per-day rate band (storage-rate.ts) and what it means for bands to tile. */
module StorageRate {
  import opened Common

  /** A JavaScript number, as far as `Number.isInteger` can tell. */
  datatype Number = Whole(n: int) | NotWhole

  datatype BandInput = BandInput(fromDay: Number, toDay: Option<Number>, rateMinor: Number)

  /** Days `[fromDay, toDay)` at `rateMinor` each; no `toDay` means without end. */
  datatype Band = Band(fromDay: int, toDay: Option<int>, rateMinor: int)

  predicate Valid(b: Band) {
    && 0 <= b.fromDay
    && (b.toDay.Some? ==> b.fromDay < b.toDay.value)
    && 0 <= b.rateMinor
  }

  predicate Covers(b: Band, day: int) {
    b.fromDay <= day && (b.toDay.None? || day < b.toDay.value)
  }

  /** What an input says when its numbers are whole. */
  predicate Denotes(input: BandInput, b: Band) {
    && input.fromDay == Whole(b.fromDay)
    && input.toDay == (if b.toDay.None? then None else Some(Whole(b.toDay.value)))
    && input.rateMinor == Whole(b.rateMinor)
  }

  /** The checks in the order the source makes them; `None` is InvalidStorageRateBandError. */
  function Of(input: BandInput): (r: Option<Band>)
    ensures r.Some? ==> Valid(r.value) && Denotes(input, r.value)
    ensures r.None? ==> forall b :: Denotes(input, b) ==> !Valid(b)
  {
    if input.fromDay.NotWhole? || input.fromDay.n < 0 then None
    else if input.toDay.Some? && (input.toDay.value.NotWhole? || input.toDay.value.n <= input.fromDay.n) then None
    else if input.rateMinor.NotWhole? || input.rateMinor.n < 0 then None
    else Some(Band(input.fromDay.n,
                   if input.toDay.None? then None else Some(input.toDay.value.n),
                   input.rateMinor.n))
  }

  predicate AllValid(bands: seq<Band>) {
    forall b | b in bands :: Valid(b)
  }

  ghost predicate Disjoint(bands: seq<Band>) {
    forall i, j, day: int {:trigger Covers(bands[i], day), Covers(bands[j], day)} |
      0 <= i < j < |bands| :: !(Covers(bands[i], day) && Covers(bands[j], day))
  }

  predicate MeetsNext(bands: seq<Band>, i: int)
    requires 0 <= i < |bands| - 1
  {
    bands[i].toDay == Some(bands[i + 1].fromDay)
  }

  /** Valid bands that start at day 0, meet edge to edge, and end without end. */
  predicate Tiles(bands: seq<Band>) {
    && bands != []
    && AllValid(bands)
    && bands[0].fromDay == 0
    && (forall i | 0 <= i < |bands| - 1 :: MeetsNext(bands, i))
    && bands[|bands| - 1].toDay.None?
  }

  lemma {:induction false} TilesAscend(bands: seq<Band>, i: int, j: int)
    requires Tiles(bands) && 0 <= i < j < |bands|
    ensures bands[i].toDay.Some? && bands[i].toDay.value <= bands[j].fromDay
    ensures bands[i].fromDay < bands[j].fromDay
    decreases j - i
  {
    assert MeetsNext(bands, i) && bands[i] in bands;
    if i + 1 < j {
      TilesAscend(bands, i + 1, j);
    }
  }

  lemma TilesDisjoint(bands: seq<Band>)
    requires Tiles(bands)
    ensures Disjoint(bands)
  {
    forall i, j, day: int | 0 <= i < j < |bands| ensures !(Covers(bands[i], day) && Covers(bands[j], day)) {
      TilesAscend(bands, i, j);
    }
  }

  lemma {:induction false} CoveringBand(bands: seq<Band>, day: int, i: nat) returns (k: int)
    requires Tiles(bands) && i < |bands| && bands[i].fromDay <= day
    ensures i <= k < |bands| && Covers(bands[k], day)
    decreases |bands| - i
  {
    if Covers(bands[i], day) {
      k := i;
    } else {
      assert i < |bands| - 1;
      assert MeetsNext(bands, i);
      k := CoveringBand(bands, day, i + 1);
    }
  }

  /** A tiling covers every day, and covers it once. */
  lemma TilingCoversEachDayOnce(bands: seq<Band>, day: nat)
    requires Tiles(bands)
    ensures exists k :: 0 <= k < |bands| && Covers(bands[k], day)
                        && forall m | 0 <= m < |bands| && Covers(bands[m], day) :: m == k
  {
    var k := CoveringBand(bands, day, 0);
    TilesDisjoint(bands);
    forall m | 0 <= m < |bands| && Covers(bands[m], day) ensures m == k {
    }
  }
}
