/** The storage fee of one stay (storage-fee-calculator.ts). */
module StorageFee {
  import opened Common
  import opened StorageRate

  const DAY_MS := 86_400_000

  /** StorageRateConfigError: the bands do not add up to the days charged. */
  datatype FeeError = CoverageMismatch(covered: int, chargeable: int)

  function Ceil(x: int, y: int): int
    requires y > 0
  {
    -((-x) / y)
  }

  function Max(a: int, b: int): int {
    if a < b then b else a
  }

  function Min(a: int, b: int): int {
    if a < b then a else b
  }

  function ChargeableDays(storedAt: int, retrievedAt: int): nat {
    Max(0, Ceil(retrievedAt - storedAt, DAY_MS))
  }

  function DaysIn(b: Band, days: nat): nat {
    var end := if b.toDay.None? then days else Min(b.toDay.value, days);
    Max(0, end - b.fromDay)
  }

  function Total(bands: seq<Band>, days: nat): int {
    if bands == [] then 0
    else Total(bands[..|bands| - 1], days) + DaysIn(bands[|bands| - 1], days) * bands[|bands| - 1].rateMinor
  }

  function Covered(bands: seq<Band>, days: nat): nat {
    if bands == [] then 0
    else Covered(bands[..|bands| - 1], days) + DaysIn(bands[|bands| - 1], days)
  }

  function Fee(bands: seq<Band>, storedAt: int, retrievedAt: int): Result<int, FeeError> {
    var days := ChargeableDays(storedAt, retrievedAt);
    if days == 0 then Ok(0)
    else if Covered(bands, days) != days then Err(CoverageMismatch(Covered(bands, days), days))
    else Ok(Total(bands, days))
  }

  /** The source's loop: two accumulators over the bands, then the coverage guard. */
  method CalculateStorageFeeMinor(bands: seq<Band>, storedAt: int, retrievedAt: int)
    returns (r: Result<int, FeeError>)
    ensures r == Fee(bands, storedAt, retrievedAt)
  {
    var chargeableDays := ChargeableDays(storedAt, retrievedAt);
    if chargeableDays == 0 {
      return Ok(0);
    }
    var total, covered := 0, 0;
    for i := 0 to |bands|
      invariant total == Total(bands[..i], chargeableDays)
      invariant covered == Covered(bands[..i], chargeableDays)
    {
      var band := bands[i];
      var end := if band.toDay.None? then chargeableDays else Min(band.toDay.value, chargeableDays);
      var daysInBand := Max(0, end - band.fromDay);
      total := total + daysInBand * band.rateMinor;
      covered := covered + daysInBand;
      assert bands[..i + 1][..i] == bands[..i];
    }
    assert bands[..|bands|] == bands;
    if covered != chargeableDays {
      return Err(CoverageMismatch(covered, chargeableDays));
    }
    return Ok(total);
  }

  /** Day `d` of the stay is charged exactly when it has started by the time of retrieval. */
  lemma DayIsChargedOnceStarted(storedAt: int, retrievedAt: int, d: nat)
    ensures d < ChargeableDays(storedAt, retrievedAt) <==> storedAt + d * DAY_MS < retrievedAt
  {
  }

  // ---- What the two accumulators count, day by day ----

  /** How many of the bands cover day `d`. */
  function Coverage(bands: seq<Band>, d: int): nat {
    if bands == [] then 0
    else Coverage(bands[..|bands| - 1], d) + if Covers(bands[|bands| - 1], d) then 1 else 0
  }

  /** The rates of all the bands that cover day `d`, added up. */
  function RateOn(bands: seq<Band>, d: int): int {
    if bands == [] then 0
    else RateOn(bands[..|bands| - 1], d) + if Covers(bands[|bands| - 1], d) then bands[|bands| - 1].rateMinor else 0
  }

  function SumOfDailyRates(bands: seq<Band>, days: nat): int {
    if days == 0 then 0 else SumOfDailyRates(bands, days - 1) + RateOn(bands, days - 1)
  }

  function SumOfCoverage(bands: seq<Band>, days: nat): nat {
    if days == 0 then 0 else SumOfCoverage(bands, days - 1) + Coverage(bands, days - 1)
  }

  lemma {:induction false} OneMoreDay(bands: seq<Band>, d: nat)
    requires AllValid(bands)
    ensures Covered(bands, d + 1) == Covered(bands, d) + Coverage(bands, d)
    ensures Total(bands, d + 1) == Total(bands, d) + RateOn(bands, d)
  {
    if bands != [] {
      var b := bands[|bands| - 1];
      assert b in bands;
      OneMoreDay(bands[..|bands| - 1], d);
      assert DaysIn(b, d + 1) == DaysIn(b, d) + if Covers(b, d) then 1 else 0;
      assert Covers(b, d) ==> (DaysIn(b, d) + 1) * b.rateMinor == DaysIn(b, d) * b.rateMinor + b.rateMinor;
    }
  }

  lemma {:induction false} NoDays(bands: seq<Band>)
    requires AllValid(bands)
    ensures Covered(bands, 0) == 0 && Total(bands, 0) == 0
  {
    if bands != [] {
      assert bands[|bands| - 1] in bands;
      NoDays(bands[..|bands| - 1]);
    }
  }

  /** Walking the bands adds up the same numbers as walking the days. */
  lemma {:induction false} BandsAndDaysAgree(bands: seq<Band>, days: nat)
    requires AllValid(bands)
    ensures Covered(bands, days) == SumOfCoverage(bands, days)
    ensures Total(bands, days) == SumOfDailyRates(bands, days)
  {
    if days == 0 {
      NoDays(bands);
    } else {
      BandsAndDaysAgree(bands, days - 1);
      OneMoreDay(bands, days - 1);
    }
  }

  // ---- The coverage guard ----

  ghost predicate HasBand(bands: seq<Band>, d: int) {
    exists k :: 0 <= k < |bands| && Covers(bands[k], d)
  }

  lemma {:induction false} CoverageOfDisjoint(bands: seq<Band>, d: int)
    requires Disjoint(bands)
    ensures Coverage(bands, d) <= 1
    ensures Coverage(bands, d) == 1 <==> HasBand(bands, d)
    ensures forall k | 0 <= k < |bands| && Covers(bands[k], d) :: RateOn(bands, d) == bands[k].rateMinor
    ensures !HasBand(bands, d) ==> RateOn(bands, d) == 0
  {
    if bands != [] {
      var n := |bands| - 1;
      var init := bands[..n];
      assert forall k | 0 <= k < n :: init[k] == bands[k];
      forall i, j, day: int | 0 <= i < j < |init| ensures !(Covers(init[i], day) && Covers(init[j], day)) {
        assert !(Covers(bands[i], day) && Covers(bands[j], day));
      }
      CoverageOfDisjoint(init, d);
      if Covers(bands[n], d) {
        forall k | 0 <= k < n ensures !Covers(init[k], d) {
        }
        assert !HasBand(init, d);
      } else if HasBand(init, d) {
        var k :| 0 <= k < |init| && Covers(init[k], d);
        assert Covers(bands[k], d);
      } else {
        forall k | 0 <= k < |bands| ensures !Covers(bands[k], d) {
          assert k < n ==> bands[k] == init[k];
        }
      }
    }
  }

  lemma {:induction false} FullCoverage(bands: seq<Band>, days: nat)
    requires Disjoint(bands)
    ensures SumOfCoverage(bands, days) <= days
    ensures SumOfCoverage(bands, days) == days <==> forall d | 0 <= d < days :: HasBand(bands, d)
  {
    if days > 0 {
      FullCoverage(bands, days - 1);
      CoverageOfDisjoint(bands, days - 1);
    }
  }

  /**
   * For valid bands that do not overlap, however many and in whatever order, the one
   * running count finds every gap and every start after day 0.
   */
  lemma GuardThrowsExactlyOnGaps(bands: seq<Band>, storedAt: int, retrievedAt: int)
    requires AllValid(bands) && Disjoint(bands)
    ensures Fee(bands, storedAt, retrievedAt).Err?
       <==> exists d: nat :: d < ChargeableDays(storedAt, retrievedAt) && !HasBand(bands, d)
  {
    var days := ChargeableDays(storedAt, retrievedAt);
    BandsAndDaysAgree(bands, days);
    FullCoverage(bands, days);
    if days != 0 && Covered(bands, days) != days {
      var d :| 0 <= d < days && !HasBand(bands, d);
      assert (d as nat) < days;
    }
  }

  /**
   * Without disjointness the guard is exact only about the sum: two bands on day 0 make up
   * for none on day 1, although the error message promises to report an overlap.
   */
  lemma OverlapCanHideAGap()
    ensures var bands := [Band(0, Some(1), 5), Band(0, Some(1), 7)];
            AllValid(bands) && !HasBand(bands, 1) && Fee(bands, 0, 2 * DAY_MS) == Ok(12)
  {
    var bands := [Band(0, Some(1), 5), Band(0, Some(1), 7)];
    assert ChargeableDays(0, 2 * DAY_MS) == 2;
    assert bands[..1] == [bands[0]] && bands[..1][..0] == [];
    assert Covered(bands[..1], 2) == 1 && Total(bands[..1], 2) == 5;
  }

  /** What passing the guard is worth for valid bands in general. */
  lemma GuardPassesExactlyWhenCoverageAddsUp(bands: seq<Band>, storedAt: int, retrievedAt: int)
    requires AllValid(bands)
    ensures var days := ChargeableDays(storedAt, retrievedAt);
            && (Fee(bands, storedAt, retrievedAt).Ok? <==> SumOfCoverage(bands, days) == days)
            && (Fee(bands, storedAt, retrievedAt).Ok? ==>
                  Fee(bands, storedAt, retrievedAt).value == SumOfDailyRates(bands, days))
  {
    BandsAndDaysAgree(bands, ChargeableDays(storedAt, retrievedAt));
  }

  // ---- Fees under a published schedule ----

  /** The rate posted for day `d`: that of the one band covering it. */
  ghost predicate PostedRate(bands: seq<Band>, d: int, rate: int) {
    exists k :: 0 <= k < |bands| && Covers(bands[k], d) && bands[k].rateMinor == rate
  }

  lemma RateOnIsPosted(bands: seq<Band>, d: nat)
    requires Tiles(bands)
    ensures forall rate :: PostedRate(bands, d, rate) <==> rate == RateOn(bands, d)
    ensures RateOn(bands, d) >= 0
  {
    TilesDisjoint(bands);
    CoverageOfDisjoint(bands, d);
    TilingCoversEachDayOnce(bands, d);
    var k :| 0 <= k < |bands| && Covers(bands[k], d);
    assert bands[k] in bands;
  }

  /** A tiling never trips the guard, and each started day costs its posted rate. */
  lemma TilingFee(bands: seq<Band>, storedAt: int, retrievedAt: int)
    requires Tiles(bands)
    ensures Fee(bands, storedAt, retrievedAt)
         == Ok(SumOfDailyRates(bands, ChargeableDays(storedAt, retrievedAt)))
    ensures forall d: nat, rate :: PostedRate(bands, d, rate) <==> rate == RateOn(bands, d)
  {
    TilesDisjoint(bands);
    GuardThrowsExactlyOnGaps(bands, storedAt, retrievedAt);
    GuardPassesExactlyWhenCoverageAddsUp(bands, storedAt, retrievedAt);
    forall d: nat ensures HasBand(bands, d) && forall rate :: PostedRate(bands, d, rate) <==> rate == RateOn(bands, d) {
      TilingCoversEachDayOnce(bands, d);
      RateOnIsPosted(bands, d);
    }
  }

  lemma {:induction false} SumGrows(bands: seq<Band>, fewer: nat, more: nat)
    requires Tiles(bands) && fewer <= more
    ensures 0 <= SumOfDailyRates(bands, fewer) <= SumOfDailyRates(bands, more)
    decreases more
  {
    if more > 0 {
      RateOnIsPosted(bands, more - 1);
      SumGrows(bands, Min(fewer, more - 1), more - 1);
    }
  }

  /** Collecting later never costs less, and nothing is ever charged below zero. */
  lemma FeeNeverFalls(bands: seq<Band>, storedAt: int, retrievedAt: int, later: int)
    requires Tiles(bands) && retrievedAt <= later
    ensures Fee(bands, storedAt, retrievedAt).Ok? && Fee(bands, storedAt, later).Ok?
    ensures 0 <= Fee(bands, storedAt, retrievedAt).value <= Fee(bands, storedAt, later).value
  {
    TilingFee(bands, storedAt, retrievedAt);
    TilingFee(bands, storedAt, later);
    var fewer, more := ChargeableDays(storedAt, retrievedAt), ChargeableDays(storedAt, later);
    if more < fewer {
      DayIsChargedOnceStarted(storedAt, retrievedAt, more);
      DayIsChargedOnceStarted(storedAt, later, more);
    }
    SumGrows(bands, fewer, more);
  }

  /** Pricing with a clock behind `storedAt` is pricing with the clamped instant. */
  lemma ClampDoesNotChangeTheFee(bands: seq<Band>, storedAt: int, reading: int)
    ensures Fee(bands, storedAt, reading) == Fee(bands, storedAt, if reading < storedAt then storedAt else reading)
  {
  }
}
