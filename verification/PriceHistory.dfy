/** What the price table answers, said of its rows alone: the version in force, the fee of a stay
    by it, what publishing adds, and what a listing shows. */
module PriceHistory {
  import opened Common
  import opened Ordering
  import opened StorageRate
  import opened StorageFee
  import opened StorageRateSchedule
  import opened StorageRateTable

  // ---- The version in force ----

  /** The latest version of `size` at or before `asOf` is the one of instant `at`. */
  ghost predicate LatestVersion(rows: seq<RateRow>, size: Size, asOf: int, at: int) {
    && at <= asOf
    && (exists r :: r in rows && r.size == size && r.effectiveFrom == at)
    && forall r | r in rows && r.size == size && r.effectiveFrom <= asOf :: r.effectiveFrom <= at
  }

  ghost predicate HasBandOf(rows: seq<RateRow>, size: Size, at: int, b: Band) {
    exists r :: r in rows && r.size == size && r.effectiveFrom == at && r.band == b
  }

  /** Exactly the bands of that version's rows, each once, by first day. */
  ghost predicate BandsOfVersion(rows: seq<RateRow>, size: Size, at: int, bands: seq<Band>) {
    && (forall b :: b in bands <==> HasBandOf(rows, size, at, b))
    && forall i, j | 0 <= i < j < |bands| :: bands[i].fromDay < bands[j].fromDay
  }

  lemma BandsAtMeans(rows: seq<RateRow>, v: Version)
    ensures forall b :: b in BandsAt(rows, v) <==> HasBandOf(rows, v.size, v.effectiveFrom, b)
  {
    var selected := Select(rows, v);
    var bands := BandsOf(selected);
    SortedBands(bands);
    SelectSelects(rows, v);
    forall b ensures b in bands <==> HasBandOf(rows, v.size, v.effectiveFrom, b) {
      if b in bands {
        var k :| 0 <= k < |bands| && bands[k] == b;
        assert selected[k] in selected && selected[k].band == b;
      }
      if HasBandOf(rows, v.size, v.effectiveFrom, b) {
        var r :| r in rows && r.size == v.size && r.effectiveFrom == v.effectiveFrom && r.band == b;
        assert r in selected;
        var k :| 0 <= k < |selected| && selected[k] == r;
        assert bands[k] == b;
      }
    }
  }

  /** The lookup answers the bands of the latest version at or before the instant, and nothing
      exactly when there is no such version. */
  lemma LooksUpTheLatestVersion(rows: seq<RateRow>, size: Size, asOf: int)
    requires Sound(rows)
    ensures forall at | LatestVersion(rows, size, asOf, at) ::
              BandsOfVersion(rows, size, at, FindBandsFor(rows, size, asOf)) && Tiles(FindBandsFor(rows, size, asOf))
    ensures FindBandsFor(rows, size, asOf) == [] <==> forall r | r in rows && r.size == size :: asOf < r.effectiveFrom
    ensures FindBandsFor(rows, size, asOf) != [] <==> exists at :: LatestVersion(rows, size, asOf, at)
  {
    InForceIsTheLatest(rows, size, asOf);
    var at := InForce(rows, size, asOf);
    if at.Some? {
      var v := Version(size, at.value);
      assert Tiles(BandsAt(rows, v));
      BandsAtMeans(rows, v);
      forall i, j | 0 <= i < j < |BandsAt(rows, v)| ensures BandsAt(rows, v)[i].fromDay < BandsAt(rows, v)[j].fromDay {
        TilesAscend(BandsAt(rows, v), i, j);
      }
      forall r | r in rows && r.size == size && r.effectiveFrom <= asOf ensures r.effectiveFrom <= at.value {
        assert HasVersion(rows, VersionOf(r));
      }
      var r :| r in rows && VersionOf(r) == v;
      assert LatestVersion(rows, size, asOf, at.value);
    } else {
      forall r | r in rows && r.size == size ensures asOf < r.effectiveFrom {
        assert HasVersion(rows, VersionOf(r));
      }
    }
  }

  // ---- The fee of a stay ----

  /** What the version of `size` at `at` asks for day `d`. */
  ghost predicate AsksFor(rows: seq<RateRow>, size: Size, at: int, d: int, rate: int) {
    exists r :: r in rows && r.size == size && r.effectiveFrom == at && Covers(r.band, d) && r.band.rateMinor == rate
  }

  function Sum(rates: seq<int>): int {
    if rates == [] then 0 else Sum(rates[..|rates| - 1]) + rates[|rates| - 1]
  }

  /** One rate for each day begun between the two instants, each what the version of `at` asks. */
  ghost predicate DailyRates(rows: seq<RateRow>, size: Size, at: int, storedAt: int, retrievedAt: int, rates: seq<int>) {
    && (forall d: nat :: d < |rates| <==> storedAt + d * DAY_MS < retrievedAt)
    && forall d | 0 <= d < |rates| :: AsksFor(rows, size, at, d, rates[d])
  }

  /** The fee is the sum over the days begun of what the version in force at `storedAt` asks. */
  ghost predicate ChargedByTheDay(rows: seq<RateRow>, size: Size, storedAt: int, retrievedAt: int, fee: int) {
    exists at, rates ::
      LatestVersion(rows, size, storedAt, at) && DailyRates(rows, size, at, storedAt, retrievedAt, rates) && fee == Sum(rates)
  }

  function RatesOn(bands: seq<Band>, days: nat): (rates: seq<int>)
    ensures |rates| == days
    ensures forall d | 0 <= d < days :: rates[d] == RateOn(bands, d)
  {
    seq(days, d => RateOn(bands, d))
  }

  lemma {:induction false} SumOfRatesOn(bands: seq<Band>, days: nat)
    ensures Sum(RatesOn(bands, days)) == SumOfDailyRates(bands, days)
  {
    if days > 0 {
      SumOfRatesOn(bands, days - 1);
      assert RatesOn(bands, days)[..days - 1] == RatesOn(bands, days - 1);
    }
  }

  lemma AsksForIsRateOn(rows: seq<RateRow>, size: Size, at: int, bands: seq<Band>, d: nat)
    requires BandsOfVersion(rows, size, at, bands) && Tiles(bands)
    ensures forall rate :: AsksFor(rows, size, at, d, rate) <==> rate == RateOn(bands, d)
  {
    RateOnIsPosted(bands, d);
    assert PostedRate(bands, d, RateOn(bands, d));
    forall rate ensures AsksFor(rows, size, at, d, rate) <==> PostedRate(bands, d, rate) {
      if AsksFor(rows, size, at, d, rate) {
        var r :| r in rows && r.size == size && r.effectiveFrom == at && Covers(r.band, d) && r.band.rateMinor == rate;
        assert HasBandOf(rows, size, at, r.band);
        var k :| 0 <= k < |bands| && bands[k] == r.band;
        assert Covers(bands[k], d) && bands[k].rateMinor == rate;
      }
      if PostedRate(bands, d, rate) {
        var k :| 0 <= k < |bands| && Covers(bands[k], d) && bands[k].rateMinor == rate;
        assert bands[k] in bands;
      }
    }
  }

  lemma DaysBegun(storedAt: int, retrievedAt: int, n: nat)
    requires forall d: nat :: d < n <==> storedAt + d * DAY_MS < retrievedAt
    ensures n == ChargeableDays(storedAt, retrievedAt)
  {
    var days := ChargeableDays(storedAt, retrievedAt);
    DayIsChargedOnceStarted(storedAt, retrievedAt, days);
    DayIsChargedOnceStarted(storedAt, retrievedAt, n);
    assert days < n <==> storedAt + days * DAY_MS < retrievedAt;
    assert n < n <==> storedAt + n * DAY_MS < retrievedAt;
  }

  /** A stay is priced exactly when its size had a version by the time it began, and then at the
      one amount that charges it by the day. */
  lemma QuotedByTheDay(rows: seq<RateRow>, size: Size, storedAt: int, retrievedAt: int)
    requires Sound(rows)
    ensures Quote(rows, size, storedAt, retrievedAt).Ok?
       <==> exists r :: r in rows && r.size == size && r.effectiveFrom <= storedAt
    ensures forall fee :: Quote(rows, size, storedAt, retrievedAt) == Ok(fee)
                     <==> ChargedByTheDay(rows, size, storedAt, retrievedAt, fee)
  {
    LooksUpTheLatestVersion(rows, size, storedAt);
    PricedExactlyFromTheFirstVersionOn(rows, size, storedAt, retrievedAt);
    var bands := FindBandsFor(rows, size, storedAt);
    if bands == [] {
      forall fee ensures !ChargedByTheDay(rows, size, storedAt, retrievedAt, fee) {
      }
    } else {
      var at :| LatestVersion(rows, size, storedAt, at);
      TilingFee(bands, storedAt, retrievedAt);
      QuoteIsTheSum(rows, size, at, storedAt, retrievedAt, bands);
    }
  }

  lemma QuoteIsTheSum(rows: seq<RateRow>, size: Size, at: int, storedAt: int, retrievedAt: int, bands: seq<Band>)
    requires LatestVersion(rows, size, storedAt, at) && BandsOfVersion(rows, size, at, bands) && Tiles(bands)
    ensures forall fee :: ChargedByTheDay(rows, size, storedAt, retrievedAt, fee)
                     <==> fee == SumOfDailyRates(bands, ChargeableDays(storedAt, retrievedAt))
  {
    var days := ChargeableDays(storedAt, retrievedAt);
    var rates := RatesOn(bands, days);
    SumOfRatesOn(bands, days);
    forall d: nat ensures forall rate :: AsksFor(rows, size, at, d, rate) <==> rate == RateOn(bands, d) {
      AsksForIsRateOn(rows, size, at, bands, d);
    }
    forall d: nat ensures d < days <==> storedAt + d * DAY_MS < retrievedAt {
      DayIsChargedOnceStarted(storedAt, retrievedAt, d);
    }
    assert DailyRates(rows, size, at, storedAt, retrievedAt, rates);
    forall other, at' | LatestVersion(rows, size, storedAt, at') && DailyRates(rows, size, at', storedAt, retrievedAt, other)
      ensures other == rates
    {
      assert at' == at;
      DaysBegun(storedAt, retrievedAt, |other|);
      assert forall d | 0 <= d < days :: other[d] == rates[d];
    }
  }

  // ---- Publishing ----

  /** The rows a version adds: its bands, each with its own id, under its size and instant. */
  ghost predicate RowsOfVersion(added: seq<RateRow>, size: Size, at: int, bands: seq<Band>, ids: seq<Id>, stamp: int) {
    && |added| == |bands| == |ids|
    && forall i | 0 <= i < |added| :: added[i] == RateRow(ids[i], size, bands[i], at, stamp, stamp)
  }

  ghost predicate AnyOf(rows: seq<RateRow>, size: Size, at: int) {
    exists r :: r in rows && r.size == size && r.effectiveFrom == at
  }

  /** A version published is what its size is priced by from its instant to the next one's. */
  lemma PublishedTakesEffect(rows: seq<RateRow>, s: Schedule, asOf: int)
    requires Sound(rows) && Tiles(s.Bands()) && AppendAll(rows, RowsOf(s)).Ok? && s.effectiveFrom <= asOf
    requires forall r | r in rows && r.size == s.size :: r.effectiveFrom < s.effectiveFrom || asOf < r.effectiveFrom
    ensures AppendAll(rows, RowsOf(s)) == Ok(rows + RowsOf(s))
    ensures FindBandsFor(rows + RowsOf(s), s.size, asOf) == s.Bands()
  {
    var after, v := rows + RowsOf(s), Version(s.size, s.effectiveFrom);
    PublishKeepsSound(rows, s);
    OkMeansNewVersion(rows, s);
    BandsAtAfter(rows, s, v);
    InForceIsTheLatest(after, s.size, asOf);
    assert RowsOf(s)[0] in after && VersionOf(RowsOf(s)[0]) == v;
    assert HasVersion(after, v);
  }

  // ---- Listing ----

  lemma {:induction false} WhereMeans(rows: seq<RateRow>, size: Option<Size>)
    ensures forall r :: r in Where(rows, size) <==> r in rows && Asked(size, r.size)
  {
    if rows != [] {
      assert rows == rows[..|rows| - 1] + [rows[|rows| - 1]];
      WhereMeans(rows[..|rows| - 1], size);
    }
  }

  /** Row `r` is the entry of version `s` with its id and band. */
  predicate IsEntryOf(r: RateRow, s: Schedule, e: Entry) {
    r.size == s.size && r.effectiveFrom == s.effectiveFrom && r.id == e.id && r.band == e.band
  }

  /** The entries of `s` are the rows of its size and instant, by first day. */
  ghost predicate ShowsVersion(rows: seq<RateRow>, s: Schedule) {
    && (forall e :: e in s.entries <==> exists r :: r in rows && IsEntryOf(r, s, e))
    && forall j, k | 0 <= j < k < |s.entries| :: s.entries[j].band.fromDay <= s.entries[k].band.fromDay
  }

  predicate Asked(size: Option<Size>, s: Size) {
    size.None? || s == size.value
  }

  predicate ListedAfter(s: Schedule, t: Schedule) {
    t.effectiveFrom < s.effectiveFrom || (t.effectiveFrom == s.effectiveFrom && t.size != s.size)
  }

  /** Newest first, each version of a size asked for once, with all its rows and no other. */
  lemma ListsExactlyTheVersions(rows: seq<RateRow>, size: Option<Size>, versions: seq<Schedule>)
    requires Listed(Sort(ListingOrder, Where(rows, size)), versions)
    ensures forall i, j | 0 <= i < j < |versions| :: ListedAfter(versions[i], versions[j])
    ensures forall i | 0 <= i < |versions| :: Asked(size, versions[i].size) && ShowsVersion(rows, versions[i])
    ensures forall r | r in rows && Asked(size, r.size) ::
              exists i :: 0 <= i < |versions| && versions[i].size == r.size && versions[i].effectiveFrom == r.effectiveFrom
  {
    var sorted := Sort(ListingOrder, Where(rows, size));
    var keys := VersionsOf(versions);
    SortedListing(Where(rows, size));
    SameElements(Where(rows, size), sorted);
    WhereMeans(rows, size);
    forall i, j | 0 <= i < j < |versions| ensures ListedAfter(versions[i], versions[j]) {
      assert ListedBefore(keys[i], keys[j]);
    }
    forall i | 0 <= i < |versions| ensures Asked(size, versions[i].size) && ShowsVersion(rows, versions[i]) {
      ListedEntries(sorted, versions, i);
      WhereShows(rows, size, sorted, versions[i]);
    }
    forall r | r in rows && Asked(size, r.size)
      ensures exists i :: 0 <= i < |versions| && versions[i].size == r.size && versions[i].effectiveFrom == r.effectiveFrom
    {
      JoinedRowHasItsKey(sorted, keys, r);
      var i :| 0 <= i < |keys| && keys[i] == VersionOf(r);
    }
  }

  lemma WhereShows(rows: seq<RateRow>, size: Option<Size>, sorted: seq<RateRow>, s: Schedule)
    requires forall r :: r in sorted <==> r in rows && Asked(size, r.size)
    requires ShowsVersion(sorted, s) && s.entries != []
    ensures Asked(size, s.size) && ShowsVersion(rows, s)
  {
    var e := s.entries[0];
    assert e in s.entries;
    var r :| r in sorted && IsEntryOf(r, s, e);
  }

  lemma ListedEntries(sorted: seq<RateRow>, versions: seq<Schedule>, i: nat)
    requires Listed(sorted, versions) && Sorted(ListingOrder, sorted) && i < |versions|
    ensures ShowsVersion(sorted, versions[i]) && versions[i].entries != []
  {
    var s, key := versions[i], VersionsOf(versions)[i];
    var group := Select(sorted, key);
    SelectSelects(sorted, key);
    assert s == ToSchedule(group);
    forall e ensures e in s.entries <==> exists r :: r in sorted && IsEntryOf(r, s, e) {
      if e in s.entries {
        var k :| 0 <= k < |group| && s.entries[k] == e;
        assert group[k] in group && IsEntryOf(group[k], s, e);
      }
      if r :| r in sorted && IsEntryOf(r, s, e) {
        assert r in group;
        var k :| 0 <= k < |group| && group[k] == r;
        assert s.entries[k] == e;
      }
    }
    SelectKeepsOrder(sorted, key);
    forall j, k | 0 <= j < k < |group| ensures group[j].band.fromDay <= group[k].band.fromDay {
      assert group[j] in group && group[k] in group && ListingOrder(group[j], group[k]);
    }
  }
}
