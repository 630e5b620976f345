/** The append-only, versioned rate table (mysql-storage-rate.repository.ts). */
module StorageRateTable {
  import opened Common
  import opened Ordering
  import opened StorageRate
  import opened StorageRateSchedule
  import opened StorageFee

  datatype RateRow = RateRow(id: Id, size: Size, band: Band, effectiveFrom: int, createdAt: int, updatedAt: int)

  /** What identifies a version. */
  datatype Version = Version(size: Size, effectiveFrom: int)

  function VersionOf(row: RateRow): Version {
    Version(row.size, row.effectiveFrom)
  }

  // ---- One insert ----

  datatype InsertError = DuplicateEntry | OutOfRange | CheckViolated

  const MAX_INT := 2_147_483_647
  const MAX_BIGINT := 9_223_372_036_854_775_807

  predicate FitsColumns(b: Band) {
    b.fromDay <= MAX_INT && (b.toDay.Some? ==> b.toDay.value <= MAX_INT) && b.rateMinor <= MAX_BIGINT
  }

  /** Two rows the primary key or `uq_storage_rate_band` will not hold together. */
  predicate Collide(a: RateRow, b: RateRow) {
    a.id == b.id || (VersionOf(a) == VersionOf(b) && a.band.fromDay == b.band.fromDay)
  }

  function Rejection(rows: seq<RateRow>, row: RateRow): Option<InsertError> {
    if !FitsColumns(row.band) then Some(OutOfRange)
    else if !Valid(row.band) then Some(CheckViolated)
    else if exists r :: r in rows && Collide(r, row) then Some(DuplicateEntry)
    else None
  }

  /** The whole transaction: every row of the version, or none. */
  function AppendAll(rows: seq<RateRow>, added: seq<RateRow>): Result<seq<RateRow>, InsertError>
    decreases |added|
  {
    if added == [] then Ok(rows)
    else
      var e := Rejection(rows, added[0]);
      if e.Some? then Err(e.value) else AppendAll(rows + [added[0]], added[1..])
  }

  function RowsOf(s: Schedule): seq<RateRow> {
    seq(|s.entries|, i requires 0 <= i < |s.entries| =>
      RateRow(s.entries[i].id, s.size, s.entries[i].band, s.effectiveFrom, s.createdAt, s.updatedAt))
  }

  // ---- Reading ----

  function Select(rows: seq<RateRow>, v: Version): seq<RateRow> {
    if rows == [] then []
    else
      var last := rows[|rows| - 1];
      Select(rows[..|rows| - 1], v) + if VersionOf(last) == v then [last] else []
  }

  function BandsOf(rows: seq<RateRow>): seq<Band> {
    seq(|rows|, i requires 0 <= i < |rows| => rows[i].band)
  }

  /** The bands of one version, `ORDER BY from_day`. */
  function BandsAt(rows: seq<RateRow>, v: Version): seq<Band> {
    Sort(ByFromDay, BandsOf(Select(rows, v)))
  }

  /** `MAX(effective_from)` over the versions of `size` at or before `asOf`. */
  function InForce(rows: seq<RateRow>, size: Size, asOf: int): Option<int> {
    if rows == [] then None
    else
      var last := rows[|rows| - 1];
      var before := InForce(rows[..|rows| - 1], size, asOf);
      if last.size == size && last.effectiveFrom <= asOf && (before.None? || before.value < last.effectiveFrom)
      then Some(last.effectiveFrom)
      else before
  }

  function FindBandsFor(rows: seq<RateRow>, size: Size, asOf: int): seq<Band> {
    var at := InForce(rows, size, asOf);
    if at.None? then [] else BandsAt(rows, Version(size, at.value))
  }

  datatype QuoteError = NoRateConfigured | InvalidRow | Uncovered(error: FeeError)

  /** The fee policy: the version in force when the parcel was stored, then the calculator
      (tiered-storage-fee.policy.ts). */
  function Quote(rows: seq<RateRow>, size: Size, storedAt: int, retrievedAt: int): Result<int, QuoteError> {
    var bands := FindBandsFor(rows, size, storedAt);
    if !AllValid(bands) then Err(InvalidRow)
    else if bands == [] then Err(NoRateConfigured)
    else
      match Fee(bands, storedAt, retrievedAt)
      case Ok(fee) => Ok(fee)
      case Err(e) => Err(Uncovered(e))
  }

  ghost predicate HasVersion(rows: seq<RateRow>, v: Version) {
    exists r :: r in rows && VersionOf(r) == v
  }

  /** No two rows collide, and each version present tiles. */
  ghost predicate Sound(rows: seq<RateRow>) {
    && (forall i, j | 0 <= i < j < |rows| :: !Collide(rows[i], rows[j]))
    && (forall v: Version :: HasVersion(rows, v) ==> Tiles(BandsAt(rows, v)))
  }

  /** The table as the adapter drives it. */
  class RateTable {
    var rows: seq<RateRow>

    constructor (seeded: seq<RateRow>)
      ensures rows == seeded
    {
      rows := seeded;
    }

    method InsertRow(row: RateRow) returns (rejection: Option<InsertError>)
      modifies this
      ensures rejection == Rejection(old(rows), row)
      ensures rows == if rejection.None? then old(rows) + [row] else old(rows)
    {
      rejection := Rejection(rows, row);
      if rejection.None? {
        rows := rows + [row];
      }
    }

    /** Inserts the bands one by one in a transaction; any failure rolls all of them back.
        `DuplicateEntry` is StorageRateVersionExistsError. */
    method Publish(s: Schedule) returns (failure: Option<InsertError>)
      modifies this
      ensures match AppendAll(old(rows), RowsOf(s))
              case Ok(after) => failure == None && rows == after == old(rows) + RowsOf(s)
              case Err(e) => failure == Some(e) && rows == old(rows)
    {
      var saved := rows;
      var added := RowsOf(s);
      for i := 0 to |added|
        invariant rows == saved + added[..i]
        invariant AppendAll(saved, added) == AppendAll(rows, added[i..])
      {
        var rejection := InsertRow(added[i]);
        assert added[i..][1..] == added[i + 1..] && added[..i + 1] == added[..i] + [added[i]];
        if rejection.Some? {
          rows := saved;
          return rejection;
        }
      }
      assert saved + added[..|added|] == saved + added;
      return None;
    }

    /** Groups the rows as they stream by in listing order; a JavaScript `Map` keeps the order in
        which its keys were first inserted, here `keys`. */
    static method GroupRows(sorted: seq<RateRow>) returns (keys: seq<Version>, groups: map<Version, seq<RateRow>>)
      requires InRuns(sorted)
      ensures Grouped(sorted, keys) && Holds(groups, keys, sorted)
    {
      keys, groups := [], map[];
      for i := 0 to |sorted|
        invariant Grouped(sorted[..i], keys) && Holds(groups, keys, sorted[..i])
      {
        var key := VersionOf(sorted[i]);
        var group := if key in groups then groups[key] else [];
        GroupStep(sorted, i, keys);
        MapStep(groups, sorted, i, keys);
        if key !in groups {
          keys := keys + [key];
        }
        groups := groups[key := group + [sorted[i]]];
      }
      assert sorted[..|sorted|] == sorted;
    }

    method ListVersions(size: Option<Size>) returns (versions: seq<Schedule>)
      ensures Listed(Sort(ListingOrder, Where(rows, size)), versions)
    {
      var sorted := Sort(ListingOrder, Where(rows, size));
      SortedInRuns(Where(rows, size));
      var keys, groups := GroupRows(sorted);
      forall k | k in keys ensures groups[k] != [] && VersionOf(groups[k][0]) == k {
        SelectSelects(sorted, k);
        assert groups[k] != [] ==> groups[k][0] in groups[k];
      }
      versions := Schedules(groups, keys);
    }
  }

  // ---- Selecting ----

  lemma {:induction false} SelectSelects(rows: seq<RateRow>, v: Version)
    ensures forall r :: r in Select(rows, v) <==> r in rows && VersionOf(r) == v
    ensures Select(rows, v) == [] <==> !HasVersion(rows, v)
  {
    if rows != [] {
      var init := rows[..|rows| - 1];
      assert rows == init + [rows[|rows| - 1]];
      SelectSelects(init, v);
    }
    if Select(rows, v) != [] {
      assert Select(rows, v)[0] in Select(rows, v);
    }
  }

  lemma {:induction false} SelectAppends(rows: seq<RateRow>, added: seq<RateRow>, v: Version)
    ensures Select(rows + added, v) == Select(rows, v) + Select(added, v)
  {
    if added == [] {
      assert rows + added == rows;
    } else {
      var n := |added| - 1;
      SelectAppends(rows, added[..n], v);
      assert (rows + added)[..|rows + added| - 1] == rows + added[..n];
    }
  }

  lemma {:induction false} SelectAll(rows: seq<RateRow>, v: Version)
    requires forall r | r in rows :: VersionOf(r) == v
    ensures Select(rows, v) == rows
  {
    if rows != [] {
      assert rows == rows[..|rows| - 1] + [rows[|rows| - 1]];
      SelectAll(rows[..|rows| - 1], v);
    }
  }

  lemma {:induction false} SelectNone(rows: seq<RateRow>, v: Version)
    requires forall r | r in rows :: VersionOf(r) != v
    ensures Select(rows, v) == []
  {
    SelectSelects(rows, v);
  }

  // ---- Publishing keeps the table sound ----

  lemma {:induction false} AppendAllAppends(rows: seq<RateRow>, added: seq<RateRow>)
    requires forall i, j | 0 <= i < j < |rows| :: !Collide(rows[i], rows[j])
    ensures AppendAll(rows, added).Ok? ==>
              AppendAll(rows, added).value == rows + added
              && forall i, j | 0 <= i < j < |rows + added| :: !Collide((rows + added)[i], (rows + added)[j])
    decreases |added|
  {
    if added == [] {
      assert rows + added == rows;
    } else if Rejection(rows, added[0]).None? {
      forall i | 0 <= i < |rows| ensures !Collide(rows[i], added[0]) {
        assert rows[i] in rows;
      }
      AppendAllAppends(rows + [added[0]], added[1..]);
      assert rows + [added[0]] + added[1..] == rows + added;
    }
  }

  /** Every row would go in on its own. */
  ghost predicate Insertable(rows: seq<RateRow>, added: seq<RateRow>) {
    && (forall i | 0 <= i < |added| :: FitsColumns(added[i].band) && Valid(added[i].band))
    && (forall r, i | r in rows && 0 <= i < |added| :: !Collide(r, added[i]))
    && (forall i, j | 0 <= i < j < |added| :: !Collide(added[i], added[j]))
  }

  lemma {:induction false} InsertableIsAppended(rows: seq<RateRow>, added: seq<RateRow>)
    requires Insertable(rows, added)
    ensures AppendAll(rows, added).Ok?
    decreases |added|
  {
    if added != [] {
      var more := rows + [added[0]];
      forall r, i | r in more && 0 <= i < |added[1..]| ensures !Collide(r, added[1..][i]) {
        assert added[1..][i] == added[i + 1];
      }
      InsertableIsAppended(more, added[1..]);
    }
  }

  lemma DayZeroBand(rows: seq<RateRow>, v: Version) returns (r: RateRow)
    requires Sound(rows) && HasVersion(rows, v)
    ensures r in rows && VersionOf(r) == v && r.band.fromDay == 0
  {
    var selected := Select(rows, v);
    var bands := BandsOf(selected);
    SortedBands(bands);
    var first := BandsAt(rows, v)[0];
    assert first in bands;
    var k :| 0 <= k < |bands| && bands[k] == first;
    r := selected[k];
    SelectSelects(rows, v);
    assert r in selected;
  }

  /** Ids nobody has used, within the columns' ranges: what publishing needs besides a free instant. */
  ghost predicate Publishable(rows: seq<RateRow>, s: Schedule) {
    && Tiles(s.Bands())
    && (forall i | 0 <= i < |s.entries| :: FitsColumns(s.entries[i].band))
    && (forall i, j | 0 <= i < j < |s.entries| :: s.entries[i].id != s.entries[j].id)
    && (forall r, i | r in rows && 0 <= i < |s.entries| :: r.id != s.entries[i].id)
  }

  lemma NewVersionInsertable(rows: seq<RateRow>, s: Schedule)
    requires Publishable(rows, s) && !HasVersion(rows, Version(s.size, s.effectiveFrom))
    ensures Insertable(rows, RowsOf(s))
  {
    var added := RowsOf(s);
    forall i | 0 <= i < |added| ensures Valid(added[i].band) {
      assert s.Bands()[i] in s.Bands();
    }
    forall i, j | 0 <= i < j < |added| ensures !Collide(added[i], added[j]) {
      TilesAscend(s.Bands(), i, j);
    }
  }

  /**
   * The unique key is per band, yet it keeps versions apart: a second version of a size at the
   * same instant always falls on the day-0 band, and goes nowhere.
   */
  lemma PublishesExactlyNewVersions(rows: seq<RateRow>, s: Schedule)
    requires Sound(rows) && Publishable(rows, s)
    ensures AppendAll(rows, RowsOf(s)).Ok? <==> !HasVersion(rows, Version(s.size, s.effectiveFrom))
    ensures AppendAll(rows, RowsOf(s)).Err? ==> AppendAll(rows, RowsOf(s)).error == DuplicateEntry
  {
    var added := RowsOf(s);
    var v := Version(s.size, s.effectiveFrom);
    if HasVersion(rows, v) {
      var r := DayZeroBand(rows, v);
      assert s.Bands()[0] in s.Bands();
      assert added[0].band == s.Bands()[0] && Collide(r, added[0]);
    } else {
      NewVersionInsertable(rows, s);
      InsertableIsAppended(rows, added);
    }
  }

  lemma RowsReadBack(s: Schedule)
    requires Tiles(s.Bands())
    ensures Sort(ByFromDay, BandsOf(RowsOf(s))) == s.Bands()
  {
    assert BandsOf(RowsOf(s)) == s.Bands();
    SortFindsTheTiling(s.Bands(), s.Bands());
  }

  lemma BandsAtAfter(rows: seq<RateRow>, s: Schedule, v: Version)
    requires Tiles(s.Bands()) && !HasVersion(rows, Version(s.size, s.effectiveFrom))
    ensures BandsAt(rows + RowsOf(s), v)
         == if v == Version(s.size, s.effectiveFrom) then s.Bands() else BandsAt(rows, v)
  {
    var added := RowsOf(s);
    SelectAppends(rows, added, v);
    if v == Version(s.size, s.effectiveFrom) {
      SelectSelects(rows, v);
      SelectAll(added, v);
      RowsReadBack(s);
      assert Select(rows, v) == [] && Select(rows + added, v) == added;
    } else {
      SelectNone(added, v);
      assert Select(rows + added, v) == Select(rows, v);
    }
  }

  lemma OkMeansNewVersion(rows: seq<RateRow>, s: Schedule)
    requires Sound(rows) && Tiles(s.Bands()) && AppendAll(rows, RowsOf(s)).Ok?
    ensures !HasVersion(rows, Version(s.size, s.effectiveFrom))
  {
    var v := Version(s.size, s.effectiveFrom);
    if HasVersion(rows, v) {
      var r := DayZeroBand(rows, v);
      assert RowsOf(s)[0].band == s.Bands()[0];
      assert Collide(r, RowsOf(s)[0]);
    }
  }

  /** The table always splits into versions that each tile, whatever is published. */
  lemma PublishKeepsSound(rows: seq<RateRow>, s: Schedule)
    requires Sound(rows) && Tiles(s.Bands()) && AppendAll(rows, RowsOf(s)).Ok?
    ensures AppendAll(rows, RowsOf(s)).value == rows + RowsOf(s)
    ensures Sound(rows + RowsOf(s))
  {
    var added := RowsOf(s);
    AppendAllAppends(rows, added);
    OkMeansNewVersion(rows, s);
    forall v: Version | HasVersion(rows + added, v) ensures Tiles(BandsAt(rows + added, v)) {
      BandsAtAfter(rows, s, v);
      var r :| r in rows + added && VersionOf(r) == v;
      assert v != Version(s.size, s.effectiveFrom) ==> r in rows;
    }
  }

  // ---- The version in force ----

  lemma {:induction false} InForceIsTheLatest(rows: seq<RateRow>, size: Size, asOf: int)
    ensures match InForce(rows, size, asOf)
            case Some(at) => at <= asOf && HasVersion(rows, Version(size, at))
                             && forall v: Version | HasVersion(rows, v) && v.size == size && v.effectiveFrom <= asOf ::
                                  v.effectiveFrom <= at
            case None => forall v: Version | HasVersion(rows, v) && v.size == size :: v.effectiveFrom > asOf
  {
    if rows != [] {
      var init, last := rows[..|rows| - 1], rows[|rows| - 1];
      assert rows == init + [last];
      InForceIsTheLatest(init, size, asOf);
      forall v: Version ensures HasVersion(rows, v) <==> HasVersion(init, v) || v == VersionOf(last) {
        if HasVersion(rows, v) {
          var r :| r in rows && VersionOf(r) == v;
          assert r in init || r == last;
        }
      }
    }
  }

  /** With a sound table, a stay can be priced exactly when some version of its size was in force
      when it began, and then it costs what that one version posts for each started day. */
  lemma PricedExactlyFromTheFirstVersionOn(rows: seq<RateRow>, size: Size, storedAt: int, retrievedAt: int)
    requires Sound(rows)
    ensures Quote(rows, size, storedAt, retrievedAt).Ok?
       <==> exists v: Version :: HasVersion(rows, v) && v.size == size && v.effectiveFrom <= storedAt
    ensures Quote(rows, size, storedAt, retrievedAt).Ok? ==>
              var bands := FindBandsFor(rows, size, storedAt);
              && Tiles(bands)
              && Quote(rows, size, storedAt, retrievedAt)
                 == Ok(SumOfDailyRates(bands, ChargeableDays(storedAt, retrievedAt)))
              && Quote(rows, size, storedAt, retrievedAt).value >= 0
  {
    InForceIsTheLatest(rows, size, storedAt);
    var at := InForce(rows, size, storedAt);
    if at.Some? {
      assert HasVersion(rows, Version(size, at.value));
      TilingFee(BandsAt(rows, Version(size, at.value)), storedAt, retrievedAt);
      FeeNeverFalls(BandsAt(rows, Version(size, at.value)), storedAt, retrievedAt, retrievedAt);
    }
  }

  lemma {:induction false} InForceIgnoresTheFuture(rows: seq<RateRow>, added: seq<RateRow>, size: Size, asOf: int)
    requires forall r | r in added :: r.effectiveFrom > asOf
    ensures InForce(rows + added, size, asOf) == InForce(rows, size, asOf)
  {
    if added == [] {
      assert rows + added == rows;
    } else {
      var n := |added| - 1;
      assert (rows + added)[..|rows + added| - 1] == rows + added[..n];
      assert added[n] in added;
      InForceIgnoresTheFuture(rows, added[..n], size, asOf);
    }
  }

  /** Rows that take effect later never change what was in force earlier. */
  lemma LaterRowsLeaveThePastAlone(rows: seq<RateRow>, added: seq<RateRow>, size: Size, asOf: int)
    requires forall r | r in added :: r.effectiveFrom > asOf
    ensures FindBandsFor(rows + added, size, asOf) == FindBandsFor(rows, size, asOf)
  {
    InForceIgnoresTheFuture(rows, added, size, asOf);
    InForceIsTheLatest(rows, size, asOf);
    var at := InForce(rows, size, asOf);
    if at.Some? {
      SelectAppends(rows, added, Version(size, at.value));
      SelectNone(added, Version(size, at.value));
      assert Select(rows + added, Version(size, at.value)) == Select(rows, Version(size, at.value));
    }
  }

  /** The same clamped or not: a clock behind `storedAt` prices like `storedAt` itself. */
  lemma QuoteOfClamped(rows: seq<RateRow>, size: Size, storedAt: int, reading: int)
    ensures Quote(rows, size, storedAt, reading)
         == Quote(rows, size, storedAt, if reading < storedAt then storedAt else reading)
  {
  }

  // ---- Listing ----

  /** `size_code ASC` is alphabetical: LARGE, MEDIUM, SMALL. */
  function Alphabetical(s: Size): int {
    match s
    case Large => 0
    case Medium => 1
    case Small => 2
  }

  predicate ListedBefore(a: Version, b: Version) {
    a.effectiveFrom > b.effectiveFrom
    || (a.effectiveFrom == b.effectiveFrom && Alphabetical(a.size) < Alphabetical(b.size))
  }

  /** `ORDER BY effective_from DESC, size_code ASC, from_day ASC`. */
  predicate ListingOrder(a: RateRow, b: RateRow) {
    ListedBefore(VersionOf(a), VersionOf(b)) || (VersionOf(a) == VersionOf(b) && a.band.fromDay <= b.band.fromDay)
  }

  function Where(rows: seq<RateRow>, size: Option<Size>): seq<RateRow> {
    if rows == [] then []
    else
      var last := rows[|rows| - 1];
      Where(rows[..|rows| - 1], size) + if size.None? || size.value == last.size then [last] else []
  }

  function ToSchedule(group: seq<RateRow>): Schedule
    requires group != []
  {
    Schedule(group[0].size, group[0].effectiveFrom,
             seq(|group|, i requires 0 <= i < |group| => Entry(group[i].id, group[i].band)),
             group[0].createdAt, group[0].updatedAt)
  }

  function VersionsOf(versions: seq<Schedule>): seq<Version> {
    seq(|versions|, i requires 0 <= i < |versions| => Version(versions[i].size, versions[i].effectiveFrom))
  }

  /** The groups of `rows` under `keys`, one after the other. */
  function JoinGroups(rows: seq<RateRow>, keys: seq<Version>): seq<RateRow> {
    if keys == [] then [] else JoinGroups(rows, keys[..|keys| - 1]) + Select(rows, keys[|keys| - 1])
  }

  lemma SortedListing(rows: seq<RateRow>)
    ensures Orders(ListingOrder, rows, Sort(ListingOrder, rows))
  {
    assert TotalPreorder(ListingOrder);
    SortOrders(ListingOrder, rows);
  }

  lemma {:induction false} OtherGroupsUntouched(rows: seq<RateRow>, row: RateRow, keys: seq<Version>)
    requires VersionOf(row) !in keys
    ensures JoinGroups(rows + [row], keys) == JoinGroups(rows, keys)
  {
    if keys != [] {
      var n := |keys| - 1;
      OtherGroupsUntouched(rows, row, keys[..n]);
      assert (rows + [row])[..|rows|] == rows;
    }
  }

  /** The listing as a whole: one schedule per version, newest first, and nothing but the rows. */
  ghost predicate Listed(sorted: seq<RateRow>, versions: seq<Schedule>) {
    && Grouped(sorted, VersionsOf(versions))
    && forall i | 0 <= i < |versions| ::
         var group := Select(sorted, VersionsOf(versions)[i]);
         group != [] && versions[i] == ToSchedule(group)
  }

  /** `keys` are the versions among `rows`, in listing order, and their groups make up `rows`. */
  ghost predicate Grouped(rows: seq<RateRow>, keys: seq<Version>) {
    && JoinGroups(rows, keys) == rows
    && (forall a, b | 0 <= a < b < |keys| :: ListedBefore(keys[a], keys[b]))
    && (forall i | 0 <= i < |keys| :: Select(rows, keys[i]) != [])
    && (rows == [] <==> keys == [])
    && (rows != [] ==> keys[|keys| - 1] == VersionOf(rows[|rows| - 1]))
  }

  lemma OneMoreRow(rows: seq<RateRow>, row: RateRow)
    ensures forall v :: Select(rows + [row], v) == Select(rows, v) + if v == VersionOf(row) then [row] else []
  {
  }

  /** Row `i` belongs to the version of the row before it, or opens one not seen before. */
  ghost predicate Adjacent(rows: seq<RateRow>, i: int)
    requires 0 < i < |rows|
  {
    VersionOf(rows[i - 1]) == VersionOf(rows[i])
    || (ListedBefore(VersionOf(rows[i - 1]), VersionOf(rows[i])) && Select(rows[..i], VersionOf(rows[i])) == [])
  }

  ghost predicate InRuns(rows: seq<RateRow>) {
    forall i | 0 < i < |rows| :: Adjacent(rows, i)
  }

  lemma Between(a: RateRow, b: RateRow, c: RateRow)
    requires ListingOrder(a, b) && ListingOrder(b, c) && VersionOf(a) == VersionOf(c)
    ensures VersionOf(b) == VersionOf(c)
  {
  }

  lemma SortedIsAdjacent(sorted: seq<RateRow>, i: nat)
    requires Sorted(ListingOrder, sorted) && 0 < i < |sorted|
    ensures Adjacent(sorted, i)
  {
    assert ListingOrder(sorted[i - 1], sorted[i]);
    SelectSelects(sorted[..i], VersionOf(sorted[i]));
    if Select(sorted[..i], VersionOf(sorted[i])) != [] {
      var r :| r in sorted[..i] && VersionOf(r) == VersionOf(sorted[i]);
      var j :| 0 <= j < i && sorted[j] == r;
      if j < i - 1 {
        Between(sorted[j], sorted[i - 1], sorted[i]);
      }
    }
  }

  /** In listing order the rows of a version are together. */
  lemma SortedInRuns(rows: seq<RateRow>)
    ensures InRuns(Sort(ListingOrder, rows))
  {
    SortedListing(rows);
    var sorted := Sort(ListingOrder, rows);
    forall i | 0 < i < |sorted| ensures Adjacent(sorted, i) {
      SortedIsAdjacent(sorted, i);
    }
  }

  lemma ExtendsLast(rows: seq<RateRow>, row: RateRow, keys: seq<Version>)
    requires Grouped(rows, keys) && rows != [] && VersionOf(rows[|rows| - 1]) == VersionOf(row)
    ensures Grouped(rows + [row], keys) && VersionOf(row) in keys
  {
    OneMoreRow(rows, row);
    var n := |keys| - 1;
    assert keys[n] !in keys[..n];
    OtherGroupsUntouched(rows, row, keys[..n]);
  }

  lemma {:induction false} JoinsOneMore(rows: seq<RateRow>, row: RateRow, keys: seq<Version>)
    requires JoinGroups(rows, keys) == rows && Select(rows, VersionOf(row)) == [] && VersionOf(row) !in keys
    ensures JoinGroups(rows + [row], keys + [VersionOf(row)]) == rows + [row]
  {
    OneMoreRow(rows, row);
    OtherGroupsUntouched(rows, row, keys);
    assert (keys + [VersionOf(row)])[..|keys|] == keys;
  }

  lemma LastKeyBounds(keys: seq<Version>, key: Version)
    requires forall a, b | 0 <= a < b < |keys| :: ListedBefore(keys[a], keys[b])
    requires keys != [] && ListedBefore(keys[|keys| - 1], key)
    ensures forall a, b | 0 <= a < b < |keys + [key]| :: ListedBefore((keys + [key])[a], (keys + [key])[b])
  {
  }

  lemma OpensNext(rows: seq<RateRow>, row: RateRow, keys: seq<Version>)
    requires Grouped(rows, keys) && Select(rows, VersionOf(row)) == []
    requires rows != [] ==> ListedBefore(VersionOf(rows[|rows| - 1]), VersionOf(row))
    ensures Grouped(rows + [row], keys + [VersionOf(row)]) && VersionOf(row) !in keys
  {
    hide JoinGroups;
    OneMoreRow(rows, row);
    if keys != [] {
      LastKeyBounds(keys, VersionOf(row));
    }
    JoinsOneMore(rows, row, keys);
  }

  /** One more row either extends the last group or opens the next. */
  lemma GroupStep(sorted: seq<RateRow>, i: nat, keys: seq<Version>)
    requires i < |sorted| && InRuns(sorted) && Grouped(sorted[..i], keys)
    ensures var key := VersionOf(sorted[i]);
            && Grouped(sorted[..i + 1], if key in keys then keys else keys + [key])
            && (key !in keys ==> Select(sorted[..i], key) == [])
  {
    var rows, row := sorted[..i], sorted[i];
    assert sorted[..i + 1] == rows + [row];
    OneMoreRow(rows, row);
    assert i > 0 ==> Adjacent(sorted, i);
    if i > 0 && VersionOf(sorted[i - 1]) == VersionOf(row) {
      ExtendsLast(rows, row, keys);
    } else {
      OpensNext(rows, row, keys);
    }
  }

  /** The map holds each key's group so far, and nothing else. */
  ghost predicate Holds(groups: map<Version, seq<RateRow>>, keys: seq<Version>, rows: seq<RateRow>) {
    && (forall k :: k in groups <==> k in keys)
    && (forall k | k in groups :: groups[k] == Select(rows, k))
  }

  lemma MapStep(groups: map<Version, seq<RateRow>>, sorted: seq<RateRow>, i: nat, keys: seq<Version>)
    requires i < |sorted| && Holds(groups, keys, sorted[..i])
    requires VersionOf(sorted[i]) in keys || Select(sorted[..i], VersionOf(sorted[i])) == []
    ensures var key := VersionOf(sorted[i]);
            Holds(groups[key := (if key in groups then groups[key] else []) + [sorted[i]]],
                  if key in keys then keys else keys + [key], sorted[..i + 1])
  {
    assert sorted[..i + 1] == sorted[..i] + [sorted[i]];
    OneMoreRow(sorted[..i], sorted[i]);
  }

  /** One schedule per key, built from its group. */
  function Schedules(groups: map<Version, seq<RateRow>>, keys: seq<Version>): (versions: seq<Schedule>)
    requires forall k | k in keys :: k in groups && groups[k] != [] && VersionOf(groups[k][0]) == k
    ensures VersionsOf(versions) == keys
    ensures forall i | 0 <= i < |keys| :: versions[i] == ToSchedule(groups[keys[i]])
  {
    var versions := seq(|keys|, i requires 0 <= i < |keys| => ToSchedule(groups[keys[i]]));
    assert forall i | 0 <= i < |keys| :: keys[i] in keys && VersionOf(groups[keys[i]][0]) == keys[i];
    assert VersionsOf(versions) == keys;
    versions
  }

  // ---- A published schedule reads back as it was ----

  lemma {:induction false} SelectCounts(rows: seq<RateRow>, v: Version, r: RateRow)
    ensures multiset(Select(rows, v))[r] == if VersionOf(r) == v then multiset(rows)[r] else 0
  {
    if rows != [] {
      var n := |rows| - 1;
      SelectCounts(rows[..n], v, r);
      assert rows == rows[..n] + [rows[n]];
    }
  }

  lemma {:induction false} SelectKeepsOrder(rows: seq<RateRow>, v: Version)
    requires Sorted(ListingOrder, rows)
    ensures Sorted(ListingOrder, Select(rows, v))
  {
    if rows != [] {
      var n := |rows| - 1;
      SelectKeepsOrder(rows[..n], v);
      SelectSelects(rows[..n], v);
      var init := Select(rows[..n], v);
      forall i | 0 <= i < |init| ensures ListingOrder(init[i], rows[n]) {
        assert init[i] in init;
        var j :| 0 <= j < n && rows[j] == init[i];
      }
    }
  }

  lemma SortedGroup(rows: seq<RateRow>, v: Version)
    ensures var group := Select(Sort(ListingOrder, rows), v);
            multiset(group) == multiset(Select(rows, v)) && Sorted(ListingOrder, group)
  {
    SortedListing(rows);
    var group := Select(Sort(ListingOrder, rows), v);
    forall r ensures multiset(group)[r] == multiset(Select(rows, v))[r] {
      SelectCounts(Sort(ListingOrder, rows), v, r);
      SelectCounts(rows, v, r);
    }
    SelectKeepsOrder(Sort(ListingOrder, rows), v);
  }

  lemma RowsOfAscend(s: Schedule)
    requires Tiles(s.Bands())
    ensures Sorted(ListingOrder, RowsOf(s))
    ensures forall a, b | a in RowsOf(s) && b in RowsOf(s) && ListingOrder(a, b) && ListingOrder(b, a) :: a == b
  {
    var rows := RowsOf(s);
    forall i, j | 0 <= i < j < |rows| ensures rows[i].band.fromDay < rows[j].band.fromDay {
      TilesAscend(s.Bands(), i, j);
    }
    forall a, b | a in rows && b in rows && ListingOrder(a, b) && ListingOrder(b, a) ensures a == b {
      var i :| 0 <= i < |rows| && rows[i] == a;
      var j :| 0 <= j < |rows| && rows[j] == b;
      assert i == j;
    }
  }

  lemma GroupPublished(rows: seq<RateRow>, s: Schedule)
    requires !HasVersion(rows, Version(s.size, s.effectiveFrom))
    ensures Select(rows + RowsOf(s), Version(s.size, s.effectiveFrom)) == RowsOf(s)
  {
    var v := Version(s.size, s.effectiveFrom);
    SelectAppends(rows, RowsOf(s), v);
    SelectSelects(rows, v);
    SelectAll(RowsOf(s), v);
  }

  lemma RowsMakeTheSchedule(s: Schedule)
    requires Tiles(s.Bands())
    ensures RowsOf(s) != [] && ToSchedule(RowsOf(s)) == s
  {
  }

  lemma {:induction false} WhereKeepsGroups(rows: seq<RateRow>, size: Option<Size>, v: Version)
    requires size.None? || size.value == v.size
    ensures Select(Where(rows, size), v) == Select(rows, v)
  {
    if rows != [] {
      var n := |rows| - 1;
      WhereKeepsGroups(rows[..n], size, v);
      var kept := Where(rows[..n], size);
      assert Where(rows, size) != kept ==> Where(rows, size)[..|kept|] == kept;
    }
  }

  lemma {:induction false} JoinedRowHasItsKey(rows: seq<RateRow>, keys: seq<Version>, r: RateRow)
    requires r in JoinGroups(rows, keys)
    ensures VersionOf(r) in keys
  {
    var n := |keys| - 1;
    SelectSelects(rows, keys[n]);
    if r in JoinGroups(rows, keys[..n]) {
      JoinedRowHasItsKey(rows, keys[..n], r);
    }
  }

  /** Once committed, a version is in every listing that covers its size, with exactly its
      entries, in order, and its stamps. */
  lemma {:induction false} PublishedReadsBack(rows: seq<RateRow>, s: Schedule, size: Option<Size>, versions: seq<Schedule>)
    requires Sound(rows) && Tiles(s.Bands()) && AppendAll(rows, RowsOf(s)).Ok?
    requires size.None? || size.value == s.size
    requires Listed(Sort(ListingOrder, Where(AppendAll(rows, RowsOf(s)).value, size)), versions)
    ensures s in versions
  {
    var v, after := Version(s.size, s.effectiveFrom), rows + RowsOf(s);
    PublishKeepsSound(rows, s);
    OkMeansNewVersion(rows, s);
    GroupPublished(rows, s);
    WhereKeepsGroups(after, size, v);
    var sorted := Sort(ListingOrder, Where(after, size));
    SortedGroup(Where(after, size), v);
    RowsOfAscend(s);
    OrderIsUnique(ListingOrder, RowsOf(s), Select(sorted, v));
    RowsMakeTheSchedule(s);
    SelectSelects(sorted, v);
    var r := Select(sorted, v)[0];
    assert r in Select(sorted, v);
    JoinedRowHasItsKey(sorted, VersionsOf(versions), r);
    var i :| 0 <= i < |versions| && VersionsOf(versions)[i] == v;
    assert versions[i] == s;
  }
}
