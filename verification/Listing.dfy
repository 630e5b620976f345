/** Ordered, paged listings (mysql-package-listing.repository.ts, mysql-locker.repository.ts,
    page.ts). */
module Listing {
  import opened Common
  import opened Ordering

  /** What a column holds: nothing, or a value placed by its type's order (for text, the
      column's collation). */
  datatype Cell = Null | At(place: real)

  datatype Row = Row(
    id: Id, idCell: Cell,
    registeredAt: Cell, storedAt: Cell, retrievedAt: Cell,   // packages
    code: Cell, createdAt: Cell,                             // lockers
    station: Cell)                                           // both

  datatype Field = ById | ByRegisteredAt | ByStoredAt | ByRetrievedAt | ByCode | ByCreatedAt | ByStation

  datatype Column = Column(field: Field, descending: bool)

  function CellOf(f: Field, r: Row): Cell {
    match f
    case ById => r.idCell
    case ByRegisteredAt => r.registeredAt
    case ByStoredAt => r.storedAt
    case ByRetrievedAt => r.retrievedAt
    case ByCode => r.code
    case ByCreatedAt => r.createdAt
    case ByStation => r.station
  }

  /** NULL sorts first ascending, last descending. */
  predicate Below(a: Cell, b: Cell) {
    b.At? && (a.Null? || a.place < b.place)
  }

  predicate Earlier(c: Column, x: Row, y: Row) {
    if c.descending then Below(CellOf(c.field, y), CellOf(c.field, x))
    else Below(CellOf(c.field, x), CellOf(c.field, y))
  }

  /** Strictly before: by the first column that tells the two rows apart. */
  predicate Before(columns: seq<Column>, x: Row, y: Row) {
    columns != [] && (Earlier(columns[0], x, y) || (!Earlier(columns[0], y, x) && Before(columns[1..], x, y)))
  }

  function NotAfter(columns: seq<Column>): (Row, Row) -> bool {
    (x, y) => !Before(columns, y, x)
  }

  // ---- The `ORDER BY` of each listing ----

  /** `ORDER BY` of the package listing, for `field` one of its four sort fields. */
  method PackageOrderBy(field: Field, descending: bool) returns (columns: seq<Column>)
    requires field in {ByRegisteredAt, ByStoredAt, ByRetrievedAt, ByStation}
    ensures columns != [] && columns[0] == Column(field, descending)
    ensures columns[|columns| - 1] == Column(ById, false)
    ensures forall i | 1 <= i < |columns| - 1 :: columns[i] == Column(ByRegisteredAt, true)
    ensures field != ByRegisteredAt ==> Column(ByRegisteredAt, true) in columns
  {
    columns := [Column(field, descending)];
    if field != ByRegisteredAt {
      columns := columns + [Column(ByRegisteredAt, true)];
    }
    columns := columns + [Column(ById, false)];
  }

  /** `ORDER BY` of the locker listing, for `field` one of its three sort fields. */
  method LockerOrderBy(field: Field, descending: bool) returns (columns: seq<Column>)
    requires field in {ByCode, ByCreatedAt, ByStation}
    ensures columns != [] && columns[0] == Column(field, descending)
    ensures columns[|columns| - 1] == Column(ById, false)
    ensures forall i | 1 <= i < |columns| - 1 :: columns[i] == Column(ByCode, false)
    ensures field != ByCode ==> Column(ByCode, false) in columns
  {
    columns := [Column(field, descending)];
    if field != ByCode {
      columns := columns + [Column(ByCode, false)];
    }
    columns := columns + [Column(ById, false)];
  }

  lemma {:induction false} BeforeIsAsymmetric(columns: seq<Column>, x: Row, y: Row)
    ensures !(Before(columns, x, y) && Before(columns, y, x))
  {
    if columns != [] {
      BeforeIsAsymmetric(columns[1..], x, y);
    }
  }

  lemma {:induction false} BeforeIsTransitive(columns: seq<Column>, x: Row, y: Row, z: Row)
    requires !Before(columns, y, x) && !Before(columns, z, y)
    ensures !Before(columns, z, x)
  {
    if columns != [] {
      if !Earlier(columns[0], x, y) && !Earlier(columns[0], y, z) {
        BeforeIsTransitive(columns[1..], x, y, z);
      }
    }
  }

  lemma NotAfterIsTotal(columns: seq<Column>)
    ensures TotalPreorder(NotAfter(columns))
  {
    var leq := NotAfter(columns);
    forall x, y ensures leq(x, y) || leq(y, x) {
      BeforeIsAsymmetric(columns, x, y);
    }
    forall x, y, z | leq(x, y) && leq(y, z) ensures leq(x, z) {
      BeforeIsTransitive(columns, x, y, z);
    }
  }

  /** Distinct ids, told apart by the order of the id column. */
  ghost predicate DistinctIds(rows: seq<Row>) {
    && (forall r | r in rows :: r.idCell.At?)
    && (forall x, y | x in rows && y in rows && x.idCell == y.idCell :: x == y)
  }

  lemma {:induction false} IdBreaksTies(columns: seq<Column>, x: Row, y: Row)
    requires columns != [] && columns[|columns| - 1] == Column(ById, false)
    requires x.idCell.At? && y.idCell.At? && x.idCell != y.idCell
    ensures Before(columns, x, y) || Before(columns, y, x)
  {
    if |columns| > 1 {
      IdBreaksTies(columns[1..], x, y);
    }
  }

  /** A parcel with no instant comes before any with one going up, after it going down; two with
      one follow their instants. */
  lemma InstantsSortNullsFirst(x: Row, y: Row, tiebreakers: seq<Column>)
    ensures x.storedAt.Null? && y.storedAt.At? ==>
              Before([Column(ByStoredAt, false)] + tiebreakers, x, y) && Before([Column(ByStoredAt, true)] + tiebreakers, y, x)
    ensures x.storedAt.At? && y.storedAt.At? && x.storedAt.place < y.storedAt.place ==>
              Before([Column(ByStoredAt, false)] + tiebreakers, x, y) && Before([Column(ByStoredAt, true)] + tiebreakers, y, x)
    ensures x.retrievedAt.Null? && y.retrievedAt.At? ==>
              Before([Column(ByRetrievedAt, false)] + tiebreakers, x, y) && Before([Column(ByRetrievedAt, true)] + tiebreakers, y, x)
    ensures x.retrievedAt.At? && y.retrievedAt.At? && x.retrievedAt.place < y.retrievedAt.place ==>
              Before([Column(ByRetrievedAt, false)] + tiebreakers, x, y) && Before([Column(ByRetrievedAt, true)] + tiebreakers, y, x)
  {
  }

  /** With the id as last column no two rows tie, nulls and all: whatever order a query answers
      in, it is this one. */
  lemma {:induction false} ListingOrderIsTotal(columns: seq<Column>, rows: seq<Row>, result: seq<Row>)
    requires columns != [] && columns[|columns| - 1] == Column(ById, false) && DistinctIds(rows)
    requires Orders(NotAfter(columns), rows, result)
    ensures result == Sort(NotAfter(columns), rows)
    ensures forall x, y | x in rows && y in rows && x != y :: Before(columns, x, y) <==> !Before(columns, y, x)
  {
    var leq := NotAfter(columns);
    NotAfterIsTotal(columns);
    SortOrders(leq, rows);
    SameElements(rows, result);
    forall x, y | x in rows && y in rows && x != y ensures Before(columns, x, y) <==> !Before(columns, y, x) {
      BeforeIsAsymmetric(columns, x, y);
      IdBreaksTies(columns, x, y);
    }
    OrderIsUnique(leq, result, Sort(leq, rows));
  }

  // ---- Pages ----

  /** A number off a query string: absent, NaN or infinite, or finite. */
  datatype Requested = Missing | NotFinite | Finite(x: real)

  datatype PageRequest = PageRequest(limit: int, offset: int)

  const DEFAULT_PAGE_LIMIT := 50
  const MAX_PAGE_LIMIT := 200

  function Trunc(x: real): int {
    if x >= 0.0 then x.Floor else -((-x).Floor)
  }

  function WholeOr(v: Requested, fallback: int): int {
    if v.Finite? then Trunc(v.x) else fallback
  }

  function ResolvePageRequest(limit: Requested, offset: Requested): (p: PageRequest)
    ensures 1 <= p.limit <= MAX_PAGE_LIMIT && 0 <= p.offset
    ensures limit.Finite? && 1.0 <= limit.x <= MAX_PAGE_LIMIT as real ==> p.limit as real <= limit.x < p.limit as real + 1.0
    ensures limit.Finite? && limit.x < 1.0 ==> p.limit == 1
    ensures limit.Finite? && MAX_PAGE_LIMIT as real < limit.x ==> p.limit == MAX_PAGE_LIMIT
    ensures offset.Finite? && 0.0 <= offset.x ==> p.offset as real <= offset.x < p.offset as real + 1.0
    ensures offset.Finite? && offset.x < 0.0 ==> p.offset == 0
    ensures !limit.Finite? ==> p.limit == DEFAULT_PAGE_LIMIT
    ensures !offset.Finite? ==> p.offset == 0
  {
    var l := WholeOr(limit, DEFAULT_PAGE_LIMIT);
    var o := WholeOr(offset, 0);
    PageRequest(if l < 1 then 1 else if l > MAX_PAGE_LIMIT then MAX_PAGE_LIMIT else l, if o < 0 then 0 else o)
  }

  function Min(a: int, b: int): int {
    if a < b then a else b
  }

  /** `LIMIT :limit OFFSET :offset`. */
  function Window(result: seq<Row>, p: PageRequest): seq<Row>
    requires 0 <= p.limit && 0 <= p.offset
  {
    result[Min(p.offset, |result|)..Min(p.offset + p.limit, |result|)]
  }

  /** The pages at offsets 0, limit, 2 * limit and so on, each cut from its own query's answer. */
  function Pages(answers: seq<seq<Row>>, limit: int): seq<Row>
    requires 1 <= limit
  {
    if answers == [] then []
    else
      var n := |answers| - 1;
      Pages(answers[..n], limit) + Window(answers[n], PageRequest(limit, Offset(n, limit)))
  }

  function Offset(n: nat, limit: int): (offset: int)
    requires 1 <= limit
    ensures 0 <= offset
  {
    if n == 0 then 0 else Offset(n - 1, limit) + limit
  }

  lemma {:induction false} OffsetIs(n: nat, limit: int)
    requires 1 <= limit
    ensures Offset(n, limit) == n * limit
  {
    if n > 0 {
      OffsetIs(n - 1, limit);
    }
  }

  lemma {:induction false} PagesOfOneAnswer(answers: seq<seq<Row>>, all: seq<Row>, limit: int)
    requires 1 <= limit && forall i | 0 <= i < |answers| :: answers[i] == all
    ensures Pages(answers, limit) == all[..Min(Offset(|answers|, limit), |all|)]
  {
    if answers != [] {
      var n := |answers| - 1;
      var m := Offset(n, limit);
      PagesOfOneAnswer(answers[..n], all, limit);
      NextPage(all, m, limit);
      assert Pages(answers, limit) == all[..Min(m, |all|)] + Window(all, PageRequest(limit, m));
    }
  }

  lemma NextPage(all: seq<Row>, offset: nat, limit: int)
    requires 1 <= limit
    ensures all[..Min(offset, |all|)] + Window(all, PageRequest(limit, offset)) == all[..Min(offset + limit, |all|)]
  {
  }

  /**
   * Queries that tie-break by id page soundly: however each query happens to sort, successive
   * pages put together are the whole listing in order, each matching row exactly once.
   */
  lemma PagesCoverEachRowOnce(columns: seq<Column>, rows: seq<Row>, answers: seq<seq<Row>>, limit: int)
    requires columns != [] && columns[|columns| - 1] == Column(ById, false) && DistinctIds(rows)
    requires 1 <= limit && |rows| <= |answers| * limit
    requires forall i | 0 <= i < |answers| :: Orders(NotAfter(columns), rows, answers[i])
    ensures Pages(answers, limit) == Sort(NotAfter(columns), rows)
    ensures multiset(Pages(answers, limit)) == multiset(rows)
    ensures Sorted(NotAfter(columns), Pages(answers, limit))
  {
    var all := Sort(NotAfter(columns), rows);
    forall i | 0 <= i < |answers| ensures answers[i] == all {
      ListingOrderIsTotal(columns, rows, answers[i]);
    }
    NotAfterIsTotal(columns);
    SortOrders(NotAfter(columns), rows);
    SameElements(rows, all);
    PagesOfOneAnswer(answers, all, limit);
    OffsetIs(|answers|, limit);
    assert all[..|all|] == all;
  }

  /** Without the id column, two honest queries may disagree, and a row is lost and another shown
      twice. */
  lemma TiesLoseRows(x: Row, y: Row)
    requires x != y && !Before([Column(ByStation, false)], x, y) && !Before([Column(ByStation, false)], y, x)
    ensures var order := NotAfter([Column(ByStation, false)]);
            && Orders(order, [x, y], [x, y]) && Orders(order, [x, y], [y, x])
            && Pages([[x, y], [y, x]], 1) == [x, x]
  {
    var one, two := [[x, y]], [[x, y], [y, x]];
    assert two[..1] == one && one[..0] == [];
    assert Pages(one, 1) == [x];
    assert Window([y, x], PageRequest(1, 1)) == [x];
    assert !Before([Column(ByStation, false)], x, x) && !Before([Column(ByStation, false)], y, y) by {
      BeforeIsAsymmetric([Column(ByStation, false)], x, x);
      BeforeIsAsymmetric([Column(ByStation, false)], y, y);
    }
  }
}
