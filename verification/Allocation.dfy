/** The allocating `SELECT ... ORDER BY size_rank, code LIMIT 1 FOR UPDATE SKIP LOCKED` as one
    walk of its index (mysql-package.repository.ts, 005_locker_size_rank.sql). */
module Allocation {
  import opened Common
  import opened Ordering
  import opened Database

  /** An entry of `ix_locker_allocation`; the equality prefix (station, status) is the key it is
      filed under. */
  datatype Entry = Entry(lockerId: Id, sizeRank: int, code: string)

  type Index = map<(Id, LockerStatus), seq<Entry>>

  function EntryOf(id: Id, l: LockerRow): Entry {
    Entry(id, l.size.Rank(), l.code)
  }

  function Filed(index: Index, stationId: Id, status: LockerStatus): seq<Entry> {
    if (stationId, status) in index then index[(stationId, status)] else []
  }

  predicate Ascends(weight: string -> real, a: Entry, b: Entry) {
    a.sizeRank < b.sizeRank || (a.sizeRank == b.sizeRank && weight(a.code) <= weight(b.code))
  }

  function InIndexOrder(weight: string -> real): (Entry, Entry) -> bool {
    (a, b) => Ascends(weight, a, b)
  }

  /** A file holds just the lockers that belong in it, in index order. */
  ghost predicate FileOk(weight: string -> real, lockers: map<Id, LockerRow>, file: seq<Entry>, station: Id, status: LockerStatus) {
    && (forall e | e in file ::
          e.lockerId in lockers && lockers[e.lockerId].stationId == station && lockers[e.lockerId].status == status
          && e == EntryOf(e.lockerId, lockers[e.lockerId]))
    && (forall l | l in lockers && lockers[l].stationId == station && lockers[l].status == status ::
          EntryOf(l, lockers[l]) in file)
    && Sorted(InIndexOrder(weight), file)
  }

  ghost predicate WellIndexed(weight: string -> real, lockers: map<Id, LockerRow>, index: Index) {
    forall station, status :: FileOk(weight, lockers, Filed(index, station, status), station, status)
  }

  /** Walks to the first entry large enough, free in the snapshot, and not locked. */
  method FirstFit(ghost weight: string -> real, ghost t: Tables, index: Index,
                  shown: set<Id>, locked: set<Id>, stationId: Id, required: Size)
    returns (choice: Option<Id>)
    requires CodesUnique(weight, t) && WellIndexed(weight, t.lockers, index)
    ensures IsAllocation(weight, t, shown, locked, stationId, required, choice)
    ensures forall other | IsAllocation(weight, t, shown, locked, stationId, required, other) :: other == choice
  {
    var file := Filed(index, stationId, InService);
    assert FileOk(weight, t.lockers, file, stationId, InService);
    var i := 0;
    while i < |file|
      invariant 0 <= i <= |file|
      invariant forall j | 0 <= j < i :: !Candidate(t, shown, locked, stationId, required, file[j].lockerId)
    {
      var e := file[i];
      if e.sizeRank >= required.Rank() && e.lockerId !in shown && e.lockerId !in locked {
        FirstIsBest(weight, t, index, shown, locked, stationId, required, i);
        return Some(e.lockerId);
      }
      i := i + 1;
    }
    forall l ensures !Candidate(t, shown, locked, stationId, required, l) {
      if Candidate(t, shown, locked, stationId, required, l) {
        var j := PlaceOf(weight, t, index, l);
      }
    }
    return None;
  }

  lemma PlaceOf(weight: string -> real, t: Tables, index: Index, l: Id) returns (j: int)
    requires WellIndexed(weight, t.lockers, index) && l in t.lockers
    ensures var file := Filed(index, t.lockers[l].stationId, t.lockers[l].status);
            0 <= j < |file| && file[j] == EntryOf(l, t.lockers[l])
  {
    var file := Filed(index, t.lockers[l].stationId, t.lockers[l].status);
    assert FileOk(weight, t.lockers, file, t.lockers[l].stationId, t.lockers[l].status);
    j :| 0 <= j < |file| && file[j] == EntryOf(l, t.lockers[l]);
  }

  lemma FirstIsBest(weight: string -> real, t: Tables, index: Index, shown: set<Id>, locked: set<Id>,
                    stationId: Id, required: Size, i: nat)
    requires CodesUnique(weight, t) && WellIndexed(weight, t.lockers, index)
    requires i < |Filed(index, stationId, InService)|
    requires forall j | 0 <= j < i ::
               !Candidate(t, shown, locked, stationId, required, Filed(index, stationId, InService)[j].lockerId)
    requires var e := Filed(index, stationId, InService)[i];
             e.sizeRank >= required.Rank() && e.lockerId !in shown && e.lockerId !in locked
    ensures IsAllocation(weight, t, shown, locked, stationId, required, Some(Filed(index, stationId, InService)[i].lockerId))
  {
  }

  // ---- There is such an index for every bank ----

  /** Filing one more locker where it belongs. */
  function FileAway(weight: string -> real, index: Index, id: Id, l: LockerRow): Index {
    index[(l.stationId, l.status) := Insert(InIndexOrder(weight), EntryOf(id, l), Filed(index, l.stationId, l.status))]
  }

  lemma FilingSorts(weight: string -> real, file: seq<Entry>, e: Entry)
    requires Sorted(InIndexOrder(weight), file)
    ensures Sorted(InIndexOrder(weight), Insert(InIndexOrder(weight), e, file))
    ensures forall x :: x in Insert(InIndexOrder(weight), e, file) <==> x in file || x == e
  {
    var leq := InIndexOrder(weight);
    assert TotalPreorder(leq);
    InsertSorts(leq, e, file);
    InsertPermutes(leq, e, file);
    SameElements(Insert(leq, e, file), [e] + file);
  }

  lemma FilingKeepsFiles(weight: string -> real, lockers: map<Id, LockerRow>, index: Index, id: Id, l: LockerRow, station: Id, status: LockerStatus)
    requires id !in lockers && FileOk(weight, lockers, Filed(index, station, status), station, status)
    ensures FileOk(weight, lockers[id := l], Filed(FileAway(weight, index, id, l), station, status), station, status)
  {
    if (l.stationId, l.status) == (station, status) {
      FilingSorts(weight, Filed(index, station, status), EntryOf(id, l));
    }
  }

  lemma {:induction false} EveryBankHasAnIndex(weight: string -> real, lockers: map<Id, LockerRow>) returns (index: Index)
    ensures WellIndexed(weight, lockers, index)
    decreases |lockers|
  {
    if lockers == map[] {
      index := map[];
    } else {
      var id :| id in lockers;
      var fewer := lockers - {id};
      assert fewer.Keys == lockers.Keys - {id} && |fewer.Keys| < |lockers.Keys|;
      var before := EveryBankHasAnIndex(weight, fewer);
      index := FileAway(weight, before, id, lockers[id]);
      assert fewer[id := lockers[id]] == lockers;
      forall station, status ensures FileOk(weight, lockers, Filed(index, station, status), station, status) {
        FilingKeepsFiles(weight, fewer, before, id, lockers[id], station, status);
      }
    }
  }
}
