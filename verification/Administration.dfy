/** What registering, operating the bank and publishing prices do, and when they refuse: each said
    of the tables before and after its step. */
module Administration {
  import opened Common
  import opened Packages
  import opened Database
  import opened Protocol
  import opened Safety
  import opened Interleaving
  import opened Runs
  import opened StorageRate
  import opened StorageRateSchedule
  import opened Tilings
  import opened PriceHistory
  import Rates = StorageRateTable

  /** A parcel under a fresh id is REGISTERED for its customer, in its size, now. */
  lemma RegisterRegisters(c: Config, s: State, id: Id, customerId: Id, size: Size)
    requires Enabled(c, s, Register(id, customerId, size))
    ensures var t := s.world.tables;
            Step(c, s, Register(id, customerId, size))
            == if id in t.packages then s
               else s.(world := s.world.(tables := t.(packages :=
                      t.packages[id := PackageRow(customerId, size, Registered, s.world.now)])))
  {
  }

  lemma AddStationOpens(c: Config, s: State, id: Id)
    requires Enabled(c, s, AddStation(id))
    ensures var t := s.world.tables;
            Step(c, s, AddStation(id))
            == if id in t.stations then s
               else s.(world := s.world.(tables := t.(stations := t.stations[id := true])))
  {
  }

  /** Some locker of the station has this code, as far as the column's collation can tell. */
  ghost predicate CodeSeen(c: Config, t: Tables, stationId: Id, code: string) {
    exists l :: l in t.lockers && t.lockers[l].stationId == stationId && c.weight(t.lockers[l].code) == c.weight(code)
  }

  /** A locker is added, in service, exactly at a live station, under a code new there. */
  lemma AddLockerAdds(c: Config, s: State, id: Id, at: Id, code: string, size: Size)
    requires Enabled(c, s, AddLocker(id, at, code, size))
    ensures var t := s.world.tables;
            Step(c, s, AddLocker(id, at, code, size))
            == if at in t.stations && t.stations[at] && !CodeSeen(c, t, at, code) && code != "" && id !in t.lockers then
                 s.(world := s.world.(tables := t.(lockers := t.lockers[id := LockerRow(at, code, size, InService)])))
               else s
  {
    assert CodeSeen(c, s.world.tables, at, code) <==> CodeInUse(c.weight, s.world.tables, at, code);
  }

  /** A live locker takes the code and the status asked for, each if it was; a code must be new at
      its station unless it is the locker's own, letter for letter. */
  lemma EditLockerEdits(c: Config, s: State, id: Id, code: Option<string>, inService: Option<bool>)
    requires Enabled(c, s, EditLocker(id, code, inService))
    ensures var t, s' := s.world.tables, Step(c, s, EditLocker(id, code, inService));
            if id in t.lockers && t.lockers[id].status != Decommissioned
               && (code.Some? ==> code.value != ""
                                  && (code.value == t.lockers[id].code || !CodeSeen(c, t, t.lockers[id].stationId, code.value)))
            then
              && id in s'.world.tables.lockers
              && var l, l' := t.lockers[id], s'.world.tables.lockers[id];
                 && s' == s.(world := s.world.(tables := t.(lockers := t.lockers[id := l'])))
                 && l'.stationId == l.stationId && l'.size == l.size
                 && l'.code == (if code.Some? then code.value else l.code)
                 && (inService == None ==> l'.status == l.status)
                 && (inService == Some(true) ==> l'.status == InService)
                 && (inService == Some(false) ==> l'.status == OutOfService)
            else s' == s
  {
    var t := s.world.tables;
    if id in t.lockers && code.Some? {
      assert CodeSeen(c, t, t.lockers[id].stationId, code.value) <==> CodeInUse(c.weight, t, t.lockers[id].stationId, code.value);
    }
  }

  /** Nobody's parcel lies in the locker. */
  ghost predicate Empty(t: Tables, l: Id) {
    forall a | a in t.assignments && t.assignments[a].lockerId == l :: t.assignments[a].retrievedAt != None
  }

  /** A live, empty locker is retired, and nothing else about it changes; any other is left alone. */
  lemma RetireLockerRetires(c: Config, s: State, id: Id)
    requires Enabled(c, s, RetireLocker(id))
    ensures var t := s.world.tables;
            Step(c, s, RetireLocker(id))
            == if id in t.lockers && t.lockers[id].status != Decommissioned && Empty(t, id) then
                 var l := t.lockers[id];
                 s.(world := s.world.(tables := t.(lockers :=
                   t.lockers[id := LockerRow(l.stationId, l.code, l.size, Decommissioned)])))
               else s
  {
    assert Empty(s.world.tables, id) <==> !Occupied(s.world.tables, id);
  }

  /** A live station without live lockers is retired; any other is left alone. */
  lemma RetireStationRetires(c: Config, s: State, id: Id)
    requires Enabled(c, s, RetireStation(id))
    ensures var t := s.world.tables;
            Step(c, s, RetireStation(id))
            == if id in t.stations && t.stations[id]
                  && (forall l | l in t.lockers && t.lockers[l].stationId == id :: t.lockers[l].status == Decommissioned) then
                 s.(world := s.world.(tables := t.(stations := t.stations[id := false])))
               else s
  {
  }

  lemma RunsOn(c: Config, s: State, before: seq<Label>, l: Label)
    requires Run(c, s, before) && Enabled(c, Final(c, s, before), l)
    ensures Run(c, s, before + [l]) && Final(c, s, before + [l]) == Step(c, Final(c, s, before), l)
  {
    var ls := before + [l];
    assert ls[..|ls| - 1] == before && ls[|ls| - 1] == l;
  }

  /** Once retired, a locker stays retired with its columns as they were, and never again holds a
      parcel. */
  lemma RetiredForGood(c: Config, s: State, before: seq<Label>, id: Id, more: seq<Label>)
    requires Started(c, s) && Run(c, s, before + [RetireLocker(id)] + more)
    requires Run(c, s, before) && Enabled(c, Final(c, s, before), RetireLocker(id))
    requires var t := Final(c, s, before).world.tables;
             id in t.lockers && t.lockers[id].status != Decommissioned && Empty(t, id)
    ensures var t, t' := Final(c, s, before).world.tables, Final(c, s, before + [RetireLocker(id)] + more).world.tables;
            && id in t'.lockers && t'.lockers[id] == t.lockers[id].(status := Decommissioned)
            && Empty(t', id)
  {
    var retired := before + [RetireLocker(id)];
    RunsOn(c, s, before, RetireLocker(id));
    RetireLockerRetires(c, Final(c, s, before), id);
    hide Step;
    RetirementsHold(c, s, retired, more);
  }

  // ---- Publishing ----

  /** What a version needs to be taken: a future instant its size has no version at, valid bands
      that cover each day once, and rows the table can hold. */
  ghost predicate Publishable(w: World, size: Size, at: int, bands: seq<Band>, ids: seq<Id>) {
    && w.now < at && EachDayOnce(bands)
    && !AnyOf(w.rates, size, at)
    && (forall i | 0 <= i < |bands| :: Rates.FitsColumns(bands[i]))
    && (forall i, j | 0 <= i < j < |ids| :: ids[i] != ids[j])
    && (forall i, r | 0 <= i < |ids| && r in w.rates :: r.id != ids[i])
  }

  /** `kept` are the bands, by first day. */
  ghost predicate ByFirstDay(kept: seq<Band>, bands: seq<Band>) {
    multiset(kept) == multiset(bands) && forall i, j | 0 <= i < j < |kept| :: kept[i].fromDay < kept[j].fromDay
  }

  /** Publishing adds exactly the rows of its version, in order of first day, when it may; otherwise
      the table is left alone. */
  lemma PublishPublishes(c: Config, s: State, size: Size, at: Option<int>, inputs: seq<BandInput>, ids: seq<Id>)
    requires Rates.Sound(s.world.rates) && Enabled(c, s, PublishRates(size, at, inputs, ids))
    ensures var s' := Step(c, s, PublishRates(size, at, inputs, ids));
            && s' == s.(world := s.world.(rates := s'.world.rates))
            && ((exists bands :: Meant(inputs, bands) && at.Some? && Publishable(s.world, size, at.value, bands, ids)) ==>
                  exists kept, added ::
                    && (forall bands | Meant(inputs, bands) :: ByFirstDay(kept, bands))
                    && RowsOfVersion(added, size, at.value, kept, ids, s.world.now)
                    && s'.world.rates == s.world.rates + added
                    && FindsFrom(s'.world.rates, size, at.value, kept))
            && ((forall bands | Meant(inputs, bands) && at.Some? :: !Publishable(s.world, size, at.value, bands, ids)) ==>
                  s' == s)
  {
    var w, l := s.world, PublishRates(size, at, inputs, ids);
    AcceptedExactlyWhenEachDayOnce(at, inputs, w.now);
    if bands :| Meant(inputs, bands) && at.Some? && Publishable(w, size, at.value, bands, ids) {
      PublishesKept(w, size, at, inputs, ids, bands);
    } else {
      PublishesNothing(w, size, at, inputs, ids);
      assert Step(c, s, l) == s;
    }
  }

  /** From its instant on, and until another is published, the size is priced by these bands. */
  ghost predicate FindsFrom(rows: seq<Rates.RateRow>, size: Size, at: int, kept: seq<Band>) {
    forall asOf | at <= asOf && !(exists r :: r in rows && r.size == size && at < r.effectiveFrom <= asOf) ::
      Rates.FindBandsFor(rows, size, asOf) == kept
  }

  lemma PublishesKept(w: World, size: Size, at: Option<int>, inputs: seq<BandInput>, ids: seq<Id>, bands: seq<Band>)
    requires Rates.Sound(w.rates) && |ids| == |inputs|
    requires Meant(inputs, bands) && at.Some? && Publishable(w, size, at.value, bands, ids)
    ensures StorageRateSchedule.Outcome(at, inputs, w.now).Ok?
    ensures var kept := StorageRateSchedule.Outcome(at, inputs, w.now).value;
            && (forall other | Meant(inputs, other) :: ByFirstDay(kept, other))
            && |kept| == |ids|
            && var added := Rates.RowsOf(Versioned(size, at.value, kept, ids, w.now));
               && RowsOfVersion(added, size, at.value, kept, ids, w.now)
               && Published(w.rates, PublishRates(size, at, inputs, ids), w.now) == w.rates + added
               && FindsFrom(w.rates + added, size, at.value, kept)
  {
    AcceptedExactlyWhenEachDayOnce(at, inputs, w.now);
    var kept := StorageRateSchedule.Outcome(at, inputs, w.now).value;
    assert |kept| == |multiset(kept)| == |multiset(bands)| == |bands|;
    var v := Versioned(size, at.value, kept, ids, w.now);
    AcceptedExactlyWhenSomeOrderTiles(at, inputs, w.now);
    assert Tiles(v.Bands());
    KeptIsPublishable(w, v, size, at.value, bands, ids);
    assert !Rates.HasVersion(w.rates, Rates.Version(size, at.value));
    Rates.PublishesExactlyNewVersions(w.rates, v);
    Rates.PublishKeepsSound(w.rates, v);
    forall asOf | at.value <= asOf && !(exists r :: r in w.rates + Rates.RowsOf(v) && r.size == size && at.value < r.effectiveFrom <= asOf)
      ensures Rates.FindBandsFor(w.rates + Rates.RowsOf(v), size, asOf) == kept
    {
      forall r | r in w.rates && r.size == size ensures r.effectiveFrom < at.value || asOf < r.effectiveFrom {
        assert r in w.rates + Rates.RowsOf(v);
      }
      PublishedTakesEffect(w.rates, v, asOf);
    }
  }

  lemma KeptIsPublishable(w: World, v: Schedule, size: Size, at: int, bands: seq<Band>, ids: seq<Id>)
    requires Publishable(w, size, at, bands, ids) && v.Ids() == ids && Tiles(v.Bands()) && multiset(v.Bands()) == multiset(bands)
    ensures Rates.Publishable(w.rates, v)
  {
    forall i | 0 <= i < |v.entries| ensures Rates.FitsColumns(v.entries[i].band) && v.entries[i].id == ids[i] {
      assert v.Bands()[i] == v.entries[i].band && v.Ids()[i] == v.entries[i].id;
      assert v.Bands()[i] in multiset(bands);
      var k :| 0 <= k < |bands| && bands[k] == v.entries[i].band;
    }
  }

  lemma PublishesNothing(w: World, size: Size, at: Option<int>, inputs: seq<BandInput>, ids: seq<Id>)
    requires Rates.Sound(w.rates) && |ids| == |inputs|
    requires forall bands | Meant(inputs, bands) && at.Some? :: !Publishable(w, size, at.value, bands, ids)
    ensures Published(w.rates, PublishRates(size, at, inputs, ids), w.now) == w.rates
  {
    AcceptedExactlyWhenEachDayOnce(at, inputs, w.now);
    if StorageRateSchedule.Outcome(at, inputs, w.now).Ok? {
      var bands :| Meant(inputs, bands) && EachDayOnce(bands);
      var kept := StorageRateSchedule.Outcome(at, inputs, w.now).value;
      assert |kept| == |multiset(kept)| == |multiset(bands)| == |bands|;
      AcceptedExactlyWhenSomeOrderTiles(at, inputs, w.now);
      var v := Versioned(size, at.value, kept, ids, w.now);
      assert Tiles(v.Bands());
      if Rates.AppendAll(w.rates, Rates.RowsOf(v)).Ok? {
        AppendedIsPublishable(w, v, bands);
        Rates.OkMeansNewVersion(w.rates, v);
        assert Publishable(w, size, at.value, bands, ids);
      }
    }
  }

  lemma AppendedIsPublishable(w: World, v: Schedule, bands: seq<Band>)
    requires Rates.Sound(w.rates) && Rates.AppendAll(w.rates, Rates.RowsOf(v)).Ok? && multiset(v.Bands()) == multiset(bands)
    ensures forall i | 0 <= i < |bands| :: Rates.FitsColumns(bands[i])
    ensures forall i, j | 0 <= i < j < |v.Ids()| :: v.Ids()[i] != v.Ids()[j]
    ensures forall i, r | 0 <= i < |v.Ids()| && r in w.rates :: r.id != v.Ids()[i]
  {
    var added := Rates.RowsOf(v);
    Rates.AppendAllAppends(w.rates, added);
    AppendedFits(w.rates, added);
    forall i | 0 <= i < |bands| ensures Rates.FitsColumns(bands[i]) {
      assert bands[i] in multiset(v.Bands());
      var k :| 0 <= k < |v.Bands()| && v.Bands()[k] == bands[i];
      assert added[k].band == bands[i];
    }
    var all := w.rates + added;
    forall i, j | 0 <= i < j < |v.Ids()| ensures v.Ids()[i] != v.Ids()[j] {
      assert !Rates.Collide(all[|w.rates| + i], all[|w.rates| + j]);
    }
    forall i, r | 0 <= i < |v.Ids()| && r in w.rates ensures r.id != v.Ids()[i] {
      var k :| 0 <= k < |w.rates| && w.rates[k] == r;
      assert !Rates.Collide(all[k], all[|w.rates| + i]);
    }
  }

  lemma {:induction false} AppendedFits(rows: seq<Rates.RateRow>, added: seq<Rates.RateRow>)
    requires Rates.AppendAll(rows, added).Ok?
    ensures forall i | 0 <= i < |added| :: Rates.FitsColumns(added[i].band)
    decreases |added|
  {
    if added != [] {
      AppendedFits(rows + [added[0]], added[1..]);
      assert forall i | 0 < i < |added| :: added[i] == added[1..][i - 1];
    }
  }
}
