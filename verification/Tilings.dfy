/** What publishing accepts, said of days rather than of edges or of order. */
module Tilings {
  import opened Common
  import opened Ordering
  import opened StorageRate
  import opened StorageRateSchedule

  /** One of the bands covers `day`, and no other does. */
  ghost predicate CoveredOnce(bands: seq<Band>, day: int) {
    exists k :: 0 <= k < |bands| && Covers(bands[k], day)
                && forall m | 0 <= m < |bands| && Covers(bands[m], day) :: m == k
  }

  ghost predicate EachDayOnce(bands: seq<Band>) {
    forall day: int | 0 <= day :: CoveredOnce(bands, day)
  }

  /** `bands` are what the inputs say, and valid. */
  ghost predicate Meant(inputs: seq<BandInput>, bands: seq<Band>) {
    |bands| == |inputs| && forall i | 0 <= i < |inputs| :: Denotes(inputs[i], bands[i]) && Valid(bands[i])
  }

  lemma NeverTwice(bands: seq<Band>, i: int, j: int, day: int)
    requires EachDayOnce(bands) && 0 <= day && 0 <= i < |bands| && 0 <= j < |bands|
    requires Covers(bands[i], day) && Covers(bands[j], day)
    ensures i == j
  {
    assert CoveredOnce(bands, day);
  }

  lemma DaysMeetTheNextBand(bands: seq<Band>, i: nat)
    requires AllValid(bands) && Sorted(ByFromDay, bands) && EachDayOnce(bands) && i < |bands| - 1
    ensures MeetsNext(bands, i)
  {
    var b, next := bands[i], bands[i + 1];
    assert b in bands && next in bands && ByFromDay(b, next);
    if b.toDay.None? || next.fromDay < b.toDay.value {
      NeverTwice(bands, i, i + 1, next.fromDay);
    } else if b.toDay.value < next.fromDay {
      DayAfterIsCovered(bands, i);
    }
  }

  /** The day a band leaves off at is taken up by a later one. */
  lemma DayAfterIsCovered(bands: seq<Band>, i: nat)
    requires AllValid(bands) && Sorted(ByFromDay, bands) && EachDayOnce(bands) && i < |bands| && bands[i].toDay.Some?
    ensures i + 1 < |bands| && bands[i + 1].fromDay <= bands[i].toDay.value
  {
    var day := bands[i].toDay.value;
    assert bands[i] in bands && CoveredOnce(bands, day);
    var k :| 0 <= k < |bands| && Covers(bands[k], day);
    if k < i {
      assert ByFromDay(bands[k], bands[i]);
      NeverTwice(bands, k, i, bands[i].fromDay);
    }
    assert i + 1 == k || ByFromDay(bands[i + 1], bands[k]);
  }

  /** Sorted valid bands tile exactly when each day from 0 on is covered once. */
  lemma TilesExactlyWhenEachDayOnce(bands: seq<Band>)
    requires AllValid(bands) && Sorted(ByFromDay, bands)
    ensures Tiles(bands) <==> EachDayOnce(bands)
  {
    if Tiles(bands) {
      forall day: int | 0 <= day ensures CoveredOnce(bands, day) {
        TilingCoversEachDayOnce(bands, day);
      }
    }
    if EachDayOnce(bands) {
      assert CoveredOnce(bands, 0);
      var k :| 0 <= k < |bands| && Covers(bands[k], 0);
      assert bands[0] in bands && (k == 0 || ByFromDay(bands[0], bands[k]));
      forall i | 0 <= i < |bands| - 1 ensures MeetsNext(bands, i) {
        DaysMeetTheNextBand(bands, i);
      }
      if bands[|bands| - 1].toDay.Some? {
        DayAfterIsCovered(bands, |bands| - 1);
      }
    }
  }

  // ---- Order does not matter ----

  function Covering(day: int): Band -> bool {
    b => Covers(b, day)
  }

  /** How many of the bands are in `p`. */
  function Count(p: Band -> bool, bands: seq<Band>): nat {
    if bands == [] then 0 else (if p(bands[0]) then 1 else 0) + Count(p, bands[1..])
  }

  lemma {:induction false} CountAt(p: Band -> bool, bands: seq<Band>, i: nat)
    requires i < |bands|
    ensures Count(p, bands) == (if p(bands[i]) then 1 else 0) + Count(p, bands[..i] + bands[i + 1..])
  {
    if i == 0 {
      assert bands[..0] + bands[1..] == bands[1..];
    } else {
      CountAt(p, bands[1..], i - 1);
      var rest := bands[..i] + bands[i + 1..];
      assert rest[0] == bands[0] && rest[1..] == bands[1..][..i - 1] + bands[1..][i..];
    }
  }

  lemma {:induction false} CountPermutes(p: Band -> bool, a: seq<Band>, b: seq<Band>)
    requires multiset(a) == multiset(b)
    ensures Count(p, a) == Count(p, b)
  {
    SameElements(a, b);
    if a != [] {
      assert a[0] in b;
      var i :| 0 <= i < |b| && b[i] == a[0];
      TakeOut(a, b, i);
      CountPermutes(p, a[1..], b[..i] + b[i + 1..]);
      CountAt(p, b, i);
    }
  }

  lemma {:induction false} NoneCounted(p: Band -> bool, bands: seq<Band>)
    ensures Count(p, bands) == 0 <==> forall k | 0 <= k < |bands| :: !p(bands[k])
  {
    if bands != [] {
      NoneCounted(p, bands[1..]);
      assert forall k | 0 < k < |bands| :: bands[k] == bands[1..][k - 1];
    }
  }

  lemma OthersAre(bands: seq<Band>, k: nat)
    requires k < |bands|
    ensures var rest := bands[..k] + bands[k + 1..];
            && (forall m | 0 <= m < k :: rest[m] == bands[m])
            && (forall m | k <= m < |rest| :: rest[m] == bands[m + 1])
  {
  }

  lemma CountedOnce(bands: seq<Band>, day: int)
    ensures CoveredOnce(bands, day) <==> Count(Covering(day), bands) == 1
  {
    var p := Covering(day);
    NoneCounted(p, bands);
    if k :| 0 <= k < |bands| && Covers(bands[k], day) {
      var rest := bands[..k] + bands[k + 1..];
      CountAt(p, bands, k);
      NoneCounted(p, rest);
      OthersAre(bands, k);
      if Count(p, rest) == 0 {
        forall m | 0 <= m < |bands| && m != k ensures !Covers(bands[m], day) {
          var j := if m < k then m else m - 1;
          assert !p(rest[j]);
        }
      } else {
        var m :| 0 <= m < |rest| && p(rest[m]);
        var n := if m < k then m else m + 1;
        assert Covers(bands[n], day) && n != k;
      }
    }
  }

  lemma EachDayOncePermutes(a: seq<Band>, b: seq<Band>)
    requires multiset(a) == multiset(b) && EachDayOnce(a)
    ensures EachDayOnce(b)
  {
    forall day: int | 0 <= day ensures CoveredOnce(b, day) {
      assert CoveredOnce(a, day);
      CountedOnce(a, day);
      CountedOnce(b, day);
      CountPermutes(Covering(day), a, b);
    }
  }

  // ---- Acceptance ----

  lemma MeantIsValidated(inputs: seq<BandInput>)
    ensures Validated(inputs).Some? ==> Meant(inputs, Validated(inputs).value)
    ensures forall bands | Meant(inputs, bands) :: Validated(inputs) == Some(bands)
  {
    if Validated(inputs).Some? {
      var bands := Validated(inputs).value;
      forall i | 0 <= i < |inputs| ensures Denotes(inputs[i], bands[i]) && Valid(bands[i]) {
        assert Of(inputs[i]) == Some(bands[i]);
      }
    }
    forall bands | Meant(inputs, bands) ensures Validated(inputs) == Some(bands) {
      forall i | 0 <= i < |inputs| ensures Of(inputs[i]) == Some(bands[i]) {
      }
      ValidatedAt(inputs, bands);
    }
  }

  /** A version still in the future is accepted exactly when its bands, in whatever order they
      came, are valid and cover each day once; what is kept is those bands by first day. */
  lemma AcceptedExactlyWhenEachDayOnce(effectiveFrom: Option<int>, inputs: seq<BandInput>, now: int)
    ensures Outcome(effectiveFrom, inputs, now).Ok?
       <==> effectiveFrom.Some? && now < effectiveFrom.value && exists bands :: Meant(inputs, bands) && EachDayOnce(bands)
    ensures forall bands | Meant(inputs, bands) && Outcome(effectiveFrom, inputs, now).Ok? ::
              var kept := Outcome(effectiveFrom, inputs, now).value;
              multiset(kept) == multiset(bands) && EachDayOnce(kept)
              && forall i, j | 0 <= i < j < |kept| :: kept[i].fromDay < kept[j].fromDay
  {
    MeantIsValidated(inputs);
    if effectiveFrom.Some? && now < effectiveFrom.value && Validated(inputs).Some? {
      var bands := Validated(inputs).value;
      AcceptedExactlyWhenSomeOrderTiles(effectiveFrom, inputs, now);
      TiledExactlyWhenEachDayOnce(bands);
      if Outcome(effectiveFrom, inputs, now).Ok? {
        var kept := Outcome(effectiveFrom, inputs, now).value;
        EachDayOncePermutes(bands, kept);
        forall i, j | 0 <= i < j < |kept| ensures kept[i].fromDay < kept[j].fromDay {
          TilesAscend(kept, i, j);
        }
      }
    }
  }

  lemma TiledExactlyWhenEachDayOnce(bands: seq<Band>)
    requires AllValid(bands)
    ensures (exists order :: IsTilingOf(bands, order)) <==> EachDayOnce(bands)
  {
    if order :| IsTilingOf(bands, order) {
      TilingIsSorted(order);
      TilesExactlyWhenEachDayOnce(order);
      EachDayOncePermutes(order, bands);
    }
    if EachDayOnce(bands) {
      var sorted := Sort(ByFromDay, bands);
      SortedBands(bands);
      EachDayOncePermutes(bands, sorted);
      TilesExactlyWhenEachDayOnce(sorted);
      assert IsTilingOf(bands, sorted);
    }
  }
}
