/** The Redis counter two limiters share (attempt-counter.scripts.ts), and what each limiter
    makes of it (redis-pickup-attempt-limiter.ts, redis-pickup-code-reissue-limiter.ts). */
module AttemptCounter {
  import opened Common

  /** A counter as Redis holds it; instants and durations in milliseconds. */
  datatype Entry = Entry(count: nat, expiresAt: Option<int>)

  /** Doors count wrong codes, parcels count codes issued; the key prefixes keep them apart. */
  datatype Key = Door(lockerId: Id) | Parcel(packageId: Id)

  /**
   * A limiter's configuration. `lingers` says what the store does at the one instant a key
   * expires: keep it, with a time to live of 0, for that last millisecond, or have it gone.
   */
  datatype Limit = Limit(cap: int, window: int, lingers: bool) {
    predicate Valid() {
      1 <= cap && 1 <= window
    }
  }

  predicate Alive(lingers: bool, e: Entry, now: int) {
    e.expiresAt.None? || now < e.expiresAt.value || (lingers && now == e.expiresAt.value)
  }

  function Live(lingers: bool, slot: Option<Entry>, now: int): Option<Entry> {
    if slot.Some? && Alive(lingers, slot.value, now) then slot else None
  }

  /** PTTL: -2 for no key, -1 for a key that never expires. */
  function TimeToLive(lingers: bool, slot: Option<Entry>, now: int): int {
    match Live(lingers, slot, now)
    case None => -2
    case Some(e) => if e.expiresAt.None? then -1 else e.expiresAt.value - now
  }

  function CountOf(lingers: bool, slot: Option<Entry>, now: int): nat {
    match Live(lingers, slot, now)
    case None => 0
    case Some(e) => e.count
  }

  /** READ_BLOCK: milliseconds left on the block, 0 while another attempt is let in. */
  function BlockLeft(lim: Limit, slot: Option<Entry>, now: int): int {
    if CountOf(lim.lingers, slot, now) < lim.cap then 0
    else if TimeToLive(lim.lingers, slot, now) <= 0 then 0
    else TimeToLive(lim.lingers, slot, now)
  }

  /** COUNT_FAILURE: one more, and a whole window from now. */
  function Counted(lim: Limit, slot: Option<Entry>, now: int): Option<Entry> {
    if lim.window <= 0 then None
    else Some(Entry(CountOf(lim.lingers, slot, now) + 1, Some(now + lim.window)))
  }

  function Put(entries: map<Key, Entry>, key: Key, slot: Option<Entry>): map<Key, Entry> {
    if slot.None? then entries - {key} else entries[key := slot.value]
  }

  /** The store, one command at a time. Each script runs its commands at one instant. */
  class KeyStore {
    const lingers: bool
    var entries: map<Key, Entry>

    constructor (lingers: bool)
      ensures this.lingers == lingers && entries == map[]
    {
      this.lingers := lingers;
      entries := map[];
    }

    function Slot(key: Key): Option<Entry>
      reads this
    {
      if key in entries then Some(entries[key]) else None
    }

    method Incr(key: Key, now: int)
      modifies this`entries
      ensures entries == old(entries)[key :=
                Entry(CountOf(lingers, old(Slot(key)), now) + 1,
                      match Live(lingers, old(Slot(key)), now) case None => None case Some(e) => e.expiresAt)]
    {
      var live := Live(lingers, Slot(key), now);
      if live.None? {
        entries := entries[key := Entry(1, None)];
      } else {
        entries := entries[key := Entry(live.value.count + 1, live.value.expiresAt)];
      }
    }

    /** Sets a key's time to live; one that is not positive deletes it. */
    method Pexpire(key: Key, ms: int, now: int)
      modifies this`entries
      ensures entries == if Live(lingers, old(Slot(key)), now).None? then old(entries)
                         else if ms <= 0 then old(entries) - {key}
                         else old(entries)[key := Entry(old(entries)[key].count, Some(now + ms))]
    {
      if Live(lingers, Slot(key), now).Some? {
        if ms <= 0 {
          entries := entries - {key};
        } else {
          entries := entries[key := Entry(entries[key].count, Some(now + ms))];
        }
      }
    }

    method Del(key: Key)
      modifies this`entries
      ensures entries == old(entries) - {key}
    {
      entries := entries - {key};
    }

    method ReadBlock(key: Key, cap: int, now: int) returns (ms: int)
      ensures forall window :: ms == BlockLeft(Limit(cap, window, lingers), Slot(key), now)
    {
      var attempts := CountOf(lingers, Slot(key), now);
      if attempts < cap {
        return 0;
      }
      var ttl := TimeToLive(lingers, Slot(key), now);
      if ttl <= 0 {
        return 0;
      }
      return ttl;
    }

    method CountFailure(key: Key, window: int, now: int)
      modifies this`entries
      ensures forall cap :: entries == Put(old(entries), key, Counted(Limit(cap, window, lingers), old(Slot(key)), now))
    {
      Incr(key, now);
      Pexpire(key, window, now);
    }

    /** `check` of either limiter: `None` lets the caller in. */
    method Check(lim: Limit, key: Key, now: int) returns (retryAfterSeconds: Option<int>)
      requires lim.lingers == lingers
      ensures retryAfterSeconds == RetryAfter(BlockLeft(lim, Slot(key), now))
    {
      var ms := ReadBlock(key, lim.cap, now);
      assert lim == Limit(lim.cap, lim.window, lingers);
      if ms <= 0 {
        return None;
      }
      return Some((ms + 999) / 1000);
    }
  }

  /** Whole seconds, rounded up. */
  function RetryAfter(ms: int): Option<int> {
    if ms <= 0 then None else Some((ms + 999) / 1000)
  }

  /** A key that blocks: counted to the cap, with some of its time still to run. */
  predicate Blocked(lim: Limit, slot: Option<Entry>, now: int) {
    slot.Some? && lim.cap <= slot.value.count && slot.value.expiresAt.Some? && now < slot.value.expiresAt.value
  }

  /** `READ_BLOCK` answers the rest of a blocking key's time, and 0 for any other. */
  lemma BlockLeftMeans(lim: Limit, slot: Option<Entry>, now: int)
    ensures BlockLeft(lim, slot, now) == if Blocked(lim, slot, now) then slot.value.expiresAt.value - now else 0
  {
  }

  /** Coming back when told to is always late enough, and less than a second too late. */
  lemma RetryAfterIsEnough(lim: Limit, slot: Option<Entry>, now: int)
    requires RetryAfter(BlockLeft(lim, slot, now)).Some?
    ensures var back := now + 1000 * RetryAfter(BlockLeft(lim, slot, now)).value;
            && BlockLeft(lim, slot, back) == 0
            && BlockLeft(lim, slot, back - 1000) > 0
  {
  }

  /**
   * A count left without an expiry would not lock anyone out: `READ_BLOCK` reads its time to
   * live as -1 and lets the caller in, although the script's comment fears a permanent lockout.
   */
  lemma NoExpiryNoBlock(lim: Limit, e: Entry, now: int)
    requires e.expiresAt.None?
    ensures BlockLeft(lim, Some(e), now) == 0
  {
  }
}
