/**
 The AI service's response cache: a provider over a bounded store that drops
 entries at a 30-day ceiling and when it is full, and the manager in front of it.
 */
module MemoryCache {
  import opened Outcomes

  const CEILING: int := 2_592_000  // 30 days

  /** An entry with its own expiry and the time the store took it. A value of `None` is Python's null. */
  datatype Slot<V> = Slot(value: Option<V>, expiresAt: int, storedAt: int)

  type Slots<V> = map<string, Slot<V>>

  datatype Cache<V> = Cache(slots: Slots<V>, expired: nat, evicted: nat)

  datatype Limits = Limits(maxEntries: nat, defaultTtl: int)

  /** A call at the provider. `victim` is the entry the store chose to drop, if it had to make room. */
  datatype Op<V> =
    | Lookup(key: string)
    | Set(key: string, value: Option<V>, ttl: Option<int>, victim: string)
    | Delete(key: string)
    | Clear

  datatype Event<V> = Event(now: int, op: Op<V>)

  function AtLeastOne(n: int): int {
    if n < 1 then 1 else n
  }

  function Resolved(ttl: Option<int>, limits: Limits): int {
    if ttl.None? then limits.defaultTtl else AtLeastOne(ttl.value)
  }

  /** What the store still holds at `now`. */
  function Live<V>(slots: Slots<V>, now: int): Slots<V> {
    map key | key in slots && now < slots[key].storedAt + CEILING :: slots[key]
  }

  /** Writing `key` makes the store drop another entry. */
  predicate Displaces<V>(slots: Slots<V>, key: string, now: int, limits: Limits) {
    key !in Live(slots, now) && |Live(slots, now)| >= limits.maxEntries
  }

  predicate Legal<V>(c: Cache<V>, e: Event<V>, limits: Limits) {
    e.op.Set? && Displaces(c.slots, e.op.key, e.now, limits) ==> e.op.victim in Live(c.slots, e.now)
  }

  /** What `get` answers. */
  function Got<V>(c: Cache<V>, key: string, now: int): Option<V> {
    var live := Live(c.slots, now);
    if key in live && now < live[key].expiresAt then live[key].value else None
  }

  function After<V>(c: Cache<V>, e: Event<V>, limits: Limits): Cache<V> {
    var live := Live(c.slots, e.now);
    match e.op
    case Lookup(key) =>
      if key in live && live[key].expiresAt <= e.now then Cache(c.slots - {key}, c.expired + 1, c.evicted) else c
    case Set(key, value, ttl, victim) =>
      var slot := Slot(value, e.now + Resolved(ttl, limits), e.now);
      if Displaces(c.slots, key, e.now, limits)
      then Cache((live - {victim})[key := slot], c.expired, c.evicted + 1)
      else c.(slots := live[key := slot])
    case Delete(key) =>
      if key in live then c.(slots := c.slots - {key}) else c
    case Clear =>
      c.(slots := map[])
  }

  // ---------------------------------------------------------- the provider

  class MemoryCacheProvider<V> {
    var store: Slots<V>
    var expiredCount: nat
    var evictionCount: nat
    const limits: Limits

    constructor (maxEntries: int, defaultTtl: int)
      ensures limits == Limits(if maxEntries < 1 then 1 else maxEntries, if defaultTtl < 1 then 1 else defaultTtl)
      ensures State() == Cache(map[], 0, 0)
    {
      store, expiredCount, evictionCount := map[], 0, 0;
      limits := Limits(AtLeastOne(maxEntries), AtLeastOne(defaultTtl));
    }

    ghost function State(): Cache<V>
      reads this
    {
      Cache(store, expiredCount, evictionCount)
    }

    method Get(key: string, now: int) returns (value: Option<V>)
      modifies this
      ensures value == Got(old(State()), key, now)
      ensures State() == After(old(State()), Event(now, Lookup(key)), limits)
      ensures expiredCount == old(expiredCount) +
        if key in old(store) && old(store)[key].expiresAt <= now < old(store)[key].storedAt + CEILING then 1 else 0
      ensures evictionCount == old(evictionCount)
    {
      var live := Live(store, now);
      if key !in live {
        return None;
      }
      var entry := live[key];
      if now >= entry.expiresAt {
        store := store - {key};
        expiredCount := expiredCount + 1;
        return None;
      }
      return entry.value;
    }

    /** The store's own insertion: expired entries go first, then any one entry if there is still no room. */
    method Insert(key: string, slot: Slot<V>, now: int) returns (ghost victim: string)
      requires limits.maxEntries > 0
      modifies this`store
      ensures
        var live := Live(old(store), now);
        if Displaces(old(store), key, now, limits)
        then victim in live && store == (live - {victim})[key := slot]
        else store == live[key := slot]
    {
      store := Live(store, now);
      victim := key;
      if key !in store && |store| >= limits.maxEntries {
        assert store.Keys != {};
        var dropped :| dropped in store;
        victim := dropped;
        store := store - {dropped};
      }
      store := store[key := slot];
    }

    method Set(key: string, value: Option<V>, ttl: Option<int>, now: int) returns (ghost victim: string)
      requires 0 < limits.maxEntries && |store| <= limits.maxEntries
      modifies this
      ensures |store| <= limits.maxEntries
      ensures
        var e := Event(now, Op.Set(key, value, ttl, victim));
        Legal(old(State()), e, limits) && State() == After(old(State()), e, limits)
      ensures
        var seconds := if ttl.None? then limits.defaultTtl else if ttl.value < 1 then 1 else ttl.value;
        key in store && store[key] == Slot(value, now + seconds, now)
      ensures expiredCount == old(expiredCount)
      ensures
        var live := Live(old(store), now);
        evictionCount == old(evictionCount) + if key !in live && |live| >= limits.maxEntries then 1 else 0
    {
      hide Live;
      var resolved := Resolved(ttl, limits);
      LiveIsSmaller(store, now);
      var before := |Live(store, now)|;
      var willEvict := before >= limits.maxEntries && key !in Live(store, now);
      victim := Insert(key, Slot(value, now + resolved, now), now);
      SizeAfterSet(old(State()), Event(now, Op.Set(key, value, ttl, victim)), limits);
      LiveIsSmaller(store, now);
      if willEvict && |Live(store, now)| <= before {
        evictionCount := evictionCount + 1;
      }
    }

    method Delete(key: string, now: int) returns (removed: bool)
      modifies this
      ensures removed == (key in Live(old(store), now))
      ensures State() == After(old(State()), Event(now, Op.Delete(key)), limits)
    {
      removed := key in Live(store, now);
      if removed {
        store := store - {key};
      }
    }

    method Exists(key: string, now: int) returns (found: bool)
      modifies this
      ensures found == Got(old(State()), key, now).Some?
      ensures State() == After(old(State()), Event(now, Lookup(key)), limits)
    {
      var value := Get(key, now);
      found := value.Some?;
    }

    method Clear(now: int) returns (count: nat)
      modifies this
      ensures count == |Live(old(store), now)|
      ensures State() == After(old(State()), Event(now, Op.Clear), limits)
    {
      count := |Live(store, now)|;
      store := map[];
    }
  }

  lemma LiveIsSmaller<V>(slots: Slots<V>, now: int)
    ensures |Live(slots, now)| <= |slots|
  {
    MapsWithin(Live(slots, now).Keys, slots.Keys);
    assert |Live(slots, now)| == |Live(slots, now).Keys| && |slots| == |slots.Keys|;
  }

  lemma MapsWithin<T>(a: set<T>, b: set<T>)
    requires a <= b
    ensures |a| <= |b|
  {
    assert b == a + (b - a);
  }

  /** Making room keeps the number of live entries, so the counter moves exactly when an entry was displaced. */
  lemma SizeAfterSet<V>(c: Cache<V>, e: Event<V>, limits: Limits)
    requires e.op.Set? && Legal(c, e, limits) && 0 < limits.maxEntries && |c.slots| <= limits.maxEntries
    ensures |After(c, e, limits).slots| <= limits.maxEntries
    ensures Displaces(c.slots, e.op.key, e.now, limits) ==> |After(c, e, limits).slots| <= |Live(c.slots, e.now)|
  {
    var live := Live(c.slots, e.now);
    LiveIsSmaller(c.slots, e.now);
    if Displaces(c.slots, e.op.key, e.now, limits) {
      assert (live - {e.op.victim}).Keys == live.Keys - {e.op.victim};
      assert After(c, e, limits).slots.Keys == live.Keys - {e.op.victim} + {e.op.key};
    } else {
      assert After(c, e, limits).slots.Keys == live.Keys + {e.op.key};
    }
  }

  // ---------------------------------------------------------------- runs

  function Run<V>(events: seq<Event<V>>, limits: Limits): Cache<V> {
    if events == [] then Cache(map[], 0, 0)
    else After(Run(events[..|events| - 1], limits), events[|events| - 1], limits)
  }

  /** The store only drops entries it holds. */
  ghost predicate Possible<V>(events: seq<Event<V>>, limits: Limits) {
    events != [] ==>
      && Possible(events[..|events| - 1], limits)
      && Legal(Run(events[..|events| - 1], limits), events[|events| - 1], limits)
  }

  ghost predicate InOrder<V>(events: seq<Event<V>>) {
    forall i, j :: 0 <= i < j < |events| ==> events[i].now <= events[j].now
  }

  /** A write with the time to live it was given, if any. */
  datatype Write<V> = Write(value: Option<V>, at: int, ttl: Option<int>)

  /** The last-write map: the latest write of `key` that was not deleted or cleared since. */
  function LastWrite<V>(events: seq<Event<V>>, key: string): Option<Write<V>> {
    if events == [] then None
    else
      var e, before := events[|events| - 1], events[..|events| - 1];
      match e.op
      case Set(k, value, ttl, _) =>
        if k == key then Some(Write(value, e.now, ttl)) else LastWrite(before, key)
      case Delete(k) => if k == key then None else LastWrite(before, key)
      case Clear => None
      case Lookup(_) => LastWrite(before, key)
  }

  /** The keys displaced since their last write. */
  function LostKeys<V>(events: seq<Event<V>>, limits: Limits): set<string> {
    if events == [] then {}
    else
      var e, before := events[|events| - 1], events[..|events| - 1];
      var lost := LostKeys(before, limits);
      match e.op
      case Set(k, _, _, victim) =>
        (if Displaces(Run(before, limits).slots, k, e.now, limits) then lost + {victim} else lost) - {k}
      case Delete(k) => lost - {k}
      case Clear => {}
      case Lookup(_) => lost
  }

  /** The set of keys a run writes. */
  ghost function WrittenKeys<V>(events: seq<Event<V>>): set<string> {
    set e | e in events && e.op.Set? :: e.op.key
  }

  /** `events[i]` is the last write of `key`: nothing after it writes, deletes or clears it. */
  ghost predicate IsLastWrite<V>(events: seq<Event<V>>, key: string, i: int) {
    && 0 <= i < |events| && events[i].op.Set? && events[i].op.key == key
    && forall j :: i < j < |events| ==>
         && !events[j].op.Clear?
         && (events[j].op.Set? || events[j].op.Delete? ==> events[j].op.key != key)
  }

  lemma {:induction false} LastWriteExactlyWhen<V>(events: seq<Event<V>>, key: string)
    ensures LastWrite(events, key).Some? <==> exists i :: IsLastWrite(events, key, i)
    ensures forall i :: IsLastWrite(events, key, i) ==>
      LastWrite(events, key) == Some(Write(events[i].op.value, events[i].now, events[i].op.ttl))
  {
    if events != [] {
      var n := |events| - 1;
      var before, e := events[..n], events[n];
      LastWriteExactlyWhen(before, key);
      assert forall j :: 0 <= j < n ==> before[j] == events[j];
      forall i | i < n && IsLastWrite(events, key, i)
        ensures IsLastWrite(before, key, i)
      {
      }
      if e.op.Set? && e.op.key == key {
        assert IsLastWrite(events, key, n);
      } else if i :| IsLastWrite(before, key, i) {
        assert e.op.Clear? || (e.op.Delete? && e.op.key == key) || IsLastWrite(events, key, i);
      }
    }
  }

  /**
   A slot is the last write of its key, and no displaced key has one. Only a slot
   past the ceiling may be left of a deleted key.
   */
  lemma {:induction false} SlotsAreLastWrites<V>(events: seq<Event<V>>, key: string, now: int, limits: Limits)
    requires Possible(events, limits) && InOrder(events)
    requires events != [] ==> events[|events| - 1].now <= now
    requires key in Run(events, limits).slots
    ensures key !in LostKeys(events, limits)
    ensures
      var slot, last := Run(events, limits).slots[key], LastWrite(events, key);
      if last.Some? then slot == Slot(last.value.value, last.value.at + Resolved(last.value.ttl, limits), last.value.at)
      else slot.storedAt + CEILING <= now
  {
    if events != [] {
      var before, e := events[..|events| - 1], events[|events| - 1];
      if key in Run(before, limits).slots {
        SlotsAreLastWrites(before, key, e.now, limits);
      }
    }
  }

  /** A missing slot was displaced, or its time had passed by the last call. */
  lemma {:induction false} MissingSlots<V>(events: seq<Event<V>>, key: string, limits: Limits)
    requires Possible(events, limits) && InOrder(events)
    ensures
      var last := LastWrite(events, key);
      last.Some? && key !in Run(events, limits).slots && key !in LostKeys(events, limits) ==>
      && events != []
      && (|| last.value.at + Resolved(last.value.ttl, limits) <= events[|events| - 1].now
          || last.value.at + CEILING <= events[|events| - 1].now)
  {
    if events != [] {
      var before, e := events[..|events| - 1], events[|events| - 1];
      MissingSlots(before, key, limits);
      if key in Run(before, limits).slots {
        SlotsAreLastWrites(before, key, e.now, limits);
      }
    }
  }

  /**
   With a clock that does not go back the cache is exact. `get` answers the last
   write until its time to live has passed: the given number of seconds, one at
   least, or the default when none is given, and never more than 30 days. A key
   that was never written, was deleted or cleared since, or displaced has no answer.
   */
  lemma {:induction false} CacheIsExact<V>(events: seq<Event<V>>, key: string, now: int, limits: Limits)
    requires Possible(events, limits) && InOrder(events)
    requires events != [] ==> events[|events| - 1].now <= now
    ensures
      forall i :: IsLastWrite(events, key, i) && key !in LostKeys(events, limits) ==>
        var ttl := events[i].op.ttl;
        var seconds := if ttl.None? then limits.defaultTtl else if ttl.value < 1 then 1 else ttl.value;
        Got(Run(events, limits), key, now) ==
        if now - events[i].now < seconds && now - events[i].now < 2_592_000 then events[i].op.value else None
    ensures (forall i :: !IsLastWrite(events, key, i)) || key in LostKeys(events, limits) ==>
      Got(Run(events, limits), key, now) == None
  {
    LastWriteExactlyWhen(events, key);
    if key in Run(events, limits).slots {
      SlotsAreLastWrites(events, key, now, limits);
    }
    MissingSlots(events, key, limits);
  }

  lemma {:induction false} SizeIsBounded<V>(events: seq<Event<V>>, limits: Limits)
    requires Possible(events, limits) && 0 < limits.maxEntries
    ensures |Run(events, limits).slots| <= limits.maxEntries
  {
    if events != [] {
      var before, e := events[..|events| - 1], events[|events| - 1];
      SizeIsBounded(before, limits);
      if e.op.Set? {
        SizeAfterSet(Run(before, limits), e, limits);
      } else {
        MapsWithin(Run(events, limits).slots.Keys, Run(before, limits).slots.Keys);
      }
    }
  }

  /** The eviction counter counts at least every key that is displaced now. */
  lemma {:induction false} LossesAreCounted<V>(events: seq<Event<V>>, limits: Limits)
    ensures |LostKeys(events, limits)| <= Run(events, limits).evicted
  {
    if events != [] {
      var before, e := events[..|events| - 1], events[|events| - 1];
      LossesAreCounted(before, limits);
      var lost, now := LostKeys(before, limits), LostKeys(events, limits);
      if e.op.Set? && Displaces(Run(before, limits).slots, e.op.key, e.now, limits) {
        MapsWithin(now, lost + {e.op.victim});
      } else {
        MapsWithin(now, lost);
      }
    }
  }

  /** A run that writes no more keys than fit evicts nothing. */
  lemma {:induction false} SpareCapacity<V>(events: seq<Event<V>>, limits: Limits)
    requires |WrittenKeys(events)| <= limits.maxEntries
    ensures Run(events, limits).evicted == 0 && LostKeys(events, limits) == {}
    ensures Run(events, limits).slots.Keys <= WrittenKeys(events)
  {
    if events != [] {
      var before, e := events[..|events| - 1], events[|events| - 1];
      assert events == before + [e];
      assert WrittenKeys(before) <= WrittenKeys(events);
      MapsWithin(WrittenKeys(before), WrittenKeys(events));
      SpareCapacity(before, limits);
      if e.op.Set? && e.op.key !in Live(Run(before, limits).slots, e.now) {
        assert e.op.key in WrittenKeys(events);
        var live := Live(Run(before, limits).slots, e.now).Keys;
        MapsWithin(live + {e.op.key}, WrittenKeys(events));
        assert |live + {e.op.key}| == |live| + 1;
      }
    }
  }

  // -------------------------------------------------------------- the manager

  /** The facade the workflows use: it can be switched off and counts hits and misses. */
  class CacheManager<V> {
    const provider: MemoryCacheProvider<V>
    const enabled: bool
    var hits: nat
    var misses: nat
    var lookups: nat

    constructor (provider: MemoryCacheProvider<V>, enabled: bool)
      ensures this.provider == provider && this.enabled == enabled && hits == 0 && misses == 0 && Valid()
    {
      this.provider, this.enabled := provider, enabled;
      hits, misses, lookups := 0, 0, 0;
    }

    ghost predicate Valid()
      reads this
    {
      hits + misses == lookups
    }

    method Get(key: string, now: int) returns (value: Option<V>)
      requires Valid()
      modifies this, provider
      ensures Valid()
      ensures value == if enabled then Got(old(provider.State()), key, now) else None
      ensures provider.State() ==
        if enabled then After(old(provider.State()), Event(now, Lookup(key)), provider.limits) else old(provider.State())
      ensures lookups == old(lookups) + (if enabled then 1 else 0)
      ensures hits == old(hits) + (if value.Some? then 1 else 0)
    {
      if !enabled {
        return None;
      }
      value := provider.Get(key, now);
      lookups := lookups + 1;
      if value.None? {
        misses := misses + 1;
      } else {
        hits := hits + 1;
      }
    }

    method Set(key: string, value: Option<V>, ttl: Option<int>, now: int) returns (ghost victim: string)
      requires 0 < provider.limits.maxEntries && |provider.store| <= provider.limits.maxEntries
      modifies provider
      ensures |provider.store| <= provider.limits.maxEntries
      ensures
        var e := Event(now, Op.Set(key, value, ttl, victim));
        if enabled
        then Legal(old(provider.State()), e, provider.limits) && provider.State() == After(old(provider.State()), e, provider.limits)
        else provider.State() == old(provider.State())
    {
      victim := key;
      if enabled {
        victim := provider.Set(key, value, ttl, now);
      }
    }

    method Delete(key: string, now: int) returns (removed: bool)
      modifies provider
      ensures removed == (enabled && key in Live(old(provider.store), now))
      ensures provider.State() ==
        if enabled then After(old(provider.State()), Event(now, Op.Delete(key)), provider.limits) else old(provider.State())
    {
      removed := false;
      if enabled {
        removed := provider.Delete(key, now);
      }
    }

    method Exists(key: string, now: int) returns (found: bool)
      modifies provider
      ensures found == (enabled && Got(old(provider.State()), key, now).Some?)
      ensures provider.State() ==
        if enabled then After(old(provider.State()), Event(now, Lookup(key)), provider.limits) else old(provider.State())
    {
      found := false;
      if enabled {
        found := provider.Exists(key, now);
      }
    }

    /** Clearing ignores the switch. */
    method Clear(now: int) returns (count: nat)
      modifies provider
      ensures count == |Live(old(provider.store), now)|
      ensures provider.State() == After(old(provider.State()), Event(now, Op.Clear), provider.limits)
    {
      count := provider.Clear(now);
    }
  }
}
