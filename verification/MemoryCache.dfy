/**
 The process-local cache: a bounded map in insertion order, where a hit or a set moves its key to the
 end and overflow drops the first key. Time to live is checked when a key is read.
 */
module MemoryCache {
  import opened Wrappers
  import Sets

  type Time = int

  datatype Key = Key(text: string)
  {
    predicate StartsWith(prefix: string) { prefix <= text }
  }

  datatype Entry<+V> = Entry(value: V, expiresAt: Time)

  /** A JavaScript Map: `order` lists the keys as they were inserted. */
  datatype Lru<V> = Lru(order: seq<Key>, entries: map<Key, Entry<V>>)

  // ---------------------------------------------------------------- configuration

  function Clamp(value: int, min: int, max: int): (r: int)
    requires min <= max
    ensures min <= r <= max && (min <= value <= max ==> r == value)
  {
    if value < min then min else if value > max then max else value
  }

  /** `None` is an absent value or one that is no integer. */
  function ClampInteger(value: Option<int>, min: int, max: int, fallback: int): (r: int)
    requires min <= max
    ensures min <= r <= max
    ensures value.Some? ==> r == (if value.value < min then min else if value.value > max then max else value.value)
    ensures value.None? && min <= fallback <= max ==> r == fallback
  {
    Clamp(value.GetOr(fallback), min, max)
  }

  datatype Config = Config(maxEntries: nat, defaultTtlSeconds: nat)
  {
    predicate Valid() { 100 <= maxEntries <= 10_000 && 1 <= defaultTtlSeconds <= 600 }
  }

  function ResolveConfig(maxEntries: Option<int>, defaultTtlSeconds: Option<int>): (config: Config)
    ensures config.Valid()
    ensures maxEntries.None? ==> config.maxEntries == 1000
    ensures maxEntries.Some? && 100 <= maxEntries.value <= 10_000 ==> config.maxEntries == maxEntries.value
    ensures maxEntries.Some? && maxEntries.value < 100 ==> config.maxEntries == 100
    ensures maxEntries.Some? && maxEntries.value > 10_000 ==> config.maxEntries == 10_000
    ensures defaultTtlSeconds.None? ==> config.defaultTtlSeconds == 60
    ensures defaultTtlSeconds.Some? && 1 <= defaultTtlSeconds.value <= 600 ==>
              config.defaultTtlSeconds == defaultTtlSeconds.value
    ensures defaultTtlSeconds.Some? && defaultTtlSeconds.value < 1 ==> config.defaultTtlSeconds == 1
    ensures defaultTtlSeconds.Some? && defaultTtlSeconds.value > 600 ==> config.defaultTtlSeconds == 600
  {
    Config(ClampInteger(maxEntries, 100, 10_000, 1000), ClampInteger(defaultTtlSeconds, 1, 600, 60))
  }

  /** What was asked for, in milliseconds, but between one second and one hour; the default if nothing was. */
  function ResolveTtlMs(config: Config, ttlSeconds: Option<int>): (ttl: int)
    ensures 1_000 <= ttl <= 3_600_000
    ensures ttlSeconds.Some? && 1 <= ttlSeconds.value <= 3600 ==> ttl == ttlSeconds.value * 1000
    ensures ttlSeconds.Some? && ttlSeconds.value < 1 ==> ttl == 1_000
    ensures ttlSeconds.Some? && ttlSeconds.value > 3600 ==> ttl == 3_600_000
    ensures ttlSeconds.None? && config.Valid() ==> ttl == config.defaultTtlSeconds * 1000
  {
    ClampInteger(ttlSeconds, 1, 3600, config.defaultTtlSeconds) * 1000
  }

  // ---------------------------------------------------------------- operations

  function Without(order: seq<Key>, key: Key): seq<Key> {
    if order == [] then []
    else if order[0] == key then Without(order[1..], key)
    else [order[0]] + Without(order[1..], key)
  }

  function Remove<V>(c: Lru<V>, key: Key): Lru<V> {
    if key in c.entries then Lru(Without(c.order, key), c.entries - {key}) else c
  }

  function Put<V>(c: Lru<V>, key: Key, entry: Entry<V>): Lru<V> {
    Lru(Without(c.order, key) + [key], c.entries[key := entry])
  }

  function Get<V>(c: Lru<V>, key: Key, now: Time): (Lru<V>, Option<V>) {
    if key !in c.entries then (c, None)
    else if c.entries[key].expiresAt <= now then (Remove(c, key), None)
    else (Put(c, key, c.entries[key]), Some(c.entries[key].value))
  }

  /** evictOverflow: the first key goes until the map fits. */
  function Evict<V>(c: Lru<V>, maxEntries: nat): Lru<V>
    decreases |c.order|
  {
    if |c.order| <= maxEntries then c else Evict(Lru(c.order[1..], c.entries - {c.order[0]}), maxEntries)
  }

  function Set<V>(c: Lru<V>, key: Key, entry: Entry<V>, maxEntries: nat): Lru<V> {
    Evict(Put(c, key, entry), maxEntries)
  }

  function KeysWithout(order: seq<Key>, prefix: string): seq<Key> {
    if order == [] then []
    else if order[0].StartsWith(prefix) then KeysWithout(order[1..], prefix)
    else [order[0]] + KeysWithout(order[1..], prefix)
  }

  function RemovePrefix<V>(c: Lru<V>, prefix: string): Lru<V> {
    Lru(KeysWithout(c.order, prefix), map k | k in c.entries && !k.StartsWith(prefix) :: c.entries[k])
  }

  // ---------------------------------------------------------------- order and size

  ghost predicate NoDuplicates(order: seq<Key>) {
    forall i, j :: 0 <= i < j < |order| ==> order[i] != order[j]
  }

  /** The order lists exactly the keys present, each once. */
  ghost predicate Valid<V>(c: Lru<V>) {
    NoDuplicates(c.order) && forall k :: k in c.order <==> k in c.entries
  }

  /** One more key in front of an order, kept in front of what is left of it. */
  lemma ConsKeys(key: Key, order: seq<Key>, kept: seq<Key>)
    requires NoDuplicates([key] + order) && NoDuplicates(kept) && forall k :: k in kept ==> k in order
    ensures NoDuplicates([key] + kept) && key !in order
    ensures forall k :: k in [key] + order <==> k == key || k in order
    ensures forall k :: k in [key] + kept <==> k == key || k in kept
  {
    assert ([key] + order)[0] == key;
    forall i | 0 <= i < |order|
      ensures order[i] != key
    {
      assert ([key] + order)[i + 1] == order[i];
    }
    assert forall i :: 0 <= i < |kept| ==> kept[i] in kept;
  }

  lemma {:induction false} WithoutRemoves(order: seq<Key>, key: Key)
    requires NoDuplicates(order)
    ensures NoDuplicates(Without(order, key))
    ensures forall k :: k in Without(order, key) <==> k in order && k != key
    ensures |Without(order, key)| == |order| - if key in order then 1 else 0
  {
    if order != [] {
      WithoutRemoves(order[1..], key);
      assert order == [order[0]] + order[1..];
      ConsKeys(order[0], order[1..], Without(order[1..], key));
    }
  }

  lemma {:induction false} KeysWithoutRemoves(order: seq<Key>, prefix: string)
    requires NoDuplicates(order)
    ensures NoDuplicates(KeysWithout(order, prefix))
    ensures forall k :: k in KeysWithout(order, prefix) <==> k in order && !k.StartsWith(prefix)
    ensures |KeysWithout(order, prefix)| <= |order|
  {
    if order != [] {
      KeysWithoutRemoves(order[1..], prefix);
      assert order == [order[0]] + order[1..];
      ConsKeys(order[0], order[1..], KeysWithout(order[1..], prefix));
    }
  }

  /** `text` begins with `prefix`, character by character. */
  predicate Begins(text: string, prefix: string) {
    |prefix| <= |text| && forall i :: 0 <= i < |prefix| ==> text[i] == prefix[i]
  }

  lemma {:induction false} KeysWithoutHas(order: seq<Key>, prefix: string)
    ensures forall k :: k in KeysWithout(order, prefix) <==> k in order && !Begins(k.text, prefix)
  {
    if order != [] {
      KeysWithoutHas(order[1..], prefix);
      assert order == [order[0]] + order[1..];
      assert order[0].StartsWith(prefix) <==> Begins(order[0].text, prefix);
    }
  }

  lemma RemovePrefixHas<V>(c: Lru<V>, prefix: string)
    ensures var entries := RemovePrefix(c, prefix).entries;
            && (forall k :: k in entries <==> k in c.entries && !Begins(k.text, prefix))
            && forall k :: k in entries ==> entries[k] == c.entries[k]
  {
    forall k | k in c.entries
      ensures k.StartsWith(prefix) <==> Begins(k.text, prefix)
    {
    }
  }

  // ---------------------------------------------------------------- a run

  datatype Op<V> =
    | DoGet(key: Key, now: Time)
    | DoSet(key: Key, entry: Entry<V>)
    | DoDelete(key: Key)
    | DoDeleteByPrefix(prefix: string)
    | DoClear

  /**
   The cache beside the simple map it stands for: the same operations with room for every key.
   `touched` is history: when each key was last hit or set, in operations.
   */
  datatype State<V> = State(cache: Lru<V>, simple: map<Key, Entry<V>>, touched: map<Key, nat>, ticks: nat)

  function SimpleGet<V>(simple: map<Key, Entry<V>>, key: Key, now: Time): Option<V> {
    if key in simple && simple[key].expiresAt > now then Some(simple[key].value) else None
  }

  function Step<V>(s: State<V>, op: Op<V>, maxEntries: nat): State<V> {
    match op
    case DoGet(key, now) =>
      var (cache, hit) := Get(s.cache, key, now);
      State(cache, if key in s.simple && s.simple[key].expiresAt <= now then s.simple - {key} else s.simple,
            if hit.Some? then s.touched[key := s.ticks] else s.touched, s.ticks + 1)
    case DoSet(key, entry) =>
      State(Set(s.cache, key, entry, maxEntries), s.simple[key := entry], s.touched[key := s.ticks], s.ticks + 1)
    case DoDelete(key) => State(Remove(s.cache, key), s.simple - {key}, s.touched, s.ticks + 1)
    case DoDeleteByPrefix(prefix) =>
      State(RemovePrefix(s.cache, prefix), map k | k in s.simple && !k.StartsWith(prefix) :: s.simple[k],
            s.touched, s.ticks + 1)
    case DoClear => State(Lru([], map[]), map[], s.touched, s.ticks + 1)
  }

  /** The keys hit or set since `key` was. */
  function TouchedSince<V>(s: State<V>, key: Key): set<Key>
    requires key in s.touched
  {
    set k | k in s.touched && s.touched[k] > s.touched[key]
  }

  ghost predicate OrderIsLastTouch<V>(s: State<V>) {
    && (forall k :: k in s.cache.order ==> k in s.touched)
    && (forall i, j :: 0 <= i < j < |s.cache.order| ==> s.touched[s.cache.order[i]] < s.touched[s.cache.order[j]])
  }

  /** The invariant, but for a cache that may hold `size` keys. */
  ghost predicate InvUpTo<V>(s: State<V>, size: nat, maxEntries: nat) {
    && Valid(s.cache) && |s.cache.order| <= size
    && (forall k :: k in s.cache.entries ==> k in s.simple && s.simple[k] == s.cache.entries[k])
    && (forall k :: k in s.touched ==> s.touched[k] < s.ticks)
    && (forall k :: k in s.simple ==> k in s.touched)
    && OrderIsLastTouch(s)
    && (forall k :: k in s.simple && k !in s.cache.entries ==> |TouchedSince(s, k)| >= maxEntries)
  }

  ghost predicate Inv<V>(s: State<V>, maxEntries: nat) { InvUpTo(s, maxEntries, maxEntries) }

  // ---------------------------------------------------------------- one operation keeps the invariant

  /** Dropping keys from an order keeps it sorted by last touch. */
  lemma {:induction false} WithoutKeepsOrder(order: seq<Key>, key: Key, touched: map<Key, nat>)
    requires forall k :: k in order ==> k in touched
    requires forall i, j :: 0 <= i < j < |order| ==> touched[order[i]] < touched[order[j]]
    ensures forall k :: k in Without(order, key) ==> k in order
    ensures forall i, j :: 0 <= i < j < |Without(order, key)| ==>
              touched[Without(order, key)[i]] < touched[Without(order, key)[j]]
  {
    if order != [] {
      WithoutKeepsOrder(order[1..], key, touched);
      forall k | k in Without(order[1..], key)
        ensures touched[order[0]] < touched[k]
      {
        assert k in order[1..];
      }
    }
  }

  lemma {:induction false} KeysWithoutKeepsOrder(order: seq<Key>, prefix: string, touched: map<Key, nat>)
    requires forall k :: k in order ==> k in touched
    requires forall i, j :: 0 <= i < j < |order| ==> touched[order[i]] < touched[order[j]]
    ensures forall k :: k in KeysWithout(order, prefix) ==> k in order
    ensures forall i, j :: 0 <= i < j < |KeysWithout(order, prefix)| ==>
              touched[KeysWithout(order, prefix)[i]] < touched[KeysWithout(order, prefix)[j]]
  {
    if order != [] {
      KeysWithoutKeepsOrder(order[1..], prefix, touched);
      forall k | k in KeysWithout(order[1..], prefix)
        ensures touched[order[0]] < touched[k]
      {
        assert k in order[1..];
      }
    }
  }

  /** Touching a key leaves every other key with at least the keys it had touched since. */
  lemma TouchKeepsAbsentees<V>(s: State<V>, after: State<V>, key: Key, k: Key)
    requires k in s.touched && k != key && after.touched == s.touched[key := s.ticks]
    requires forall j :: j in s.touched ==> s.touched[j] < s.ticks
    ensures |TouchedSince(after, k)| >= |TouchedSince(s, k)|
  {
    Sets.SubsetIsSmaller(TouchedSince(s, k), TouchedSince(after, k));
  }

  lemma PutIsValid<V>(c: Lru<V>, key: Key, entry: Entry<V>)
    requires Valid(c)
    ensures Valid(Put(c, key, entry)) && |Put(c, key, entry).order| == |c.order| + if key in c.entries then 0 else 1
  {
    WithoutRemoves(c.order, key);
    var rest := Without(c.order, key);
    assert forall i :: 0 <= i < |rest| ==> rest[i] in rest;
  }

  /** A key moved to the end, in an order that was sorted by last touch. */
  lemma PutKeepsOrder<V>(s: State<V>, key: Key, entry: Entry<V>)
    requires Valid(s.cache) && OrderIsLastTouch(s) && forall k :: k in s.touched ==> s.touched[k] < s.ticks
    ensures var put := Put(s.cache, key, entry);
            && Valid(put)
            && |put.order| == |s.cache.order| + (if key in s.cache.entries then 0 else 1)
            && OrderIsLastTouch(s.(cache := put, touched := s.touched[key := s.ticks]))
  {
    PutIsValid(s.cache, key, entry);
    WithoutRemoves(s.cache.order, key);
    WithoutKeepsOrder(s.cache.order, key, s.touched);
    var rest := Without(s.cache.order, key);
    assert forall i :: 0 <= i < |rest| ==> rest[i] in rest;
  }

  /** An overflow is one key: the one whose last touch is the oldest. */
  lemma EvictDropsTheOldest<V>(c: Lru<V>, maxEntries: nat)
    requires Valid(c) && |c.order| <= maxEntries + 1
    ensures var after := Evict(c, maxEntries);
            && Valid(after) && |after.order| <= maxEntries
            && after == if |c.order| <= maxEntries then c else Lru(c.order[1..], c.entries - {c.order[0]})
  {
    if |c.order| > maxEntries {
      var after := Lru(c.order[1..], c.entries - {c.order[0]});
      assert c.order == [c.order[0]] + c.order[1..];
      assert Evict(after, maxEntries) == after;
    }
  }

  /** All keys but the first of an order sorted by last touch were touched after it. */
  lemma {:induction false} LaterKeys(order: seq<Key>, touched: map<Key, nat>, since: nat) returns (later: set<Key>)
    requires NoDuplicates(order) && forall k :: k in order ==> k in touched && touched[k] > since
    ensures |later| == |order| && forall k :: k in later ==> k in touched && touched[k] > since
    ensures forall k :: k in later <==> k in order
  {
    if order == [] {
      later := {};
    } else {
      var rest := LaterKeys(order[1..], touched, since);
      assert order == [order[0]] + order[1..];
      assert order[0] !in order[1..];
      later := rest + {order[0]};
    }
  }

  /** The state after a key was written or hit, before any eviction. */
  function Touched<V>(s: State<V>, key: Key, entry: Entry<V>): State<V> {
    State(Put(s.cache, key, entry), s.simple[key := entry], s.touched[key := s.ticks], s.ticks + 1)
  }

  lemma TouchKeepsInv<V>(s: State<V>, key: Key, entry: Entry<V>, maxEntries: nat)
    requires Inv(s, maxEntries)
    ensures InvUpTo(Touched(s, key, entry), maxEntries + if key in s.cache.entries then 0 else 1, maxEntries)
  {
    var after := Touched(s, key, entry);
    PutKeepsOrder(s, key, entry);
    forall k | k in after.simple && k !in after.cache.entries
      ensures |TouchedSince(after, k)| >= maxEntries
    {
      TouchKeepsAbsentees(s, after, key, k);
    }
  }

  /** The key at the front was touched before every other key present. */
  lemma FrontIsOldest<V>(s: State<V>, j: Key)
    requires Valid(s.cache) && OrderIsLastTouch(s) && j in s.cache.entries && j != s.cache.order[0]
    ensures s.touched[s.cache.order[0]] < s.touched[j]
  {
    var i :| 0 <= i < |s.cache.order| && s.cache.order[i] == j;
  }

  /** The key evicted has all the others behind it. */
  lemma EvictedHasSuccessors<V>(s: State<V>, maxEntries: nat)
    requires Valid(s.cache) && OrderIsLastTouch(s) && |s.cache.order| == maxEntries + 1
    ensures s.cache.order[0] in s.touched && |TouchedSince(s, s.cache.order[0])| >= maxEntries
  {
    var first, rest := s.cache.order[0], s.cache.order[1..];
    assert s.cache.order == [first] + rest;
    forall k | k in rest
      ensures k in s.touched && s.touched[k] > s.touched[first]
    {
      assert k in s.cache.order;
      FrontIsOldest(s, k);
    }
    var later := LaterKeys(rest, s.touched, s.touched[first]);
    Sets.SubsetIsSmaller(later, TouchedSince(s, first));
  }

  lemma EvictKeepsInv<V>(s: State<V>, maxEntries: nat)
    requires InvUpTo(s, maxEntries + 1, maxEntries)
    ensures Inv(s.(cache := Evict(s.cache, maxEntries)), maxEntries)
  {
    EvictDropsTheOldest(s.cache, maxEntries);
    if |s.cache.order| > maxEntries {
      EvictedHasSuccessors(s, maxEntries);
      var after := s.(cache := Evict(s.cache, maxEntries));
      forall k | k in after.simple && k !in after.cache.entries
        ensures |TouchedSince(after, k)| >= maxEntries
      {
        assert TouchedSince(after, k) == TouchedSince(s, k);
      }
    }
  }

  lemma SetKeepsInv<V>(s: State<V>, key: Key, entry: Entry<V>, maxEntries: nat)
    requires Inv(s, maxEntries)
    ensures Inv(Step(s, DoSet(key, entry), maxEntries), maxEntries)
  {
    TouchKeepsInv(s, key, entry, maxEntries);
    EvictKeepsInv(Touched(s, key, entry), maxEntries);
  }

  lemma MissKeepsInv<V>(s: State<V>, key: Key, now: Time, maxEntries: nat)
    requires Inv(s, maxEntries) && (key in s.cache.entries ==> s.cache.entries[key].expiresAt <= now)
    ensures Inv(Step(s, DoGet(key, now), maxEntries), maxEntries)
  {
    var after := Step(s, DoGet(key, now), maxEntries);
    WithoutRemoves(s.cache.order, key);
    WithoutKeepsOrder(s.cache.order, key, s.touched);
    forall k | k in after.simple && k !in after.cache.entries
      ensures |TouchedSince(after, k)| >= maxEntries
    {
      assert TouchedSince(after, k) == TouchedSince(s, k);
    }
  }

  lemma GetKeepsInv<V>(s: State<V>, key: Key, now: Time, maxEntries: nat)
    requires Inv(s, maxEntries)
    ensures Inv(Step(s, DoGet(key, now), maxEntries), maxEntries)
  {
    if key in s.cache.entries && s.cache.entries[key].expiresAt > now {
      TouchKeepsInv(s, key, s.cache.entries[key], maxEntries);
      assert s.simple[key := s.cache.entries[key]] == s.simple;
      assert Step(s, DoGet(key, now), maxEntries) == Touched(s, key, s.cache.entries[key]);
    } else {
      MissKeepsInv(s, key, now, maxEntries);
    }
  }

  lemma RemovalKeepsInv<V>(s: State<V>, op: Op<V>, maxEntries: nat)
    requires Inv(s, maxEntries) && (op.DoDelete? || op.DoDeleteByPrefix? || op.DoClear?)
    ensures Inv(Step(s, op, maxEntries), maxEntries)
  {
    var after := Step(s, op, maxEntries);
    if op.DoDelete? {
      WithoutRemoves(s.cache.order, op.key);
      WithoutKeepsOrder(s.cache.order, op.key, s.touched);
    }
    if op.DoDeleteByPrefix? {
      KeysWithoutRemoves(s.cache.order, op.prefix);
      KeysWithoutKeepsOrder(s.cache.order, op.prefix, s.touched);
    }
    forall k | k in after.simple && k !in after.cache.entries
      ensures |TouchedSince(after, k)| >= maxEntries
    {
      assert TouchedSince(after, k) == TouchedSince(s, k);
    }
  }

  lemma StepKeepsInv<V>(s: State<V>, op: Op<V>, maxEntries: nat)
    requires Inv(s, maxEntries)
    ensures Inv(Step(s, op, maxEntries), maxEntries)
  {
    match op
    case DoGet(key, now) => GetKeepsInv(s, key, now, maxEntries);
    case DoSet(key, entry) => SetKeepsInv(s, key, entry, maxEntries);
    case _ => RemovalKeepsInv(s, op, maxEntries);
  }

  // ---------------------------------------------------------------- every run

  function Run<V>(s: State<V>, ops: seq<Op<V>>, maxEntries: nat): State<V> {
    if ops == [] then s else Step(Run(s, ops[..|ops| - 1], maxEntries), ops[|ops| - 1], maxEntries)
  }

  function Start<V>(): State<V> { State(Lru([], map[]), map[], map[], 0) }

  lemma {:induction false} RunKeepsInv<V>(ops: seq<Op<V>>, maxEntries: nat)
    requires maxEntries > 0
    ensures Inv(Run(Start<V>(), ops, maxEntries), maxEntries)
  {
    if ops != [] {
      RunKeepsInv(ops[..|ops| - 1], maxEntries);
      StepKeepsInv(Run(Start<V>(), ops[..|ops| - 1], maxEntries), ops[|ops| - 1], maxEntries);
    }
  }

  /**
   After any operations, a hit is what the unbounded map would answer; and a miss on a key that map
   still holds means that at least `maxEntries` other keys were hit or set since that one was.
   */
  lemma CacheRefinesUnboundedMap<V>(ops: seq<Op<V>>, maxEntries: nat, key: Key, now: Time)
    requires maxEntries > 0
    ensures var s := Run(Start<V>(), ops, maxEntries);
            var hit := Get(s.cache, key, now).1;
            && |s.cache.entries| == |s.cache.order| <= maxEntries
            && (hit.Some? ==> hit == SimpleGet(s.simple, key, now))
            && (hit.None? && SimpleGet(s.simple, key, now).Some? ==>
                  key in s.touched && |TouchedSince(s, key)| >= maxEntries)
  {
    RunKeepsInv(ops, maxEntries);
    var s := Run(Start<V>(), ops, maxEntries);
    var keys := LaterKeys(s.cache.order, map k | k in s.cache.order :: 1, 0);
    assert s.cache.entries.Keys == keys;
    assert |s.cache.entries| == |s.cache.entries.Keys|;
  }

  /**
   Each set evicts at most one key, and only to make room for a new one: the key whose last hit or set
   is the oldest of all. Nothing else evicts.
   */
  lemma EvictionIsLeastRecentlyUsed<V>(ops: seq<Op<V>>, maxEntries: nat, key: Key, entry: Entry<V>, k: Key)
    requires maxEntries > 0
    ensures var s := Run(Start<V>(), ops, maxEntries);
            var after := Step(s, DoSet(key, entry), maxEntries);
            && key in after.cache.entries
            && (k in s.cache.entries && k !in after.cache.entries ==>
                  && |s.cache.entries| == maxEntries && key !in s.cache.entries
                  && k in s.touched
                  && (forall j :: j in s.cache.entries && j != k ==>
                        j in s.touched && s.touched[k] < s.touched[j] && j in after.cache.entries))
  {
    RunKeepsInv(ops, maxEntries);
    CacheRefinesUnboundedMap(ops, maxEntries, key, 0);
    SetEvictsTheOldest(Run(Start<V>(), ops, maxEntries), maxEntries, key, entry, k);
  }

  lemma SetEvictsTheOldest<V>(s: State<V>, maxEntries: nat, key: Key, entry: Entry<V>, k: Key)
    requires Inv(s, maxEntries) && maxEntries > 0
    ensures var after := Set(s.cache, key, entry, maxEntries);
            && key in after.entries
            && (k in s.cache.entries && k !in after.entries ==>
                  && |s.cache.order| == maxEntries && key !in s.cache.entries && k in s.touched
                  && (forall j :: j in s.cache.entries && j != k ==>
                        j in s.touched && s.touched[k] < s.touched[j] && j in after.entries))
  {
    var put := Put(s.cache, key, entry);
    PutIsValid(s.cache, key, entry);
    EvictDropsTheOldest(put, maxEntries);
    assert put.order[|put.order| - 1] == key;
    if |put.order| > maxEntries {
      WithoutAbsent(s.cache.order, key);
      assert put.order[0] == s.cache.order[0] != key;
      forall j | j in s.cache.entries && j != s.cache.order[0]
        ensures j in s.touched && s.touched[s.cache.order[0]] < s.touched[j]
      {
        FrontIsOldest(s, j);
      }
    }
  }

  /** A value just set is served until its time is up, and not one millisecond longer. */
  lemma SetThenGet<V>(ops: seq<Op<V>>, maxEntries: nat, key: Key, entry: Entry<V>, now: Time)
    requires maxEntries > 0
    ensures var s := Run(Start<V>(), ops, maxEntries);
            Get(Set(s.cache, key, entry, maxEntries), key, now).1 ==
              if now < entry.expiresAt then Some(entry.value) else None
  {
    EvictionIsLeastRecentlyUsed(ops, maxEntries, key, entry, key);
    var s := Run(Start<V>(), ops, maxEntries);
    RunKeepsInv(ops, maxEntries);
    PutIsValid(s.cache, key, entry);
    EvictDropsTheOldest(Put(s.cache, key, entry), maxEntries);
  }

  lemma SetPutsLast<V>(c: Lru<V>, key: Key, entry: Entry<V>, maxEntries: nat)
    requires Valid(c) && |c.order| <= maxEntries && maxEntries > 0
    ensures var after := Set(c, key, entry, maxEntries);
            && after.order != [] && after.order[|after.order| - 1] == key
            && key in after.entries && after.entries[key] == entry
  {
    PutIsValid(c, key, entry);
    var put := Put(c, key, entry);
    EvictDropsTheOldest(put, maxEntries);
    assert put.order[|put.order| - 1] == key;
  }

  lemma {:induction false} WithoutAbsent(order: seq<Key>, key: Key)
    requires key !in order
    ensures Without(order, key) == order
  {
    if order != [] { WithoutAbsent(order[1..], key); }
  }

  // ---------------------------------------------------------------- the service

  class MemoryCacheService<V> {
    var order: seq<Key>
    var entries: map<Key, Entry<V>>
    /** The keys of the loads in flight, in the order of their Map. */
    var inflight: seq<Key>
    var hits: nat
    var misses: nat
    var sets: nat
    var deletes: nat
    var evictions: nat
    const config: Config

    ghost function Contents(): Lru<V>
      reads this
    {
      Lru(order, entries)
    }

    ghost predicate Sound()
      reads this
    {
      Valid(Contents()) && |order| <= config.maxEntries && config.Valid()
    }

    constructor (maxEntries: Option<int>, defaultTtlSeconds: Option<int>)
      ensures config == ResolveConfig(maxEntries, defaultTtlSeconds)
      ensures Contents() == Lru([], map[]) && Sound() && inflight == []
      ensures hits == misses == sets == deletes == evictions == 0
    {
      config := ResolveConfig(maxEntries, defaultTtlSeconds);
      order, entries, inflight := [], map[], [];
      hits, misses, sets, deletes, evictions := 0, 0, 0, 0, 0;
    }

    /** Map.prototype.delete */
    method Drop(key: Key) returns (present: bool)
      modifies `order, `entries
      ensures present == (key in old(entries))
      ensures Contents() == Remove(old(Contents()), key)
    {
      present := key in entries;
      if present {
        order := Without(order, key);
        entries := entries - {key};
      }
    }

    method GetEntry(key: Key, now: Time) returns (value: Option<V>)
      requires Sound()
      modifies this
      ensures (Contents(), value) == Get(old(Contents()), key, now) && Sound()
      ensures value == if key in old(entries) && old(entries)[key].expiresAt > now then Some(old(entries)[key].value)
                       else None
      ensures entries == if value.Some? then old(entries) else old(entries) - {key}
      ensures value.Some? ==> order != [] && order[|order| - 1] == key
      ensures hits == old(hits) + (if value.Some? then 1 else 0)
                && misses == old(misses) + (if value.Some? then 0 else 1)
      ensures deletes == old(deletes) + (if value.None? && key in old(entries) then 1 else 0)
      ensures sets == old(sets) && evictions == old(evictions) && inflight == old(inflight)
    {
      WithoutRemoves(order, key);
      if key !in entries {
        misses := misses + 1;
        return None;
      }
      var entry := entries[key];
      var _ := Drop(key);
      if entry.expiresAt <= now {
        misses := misses + 1;
        deletes := deletes + 1;
        return None;
      }
      order := order + [key];
      entries := entries[key := entry];
      assert entries == old(entries)[key := entry];
      hits := hits + 1;
      return Some(entry.value);
    }

    /** Map.prototype.delete, then Map.prototype.set: the key moves to the end. */
    method Reinsert(key: Key, entry: Entry<V>)
      requires Valid(Contents())
      modifies `order, `entries
      ensures Contents() == Put(old(Contents()), key, entry) && Valid(Contents())
      ensures |order| <= |old(order)| + 1
    {
      PutIsValid(Contents(), key, entry);
      WithoutIfAbsent(order, key);
      var _ := Drop(key);
      order := order + [key];
      entries := entries[key := entry];
      assert entries == old(entries)[key := entry];
    }

    method EvictOverflow()
      requires Valid(Contents()) && |order| <= config.maxEntries + 1 && config.Valid()
      modifies `order, `entries, `evictions
      ensures Contents() == Evict(old(Contents()), config.maxEntries) && Sound()
      ensures evictions == old(evictions) + (if |old(order)| > config.maxEntries then 1 else 0)
    {
      EvictDropsTheOldest(Contents(), config.maxEntries);
      while |order| > config.maxEntries
        invariant Valid(Contents()) && |order| <= config.maxEntries + 1
        invariant Evict(Contents(), config.maxEntries) == Evict(old(Contents()), config.maxEntries)
        invariant evictions + |order| == old(evictions) + |old(order)|
        invariant |order| < config.maxEntries ==> |old(order)| == |order|
      {
        EvictDropsTheOldest(Contents(), config.maxEntries);
        var oldest := order[0];
        assert order == [oldest] + order[1..];
        order := order[1..];
        entries := entries - {oldest};
        evictions := evictions + 1;
      }
    }

    method SetEntry(key: Key, value: V, ttlSeconds: Option<int>, now: Time)
      requires Sound()
      modifies this
      ensures Contents() == Set(old(Contents()), key, Entry(value, now + ResolveTtlMs(config, ttlSeconds)),
                config.maxEntries)
      ensures Sound() && sets == old(sets) + 1
      ensures order != [] && order[|order| - 1] == key && key in entries
      ensures entries[key] == Entry(value, now + 1000 * match ttlSeconds
                                                        case None => config.defaultTtlSeconds
                                                        case Some(ttl) => Clamp(ttl, 1, 3600))
      ensures old(evictions) <= evictions <= old(evictions) + 1
      ensures hits == old(hits) && misses == old(misses) && deletes == old(deletes) && inflight == old(inflight)
    {
      SetPutsLast(Contents(), key, Entry(value, now + ResolveTtlMs(config, ttlSeconds)), config.maxEntries);
      Reinsert(key, Entry(value, now + ResolveTtlMs(config, ttlSeconds)));
      sets := sets + 1;
      EvictOverflow();
    }

    /** Keys are deleted while they are iterated; a Map iterator then goes on with the next one. */
    method DeleteByPrefix(prefix: string) returns (deletedCount: nat)
      requires Sound()
      modifies `order, `entries, `inflight, `deletes
      ensures Contents() == RemovePrefix(old(Contents()), prefix) && Sound()
      ensures inflight == KeysWithout(old(inflight), prefix)
      ensures deletedCount == |old(order)| - |order| + |old(inflight)| - |inflight|
      ensures deletes == old(deletes) + deletedCount
      ensures forall k :: k in entries <==>
                k in old(entries) && !Begins(k.text, prefix)
      ensures forall k :: k in entries ==> entries[k] == old(entries)[k]
      ensures forall k :: k in inflight <==>
                k in old(inflight) && !Begins(k.text, prefix)
    {
      KeysWithoutHas(inflight, prefix);
      RemovePrefixHas(Contents(), prefix);
      ghost var before := Contents();
      var kept, rest := [], order;
      deletedCount := 0;
      RemovePrefixIsValid(before, prefix);
      while rest != []
        invariant order == kept + rest && NoDuplicates(rest)
        invariant Sifted(before, prefix, kept, rest, entries)
        invariant deletedCount + |order| == |before.order|
        invariant inflight == old(inflight) && deletes == old(deletes)
        decreases |rest|
      {
        var key, others := rest[0], rest[1..];
        SiftOneKey(before, prefix, kept, rest, entries);
        if key.StartsWith(prefix) {
          order := kept + others;
          entries := entries - {key};
          deletedCount := deletedCount + 1;
        } else {
          kept := kept + [key];
        }
        rest := others;
      }
      SiftedAll(before, prefix, kept, entries);
      var dropped := DropInflight(prefix);
      deletedCount := deletedCount + dropped;
      deletes := deletes + deletedCount;
    }

    /** The same loop over the loads in flight; the loads themselves go on. */
    method DropInflight(prefix: string) returns (dropped: nat)
      modifies `inflight
      ensures inflight == KeysWithout(old(inflight), prefix)
      ensures dropped == |old(inflight)| - |inflight|
    {
      var kept, rest := [], inflight;
      dropped := 0;
      while rest != []
        invariant inflight == kept + rest && dropped + |inflight| == |old(inflight)|
        invariant kept + KeysWithout(rest, prefix) == KeysWithout(old(inflight), prefix)
        decreases |rest|
      {
        var key, others := rest[0], rest[1..];
        if key.StartsWith(prefix) {
          inflight := kept + others;
          dropped := dropped + 1;
        } else {
          kept := kept + [key];
        }
        rest := others;
      }
    }

    /** A load starts, under its dedupe key; Map.prototype.set keeps the place of a key that is there. */
    method RegisterInflight(dedupeKey: Key)
      modifies `inflight
      ensures inflight == if dedupeKey in old(inflight) then old(inflight) else old(inflight) + [dedupeKey]
    {
      if dedupeKey !in inflight { inflight := inflight + [dedupeKey]; }
    }

    method DeleteEntry(key: Key)
      requires Sound() && NoDuplicates(inflight)
      modifies `order, `entries, `inflight, `deletes
      ensures Contents() == Remove(old(Contents()), key) && entries == old(entries) - {key}
      ensures NoDuplicates(inflight) && forall k :: k in inflight <==> k in old(inflight) && k != key
      ensures deletes == old(deletes) + (if key in old(entries) then 1 else 0) + (if key in old(inflight) then 1 else 0)
    {
      WithoutRemoves(inflight, key);
      var present := Drop(key);
      if present { deletes := deletes + 1; }
      if key in inflight {
        inflight := Without(inflight, key);
        deletes := deletes + 1;
      }
    }

    method Clear()
      requires Sound()
      modifies `order, `entries, `inflight, `deletes
      ensures Contents() == Lru([], map[]) && Sound() && inflight == []
      ensures deletes == old(deletes) + |old(entries)| + |old(inflight)|
    {
      deletes := deletes + |entries| + |inflight|;
      order, entries, inflight := [], map[], [];
    }
  }

  /** What is left of `before` when the keys with the prefix are gone, but for those in `rest`. */
  ghost predicate OnlyPrefixedGone<V>(before: map<Key, Entry<V>>, entries: map<Key, Entry<V>>, prefix: string,
                                      rest: seq<Key>)
  {
    && (forall k :: k in entries <==> k in before && (k.StartsWith(prefix) ==> k in rest))
    && (forall k :: k in entries ==> entries[k] == before[k])
  }

  lemma OneEntryLess<V>(before: map<Key, Entry<V>>, entries: map<Key, Entry<V>>, prefix: string, rest: seq<Key>)
    requires rest != [] && NoDuplicates(rest) && OnlyPrefixedGone(before, entries, prefix, rest)
    ensures OnlyPrefixedGone(before, if rest[0].StartsWith(prefix) then entries - {rest[0]} else entries,
                             prefix, rest[1..])
  {
    forall k
      ensures k in rest[1..] <==> k in rest && k != rest[0]
    {
      if k in rest && k != rest[0] {
        var i :| 0 <= i < |rest| && rest[i] == k;
        assert rest[1..][i - 1] == k;
      }
    }
  }

  lemma RemovePrefixIsValid<V>(c: Lru<V>, prefix: string)
    requires Valid(c)
    ensures Valid(RemovePrefix(c, prefix)) && |RemovePrefix(c, prefix).order| <= |c.order|
  {
    KeysWithoutRemoves(c.order, prefix);
  }

  lemma WithoutIfAbsent(order: seq<Key>, key: Key)
    ensures key !in order ==> Without(order, key) == order
  {
    if key !in order { WithoutAbsent(order, key); }
  }

  /** Iteration so far: `kept` are the keys that stayed, `rest` those still to be visited. */
  ghost predicate Sifted<V>(before: Lru<V>, prefix: string, kept: seq<Key>, rest: seq<Key>,
                            entries: map<Key, Entry<V>>)
  {
    && kept + KeysWithout(rest, prefix) == KeysWithout(before.order, prefix)
    && OnlyPrefixedGone(before.entries, entries, prefix, rest)
  }

  lemma SiftOneKey<V>(before: Lru<V>, prefix: string, kept: seq<Key>, rest: seq<Key>, entries: map<Key, Entry<V>>)
    requires rest != [] && NoDuplicates(rest) && Sifted(before, prefix, kept, rest, entries)
    ensures NoDuplicates(rest[1..]) && kept + rest == (kept + [rest[0]]) + rest[1..]
    ensures rest[0].StartsWith(prefix) ==> Sifted(before, prefix, kept, rest[1..], entries - {rest[0]})
    ensures !rest[0].StartsWith(prefix) ==> Sifted(before, prefix, kept + [rest[0]], rest[1..], entries)
  {
    OneEntryLess(before.entries, entries, prefix, rest);
  }

  lemma SiftedAll<V>(before: Lru<V>, prefix: string, kept: seq<Key>, entries: map<Key, Entry<V>>)
    requires Sifted(before, prefix, kept, [], entries) && Valid(before)
    ensures Lru(kept, entries) == RemovePrefix(before, prefix)
  {
    assert kept + [] == kept;
    assert entries == RemovePrefix(before, prefix).entries;
  }
}
