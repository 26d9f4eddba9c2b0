/**
 `getOrSet`: concurrent callers share one load. JavaScript runs a call up to its first `await` in one
 piece, so a step here is one such piece: the start of a call, a loader's promise settling (which
 writes the cache), or a waiting call going on. Between two of them anything else may happen, and the
 clock may advance.

 Values are never null: a load that yields null is cached but never served from the cache.
 */
module SingleFlight {
  import opened Wrappers

  type Time = int
  type Key = nat
  type Value = nat
  type LoadId = nat
  type CallId = nat

  datatype Settled = Pending | Resolved(value: Value, at: Time) | Rejected

  /**
   One run of a loader: the call that started it, and until when others may join it.
   */
  datatype Load = Load(owner: CallId, key: Key, dedupe: Key, ttl: nat, startedAt: Time, expiresAt: Time,
                       settled: Settled)

  /** `source` is history: the load that wrote the entry, or none for a plain `set`. */
  datatype Entry = Entry(value: Value, writtenAt: Time, expiresAt: Time, source: Option<LoadId>)

  datatype Pc =
    | Fresh
    | Awaiting(load: LoadId)
    | FromCache(value: Value, entry: Entry, at: Time)
    | FromLoad(value: Value, load: LoadId)
    | Failed(load: LoadId)

  datatype Call = Call(key: Key, dedupe: Key, pc: Pc)

  /** `dropped` is history: loads whose in-flight entry an invalidation deleted. */
  datatype State = State(
    now: Time,
    entries: map<Key, Entry>,
    inflight: map<Key, LoadId>,
    loads: map<LoadId, Load>,
    dropped: set<LoadId>,
    calls: map<CallId, Call>)

  datatype Event =
    | Invoke(call: CallId, key: Key, dedupe: Key)
    | Begin(call: CallId, load: LoadId, ttl: nat, inflightTtl: nat)
    | Resolve(load: LoadId, value: Value)
    | Reject(load: LoadId)
    | Continue(call: CallId)
    | Set(key: Key, value: Value, ttl: nat)
    | Delete(keys: set<Key>)
    | Evict(key: Key)
    | Prune
    | Tick(now: Time)

  const MIN_TTL := 1_000
  const MAX_TTL := 3_600_000
  const MIN_INFLIGHT_TTL := 500
  const MAX_INFLIGHT_TTL := 30_000

  // ---------------------------------------------------------------- steps

  /** An in-flight entry that may still be joined. */
  predicate Joinable(s: State, dedupe: Key) {
    dedupe in s.inflight && s.inflight[dedupe] in s.loads && s.loads[s.inflight[dedupe]].expiresAt > s.now
  }

  predicate Live(s: State, key: Key) {
    key in s.entries && s.entries[key].expiresAt > s.now
  }

  /** The first piece of getOrSet: serve from the cache, join a load, or start one. */
  function BeginCall(s: State, c: CallId, load: LoadId, ttl: nat, inflightTtl: nat): State
    requires c in s.calls
  {
    var call := s.calls[c];
    if Live(s, call.key) then
      s.(calls := s.calls[c := call.(pc := FromCache(s.entries[call.key].value, s.entries[call.key], s.now))])
    else
      var live := s.(entries := s.entries - {call.key});
      if Joinable(s, call.dedupe) then
        live.(calls := s.calls[c := call.(pc := Awaiting(s.inflight[call.dedupe]))])
      else
        live.(loads := s.loads[load := Load(c, call.key, call.dedupe, ttl, s.now, s.now + inflightTtl, Pending)],
              inflight := s.inflight[call.dedupe := load],
              calls := s.calls[c := call.(pc := Awaiting(load))])
  }

  /** The loader's value arrives: it is written under the load's own key, whatever happened meanwhile. */
  function ResolveLoad(s: State, load: LoadId, value: Value): State
    requires load in s.loads
  {
    var l := s.loads[load];
    s.(loads := s.loads[load := l.(settled := Resolved(value, s.now))],
       entries := s.entries[l.key := Entry(value, s.now, s.now + l.ttl, Some(load))])
  }

  /** After the await: the caller that started the load removes its own in-flight entry, and only that. */
  function ContinueCall(s: State, c: CallId): State
    requires c in s.calls && s.calls[c].pc.Awaiting? && s.calls[c].pc.load in s.loads
  {
    var call := s.calls[c];
    var load := call.pc.load;
    var inflight := if s.loads[load].owner == c && call.dedupe in s.inflight && s.inflight[call.dedupe] == load
                    then s.inflight - {call.dedupe} else s.inflight;
    match s.loads[load].settled
    case Pending => s
    case Resolved(value, _) => s.(inflight := inflight, calls := s.calls[c := call.(pc := FromLoad(value, load))])
    case Rejected => s.(inflight := inflight, calls := s.calls[c := call.(pc := Failed(load))])
  }

  /** delete, deleteByPrefix and clear drop entries and in-flight entries alike; running loads go on. */
  function DeleteKeys(s: State, keys: set<Key>): State {
    s.(entries := s.entries - keys, inflight := s.inflight - keys,
       dropped := s.dropped + set d | d in s.inflight && d in keys :: s.inflight[d])
  }

  function PruneExpired(s: State): State {
    s.(inflight := map d | d in s.inflight && s.inflight[d] in s.loads
        && s.loads[s.inflight[d]].expiresAt > s.now :: s.inflight[d])
  }

  predicate Allowed(s: State, e: Event) {
    match e
    case Invoke(c, _, _) => c !in s.calls
    case Begin(c, load, ttl, inflightTtl) =>
      && c in s.calls && s.calls[c].pc.Fresh? && load !in s.loads
      && MIN_TTL <= ttl <= MAX_TTL && MIN_INFLIGHT_TTL <= inflightTtl <= MAX_INFLIGHT_TTL
    case Resolve(load, _) => load in s.loads && s.loads[load].settled.Pending?
    case Reject(load) => load in s.loads && s.loads[load].settled.Pending?
    case Continue(c) => c in s.calls && s.calls[c].pc.Awaiting? && s.calls[c].pc.load in s.loads
    case Set(_, _, ttl) => MIN_TTL <= ttl <= MAX_TTL
    case Tick(now) => s.now <= now
    case _ => true
  }

  function Step(s: State, e: Event): State
    requires Allowed(s, e)
  {
    match e
    case Invoke(c, key, dedupe) => s.(calls := s.calls[c := Call(key, dedupe, Fresh)])
    case Begin(c, load, ttl, inflightTtl) => BeginCall(s, c, load, ttl, inflightTtl)
    case Resolve(load, value) => ResolveLoad(s, load, value)
    case Reject(load) => s.(loads := s.loads[load := s.loads[load].(settled := Rejected)])
    case Continue(c) => ContinueCall(s, c)
    case Set(key, value, ttl) => s.(entries := s.entries[key := Entry(value, s.now, s.now + ttl, None)])
    case Delete(keys) => DeleteKeys(s, keys)
    case Evict(key) => s.(entries := s.entries - {key})
    case Prune => PruneExpired(s)
    case Tick(now) => s.(now := now)
  }

  // ---------------------------------------------------------------- the invariant

  /** A pending load others may still join is the one registered under its key. */
  predicate LoadSound(s: State, l: LoadId)
    requires l in s.loads
  {
    var load := s.loads[l];
    && MIN_TTL <= load.ttl <= MAX_TTL && load.startedAt <= s.now
    && (load.settled.Pending? && l !in s.dropped && load.expiresAt > s.now ==>
          load.dedupe in s.inflight && s.inflight[load.dedupe] == l)
    && (load.settled.Resolved? ==> load.startedAt <= load.settled.at <= s.now)
  }

  predicate InflightSound(s: State, d: Key)
    requires d in s.inflight
  {
    s.inflight[d] in s.loads && s.loads[s.inflight[d]].dedupe == d
  }

  /** Every cached value was written at most one time-to-live ago, by a `set` or by a load of that very key. */
  predicate EntrySound(s: State, key: Key, e: Entry) {
    && e.writtenAt <= s.now && e.writtenAt + MIN_TTL <= e.expiresAt <= e.writtenAt + MAX_TTL
    && (e.source.Some? ==>
          && e.source.value in s.loads && s.loads[e.source.value].key == key
          && s.loads[e.source.value].settled == Resolved(e.value, e.writtenAt)
          && e.expiresAt == e.writtenAt + s.loads[e.source.value].ttl)
  }

  predicate CallSound(s: State, call: Call) {
    match call.pc
    case Fresh => true
    case Awaiting(l) => l in s.loads && s.loads[l].dedupe == call.dedupe
    case FromCache(value, entry, at) =>
      EntrySound(s, call.key, entry) && entry.value == value && entry.writtenAt <= at < entry.expiresAt
    case FromLoad(value, l) =>
      l in s.loads && s.loads[l].dedupe == call.dedupe && s.loads[l].settled.Resolved?
          && s.loads[l].settled.value == value
    case Failed(l) => l in s.loads && s.loads[l].dedupe == call.dedupe && s.loads[l].settled.Rejected?
  }

  ghost predicate Inv(s: State) {
    && (forall l :: l in s.loads ==> LoadSound(s, l))
    && (forall d :: d in s.inflight ==> InflightSound(s, d))
    && (forall k :: k in s.entries ==> EntrySound(s, k, s.entries[k]))
    && (forall c :: c in s.calls ==> CallSound(s, s.calls[c]))
  }

  /** Loads only ever settle, and nothing rewrites a settled one. */
  ghost predicate LoadsKept(s: State, after: State) {
    && s.now <= after.now
    && (forall l :: l in s.loads ==> l in after.loads)
    && (forall l :: l in s.loads ==>
          && after.loads[l] == s.loads[l].(settled := after.loads[l].settled)
          && (!s.loads[l].settled.Pending? ==> after.loads[l].settled == s.loads[l].settled))
  }

  lemma EntryIsStable(s: State, after: State, k: Key, e: Entry)
    requires LoadsKept(s, after) && EntrySound(s, k, e)
    ensures EntrySound(after, k, e)
  {
  }

  lemma CallIsStable(s: State, after: State, call: Call)
    requires LoadsKept(s, after) && CallSound(s, call)
    ensures CallSound(after, call)
  {
    if call.pc.FromCache? { EntryIsStable(s, after, call.key, call.pc.entry); }
  }

  /** What is left to show once loads, in-flight entries and new cache entries are sound: the rest is stable. */
  lemma RestIsStable(s: State, after: State)
    requires Inv(s) && LoadsKept(s, after)
    requires forall k :: k in after.entries && !(k in s.entries && after.entries[k] == s.entries[k]) ==>
               EntrySound(after, k, after.entries[k])
    requires forall c :: c in after.calls && !(c in s.calls && after.calls[c] == s.calls[c]) ==>
               CallSound(after, after.calls[c])
    ensures forall k :: k in after.entries ==> EntrySound(after, k, after.entries[k])
    ensures forall c :: c in after.calls ==> CallSound(after, after.calls[c])
  {
    forall k | k in after.entries
      ensures EntrySound(after, k, after.entries[k])
    {
      if k in s.entries && after.entries[k] == s.entries[k] { EntryIsStable(s, after, k, s.entries[k]); }
    }
    forall c | c in after.calls
      ensures CallSound(after, after.calls[c])
    {
      if c in s.calls && after.calls[c] == s.calls[c] { CallIsStable(s, after, s.calls[c]); }
    }
  }

  lemma BeginKeepsInv(s: State, e: Event)
    requires Inv(s) && e.Begin? && Allowed(s, e)
    ensures Inv(Step(s, e)) && LoadsKept(s, Step(s, e))
  {
    var call := s.calls[e.call];
    if Live(s, call.key) || Joinable(s, call.dedupe) {
      AnsweredAtOnceKeepsInv(s, e);
    } else {
      StartKeepsInv(s, e);
    }
  }

  /** Served from the cache, or joined to a running load: no load is added. */
  lemma AnsweredAtOnceKeepsInv(s: State, e: Event)
    requires Inv(s) && e.Begin? && Allowed(s, e)
    requires Live(s, s.calls[e.call].key) || Joinable(s, s.calls[e.call].dedupe)
    ensures Inv(Step(s, e)) && LoadsKept(s, Step(s, e))
  {
    var after, call := Step(s, e), s.calls[e.call];
    if Live(s, call.key) {
      assert EntrySound(s, call.key, s.entries[call.key]);
    } else {
      assert InflightSound(s, call.dedupe);
    }
    RestIsStable(s, after);
    forall l | l in after.loads
      ensures LoadSound(after, l)
    {
      assert LoadSound(s, l);
    }
    forall d | d in after.inflight
      ensures InflightSound(after, d)
    {
      assert InflightSound(s, d);
    }
  }

  lemma StartKeepsInv(s: State, e: Event)
    requires Inv(s) && e.Begin? && Allowed(s, e)
    requires !Live(s, s.calls[e.call].key) && !Joinable(s, s.calls[e.call].dedupe)
    ensures Inv(Step(s, e)) && LoadsKept(s, Step(s, e))
  {
    var after := Step(s, e);
    RestIsStable(s, after);
    forall l | l in after.loads
      ensures LoadSound(after, l)
    {
      if l in s.loads { assert LoadSound(s, l); }
    }
    forall d | d in after.inflight
      ensures InflightSound(after, d)
    {
      if d in s.inflight { assert InflightSound(s, d); }
    }
  }

  lemma SettleKeepsInv(s: State, e: Event)
    requires Inv(s) && (e.Resolve? || e.Reject?) && Allowed(s, e)
    ensures Inv(Step(s, e)) && LoadsKept(s, Step(s, e))
  {
    var after := Step(s, e);
    assert LoadSound(s, e.load);
    RestIsStable(s, after);
    forall l | l in after.loads
      ensures LoadSound(after, l)
    {
      assert LoadSound(s, l);
    }
    forall d | d in after.inflight
      ensures InflightSound(after, d)
    {
      assert InflightSound(s, d);
    }
  }

  lemma ContinueKeepsInv(s: State, e: Event)
    requires Inv(s) && e.Continue? && Allowed(s, e)
    ensures Inv(Step(s, e)) && LoadsKept(s, Step(s, e))
  {
    var after := Step(s, e);
    assert CallSound(s, s.calls[e.call]);
    RestIsStable(s, after);
    forall l | l in after.loads
      ensures LoadSound(after, l)
    {
      assert LoadSound(s, l);
    }
    forall d | d in after.inflight
      ensures InflightSound(after, d)
    {
      assert InflightSound(s, d);
    }
  }

  lemma CacheEventKeepsInv(s: State, e: Event)
    requires Inv(s) && (e.Set? || e.Delete? || e.Evict? || e.Prune? || e.Tick? || e.Invoke?) && Allowed(s, e)
    ensures Inv(Step(s, e)) && LoadsKept(s, Step(s, e))
  {
    var after := Step(s, e);
    RestIsStable(s, after);
    forall l | l in after.loads
      ensures LoadSound(after, l)
    {
      assert LoadSound(s, l);
    }
    forall d | d in after.inflight
      ensures InflightSound(after, d)
    {
      assert InflightSound(s, d);
    }
  }

  lemma StepKeepsInv(s: State, e: Event)
    requires Inv(s) && Allowed(s, e)
    ensures Inv(Step(s, e)) && LoadsKept(s, Step(s, e))
  {
    match e
    case Begin(_, _, _, _) => BeginKeepsInv(s, e);
    case Resolve(_, _) => SettleKeepsInv(s, e);
    case Reject(_) => SettleKeepsInv(s, e);
    case Continue(_) => ContinueKeepsInv(s, e);
    case _ => CacheEventKeepsInv(s, e);
  }

  // ---------------------------------------------------------------- every run

  ghost predicate IsRun(states: seq<State>, events: seq<Event>) {
    && |states| == |events| + 1
    && forall i :: 0 <= i < |events| ==> Allowed(states[i], events[i]) && states[i + 1] == Step(states[i], events[i])
  }

  lemma {:induction false} RunKeepsInv(states: seq<State>, events: seq<Event>, i: nat)
    requires IsRun(states, events) && Inv(states[0]) && i < |states|
    ensures Inv(states[i])
  {
    if i > 0 {
      RunKeepsInv(states, events, i - 1);
      StepKeepsInv(states[i - 1], events[i - 1]);
    }
  }

  /** The step that starts a second loader for a key while a first is still running. */
  predicate StartsLoader(s: State, e: Event)
    requires Allowed(s, e)
  {
    e.Begin? && e.load in Step(s, e).loads
  }

  /**
   What a call does first: it is served exactly if the key's entry has not expired; otherwise it awaits an
   older load exactly if the one registered under its dedupe key may still be joined; otherwise it starts
   one, pending, under that key.
   */
  lemma BeginDoes(states: seq<State>, events: seq<Event>, i: nat)
    requires IsRun(states, events) && Inv(states[0]) && i < |events| && events[i].Begin?
    ensures var s, after, e := states[i], states[i + 1], events[i];
            var call, pc := s.calls[e.call], after.calls[e.call].pc;
            var served := call.key in s.entries && s.entries[call.key].expiresAt > s.now;
            var joins := call.dedupe in s.inflight && s.inflight[call.dedupe] in s.loads
                         && s.loads[s.inflight[call.dedupe]].expiresAt > s.now;
            && (served <==> pc.FromCache?)
            && (served ==> pc.value == s.entries[call.key].value && after == s.(calls := after.calls))
            && (!served && joins ==>
                  pc == Awaiting(s.inflight[call.dedupe]) && after.loads == s.loads && after.inflight == s.inflight)
            && (!served && !joins ==>
                  && pc == Awaiting(e.load) && e.load !in s.loads
                  && after.loads == s.loads[
                       e.load := Load(e.call, call.key, call.dedupe, e.ttl, s.now, s.now + e.inflightTtl, Pending)]
                  && after.inflight == s.inflight[call.dedupe := e.load])
            && (!served ==> after.entries == s.entries - {call.key})
            && after.now == s.now && after.dropped == s.dropped && after.calls == s.calls[e.call := call.(pc := pc)]
  {
    RunKeepsInv(states, events, i);
  }

  /**
   What becomes of a load: its value is cached under its own key for its time to live, a failure is not;
   those who await it get its value or its failure when it has settled, and not before.
   */
  lemma SettlingDoes(states: seq<State>, events: seq<Event>, i: nat)
    requires IsRun(states, events) && Inv(states[0]) && i < |events|
    ensures var s, after, e := states[i], states[i + 1], events[i];
            && (e.Resolve? ==>
                  && after.loads == s.loads[e.load := s.loads[e.load].(settled := Resolved(e.value, s.now))]
                  && after.entries ==
                       s.entries[s.loads[e.load].key :=
                           Entry(e.value, s.now, s.now + s.loads[e.load].ttl, Some(e.load))]
                  && after.inflight == s.inflight && after.calls == s.calls)
            && (e.Reject? ==> after == s.(loads := s.loads[e.load := s.loads[e.load].(settled := Rejected)]))
            && (e.Continue? ==>
                  var call := s.calls[e.call];
                  var load := s.loads[call.pc.load];
                  && (load.settled.Pending? ==> after == s)
                  && (load.settled.Resolved? ==> after.calls[e.call].pc == FromLoad(load.settled.value, call.pc.load))
                  && (load.settled.Rejected? ==> after.calls[e.call].pc == Failed(call.pc.load))
                  && after.entries == s.entries && after.loads == s.loads
                  && (!load.settled.Pending? && load.owner == e.call ==>
                        !(call.dedupe in after.inflight && after.inflight[call.dedupe] == call.pc.load)))
            && (e.Delete? ==>
                  && after.entries == s.entries - e.keys && after.inflight == s.inflight - e.keys
                  && after.loads == s.loads)
            && (e.Set? ==> after.entries == s.entries[e.key := Entry(e.value, s.now, s.now + e.ttl, None)])
            && (e.Evict? ==> after.entries == s.entries - {e.key} && after.inflight == s.inflight)
            && (e.Prune? ==> after.entries == s.entries && forall d :: d in after.inflight <==>
                  d in s.inflight && s.inflight[d] in s.loads && s.loads[s.inflight[d]].expiresAt > s.now)
  {
    RunKeepsInv(states, events, i);
    forall d | d in states[i].inflight
      ensures states[i].inflight[d] in states[i].loads
    {
      assert InflightSound(states[i], d);
    }
  }

  /**
   Single flight: when a loader starts, every other load of the same dedupe key is settled, was dropped
   by an invalidation, or has outlived the time in which it may be joined.
   */
  lemma NoSecondLoader(states: seq<State>, events: seq<Event>, i: nat, l: LoadId)
    requires IsRun(states, events) && Inv(states[0]) && i < |events|
    requires StartsLoader(states[i], events[i])
    requires l in states[i].loads && states[i].loads[l].dedupe == states[i].calls[events[i].call].dedupe
    ensures !states[i].loads[l].settled.Pending? || l in states[i].dropped
              || states[i].loads[l].expiresAt <= states[i].now
  {
    RunKeepsInv(states, events, i);
    assert LoadSound(states[i], l);
  }

  /** What every caller gets: a cached value of its key, or the outcome of a load of its dedupe key. */
  lemma CallersGetALoadOfTheirKey(states: seq<State>, events: seq<Event>, i: nat, c: CallId)
    requires IsRun(states, events) && Inv(states[0]) && i < |states| && c in states[i].calls
    ensures var s, call := states[i], states[i].calls[c];
            match call.pc
            case FromLoad(value, l) =>
              l in s.loads && s.loads[l].dedupe == call.dedupe && s.loads[l].settled.Resolved?
                  && s.loads[l].settled.value == value
            case FromCache(value, entry, at) =>
              && entry.value == value
              && (entry.source.Some? ==> entry.source.value in s.loads && s.loads[entry.source.value].key == call.key)
            case Failed(l) => l in s.loads && s.loads[l].dedupe == call.dedupe && s.loads[l].settled.Rejected?
            case _ => true
  {
    RunKeepsInv(states, events, i);
    assert CallSound(states[i], states[i].calls[c]);
  }

  /** Bounded staleness: a value served from the cache was written less than one time-to-live before. */
  lemma StalenessIsBounded(states: seq<State>, events: seq<Event>, i: nat, c: CallId)
    requires IsRun(states, events) && Inv(states[0]) && i < |states|
    requires c in states[i].calls && states[i].calls[c].pc.FromCache?
    ensures var pc := states[i].calls[c].pc;
            && 0 <= pc.at - pc.entry.writtenAt < MAX_TTL
            && (pc.entry.source.Some? ==>
                  && pc.entry.source.value in states[i].loads
                  && states[i].loads[pc.entry.source.value].settled == Resolved(pc.value, pc.entry.writtenAt)
                  && pc.at - pc.entry.writtenAt < states[i].loads[pc.entry.source.value].ttl)
  {
    RunKeepsInv(states, events, i);
    assert CallSound(states[i], states[i].calls[c]);
  }

  /** A call that goes on removes its own in-flight entry at most, never a successor's. */
  lemma OnlyOwnEntryIsRemoved(states: seq<State>, events: seq<Event>, i: nat, d: Key)
    requires IsRun(states, events) && Inv(states[0]) && i < |events|
    requires events[i].Continue? && d in states[i].inflight
    requires !(d in states[i + 1].inflight && states[i + 1].inflight[d] == states[i].inflight[d])
    ensures var call := states[i].calls[events[i].call];
            && d == call.dedupe && states[i].inflight[d] == call.pc.load
            && states[i].loads[call.pc.load].owner == events[i].call && !states[i].loads[call.pc.load].settled.Pending?
  {
    RunKeepsInv(states, events, i);
  }

  // ---------------------------------------------------------------- invalidation

  /** A value a load wrote for `key` comes from a load started after `start`, or still pending then. */
  ghost predicate FreshSince(start: State, s: State, key: Key) {
    && LoadsKept(start, s)
    && (key in s.entries && s.entries[key].source.Some? && s.entries[key].source.value in start.loads ==>
          && start.loads[s.entries[key].source.value].settled.Pending?
          && start.loads[s.entries[key].source.value].key == key)
  }

  lemma LoadsKeptTransitive(x: State, y: State, z: State)
    requires LoadsKept(x, y) && LoadsKept(y, z)
    ensures LoadsKept(x, z)
  {
  }

  /** A loaded value appears in the cache only in the step in which its load resolves. */
  lemma OnlyResolveWritesLoads(s: State, e: Event, key: Key)
    requires Allowed(s, e) && key in Step(s, e).entries && Step(s, e).entries[key].source.Some?
    ensures || (key in s.entries && s.entries[key] == Step(s, e).entries[key])
            || (e.Resolve? && Step(s, e).entries[key].source == Some(e.load) && s.loads[e.load].key == key)
  {
  }

  lemma StepKeepsFreshness(start: State, s: State, e: Event, key: Key)
    requires Inv(s) && Allowed(s, e) && FreshSince(start, s, key)
    ensures FreshSince(start, Step(s, e), key)
  {
    StepKeepsInv(s, e);
    LoadsKeptTransitive(start, s, Step(s, e));
    if key in Step(s, e).entries && Step(s, e).entries[key].source.Some? { OnlyResolveWritesLoads(s, e, key); }
  }

  /**
   After an invalidation, a value that a load writes for the key comes from a load started afterwards,
   or from one that was in flight when the invalidation ran. The second case is real: see below.
   */
  lemma {:induction false} InvalidationForgetsSettledLoads(states: seq<State>, events: seq<Event>, i: nat, j: nat,
      key: Key)
    requires IsRun(states, events) && Inv(states[0]) && i < j < |states|
    requires events[i].Delete? && key in events[i].keys
    ensures FreshSince(states[i], states[j], key)
  {
    if i == j - 1 {
      RunKeepsInv(states, events, i);
      StepKeepsInv(states[i], events[i]);
    } else {
      InvalidationForgetsSettledLoads(states, events, i, j - 1, key);
      RunKeepsInv(states, events, j - 1);
      StepKeepsFreshness(states[i], states[j - 1], events[j - 1], key);
    }
  }

  /** If no load of the key was in flight at the invalidation, every later loaded value is newer than it. */
  lemma NoStaleWriteWithoutInflight(states: seq<State>, events: seq<Event>, i: nat, j: nat, key: Key)
    requires IsRun(states, events) && Inv(states[0]) && i < j < |states|
    requires events[i].Delete? && key in events[i].keys
    requires forall l :: l in states[i].loads && states[i].loads[l].settled.Pending? ==> states[i].loads[l].key != key
    requires key in states[j].entries && states[j].entries[key].source.Some?
    ensures states[j].entries[key].source.value !in states[i].loads
  {
    InvalidationForgetsSettledLoads(states, events, i, j, key);
  }

  predicate PendingFor(s: State, l: LoadId, key: Key) {
    l in s.loads && s.loads[l].settled.Pending? && s.loads[l].key == key
  }

  /** The run goes on like this, and in the end the key holds what a load from before the invalidation wrote. */
  ghost predicate EndsStale(states: seq<State>, events: seq<Event>, later: seq<State>, more: seq<Event>, i: nat,
                            key: Key)
    requires i < |states|
  {
    && IsRun(states + later, events + more)
    && var last := (states + later)[|states + later| - 1];
       key in last.entries && last.entries[key].source.Some? && last.entries[key].source.value in states[i].loads
  }

  /** An invalidation leaves room for a stale write, in some continuation, exactly if a load of the key is in flight. */
  lemma StaleWriteIff(states: seq<State>, events: seq<Event>, i: nat, key: Key)
    requires IsRun(states, events) && Inv(states[0]) && |events| == i + 1
    requires events[i].Delete? && key in events[i].keys
    ensures (exists later, more :: EndsStale(states, events, later, more, i, key))
            <==> exists l :: PendingFor(states[i], l, key)
  {
    if l :| PendingFor(states[i], l, key) { PendingLoadEndsStale(states, events, i, key, l); }
    if later, more :| EndsStale(states, events, later, more, i, key) {
      var all, said := states + later, events + more;
      assert all[0] == states[0] && all[i] == states[i] && said[i] == events[i];
      InvalidationForgetsSettledLoads(all, said, i, |all| - 1, key);
      assert PendingFor(states[i], all[|all| - 1].entries[key].source.value, key);
    }
  }

  lemma PendingLoadEndsStale(states: seq<State>, events: seq<Event>, i: nat, key: Key, l: LoadId)
    requires IsRun(states, events) && |events| == i + 1 && events[i].Delete? && PendingFor(states[i], l, key)
    ensures exists later, more :: EndsStale(states, events, later, more, i, key)
  {
    assert states[i + 1] == Step(states[i], events[i]);
    var settled := Step(states[i + 1], Resolve(l, 0));
    forall k | 0 <= k < |events + [Resolve(l, 0)]|
      ensures Allowed((states + [settled])[k], (events + [Resolve(l, 0)])[k])
      ensures (states + [settled])[k + 1] == Step((states + [settled])[k], (events + [Resolve(l, 0)])[k])
    {
      if k <= i {
        assert Allowed(states[k], events[k]) && states[k + 1] == Step(states[k], events[k]);
      }
    }
    assert EndsStale(states, events, [settled], [Resolve(l, 0)], i, key);
  }

  /** One call starts a load of key 5; the key is invalidated while the load runs; the load writes 9 all the same. */
  lemma StaleWriteHappens(states: seq<State>, events: seq<Event>)
    requires events == [Invoke(0, 5, 5), Begin(0, 1, MIN_TTL, MIN_INFLIGHT_TTL), Delete({5}), Resolve(1, 9)]
    requires |states| == 5 && states[0] == State(0, map[], map[], map[], {}, map[])
    requires forall i :: 0 <= i < 4 ==> (Allowed(states[i], events[i]) ==> states[i + 1] == Step(states[i], events[i]))
    ensures IsRun(states, events) && Inv(states[0])
    ensures 5 !in states[3].entries && 5 in states[4].entries && states[4].entries[5].value == 9
  {
    assert Allowed(states[0], events[0]);
    assert Allowed(states[1], events[1]);
    assert 1 in states[2].loads && states[2].loads[1].settled.Pending?;
    assert Allowed(states[2], events[2]);
    assert Allowed(states[3], events[3]);
    forall i | 0 <= i < |events|
      ensures Allowed(states[i], events[i]) && states[i + 1] == Step(states[i], events[i])
    {
      if i == 0 {} else if i == 1 {} else if i == 2 {} else {}
    }
  }

  /** A load in flight during the invalidation still writes what it read before it. */
  lemma InflightLoadSurvivesInvalidation(s: State, l: LoadId, value: Value)
    requires Inv(s) && l in s.loads && s.loads[l].settled.Pending?
    ensures var key := s.loads[l].key;
            var invalidated := Step(s, Delete({key, s.loads[l].dedupe}));
            && key !in invalidated.entries
            && Allowed(invalidated, Resolve(l, value))
            && var after := Step(invalidated, Resolve(l, value));
               key in after.entries && after.entries[key].value == value && after.entries[key].source == Some(l)
  {
  }
}
