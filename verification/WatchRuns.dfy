/**
 Every interleaving of watch requests with each other and with whatever else writes links, videos,
 assignments, domains and the cache. One step is one query, one conditional update or one cache write.
 */
module WatchRuns {
  import opened Wrappers
  import opened ShareLinks
  import opened WatchModel
  import Sets

  type CallId = nat

  datatype Pc =
    | Begun
    | WarmClaiming(entry: Entry, now: Time) | WarmAnswering(entry: Entry)
    | ReadingDomain | ReadingAlias(websiteId: Id) | ReadingToken(websiteId: Id)
    | Claiming(seen: Seen, now: Time) | Refusing(linkId: Id, now: Time)
    | WritingCache(seen: Seen, now: Time) | Answering(seen: Seen)
    | Done(response: Response)

  /** A claim that succeeded: on which link, and the row it found, by which reading of the clock. */
  datatype ClaimRecord = ClaimRecord(linkId: Id, row: Link, now: Time)

  /** `claim` is history: the view this call took, if it has taken one. */
  datatype Call = Call(params: Params, pc: Pc, claim: Option<ClaimRecord>)

  /** `firstViews` is history: the counter each link started with. */
  datatype State = State(db: Db, cache: Cache, calls: map<CallId, Call>, firstViews: map<Id, nat>)

  datatype Event =
    | Invoke(call: CallId, params: Params)
    | Advance(call: CallId, config: Config, now: Time)
    | CreateLink(linkId: Id, link: Link)
    | SetStatus(linkId: Id, status: LinkStatus)
    | ChangeRest(db: Db)
    | Evict(key: Key)

  // ---------------------------------------------------------------- one step of a call

  function Refuse(reason: Reason): Pc { Done(Invalid(reason)) }

  /** What follows once a link row with its videos has been read. */
  function Judge(seen: Seen, origin: Origin, config: Config, now: Time): Pc {
    var denied := DeniedReason(PolicyOf(seen.linkId, seen.link), now);
    if denied.Some? then Refuse(denied.value)
    else if SelectPlayable(seen.videos, config.canSign) == [] then Refuse(NO_VIDEOS)
    else if origin == Resume then WritingCache(seen, now)
    else Claiming(seen, now)
  }

  function Begin(cache: Cache, p: Params, config: Config, now: Time): (Cache, Pc) {
    if !MayUseCache(p) || KeyOf(p) !in cache then (cache, ReadingDomain)
    else
      var entry := cache[KeyOf(p)];
      if DeniedReason(entry.policy, now).Some? || SelectPlayable(entry.videos, config.canSign) == []
      then (cache - {KeyOf(p)}, ReadingDomain)
      else (cache, WarmClaiming(entry, now))
  }

  function ReadDomain(db: Db, p: Params, config: Config): Pc {
    if p.host.None? then Refuse(MISSING_HOST)
    else
      var website := FindWebsite(db, p.host.value);
      if website.None? then Refuse(INVALID_LINK)
      else if p.token == "" then Refuse(MISSING_TOKEN)
      else if !config.pepper then Refuse(SERVER_ERROR)
      else ReadingAlias(website.value)
  }

  function ReadBy(index: map<string, Id>, db: Db, websiteId: Id, p: Params, config: Config, now: Time, absent: Pc): Pc {
    match FindBy(index, db, websiteId, p.token)
    case None => absent
    case Some(l) => Judge(ReadLink(db, websiteId, l), p.origin, config, now)
  }

  /** The claim step is the only one that writes a link row. */
  function TakeView(s: State, c: CallId, policy: Policy, now: Time, success: Pc, failure: Pc, drop: set<Key>): State
    requires c in s.calls
  {
    var (after, claimed) := Claim(s.db, policy, now);
    if !claimed then s.(cache := s.cache - drop, calls := s.calls[c := s.calls[c].(pc := failure)])
    else
      s.(db := after,
         calls := s.calls[c := s.calls[c].(pc := success,
             claim := Some(ClaimRecord(policy.linkId, s.db.links[policy.linkId], now)))])
  }

  function MoveTo(s: State, c: CallId, pc: Pc): State
    requires c in s.calls
  {
    s.(calls := s.calls[c := s.calls[c].(pc := pc)])
  }

  function AdvanceCall(s: State, c: CallId, config: Config, now: Time): State
    requires c in s.calls
  {
    var p := s.calls[c].params;
    match s.calls[c].pc
    case Begun =>
      var (cache, pc) := Begin(s.cache, p, config, now);
      MoveTo(s.(cache := cache), c, pc)
    case WarmClaiming(entry, then_) =>
      TakeView(s, c, entry.policy, then_, WarmAnswering(entry), ReadingDomain, if p.host.Some? then {KeyOf(p)} else {})
    case WarmAnswering(entry) => MoveTo(s, c, Done(AnswerWarm(s.db, entry, config, p.origin)))
    case ReadingDomain => MoveTo(s, c, ReadDomain(s.db, p, config))
    case ReadingAlias(w) => MoveTo(s, c, ReadBy(s.db.byAlias, s.db, w, p, config, now, ReadingToken(w)))
    case ReadingToken(w) => MoveTo(s, c, ReadBy(s.db.byToken, s.db, w, p, config, now, Refuse(INVALID_LINK)))
    case Claiming(seen, then_) =>
      TakeView(s, c, PolicyOf(seen.linkId, seen.link), then_, WritingCache(seen, then_), Refusing(seen.linkId, then_),
          {})
    case Refusing(l, then_) => MoveTo(s, c, Refuse(LatestReason(s.db, l, then_)))
    case WritingCache(seen, then_) =>
      var cache := if p.host.Some? then WriteCache(s.cache, KeyOf(p), seen, config, then_) else s.cache;
      MoveTo(s.(cache := cache), c, Answering(seen))
    case Answering(seen) => MoveTo(s, c, Done(AnswerCold(s.db, seen, config, p.origin)))
    case Done(_) => s
  }

  function Step(s: State, e: Event): State
    requires e.Advance? ==> e.call in s.calls
  {
    match e
    case Invoke(c, params) => s.(calls := s.calls[c := Call(params, Begun, None)])
    case Advance(c, config, now) => AdvanceCall(s, c, config, now)
    case CreateLink(l, link) =>
      s.(db := s.db.(links := s.db.links[l := link]), firstViews := s.firstViews[l := link.currentViews])
    case SetStatus(l, status) =>
      if l in s.db.links then s.(db := s.db.(links := s.db.links[l := s.db.links[l].(status := status)])) else s
    case ChangeRest(db) => s.(db := db.(links := s.db.links))
    case Evict(key) => s.(cache := s.cache - {key})
  }

  /** A link is created with room in its budget; afterwards its limit and expiry never change. */
  predicate Allowed(s: State, e: Event) {
    match e
    case Invoke(c, _) => c !in s.calls
    case Advance(c, _, _) => c in s.calls
    case CreateLink(l, link) => l !in s.db.links && (link.maxViews.Some? ==> link.currentViews <= link.maxViews.value)
    case _ => true
  }

  ghost predicate IsRun(states: seq<State>, events: seq<Event>) {
    && |states| == |events| + 1
    && forall i :: 0 <= i < |events| ==> Allowed(states[i], events[i]) && states[i + 1] == Step(states[i], events[i])
  }

  // ---------------------------------------------------------------- the invariant

  predicate Holds(c: CallId, call: Call, l: Id) {
    call.claim.Some? && call.claim.value.linkId == l
  }

  /** The calls that have taken a view of this link. */
  function Claimants(calls: map<CallId, Call>, l: Id): set<CallId> {
    set c | c in calls && Holds(c, calls[c], l)
  }

  /** The counter is the number of claims, and never passes the limit. */
  predicate LinkSound(s: State, l: Id)
    requires l in s.db.links
  {
    && l in s.firstViews
    && s.db.links[l].currentViews == s.firstViews[l] + |Claimants(s.calls, l)|
    && (s.db.links[l].maxViews.Some? ==> s.db.links[l].currentViews <= s.db.links[l].maxViews.value)
  }

  /** Nobody can claim a view of a link that does not exist yet. */
  predicate NoEarlyClaims(s: State, l: Id) {
    l in s.db.links || Claimants(s.calls, l) == {}
  }

  /** A stale policy is stale in its status and counter only. */
  predicate PolicyFits(db: Db, policy: Policy) {
    && policy.linkId in db.links
    && policy.maxViews == db.links[policy.linkId].maxViews && policy.expiresAt == db.links[policy.linkId].expiresAt
  }

  predicate EntrySound(db: Db, entry: Entry) {
    PolicyFits(db, entry.policy) && entry.policy.maxViews.None? && entry.policy.status == ACTIVE
  }

  predicate SeenSound(db: Db, seen: Seen) {
    PolicyFits(db, PolicyOf(seen.linkId, seen.link))
  }

  predicate ClaimSound(claim: ClaimRecord) {
    && claim.row.status == ACTIVE && Unexpired(claim.row.expiresAt, claim.now)
    && (claim.row.maxViews.Some? ==> claim.row.currentViews < claim.row.maxViews.value)
  }

  /** A call holds a claim from the moment its view is counted, unless it resumes a session. */
  predicate CallSound(db: Db, call: Call) {
    && (call.claim.Some? ==> ClaimSound(call.claim.value) && call.claim.value.linkId in db.links)
    && match call.pc
       case WarmClaiming(entry, _) => EntrySound(db, entry) && call.claim.None? && call.params.origin == Watch
       case WarmAnswering(entry) =>
         EntrySound(db, entry) && call.params.origin == Watch
         && call.claim.Some? && call.claim.value.linkId == entry.policy.linkId
       case Claiming(seen, _) => SeenSound(db, seen) && call.claim.None? && call.params.origin != Resume
       case WritingCache(seen, _) => SeenSound(db, seen) && ClaimedFor(call, seen.linkId)
       case Answering(seen) => SeenSound(db, seen) && ClaimedFor(call, seen.linkId)
       case Done(Valid(_, l, _, _, _, _)) => ClaimedFor(call, l)
       case _ => call.claim.None?
  }

  predicate ClaimedFor(call: Call, l: Id) {
    if call.params.origin == Resume then call.claim.None? else call.claim.Some? && call.claim.value.linkId == l
  }

  ghost predicate Inv(s: State) {
    && (forall l :: l in s.db.links ==> LinkSound(s, l))
    && (forall l :: NoEarlyClaims(s, l))
    && (forall k :: k in s.cache ==> EntrySound(s.db, s.cache[k]))
    && (forall c :: c in s.calls ==> CallSound(s.db, s.calls[c]))
  }

  /** Links stay, with their limit and expiry. */
  ghost predicate LinksKept(db: Db, after: Db) {
    && (forall l :: l in db.links ==> l in after.links)
    && (forall l :: l in db.links ==>
          after.links[l].maxViews == db.links[l].maxViews && after.links[l].expiresAt == db.links[l].expiresAt)
  }

  lemma CallIsStable(db: Db, after: Db, call: Call)
    requires LinksKept(db, after) && CallSound(db, call)
    ensures CallSound(after, call)
  {
  }

  lemma EntryIsStable(db: Db, after: Db, entry: Entry)
    requires LinksKept(db, after) && EntrySound(db, entry)
    ensures EntrySound(after, entry)
  {
  }

  // ---------------------------------------------------------------- one step keeps the invariant

  /** A step that moves one call without taking a view. */
  lemma MoveKeepsInv(s: State, cache: Cache, c: CallId, pc: Pc)
    requires Inv(s) && c in s.calls && CallSound(s.db, s.calls[c].(pc := pc))
    requires forall k :: k in cache ==> EntrySound(s.db, cache[k])
    ensures Inv(MoveTo(s.(cache := cache), c, pc))
  {
    var after := MoveTo(s.(cache := cache), c, pc);
    forall l
      ensures Claimants(after.calls, l) == Claimants(s.calls, l)
    {
    }
    forall l | l in after.db.links
      ensures LinkSound(after, l)
    {
      assert LinkSound(s, l);
    }
    forall l
      ensures NoEarlyClaims(after, l)
    {
      assert NoEarlyClaims(s, l);
    }
  }

  lemma MoveOnlyKeepsInv(s: State, c: CallId, pc: Pc)
    requires Inv(s) && c in s.calls && CallSound(s.db, s.calls[c].(pc := pc))
    ensures Inv(MoveTo(s, c, pc))
  {
    MoveKeepsInv(s, s.cache, c, pc);
    assert s.(cache := s.cache) == s;
  }

  lemma OneMoreClaimant(calls: map<CallId, Call>, c: CallId, call: Call, l: Id)
    requires c in calls && calls[c].claim.None? && call.claim.Some?
    ensures c !in Claimants(calls, l)
    ensures Claimants(calls[c := call], l) == Claimants(calls, l) + if call.claim.value.linkId == l then {c} else {}
    ensures |Claimants(calls[c := call], l)| == |Claimants(calls, l)| + if call.claim.value.linkId == l then 1 else 0
  {
    assert Claimants(calls[c := call], l) == Claimants(calls, l) + if call.claim.value.linkId == l then {c} else {};
  }

  /** The claim: one more view on the counter, one more claimant, and still within the budget. */
  lemma ClaimKeepsInv(s: State, c: CallId, policy: Policy, now: Time, call: Call)
    requires Inv(s) && c in s.calls && s.calls[c].claim.None?
    requires PolicyFits(s.db, policy) && ClaimMatches(s.db, policy, now)
    requires call.claim.Some? && call.claim.value.linkId == policy.linkId
    requires CallSound(CountView(s.db, policy.linkId), call)
    ensures Inv(s.(db := CountView(s.db, policy.linkId), calls := s.calls[c := call]))
  {
    var after := s.(db := CountView(s.db, policy.linkId), calls := s.calls[c := call]);
    forall l | l in after.db.links
      ensures LinkSound(after, l)
    {
      assert LinkSound(s, l);
      OneMoreClaimant(s.calls, c, call, l);
    }
    forall l
      ensures NoEarlyClaims(after, l)
    {
      assert NoEarlyClaims(s, l);
      OneMoreClaimant(s.calls, c, call, l);
    }
    assert LinksKept(s.db, after.db);
    forall d | d in after.calls
      ensures CallSound(after.db, after.calls[d])
    {
      if d != c { CallIsStable(s.db, after.db, s.calls[d]); }
    }
    forall k | k in after.cache
      ensures EntrySound(after.db, after.cache[k])
    {
      EntryIsStable(s.db, after.db, s.cache[k]);
    }
  }

  lemma TakeViewKeepsInv(s: State, c: CallId, policy: Policy, now: Time, success: Pc, failure: Pc, drop: set<Key>)
    requires Inv(s) && c in s.calls && s.calls[c].claim.None? && PolicyFits(s.db, policy)
    requires CallSound(s.db, s.calls[c].(pc := failure))
    requires ClaimMatches(s.db, policy, now) ==>
               CallSound(CountView(s.db, policy.linkId),
                         s.calls[c].(pc := success,
                             claim := Some(ClaimRecord(policy.linkId, s.db.links[policy.linkId], now))))
    ensures Inv(TakeView(s, c, policy, now, success, failure, drop))
  {
    if ClaimMatches(s.db, policy, now) {
      ClaimKeepsInv(s, c, policy, now,
                    s.calls[c].(pc := success,
                        claim := Some(ClaimRecord(policy.linkId, s.db.links[policy.linkId], now))));
    } else {
      MoveKeepsInv(s, s.cache - drop, c, failure);
      assert TakeView(s, c, policy, now, success, failure, drop) == MoveTo(s.(cache := s.cache - drop), c, failure);
    }
  }

  lemma WarmKeepsInv(s: State, c: CallId, config: Config, now: Time)
    requires Inv(s) && c in s.calls
    requires s.calls[c].pc.Begun? || s.calls[c].pc.WarmClaiming? || s.calls[c].pc.WarmAnswering?
    ensures Inv(AdvanceCall(s, c, config, now))
  {
    var p := s.calls[c].params;
    assert CallSound(s.db, s.calls[c]);
    match s.calls[c].pc
    case Begun =>
      var (cache, pc) := Begin(s.cache, p, config, now);
      MoveKeepsInv(s, cache, c, pc);
    case WarmClaiming(entry, then_) =>
      TakeViewKeepsInv(s, c, entry.policy, then_, WarmAnswering(entry), ReadingDomain,
                       if p.host.Some? then {KeyOf(p)} else {});
    case WarmAnswering(entry) => MoveOnlyKeepsInv(s, c, Done(AnswerWarm(s.db, entry, config, p.origin)));
  }

  lemma ReadKeepsInv(s: State, c: CallId, config: Config, now: Time)
    requires Inv(s) && c in s.calls
    requires s.calls[c].pc.ReadingDomain? || s.calls[c].pc.ReadingAlias? || s.calls[c].pc.ReadingToken?
               || s.calls[c].pc.Refusing?
    ensures Inv(AdvanceCall(s, c, config, now))
  {
    var p := s.calls[c].params;
    assert CallSound(s.db, s.calls[c]);
    match s.calls[c].pc
    case ReadingDomain => MoveOnlyKeepsInv(s, c, ReadDomain(s.db, p, config));
    case ReadingAlias(w) => MoveOnlyKeepsInv(s, c, ReadBy(s.db.byAlias, s.db, w, p, config, now, ReadingToken(w)));
    case ReadingToken(w) => MoveOnlyKeepsInv(s, c, ReadBy(s.db.byToken, s.db, w, p, config, now, Refuse(INVALID_LINK)));
    case Refusing(l, then_) => MoveOnlyKeepsInv(s, c, Refuse(LatestReason(s.db, l, then_)));
  }

  lemma ColdKeepsInv(s: State, c: CallId, config: Config, now: Time)
    requires Inv(s) && c in s.calls
    requires s.calls[c].pc.Claiming? || s.calls[c].pc.WritingCache? || s.calls[c].pc.Answering?
    ensures Inv(AdvanceCall(s, c, config, now))
  {
    var p := s.calls[c].params;
    assert CallSound(s.db, s.calls[c]);
    match s.calls[c].pc
    case Claiming(seen, then_) =>
      TakeViewKeepsInv(s, c, PolicyOf(seen.linkId, seen.link), then_, WritingCache(seen, then_),
          Refusing(seen.linkId, then_), {});
    case WritingCache(seen, then_) =>
      var cache := if p.host.Some? then WriteCache(s.cache, KeyOf(p), seen, config, then_) else s.cache;
      MoveKeepsInv(s, cache, c, Answering(seen));
    case Answering(seen) => MoveOnlyKeepsInv(s, c, Done(AnswerCold(s.db, seen, config, p.origin)));
  }

  lemma AdvanceKeepsInv(s: State, c: CallId, config: Config, now: Time)
    requires Inv(s) && c in s.calls
    ensures Inv(AdvanceCall(s, c, config, now))
  {
    match s.calls[c].pc
    case Begun => WarmKeepsInv(s, c, config, now);
    case WarmClaiming(_, _) => WarmKeepsInv(s, c, config, now);
    case WarmAnswering(_) => WarmKeepsInv(s, c, config, now);
    case ReadingDomain => ReadKeepsInv(s, c, config, now);
    case ReadingAlias(_) => ReadKeepsInv(s, c, config, now);
    case ReadingToken(_) => ReadKeepsInv(s, c, config, now);
    case Refusing(_, _) => ReadKeepsInv(s, c, config, now);
    case Claiming(_, _) => ColdKeepsInv(s, c, config, now);
    case WritingCache(_, _) => ColdKeepsInv(s, c, config, now);
    case Answering(_) => ColdKeepsInv(s, c, config, now);
    case Done(_) =>
  }

  lemma CreateLinkKeepsInv(s: State, e: Event)
    requires Inv(s) && e.CreateLink? && Allowed(s, e)
    ensures Inv(Step(s, e))
  {
    var after := Step(s, e);
    forall l | l in after.db.links
      ensures LinkSound(after, l)
    {
      if l == e.linkId { assert NoEarlyClaims(s, l); } else { assert LinkSound(s, l); }
    }
    forall l
      ensures NoEarlyClaims(after, l)
    {
      assert NoEarlyClaims(s, l);
    }
    forall c | c in after.calls
      ensures CallSound(after.db, after.calls[c])
    {
      CallIsStable(s.db, after.db, s.calls[c]);
    }
  }

  lemma StatusKeepsInv(s: State, e: Event)
    requires Inv(s) && e.SetStatus? && e.linkId in s.db.links
    ensures Inv(Step(s, e))
  {
    var after := Step(s, e);
    forall l | l in after.db.links
      ensures LinkSound(after, l)
    {
      assert LinkSound(s, l);
    }
    forall l
      ensures NoEarlyClaims(after, l)
    {
      assert NoEarlyClaims(s, l);
    }
    forall c | c in after.calls
      ensures CallSound(after.db, after.calls[c])
    {
      CallIsStable(s.db, after.db, s.calls[c]);
    }
  }

  /** Whatever else changes leaves the counters and the claims alone. */
  lemma ElsewhereKeepsInv(s: State, e: Event)
    requires Inv(s) && (e.ChangeRest? || e.Evict?)
    ensures Inv(Step(s, e))
  {
    var after := Step(s, e);
    forall l | l in after.db.links
      ensures LinkSound(after, l)
    {
      assert LinkSound(s, l);
    }
    forall l
      ensures NoEarlyClaims(after, l)
    {
      assert NoEarlyClaims(s, l);
    }
    forall c | c in after.calls
      ensures CallSound(after.db, after.calls[c])
    {
      CallIsStable(s.db, after.db, s.calls[c]);
    }
  }

  lemma InvokeKeepsInv(s: State, e: Event)
    requires Inv(s) && e.Invoke? && Allowed(s, e)
    ensures Inv(Step(s, e))
  {
    var after := Step(s, e);
    forall l
      ensures Claimants(after.calls, l) == Claimants(s.calls, l)
    {
    }
    forall l | l in after.db.links
      ensures LinkSound(after, l)
    {
      assert LinkSound(s, l);
    }
    forall l
      ensures NoEarlyClaims(after, l)
    {
      assert NoEarlyClaims(s, l);
    }
  }

  lemma StepKeepsInv(s: State, e: Event)
    requires Inv(s) && Allowed(s, e)
    ensures Inv(Step(s, e))
  {
    match e
    case Invoke(_, _) => InvokeKeepsInv(s, e);
    case Advance(c, config, now) => AdvanceKeepsInv(s, c, config, now);
    case CreateLink(_, _) => CreateLinkKeepsInv(s, e);
    case SetStatus(l, _) => if l in s.db.links { StatusKeepsInv(s, e); }
    case _ => ElsewhereKeepsInv(s, e);
  }

  // ---------------------------------------------------------------- every run

  lemma {:induction false} RunKeepsInv(states: seq<State>, events: seq<Event>, i: nat)
    requires IsRun(states, events) && Inv(states[0]) && i < |states|
    ensures Inv(states[i])
  {
    if i > 0 {
      RunKeepsInv(states, events, i - 1);
      StepKeepsInv(states[i - 1], events[i - 1]);
    }
  }

  /** The valid responses a link has given to calls that consume a view. */
  function Admissions(calls: map<CallId, Call>, l: Id): set<CallId> {
    set c | c in calls && calls[c].params.origin != Resume && calls[c].pc.Done? && calls[c].pc.response.Valid?
            && calls[c].pc.response.linkId == l
  }

  /**
   The view budget: however requests interleave, a link's counter is exactly the number of calls that
   took a view, never passes the limit, and so bounds the number of valid responses.
   */
  lemma ViewBudgetHolds(states: seq<State>, events: seq<Event>, i: nat, l: Id)
    requires IsRun(states, events) && Inv(states[0]) && i < |states| && l in states[i].db.links
    ensures l in states[i].firstViews
    ensures var link := states[i].db.links[l];
            && link.currentViews == states[i].firstViews[l] + |Claimants(states[i].calls, l)|
            && |Admissions(states[i].calls, l)| <= |Claimants(states[i].calls, l)|
            && (link.maxViews.Some? ==>
                  && link.currentViews <= link.maxViews.value
                  && |Admissions(states[i].calls, l)| <= link.maxViews.value - states[i].firstViews[l])
  {
    RunKeepsInv(states, events, i);
    assert LinkSound(states[i], l);
    forall c | c in Admissions(states[i].calls, l)
      ensures c in Claimants(states[i].calls, l)
    {
      assert CallSound(states[i].db, states[i].calls[c]);
    }
    Sets.SubsetIsSmaller(Admissions(states[i].calls, l), Claimants(states[i].calls, l));
  }

  /**
   A valid response that is no resume holds one claim, on the link it answers with, and that claim
   found the row ACTIVE, within its budget and, by the request's own clock, unexpired. A resume holds
   none, and neither does a refusal.
   */
  lemma ResponsesHoldTheirClaim(states: seq<State>, events: seq<Event>, i: nat, c: CallId)
    requires IsRun(states, events) && Inv(states[0]) && i < |states|
    requires c in states[i].calls && states[i].calls[c].pc.Done?
    ensures var call := states[i].calls[c];
            && (call.claim.Some? <==> call.pc.response.Valid? && call.params.origin != Resume)
            && (call.claim.Some? ==>
                  && call.claim.value.linkId == call.pc.response.linkId
                  && call.claim.value.row.status == ACTIVE
                  && Unexpired(call.claim.value.row.expiresAt, call.claim.value.now)
                  && (call.claim.value.row.maxViews.Some? ==>
                        call.claim.value.row.currentViews < call.claim.value.row.maxViews.value))
  {
    RunKeepsInv(states, events, i);
    assert CallSound(states[i].db, states[i].calls[c]);
  }

  /** Only links without a view limit are ever cached. */
  lemma OnlyUnbudgetedLinksAreCached(states: seq<State>, events: seq<Event>, i: nat, k: Key)
    requires IsRun(states, events) && Inv(states[0]) && i < |states| && k in states[i].cache
    ensures states[i].cache[k].policy.linkId in states[i].db.links
    ensures states[i].db.links[states[i].cache[k].policy.linkId].maxViews.None?
  {
    RunKeepsInv(states, events, i);
    assert EntrySound(states[i].db, states[i].cache[k]);
  }

  /** A claim is never given back or replaced: a call takes at most one view in its life. */
  lemma {:induction false} ClaimIsTakenOnce(states: seq<State>, events: seq<Event>, i: nat, j: nat, c: CallId)
    requires IsRun(states, events) && Inv(states[0]) && i <= j < |states|
    requires c in states[i].calls && states[i].calls[c].claim.Some?
    ensures c in states[j].calls && states[j].calls[c].claim == states[i].calls[c].claim
  {
    if i < j {
      ClaimIsTakenOnce(states, events, i, j - 1, c);
      RunKeepsInv(states, events, j - 1);
      StepKeepsClaim(states[j - 1], events[j - 1], c);
    }
  }

  lemma StepKeepsClaim(s: State, e: Event, c: CallId)
    requires Inv(s) && Allowed(s, e) && c in s.calls && s.calls[c].claim.Some?
    ensures c in Step(s, e).calls && Step(s, e).calls[c].claim == s.calls[c].claim
  {
    assert CallSound(s.db, s.calls[c]);
  }

  // ---------------------------------------------------------------- what an interleaved response shows

  /** A query at state `r` returned this link with its videos. */
  predicate SeenAt(states: seq<State>, r: nat, seen: Seen) {
    && r < |states| && seen.linkId in states[r].db.links
    && seen == ReadLink(states[r].db, seen.websiteId, seen.linkId)
  }

  /** The entry holds what could be played, with signing possible or not, of what a query at state `r` returned. */
  predicate CachedFrom(states: seq<State>, r: nat, signing: bool, entry: Entry) {
    && r < |states| && entry.policy.linkId in states[r].db.links
    && var seen := ReadLink(states[r].db, entry.websiteId, entry.policy.linkId);
       entry.policy == PolicyOf(seen.linkId, seen.link) && entry.videos == SelectPlayable(seen.videos, signing)
  }

  /** The response shows just what could be played of the link at state `r`, with embeds as state `e` allows. */
  ghost predicate ShownFrom(states: seq<State>, r: nat, e: nat, signing: bool, response: Response) {
    && r < |states| && e < |states| && response.Valid? && response.linkId in states[r].db.links
    && ShowsExactly(states[r].db, states[e].db, response.websiteId, states[r].db.links[response.linkId].members,
                    signing, response.videos)
  }

  /** Whether signing was possible at this step. */
  predicate CouldSign(events: seq<Event>, e: nat) {
    e < |events| && events[e].Advance? && events[e].config.canSign
  }

  ghost predicate EntryIsTraced(states: seq<State>, events: seq<Event>, i: nat, entry: Entry) {
    exists r: nat, w: nat :: r < w < i && CachedFrom(states, r, CouldSign(events, w), entry)
  }

  ghost predicate SeenIsTraced(states: seq<State>, i: nat, seen: Seen) {
    exists r: nat :: r < i && SeenAt(states, r, seen)
  }

  /** Read at `r`, selected at `w`, perhaps by an earlier call, and answered at `e`. */
  ghost predicate ResponseIsTraced(states: seq<State>, events: seq<Event>, i: nat, response: Response) {
    exists r: nat, w: nat, e: nat :: e < i && RespondedAt(states, events, r, w, e, response)
  }

  ghost predicate RespondedAt(states: seq<State>, events: seq<Event>, r: nat, w: nat, e: nat, response: Response) {
    r < w <= e && ShownFrom(states, r, e, CouldSign(events, w) && CouldSign(events, e), response)
  }

  ghost predicate CallIsTraced(states: seq<State>, events: seq<Event>, i: nat, pc: Pc) {
    match pc
    case WarmClaiming(entry, _) => EntryIsTraced(states, events, i, entry)
    case WarmAnswering(entry) => EntryIsTraced(states, events, i, entry)
    case Claiming(seen, _) => SeenIsTraced(states, i, seen)
    case WritingCache(seen, _) => SeenIsTraced(states, i, seen)
    case Answering(seen) => SeenIsTraced(states, i, seen)
    case Done(response) => response.Valid? ==> ResponseIsTraced(states, events, i, response)
    case _ => true
  }

  ghost predicate CacheIsTraced(states: seq<State>, events: seq<Event>, i: nat, cache: Cache) {
    forall k :: k in cache ==> EntryIsTraced(states, events, i, cache[k])
  }

  ghost predicate Traced(states: seq<State>, events: seq<Event>, i: nat)
    requires i < |states|
  {
    && CacheIsTraced(states, events, i, states[i].cache)
    && (forall c :: c in states[i].calls ==> CallIsTraced(states, events, i, states[i].calls[c].pc))
  }

  lemma TraceIsKept(states: seq<State>, events: seq<Event>, i: nat, pc: Pc)
    requires CallIsTraced(states, events, i, pc)
    ensures CallIsTraced(states, events, i + 1, pc)
  {
    match pc
    case Done(response) => if response.Valid? { ResponseStaysTraced(states, events, i, response); }
    case WarmClaiming(entry, _) => EntryStaysTraced(states, events, i, entry);
    case WarmAnswering(entry) => EntryStaysTraced(states, events, i, entry);
    case _ =>
  }

  lemma ResponseStaysTraced(states: seq<State>, events: seq<Event>, i: nat, response: Response)
    requires ResponseIsTraced(states, events, i, response)
    ensures ResponseIsTraced(states, events, i + 1, response)
  {
    var r: nat, w: nat, e: nat :| e < i && RespondedAt(states, events, r, w, e, response);
  }

  lemma EntryStaysTraced(states: seq<State>, events: seq<Event>, i: nat, entry: Entry)
    requires EntryIsTraced(states, events, i, entry)
    ensures EntryIsTraced(states, events, i + 1, entry)
  {
    var r: nat, w: nat :| r < w < i && CachedFrom(states, r, CouldSign(events, w), entry);
  }

  lemma ReadIsTraced(states: seq<State>, events: seq<Event>, i: nat, index: map<string, Id>, websiteId: Id, p: Params,
                     config: Config, now: Time, absent: Pc)
    requires i < |states| && CallIsTraced(states, events, i + 1, absent)
    ensures CallIsTraced(states, events, i + 1, ReadBy(index, states[i].db, websiteId, p, config, now, absent))
  {
    match FindBy(index, states[i].db, websiteId, p.token)
    case None =>
    case Some(l) =>
      var seen := ReadLink(states[i].db, websiteId, l);
      assert SeenAt(states, i, seen);
      JudgeGoesOn(seen, p.origin, config, now);
  }

  lemma JudgeGoesOn(seen: Seen, origin: Origin, config: Config, now: Time)
    ensures var next := Judge(seen, origin, config, now);
            || (next.Done? && next.response.Invalid?) || next == WritingCache(seen, now) || next == Claiming(seen, now)
  {
  }

  lemma WarmAnswerIsTraced(states: seq<State>, events: seq<Event>, i: nat, entry: Entry, origin: Origin)
    requires i < |states| && i < |events| && events[i].Advance? && EntryIsTraced(states, events, i, entry)
    ensures ResponseIsTraced(states, events, i + 1, AnswerWarm(states[i].db, entry, events[i].config, origin))
  {
    var r: nat, w: nat :| r < w < i && CachedFrom(states, r, CouldSign(events, w), entry);
    var members := states[r].db.links[entry.policy.linkId].members;
    var signing := CouldSign(events, w) && CouldSign(events, i);
    SelectionsCompose(AssignedVideos(states[r].db, members, entry.websiteId), CouldSign(events, w),
        CouldSign(events, i));
    PresentedSelection(states[r].db, states[i].db, entry.websiteId, members, signing);
    assert RespondedAt(states, events, r, w, i, AnswerWarm(states[i].db, entry, events[i].config, origin));
  }

  lemma ColdAnswerIsTraced(states: seq<State>, events: seq<Event>, i: nat, seen: Seen, origin: Origin)
    requires i < |states| && i < |events| && events[i].Advance? && SeenIsTraced(states, i, seen)
    ensures ResponseIsTraced(states, events, i + 1, AnswerCold(states[i].db, seen, events[i].config, origin))
  {
    var r: nat :| r < i && SeenAt(states, r, seen);
    PresentedSelection(states[r].db, states[i].db, seen.websiteId, seen.link.members, CouldSign(events, i));
    assert RespondedAt(states, events, r, i, i, AnswerCold(states[i].db, seen, events[i].config, origin));
  }

  lemma CacheWriteIsTraced(states: seq<State>, events: seq<Event>, i: nat, cache: Cache, key: Key, seen: Seen,
                           now: Time)
    requires i < |states| && i < |events| && events[i].Advance? && SeenIsTraced(states, i, seen)
    requires CacheIsTraced(states, events, i, cache)
    ensures CacheIsTraced(states, events, i + 1, WriteCache(cache, key, seen, events[i].config, now))
  {
    var r: nat :| r < i && SeenAt(states, r, seen);
    var entry := Entry(seen.websiteId, PolicyOf(seen.linkId, seen.link),
                       SelectPlayable(seen.videos, CouldSign(events, i)));
    assert CachedFrom(states, r, CouldSign(events, i), entry);
  }

  lemma CacheStaysTraced(states: seq<State>, events: seq<Event>, i: nat, cache: Cache)
    requires CacheIsTraced(states, events, i, cache)
    ensures CacheIsTraced(states, events, i + 1, cache)
  {
    forall k | k in cache
      ensures EntryIsTraced(states, events, i + 1, cache[k])
    {
      EntryStaysTraced(states, events, i, cache[k]);
    }
  }

  /** The cache after a step is what it was, less than it was, or has the entry just written. */
  lemma AdvanceKeepsCacheTraced(states: seq<State>, events: seq<Event>, i: nat)
    requires i < |states| && i < |events| && events[i].Advance? && events[i].call in states[i].calls
    requires Traced(states, events, i)
    ensures CacheIsTraced(states, events, i + 1, Step(states[i], events[i]).cache)
  {
    var s, e := states[i], events[i];
    var call := s.calls[e.call];
    CacheStaysTraced(states, events, i, s.cache);
    match call.pc
    case WritingCache(seen, then_) =>
      if call.params.host.Some? { CacheWriteIsTraced(states, events, i, s.cache, KeyOf(call.params), seen, then_); }
    case _ => CacheShrinks(s, e);
  }

  lemma CacheShrinks(s: State, e: Event)
    requires e.Advance? && e.call in s.calls && !s.calls[e.call].pc.WritingCache?
    ensures forall k :: k in Step(s, e).cache ==> k in s.cache && Step(s, e).cache[k] == s.cache[k]
  {
    match s.calls[e.call].pc
    case WarmClaiming(_, _) =>
    case Claiming(_, _) =>
    case Begun =>
    case _ =>
  }

  lemma AdvanceIsTraced(states: seq<State>, events: seq<Event>, i: nat)
    requires i < |states| && i < |events| && events[i].Advance? && events[i].call in states[i].calls
    requires Traced(states, events, i)
    ensures CallIsTraced(states, events, i + 1, Step(states[i], events[i]).calls[events[i].call].pc)
  {
    var s, e := states[i], events[i];
    var call := s.calls[e.call];
    TraceIsKept(states, events, i, call.pc);
    match call.pc
    case ReadingAlias(w) =>
      ReadIsTraced(states, events, i, s.db.byAlias, w, call.params, e.config, e.now, ReadingToken(w));
    case ReadingToken(w) =>
      ReadIsTraced(states, events, i, s.db.byToken, w, call.params, e.config, e.now, Refuse(INVALID_LINK));
    case WarmAnswering(entry) => WarmAnswerIsTraced(states, events, i, entry, call.params.origin);
    case Answering(seen) => ColdAnswerIsTraced(states, events, i, seen, call.params.origin);
    case Begun => CacheStaysTraced(states, events, i, s.cache);
    case _ =>
  }

  lemma ElsewhereIsTraced(states: seq<State>, events: seq<Event>, i: nat)
    requires i < |states| && i < |events| && !events[i].Advance? && Allowed(states[i], events[i])
    requires Traced(states, events, i)
    ensures var after := Step(states[i], events[i]);
            && CacheIsTraced(states, events, i + 1, after.cache)
            && forall c :: c in after.calls ==> CallIsTraced(states, events, i + 1, after.calls[c].pc)
  {
    var after := Step(states[i], events[i]);
    forall c | c in after.calls
      ensures CallIsTraced(states, events, i + 1, after.calls[c].pc)
    {
      if c in states[i].calls { TraceIsKept(states, events, i, states[i].calls[c].pc); }
    }
  }

  lemma {:induction false} RunIsTraced(states: seq<State>, events: seq<Event>, i: nat)
    requires IsRun(states, events) && states[0].calls == map[] && states[0].cache == map[] && i < |states|
    ensures Traced(states, events, i)
    decreases i
  {
    if i > 0 {
      RunIsTraced(states, events, i - 1);
      if events[i - 1].Advance? {
        AdvanceKeepsCacheTraced(states, events, i - 1);
        AllCallsAreTraced(states, events, i - 1);
      } else {
        ElsewhereIsTraced(states, events, i - 1);
      }
    }
  }

  lemma AllCallsAreTraced(states: seq<State>, events: seq<Event>, k: nat)
    requires k < |states| && k < |events| && events[k].Advance? && Allowed(states[k], events[k])
    requires Traced(states, events, k)
    ensures var after := Step(states[k], events[k]);
            forall c :: c in after.calls ==> CallIsTraced(states, events, k + 1, after.calls[c].pc)
  {
    var after := Step(states[k], events[k]);
    AdvanceIsTraced(states, events, k);
    CallsAreTheSame(states[k], events[k]);
    forall c | c in after.calls
      ensures CallIsTraced(states, events, k + 1, after.calls[c].pc)
    {
      if c != events[k].call {
        OthersStay(states[k], events[k], c);
        TraceIsKept(states, events, k, states[k].calls[c].pc);
      }
    }
  }

  lemma CallsAreTheSame(s: State, e: Event)
    requires e.Advance? && e.call in s.calls
    ensures Step(s, e).calls.Keys == s.calls.Keys
  {
    match s.calls[e.call].pc
    case WarmClaiming(_, _) =>
    case Claiming(_, _) =>
    case _ =>
  }

  /**
   However requests and writers interleave, warm or cold: a valid response shows just the members that could
   be played when its link was read, in member order, and embeds just those that may be when it answers.
   Signing counts as possible if it was at the step that selected the videos and at the one that answered.
   */
  lemma ResponsesShowExactly(states: seq<State>, events: seq<Event>, i: nat, c: CallId)
    requires IsRun(states, events) && states[0].calls == map[] && states[0].cache == map[] && i < |states|
    requires c in states[i].calls && states[i].calls[c].pc.Done? && states[i].calls[c].pc.response.Valid?
    ensures ResponseIsTraced(states, events, i, states[i].calls[c].pc.response)
  {
    RunIsTraced(states, events, i);
    assert CallIsTraced(states, events, i, states[i].calls[c].pc);
  }

  // ---------------------------------------------------------------- a request alone

  /** The request's own steps, with nothing in between and one clock reading. */
  function RunAlone(s: State, c: CallId, config: Config, now: Time, steps: nat): State
    requires c in s.calls
    decreases steps
  {
    if steps == 0 then s else RunAlone(AdvanceCall(s, c, config, now), c, config, now, steps - 1)
  }

  /** The request has ended with this answer, and left these rows and entries. */
  predicate EndsWith(s: State, c: CallId, outcome: (Db, Cache, Response)) {
    c in s.calls && s.calls[c].pc == Done(outcome.2) && s.db == outcome.0 && s.cache == outcome.1
  }

  lemma {:induction false} DoneStays(s: State, c: CallId, config: Config, now: Time, steps: nat)
    requires c in s.calls && s.calls[c].pc.Done?
    ensures RunAlone(s, c, config, now, steps) == s
  {
    if steps > 0 { DoneStays(s, c, config, now, steps - 1); }
  }

  /** What the uncached resolver does from the link on. */
  function FromTheLink(db: Db, cache: Cache, config: Config, p: Params, now: Time, seen: Seen): (Db, Cache, Response)
    requires p.host.Some?
  {
    var denied := DeniedReason(PolicyOf(seen.linkId, seen.link), now);
    if denied.Some? then (db, cache, Invalid(denied.value))
    else if SelectPlayable(seen.videos, config.canSign) == [] then (db, cache, Invalid(NO_VIDEOS))
    else
      var (after, claimed) := if p.origin == Resume then (db, true)
          else Claim(db, PolicyOf(seen.linkId, seen.link), now);
      if !claimed then (after, cache, Invalid(LatestReason(after, seen.linkId, now)))
      else (after, WriteCache(cache, KeyOf(p), seen, config, now), AnswerCold(after, seen, config, p.origin))
  }

  lemma WritesAndAnswersAlone(s: State, c: CallId, config: Config, now: Time, seen: Seen, steps: nat)
    requires c in s.calls && s.calls[c].pc == WritingCache(seen, now) && s.calls[c].params.host.Some? && steps >= 2
    ensures var p := s.calls[c].params;
            EndsWith(RunAlone(s, c, config, now, steps), c,
                     (s.db, WriteCache(s.cache, KeyOf(p), seen, config, now), AnswerCold(s.db, seen, config, p.origin)))
  {
    var answering := AdvanceCall(s, c, config, now);
    DoneStays(AdvanceCall(answering, c, config, now), c, config, now, steps - 2);
  }

  lemma ClaimsAlone(s: State, c: CallId, config: Config, now: Time, seen: Seen, steps: nat)
    requires c in s.calls && s.calls[c].pc == Claiming(seen, now) && s.calls[c].params.host.Some? && steps >= 3
    ensures var p := s.calls[c].params;
            var (after, claimed) := Claim(s.db, PolicyOf(seen.linkId, seen.link), now);
            EndsWith(RunAlone(s, c, config, now, steps), c,
                     if !claimed then (after, s.cache, Invalid(LatestReason(after, seen.linkId, now)))
                     else (after, WriteCache(s.cache, KeyOf(p), seen, config, now),
                         AnswerCold(after, seen, config, p.origin)))
  {
    var next := AdvanceCall(s, c, config, now);
    if Claim(s.db, PolicyOf(seen.linkId, seen.link), now).1 {
      WritesAndAnswersAlone(next, c, config, now, seen, steps - 1);
    } else {
      assert next.cache == s.cache;
      DoneStays(AdvanceCall(next, c, config, now), c, config, now, steps - 2);
    }
  }

  lemma JudgedAlone(s: State, c: CallId, config: Config, now: Time, seen: Seen, steps: nat)
    requires c in s.calls && s.calls[c].params.host.Some? && steps >= 3
    requires s.calls[c].pc == Judge(seen, s.calls[c].params.origin, config, now)
    ensures EndsWith(RunAlone(s, c, config, now, steps), c,
                     FromTheLink(s.db, s.cache, config, s.calls[c].params, now, seen))
  {
    match s.calls[c].pc
    case Done(_) => DoneStays(s, c, config, now, steps);
    case WritingCache(_, _) => WritesAndAnswersAlone(s, c, config, now, seen, steps);
    case Claiming(_, _) => ClaimsAlone(s, c, config, now, seen, steps);
  }

  lemma ReadsLinkAlone(s: State, c: CallId, config: Config, now: Time, websiteId: Id)
    requires c in s.calls && s.calls[c].params.host.Some? && s.calls[c].pc == ReadingAlias(websiteId)
    ensures var p, found := s.calls[c].params, FindLink(s.db, websiteId, s.calls[c].params.token);
            EndsWith(RunAlone(s, c, config, now, 5), c,
                     if found.None? then (s.db, s.cache, Invalid(INVALID_LINK))
                     else FromTheLink(s.db, s.cache, config, p, now, ReadLink(s.db, websiteId, found.value)))
  {
    var p, next := s.calls[c].params, AdvanceCall(s, c, config, now);
    var byAlias := FindBy(s.db.byAlias, s.db, websiteId, p.token);
    var byToken := FindBy(s.db.byToken, s.db, websiteId, p.token);
    if byAlias.Some? {
      JudgedAlone(next, c, config, now, ReadLink(s.db, websiteId, byAlias.value), 4);
    } else {
      assert next.calls[c].pc == ReadingToken(websiteId);
      var last := AdvanceCall(next, c, config, now);
      if byToken.Some? {
        JudgedAlone(last, c, config, now, ReadLink(s.db, websiteId, byToken.value), 3);
      } else {
        DoneStays(last, c, config, now, 3);
      }
    }
  }

  /** The uncached resolver, split at the read of the domain. */
  function ByDomain(db: Db, cache: Cache, config: Config, p: Params, now: Time): (Db, Cache, Response) {
    match ReadDomain(db, p, config)
    case Done(response) => (db, cache, response)
    case ReadingAlias(w) =>
      var found := FindLink(db, w, p.token);
      if found.None? || p.host.None? then (db, cache, Invalid(INVALID_LINK))
      else FromTheLink(db, cache, config, p, now, ReadLink(db, w, found.value))
    case _ => (db, cache, Invalid(SERVER_ERROR))
  }

  lemma ColdIsByDomain(db: Db, cache: Cache, config: Config, p: Params, now: Time)
    ensures Cold(db, cache, config, p, now) == ByDomain(db, cache, config, p, now)
  {
  }

  lemma ReadsDomainAlone(s: State, c: CallId, config: Config, now: Time, steps: nat)
    requires c in s.calls && s.calls[c].pc == ReadingDomain && steps >= 6
    ensures EndsWith(RunAlone(s, c, config, now, steps), c, ByDomain(s.db, s.cache, config, s.calls[c].params, now))
  {
    var p, next := s.calls[c].params, MoveTo(s, c, ReadDomain(s.db, s.calls[c].params, config));
    assert RunAlone(s, c, config, now, steps) == RunAlone(next, c, config, now, steps - 1);
    if next.calls[c].pc.Done? {
      DoneStays(next, c, config, now, steps - 1);
    } else {
      ReadsLinkAlone(next, c, config, now, next.calls[c].pc.websiteId);
      MoreStepsChangeNothing(next, c, config, now, 5, steps - 1);
    }
  }

  lemma ColdAlone(s: State, c: CallId, config: Config, now: Time, steps: nat)
    requires c in s.calls && s.calls[c].pc == ReadingDomain && steps >= 6
    ensures EndsWith(RunAlone(s, c, config, now, steps), c, Cold(s.db, s.cache, config, s.calls[c].params, now))
  {
    ReadsDomainAlone(s, c, config, now, steps);
    ColdIsByDomain(s.db, s.cache, config, s.calls[c].params, now);
  }

  lemma {:induction false} MoreStepsChangeNothing(s: State, c: CallId, config: Config, now: Time, steps: nat, more: nat)
    requires c in s.calls && steps <= more && c in RunAlone(s, c, config, now, steps).calls
    requires RunAlone(s, c, config, now, steps).calls[c].pc.Done?
    ensures RunAlone(s, c, config, now, more) == RunAlone(s, c, config, now, steps)
    decreases steps
  {
    if steps == 0 {
      DoneStays(s, c, config, now, more);
    } else {
      MoreStepsChangeNothing(AdvanceCall(s, c, config, now), c, config, now, steps - 1, more - 1);
    }
  }

  /** The step machine refines the whole request: eight steps that nothing interrupts end as `Resolve` says. */
  lemma UndisturbedCallsResolve(s: State, c: CallId, config: Config, now: Time)
    requires c in s.calls && s.calls[c].pc == Begun
    ensures EndsWith(RunAlone(s, c, config, now, 8), c,
                     Resolve(s.db, s.cache, config, s.calls[c].params, now, now))
  {
    var p, next := s.calls[c].params, AdvanceCall(s, c, config, now);
    if next.calls[c].pc == ReadingDomain {
      assert next.cache == if MayUseCache(p) then s.cache - {KeyOf(p)} else s.cache;
      ColdAlone(next, c, config, now, 7);
    } else {
      var last := AdvanceCall(next, c, config, now);
      assert RunAlone(s, c, config, now, 8) == RunAlone(next, c, config, now, 7) == RunAlone(last, c, config, now, 6);
      if Claim(s.db, s.cache[KeyOf(p)].policy, now).1 {
        DoneStays(AdvanceCall(last, c, config, now), c, config, now, 5);
      } else {
        assert last.cache == s.cache - {KeyOf(p)};
        ColdAlone(last, c, config, now, 6);
      }
    }
  }

  // ---------------------------------------------------------------- the clock a claim goes by

  /** Between two steps of whatever requests the clock does not run backwards. */
  ghost predicate ClockIsMonotone(events: seq<Event>) {
    forall i, j :: 0 <= i <= j < |events| && events[i].Advance? && events[j].Advance? ==> events[i].now <= events[j].now
  }

  /** The policy and the clock reading with which a call is about to claim a view. */
  function Pending(call: Call): Option<(Policy, Time)> {
    match call.pc
    case WarmClaiming(entry, now) => Some((entry.policy, now))
    case Claiming(seen, now) => Some((PolicyOf(seen.linkId, seen.link), now))
    case _ => None
  }

  predicate TakesView(s: State, e: Event) {
    e.Advance? && e.call in s.calls && s.calls[e.call].claim.None? && Step(s, e).calls[e.call].claim.Some?
  }

  /** This step of the call read the clock as `now`. */
  predicate ReadsClock(e: Event, c: CallId, now: Time) {
    e.Advance? && e.call == c && e.now == now
  }

  lemma OthersStay(s: State, e: Event, c: CallId)
    requires Allowed(s, e) && e.Advance? && e.call != c && c in s.calls
    ensures Step(s, e).calls[c] == s.calls[c]
  {
    match s.calls[e.call].pc
    case WarmClaiming(_, _) =>
    case Claiming(_, _) =>
    case _ =>
  }

  lemma AdvanceReadsClock(s: State, c: CallId, config: Config, now: Time)
    requires c in s.calls && Pending(AdvanceCall(s, c, config, now).calls[c]).Some?
    ensures Pending(AdvanceCall(s, c, config, now).calls[c]).value.1 == now
  {
    match s.calls[c].pc
    case ReadingAlias(_) =>
    case ReadingToken(_) =>
    case Begun =>
    case ReadingDomain =>
    case WarmClaiming(_, _) =>
    case Claiming(_, _) =>
    case _ =>
  }

  /** Only a pending claim takes a view. */
  lemma OnlyPendingTakesView(s: State, e: Event)
    requires TakesView(s, e)
    ensures Pending(s.calls[e.call]).Some?
  {
    match s.calls[e.call].pc
    case Begun =>
    case ReadingDomain =>
    case ReadingAlias(_) =>
    case ReadingToken(_) =>
    case _ =>
  }

  lemma StepReadsClock(s: State, e: Event, c: CallId)
    requires Allowed(s, e) && c in Step(s, e).calls && Pending(Step(s, e).calls[c]).Some?
    ensures var p := Pending(Step(s, e).calls[c]);
            (c in s.calls && Pending(s.calls[c]) == p) || ReadsClock(e, c, p.value.1)
  {
    if e.Advance? && e.call == c {
      AdvanceReadsClock(s, c, e.config, e.now);
    } else if e.Advance? {
      assert c in s.calls;
      OthersStay(s, e, c);
    }
  }

  /** The reading a claim goes by was taken by an earlier step of its own call. */
  lemma {:induction false} ClaimGoesByAnEarlierReading(states: seq<State>, events: seq<Event>, i: nat, c: CallId)
    requires IsRun(states, events) && states[0].calls == map[] && i < |states|
    requires c in states[i].calls && Pending(states[i].calls[c]).Some?
    ensures exists k :: 0 <= k < i && ReadsClock(events[k], c, Pending(states[i].calls[c]).value.1)
  {
    StepReadsClock(states[i - 1], events[i - 1], c);
    if !ReadsClock(events[i - 1], c, Pending(states[i].calls[c]).value.1) {
      ClaimGoesByAnEarlierReading(states, events, i - 1, c);
    }
  }

  /** A pending claim succeeds exactly when the row matches, by the clock reading it goes by. */
  lemma TakesViewIff(s: State, e: Event)
    requires Inv(s) && e.Advance? && e.call in s.calls && Pending(s.calls[e.call]).Some?
    ensures var (policy, reading) := Pending(s.calls[e.call]).value;
            TakesView(s, e) <==> ClaimMatches(s.db, policy, reading)
  {
    assert CallSound(s.db, s.calls[e.call]);
  }

  /**
   A pending claim that commits within `d` of its clock reading never admits a link that has expired by
   then if and only if the link has more than `d` left at the reading, or no claim can succeed at all.
   */
  lemma ClaimIsTimelyIff(states: seq<State>, events: seq<Event>, i: nat, c: CallId, d: nat)
    requires IsRun(states, events) && Inv(states[0]) && states[0].calls == map[] && i < |states|
    requires c in states[i].calls && Pending(states[i].calls[c]).Some?
    ensures var (policy, reading) := Pending(states[i].calls[c]).value;
            && policy.linkId in states[i].db.links
            && var expiresAt := states[i].db.links[policy.linkId].expiresAt;
               (forall config, at :: reading <= at <= reading + d && TakesView(states[i], Advance(c, config, at)) ==>
                  Unexpired(expiresAt, at))
               <==> expiresAt.None? || expiresAt.value - reading > d || !ClaimMatches(states[i].db, policy, reading)
  {
    RunKeepsInv(states, events, i);
    var s := states[i];
    assert CallSound(s.db, s.calls[c]);
    var (policy, reading) := Pending(s.calls[c]).value;
    var expiresAt := s.db.links[policy.linkId].expiresAt;
    forall config, at
      ensures TakesView(s, Advance(c, config, at)) <==> ClaimMatches(s.db, policy, reading)
    {
      TakesViewIff(s, Advance(c, config, at));
    }
    if expiresAt.Some? && expiresAt.value - reading <= d && ClaimMatches(s.db, policy, reading) {
      var late := Advance(c, Config(true, true, 0), expiresAt.value);
      assert TakesView(s, late) && !Unexpired(expiresAt, late.now);
    }
  }

  /**
   So, on a clock that never runs backwards: an admitted link is unexpired at the commit if it had more
   left than the call took.
   */
  lemma TimelyClaimsAdmitUnexpiredLinks(states: seq<State>, events: seq<Event>, i: nat, d: nat)
    requires IsRun(states, events) && Inv(states[0]) && states[0].calls == map[] && ClockIsMonotone(events)
    requires i < |events| && TakesView(states[i], events[i])
    ensures Pending(states[i].calls[events[i].call]).Some?
    ensures var (policy, reading) := Pending(states[i].calls[events[i].call]).value;
            && reading <= events[i].now
            && policy.linkId in states[i].db.links
            && var expiresAt := states[i].db.links[policy.linkId].expiresAt;
               events[i].now <= reading + d && (expiresAt.None? || expiresAt.value - reading > d) ==>
                 Unexpired(expiresAt, events[i].now)
  {
    var c := events[i].call;
    OnlyPendingTakesView(states[i], events[i]);
    ClaimGoesByAnEarlierReading(states, events, i, c);
    ClaimIsTimelyIff(states, events, i, c, d);
    assert events[i] == Advance(c, events[i].config, events[i].now);
  }

  // An instance: the link expires at 10, is judged at 9 and claimed at 10.

  const LateLink := Link(1, ACTIVE, Some(10), None, 0, [3])
  const LateDb := Db(map["h" := 1], {"h"}, {1}, map[2 := LateLink], map["a" := 2], map[],
                     map[3 := Video(3, true, Other(true), false, 0)], {(1, 3)})
  const LateParams := Params(0, Some("h"), "a", Watch)
  const LateConfig := Config(true, true, 60)

  function LateState(pc: Pc): State {
    State(LateDb, map[], map[0 := Call(LateParams, pc, None)], map[2 := 0])
  }

  lemma LateLinkIsJudged()
    ensures ReadLink(LateDb, 1, 2) == Seen(1, 2, LateLink, [LateDb.videos[3]])
    ensures ReadBy(LateDb.byAlias, LateDb, 1, LateParams, LateConfig, 9, ReadingToken(1)) ==
              Claiming(ReadLink(LateDb, 1, 2), 9)
  {
    assert LateLink.members[1..] == [] && LateDb.videos[3] == Video(3, true, Other(true), false, 0);
    var seen := ReadLink(LateDb, 1, 2);
    assert AssignedVideos(LateDb, [], 1) == [];
    assert AssignedVideos(LateDb, LateLink.members, 1) == [LateDb.videos[3]];
    assert SelectPlayable(seen.videos[1..], true) == [];
    assert SelectPlayable(seen.videos, true) == [LateDb.videos[3]];
  }

  /** The steps before the claim. */
  lemma LateLinkIsFound()
    ensures Step(State(LateDb, map[], map[], map[2 := 0]), Invoke(0, LateParams)) == LateState(Begun)
    ensures Step(LateState(Begun), Advance(0, LateConfig, 8)) == LateState(ReadingDomain)
    ensures Step(LateState(ReadingDomain), Advance(0, LateConfig, 8)) == LateState(ReadingAlias(1))
    ensures Step(LateState(ReadingAlias(1)), Advance(0, LateConfig, 9)) ==
              LateState(Claiming(ReadLink(LateDb, 1, 2), 9))
  {
    LateLinkIsJudged();
    assert FindWebsite(LateDb, "h") == Some(1);
  }

  lemma ExpiredLinkCanBeClaimed(states: seq<State>, events: seq<Event>)
    requires states == [State(LateDb, map[], map[], map[2 := 0]), LateState(Begun), LateState(ReadingDomain),
               LateState(ReadingAlias(1)),
                        LateState(Claiming(ReadLink(LateDb, 1, 2), 9))]
    requires events == [Invoke(0, LateParams), Advance(0, LateConfig, 8), Advance(0, LateConfig, 8),
               Advance(0, LateConfig, 9)]
    ensures IsRun(states, events) && Inv(states[0])
    ensures TakesView(states[4], Advance(0, LateConfig, 10)) && !Unexpired(states[4].db.links[2].expiresAt, 10)
  {
    LateLinkIsFound();
    assert Claimants(map[], 2) == {};
    forall k | 0 <= k < |events|
      ensures Allowed(states[k], events[k]) && states[k + 1] == Step(states[k], events[k])
    {
      if k == 0 {} else if k == 1 {} else if k == 2 {} else {}
    }
    RunKeepsInv(states, events, 4);
    TakesViewIff(states[4], Advance(0, LateConfig, 10));
  }
}
