/**
 Every interleaving of canonical share-link requests with each other and with everything else that
 writes these rows. One step of a call is one query or one transaction; between two steps any other
 step may happen.
 */
module CanonicalRuns {
  import opened Wrappers
  import opened JsText
  import opened ShareLinks
  import opened CanonicalPolicy
  import opened CanonicalModel

  type CallId = nat

  /** A mapping as `loadCanonical` returned it, with its link: both may be stale by the time they are used. */
  datatype Seen = Seen(mapping: Mapping, link: Link)

  datatype Outcome = CREATED | REUSED

  /** Where a call stands. The first group is createOrGetCanonical, then getCanonical, then operator adoption. */
  datatype Pc =
    | Begun | Loading | LoadingBefore(attempt: nat) | Attempting(attempt: nat) | LoadingWinner(attempt: nat)
    | CheckingDomain(seen: Seen) | CheckingVideo(seen: Seen) | CheckingEvidence(seen: Seen)
    | Backfilling(linkId: Id, attempt: nat) | Rereading
    | Getting | GettingEvidence(seen: Seen)
    | AdoptBegun(linkId: Id) | AdoptLink(linkId: Id) | AdoptVideo(linkId: Id) | AdoptDomain(linkId: Id)
    | AdoptEvidence(linkId: Id, domainId: Id, host: string) | AdoptCommit(mapping: Mapping)
    | Returned(outcome: Outcome, linkId: Id, compatibility: Option<string>)
    | Thrown(error: Error)

  datatype Call = Call(pair: Pair, pc: Pc)
  datatype State = State(db: Db, calls: map<CallId, Call>)

  /** What the outside world supplies to one step; each step uses a part of it. */
  datatype Input = Input(now: Time, aborted: bool, pepper: bool, domain: Option<Id>, rows: seq<Id>, mint: Mint,
                         transportAlias: string, capableHosts: set<string>)

  datatype Event =
    | Invoke(call: CallId, pair: Pair)
    | InvokeGet(call: CallId, pair: Pair)
    | InvokeAdopt(call: CallId, pair: Pair, linkId: Id)
    | Advance(call: CallId, input: Input)
    | SetWebsite(websiteId: Id, active: bool)
    | PutDomain(domainId: Id, domain: Domain)
    | DropDomain(domainId: Id)
    | AddVideo(videoId: Id, video: Video)
    | UpdateVideo(videoId: Id, video: Video)
    | PurgeVideo(videoId: Id)
    | SetAssignment(pair: Pair, active: bool)
    | CreateLink(linkId: Id, link: Link)
    | SetStatus(linkId: Id, status: LinkStatus)

  // ---------------------------------------------------------------- one step of a call

  function Load(db: Db, pair: Pair): Option<Seen> {
    if pair in db.mappings && db.mappings[pair].shareLinkId in db.links
    then Some(Seen(db.mappings[pair], db.links[db.mappings[pair].shareLinkId])) else None
  }

  /** toResponse: a URL cannot be built without an alias. */
  function Respond(pair: Pair, outcome: Outcome, seen: Seen, capableHosts: set<string>): Pc {
    if NoUsableAlias(seen.link.alias) then Thrown(UrlAliasMissing)
    else Returned(outcome, seen.mapping.shareLinkId, CompatibilityAlias(pair, seen.mapping, seen.link, capableHosts))
  }

  /** The start of reuseCanonical on a mapping just loaded. */
  function Reuse(pair: Pair, seen: Seen): Pc {
    match AnchorError(pair, seen.link)
    case Some(error) => Thrown(error)
    case None => CheckingDomain(seen)
  }

  function LoadThen(db: Db, pair: Pair, absent: Pc): Pc {
    match Load(db, pair)
    case Some(seen) => Reuse(pair, seen)
    case None => absent
  }

  function NextAttempt(attempt: nat, exhausted: Error): Pc {
    if attempt < CANONICAL_CREATE_MAX_ATTEMPTS then LoadingBefore(attempt + 1) else Thrown(exhausted)
  }

  predicate InputFits(db: Db, input: Input) {
    && (forall l :: l in input.rows ==> l in db.links)
    && (input.domain.Some? ==> input.domain.value in db.domains)
  }

  function Attempt(db: Db, id: CallId, pair: Pair, attempt: nat, input: Input): (Db, Pc)
    requires InputFits(db, input)
  {
    if input.aborted then (db, NextAttempt(attempt, TransactionFailed))
    else
      var (after, settled) := CreateTx(db, pair, input.domain, input.rows, input.mint, input.now, id);
      (after, AfterCreate(after, pair, attempt, settled, input.capableHosts))
  }

  /** An adopted link still has to pass the usability verdict; a minted one is answered at once. */
  function AfterCreate(db: Db, pair: Pair, attempt: nat, settled: Settled, capableHosts: set<string>): Pc {
    match settled
    case Refused(error) => Thrown(error)
    case PairConflict => LoadingWinner(attempt)
    case CredentialCollision => NextAttempt(attempt, TransactionFailed)
    case Pinned(_, adopted) =>
      match Load(db, pair)
      case None => Thrown(TransactionFailed)
      case Some(seen) => if adopted then Reuse(pair, seen) else Respond(pair, CREATED, seen, capableHosts)
  }

  function TryBackfill(db: Db, linkId: Id, attempt: nat, input: Input): (Db, Pc) {
    if input.aborted then (db, Thrown(TransactionFailed))
    else
      var (after, result) := BackfillTx(db, linkId, input.transportAlias);
      (after, if result.Collided? && attempt < CANONICAL_CREATE_MAX_ATTEMPTS then Backfilling(linkId, attempt + 1)
          else Rereading)
  }

  function CommitAdoption(db: Db, id: CallId, pair: Pair, mapping: Mapping, input: Input): (Db, Pc) {
    if input.aborted then (db, Thrown(TransactionFailed))
    else
      var (after, settled) := AdoptTx(db, pair, mapping, id);
      match settled
      case Pinned(_, _) =>
        (after, match Load(after, pair)
                case None => Thrown(TransactionFailed)
                case Some(seen) => Respond(pair, CREATED, seen, input.capableHosts))
      case _ => (after, Thrown(ConstraintViolated))
  }

  function ThrownOr(error: Option<Error>, next: Pc): Pc {
    match error
    case Some(e) => Thrown(e)
    case None => next
  }

  /** A step that reads: the rows stay as they are. */
  function ReadStep(db: Db, call: Call, input: Input): Pc
    requires InputFits(db, input)
  {
    var pair := call.pair;
    match call.pc
    case Begun => if pair.websiteId in db.activeWebsites then Loading else Thrown(WebsiteNotActive)
    case Loading => LoadThen(db, pair, if input.pepper then Attempting(1) else Thrown(PepperMissing))
    case LoadingBefore(n) => LoadThen(db, pair, Attempting(n))
    case LoadingWinner(n) => LoadThen(db, pair, NextAttempt(n, RetriesExhausted))
    case CheckingDomain(seen) => if DomainAsRecorded(db, pair, seen.mapping) then CheckingVideo(seen)
        else Thrown(DomainUnavailable)
    case CheckingVideo(seen) => if Eligible(db, pair) then CheckingEvidence(seen) else Thrown(VideoNotShareable)
    case CheckingEvidence(seen) =>
      ThrownOr(EvidenceError(db, pair, seen.mapping),
               if seen.link.transportAlias.Some? then Respond(pair, REUSED, seen, input.capableHosts)
               else Backfilling(seen.mapping.shareLinkId, 1))
    case Rereading =>
      (match Load(db, pair)
       case None => Thrown(MappingNotFound)
       case Some(seen) => Respond(pair, REUSED, seen, input.capableHosts))
    case Getting =>
      (match Load(db, pair)
       case None => Thrown(MappingNotFound)
       case Some(seen) => GettingEvidence(seen))
    case GettingEvidence(seen) =>
      var error := EvidenceError(db, pair, seen.mapping);
      ThrownOr(if error == Some(EvidenceDrift) then None else error, Respond(pair, REUSED, seen, input.capableHosts))
    case AdoptBegun(l) => if pair.websiteId in db.activeWebsites then AdoptLink(l) else Thrown(WebsiteNotActive)
    case AdoptLink(l) => ThrownOr(AdoptionError(db, pair, l), AdoptVideo(l))
    case AdoptVideo(l) => if Eligible(db, pair) then AdoptDomain(l) else Thrown(VideoNotEligible)
    case AdoptDomain(l) =>
      if input.domain.None? then Thrown(NoActiveDomain)
      else AdoptEvidence(l, input.domain.value, db.domains[input.domain.value].host)
    case AdoptEvidence(l, d, host) =>
      (match ReadEvidence(db, pair.videoId)
       case Unreadable(error) => Thrown(error)
       case Complete(evidence) => AdoptCommit(Mapping(l, d, host, Some(evidence), Some(evidence))))
    case _ => call.pc
  }

  function AdvanceCall(db: Db, id: CallId, call: Call, input: Input): (Db, Pc)
    requires InputFits(db, input)
  {
    match call.pc
    case Attempting(n) => Attempt(db, id, call.pair, n, input)
    case Backfilling(l, n) => TryBackfill(db, l, n, input)
    case AdoptCommit(mapping) => CommitAdoption(db, id, call.pair, mapping, input)
    case _ => (db, ReadStep(db, call, input))
  }

  // ---------------------------------------------------------------- everything else

  function WithoutMember(link: Link, videoId: Id): Link {
    link.(members := RemoveAll(link.members, videoId))
  }

  function RemoveAll(members: seq<Id>, videoId: Id): seq<Id> {
    if members == [] then []
    else if members[0] == videoId then RemoveAll(members[1..], videoId)
    else [members[0]] + RemoveAll(members[1..], videoId)
  }

  /** A video or domain that a mapping refers to cannot be deleted: those relations are `Restrict`. */
  function EnvironmentTx(db: Db, e: Event): Db {
    match e
    case SetWebsite(w, active) => db.(activeWebsites := if active then db.activeWebsites + {w}
        else db.activeWebsites - {w})
    case PutDomain(d, domain) => db.(domains := db.domains[d := domain])
    case DropDomain(d) =>
      if exists p :: p in db.mappings && db.mappings[p].domainId == d then db else db.(domains := db.domains - {d})
    case AddVideo(v, video) => db.(videos := db.videos[v := video])
    case UpdateVideo(v, video) => if v in db.videos then db.(videos := db.videos[v := video]) else db
    case PurgeVideo(v) =>
      if v !in db.videos || exists p :: p in db.mappings && p.videoId == v then db
      else
        db.(videos := db.videos - {v},
            assignments := (set p | p in db.assignments && p.videoId != v),
            links := (map l | l in db.links :: WithoutMember(db.links[l], v)),
            retired := db.retired + {v})
    case SetAssignment(p, active) => db.(assignments := if active then db.assignments + {p} else db.assignments - {p})
    case CreateLink(l, link) => db.(links := db.links[l := link])
    case SetStatus(l, status) => if l in db.links then db.(links := db.links[l := db.links[l].(status := status)])
        else db
    case _ => db
  }

  function Step(s: State, e: Event): State
    requires e.Advance? ==> e.call in s.calls && InputFits(s.db, e.input)
  {
    match e
    case Invoke(c, pair) => s.(calls := s.calls[c := Call(pair, Begun)])
    case InvokeGet(c, pair) => s.(calls := s.calls[c := Call(pair, Getting)])
    case InvokeAdopt(c, pair, l) => s.(calls := s.calls[c := Call(pair, AdoptBegun(l))])
    case Advance(c, input) =>
      var (after, pc) := AdvanceCall(s.db, c, s.calls[c], input);
      State(after, s.calls[c := Call(s.calls[c].pair, pc)])
    case _ => s.(db := EnvironmentTx(s.db, e))
  }

  /** None of the link's three credentials is another link's. */
  predicate CredentialsFree(links: map<Id, Link>, link: Link) {
    forall l :: l in links ==>
      && links[l].tokenHash != link.tokenHash
      && (link.alias.Some? ==> links[l].alias != link.alias)
      && (link.transportAlias.Some? ==> links[l].transportAlias != link.transportAlias)
  }

  /** Identifiers are never reused, queries answer truthfully, and unique columns stay unique. */
  ghost predicate Allowed(s: State, e: Event) {
    match e
    case Invoke(c, _) => c !in s.calls
    case InvokeGet(c, _) => c !in s.calls
    case InvokeAdopt(c, _, _) => c !in s.calls
    case Advance(c, input) =>
      && c in s.calls && InputFits(s.db, input)
      && EnumeratesRows(s.db, s.calls[c].pair, input.rows)
      && PreferredDomain(s.db, s.calls[c].pair.websiteId, input.domain)
      && input.mint.linkId !in s.db.links && !NoUsableAlias(Some(input.mint.alias))
    case AddVideo(v, _) => v !in s.db.videos && v !in s.db.retired
    case CreateLink(l, link) => l !in s.db.links && link.transportAlias.None? && CredentialsFree(s.db.links, link)
    case _ => true
  }

  ghost predicate IsRun(states: seq<State>, events: seq<Event>) {
    && |states| == |events| + 1
    && forall i :: 0 <= i < |events| ==> Allowed(states[i], events[i]) && states[i + 1] == Step(states[i], events[i])
  }

  // ---------------------------------------------------------------- the rows are sound

  predicate MappingSound(db: Db, p: Pair)
    requires p in db.mappings
  {
    && db.mappings[p].shareLinkId in db.links
    && db.mappings[p].shareLinkId in db.anchors && db.anchors[db.mappings[p].shareLinkId] == p
    && db.mappings[p].domainId in db.domains
    && p.videoId in db.videos
    && p in db.origins
  }

  /** What adoptExistingShareLink guarantees of the link it pins. */
  predicate AdoptedContract(pair: Pair, link: Link) {
    && link.websiteId == pair.websiteId && link.members == [pair.videoId]
    && link.alias.Some? && link.alias.value != "" && link.expiresAt.None? && link.maxViews.None?
  }

  predicate OriginSound(db: Db, p: Pair)
    requires p in db.mappings && MappingSound(db, p)
  {
    var link := db.links[db.mappings[p].shareLinkId];
    match db.origins[p]
    case Legacy => true
    case Request(_) => ContractFault(p, link) == None
    case Operator(_) => AdoptedContract(p, link)
  }

  ghost predicate DbSound(db: Db) {
    && (forall p :: p in db.mappings ==> MappingSound(db, p) && OriginSound(db, p))
    && (forall l :: l in db.anchors ==> db.anchors[l] in db.mappings && db.mappings[db.anchors[l]].shareLinkId == l)
    && (forall v :: v in db.retired ==> v !in db.videos)
  }

  /** What never changes about a link: everything but its status, its membership and a first transport alias. */
  predicate LinkKept(before: Link, after: Link) {
    && after == before.(status := after.status, members := after.members, transportAlias := after.transportAlias)
    && (before.transportAlias.Some? ==> after.transportAlias == before.transportAlias)
  }

  /** What every step keeps: mappings, their origins, links, and the member of an exact link unless it was purged. */
  ghost predicate Extends(db: Db, after: Db) {
    && (forall p :: p in db.mappings ==> p in after.mappings)
    && (forall p :: p in db.mappings ==> after.mappings[p] == db.mappings[p])
    && (forall p :: p in db.mappings && p in db.origins ==> p in after.origins && after.origins[p] == db.origins[p])
    && (forall l :: l in db.links ==> l in after.links)
    && (forall l :: l in db.links ==> LinkKept(db.links[l], after.links[l]))
    && (forall l, v :: l in db.links && db.links[l].members == [v] ==>
          after.links[l].members == [v] || v in after.retired)
    && db.retired <= after.retired
  }

  lemma ExtendsTransitive(x: Db, y: Db, z: Db)
    requires Extends(x, y) && Extends(y, z)
    ensures Extends(x, z)
  {
    forall l | l in x.links
      ensures LinkKept(x.links[l], z.links[l])
    {
      assert LinkKept(x.links[l], y.links[l]) && LinkKept(y.links[l], z.links[l]);
    }
  }

  lemma RemoveAllKeeps(members: seq<Id>, v: Id, w: Id)
    requires members == [w] && w != v
    ensures RemoveAll(members, v) == members
  {
    assert members[1..] == [];
  }

  /** Rows that only gain a status, a first transport alias or lose purged videos leave every mapping sound. */
  lemma SoundWhenKept(db: Db, after: Db)
    requires DbSound(db) && Extends(db, after)
    requires after.mappings == db.mappings && after.anchors == db.anchors && after.origins == db.origins
    requires forall p :: p in db.mappings ==> p.videoId in after.videos && db.mappings[p].domainId in after.domains
    requires forall v :: v in after.retired ==> v !in after.videos
    ensures DbSound(after)
  {
    forall p | p in after.mappings
      ensures MappingSound(after, p) && OriginSound(after, p)
    {
      assert MappingSound(db, p) && OriginSound(db, p);
      var l := db.mappings[p].shareLinkId;
      assert LinkKept(db.links[l], after.links[l]);
      if db.links[l].members == [p.videoId] { assert after.links[l].members == [p.videoId]; }
    }
  }

  lemma PurgeExtends(db: Db, e: Event)
    requires e.PurgeVideo?
    ensures Extends(db, EnvironmentTx(db, e))
  {
    var after := EnvironmentTx(db, e);
    PurgeKeepsRest(db, e);
    forall l, v: Id | l in db.links && db.links[l].members == [v]
      ensures after.links[l].members == [v] || v in after.retired
    {
      PurgeKeepsMember(db, e, l, v);
    }
  }

  lemma PurgeKeepsMember(db: Db, e: Event, l: Id, v: Id)
    requires e.PurgeVideo? && l in db.links && db.links[l].members == [v]
    ensures var after := EnvironmentTx(db, e);
            l in after.links && (after.links[l].members == [v] || v in after.retired)
  {
    if v != e.videoId { RemoveAllKeeps(db.links[l].members, e.videoId, v); }
  }

  lemma PurgeKeepsRest(db: Db, e: Event)
    requires e.PurgeVideo?
    ensures var after := EnvironmentTx(db, e);
            && after.mappings == db.mappings && after.origins == db.origins && db.retired <= after.retired
            && after.links.Keys == db.links.Keys
            && forall l :: l in db.links ==> LinkKept(db.links[l], after.links[l])
  {
  }

  /** Websites, domains, videos and assignments can change at will: no mapping or link is touched. */
  lemma SurroundingsExtend(db: Db, after: Db)
    requires after.mappings == db.mappings && after.origins == db.origins && after.links == db.links
               && after.retired == db.retired
    ensures Extends(db, after)
  {
  }

  lemma NoChangeExtends(db: Db)
    ensures Extends(db, db)
  {
    SurroundingsExtend(db, db);
  }

  lemma LinkUpdateExtends(db: Db, l: Id, link: Link)
    requires l in db.links ==> LinkKept(db.links[l], link) && link.members == db.links[l].members
    ensures Extends(db, db.(links := db.links[l := link]))
  {
  }

  lemma EnvironmentExtends(db: Db, e: Event)
    requires e.CreateLink? ==> e.linkId !in db.links
    ensures Extends(db, EnvironmentTx(db, e))
  {
    match e
    case PurgeVideo(_) => PurgeExtends(db, e);
    case CreateLink(l, link) => LinkUpdateExtends(db, l, link);
    case SetStatus(l, status) =>
      NoChangeExtends(db);
      if l in db.links { LinkUpdateExtends(db, l, db.links[l].(status := status)); }
    case _ => SurroundingsExtend(db, EnvironmentTx(db, e));
  }

  lemma EnvironmentKeepsReferences(db: Db, e: Event)
    requires DbSound(db)
    requires e.AddVideo? ==> e.videoId !in db.videos && e.videoId !in db.retired
    ensures var after := EnvironmentTx(db, e);
            && after.mappings == db.mappings && after.anchors == db.anchors && after.origins == db.origins
            && (forall p :: p in db.mappings ==> p.videoId in after.videos && db.mappings[p].domainId in after.domains)
            && (forall v :: v in after.retired ==> v !in after.videos)
  {
    forall p | p in db.mappings
      ensures p.videoId in EnvironmentTx(db, e).videos && db.mappings[p].domainId in EnvironmentTx(db, e).domains
    {
      assert MappingSound(db, p);
    }
  }

  lemma EnvironmentKeepsSound(db: Db, e: Event)
    requires DbSound(db)
    requires e.AddVideo? ==> e.videoId !in db.videos && e.videoId !in db.retired
    requires e.CreateLink? ==> e.linkId !in db.links
    ensures DbSound(EnvironmentTx(db, e)) && Extends(db, EnvironmentTx(db, e))
  {
    EnvironmentExtends(db, e);
    EnvironmentKeepsReferences(db, e);
    SoundWhenKept(db, EnvironmentTx(db, e));
  }

  lemma BackfillExtends(db: Db, linkId: Id, transportAlias: string)
    ensures Extends(db, BackfillTx(db, linkId, transportAlias).0)
  {
    NoChangeExtends(db);
    if linkId in db.links && db.links[linkId].transportAlias.None? {
      LinkUpdateExtends(db, linkId, db.links[linkId].(transportAlias := Some(transportAlias)));
    }
  }

  lemma BackfillKeepsSound(db: Db, linkId: Id, transportAlias: string)
    requires DbSound(db)
    ensures DbSound(BackfillTx(db, linkId, transportAlias).0) && Extends(db, BackfillTx(db, linkId, transportAlias).0)
  {
    BackfillExtends(db, linkId, transportAlias);
    forall p | p in db.mappings
      ensures p.videoId in db.videos && db.mappings[p].domainId in db.domains
    {
      assert MappingSound(db, p);
    }
    SoundWhenKept(db, BackfillTx(db, linkId, transportAlias).0);
  }

  lemma InsertExtends(db: Db, links: map<Id, Link>, pair: Pair, mapping: Mapping, origin: Origin)
    requires pair !in db.mappings && (forall l :: l in db.links ==> l in links && links[l] == db.links[l])
    ensures Extends(db, InsertMapping(db.(links := links), pair, mapping, origin))
  {
  }

  /** A mapping inserted under the unique constraints, on a link that meets its origin's promise. */
  lemma InsertKeepsSound(db: Db, links: map<Id, Link>, pair: Pair, mapping: Mapping, origin: Origin)
    requires DbSound(db) && !MappingConflicts(db, pair, mapping.shareLinkId)
    requires (forall l :: l in db.links ==> l in links && links[l] == db.links[l])
    requires mapping.shareLinkId in links && mapping.domainId in db.domains && pair.videoId in db.videos
    requires origin.Request? ==> ContractFault(pair, links[mapping.shareLinkId]) == None
    requires origin.Operator? ==> AdoptedContract(pair, links[mapping.shareLinkId])
    ensures DbSound(InsertMapping(db.(links := links), pair, mapping, origin))
  {
    var after := InsertMapping(db.(links := links), pair, mapping, origin);
    forall p | p in after.mappings
      ensures MappingSound(after, p) && OriginSound(after, p)
    {
      if p != pair { assert MappingSound(db, p) && OriginSound(db, p); }
    }
  }

  /** A create that pins is one insert, under the unique constraints; no refusal of it blames the contract. */
  lemma CreateIsOneInsert(db: Db, pair: Pair, input: Input, id: CallId)
    requires InputFits(db, input) && input.mint.linkId !in db.links
    ensures var (after, r) := CreateTx(db, pair, input.domain, input.rows, input.mint, input.now, id);
            && (r.Refused? ==> !r.error.ContractBroken?)
            && (r.Pinned? ==>
                  && pair in after.mappings && !MappingConflicts(db, pair, r.linkId)
                  && after.mappings[pair].shareLinkId == r.linkId
                  && after == InsertMapping(db.(links := after.links), pair, after.mappings[pair], Request(id))
                  && after.mappings[pair].domainId in db.domains && pair.videoId in db.videos
                  && (forall l :: l in db.links ==> l in after.links && after.links[l] == db.links[l]))
  {
  }

  lemma CreateKeepsSound(db: Db, pair: Pair, input: Input, id: CallId)
    requires DbSound(db) && InputFits(db, input)
    requires EnumeratesRows(db, pair, input.rows) && PreferredDomain(db, pair.websiteId, input.domain)
    requires input.mint.linkId !in db.links && !NoUsableAlias(Some(input.mint.alias))
    ensures var (after, r) := CreateTx(db, pair, input.domain, input.rows, input.mint, input.now, id);
            && DbSound(after) && Extends(db, after)
            && (r.Pinned? ==> pair in after.mappings && pair in after.origins && after.origins[pair] == Request(id))
            && (r.Refused? ==> !r.error.ContractBroken?)
  {
    CreatePinsTheNewestLink(db, pair, input.domain, input.rows, input.mint, input.now, id);
    CreateIsOneInsert(db, pair, input, id);
    var (after, r) := CreateTx(db, pair, input.domain, input.rows, input.mint, input.now, id);
    if r.Pinned? {
      InsertExtends(db, after.links, pair, after.mappings[pair], Request(id));
      InsertKeepsSound(db, after.links, pair, after.mappings[pair], Request(id));
    } else {
      NoChangeExtends(db);
    }
  }

  // ---------------------------------------------------------------- the calls are sound

  predicate SeenHolds(db: Db, pair: Pair, seen: Seen) {
    && pair in db.mappings && db.mappings[pair] == seen.mapping
    && seen.mapping.shareLinkId in db.links
    && LinkKept(seen.link, db.links[seen.mapping.shareLinkId])
  }

  /** The part of the operator's checks that no other transaction can undo. */
  predicate AdoptableStill(db: Db, pair: Pair, l: Id) {
    && l in db.links
    && (AdoptedContract(pair, db.links[l])
          || (AdoptedContract(pair, db.links[l].(members := [pair.videoId])) && pair.videoId in db.retired))
  }

  predicate CallHolds(db: Db, id: CallId, call: Call) {
    var pair := call.pair;
    match call.pc
    case LoadingBefore(n) => 2 <= n <= CANONICAL_CREATE_MAX_ATTEMPTS
    case Attempting(n) => 1 <= n <= CANONICAL_CREATE_MAX_ATTEMPTS
    case LoadingWinner(n) => 1 <= n <= CANONICAL_CREATE_MAX_ATTEMPTS
    case CheckingDomain(seen) => SeenHolds(db, pair, seen) && !NoUsableAlias(seen.link.alias)
    case CheckingVideo(seen) => SeenHolds(db, pair, seen) && !NoUsableAlias(seen.link.alias)
    case CheckingEvidence(seen) => SeenHolds(db, pair, seen) && !NoUsableAlias(seen.link.alias)
    case Backfilling(l, n) => pair in db.mappings && 1 <= n <= CANONICAL_CREATE_MAX_ATTEMPTS
    case Rereading => pair in db.mappings
    case GettingEvidence(seen) => SeenHolds(db, pair, seen)
    case AdoptVideo(l) => AdoptableStill(db, pair, l)
    case AdoptDomain(l) => AdoptableStill(db, pair, l)
    case AdoptEvidence(l, _, _) => AdoptableStill(db, pair, l)
    case AdoptCommit(mapping) => AdoptableStill(db, pair, mapping.shareLinkId)
    case Returned(outcome, l, compatibility) =>
      && pair in db.mappings && db.mappings[pair].shareLinkId == l && l in db.links
      && (compatibility.Some? ==>
            WellFormedTransportAlias(compatibility.value) && db.links[l].transportAlias == compatibility)
      && (outcome == CREATED ==> pair in db.origins && db.origins[pair] in {Request(id), Operator(id)})
    case Thrown(error) =>
      error.ContractBroken? ==> pair in db.mappings && pair in db.origins && !db.origins[pair].Request?
    case _ => true
  }

  /** Nothing another step does can invalidate what a call relies on. */
  lemma CallsAreStable(db: Db, after: Db, id: CallId, call: Call)
    requires Extends(db, after) && CallHolds(db, id, call)
    ensures CallHolds(after, id, call)
  {
    match call.pc
    case CheckingDomain(seen) => SeenIsStable(db, after, call.pair, seen);
    case CheckingVideo(seen) => SeenIsStable(db, after, call.pair, seen);
    case CheckingEvidence(seen) => SeenIsStable(db, after, call.pair, seen);
    case GettingEvidence(seen) => SeenIsStable(db, after, call.pair, seen);
    case Returned(_, l, _) => assert LinkKept(db.links[l], after.links[l]);
    case AdoptVideo(l) => AdoptableIsStable(db, after, call.pair, l);
    case AdoptDomain(l) => AdoptableIsStable(db, after, call.pair, l);
    case AdoptEvidence(l, _, _) => AdoptableIsStable(db, after, call.pair, l);
    case AdoptCommit(mapping) => AdoptableIsStable(db, after, call.pair, mapping.shareLinkId);
    case _ =>
  }

  lemma SeenIsStable(db: Db, after: Db, pair: Pair, seen: Seen)
    requires Extends(db, after) && SeenHolds(db, pair, seen)
    ensures SeenHolds(after, pair, seen)
  {
    assert LinkKept(db.links[seen.mapping.shareLinkId], after.links[seen.mapping.shareLinkId]);
  }

  lemma AdoptableIsStable(db: Db, after: Db, pair: Pair, l: Id)
    requires Extends(db, after) && AdoptableStill(db, pair, l)
    ensures AdoptableStill(after, pair, l)
  {
    assert LinkKept(db.links[l], after.links[l]);
  }

  lemma LoadHolds(db: Db, pair: Pair)
    requires DbSound(db)
    ensures Load(db, pair).Some? <==> pair in db.mappings
    ensures Load(db, pair).Some? ==> SeenHolds(db, pair, Load(db, pair).value)
  {
    if pair in db.mappings { assert MappingSound(db, pair); }
  }

  lemma ReuseHolds(db: Db, id: CallId, pair: Pair)
    requires DbSound(db) && pair in db.mappings
    ensures Load(db, pair).Some? && CallHolds(db, id, Call(pair, Reuse(pair, Load(db, pair).value)))
  {
    LoadHolds(db, pair);
    assert MappingSound(db, pair) && OriginSound(db, pair);
  }

  lemma LoadThenHolds(db: Db, id: CallId, pair: Pair, absent: Pc)
    requires DbSound(db) && CallHolds(db, id, Call(pair, absent))
    ensures CallHolds(db, id, Call(pair, LoadThen(db, pair, absent)))
  {
    if pair in db.mappings { ReuseHolds(db, id, pair); }
  }

  lemma RespondHolds(db: Db, id: CallId, pair: Pair, outcome: Outcome, seen: Seen, capableHosts: set<string>)
    requires SeenHolds(db, pair, seen)
    requires outcome == CREATED ==> pair in db.origins && db.origins[pair] in {Request(id), Operator(id)}
    ensures CallHolds(db, id, Call(pair, Respond(pair, outcome, seen, capableHosts)))
  {
  }

  lemma AfterCreateHolds(db: Db, id: CallId, pair: Pair, n: nat, settled: Settled, capableHosts: set<string>)
    requires DbSound(db) && 1 <= n <= CANONICAL_CREATE_MAX_ATTEMPTS
    requires settled.Pinned? ==> pair in db.mappings && pair in db.origins && db.origins[pair] == Request(id)
    requires settled.Refused? ==> !settled.error.ContractBroken?
    ensures CallHolds(db, id, Call(pair, AfterCreate(db, pair, n, settled, capableHosts)))
  {
    if settled.Pinned? {
      ReuseHolds(db, id, pair);
      LoadHolds(db, pair);
      RespondHolds(db, id, pair, CREATED, Load(db, pair).value, capableHosts);
    }
  }

  lemma AttemptHolds(db: Db, id: CallId, pair: Pair, n: nat, input: Input)
    requires DbSound(db) && InputFits(db, input) && 1 <= n <= CANONICAL_CREATE_MAX_ATTEMPTS
    requires EnumeratesRows(db, pair, input.rows) && PreferredDomain(db, pair.websiteId, input.domain)
    requires input.mint.linkId !in db.links && !NoUsableAlias(Some(input.mint.alias))
    ensures var (after, pc) := Attempt(db, id, pair, n, input);
            DbSound(after) && Extends(db, after) && CallHolds(after, id, Call(pair, pc))
  {
    if !input.aborted {
      CreateKeepsSound(db, pair, input, id);
      var (after, settled) := CreateTx(db, pair, input.domain, input.rows, input.mint, input.now, id);
      AfterCreateHolds(after, id, pair, n, settled, input.capableHosts);
    }
  }

  lemma AdoptionHolds(db: Db, id: CallId, pair: Pair, mapping: Mapping, input: Input)
    requires DbSound(db) && AdoptableStill(db, pair, mapping.shareLinkId)
    ensures var (after, pc) := CommitAdoption(db, id, pair, mapping, input);
            DbSound(after) && Extends(db, after) && CallHolds(after, id, Call(pair, pc))
  {
    var (after, r) := AdoptTx(db, pair, mapping, id);
    if !input.aborted && r.Pinned? {
      InsertExtends(db, db.links, pair, mapping, Operator(id));
      InsertKeepsSound(db, db.links, pair, mapping, Operator(id));
      assert db.(links := db.links) == db;
      LoadHolds(after, pair);
      RespondHolds(after, id, pair, CREATED, Load(after, pair).value, input.capableHosts);
    }
  }

  lemma TryBackfillHolds(db: Db, id: CallId, pair: Pair, l: Id, n: nat, input: Input)
    requires DbSound(db) && pair in db.mappings && 1 <= n <= CANONICAL_CREATE_MAX_ATTEMPTS
    ensures var (after, pc) := TryBackfill(db, l, n, input);
            DbSound(after) && Extends(db, after) && CallHolds(after, id, Call(pair, pc))
  {
    NoChangeExtends(db);
    BackfillKeepsSound(db, l, input.transportAlias);
  }

  predicate Writes(pc: Pc) { pc.Attempting? || pc.Backfilling? || pc.AdoptCommit? }

  /** After a step that only reads, the call relies on nothing but what it read. */
  lemma ReadHolds(db: Db, id: CallId, call: Call, input: Input)
    requires DbSound(db) && CallHolds(db, id, call) && InputFits(db, input) && !Writes(call.pc)
    ensures CallHolds(db, id, Call(call.pair, ReadStep(db, call, input)))
  {
    var pair := call.pair;
    match call.pc
    case Begun =>
    case Loading => LoadThenHolds(db, id, pair, if input.pepper then Attempting(1) else Thrown(PepperMissing));
    case LoadingBefore(n) => LoadThenHolds(db, id, pair, Attempting(n));
    case LoadingWinner(n) => LoadThenHolds(db, id, pair, NextAttempt(n, RetriesExhausted));
    case CheckingEvidence(seen) => RespondHolds(db, id, pair, REUSED, seen, input.capableHosts);
    case GettingEvidence(seen) => RespondHolds(db, id, pair, REUSED, seen, input.capableHosts);
    case Rereading =>
      LoadHolds(db, pair);
      RespondHolds(db, id, pair, REUSED, Load(db, pair).value, input.capableHosts);
    case Getting => LoadHolds(db, pair);
    case _ =>
  }

  lemma AdvanceHolds(db: Db, id: CallId, call: Call, input: Input)
    requires DbSound(db) && CallHolds(db, id, call) && InputFits(db, input)
    requires EnumeratesRows(db, call.pair, input.rows) && PreferredDomain(db, call.pair.websiteId, input.domain)
    requires input.mint.linkId !in db.links && !NoUsableAlias(Some(input.mint.alias))
    ensures var (after, pc) := AdvanceCall(db, id, call, input);
            DbSound(after) && Extends(db, after) && CallHolds(after, id, Call(call.pair, pc))
  {
    match call.pc
    case Attempting(n) => AttemptHolds(db, id, call.pair, n, input);
    case Backfilling(l, n) => TryBackfillHolds(db, id, call.pair, l, n, input);
    case AdoptCommit(mapping) => AdoptionHolds(db, id, call.pair, mapping, input);
    case _ =>
      ReadHolds(db, id, call, input);
      NoChangeExtends(db);
  }

  ghost predicate Inv(s: State) {
    DbSound(s.db) && forall c :: c in s.calls ==> CallHolds(s.db, c, s.calls[c])
  }

  lemma StepKeepsInv(s: State, e: Event)
    requires Inv(s) && Allowed(s, e)
    ensures Inv(Step(s, e)) && Extends(s.db, Step(s, e).db)
  {
    var after := Step(s, e);
    if e.Advance? {
      AdvanceHolds(s.db, e.call, s.calls[e.call], e.input);
    } else if !e.Invoke? && !e.InvokeGet? && !e.InvokeAdopt? {
      EnvironmentKeepsSound(s.db, e);
    }
    forall c | c in after.calls
      ensures CallHolds(after.db, c, after.calls[c])
    {
      if c in s.calls && after.calls[c] == s.calls[c] { CallsAreStable(s.db, after.db, c, s.calls[c]); }
    }
  }

  // ---------------------------------------------------------------- every run

  lemma {:induction false} RunKeepsInv(states: seq<State>, events: seq<Event>, i: nat)
    requires IsRun(states, events) && Inv(states[0]) && i < |states|
    ensures Inv(states[i])
  {
    if i > 0 {
      RunKeepsInv(states, events, i - 1);
      StepKeepsInv(states[i - 1], events[i - 1]);
    }
  }

  lemma {:induction false} RunExtends(states: seq<State>, events: seq<Event>, i: nat, j: nat)
    requires IsRun(states, events) && Inv(states[0]) && i <= j < |states|
    ensures Extends(states[i].db, states[j].db)
  {
    if i < j {
      RunExtends(states, events, i, j - 1);
      RunKeepsInv(states, events, j - 1);
      StepKeepsInv(states[j - 1], events[j - 1]);
      ExtendsTransitive(states[i].db, states[j - 1].db, states[j].db);
    }
  }

  /** A mapping is permanent: whatever happens, it keeps its link, its domain, its host and its evidence. */
  lemma MappingIsPermanent(states: seq<State>, events: seq<Event>, i: nat, j: nat, pair: Pair)
    requires IsRun(states, events) && Inv(states[0]) && i <= j < |states|
    requires pair in states[i].db.mappings
    ensures pair in states[j].db.mappings && states[j].db.mappings[pair] == states[i].db.mappings[pair]
  {
    RunExtends(states, events, i, j);
  }

  predicate ReturnedWith(s: State, c: CallId, pair: Pair) {
    c in s.calls && s.calls[c].pair == pair && s.calls[c].pc.Returned?
  }

  /** Every call on a pair that returns at all returns the same share link, whenever and however it ran. */
  lemma AllCallsReturnOneLink(states: seq<State>, events: seq<Event>, i: nat, j: nat, pair: Pair, c: CallId, d: CallId)
    requires IsRun(states, events) && Inv(states[0]) && i <= j < |states|
    requires ReturnedWith(states[i], c, pair) && ReturnedWith(states[j], d, pair)
    ensures states[i].calls[c].pc.linkId == states[j].calls[d].pc.linkId
    ensures pair in states[j].db.mappings && states[j].db.mappings[pair].shareLinkId == states[i].calls[c].pc.linkId
  {
    RunKeepsInv(states, events, i);
    RunKeepsInv(states, events, j);
    MappingIsPermanent(states, events, i, j, pair);
  }

  lemma CreatorIsRecorded(states: seq<State>, events: seq<Event>, i: nat, pair: Pair, c: CallId)
    requires IsRun(states, events) && Inv(states[0]) && i < |states|
    requires ReturnedWith(states[i], c, pair) && states[i].calls[c].pc.outcome == CREATED
    ensures pair in states[i].db.mappings && pair in states[i].db.origins
    ensures states[i].db.origins[pair] in {Request(c), Operator(c)}
  {
    RunKeepsInv(states, events, i);
    assert CallHolds(states[i].db, c, states[i].calls[c]);
  }

  /** At most one call ever reports that it created the pair's canonical link. */
  lemma AtMostOneCallCreates(states: seq<State>, events: seq<Event>, i: nat, j: nat, pair: Pair, c: CallId, d: CallId)
    requires IsRun(states, events) && Inv(states[0]) && i <= j < |states|
    requires ReturnedWith(states[i], c, pair) && states[i].calls[c].pc.outcome == CREATED
    requires ReturnedWith(states[j], d, pair) && states[j].calls[d].pc.outcome == CREATED
    ensures c == d
  {
    CreatorIsRecorded(states, events, i, pair, c);
    CreatorIsRecorded(states, events, j, pair, d);
    RunExtends(states, events, i, j);
  }

  /** A transport alias is written at most once, and an emitted one stays the persisted one for good. */
  lemma TransportAliasIsWriteOnce(states: seq<State>, events: seq<Event>, i: nat, j: nat, l: Id)
    requires IsRun(states, events) && Inv(states[0]) && i <= j < |states|
    requires l in states[i].db.links && states[i].db.links[l].transportAlias.Some?
    ensures l in states[j].db.links && states[j].db.links[l].transportAlias == states[i].db.links[l].transportAlias
  {
    RunExtends(states, events, i, j);
    assert LinkKept(states[i].db.links[l], states[j].db.links[l]);
  }

  lemma EmittedCompatibilityIsPersisted(states: seq<State>, events: seq<Event>, i: nat, j: nat, c: CallId)
    requires IsRun(states, events) && Inv(states[0]) && i <= j < |states|
    requires c in states[i].calls && states[i].calls[c].pc.Returned? && states[i].calls[c].pc.compatibility.Some?
    ensures var pc := states[i].calls[c].pc;
            && pc.linkId in states[j].db.links && states[j].db.links[pc.linkId].transportAlias == pc.compatibility
            && WellFormedTransportAlias(pc.compatibility.value)
  {
    RunKeepsInv(states, events, i);
    assert CallHolds(states[i].db, c, states[i].calls[c]);
    TransportAliasIsWriteOnce(states, events, i, j, states[i].calls[c].pc.linkId);
  }

  /** A mapping the request path committed honours the canonical contract in every later state. */
  lemma CreatedMappingsHonourTheContract(states: seq<State>, events: seq<Event>, i: nat, pair: Pair)
    requires IsRun(states, events) && Inv(states[0]) && i < |states|
    requires pair in states[i].db.mappings && pair in states[i].db.origins && states[i].db.origins[pair].Request?
    ensures var l := states[i].db.mappings[pair].shareLinkId;
            && l in states[i].db.links
            && states[i].db.links[l].websiteId == pair.websiteId && states[i].db.links[l].members == [pair.videoId]
            && states[i].db.links[l].expiresAt.None? && states[i].db.links[l].maxViews.None?
            && !NoUsableAlias(states[i].db.links[l].alias)
    ensures forall c :: c in states[i].calls && states[i].calls[c].pair == pair ==>
              !(states[i].calls[c].pc.Thrown? && states[i].calls[c].pc.error.ContractBroken?)
  {
    RunKeepsInv(states, events, i);
    assert MappingSound(states[i].db, pair) && OriginSound(states[i].db, pair);
    forall c | c in states[i].calls && states[i].calls[c].pair == pair
      ensures !(states[i].calls[c].pc.Thrown? && states[i].calls[c].pc.error.ContractBroken?)
    {
      assert CallHolds(states[i].db, c, states[i].calls[c]);
    }
  }

  /** Only a request's transaction or an operator's can map a pair. */
  lemma OnlyCommitsMap(s: State, e: Event, pair: Pair)
    requires Allowed(s, e) && pair !in s.db.mappings && pair in Step(s, e).db.mappings
    ensures e.Advance? && (s.calls[e.call].pc.Attempting? || s.calls[e.call].pc.AdoptCommit?)
              && s.calls[e.call].pair == pair
    ensures s.calls[e.call].pc.AdoptCommit? ==> Step(s, e).db.mappings[pair] == s.calls[e.call].pc.mapping
  {
    match e
    case Advance(c, input) =>
      match s.calls[c].pc {
        case Attempting(_) => CreateIsOneInsertOrNothing(s.db, s.calls[c].pair, input, c);
        case AdoptCommit(_) =>
        case Backfilling(_, _) =>
        case _ =>
      }
    case _ =>
  }

  lemma CreateIsOneInsertOrNothing(db: Db, pair: Pair, input: Input, id: CallId)
    requires InputFits(db, input)
    ensures var after := CreateTx(db, pair, input.domain, input.rows, input.mint, input.now, id).0;
            after == db || (pair in after.mappings && after.mappings == db.mappings[pair := after.mappings[pair]])
  {
  }

  /**
   The step that first maps a pair is a request's transaction, which pins the newest exact link there is
   at that moment or mints if there is none; or an operator's, which pins the exact link the operator named.
   */
  lemma FirstMappingPinsTheNewestLink(states: seq<State>, events: seq<Event>, i: nat, pair: Pair)
    requires IsRun(states, events) && Inv(states[0]) && i < |events|
    requires pair !in states[i].db.mappings && pair in states[i + 1].db.mappings
    ensures events[i].Advance? && states[i].calls[events[i].call].pair == pair
    ensures var db, l := states[i].db, states[i + 1].db.mappings[pair].shareLinkId;
            match states[i].calls[events[i].call].pc
            case Attempting(_) =>
              if exists k :: ExactLink(db, pair, k)
              then ExactLink(db, pair, l) && forall k :: ExactLink(db, pair, k) ==> NoOlder(db, l, k)
              else l !in db.links
            case AdoptCommit(mapping) => l == mapping.shareLinkId && ExactLink(db, pair, l)
                && AdoptedContract(pair, db.links[l])
            case _ => false
  {
    OnlyCommitsMap(states[i], events[i], pair);
    var db, id, input := states[i].db, events[i].call, events[i].input;
    if states[i].calls[id].pc.Attempting? {
      CreatePinsTheNewestLink(db, pair, input.domain, input.rows, input.mint, input.now, id);
    } else {
      RunKeepsInv(states, events, i);
      assert CallHolds(db, id, states[i].calls[id]);
      assert pair.videoId in db.videos;
    }
  }

  /**
   An operator's commit rechecks nothing but the unique keys: it is answered CREATED whatever has become
   of the link's status, the website, or the state of video and domain since the checks. A request then
   accepts the pinned link exactly if it is still ACTIVE.
   */
  lemma LateAdoptionIsUsableIff(db: Db, id: CallId, pair: Pair, mapping: Mapping, input: Input)
    requires DbSound(db) && AdoptableStill(db, pair, mapping.shareLinkId)
    ensures var (after, pc) := CommitAdoption(db, id, pair, mapping, input);
            && (pc.Returned? <==>
                  && !input.aborted && !MappingConflicts(db, pair, mapping.shareLinkId)
                  && pair.videoId in db.videos && mapping.domainId in db.domains
                  && !NoUsableAlias(db.links[mapping.shareLinkId].alias))
            && (pc.Returned? ==>
                  && pc.outcome == CREATED && pc.linkId == mapping.shareLinkId && Load(after, pair).Some?
                  && (Reuse(pair, Load(after, pair).value).CheckingDomain? <==>
                        db.links[mapping.shareLinkId].status == ACTIVE))
  {
    if !MappingConflicts(db, pair, mapping.shareLinkId) && pair.videoId in db.videos && mapping.domainId in db.domains {
      var after := AdoptTx(db, pair, mapping, id).0;
      assert Load(after, pair) == Some(Seen(mapping, db.links[mapping.shareLinkId]));
    }
  }

  /**
   A link revoked between an operator's checks and the commit is pinned and answered CREATED, and
   refused ever after.
   */
  lemma RevokedLinkCanBeAdopted()
    ensures var video := Video(true, true, Evidence(0, false, false));
            var link := Link(1, 7, Some("a"), None, REVOKED, None, None, 0, [2]);
            var db := Db({1}, map[3 := Domain(Some(1), true, true, 0, "example.org")], map[2 := video], {PAIR},
                         map[4 := link], map[], map[], map[], {});
            var mapping := Mapping(4, 3, "example.org", Some(video.evidence), Some(video.evidence));
            var (after, pc) := CommitAdoption(db, 0, PAIR, mapping,
                Input(0, false, true, Some(3), [], Mint(9, 0, "", ""), "", {}));
            && AdoptionError(db.(links := map[4 := link.(status := ACTIVE)]), PAIR, 4) == None
            && pc.Returned? && pc.outcome == CREATED && pc.linkId == 4
            && LoadThen(after, PAIR, Loading) == Thrown(LinkRevoked)
  {
    BlankIff("a");
  }

  // ---------------------------------------------------------------- what a reused link was checked for

  /** At step `k` the call looked at the mapping's domain, and it stood. */
  predicate DomainSeenAt(states: seq<State>, events: seq<Event>, k: nat, c: CallId)
    requires |states| == |events| + 1
  {
    && k < |events| && events[k].Advance? && events[k].call == c && c in states[k].calls
    && var call := states[k].calls[c];
       && call.pc.CheckingDomain? && DomainStands(states[k].db, call.pair, call.pc.seen.mapping)
       && call.pc.seen.link.status == ACTIVE && HonoursContract(call.pair, call.pc.seen.link)
  }

  predicate VideoSeenAt(states: seq<State>, events: seq<Event>, k: nat, c: CallId)
    requires |states| == |events| + 1
  {
    && k < |events| && events[k].Advance? && events[k].call == c && c in states[k].calls
    && states[k].calls[c].pc.CheckingVideo? && VideoStands(states[k].db, states[k].calls[c].pair)
  }

  /** At step `k` the call read the video's evidence. A mere lookup asks for complete evidence only. */
  predicate EvidenceSeenAt(states: seq<State>, events: seq<Event>, k: nat, c: CallId, lookup: bool)
    requires |states| == |events| + 1
  {
    && k < |events| && events[k].Advance? && events[k].call == c && c in states[k].calls
    && var call := states[k].calls[c];
       && (if lookup then call.pc.GettingEvidence? else call.pc.CheckingEvidence?)
       && call.pair in states[k].db.mappings && states[k].db.mappings[call.pair] == call.pc.seen.mapping
       && EvidenceIsComplete(states[k].db, call.pair, call.pc.seen.mapping)
       && (!lookup ==> EvidenceStands(states[k].db, call.pair, call.pc.seen.mapping))
  }

  /** The call got past the checks of a reuse by steps before `i`. */
  ghost predicate Checked(states: seq<State>, events: seq<Event>, i: nat, c: CallId)
    requires |states| == |events| + 1
  {
    && (exists k: nat :: k < i && DomainSeenAt(states, events, k, c))
    && (exists k: nat :: k < i && VideoSeenAt(states, events, k, c))
    && (exists k: nat :: k < i && EvidenceSeenAt(states, events, k, c, false))
  }

  ghost predicate CheckedSoFar(states: seq<State>, events: seq<Event>, i: nat, c: CallId)
    requires |states| == |events| + 1 && i < |states| && c in states[i].calls
  {
    match states[i].calls[c].pc
    case CheckingDomain(seen) => seen.link.status == ACTIVE && HonoursContract(states[i].calls[c].pair, seen.link)
    case CheckingVideo(_) => exists k: nat :: k < i && DomainSeenAt(states, events, k, c)
    case CheckingEvidence(_) =>
      && (exists k: nat :: k < i && DomainSeenAt(states, events, k, c))
      && (exists k: nat :: k < i && VideoSeenAt(states, events, k, c))
    case Backfilling(_, _) => Checked(states, events, i, c)
    case Rereading => Checked(states, events, i, c)
    case Returned(REUSED, _, _) =>
      Checked(states, events, i, c) || exists k: nat :: k < i && EvidenceSeenAt(states, events, k, c, true)
    case _ => true
  }

  lemma OthersKeepCall(s: State, e: Event, c: CallId)
    requires Allowed(s, e) && c in s.calls && !(e.Advance? && e.call == c)
    ensures c in Step(s, e).calls && Step(s, e).calls[c] == s.calls[c]
  {
  }

  lemma ReuseIsOfAnActiveLink(pair: Pair, seen: Seen)
    ensures Reuse(pair, seen).CheckingDomain? ==>
              Reuse(pair, seen).seen == seen && seen.link.status == ACTIVE && HonoursContract(pair, seen.link)
    ensures !Reuse(pair, seen).Thrown? ==> Reuse(pair, seen).CheckingDomain?
  {
    ContractFaultIff(pair, seen.link);
  }

  /** How a call gets from check to check: into each stage only from the one before, and only past its test. */
  lemma ChecksComeInOrder(db: Db, id: CallId, call: Call, input: Input)
    requires InputFits(db, input)
    ensures var next := AdvanceCall(db, id, call, input).1;
            && (next.CheckingDomain? ==> next.seen.link.status == ACTIVE && HonoursContract(call.pair, next.seen.link))
            && (next.CheckingVideo? ==> call.pc.CheckingDomain? && DomainStands(db, call.pair, call.pc.seen.mapping))
            && (next.CheckingEvidence? ==> call.pc.CheckingVideo? && VideoStands(db, call.pair))
  {
    match call.pc
    case Attempting(n) => AttemptGoesOn(db, id, call.pair, n, input);
    case Loading => LoadGoesOn(db, call.pair);
    case LoadingBefore(_) => LoadGoesOn(db, call.pair);
    case LoadingWinner(_) => LoadGoesOn(db, call.pair);
    case _ =>
  }

  lemma LoadGoesOn(db: Db, pair: Pair)
    ensures Load(db, pair).Some? ==>
              var next := Reuse(pair, Load(db, pair).value);
              next.Thrown? || (next.CheckingDomain? && next.seen.link.status == ACTIVE
                  && HonoursContract(pair, next.seen.link))
  {
    if Load(db, pair).Some? { ReuseIsOfAnActiveLink(pair, Load(db, pair).value); }
  }

  lemma AttemptGoesOn(db: Db, id: CallId, pair: Pair, n: nat, input: Input)
    requires InputFits(db, input)
    ensures var next := Attempt(db, id, pair, n, input).1;
            && !next.CheckingVideo? && !next.CheckingEvidence? && !next.Backfilling? && !next.Rereading?
            && (next.Returned? ==> next.outcome == CREATED)
            && (next.CheckingDomain? ==> next.seen.link.status == ACTIVE && HonoursContract(pair, next.seen.link))
  {
    if !input.aborted {
      var (after, settled) := CreateTx(db, pair, input.domain, input.rows, input.mint, input.now, id);
      LoadGoesOn(after, pair);
    }
  }

  /** Out of the evidence step only with complete evidence that is still what the mapping recorded. */
  lemma EvidenceIsRead(db: Db, id: CallId, call: Call, input: Input)
    requires InputFits(db, input)
    ensures var next := AdvanceCall(db, id, call, input).1;
            && (next.Backfilling? || next.Rereading? ==>
                  || call.pc.Backfilling?
                  || (call.pc.CheckingEvidence? && EvidenceIsComplete(db, call.pair, call.pc.seen.mapping)
                      && EvidenceStands(db, call.pair, call.pc.seen.mapping)))
            && (next.Returned? && next.outcome == REUSED && !call.pc.Returned? ==>
                  || call.pc.Rereading?
                  || (call.pc.CheckingEvidence? && EvidenceIsComplete(db, call.pair, call.pc.seen.mapping)
                      && EvidenceStands(db, call.pair, call.pc.seen.mapping))
                  || (call.pc.GettingEvidence? && EvidenceIsComplete(db, call.pair, call.pc.seen.mapping)))
  {
    match call.pc
    case Attempting(n) => AttemptGoesOn(db, id, call.pair, n, input);
    case Loading => LoadGoesOn(db, call.pair);
    case LoadingBefore(_) => LoadGoesOn(db, call.pair);
    case LoadingWinner(_) => LoadGoesOn(db, call.pair);
    case CheckingEvidence(seen) => EvidenceErrorIff(db, call.pair, seen.mapping);
    case GettingEvidence(seen) => EvidenceErrorIff(db, call.pair, seen.mapping);
    case AdoptCommit(_) =>
    case _ =>
  }

  lemma EvidenceErrorIff(db: Db, pair: Pair, mapping: Mapping)
    ensures EvidenceError(db, pair, mapping) == None <==>
              EvidenceIsComplete(db, pair, mapping) && EvidenceStands(db, pair, mapping)
    ensures EvidenceError(db, pair, mapping) in {None, Some(EvidenceDrift)} <==> EvidenceIsComplete(db, pair, mapping)
  {
  }

  lemma {:induction false} CallsAreChecked(states: seq<State>, events: seq<Event>, i: nat, c: CallId)
    requires IsRun(states, events) && Inv(states[0]) && states[0].calls == map[] && i < |states| && c in states[i].calls
    ensures CheckedSoFar(states, events, i, c)
    decreases i
  {
    if i > 0 && c in states[i - 1].calls {
      CallsAreChecked(states, events, i - 1, c);
      var s, e := states[i - 1], events[i - 1];
      if e.Advance? && e.call == c {
        RunKeepsInv(states, events, i - 1);
        assert CallHolds(s.db, c, s.calls[c]);
        ChecksComeInOrder(s.db, c, s.calls[c], e.input);
        EvidenceIsRead(s.db, c, s.calls[c], e.input);
        StepIsChecked(states, events, i - 1, c);
      } else {
        OthersKeepCall(s, e, c);
      }
    }
  }

  lemma StepIsChecked(states: seq<State>, events: seq<Event>, k: nat, c: CallId)
    requires IsRun(states, events) && k < |events| && events[k].Advance? && events[k].call == c && c in states[k].calls
    requires CheckedSoFar(states, events, k, c) && CallHolds(states[k].db, c, states[k].calls[c])
    ensures c in states[k + 1].calls && CheckedSoFar(states, events, k + 1, c)
  {
    var s, call, input := states[k], states[k].calls[c], events[k].input;
    ChecksComeInOrder(s.db, c, call, input);
    EvidenceIsRead(s.db, c, call, input);
    var next := AdvanceCall(s.db, c, call, input).1;
    assert states[k + 1].calls[c] == Call(call.pair, next);
    if next.CheckingVideo? { assert DomainSeenAt(states, events, k, c); }
    if next.CheckingEvidence? { assert VideoSeenAt(states, events, k, c); }
    if call.pc.CheckingEvidence? && EvidenceIsComplete(s.db, call.pair, call.pc.seen.mapping)
       && EvidenceStands(s.db, call.pair, call.pc.seen.mapping)
    {
      assert EvidenceSeenAt(states, events, k, c, false);
    }
    if call.pc.GettingEvidence? && EvidenceIsComplete(s.db, call.pair, call.pc.seen.mapping) {
      assert EvidenceSeenAt(states, events, k, c, true);
    }
  }

  /**
   Whatever is handed out as REUSED was an ACTIVE link under contract when it was loaded, and at three steps of
   the call its domain stood, its video was shareable, and its evidence was complete and still as recorded. A
   lookup that creates nothing asks for complete evidence only.
   */
  lemma ReusedLinksWereChecked(states: seq<State>, events: seq<Event>, i: nat, c: CallId)
    requires IsRun(states, events) && Inv(states[0]) && states[0].calls == map[] && i < |states|
    requires c in states[i].calls && states[i].calls[c].pc.Returned? && states[i].calls[c].pc.outcome == REUSED
    ensures Checked(states, events, i, c) || exists k: nat :: k < i && EvidenceSeenAt(states, events, k, c, true)
  {
    CallsAreChecked(states, events, i, c);
  }

  // ---------------------------------------------------------------- how a call got where it is

  /** Event `k` is a step of this call. */
  predicate OwnStep(states: seq<State>, events: seq<Event>, k: nat, c: CallId)
    requires |states| == |events| + 1
  {
    k < |events| && events[k].Advance? && events[k].call == c && c in states[k].calls
  }

  /** At step `k` the call found its website ACTIVE. */
  predicate WebsiteSeenAt(states: seq<State>, events: seq<Event>, k: nat, c: CallId)
    requires |states| == |events| + 1
  {
    && OwnStep(states, events, k, c)
    && (states[k].calls[c].pc.Begun? || states[k].calls[c].pc.AdoptBegun?)
    && states[k].calls[c].pair.websiteId in states[k].db.activeWebsites
  }

  /** At step `k` the call had no mapping to go by, and a pepper to mint with. */
  predicate PepperSeenAt(states: seq<State>, events: seq<Event>, k: nat, c: CallId)
    requires |states| == |events| + 1
  {
    && OwnStep(states, events, k, c) && states[k].calls[c].pc.Loading? && events[k].input.pepper
    && states[k].calls[c].pair !in states[k].db.mappings
  }

  /** At step `k` the link loaded before had a transport alias already. */
  predicate AliasSeenAt(states: seq<State>, events: seq<Event>, k: nat, c: CallId)
    requires |states| == |events| + 1
  {
    && OwnStep(states, events, k, c) && states[k].calls[c].pc.CheckingEvidence?
    && states[k].calls[c].pc.seen.link.transportAlias.Some?
  }

  /**
   The update went through: the link has a transport alias then, or is not ACTIVE, or the fifth value
   was taken too.
   */
  predicate BackfillIsOver(after: Db, l: Id, attempt: nat, transportAlias: string) {
    l in after.links ==>
      || after.links[l].transportAlias.Some?
      || after.links[l].status != ACTIVE
      || (attempt >= 5 && exists k :: k in after.links && after.links[k].transportAlias == Some(transportAlias))
  }

  predicate BackfilledAt(states: seq<State>, events: seq<Event>, k: nat, c: CallId)
    requires |states| == |events| + 1
  {
    && OwnStep(states, events, k, c) && states[k].calls[c].pc.Backfilling? && !events[k].input.aborted
    && BackfillIsOver(states[k + 1].db, states[k].calls[c].pc.linkId, states[k].calls[c].pc.attempt,
                      events[k].input.transportAlias)
  }

  predicate LookedUpAt(states: seq<State>, events: seq<Event>, k: nat, c: CallId)
    requires |states| == |events| + 1
  {
    OwnStep(states, events, k, c) && states[k].calls[c].pc.GettingEvidence?
  }

  ghost predicate Opened(states: seq<State>, events: seq<Event>, i: nat, c: CallId)
    requires |states| == |events| + 1
  {
    exists k: nat :: k < i && WebsiteSeenAt(states, events, k, c)
  }

  predicate Creates(pc: Pc) { pc.LoadingBefore? || pc.Attempting? || pc.LoadingWinner? }

  predicate BeforeTheDoor(pc: Pc) { pc.Begun? || pc.AdoptBegun? || pc.Getting? || pc.GettingEvidence? || pc.Thrown? }

  ghost predicate DoorPassed(states: seq<State>, events: seq<Event>, i: nat, c: CallId, pc: Pc)
    requires |states| == |events| + 1
  {
    !BeforeTheDoor(pc) ==>
      Opened(states, events, i, c)
      || (pc.Returned? && pc.outcome == REUSED && exists k: nat :: k < i && LookedUpAt(states, events, k, c))
  }

  ghost predicate Armed(states: seq<State>, events: seq<Event>, i: nat, c: CallId, pc: Pc)
    requires |states| == |events| + 1
  {
    Creates(pc) ==> exists k: nat :: k < i && PepperSeenAt(states, events, k, c)
  }

  ghost predicate AliasSettled(states: seq<State>, events: seq<Event>, i: nat, c: CallId, pc: Pc)
    requires |states| == |events| + 1
  {
    && (pc.Rereading? ==> exists k: nat :: k < i && BackfilledAt(states, events, k, c))
    && (pc.Returned? && pc.outcome == REUSED ==>
          || (exists k: nat :: k < i && LookedUpAt(states, events, k, c))
          || (exists k: nat :: k < i && AliasSeenAt(states, events, k, c))
          || (exists k: nat :: k < i && BackfilledAt(states, events, k, c)))
  }

  lemma LeadsThroughTheDoor(db: Db, id: CallId, call: Call, input: Input)
    requires InputFits(db, input) && BeforeTheDoor(call.pc)
    ensures var next := AdvanceCall(db, id, call, input).1;
            !BeforeTheDoor(next) ==>
              || ((call.pc.Begun? || call.pc.AdoptBegun?) && call.pair.websiteId in db.activeWebsites)
              || (call.pc.GettingEvidence? && next.Returned? && next.outcome == REUSED)
  {
  }

  lemma LeadsToCreate(db: Db, id: CallId, call: Call, input: Input)
    requires InputFits(db, input) && DbSound(db) && !Creates(call.pc)
    ensures Creates(AdvanceCall(db, id, call, input).1) ==>
              call.pc.Loading? && input.pepper && call.pair !in db.mappings
  {
    if call.pc.Loading? {
      LoadGoesOn(db, call.pair);
      LoadHolds(db, call.pair);
    }
  }

  lemma LeadsToReuse(db: Db, id: CallId, call: Call, input: Input)
    requires InputFits(db, input)
    ensures var (after, next) := AdvanceCall(db, id, call, input);
            && (next.Rereading? ==>
                  && call.pc.Backfilling? && !input.aborted
                  && BackfillIsOver(after, call.pc.linkId, call.pc.attempt, input.transportAlias))
            && (next.Returned? && next.outcome == REUSED && !call.pc.Returned? ==>
                  || call.pc.GettingEvidence? || call.pc.Rereading?
                  || (call.pc.CheckingEvidence? && call.pc.seen.link.transportAlias.Some?))
  {
    match call.pc
    case Attempting(n) => AttemptGoesOn(db, id, call.pair, n, input);
    case Loading => LoadGoesOn(db, call.pair);
    case LoadingBefore(_) => LoadGoesOn(db, call.pair);
    case LoadingWinner(_) => LoadGoesOn(db, call.pair);
    case Backfilling(l, n) => BackfillDoes(db, l, input.transportAlias);
    case _ =>
  }

  lemma OwnStepLeads(states: seq<State>, events: seq<Event>, k: nat, c: CallId)
    requires IsRun(states, events) && OwnStep(states, events, k, c)
    ensures var call := states[k].calls[c];
            && c in states[k + 1].calls && InputFits(states[k].db, events[k].input)
            && (states[k + 1].db, states[k + 1].calls[c].pc) == AdvanceCall(states[k].db, c, call, events[k].input)
  {
  }

  lemma StepPassesTheDoor(states: seq<State>, events: seq<Event>, k: nat, c: CallId)
    requires IsRun(states, events) && OwnStep(states, events, k, c)
    requires DoorPassed(states, events, k, c, states[k].calls[c].pc)
    ensures c in states[k + 1].calls && DoorPassed(states, events, k + 1, c, states[k + 1].calls[c].pc)
  {
    OwnStepLeads(states, events, k, c);
    var call := states[k].calls[c];
    if BeforeTheDoor(call.pc) {
      LeadsThroughTheDoor(states[k].db, c, call, events[k].input);
      if call.pc.GettingEvidence? {
        assert LookedUpAt(states, events, k, c);
      } else if !BeforeTheDoor(states[k + 1].calls[c].pc) {
        assert WebsiteSeenAt(states, events, k, c);
      }
    } else if call.pc.Returned? {
      FinishedStays(states[k].db, c, call, events[k].input);
    }
  }

  lemma StepArms(states: seq<State>, events: seq<Event>, k: nat, c: CallId)
    requires IsRun(states, events) && OwnStep(states, events, k, c) && DbSound(states[k].db)
    requires Armed(states, events, k, c, states[k].calls[c].pc)
    ensures c in states[k + 1].calls && Armed(states, events, k + 1, c, states[k + 1].calls[c].pc)
  {
    OwnStepLeads(states, events, k, c);
    var call := states[k].calls[c];
    if !Creates(call.pc) {
      LeadsToCreate(states[k].db, c, call, events[k].input);
      if Creates(states[k + 1].calls[c].pc) { assert PepperSeenAt(states, events, k, c); }
    }
  }

  lemma StepSettlesAlias(states: seq<State>, events: seq<Event>, k: nat, c: CallId)
    requires IsRun(states, events) && OwnStep(states, events, k, c)
    requires AliasSettled(states, events, k, c, states[k].calls[c].pc)
    ensures c in states[k + 1].calls && AliasSettled(states, events, k + 1, c, states[k + 1].calls[c].pc)
  {
    OwnStepLeads(states, events, k, c);
    var call := states[k].calls[c];
    LeadsToReuse(states[k].db, c, call, events[k].input);
    if call.pc.Returned? {
      FinishedStays(states[k].db, c, call, events[k].input);
    } else if states[k + 1].calls[c].pc.Rereading? {
      assert BackfilledAt(states, events, k, c);
    } else if call.pc.GettingEvidence? {
      assert LookedUpAt(states, events, k, c);
    } else if call.pc.CheckingEvidence? && call.pc.seen.link.transportAlias.Some? {
      assert AliasSeenAt(states, events, k, c);
    }
  }

  /**
   Past the door: a call got anywhere only after it found its website ACTIVE, unless it is a mere lookup; it
   tries to create only after it found no mapping and had a pepper; and a link is handed out as REUSED only with
   a transport alias it had, or after the backfill was tried to its end.
   */
  lemma {:induction false} CallsAreTraced(states: seq<State>, events: seq<Event>, i: nat, c: CallId)
    requires IsRun(states, events) && Inv(states[0]) && states[0].calls == map[] && i < |states| && c in states[i].calls
    ensures var pc := states[i].calls[c].pc;
            DoorPassed(states, events, i, c, pc) && Armed(states, events, i, c, pc)
                && AliasSettled(states, events, i, c, pc)
  {
    if i > 0 && c in states[i - 1].calls {
      CallsAreTraced(states, events, i - 1, c);
      RunKeepsInv(states, events, i - 1);
      if OwnStep(states, events, i - 1, c) {
        StepPassesTheDoor(states, events, i - 1, c);
        StepArms(states, events, i - 1, c);
        StepSettlesAlias(states, events, i - 1, c);
      } else {
        OthersKeepCall(states[i - 1], events[i - 1], c);
      }
    } else if i > 0 {
      CallsBegin(states[i - 1], events[i - 1], c);
    }
  }

  lemma CallsBegin(s: State, e: Event, c: CallId)
    requires Allowed(s, e) && c !in s.calls
    ensures c in Step(s, e).calls ==>
              Step(s, e).calls[c].pc in {Begun, Getting} || Step(s, e).calls[c].pc.AdoptBegun?
  {
  }

  /** A transaction that is aborted writes nothing at all. */
  lemma AbortsWriteNothing(s: State, e: Event)
    requires Allowed(s, e) && e.Advance? && e.input.aborted
    ensures Step(s, e).db == s.db
  {
  }

  /** What a returned call answers is the alias rule on the link it had loaded last. */
  lemma EmissionIsOfTheLoadedLink(states: seq<State>, events: seq<Event>, k: nat, c: CallId)
    requires IsRun(states, events) && Inv(states[0]) && OwnStep(states, events, k, c)
    requires !states[k].calls[c].pc.Returned? && states[k + 1].calls[c].pc.Returned?
    ensures var call, next, after := states[k].calls[c], states[k + 1].calls[c].pc, states[k + 1].db;
            && call.pair in after.mappings && after.mappings[call.pair].shareLinkId == next.linkId
            && next.linkId in after.links
            && var link := if call.pc.CheckingEvidence? || call.pc.GettingEvidence? then call.pc.seen.link
                           else after.links[next.linkId];
               && LinkKept(link, after.links[next.linkId])
               && next.compatibility == CompatibilityAlias(call.pair, after.mappings[call.pair], link,
                                                           events[k].input.capableHosts)
  {
    RunKeepsInv(states, events, k);
    RunKeepsInv(states, events, k + 1);
    OwnStepLeads(states, events, k, c);
    assert CallHolds(states[k].db, c, states[k].calls[c]) && CallHolds(states[k + 1].db, c, states[k + 1].calls[c]);
    EmissionOfAStep(states[k].db, c, states[k].calls[c], events[k].input);
  }

  lemma EmissionOfAStep(db: Db, id: CallId, call: Call, input: Input)
    requires InputFits(db, input) && CallHolds(db, id, call) && !call.pc.Returned?
    requires AdvanceCall(db, id, call, input).1.Returned?
    ensures var (after, next) := AdvanceCall(db, id, call, input);
            if call.pc.CheckingEvidence? || call.pc.GettingEvidence? then
              && after == db && next.linkId == call.pc.seen.mapping.shareLinkId
              && next.compatibility == CompatibilityAlias(call.pair, call.pc.seen.mapping, call.pc.seen.link,
                  input.capableHosts)
            else
              && call.pair in after.mappings && next.linkId == after.mappings[call.pair].shareLinkId
              && next.linkId in after.links
              && next.compatibility == CompatibilityAlias(call.pair, after.mappings[call.pair],
                  after.links[next.linkId], input.capableHosts)
  {
    match call.pc
    case Attempting(n) =>
      AttemptGoesOn(db, id, call.pair, n, input);
      EmissionOfACreate(db, id, call.pair, n, input);
    case Loading => LoadGoesOn(db, call.pair);
    case LoadingBefore(_) => LoadGoesOn(db, call.pair);
    case LoadingWinner(_) => LoadGoesOn(db, call.pair);
    case _ =>
  }

  lemma EmissionOfACreate(db: Db, id: CallId, pair: Pair, n: nat, input: Input)
    requires InputFits(db, input) && Attempt(db, id, pair, n, input).1.Returned?
    ensures var (after, next) := Attempt(db, id, pair, n, input);
            && pair in after.mappings && next.linkId == after.mappings[pair].shareLinkId && next.linkId in after.links
            && next.compatibility ==
                 CompatibilityAlias(pair, after.mappings[pair], after.links[next.linkId], input.capableHosts)
  {
    var (after, settled) := CreateTx(db, pair, input.domain, input.rows, input.mint, input.now, id);
    LoadGoesOn(after, pair);
  }

  // ---------------------------------------------------------------- what an operator's adoption was checked for

  /** At step `k` the named link was ACTIVE, of this website, with this one video, an alias and no options. */
  predicate LinkSeenAt(states: seq<State>, events: seq<Event>, k: nat, c: CallId, l: Id)
    requires |states| == |events| + 1
  {
    && OwnStep(states, events, k, c) && states[k].calls[c].pc == AdoptLink(l) && l in states[k].db.links
    && states[k].db.links[l].status == ACTIVE && AdoptedContract(states[k].calls[c].pair, states[k].db.links[l])
  }

  predicate ShareableSeenAt(states: seq<State>, events: seq<Event>, k: nat, c: CallId)
    requires |states| == |events| + 1
  {
    OwnStep(states, events, k, c) && states[k].calls[c].pc.AdoptVideo?
        && VideoStands(states[k].db, states[k].calls[c].pair)
  }

  /** At step `k` this was an ACTIVE domain of the website, a primary one if there was any, and then the oldest. */
  ghost predicate DomainChosenAt(states: seq<State>, events: seq<Event>, k: nat, c: CallId, d: Id, host: string)
    requires |states| == |events| + 1
  {
    && OwnStep(states, events, k, c) && states[k].calls[c].pc.AdoptDomain?
    && var domains, owner := states[k].db.domains, Some(states[k].calls[c].pair.websiteId);
       && d in domains && domains[d].websiteId == owner && domains[d].active && domains[d].host == host
       && forall e :: e in domains && domains[e].websiteId == owner && domains[e].active ==>
            && (domains[e].isPrimary ==> domains[d].isPrimary)
            && (domains[e].isPrimary == domains[d].isPrimary ==> domains[d].createdAt <= domains[e].createdAt)
  }

  /** At step `k` this was the video's evidence, with a valid checksum if it is a database blob. */
  predicate EvidenceTakenAt(states: seq<State>, events: seq<Event>, k: nat, c: CallId, evidence: Evidence)
    requires |states| == |events| + 1
  {
    && OwnStep(states, events, k, c) && states[k].calls[c].pc.AdoptEvidence?
    && var v := states[k].calls[c].pair.videoId;
       && v in states[k].db.videos && states[k].db.videos[v].evidence == evidence
       && (evidence.databaseBlob ==> evidence.checksumValid)
  }

  ghost predicate AdoptionTraced(states: seq<State>, events: seq<Event>, i: nat, c: CallId, pc: Pc)
    requires |states| == |events| + 1
  {
    match pc
    case AdoptVideo(l) => exists k: nat :: k < i && LinkSeenAt(states, events, k, c, l)
    case AdoptDomain(l) =>
      && (exists k: nat :: k < i && LinkSeenAt(states, events, k, c, l))
      && (exists k: nat :: k < i && ShareableSeenAt(states, events, k, c))
    case AdoptEvidence(l, d, host) =>
      && (exists k: nat :: k < i && LinkSeenAt(states, events, k, c, l))
      && (exists k: nat :: k < i && ShareableSeenAt(states, events, k, c))
      && (exists k: nat :: k < i && DomainChosenAt(states, events, k, c, d, host))
    case AdoptCommit(m) =>
      && (exists k: nat :: k < i && LinkSeenAt(states, events, k, c, m.shareLinkId))
      && (exists k: nat :: k < i && ShareableSeenAt(states, events, k, c))
      && (exists k: nat :: k < i && DomainChosenAt(states, events, k, c, m.domainId, m.host))
      && m.fingerprint.Some? && m.snapshot == m.fingerprint
      && (exists k: nat :: k < i && EvidenceTakenAt(states, events, k, c, m.fingerprint.value))
    case _ => true
  }

  /** Which check an adoption has just passed. */
  lemma AdoptionGoesOn(db: Db, id: CallId, call: Call, input: Input)
    requires InputFits(db, input) && PreferredDomain(db, call.pair.websiteId, input.domain)
    ensures var next := AdvanceCall(db, id, call, input).1;
            match next
            case AdoptVideo(l) =>
              && call.pc == AdoptLink(l) && l in db.links && db.links[l].status == ACTIVE
              && AdoptedContract(call.pair, db.links[l])
            case AdoptDomain(l) => call.pc == AdoptVideo(l) && VideoStands(db, call.pair)
            case AdoptEvidence(l, d, host) =>
              && call.pc == AdoptDomain(l) && d in db.domains && UsableDomain(db, d, call.pair.websiteId)
              && input.domain == Some(d) && host == db.domains[d].host
            case AdoptCommit(m) =>
              && call.pc == AdoptEvidence(m.shareLinkId, m.domainId, m.host) && call.pair.videoId in db.videos
              && var evidence := db.videos[call.pair.videoId].evidence;
                 && m.fingerprint == Some(evidence) == m.snapshot && (evidence.databaseBlob ==> evidence.checksumValid)
            case _ => true
  {
    match call.pc
    case Attempting(n) => AttemptDoesNotAdopt(db, id, call.pair, n, input);
    case Loading => LoadGoesOn(db, call.pair);
    case LoadingBefore(_) => LoadGoesOn(db, call.pair);
    case LoadingWinner(_) => LoadGoesOn(db, call.pair);
    case _ =>
  }

  predicate Adopts(pc: Pc) {
    pc.AdoptLink? || pc.AdoptVideo? || pc.AdoptDomain? || pc.AdoptEvidence? || pc.AdoptCommit?
  }

  lemma AttemptDoesNotAdopt(db: Db, id: CallId, pair: Pair, n: nat, input: Input)
    requires InputFits(db, input)
    ensures !Adopts(Attempt(db, id, pair, n, input).1)
  {
  }

  lemma PreferredIsChosen(states: seq<State>, events: seq<Event>, k: nat, c: CallId, d: Id)
    requires |states| == |events| + 1 && OwnStep(states, events, k, c) && states[k].calls[c].pc.AdoptDomain?
    requires PreferredDomain(states[k].db, states[k].calls[c].pair.websiteId, Some(d))
    ensures d in states[k].db.domains && DomainChosenAt(states, events, k, c, d, states[k].db.domains[d].host)
  {
    var db, websiteId := states[k].db, states[k].calls[c].pair.websiteId;
    forall e | e in db.domains && db.domains[e].websiteId == Some(websiteId) && db.domains[e].active
      ensures UsableDomain(db, e, websiteId)
    {
    }
  }

  lemma StepIsAdoptionTraced(states: seq<State>, events: seq<Event>, k: nat, c: CallId)
    requires IsRun(states, events) && OwnStep(states, events, k, c)
    requires AdoptionTraced(states, events, k, c, states[k].calls[c].pc)
    ensures c in states[k + 1].calls && AdoptionTraced(states, events, k + 1, c, states[k + 1].calls[c].pc)
  {
    OwnStepLeads(states, events, k, c);
    var db, call := states[k].db, states[k].calls[c];
    AdoptionGoesOn(db, c, call, events[k].input);
    match states[k + 1].calls[c].pc
    case AdoptVideo(l) => assert LinkSeenAt(states, events, k, c, l);
    case AdoptDomain(_) => assert ShareableSeenAt(states, events, k, c);
    case AdoptEvidence(_, d, host) => PreferredIsChosen(states, events, k, c, d);
    case AdoptCommit(m) => assert EvidenceTakenAt(states, events, k, c, m.fingerprint.value);
    case _ =>
  }

  lemma {:induction false} AdoptionsAreTraced(states: seq<State>, events: seq<Event>, i: nat, c: CallId)
    requires IsRun(states, events) && states[0].calls == map[] && i < |states| && c in states[i].calls
    ensures AdoptionTraced(states, events, i, c, states[i].calls[c].pc)
  {
    if i > 0 && c in states[i - 1].calls {
      AdoptionsAreTraced(states, events, i - 1, c);
      if OwnStep(states, events, i - 1, c) {
        StepIsAdoptionTraced(states, events, i - 1, c);
      } else {
        OthersKeepCall(states[i - 1], events[i - 1], c);
      }
    } else if i > 0 {
      CallsBegin(states[i - 1], events[i - 1], c);
    }
  }

  /**
   Whatever an operator's transaction is about to commit was checked by earlier steps of the call: the named
   link was ACTIVE and under contract, the video shareable, and domain, host and evidence are what was read.
   */
  lemma AdoptionsWereChecked(states: seq<State>, events: seq<Event>, i: nat, c: CallId)
    requires IsRun(states, events) && states[0].calls == map[] && i < |states|
    requires c in states[i].calls && states[i].calls[c].pc.AdoptCommit?
    ensures var m := states[i].calls[c].pc.mapping;
            && (exists k: nat :: k < i && LinkSeenAt(states, events, k, c, m.shareLinkId))
            && (exists k: nat :: k < i && ShareableSeenAt(states, events, k, c))
            && (exists k: nat :: k < i && DomainChosenAt(states, events, k, c, m.domainId, m.host))
            && m.fingerprint.Some? && m.snapshot == m.fingerprint
            && (exists k: nat :: k < i && EvidenceTakenAt(states, events, k, c, m.fingerprint.value))
  {
    AdoptionsAreTraced(states, events, i, c);
  }

  // ---------------------------------------------------------------- credentials

  ghost predicate CredentialsUnique(links: map<Id, Link>) {
    forall l, k :: l in links && k in links && l != k ==>
      && links[l].tokenHash != links[k].tokenHash
      && (links[l].alias.Some? ==> links[l].alias != links[k].alias)
      && (links[l].transportAlias.Some? ==> links[l].transportAlias != links[k].transportAlias)
  }

  /** The same credentials for the same links. */
  ghost predicate SameCredentials(links: map<Id, Link>, after: map<Id, Link>) {
    && after.Keys == links.Keys
    && forall l :: l in links ==>
         && after[l].tokenHash == links[l].tokenHash && after[l].alias == links[l].alias
         && after[l].transportAlias == links[l].transportAlias
  }

  lemma SameCredentialsStayUnique(links: map<Id, Link>, after: map<Id, Link>)
    requires CredentialsUnique(links) && SameCredentials(links, after)
    ensures CredentialsUnique(after)
  {
  }

  lemma FreshCredentialsStayUnique(links: map<Id, Link>, l: Id, link: Link)
    requires CredentialsUnique(links) && l !in links && CredentialsFree(links, link)
    ensures CredentialsUnique(links[l := link])
  {
  }

  lemma EnvironmentKeepsCredentials(db: Db, e: Event)
    requires e.CreateLink? ==> e.linkId !in db.links && CredentialsFree(db.links, e.link)
    requires CredentialsUnique(db.links)
    ensures CredentialsUnique(EnvironmentTx(db, e).links)
  {
    var after := EnvironmentTx(db, e);
    match e
    case CreateLink(l, link) => FreshCredentialsStayUnique(db.links, l, link);
    case PurgeVideo(v) =>
      PurgeKeepsRest(db, e);
      SameCredentialsStayUnique(db.links, after.links);
    case SetStatus(l, status) =>
      assert SameCredentials(db.links, after.links);
      SameCredentialsStayUnique(db.links, after.links);
    case _ => assert after.links == db.links;
  }

  lemma AttemptKeepsCredentials(db: Db, id: CallId, pair: Pair, n: nat, input: Input)
    requires InputFits(db, input) && input.mint.linkId !in db.links && CredentialsUnique(db.links)
    ensures CredentialsUnique(Attempt(db, id, pair, n, input).0.links)
  {
    var link := MintedLink(pair, input.mint, input.now);
    var after := Attempt(db, id, pair, n, input).0;
    assert after.links == db.links
             || (after.links == db.links[input.mint.linkId := link] && !CredentialTaken(db, input.mint));
    if !CredentialTaken(db, input.mint) {
      assert forall l :: l in db.links ==> db.links[l].transportAlias != Some(input.mint.transportAlias);
      FreshCredentialsStayUnique(db.links, input.mint.linkId, link);
    }
  }

  lemma BackfillKeepsCredentials(db: Db, l: Id, n: nat, input: Input)
    requires CredentialsUnique(db.links)
    ensures CredentialsUnique(TryBackfill(db, l, n, input).0.links)
  {
    BackfillDoes(db, l, input.transportAlias);
  }

  lemma CallKeepsCredentials(db: Db, id: CallId, call: Call, input: Input)
    requires InputFits(db, input) && input.mint.linkId !in db.links && CredentialsUnique(db.links)
    ensures CredentialsUnique(AdvanceCall(db, id, call, input).0.links)
  {
    match call.pc
    case Attempting(n) => AttemptKeepsCredentials(db, id, call.pair, n, input);
    case Backfilling(l, n) => BackfillKeepsCredentials(db, l, n, input);
    case _ =>
  }

  /** No two links ever share a token, an alias or a transport alias, however mints and backfills interleave. */
  lemma {:induction false} CredentialsStayUnique(states: seq<State>, events: seq<Event>, i: nat)
    requires IsRun(states, events) && CredentialsUnique(states[0].db.links) && i < |states|
    ensures CredentialsUnique(states[i].db.links)
  {
    if i > 0 {
      CredentialsStayUnique(states, events, i - 1);
      var s, e := states[i - 1], events[i - 1];
      if e.Advance? {
        CallKeepsCredentials(s.db, e.call, s.calls[e.call], e.input);
      } else {
        EnvironmentKeepsCredentials(s.db, e);
      }
    }
  }

  // ---------------------------------------------------------------- every call ends

  function RoundsLeft(attempt: nat): nat {
    if attempt <= CANONICAL_CREATE_MAX_ATTEMPTS then CANONICAL_CREATE_MAX_ATTEMPTS - attempt else 0
  }

  /** A bound on the own steps a call can still take. */
  function StepsLeft(pc: Pc): nat {
    match pc
    case Returned(_, _, _) => 0
    case Thrown(_) => 0
    case Rereading => 1
    case Backfilling(_, n) => 2 + RoundsLeft(n)
    case CheckingEvidence(_) => 7
    case CheckingVideo(_) => 8
    case CheckingDomain(_) => 9
    case LoadingWinner(n) => 10 + 3 * RoundsLeft(n)
    case Attempting(n) => 11 + 3 * RoundsLeft(n)
    case LoadingBefore(n) => 12 + 3 * RoundsLeft(n)
    case Loading => 24
    case Begun => 25
    case GettingEvidence(_) => 1
    case Getting => 2
    case AdoptCommit(_) => 1
    case AdoptEvidence(_, _, _) => 2
    case AdoptDomain(_) => 3
    case AdoptVideo(_) => 4
    case AdoptLink(_) => 5
    case AdoptBegun(_) => 6
  }

  predicate Finished(pc: Pc) { pc.Returned? || pc.Thrown? }

  lemma LoadThenBound(db: Db, pair: Pair, absent: Pc)
    ensures StepsLeft(LoadThen(db, pair, absent)) <= 9 || LoadThen(db, pair, absent) == absent
  {
  }

  lemma AfterCreateBound(db: Db, pair: Pair, n: nat, settled: Settled, capableHosts: set<string>)
    ensures StepsLeft(AfterCreate(db, pair, n, settled, capableHosts)) < StepsLeft(Attempting(n))
  {
  }

  lemma AttemptBound(db: Db, id: CallId, pair: Pair, n: nat, input: Input)
    requires InputFits(db, input)
    ensures StepsLeft(Attempt(db, id, pair, n, input).1) < StepsLeft(Attempting(n))
  {
    if !input.aborted {
      var (after, settled) := CreateTx(db, pair, input.domain, input.rows, input.mint, input.now, id);
      AfterCreateBound(after, pair, n, settled, input.capableHosts);
    }
  }

  lemma CommitAdoptionBound(db: Db, id: CallId, pair: Pair, mapping: Mapping, input: Input)
    ensures Finished(CommitAdoption(db, id, pair, mapping, input).1)
  {
  }

  lemma ReadStepBound(db: Db, id: CallId, call: Call, input: Input)
    requires InputFits(db, input) && !Writes(call.pc) && !Finished(call.pc)
    ensures StepsLeft(ReadStep(db, call, input)) < StepsLeft(call.pc)
  {
    match call.pc
    case Loading => LoadThenBound(db, call.pair, if input.pepper then Attempting(1) else Thrown(PepperMissing));
    case LoadingBefore(n) => LoadThenBound(db, call.pair, Attempting(n));
    case LoadingWinner(n) => LoadThenBound(db, call.pair, NextAttempt(n, RetriesExhausted));
    case _ =>
  }

  /** Each of its own steps brings a call closer to its end, whatever the other calls do in between. */
  lemma CallsTerminate(db: Db, id: CallId, call: Call, input: Input)
    requires InputFits(db, input) && !Finished(call.pc)
    ensures StepsLeft(AdvanceCall(db, id, call, input).1) < StepsLeft(call.pc)
  {
    match call.pc
    case Attempting(n) => AttemptBound(db, id, call.pair, n, input);
    case Backfilling(_, _) =>
    case AdoptCommit(mapping) => CommitAdoptionBound(db, id, call.pair, mapping, input);
    case _ => ReadStepBound(db, id, call, input);
  }

  const STEPS_OF_A_CALL := 25

  lemma MeasureIsBounded(db: Db, id: CallId, call: Call)
    requires CallHolds(db, id, call)
    ensures StepsLeft(call.pc) <= STEPS_OF_A_CALL
    ensures StepsLeft(call.pc) == 0 <==> Finished(call.pc)
  {
  }

  /** A step of a call that has not ended yet. */
  predicate Moves(s: State, e: Event, c: CallId) {
    e.Advance? && e.call == c && c in s.calls && !Finished(s.calls[c].pc)
  }

  /** How many of the first `n` events are steps of the call. */
  function OwnSteps(states: seq<State>, events: seq<Event>, c: CallId, n: nat): nat
    requires |states| == |events| + 1 && n <= |events|
  {
    if n == 0 then 0 else OwnSteps(states, events, c, n - 1) + if Moves(states[n - 1], events[n - 1], c) then 1 else 0
  }

  lemma StepMeasure(s: State, e: Event, c: CallId)
    requires Inv(s) && Allowed(s, e) && c in s.calls
    ensures c in Step(s, e).calls
    ensures Moves(s, e, c) ==> StepsLeft(Step(s, e).calls[c].pc) < StepsLeft(s.calls[c].pc)
    ensures !Moves(s, e, c) ==> StepsLeft(Step(s, e).calls[c].pc) == StepsLeft(s.calls[c].pc)
  {
    if e.Advance? && e.call == c {
      if Finished(s.calls[c].pc) {
        FinishedStays(s.db, c, s.calls[c], e.input);
      } else {
        CallsTerminate(s.db, c, s.calls[c], e.input);
      }
    }
  }

  lemma FinishedStays(db: Db, id: CallId, call: Call, input: Input)
    requires InputFits(db, input) && Finished(call.pc)
    ensures AdvanceCall(db, id, call, input) == (db, call.pc)
  {
  }

  /** In every run a call takes at most 25 steps, however the others move, and after 25 it has ended. */
  lemma {:induction false} StepsAreBounded(states: seq<State>, events: seq<Event>, c: CallId, n: nat)
    requires IsRun(states, events) && Inv(states[0]) && n <= |events|
    ensures OwnSteps(states, events, c, n) <= STEPS_OF_A_CALL
    ensures c in states[n].calls ==>
              && OwnSteps(states, events, c, n) + StepsLeft(states[n].calls[c].pc) <= STEPS_OF_A_CALL
              && (OwnSteps(states, events, c, n) == STEPS_OF_A_CALL ==> Finished(states[n].calls[c].pc))
    ensures c !in states[n].calls ==> OwnSteps(states, events, c, n) == 0
  {
    RunKeepsInv(states, events, n);
    if c in states[n].calls { MeasureIsBounded(states[n].db, c, states[n].calls[c]); }
    if n > 0 {
      StepsAreBounded(states, events, c, n - 1);
      RunKeepsInv(states, events, n - 1);
      if c in states[n - 1].calls { StepMeasure(states[n - 1], events[n - 1], c); }
    }
  }

  // ---------------------------------------------------------------- no call gives up early

  predicate Attempts(s: State, e: Event, c: CallId) {
    e.Advance? && e.call == c && c in s.calls && s.calls[c].pc.Attempting?
  }

  /** How many of the first `n` events are create transactions of the call. */
  function AttemptsMade(states: seq<State>, events: seq<Event>, c: CallId, n: nat): nat
    requires |states| == |events| + 1 && n <= |events|
  {
    if n == 0 then 0
    else AttemptsMade(states, events, c, n - 1) + if Attempts(states[n - 1], events[n - 1], c) then 1 else 0
  }

  /** What the stage of a call says about the attempts it has made. */
  predicate AttemptsFit(db: Db, call: Call, made: nat) {
    match call.pc
    case LoadingBefore(n) => made + 1 == n
    case Attempting(n) => made + 1 == n
    case LoadingWinner(n) => made == n
    case Thrown(RetriesExhausted) => made == CANONICAL_CREATE_MAX_ATTEMPTS
    case Thrown(TransactionFailed) =>
      made in {0, CANONICAL_CREATE_MAX_ATTEMPTS} || (made <= CANONICAL_CREATE_MAX_ATTEMPTS && call.pair in db.mappings)
    case CheckingDomain(_) => made <= CANONICAL_CREATE_MAX_ATTEMPTS
    case CheckingVideo(_) => made <= CANONICAL_CREATE_MAX_ATTEMPTS
    case CheckingEvidence(_) => made <= CANONICAL_CREATE_MAX_ATTEMPTS
    case Backfilling(_, _) => made <= CANONICAL_CREATE_MAX_ATTEMPTS
    case Rereading => made <= CANONICAL_CREATE_MAX_ATTEMPTS
    case Returned(_, _, _) => made <= CANONICAL_CREATE_MAX_ATTEMPTS
    case Thrown(_) => made <= CANONICAL_CREATE_MAX_ATTEMPTS
    case _ => made == 0
  }

  lemma AttemptIsCounted(db: Db, id: CallId, pair: Pair, n: nat, input: Input)
    requires InputFits(db, input) && 1 <= n <= CANONICAL_CREATE_MAX_ATTEMPTS
    ensures var (after, pc) := Attempt(db, id, pair, n, input); AttemptsFit(after, Call(pair, pc), n)
  {
    if !input.aborted {
      var (after, settled) := CreateTx(db, pair, input.domain, input.rows, input.mint, input.now, id);
      CreateThrows(db, id, pair, input);
      AfterCreateIsCounted(after, pair, n, settled, input.capableHosts);
    }
  }

  lemma CreateThrows(db: Db, id: CallId, pair: Pair, input: Input)
    requires InputFits(db, input)
    ensures var (after, r) := CreateTx(db, pair, input.domain, input.rows, input.mint, input.now, id);
            && (r.Refused? ==> r.error !in {TransactionFailed, RetriesExhausted})
            && (r.Pinned? ==> pair in after.mappings)
  {
  }

  lemma AfterCreateIsCounted(db: Db, pair: Pair, n: nat, settled: Settled, capableHosts: set<string>)
    requires 1 <= n <= CANONICAL_CREATE_MAX_ATTEMPTS
    requires settled.Refused? ==> settled.error !in {TransactionFailed, RetriesExhausted}
    requires settled.Pinned? ==> pair in db.mappings
    ensures AttemptsFit(db, Call(pair, AfterCreate(db, pair, n, settled, capableHosts)), n)
  {
  }

  lemma ReadIsCounted(db: Db, id: CallId, call: Call, input: Input, made: nat)
    requires InputFits(db, input) && !Writes(call.pc) && CallHolds(db, id, call) && AttemptsFit(db, call, made)
    ensures AttemptsFit(db, Call(call.pair, ReadStep(db, call, input)), made)
  {
  }

  lemma BackfillIsCounted(db: Db, id: CallId, pair: Pair, l: Id, n: nat, input: Input, made: nat)
    requires pair in db.mappings && made <= CANONICAL_CREATE_MAX_ATTEMPTS
    ensures var (after, pc) := TryBackfill(db, l, n, input); AttemptsFit(after, Call(pair, pc), made)
  {
    BackfillDoes(db, l, input.transportAlias);
  }

  lemma AdoptionIsCounted(db: Db, id: CallId, pair: Pair, mapping: Mapping, input: Input)
    ensures var (after, pc) := CommitAdoption(db, id, pair, mapping, input); AttemptsFit(after, Call(pair, pc), 0)
  {
  }

  lemma StepIsCounted(db: Db, id: CallId, call: Call, input: Input, made: nat)
    requires InputFits(db, input) && CallHolds(db, id, call) && AttemptsFit(db, call, made)
    ensures var (after, pc) := AdvanceCall(db, id, call, input);
            AttemptsFit(after, Call(call.pair, pc), made + if call.pc.Attempting? then 1 else 0)
  {
    match call.pc
    case Attempting(n) => AttemptIsCounted(db, id, call.pair, n, input);
    case Backfilling(l, n) => BackfillIsCounted(db, id, call.pair, l, n, input, made);
    case AdoptCommit(mapping) => AdoptionIsCounted(db, id, call.pair, mapping, input);
    case _ => ReadIsCounted(db, id, call, input, made);
  }

  /** One event of a run, of the call itself or of anything else. */
  lemma EventIsCounted(s: State, e: Event, c: CallId, made: nat)
    requires Inv(s) && Allowed(s, e) && c in s.calls && AttemptsFit(s.db, s.calls[c], made)
    ensures c in Step(s, e).calls
    ensures AttemptsFit(Step(s, e).db, Step(s, e).calls[c], made + if Attempts(s, e, c) then 1 else 0)
  {
    if e.Advance? && e.call == c {
      assert CallHolds(s.db, c, s.calls[c]);
      StepIsCounted(s.db, c, s.calls[c], e.input, made);
    } else {
      OthersKeepCall(s, e, c);
      StepKeepsInv(s, e);
      MoreMappingsFit(s.db, Step(s, e).db, s.calls[c], made);
    }
  }

  lemma MoreMappingsFit(db: Db, after: Db, call: Call, made: nat)
    requires AttemptsFit(db, call, made) && Extends(db, after)
    ensures AttemptsFit(after, call, made)
  {
  }

  lemma {:induction false} AttemptsAreCounted(states: seq<State>, events: seq<Event>, c: CallId, n: nat)
    requires IsRun(states, events) && Inv(states[0]) && states[0].calls == map[] && n <= |events|
    ensures c !in states[n].calls ==> AttemptsMade(states, events, c, n) == 0
    ensures c in states[n].calls ==> AttemptsFit(states[n].db, states[n].calls[c], AttemptsMade(states, events, c, n))
  {
    if n > 0 {
      AttemptsAreCounted(states, events, c, n - 1);
      RunKeepsInv(states, events, n - 1);
      if c in states[n - 1].calls {
        EventIsCounted(states[n - 1], events[n - 1], c, AttemptsMade(states, events, c, n - 1));
      } else {
        CallsBegin(states[n - 1], events[n - 1], c);
      }
    }
  }

  lemma FitIsBounded(db: Db, id: CallId, call: Call, made: nat)
    requires CallHolds(db, id, call) && AttemptsFit(db, call, made)
    ensures made <= CANONICAL_CREATE_MAX_ATTEMPTS
  {
  }

  /**
   No call makes more than five create attempts, and a request that gives up, for conflicts or for aborted
   transactions, without anyone having mapped its pair has made all five.
   */
  lemma GivingUpTakesFiveAttempts(states: seq<State>, events: seq<Event>, c: CallId, n: nat)
    requires IsRun(states, events) && Inv(states[0]) && states[0].calls == map[] && n <= |events|
               && c in states[n].calls
    ensures var call, made := states[n].calls[c], AttemptsMade(states, events, c, n);
            && made <= 5
            && (call.pc == Thrown(RetriesExhausted) ==> made == 5)
            && (call.pc == Thrown(TransactionFailed) && call.pair !in states[n].db.mappings ==> made in {0, 5})
  {
    AttemptsAreCounted(states, events, c, n);
    RunKeepsInv(states, events, n);
    FitIsBounded(states[n].db, c, states[n].calls[c], AttemptsMade(states, events, c, n));
  }
}
