/**
 The rows a canonical share link is made of, and the decisions and transactions on them.

 A transaction is a function from the rows to the rows: it commits as a whole or leaves them alone.
 The rows a query returned and the domain it preferred are parameters, constrained by
 `EnumeratesRows` and `PreferredDomain`.
 */
module CanonicalModel {
  import opened Wrappers
  import opened JsText
  import opened ShareLinks
  import opened CanonicalPolicy

  /** The evidence-critical fields of a video. Two fingerprints are equal when these are. */
  datatype Evidence = Evidence(identity: nat, databaseBlob: bool, checksumValid: bool)

  datatype Video = Video(ready: bool, playable: bool, evidence: Evidence)
  datatype Domain = Domain(websiteId: Option<Id>, active: bool, isPrimary: bool, createdAt: Time, host: string)

  /** `members` are the link's videos in sortOrder. */
  datatype Link = Link(
    websiteId: Id,
    tokenHash: nat,
    alias: Option<string>,
    transportAlias: Option<string>,
    status: LinkStatus,
    expiresAt: Option<Time>,
    maxViews: Option<nat>,
    createdAt: Time,
    members: seq<Id>)

  /** A stored snapshot is absent when the column is null or holds no object. */
  datatype Mapping = Mapping(shareLinkId: Id, domainId: Id, host: string, fingerprint: Option<Evidence>,
                             snapshot: Option<Evidence>)

  /** History: who committed a mapping. No transaction reads it. */
  datatype Origin = Legacy | Request(caller: nat) | Operator(caller: nat)

  /**
   `anchors` is the unique index on a mapping's shareLinkId. `origins` and `retired` (the identifiers of
   purged videos) are history that only the proofs look at.
   */
  datatype Db = Db(
    activeWebsites: set<Id>,
    domains: map<Id, Domain>,
    videos: map<Id, Video>,
    assignments: set<Pair>,
    links: map<Id, Link>,
    mappings: map<Pair, Mapping>,
    anchors: map<Id, Pair>,
    origins: map<Pair, Origin>,
    retired: set<Id>)

  datatype Fault = ALIAS_MISSING | WEBSITE_MISMATCH | MEMBERSHIP_MISMATCH | HAS_EXPIRY | HAS_MAX_VIEWS

  datatype Error =
    | WebsiteNotActive | PepperMissing | VideoNotEligible | NoActiveDomain | VideoNotFound | EvidenceIncomplete
    | PinBlocked(blocker: PinBlocker) | LinkRevoked | LinkInactive | ContractBroken(fault: Fault)
    | DomainUnavailable | VideoNotShareable | EvidenceDrift | MappingNotFound | UrlAliasMissing
    | NotThisWebsite | NotExactlyThisVideo | NoAlias | OptionsPresent | ConstraintViolated
    | TransactionFailed | RetriesExhausted

  const CANONICAL_CREATE_MAX_ATTEMPTS := 5

  // ---------------------------------------------------------------- reading

  predicate Eligible(db: Db, pair: Pair) {
    && pair.videoId in db.videos && db.videos[pair.videoId].ready && db.videos[pair.videoId].playable
    && pair in db.assignments
  }

  datatype EvidenceRead = Complete(evidence: Evidence) | Unreadable(error: Error)

  function ReadEvidence(db: Db, videoId: Id): EvidenceRead {
    if videoId !in db.videos then Unreadable(VideoNotFound)
    else
      var evidence := db.videos[videoId].evidence;
      if evidence.databaseBlob && !evidence.checksumValid then Unreadable(EvidenceIncomplete) else Complete(evidence)
  }

  predicate UsableDomain(db: Db, d: Id, websiteId: Id) {
    d in db.domains && db.domains[d].active && db.domains[d].websiteId == Some(websiteId)
        && websiteId in db.activeWebsites
  }

  predicate Before(a: Domain, b: Domain) {
    (a.isPrimary && !b.isPrimary) || (a.isPrimary == b.isPrimary && a.createdAt <= b.createdAt)
  }

  /** The first usable domain, primary first and then oldest; ties are the database's to break. */
  ghost predicate PreferredDomain(db: Db, websiteId: Id, choice: Option<Id>) {
    match choice
    case None => forall d :: !UsableDomain(db, d, websiteId)
    case Some(d) =>
      UsableDomain(db, d, websiteId) && forall e :: UsableDomain(db, e, websiteId) ==>
          Before(db.domains[d], db.domains[e])
  }

  /** The website's links that show this video, among others or alone: each once, in any order. */
  ghost predicate EnumeratesRows(db: Db, pair: Pair, rows: seq<Id>) {
    && (forall l :: l in rows <==>
          l in db.links && db.links[l].websiteId == pair.websiteId && pair.videoId in db.links[l].members)
    && (forall i, j :: 0 <= i < j < |rows| ==> rows[i] != rows[j])
  }

  function AsCandidate(db: Db, l: Id): Candidate
    requires l in db.links
  {
    var link := db.links[l];
    Candidate(l, link.alias, link.status, link.expiresAt, link.maxViews, link.createdAt,
              if l in db.anchors then Some(db.anchors[l]) else None)
  }

  /** Only links with exactly this one video: a bundle that contains it is no candidate. */
  function ExactCandidates(db: Db, pair: Pair, rows: seq<Id>): seq<Candidate>
    requires forall l :: l in rows ==> l in db.links
  {
    if rows == [] then []
    else
      var rest := ExactCandidates(db, pair, rows[1..]);
      if db.links[rows[0]].members == [pair.videoId] then [AsCandidate(db, rows[0])] + rest else rest
  }

  // ---------------------------------------------------------------- reuse

  /** assertAnchoredLinkHonoursContract */
  function ContractFault(pair: Pair, link: Link): Option<Fault> {
    if NoUsableAlias(link.alias) then Some(Fault.ALIAS_MISSING)
    else if link.websiteId != pair.websiteId then Some(WEBSITE_MISMATCH)
    else if link.members != [pair.videoId] then Some(MEMBERSHIP_MISMATCH)
    else if link.expiresAt.Some? then Some(Fault.HAS_EXPIRY)
    else if link.maxViews.Some? then Some(Fault.HAS_MAX_VIEWS)
    else None
  }

  /** The part of assertReusable that looks at the loaded mapping only: status first, then the contract. */
  function AnchorError(pair: Pair, link: Link): Option<Error> {
    if link.status == REVOKED then Some(LinkRevoked)
    else if link.status != ACTIVE then Some(LinkInactive)
    else
      match ContractFault(pair, link)
      case Some(fault) => Some(ContractBroken(fault))
      case None => None
  }

  predicate DomainAsRecorded(db: Db, pair: Pair, mapping: Mapping) {
    && mapping.domainId in db.domains
    && db.domains[mapping.domainId].active
    && db.domains[mapping.domainId].websiteId == Some(pair.websiteId)
    && db.domains[mapping.domainId].host == mapping.host
  }

  function EvidenceError(db: Db, pair: Pair, mapping: Mapping): Option<Error> {
    match ReadEvidence(db, pair.videoId)
    case Unreadable(error) => Some(error)
    case Complete(current) =>
      var stored := mapping.snapshot;
      var storedComplete := stored.Some? && stored.value.databaseBlob && stored.value.checksumValid;
      if ((stored.Some? && stored.value.databaseBlob) || current.databaseBlob) && !storedComplete
          then Some(EvidenceIncomplete)
      else if mapping.fingerprint.Some? && mapping.fingerprint.value != current then Some(EvidenceDrift)
      else None
  }

  /** assertReusable with nothing in between its reads. */
  function ReuseError(db: Db, pair: Pair, mapping: Mapping, link: Link): Option<Error> {
    if AnchorError(pair, link).Some? then AnchorError(pair, link)
    else if !DomainAsRecorded(db, pair, mapping) then Some(DomainUnavailable)
    else if !Eligible(db, pair) then Some(VideoNotShareable)
    else EvidenceError(db, pair, mapping)
  }

  // What makes an existing mapping fit to be handed out, on the rows.

  /** The link honours the contract: an alias that is not blank, this website, just this video, no options. */
  predicate HonoursContract(pair: Pair, link: Link) {
    && link.alias.Some? && !AllWhitespace(link.alias.value)
    && link.websiteId == pair.websiteId && link.members == [pair.videoId]
    && link.expiresAt == None && link.maxViews == None
  }

  /** The mapping's domain is still there, ACTIVE, owned by the website and under the recorded host. */
  predicate DomainStands(db: Db, pair: Pair, mapping: Mapping) {
    && mapping.domainId in db.domains
    && db.domains[mapping.domainId] ==
         db.domains[mapping.domainId].(websiteId := Some(pair.websiteId), active := true, host := mapping.host)
  }

  predicate VideoStands(db: Db, pair: Pair) {
    && pair.videoId in db.videos && pair in db.assignments
    && db.videos[pair.videoId] == db.videos[pair.videoId].(ready := true, playable := true)
  }

  /** No database blob without its checksum, now or in the snapshot, and none of them without a snapshot. */
  predicate EvidenceIsComplete(db: Db, pair: Pair, mapping: Mapping) {
    && pair.videoId in db.videos
    && var evidence := db.videos[pair.videoId].evidence;
       && (evidence.databaseBlob ==> evidence.checksumValid && mapping.snapshot.Some?)
       && (mapping.snapshot.Some? && (evidence.databaseBlob || mapping.snapshot.value.databaseBlob) ==>
             mapping.snapshot.value.databaseBlob && mapping.snapshot.value.checksumValid)
  }

  /** The video is still the one the mapping recorded, if it recorded one. */
  predicate EvidenceStands(db: Db, pair: Pair, mapping: Mapping) {
    pair.videoId in db.videos && mapping.fingerprint in {None, Some(db.videos[pair.videoId].evidence)}
  }

  lemma ContractFaultIff(pair: Pair, link: Link)
    ensures ContractFault(pair, link) == None <==> HonoursContract(pair, link)
  {
    if link.alias.Some? { BlankIff(link.alias.value); }
  }

  /** A mapping may be handed out exactly if all of that holds; else the first of it that fails names the error. */
  lemma ReusableIff(db: Db, pair: Pair, mapping: Mapping, link: Link)
    ensures var error := ReuseError(db, pair, mapping, link);
            && (error == Some(LinkRevoked) <==> link.status == REVOKED)
            && (error == Some(LinkInactive) <==> link.status !in {ACTIVE, REVOKED})
            && (error.Some? && error.value.ContractBroken? <==> link.status == ACTIVE && !HonoursContract(pair, link))
            && (link.status == ACTIVE && HonoursContract(pair, link) ==>
                  && (error == Some(DomainUnavailable) <==> !DomainStands(db, pair, mapping))
                  && (DomainStands(db, pair, mapping) ==>
                        && (error == Some(VideoNotShareable) <==> !VideoStands(db, pair))
                        && (VideoStands(db, pair) ==>
                              && (error == Some(EvidenceIncomplete) <==> !EvidenceIsComplete(db, pair, mapping))
                              && (EvidenceIsComplete(db, pair, mapping) ==>
                                    && (error == Some(EvidenceDrift) <==> !EvidenceStands(db, pair, mapping))
                                    && (EvidenceStands(db, pair, mapping) ==> error == None)))))
    ensures ReuseError(db, pair, mapping, link) == None <==>
              && link.status == ACTIVE && HonoursContract(pair, link) && DomainStands(db, pair, mapping)
              && VideoStands(db, pair) && EvidenceIsComplete(db, pair, mapping) && EvidenceStands(db, pair, mapping)
  {
    ContractFaultIff(pair, link);
  }

  predicate Base64Url(c: char) {
    'A' <= c <= 'Z' || 'a' <= c <= 'z' || '0' <= c <= '9' || c == '_' || c == '-'
  }

  predicate WellFormedTransportAlias(s: string) {
    |s| == 22 && forall i :: 0 <= i < |s| ==> Base64Url(s[i])
  }

  /** The one emission site: the persisted transport alias, or nothing. */
  function CompatibilityAlias(pair: Pair, mapping: Mapping, link: Link, capableHosts: set<string>): Option<string> {
    if && mapping.host in capableHosts
       && link.transportAlias.Some? && WellFormedTransportAlias(link.transportAlias.value)
       && link.status == ACTIVE
       && link.expiresAt.None? && link.maxViews.None?
       && link.websiteId == pair.websiteId
       && link.members == [pair.videoId]
    then link.transportAlias else None
  }

  // ---------------------------------------------------------------- transactions

  /** Credentials and identifier generated for one attempt. */
  datatype Mint = Mint(linkId: Id, tokenHash: nat, alias: string, transportAlias: string)

  datatype Settled = Pinned(linkId: Id, adopted: bool) | Refused(error: Error) | PairConflict | CredentialCollision

  function MintedLink(pair: Pair, mint: Mint, now: Time): Link {
    Link(pair.websiteId, mint.tokenHash, Some(mint.alias), Some(mint.transportAlias), ACTIVE, None, None, now,
        [pair.videoId])
  }

  predicate TransportAliasTaken(db: Db, transportAlias: string) {
    exists l :: l in db.links && db.links[l].transportAlias == Some(transportAlias)
  }

  predicate CredentialTaken(db: Db, mint: Mint) {
    || TransportAliasTaken(db, mint.transportAlias)
    || exists l :: l in db.links && (db.links[l].alias == Some(mint.alias) || db.links[l].tokenHash == mint.tokenHash)
  }

  function InsertMapping(db: Db, pair: Pair, mapping: Mapping, origin: Origin): Db {
    db.(mappings := db.mappings[pair := mapping], anchors := db.anchors[mapping.shareLinkId := pair],
        origins := db.origins[pair := origin])
  }

  predicate MappingConflicts(db: Db, pair: Pair, linkId: Id) {
    pair in db.mappings || linkId in db.anchors
  }

  /** The serializable transaction of createOrGetCanonical. Everything but `Pinned` writes nothing. */
  function CreateTx(db: Db, pair: Pair, domain: Option<Id>, rows: seq<Id>, mint: Mint, now: Time, caller: nat)
    : (Db, Settled)
    requires forall l :: l in rows ==> l in db.links
    requires domain.Some? ==> domain.value in db.domains
  {
    if pair.websiteId !in db.activeWebsites then (db, Refused(WebsiteNotActive))
    else if !Eligible(db, pair) then (db, Refused(VideoNotEligible))
    else if domain.None? then (db, Refused(NoActiveDomain))
    else
      match ReadEvidence(db, pair.videoId)
      case Unreadable(error) => (db, Refused(error))
      case Complete(evidence) =>
        var selection := SelectWinner(ExactCandidates(db, pair, rows), pair);
        var host := db.domains[domain.value].host;
        if selection.pinBlocker.Some? then (db, Refused(PinBlocked(selection.pinBlocker.value)))
        else if selection.winner.Some? then
          var linkId := selection.winner.value.id;
          if MappingConflicts(db, pair, linkId) then (db, PairConflict)
          else
            (InsertMapping(db, pair, Mapping(linkId, domain.value, host, Some(evidence), Some(evidence)),
                Request(caller)),
             Pinned(linkId, true))
        else if CredentialTaken(db, mint) then (db, CredentialCollision)
        else if MappingConflicts(db, pair, mint.linkId) then (db, PairConflict)
        else
          var minted := db.(links := db.links[mint.linkId := MintedLink(pair, mint, now)]);
          (InsertMapping(minted, pair, Mapping(mint.linkId, domain.value, host, Some(evidence), Some(evidence)),
              Request(caller)),
           Pinned(mint.linkId, false))
  }

  /** The one-time backfill: a conditional update on `transportAlias: null` and `status: ACTIVE`. */
  datatype Backfill = Collided | Matched(count: nat)

  function BackfillTx(db: Db, linkId: Id, transportAlias: string): (Db, Backfill) {
    if linkId !in db.links || db.links[linkId].transportAlias.Some? || db.links[linkId].status != ACTIVE
        then (db, Matched(0))
    else if TransportAliasTaken(db, transportAlias) then (db, Collided)
    else (db.(links := db.links[linkId := db.links[linkId].(transportAlias := Some(transportAlias))]), Matched(1))
  }

  /** What adoptExistingShareLink checks on the link, before its transaction. */
  function AdoptionError(db: Db, pair: Pair, linkId: Id): Option<Error> {
    if linkId !in db.links || db.links[linkId].websiteId != pair.websiteId then Some(NotThisWebsite)
    else
      var link := db.links[linkId];
      if link.status != ACTIVE then Some(LinkInactive)
      else if link.members != [pair.videoId] then Some(NotExactlyThisVideo)
      else if link.alias.None? || link.alias.value == "" then Some(NoAlias)
      else if link.expiresAt.Some? || link.maxViews.Some? then Some(OptionsPresent)
      else None
  }

  /** The operator's transaction rechecks nothing: only the database's own constraints can stop it. */
  function AdoptTx(db: Db, pair: Pair, mapping: Mapping, caller: nat): (Db, Settled) {
    if MappingConflicts(db, pair, mapping.shareLinkId)
       || pair.videoId !in db.videos || mapping.domainId !in db.domains || mapping.shareLinkId !in db.links
    then (db, Refused(ConstraintViolated))
    else (InsertMapping(db, pair, mapping, Operator(caller)), Pinned(mapping.shareLinkId, true))
  }

  // ---------------------------------------------------------------- which link is pinned

  /** An exact single-video link of the pair, whatever its status. */
  predicate ExactLink(db: Db, pair: Pair, l: Id) {
    l in db.links && db.links[l].websiteId == pair.websiteId && db.links[l].members == [pair.videoId]
  }

  /** Newer, or of the same millisecond with a greater id. */
  predicate NoOlder(db: Db, l: Id, k: Id)
    requires l in db.links && k in db.links
  {
    db.links[k].createdAt < db.links[l].createdAt || (db.links[k].createdAt == db.links[l].createdAt && k <= l)
  }

  lemma {:induction false} CandidatesAreExact(db: Db, pair: Pair, rows: seq<Id>, c: Candidate)
    requires forall l :: l in rows ==> l in db.links
    ensures c in ExactCandidates(db, pair, rows) <==>
              c.id in rows && db.links[c.id].members == [pair.videoId] && c == AsCandidate(db, c.id)
  {
    if rows != [] {
      CandidatesAreExact(db, pair, rows[1..], c);
      assert rows == [rows[0]] + rows[1..];
    }
  }

  /** The winner among the rows the query returned is the newest exact link in the whole table. */
  lemma WinnerInTheTable(db: Db, pair: Pair, rows: seq<Id>)
    requires EnumeratesRows(db, pair, rows)
    ensures var s := SelectWinner(ExactCandidates(db, pair, rows), pair);
            && (s.winner.None? ==> forall l :: !ExactLink(db, pair, l))
            && (s.winner.Some? ==>
                  && ExactLink(db, pair, s.winner.value.id)
                  && s.winner.value == AsCandidate(db, s.winner.value.id)
                  && forall l :: ExactLink(db, pair, l) ==> NoOlder(db, s.winner.value.id, l))
  {
    var candidates := ExactCandidates(db, pair, rows);
    var s := SelectWinner(candidates, pair);
    WinnerIsNewest(candidates, pair);
    forall l | ExactLink(db, pair, l)
      ensures AsCandidate(db, l) in candidates
    {
      assert pair.videoId in db.links[l].members;
      CandidatesAreExact(db, pair, rows, AsCandidate(db, l));
    }
    if s.winner.Some? { CandidatesAreExact(db, pair, rows, s.winner.value); }
  }

  /**
   A committed create pins the newest exact single-video link of the pair, whatever its status, and
   mints only for a pair that has none; the link it pins honours the canonical contract. Anything
   else writes nothing.
   */
  lemma CreatePinsTheNewestLink(db: Db, pair: Pair, domain: Option<Id>, rows: seq<Id>, mint: Mint, now: Time,
                                caller: nat)
    requires EnumeratesRows(db, pair, rows) && PreferredDomain(db, pair.websiteId, domain)
    requires mint.linkId !in db.links && !NoUsableAlias(Some(mint.alias))
    ensures var (after, r) := CreateTx(db, pair, domain, rows, mint, now, caller);
            && (!r.Pinned? ==> after == db)
            && (r.Pinned? ==>
                  && pair !in db.mappings && pair in after.mappings && after.mappings[pair].shareLinkId == r.linkId
                  && ExactLink(after, pair, r.linkId)
                  && ContractFault(pair, after.links[r.linkId]) == None
                  && (r.adopted <==> exists l :: ExactLink(db, pair, l))
                  && (r.adopted ==>
                        && after.links == db.links && ExactLink(db, pair, r.linkId)
                        && forall l :: ExactLink(db, pair, l) ==> NoOlder(db, r.linkId, l))
                  && (!r.adopted ==>
                        && r.linkId !in db.links
                        && after.links == db.links[r.linkId := MintedLink(pair, mint, now)]))
  {
    WinnerInTheTable(db, pair, rows);
  }

  /**
   A create commits exactly when website, video, domain and evidence are in order, the pair has no mapping
   yet, and its newest exact link, whatever its status, can be pinned and anchors nothing, or there is no
   such link and the fresh credentials are free.
   */
  lemma CreatePinsIff(db: Db, pair: Pair, domain: Option<Id>, rows: seq<Id>, mint: Mint, now: Time, caller: nat)
    requires EnumeratesRows(db, pair, rows) && PreferredDomain(db, pair.websiteId, domain)
    requires mint.linkId !in db.links && mint.linkId !in db.anchors
    ensures CreateTx(db, pair, domain, rows, mint, now, caller).1.Pinned? <==>
              && pair.websiteId in db.activeWebsites && Eligible(db, pair) && domain.Some?
              && ReadEvidence(db, pair.videoId).Complete?
              && pair !in db.mappings
              && ((forall l :: !ExactLink(db, pair, l)) ==> !CredentialTaken(db, mint))
              && (forall l :: ExactLink(db, pair, l) && (forall k :: ExactLink(db, pair, k) ==> NoOlder(db, l, k)) ==>
                    && !NoUsableAlias(db.links[l].alias) && db.links[l].expiresAt.None? && db.links[l].maxViews.None?
                    && l !in db.anchors)
  {
    WinnerInTheTable(db, pair, rows);
  }

  /**
   What a committed create records: the website's ACTIVE domain, a primary one before any other and an older
   one before a younger, with its host of that moment, and the video's evidence, read once for both columns. A
   minted link is the row below, and none of its three credentials was held by another link.
   */
  lemma CreateRecords(db: Db, pair: Pair, domain: Option<Id>, rows: seq<Id>, mint: Mint, now: Time, caller: nat)
    requires EnumeratesRows(db, pair, rows) && PreferredDomain(db, pair.websiteId, domain)
    requires mint.linkId !in db.links
    requires CreateTx(db, pair, domain, rows, mint, now, caller).1.Pinned?
    ensures var (after, r) := CreateTx(db, pair, domain, rows, mint, now, caller);
            && pair.videoId in db.videos && pair in after.mappings && after.mappings[pair].domainId in db.domains
            && after.mappings == db.mappings[pair := after.mappings[pair]]
            && var mapping, evidence := after.mappings[pair], db.videos[pair.videoId].evidence;
               var chosen := db.domains[mapping.domainId];
               && mapping == Mapping(r.linkId, mapping.domainId, chosen.host, Some(evidence), Some(evidence))
               && (evidence.databaseBlob ==> evidence.checksumValid)
               && chosen.websiteId == Some(pair.websiteId) && chosen.active
               && forall d :: d in db.domains && db.domains[d].websiteId == chosen.websiteId && db.domains[d].active ==>
                    && (db.domains[d].isPrimary ==> chosen.isPrimary)
                    && (db.domains[d].isPrimary == chosen.isPrimary ==> chosen.createdAt <= db.domains[d].createdAt)
    ensures var (after, r) := CreateTx(db, pair, domain, rows, mint, now, caller);
            !r.adopted ==>
              && r.linkId in after.links
              && after.links[r.linkId] ==
                   Link(pair.websiteId, mint.tokenHash, Some(mint.alias), Some(mint.transportAlias), ACTIVE, None, None,
                        now, [pair.videoId])
              && forall l :: l in db.links ==>
                   && db.links[l].tokenHash != mint.tokenHash && db.links[l].alias != Some(mint.alias)
                   && db.links[l].transportAlias != Some(mint.transportAlias)
  {
    WinnerInTheTable(db, pair, rows);
    forall d | d in db.domains && db.domains[d].websiteId == Some(pair.websiteId) && db.domains[d].active
      ensures UsableDomain(db, d, pair.websiteId)
    {
    }
  }

  /** Without any ACTIVE domain of the website there is no link to hand out. */
  lemma NoDomainIff(db: Db, websiteId: Id, choice: Option<Id>)
    requires PreferredDomain(db, websiteId, choice) && websiteId in db.activeWebsites
    ensures choice == None <==>
              forall d :: d in db.domains ==> !db.domains[d].active || db.domains[d].websiteId != Some(websiteId)
  {
    if choice == None {
      forall d | d in db.domains && db.domains[d].active
        ensures db.domains[d].websiteId != Some(websiteId)
      {
        assert !UsableDomain(db, d, websiteId);
      }
    }
  }

  /**
   The backfill fills in an ACTIVE link's missing transport alias with a value no other link has, and touches
   nothing else. A value another link has is a collision; any other link is left as it is.
   */
  lemma BackfillDoes(db: Db, linkId: Id, transportAlias: string)
    ensures var (after, result) := BackfillTx(db, linkId, transportAlias);
            var open := linkId in db.links && db.links[linkId].status == ACTIVE
                && db.links[linkId].transportAlias == None;
            && (result == Matched(0) <==> !open)
            && (result == Collided <==>
                  open && exists l :: l in db.links && db.links[l].transportAlias == Some(transportAlias))
            && result in {Collided, Matched(0), Matched(1)}
            && (result != Matched(1) ==> after == db)
            && (result == Matched(1) ==>
                  && after == db.(links := after.links) && after.links.Keys == db.links.Keys
                  && after.links[linkId].transportAlias == Some(transportAlias)
                  && after.links[linkId].(transportAlias := None) == db.links[linkId]
                  && forall l :: l in db.links && l != linkId ==> after.links[l] == db.links[l])
  {
  }

  /**
   A transport alias is handed to a client exactly for a capable host, a link under contract, and 22 characters
   of the URL-safe Base64 alphabet (section 5 of RFC 4648; below in ASCII codes).
   */
  lemma CompatibilityIff(pair: Pair, mapping: Mapping, link: Link, capableHosts: set<string>, alias: string)
    ensures CompatibilityAlias(pair, mapping, link, capableHosts) == Some(alias) <==>
              && mapping.host in capableHosts
              && link == Link(pair.websiteId, link.tokenHash, link.alias, Some(alias), ACTIVE, None, None,
                              link.createdAt, [pair.videoId])
              && |alias| == 22
              && forall i :: 0 <= i < |alias| ==>
                   var u := alias[i] as int;
                   u == 45 || 48 <= u <= 57 || 65 <= u <= 90 || u == 95 || 97 <= u <= 122
  {
  }

  /** The same rows, with other link statuses. */
  ghost predicate SameButStatuses(db: Db, other: Db) {
    && other == db.(links := other.links)
    && other.links.Keys == db.links.Keys
    && forall l :: l in db.links ==> other.links[l] == db.links[l].(status := other.links[l].status)
  }

  lemma {:induction false} CandidatesDifferInStatus(db: Db, other: Db, pair: Pair, rows: seq<Id>)
    requires SameButStatuses(db, other) && forall l :: l in rows ==> l in db.links
    ensures SameButStatus(ExactCandidates(db, pair, rows), ExactCandidates(other, pair, rows))
  {
    if rows != [] {
      CandidatesDifferInStatus(db, other, pair, rows[1..]);
      assert other.links[rows[0]] == db.links[rows[0]].(status := other.links[rows[0]].status);
    }
  }

  /** Whatever statuses change before the pin, the same link is pinned, or the same refusal given. */
  lemma StatusNeverChoosesTheLink(db: Db, other: Db, pair: Pair, domain: Option<Id>, rows: seq<Id>, mint: Mint,
                                  now: Time, caller: nat)
    requires SameButStatuses(db, other) && EnumeratesRows(db, pair, rows)
    requires PreferredDomain(db, pair.websiteId, domain)
    ensures EnumeratesRows(other, pair, rows) && PreferredDomain(other, pair.websiteId, domain)
    ensures CreateTx(db, pair, domain, rows, mint, now, caller).1 ==
              CreateTx(other, pair, domain, rows, mint, now, caller).1
  {
    assert forall d :: UsableDomain(db, d, pair.websiteId) == UsableDomain(other, d, pair.websiteId);
    CandidatesDifferInStatus(db, other, pair, rows);
    var candidates := ExactCandidates(db, pair, rows);
    forall a, b | a in candidates && b in candidates && a.id == b.id
      ensures a == b
    {
      CandidatesAreExact(db, pair, rows, a);
      CandidatesAreExact(db, pair, rows, b);
    }
    WinnerIgnoresStatus(candidates, ExactCandidates(other, pair, rows), pair);
    assert forall l :: l in db.links ==> other.links[l] == db.links[l].(status := other.links[l].status);
    assert CredentialTaken(db, mint) == CredentialTaken(other, mint);
  }

  // ---------------------------------------------------------------- operator adoption

  /** The first fault that an operator's checks find in the link. */
  lemma AdoptionErrorIff(db: Db, pair: Pair, l: Id)
    ensures var error := AdoptionError(db, pair, l);
            if l !in db.links || db.links[l].websiteId != pair.websiteId then error == Some(NotThisWebsite)
            else
              var link := db.links[l];
              var exact := link.status == ACTIVE && link.members == [pair.videoId];
              && (error == Some(LinkInactive) <==> link.status != ACTIVE)
              && (error == Some(NotExactlyThisVideo) <==> link.status == ACTIVE && !exact)
              && (error == Some(NoAlias) <==> exact && link.alias in {None, Some("")})
              && (error == Some(OptionsPresent) <==>
                    exact && link.alias !in {None, Some("")} && !(link.expiresAt == None && link.maxViews == None))
              && (error == None <==>
                    exact && link.alias !in {None, Some("")} && link.expiresAt == None && link.maxViews == None)
  {
  }

  /** The mapping that an adoption writes if nothing has changed since its reads. */
  predicate RecordedNow(db: Db, pair: Pair, mapping: Mapping) {
    && UsableDomain(db, mapping.domainId, pair.websiteId) && mapping.host == db.domains[mapping.domainId].host
    && ReadEvidence(db, pair.videoId).Complete?
    && mapping.fingerprint == Some(ReadEvidence(db, pair.videoId).evidence) == mapping.snapshot
  }

  /**
   An adoption that nothing interrupts writes a mapping that can be handed out again exactly when the
   alias is not blank: the operator path asks only for a non-empty alias.
   */
  lemma AdoptionIsReusableIff(db: Db, pair: Pair, mapping: Mapping, caller: nat)
    requires AdoptionError(db, pair, mapping.shareLinkId) == None && Eligible(db, pair)
               && RecordedNow(db, pair, mapping)
    requires AdoptTx(db, pair, mapping, caller).1.Pinned?
    ensures var after, link := AdoptTx(db, pair, mapping, caller).0, db.links[mapping.shareLinkId];
            && after.links == db.links && after.mappings == db.mappings[pair := mapping]
            && ReuseError(after, pair, mapping, link) ==
                 if AllWhitespace(link.alias.value) then Some(ContractBroken(Fault.ALIAS_MISSING)) else None
  {
    BlankIff(db.links[mapping.shareLinkId].alias.value);
  }

  const PAIR := Pair(1, 2)
  const BLANK_LINK := Link(1, 7, Some(" "), None, ACTIVE, None, None, 0, [2])

  /** A link whose alias is a single space passes every check of the operator path and is then unusable. */
  lemma BlankAliasCanBeAdopted()
    ensures var video := Video(true, true, Evidence(0, false, false));
            var domain := Domain(Some(1), true, true, 0, "example.org");
            var db := Db({1}, map[3 := domain], map[2 := video], {PAIR}, map[4 := BLANK_LINK], map[], map[], map[], {});
            var mapping := Mapping(4, 3, "example.org", Some(video.evidence), Some(video.evidence));
            && AdoptionError(db, PAIR, 4) == None && Eligible(db, PAIR)
            && AdoptTx(db, PAIR, mapping, 0).1.Pinned?
            && ReuseError(AdoptTx(db, PAIR, mapping, 0).0, PAIR, mapping, BLANK_LINK) ==
                Some(ContractBroken(Fault.ALIAS_MISSING))
  {
    BlankIff(" ");
  }
}
