/**
 The canonical share-link service itself, statement by statement, for a call that nothing
 interrupts. Each method is tied to the functions of CanonicalModel and to the step machine of
 CanonicalRuns, which says what interruptions can do to the same call.
 */
module CanonicalStore {
  import opened Wrappers
  import opened JsText
  import opened ShareLinks
  import opened CanonicalPolicy
  import opened CanonicalModel
  import opened CanonicalRuns

  ghost predicate Fits(db: Db, supply: Pc -> Input) {
    forall pc :: InputFits(db, supply(pc))
  }

  lemma StepKeepsFit(db: Db, id: CallId, call: Call, supply: Pc -> Input)
    requires Fits(db, supply)
    ensures Fits(AdvanceCall(db, id, call, supply(call.pc)).0, supply)
  {
  }

  /** The rest of a call that nothing interrupts; `supply` is what each of its steps is given. */
  ghost function RunAlone(db: Db, id: CallId, call: Call, supply: Pc -> Input): (Db, Pc)
    requires Fits(db, supply)
    decreases StepsLeft(call.pc)
  {
    if Finished(call.pc) then (db, call.pc)
    else
      var (after, pc) := AdvanceCall(db, id, call, supply(call.pc));
      StepKeepsFit(db, id, call, supply);
      CallsTerminate(db, id, call, supply(call.pc));
      RunAlone(after, id, Call(call.pair, pc), supply)
  }

  lemma RunOneStep(db: Db, id: CallId, call: Call, supply: Pc -> Input)
    requires Fits(db, supply) && !Finished(call.pc)
    ensures var (after, pc) := AdvanceCall(db, id, call, supply(call.pc));
            && Fits(after, supply)
            && RunAlone(db, id, call, supply) == RunAlone(after, id, Call(call.pair, pc), supply)
            && (Finished(pc) ==> RunAlone(db, id, call, supply) == (after, pc))
  {
  }

  lemma {:induction false} CandidatesAppend(db: Db, pair: Pair, rows: seq<Id>, l: Id)
    requires l in db.links && forall k :: k in rows ==> k in db.links
    ensures ExactCandidates(db, pair, rows + [l]) ==
              ExactCandidates(db, pair, rows) + if db.links[l].members == [pair.videoId] then [AsCandidate(db, l)]
                  else []
  {
    if rows == [] {
      assert rows + [l] == [l];
    } else {
      CandidatesAppend(db, pair, rows[1..], l);
      assert (rows + [l])[1..] == rows[1..] + [l];
    }
  }

  /** An operator's adoption from the read of the evidence on. */
  ghost function AdoptionFrom(db: Db, id: CallId, pair: Pair, linkId: Id, d: Id, supply: Pc -> Input): (Db, Pc)
    requires Fits(db, supply) && d in db.domains
  {
    match ReadEvidence(db, pair.videoId)
    case Unreadable(error) => (db, Thrown(error))
    case Complete(evidence) =>
      var mapping := Mapping(linkId, d, db.domains[d].host, Some(evidence), Some(evidence));
      RunAlone(db, id, Call(pair, AdoptCommit(mapping)), supply)
  }

  lemma EvidenceUnfolds(db: Db, id: CallId, pair: Pair, linkId: Id, d: Id, supply: Pc -> Input)
    requires Fits(db, supply) && d in db.domains
    ensures RunAlone(db, id, Call(pair, AdoptEvidence(linkId, d, db.domains[d].host)), supply)
            == AdoptionFrom(db, id, pair, linkId, d, supply)
  {
    RunOneStep(db, id, Call(pair, AdoptEvidence(linkId, d, db.domains[d].host)), supply);
  }

  lemma DomainUnfolds(db: Db, id: CallId, pair: Pair, linkId: Id, supply: Pc -> Input)
    requires Fits(db, supply)
    ensures var choice := supply(AdoptDomain(linkId)).domain;
            RunAlone(db, id, Call(pair, AdoptDomain(linkId)), supply) ==
              if choice.None? then (db, Thrown(NoActiveDomain))
              else AdoptionFrom(db, id, pair, linkId, choice.value, supply)
  {
    RunOneStep(db, id, Call(pair, AdoptDomain(linkId)), supply);
    var choice := supply(AdoptDomain(linkId)).domain;
    if choice.Some? { EvidenceUnfolds(db, id, pair, linkId, choice.value, supply); }
  }

  lemma BackfillUnfolds(db: Db, id: CallId, pair: Pair, l: Id, n: nat, supply: Pc -> Input)
    requires Fits(db, supply)
    ensures var (after, pc) := TryBackfill(db, l, n, supply(Backfilling(l, n)));
            && Fits(after, supply)
            && RunAlone(db, id, Call(pair, Backfilling(l, n)), supply) == RunAlone(after, id, Call(pair, pc), supply)
  {
    RunOneStep(db, id, Call(pair, Backfilling(l, n)), supply);
  }

  lemma RereadUnfolds(db: Db, id: CallId, pair: Pair, supply: Pc -> Input)
    requires Fits(db, supply)
    ensures RunAlone(db, id, Call(pair, Rereading), supply) ==
              (db, match Load(db, pair)
                   case None => Thrown(MappingNotFound)
                   case Some(seen) => Respond(pair, REUSED, seen, supply(Rereading).capableHosts))
  {
    RunOneStep(db, id, Call(pair, Rereading), supply);
  }

  /** One round of the retry loop, as far as its transaction. */
  lemma AttemptUnfolds(db: Db, id: CallId, pair: Pair, n: nat, supply: Pc -> Input)
    requires Fits(db, supply)
    ensures var input := supply(Attempting(n));
            var (after, pc) := Attempt(db, id, pair, n, input);
            && Fits(after, supply)
            && RunAlone(db, id, Call(pair, Attempting(n)), supply) == RunAlone(after, id, Call(pair, pc), supply)
  {
    RunOneStep(db, id, Call(pair, Attempting(n)), supply);
  }

  // ---------------------------------------------------------------- calls that nothing interrupts

  /** Everything an operator's adoption asks of the rows, apart from the unique keys. */
  ghost predicate Adoptable(db: Db, pair: Pair, l: Id) {
    && pair.websiteId in db.activeWebsites
    && l in db.links && db.links[l].status == ACTIVE && AdoptedContract(pair, db.links[l])
    && VideoStands(db, pair)
    && (exists d :: d in db.domains && db.domains[d].active && db.domains[d].websiteId == Some(pair.websiteId))
    && (db.videos[pair.videoId].evidence.databaseBlob ==> db.videos[pair.videoId].evidence.checksumValid)
  }

  lemma CommitUnfolds(db: Db, id: CallId, pair: Pair, mapping: Mapping, supply: Pc -> Input)
    requires DbSound(db) && Fits(db, supply) && !supply(AdoptCommit(mapping)).aborted
    requires mapping.shareLinkId in db.links && pair.videoId in db.videos && mapping.domainId in db.domains
    requires AdoptedContract(pair, db.links[mapping.shareLinkId])
    ensures var l := mapping.shareLinkId;
            var (after, pc) := RunAlone(db, id, Call(pair, AdoptCommit(mapping)), supply);
            if pair in db.mappings || l in db.anchors then after == db && pc == Thrown(ConstraintViolated)
            else
              && after.links == db.links && after.mappings == db.mappings[pair := mapping]
              && (if AllWhitespace(db.links[l].alias.value) then pc == Thrown(UrlAliasMissing)
                  else pc.Returned? && pc.outcome == CREATED && pc.linkId == l)
  {
    RunOneStep(db, id, Call(pair, AdoptCommit(mapping)), supply);
    CommitAdoptionBound(db, id, pair, mapping, supply(AdoptCommit(mapping)));
    BlankIff(db.links[mapping.shareLinkId].alias.value);
    LateAdoptionIsUsableIff(db, id, pair, mapping, supply(AdoptCommit(mapping)));
  }

  lemma VideoUnfolds(db: Db, id: CallId, pair: Pair, l: Id, supply: Pc -> Input)
    requires Fits(db, supply)
    ensures RunAlone(db, id, Call(pair, AdoptVideo(l)), supply) ==
              if VideoStands(db, pair) then RunAlone(db, id, Call(pair, AdoptDomain(l)), supply)
              else (db, Thrown(VideoNotEligible))
  {
    RunOneStep(db, id, Call(pair, AdoptVideo(l)), supply);
  }

  lemma LinkUnfolds(db: Db, id: CallId, pair: Pair, l: Id, supply: Pc -> Input)
    requires Fits(db, supply)
    ensures var alone := RunAlone(db, id, Call(pair, AdoptLink(l)), supply);
            if l in db.links && db.links[l].status == ACTIVE && AdoptedContract(pair, db.links[l])
            then alone == RunAlone(db, id, Call(pair, AdoptVideo(l)), supply) else alone.0 == db && alone.1.Thrown?
  {
    AdoptionErrorIff(db, pair, l);
    RunOneStep(db, id, Call(pair, AdoptLink(l)), supply);
  }

  lemma WebsiteUnfolds(db: Db, id: CallId, pair: Pair, l: Id, supply: Pc -> Input)
    requires Fits(db, supply)
    ensures RunAlone(db, id, Call(pair, AdoptBegun(l)), supply) ==
              if pair.websiteId in db.activeWebsites then RunAlone(db, id, Call(pair, AdoptLink(l)), supply)
              else (db, Thrown(WebsiteNotActive))
  {
    RunOneStep(db, id, Call(pair, AdoptBegun(l)), supply);
  }

  /**
   An operator's adoption that nothing interrupts commits exactly if the website, the link, the video, a domain
   and the evidence are in order and neither the pair nor the link is mapped; it maps just that pair to just
   that link, and answers CREATED unless the alias is blank. Otherwise it writes nothing.
   */
  lemma UndisturbedAdoptionCommitsIff(db: Db, id: CallId, pair: Pair, l: Id, supply: Pc -> Input)
    requires DbSound(db) && Fits(db, supply) && forall pc :: !supply(pc).aborted
    requires PreferredDomain(db, pair.websiteId, supply(AdoptDomain(l)).domain)
    ensures var (after, pc) := RunAlone(db, id, Call(pair, AdoptBegun(l)), supply);
            if Adoptable(db, pair, l) && pair !in db.mappings && l !in db.anchors then
              && after.links == db.links && pair in after.mappings
              && after.mappings == db.mappings[pair := after.mappings[pair]] && after.mappings[pair].shareLinkId == l
              && (if AllWhitespace(db.links[l].alias.value) then pc == Thrown(UrlAliasMissing)
                  else pc.Returned? && pc.outcome == CREATED && pc.linkId == l)
            else after == db && pc.Thrown?
  {
    WebsiteUnfolds(db, id, pair, l, supply);
    LinkUnfolds(db, id, pair, l, supply);
    VideoUnfolds(db, id, pair, l, supply);
    if && pair.websiteId in db.activeWebsites && l in db.links && db.links[l].status == ACTIVE
       && AdoptedContract(pair, db.links[l]) && VideoStands(db, pair)
    {
      DomainUnfolds(db, id, pair, l, supply);
      var choice := supply(AdoptDomain(l)).domain;
      NoDomainIff(db, pair.websiteId, choice);
      if choice.Some? && ReadEvidence(db, pair.videoId).Complete? {
        var evidence := db.videos[pair.videoId].evidence;
        var mapping := Mapping(l, choice.value, db.domains[choice.value].host, Some(evidence), Some(evidence));
        CommitUnfolds(db, id, pair, mapping, supply);
      }
    }
  }

  /** A lookup that nothing interrupts answers exactly for a mapping with a usable alias and complete evidence. */
  lemma UndisturbedLookupAnswersIff(db: Db, id: CallId, pair: Pair, supply: Pc -> Input)
    requires DbSound(db) && Fits(db, supply)
    ensures var (after, pc) := RunAlone(db, id, Call(pair, Getting), supply);
            && after == db
            && (pc.Returned? <==>
                  && pair in db.mappings && EvidenceIsComplete(db, pair, db.mappings[pair])
                  && var alias := db.links[db.mappings[pair].shareLinkId].alias;
                     alias.Some? && !AllWhitespace(alias.value))
            && (pc.Returned? ==> pc.outcome == REUSED && pc.linkId == db.mappings[pair].shareLinkId)
            && (pair !in db.mappings ==> pc == Thrown(MappingNotFound))
  {
    RunOneStep(db, id, Call(pair, Getting), supply);
    LoadHolds(db, pair);
    if pair in db.mappings {
      var seen := Load(db, pair).value;
      if seen.link.alias.Some? { BlankIff(seen.link.alias.value); }
      EvidenceErrorIff(db, pair, seen.mapping);
      RunOneStep(db, id, Call(pair, GettingEvidence(seen)), supply);
    }
  }

  class CanonicalStore {
    var activeWebsites: set<Id>
    var domains: map<Id, Domain>
    var videos: map<Id, Video>
    var assignments: set<Pair>
    var links: map<Id, Link>
    var mappings: map<Pair, Mapping>
    var anchors: map<Id, Pair>
    ghost var origins: map<Pair, Origin>
    ghost var retired: set<Id>

    ghost function Rows(): Db
      reads this
    {
      Db(activeWebsites, domains, videos, assignments, links, mappings, anchors, origins, retired)
    }

    method LoadCanonical(pair: Pair) returns (found: Option<Seen>)
      ensures found == Load(Rows(), pair)
    {
      if pair !in mappings || mappings[pair].shareLinkId !in links { return None; }
      return Some(Seen(mappings[pair], links[mappings[pair].shareLinkId]));
    }

    method BuildEvidence(videoId: Id) returns (read: EvidenceRead)
      ensures read == ReadEvidence(Rows(), videoId)
    {
      if videoId !in videos { return Unreadable(VideoNotFound); }
      var evidence := videos[videoId].evidence;
      if evidence.databaseBlob && !evidence.checksumValid { return Unreadable(EvidenceIncomplete); }
      return Complete(evidence);
    }

    method IsEligible(pair: Pair) returns (eligible: bool)
      ensures eligible == Eligible(Rows(), pair)
    {
      eligible := pair.videoId in videos && videos[pair.videoId].ready && videos[pair.videoId].playable
          && pair in assignments;
    }

    method AssertReusable(pair: Pair, seen: Seen) returns (error: Option<Error>)
      ensures error == ReuseError(Rows(), pair, seen.mapping, seen.link)
      ensures error.None? <==>
                && seen.link.status == ACTIVE && HonoursContract(pair, seen.link)
                && DomainStands(Rows(), pair, seen.mapping)
                && VideoStands(Rows(), pair) && EvidenceIsComplete(Rows(), pair, seen.mapping)
                && EvidenceStands(Rows(), pair, seen.mapping)
    {
      ReusableIff(Rows(), pair, seen.mapping, seen.link);
      var mapping, link := seen.mapping, seen.link;
      if link.status == REVOKED { return Some(LinkRevoked); }
      if link.status != ACTIVE { return Some(LinkInactive); }
      var fault := ContractFault(pair, link);
      if fault.Some? { return Some(ContractBroken(fault.value)); }
      if mapping.domainId !in domains { return Some(DomainUnavailable); }
      var domain := domains[mapping.domainId];
      if !domain.active || domain.websiteId != Some(pair.websiteId) || domain.host != mapping.host {
        return Some(DomainUnavailable);
      }
      var eligible := IsEligible(pair);
      if !eligible { return Some(VideoNotShareable); }
      var read := BuildEvidence(pair.videoId);
      if read.Unreadable? { return Some(read.error); }
      var stored := mapping.snapshot;
      var storedComplete := stored.Some? && stored.value.databaseBlob && stored.value.checksumValid;
      if ((stored.Some? && stored.value.databaseBlob) || read.evidence.databaseBlob) && !storedComplete {
        return Some(EvidenceIncomplete);
      }
      if mapping.fingerprint.Some? && mapping.fingerprint.value != read.evidence { return Some(EvidenceDrift); }
      return None;
    }

    method FindExactSingleVideoCandidates(pair: Pair, rows: seq<Id>) returns (candidates: seq<Candidate>)
      requires forall l :: l in rows ==> l in links
      ensures candidates == ExactCandidates(Rows(), pair, rows)
    {
      candidates := [];
      var i := 0;
      while i < |rows|
        invariant 0 <= i <= |rows|
        invariant candidates == ExactCandidates(Rows(), pair, rows[..i])
      {
        CandidatesAppend(Rows(), pair, rows[..i], rows[i]);
        assert rows[..i + 1] == rows[..i] + [rows[i]];
        var link := links[rows[i]];
        if link.members == [pair.videoId] {
          var anchored := if rows[i] in anchors then Some(anchors[rows[i]]) else None;
          candidates := candidates
            + [Candidate(rows[i], link.alias, link.status, link.expiresAt, link.maxViews, link.createdAt, anchored)];
        }
        i := i + 1;
      }
      assert rows[..|rows|] == rows;
    }

    method InsertCanonical(pair: Pair, mapping: Mapping, ghost origin: Origin) returns (inserted: bool)
      modifies this
      ensures inserted == !MappingConflicts(old(Rows()), pair, mapping.shareLinkId)
      ensures Rows() == if inserted then InsertMapping(old(Rows()), pair, mapping, origin) else old(Rows())
    {
      if pair in mappings || mapping.shareLinkId in anchors { return false; }
      mappings := mappings[pair := mapping];
      anchors := anchors[mapping.shareLinkId := pair];
      origins := origins[pair := origin];
      return true;
    }

    /** One serializable transaction: every precondition is read here, and a failed insert rolls the mint back. */
    method CreateTransaction(pair: Pair, domain: Option<Id>, rows: seq<Id>, mint: Mint, now: Time, caller: nat)
      returns (settled: Settled)
      requires (forall l :: l in rows ==> l in links) && (domain.Some? ==> domain.value in domains)
      modifies this
      ensures (Rows(), settled) == CreateTx(old(Rows()), pair, domain, rows, mint, now, caller)
    {
      if pair.websiteId !in activeWebsites { return Refused(WebsiteNotActive); }
      var eligible := IsEligible(pair);
      if !eligible { return Refused(VideoNotEligible); }
      if domain.None? { return Refused(NoActiveDomain); }
      var host := domains[domain.value].host;
      var read := BuildEvidence(pair.videoId);
      if read.Unreadable? { return Refused(read.error); }
      var candidates := FindExactSingleVideoCandidates(pair, rows);
      var selection := SelectWinner(candidates, pair);
      if selection.pinBlocker.Some? { return Refused(PinBlocked(selection.pinBlocker.value)); }
      var linkId := mint.linkId;
      var before := links;
      if selection.winner.Some? {
        linkId := selection.winner.value.id;
      } else {
        if exists l :: l in links && (links[l].transportAlias == Some(mint.transportAlias)
            || links[l].alias == Some(mint.alias)
                                      || links[l].tokenHash == mint.tokenHash)
        {
          return CredentialCollision;
        }
        links := links[linkId := MintedLink(pair, mint, now)];
      }
      var mapping := Mapping(linkId, domain.value, host, Some(read.evidence), Some(read.evidence));
      var inserted := InsertCanonical(pair, mapping, Request(caller));
      if !inserted {
        links := before;
        return PairConflict;
      }
      return Pinned(linkId, selection.winner.Some?);
    }

    /** One guarded update; a taken alias is tried again with another, as long as attempts are left. */
    method BackfillOnce(linkId: Id, attempt: nat, input: Input) returns (next: Pc)
      modifies `links
      ensures (Rows(), next) == TryBackfill(old(Rows()), linkId, attempt, input)
    {
      if input.aborted { return Thrown(TransactionFailed); }
      if linkId !in links || links[linkId].transportAlias.Some? || links[linkId].status != ACTIVE { return Rereading; }
      if exists l :: l in links && links[l].transportAlias == Some(input.transportAlias) {
        return if attempt < CANONICAL_CREATE_MAX_ATTEMPTS then Backfilling(linkId, attempt + 1) else Rereading;
      }
      links := links[linkId := links[linkId].(transportAlias := Some(input.transportAlias))];
      return Rereading;
    }

    /** The bounded backfill loop, then the authoritative re-read. */
    method EnsureTransportAlias(pair: Pair, seen: Seen, supply: Pc -> Input, ghost id: CallId) returns (pc: Pc)
      requires Fits(Rows(), supply) && seen.link.transportAlias.None?
      modifies `links
      ensures Fits(old(Rows()), supply)
      ensures (Rows(), pc) == RunAlone(old(Rows()), id, Call(pair, Backfilling(seen.mapping.shareLinkId, 1)), supply)
    {
      var linkId := seen.mapping.shareLinkId;
      ghost var answer := RunAlone(Rows(), id, Call(pair, Backfilling(linkId, 1)), supply);
      var attempt := 1;
      var next := Backfilling(linkId, 1);
      while next.Backfilling?
        invariant next == Rereading || next == Backfilling(linkId, attempt)
        invariant 1 <= attempt <= CANONICAL_CREATE_MAX_ATTEMPTS
        invariant Fits(Rows(), supply) && answer == RunAlone(Rows(), id, Call(pair, next), supply)
        decreases next.Backfilling?, CANONICAL_CREATE_MAX_ATTEMPTS - attempt
      {
        BackfillUnfolds(Rows(), id, pair, linkId, attempt, supply);
        next := BackfillOnce(linkId, attempt, supply(Backfilling(linkId, attempt)));
        if next.Thrown? { return next; }
        if next.Backfilling? { attempt := attempt + 1; }
      }
      RereadUnfolds(Rows(), id, pair, supply);
      var reloaded := LoadCanonical(pair);
      if reloaded.None? { return Thrown(MappingNotFound); }
      return Respond(pair, REUSED, reloaded.value, supply(Rereading).capableHosts);
    }

    method ReuseCanonical(pair: Pair, seen: Seen, supply: Pc -> Input, ghost id: CallId) returns (pc: Pc)
      requires Fits(Rows(), supply)
      modifies `links
      ensures Fits(old(Rows()), supply)
      ensures (Rows(), pc) == RunAlone(old(Rows()), id, Call(pair, Reuse(pair, seen)), supply)
    {
      ReuseUnfolds(Rows(), id, pair, seen, supply);
      var error := AssertReusable(pair, seen);
      if error.Some? { return Thrown(error.value); }
      if seen.link.transportAlias.Some? {
        return Respond(pair, REUSED, seen, supply(CheckingEvidence(seen)).capableHosts);
      }
      pc := EnsureTransportAlias(pair, seen, supply, id);
    }

    /** What a settled transaction leads to; `None` means: try again. */
    method AfterTransaction(pair: Pair, attempt: nat, settled: Settled, supply: Pc -> Input, id: CallId)
      returns (pc: Option<Pc>)
      requires Fits(Rows(), supply)
      modifies `links
      ensures Fits(old(Rows()), supply)
      ensures var next := AfterCreate(old(Rows()), pair, attempt, settled, supply(Attempting(attempt)).capableHosts);
              RunAlone(old(Rows()), id, Call(pair, next), supply) ==
                if pc.Some? then (Rows(), pc.value)
                else RunAlone(old(Rows()), id, Call(pair, NextAttempt(attempt, RetriesExhausted)), supply)
      ensures pc.None? ==> !settled.Pinned? && Rows() == old(Rows())
    {
      if settled.Refused? { return Some(Thrown(settled.error)); }
      if settled.CredentialCollision? {
        return if attempt < CANONICAL_CREATE_MAX_ATTEMPTS then None else Some(Thrown(TransactionFailed));
      }
      var row := LoadCanonical(pair);
      if settled.PairConflict? {
        RunOneStep(Rows(), id, Call(pair, LoadingWinner(attempt)), supply);
        if row.None? { return None; }
        var reused := ReuseCanonical(pair, row.value, supply, id);
        return Some(reused);
      }
      if row.None? { return Some(Thrown(TransactionFailed)); }
      if !settled.adopted { return Some(Respond(pair, CREATED, row.value, supply(Attempting(attempt)).capableHosts)); }
      var reused := ReuseCanonical(pair, row.value, supply, id);
      return Some(reused);
    }

    /** One round of the retry loop from the transaction on. */
    method OneAttempt(pair: Pair, attempt: nat, supply: Pc -> Input, id: CallId) returns (pc: Option<Pc>)
      requires Fits(Rows(), supply) && 1 <= attempt <= CANONICAL_CREATE_MAX_ATTEMPTS
      modifies this
      ensures Fits(old(Rows()), supply)
      ensures RunAlone(old(Rows()), id, Call(pair, Attempting(attempt)), supply) ==
                if pc.Some? then (Rows(), pc.value)
                else RunAlone(old(Rows()), id, Call(pair, NextAttempt(attempt, RetriesExhausted)), supply)
      ensures pc.None? ==> Rows() == old(Rows())
    {
      AttemptUnfolds(Rows(), id, pair, attempt, supply);
      var input := supply(Attempting(attempt));
      if input.aborted {
        return if attempt < CANONICAL_CREATE_MAX_ATTEMPTS then None else Some(Thrown(TransactionFailed));
      }
      var settled := CreateTransaction(pair, input.domain, input.rows, input.mint, input.now, id);
      pc := AfterTransaction(pair, attempt, settled, supply, id);
    }

    /** A retried loser usually lost the race for the pair: reuse the winner's mapping. */
    method ReuseRaced(pair: Pair, attempt: nat, supply: Pc -> Input, ghost id: CallId) returns (pc: Option<Pc>)
      requires Fits(Rows(), supply)
      modifies `links
      ensures Fits(old(Rows()), supply)
      ensures pc.Some? ==> (Rows(), pc.value) == RunAlone(old(Rows()), id, Call(pair, LoadingBefore(attempt)), supply)
      ensures pc.None? ==>
                && Rows() == old(Rows())
                && RunAlone(Rows(), id, Call(pair, LoadingBefore(attempt)), supply) ==
                    RunAlone(Rows(), id, Call(pair, Attempting(attempt)), supply)
    {
      RunOneStep(Rows(), id, Call(pair, LoadingBefore(attempt)), supply);
      var raced := LoadCanonical(pair);
      if raced.None? { return None; }
      var reused := ReuseCanonical(pair, raced.value, supply, id);
      return Some(reused);
    }

    method RetryLoop(pair: Pair, supply: Pc -> Input, id: CallId) returns (pc: Pc)
      requires Fits(Rows(), supply)
      modifies this
      ensures Fits(old(Rows()), supply)
      ensures (Rows(), pc) == RunAlone(old(Rows()), id, Call(pair, Attempting(1)), supply)
    {
      ghost var rows, result, at := Rows(), RunAlone(Rows(), id, Call(pair, Attempting(1)), supply), Attempting(1);
      var attempt := 1;
      while attempt <= CANONICAL_CREATE_MAX_ATTEMPTS
        invariant 1 <= attempt <= CANONICAL_CREATE_MAX_ATTEMPTS + 1 && Rows() == rows
        invariant at == if attempt == 1 then Attempting(1) else NextAttempt(attempt - 1, RetriesExhausted)
        invariant result == RunAlone(rows, id, Call(pair, at), supply)
        invariant attempt > CANONICAL_CREATE_MAX_ATTEMPTS ==> result == (rows, Thrown(RetriesExhausted))
      {
        if attempt > 1 {
          var raced := ReuseRaced(pair, attempt, supply, id);
          if raced.Some? { return raced.value; }
        }
        var settled := OneAttempt(pair, attempt, supply, id);
        if settled.Some? { return settled.value; }
        at := NextAttempt(attempt, RetriesExhausted);
        attempt := attempt + 1;
      }
      return Thrown(RetriesExhausted);
    }

    method CreateOrGetCanonical(pair: Pair, supply: Pc -> Input, id: CallId) returns (pc: Pc)
      requires Fits(Rows(), supply)
      modifies this
      ensures Fits(old(Rows()), supply)
      ensures (Rows(), pc) == RunAlone(old(Rows()), id, Call(pair, Begun), supply)
    {
      RunOneStep(Rows(), id, Call(pair, Begun), supply);
      if pair.websiteId !in activeWebsites { return Thrown(WebsiteNotActive); }
      RunOneStep(Rows(), id, Call(pair, Loading), supply);
      var existing := LoadCanonical(pair);
      if existing.Some? {
        pc := ReuseCanonical(pair, existing.value, supply, id);
        return;
      }
      if !supply(Loading).pepper { return Thrown(PepperMissing); }
      pc := RetryLoop(pair, supply, id);
    }

    /** Every check but the database's own constraints is made before the transaction. */
    method AdoptExistingShareLink(pair: Pair, linkId: Id, supply: Pc -> Input, id: CallId) returns (pc: Pc)
      requires Fits(Rows(), supply)
      modifies this
      ensures Fits(old(Rows()), supply)
      ensures (Rows(), pc) == RunAlone(old(Rows()), id, Call(pair, AdoptBegun(linkId)), supply)
    {
      RunOneStep(Rows(), id, Call(pair, AdoptBegun(linkId)), supply);
      if pair.websiteId !in activeWebsites { return Thrown(WebsiteNotActive); }
      RunOneStep(Rows(), id, Call(pair, AdoptLink(linkId)), supply);
      if linkId !in links || links[linkId].websiteId != pair.websiteId { return Thrown(NotThisWebsite); }
      var link := links[linkId];
      if link.status != ACTIVE { return Thrown(LinkInactive); }
      if link.members != [pair.videoId] { return Thrown(NotExactlyThisVideo); }
      if link.alias.None? || link.alias.value == "" { return Thrown(NoAlias); }
      if link.expiresAt.Some? || link.maxViews.Some? { return Thrown(OptionsPresent); }
      pc := AdoptCheckedLink(pair, linkId, supply, id);
    }

    method AdoptCheckedLink(pair: Pair, linkId: Id, supply: Pc -> Input, id: CallId) returns (pc: Pc)
      requires Fits(Rows(), supply)
      modifies this
      ensures Fits(old(Rows()), supply)
      ensures (Rows(), pc) == RunAlone(old(Rows()), id, Call(pair, AdoptVideo(linkId)), supply)
    {
      RunOneStep(Rows(), id, Call(pair, AdoptVideo(linkId)), supply);
      var eligible := IsEligible(pair);
      if !eligible { return Thrown(VideoNotEligible); }
      DomainUnfolds(Rows(), id, pair, linkId, supply);
      var choice := supply(AdoptDomain(linkId)).domain;
      if choice.None? { return Thrown(NoActiveDomain); }
      var host := domains[choice.value].host;
      var read := BuildEvidence(pair.videoId);
      if read.Unreadable? { return Thrown(read.error); }
      pc := CommitAdoption(pair, Mapping(linkId, choice.value, host, Some(read.evidence), Some(read.evidence)), supply,
          id);
    }

    method CommitAdoption(pair: Pair, mapping: Mapping, supply: Pc -> Input, id: CallId) returns (pc: Pc)
      requires Fits(Rows(), supply)
      modifies this
      ensures Fits(old(Rows()), supply)
      ensures (Rows(), pc) == RunAlone(old(Rows()), id, Call(pair, AdoptCommit(mapping)), supply)
    {
      RunOneStep(Rows(), id, Call(pair, AdoptCommit(mapping)), supply);
      if supply(AdoptCommit(mapping)).aborted { return Thrown(TransactionFailed); }
      if pair.videoId !in videos || mapping.domainId !in domains || mapping.shareLinkId !in links {
        return Thrown(ConstraintViolated);
      }
      var inserted := InsertCanonical(pair, mapping, Operator(id));
      if !inserted { return Thrown(ConstraintViolated); }
      return Respond(pair, CREATED, Seen(mapping, links[mapping.shareLinkId]),
          supply(AdoptCommit(mapping)).capableHosts);
    }
  }

  /** The three checks after the load, then the answer or the backfill. */
  lemma ReuseUnfolds(db: Db, id: CallId, pair: Pair, seen: Seen, supply: Pc -> Input)
    requires Fits(db, supply)
    ensures RunAlone(db, id, Call(pair, Reuse(pair, seen)), supply) ==
              match ReuseError(db, pair, seen.mapping, seen.link)
              case Some(error) => (db, Thrown(error))
              case None =>
                if seen.link.transportAlias.Some? then
                  (db, Respond(pair, REUSED, seen, supply(CheckingEvidence(seen)).capableHosts))
                else RunAlone(db, id, Call(pair, Backfilling(seen.mapping.shareLinkId, 1)), supply)
  {
    if AnchorError(pair, seen.link).None? {
      RunOneStep(db, id, Call(pair, CheckingDomain(seen)), supply);
      if DomainAsRecorded(db, pair, seen.mapping) {
        RunOneStep(db, id, Call(pair, CheckingVideo(seen)), supply);
        if Eligible(db, pair) {
          RunOneStep(db, id, Call(pair, CheckingEvidence(seen)), supply);
        }
      }
    }
  }
}
