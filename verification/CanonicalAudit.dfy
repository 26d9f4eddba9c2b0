/**
 The read-only audit: what it says a request will do, and what it says is wrong with a mapping that
 exists. Both are compared with what the request path does.
 */
module CanonicalAudit {
  import opened Wrappers
  import opened JsText
  import opened ShareLinks
  import opened CanonicalPolicy
  import opened CanonicalModel
  import opened CanonicalRuns
  import opened CanonicalStore

  datatype AuditRow = AuditRow(
    id: Id,
    websiteId: Id,
    alias: Option<string>,
    status: LinkStatus,
    expiresAt: Option<Time>,
    maxViews: Option<nat>,
    createdAt: Time,
    videoIds: seq<Id>,
    anchoredPair: Option<Pair>)

  datatype Resolution = ALREADY_CANONICAL | ADOPT_HISTORICAL | ADOPT_HISTORICAL_THEN_DENY | BLOCKED_OWNER_REVIEW
    | MINT_NEW

  datatype Prediction = Prediction(resolution: Resolution, winnerId: Option<Id>, pinBlocker: Option<PinBlocker>)

  /** Exact single-video links of the pair, with nothing else filtered out. */
  function AuditCandidates(pair: Pair, rows: seq<AuditRow>): seq<Candidate> {
    if rows == [] then []
    else
      var row, rest := rows[0], AuditCandidates(pair, rows[1..]);
      if row.websiteId == pair.websiteId && pair.videoId in row.videoIds && |row.videoIds| == 1 then
        [Candidate(row.id, row.alias, row.status, row.expiresAt, row.maxViews, row.createdAt, row.anchoredPair)] + rest
      else rest
  }

  /** classifyPair */
  function ClassifyPair(pair: Pair, rows: seq<AuditRow>, canonical: Option<Id>): Prediction {
    var selection := SelectWinner(AuditCandidates(pair, rows), pair);
    if canonical.Some? then Prediction(ALREADY_CANONICAL, canonical, None)
    else if selection.winner.None? then Prediction(MINT_NEW, None, None)
    else
      var winner := selection.winner.value;
      Prediction(
        if selection.pinBlocker.Some? then BLOCKED_OWNER_REVIEW
        else if Denying(winner.status) then ADOPT_HISTORICAL_THEN_DENY
        else ADOPT_HISTORICAL,
        Some(winner.id), selection.pinBlocker)
  }

  // ---------------------------------------------------------------- the snapshot the audit loads

  function AuditRowOf(db: Db, l: Id): AuditRow
    requires l in db.links
  {
    var link := db.links[l];
    AuditRow(l, link.websiteId, link.alias, link.status, link.expiresAt, link.maxViews, link.createdAt, link.members,
             if l in db.anchors then Some(db.anchors[l]) else None)
  }

  /** Every link of every website, each once, in any order. */
  ghost predicate IsSnapshot(db: Db, rows: seq<AuditRow>) {
    && (forall i :: 0 <= i < |rows| ==> rows[i].id in db.links && rows[i] == AuditRowOf(db, rows[i].id))
    && (forall l :: l in db.links ==> AuditRowOf(db, l) in rows)
    && (forall i, j :: 0 <= i < j < |rows| ==> rows[i].id != rows[j].id)
  }

  function CanonicalOf(db: Db, pair: Pair): Option<Id> {
    if pair in db.mappings then Some(db.mappings[pair].shareLinkId) else None
  }

  lemma {:induction false} AuditCandidatesAreExact(db: Db, pair: Pair, rows: seq<AuditRow>, c: Candidate)
    requires forall i :: 0 <= i < |rows| ==> rows[i].id in db.links && rows[i] == AuditRowOf(db, rows[i].id)
    ensures c in AuditCandidates(pair, rows) <==>
              ExactLink(db, pair, c.id) && c == AsCandidate(db, c.id) && AuditRowOf(db, c.id) in rows
  {
    if rows != [] {
      AuditCandidatesAreExact(db, pair, rows[1..], c);
      assert rows == [rows[0]] + rows[1..];
      assert ExactLink(db, pair, rows[0].id) <==>
               rows[0].websiteId == pair.websiteId && pair.videoId in rows[0].videoIds && |rows[0].videoIds| == 1;
    }
  }

  /** The audit and the transaction select the same winner with the same blocker, from any two row orders. */
  lemma AuditNamesTheSameWinner(db: Db, pair: Pair, audited: seq<AuditRow>, rows: seq<Id>)
    requires IsSnapshot(db, audited) && EnumeratesRows(db, pair, rows)
    ensures var a, r := SelectWinner(AuditCandidates(pair, audited), pair),
              SelectWinner(ExactCandidates(db, pair, rows), pair);
            a.winner == r.winner && a.pinBlocker == r.pinBlocker
  {
    var a, r := SelectWinner(AuditCandidates(pair, audited), pair), SelectWinner(ExactCandidates(db, pair, rows), pair);
    WinnerIsNewest(AuditCandidates(pair, audited), pair);
    WinnerIsNewest(ExactCandidates(db, pair, rows), pair);
    forall c
      ensures c in AuditCandidates(pair, audited) <==> c in ExactCandidates(db, pair, rows)
    {
      AuditCandidatesAreExact(db, pair, audited, c);
      CandidatesAreExact(db, pair, rows, c);
    }
    if AuditCandidates(pair, audited) != [] {
      assert AuditCandidates(pair, audited)[0] in ExactCandidates(db, pair, rows);
    }
    if ExactCandidates(db, pair, rows) != [] {
      assert ExactCandidates(db, pair, rows)[0] in AuditCandidates(pair, audited);
    }
    if a.winner.Some? {
      AuditCandidatesAreExact(db, pair, audited, a.winner.value);
      AuditCandidatesAreExact(db, pair, audited, r.winner.value);
    }
  }

  // ---------------------------------------------------------------- the prediction comes true

  /** A request on this snapshot that passes every check unrelated to history, and that nothing interrupts. */
  ghost predicate UndisturbedRequest(db: Db, pair: Pair, supply: Pc -> Input) {
    && DbSound(db) && Fits(db, supply)
    && pair.websiteId in db.activeWebsites && Eligible(db, pair) && ReadEvidence(db, pair.videoId).Complete?
    && (forall pc :: !supply(pc).aborted) && supply(Loading).pepper
    && var input := supply(Attempting(1));
       && EnumeratesRows(db, pair, input.rows)
       && PreferredDomain(db, pair.websiteId, input.domain) && input.domain.Some?
       && input.mint.linkId !in db.links && !NoUsableAlias(Some(input.mint.alias)) && !CredentialTaken(db, input.mint)
  }

  lemma RereadAnswers(db: Db, id: CallId, pair: Pair, supply: Pc -> Input)
    requires Fits(db, supply) && pair in db.mappings && db.mappings[pair].shareLinkId in db.links
    requires !NoUsableAlias(db.links[db.mappings[pair].shareLinkId].alias)
    ensures var (after, pc) := RunAlone(db, id, Call(pair, Rereading), supply);
            after == db && pc.Returned? && pc.outcome == REUSED && pc.linkId == db.mappings[pair].shareLinkId
  {
    RunOneStep(db, id, Call(pair, Rereading), supply);
  }

  /** One backfill attempt collides and is repeated, or is followed by the re-read; the mappings stay. */
  lemma BackfillAttempt(db: Db, l: Id, n: nat, input: Input)
    requires l in db.links && !input.aborted
    ensures var (after, pc) := TryBackfill(db, l, n, input);
            && after.mappings == db.mappings && l in after.links && after.links[l].alias == db.links[l].alias
            && (pc == Rereading || (pc == Backfilling(l, n + 1) && n < CANONICAL_CREATE_MAX_ATTEMPTS && after == db))
  {
  }

  /** The call was answered with this link, and the mappings are what they were. */
  predicate AnsweredWith(result: (Db, Pc), db: Db, l: Id) {
    result.1.Returned? && result.1.outcome == REUSED && result.1.linkId == l && result.0.mappings == db.mappings
  }

  lemma BackfillEnds(db: Db, id: CallId, pair: Pair, l: Id, n: nat, supply: Pc -> Input)
    requires Fits(db, supply) && !supply(Backfilling(l, n)).aborted
    requires pair in db.mappings && db.mappings[pair].shareLinkId == l && l in db.links
               && !NoUsableAlias(db.links[l].alias)
    requires TryBackfill(db, l, n, supply(Backfilling(l, n))).1 == Rereading
    ensures AnsweredWith(RunAlone(db, id, Call(pair, Backfilling(l, n)), supply), db, l)
  {
    BackfillUnfolds(db, id, pair, l, n, supply);
    BackfillAttempt(db, l, n, supply(Backfilling(l, n)));
    RereadAnswers(TryBackfill(db, l, n, supply(Backfilling(l, n))).0, id, pair, supply);
  }

  /** Once the backfill is reached, the request answers with the mapping's link. */
  lemma {:induction false} BackfillAnswers(db: Db, id: CallId, pair: Pair, l: Id, n: nat, supply: Pc -> Input)
    requires Fits(db, supply) && (forall pc :: !supply(pc).aborted)
    requires pair in db.mappings && db.mappings[pair].shareLinkId == l && l in db.links
               && !NoUsableAlias(db.links[l].alias)
    ensures AnsweredWith(RunAlone(db, id, Call(pair, Backfilling(l, n)), supply), db, l)
    decreases if n < CANONICAL_CREATE_MAX_ATTEMPTS then CANONICAL_CREATE_MAX_ATTEMPTS - n else 0
  {
    BackfillAttempt(db, l, n, supply(Backfilling(l, n)));
    if TryBackfill(db, l, n, supply(Backfilling(l, n))).1 == Rereading {
      BackfillEnds(db, id, pair, l, n, supply);
    } else {
      BackfillUnfolds(db, id, pair, l, n, supply);
      BackfillAnswers(db, id, pair, l, n + 1, supply);
    }
  }

  /** A mapping that is loaded is either refused as it stands or answered with its link, and stays what it is. */
  lemma ReuseAnswers(db: Db, id: CallId, pair: Pair, supply: Pc -> Input)
    requires DbSound(db) && Fits(db, supply) && (forall pc :: !supply(pc).aborted)
    requires pair in db.mappings
    ensures db.mappings[pair].shareLinkId in db.links
    ensures var mapping := db.mappings[pair];
            var seen := Seen(mapping, db.links[mapping.shareLinkId]);
            var error := ReuseError(db, pair, mapping, seen.link);
            var (after, pc) := RunAlone(db, id, Call(pair, Reuse(pair, seen)), supply);
            && after.mappings == db.mappings
            && (error.Some? ==> pc == Thrown(error.value) && after == db)
            && (error.None? ==> pc.Returned? && pc.outcome == REUSED && pc.linkId == mapping.shareLinkId)
  {
    assert MappingSound(db, pair);
    var mapping := db.mappings[pair];
    var seen := Seen(mapping, db.links[mapping.shareLinkId]);
    ReuseUnfolds(db, id, pair, seen, supply);
    if ReuseError(db, pair, mapping, seen.link).None? {
      BackfillAnswers(db, id, pair, mapping.shareLinkId, 1, supply);
    }
  }

  /** The mapping just written passes every check of the reuse path except, possibly, the link's status. */
  lemma FreshMappingIsReusable(db: Db, pair: Pair, domain: Option<Id>, rows: seq<Id>, mint: Mint, now: Time,
                               caller: nat)
    requires EnumeratesRows(db, pair, rows) && PreferredDomain(db, pair.websiteId, domain)
    requires mint.linkId !in db.links && !NoUsableAlias(Some(mint.alias))
    requires CreateTx(db, pair, domain, rows, mint, now, caller).1.Pinned?
    ensures var (after, r) := CreateTx(db, pair, domain, rows, mint, now, caller);
            && pair in after.mappings && r.linkId in after.links
            && ReuseError(after, pair, after.mappings[pair], after.links[r.linkId]) ==
               match after.links[r.linkId].status { case ACTIVE => None case REVOKED => Some(LinkRevoked) case _ =>
                   Some(LinkInactive) }
  {
    CreatePinsTheNewestLink(db, pair, domain, rows, mint, now, caller);
  }

  /** The end of a request, told from what the audit announced about it. */
  ghost predicate Fulfilled(p: Prediction, db: Db, pair: Pair, after: Db, pc: Pc) {
    match p.resolution
    case ALREADY_CANONICAL =>
      && pair in db.mappings && after.mappings == db.mappings && p.winnerId == Some(db.mappings[pair].shareLinkId)
      && db.mappings[pair].shareLinkId in db.links
      && (match ReuseError(db, pair, db.mappings[pair], db.links[db.mappings[pair].shareLinkId])
          case Some(error) => after == db && pc == Thrown(error)
          case None => pc.Returned? && pc.outcome == REUSED && Some(pc.linkId) == p.winnerId)
    case ADOPT_HISTORICAL =>
      && pair in after.mappings && Some(after.mappings[pair].shareLinkId) == p.winnerId
      && pc.Returned? && pc.outcome == REUSED && Some(pc.linkId) == p.winnerId
    case ADOPT_HISTORICAL_THEN_DENY =>
      && pair in after.mappings && Some(after.mappings[pair].shareLinkId) == p.winnerId
      && after.links == db.links && pc in {Thrown(LinkRevoked), Thrown(LinkInactive)}
    case BLOCKED_OWNER_REVIEW =>
      p.pinBlocker.Some? && after == db && pc == Thrown(PinBlocked(p.pinBlocker.value))
    case MINT_NEW =>
      && (forall l :: !ExactLink(db, pair, l))
      && pc.Returned? && pc.outcome == CREATED && pc.linkId !in db.links && pc.linkId in after.links
  }

  /**
   What classifyPair announces is what the request does: it answers with the existing mapping's link
   or the reason against it; pins the announced link and answers with it; pins it and refuses for its
   status; refuses without writing; or mints.
   */
  lemma PredictionComesTrue(db: Db, id: CallId, pair: Pair, audited: seq<AuditRow>, supply: Pc -> Input)
    requires UndisturbedRequest(db, pair, supply) && IsSnapshot(db, audited)
    ensures var (after, pc) := RunAlone(db, id, Call(pair, Begun), supply);
            Fulfilled(ClassifyPair(pair, audited, CanonicalOf(db, pair)), db, pair, after, pc)
  {
    RunOneStep(db, id, Call(pair, Begun), supply);
    RunOneStep(db, id, Call(pair, Loading), supply);
    LoadHolds(db, pair);
    if pair in db.mappings {
      ReuseAnswers(db, id, pair, supply);
    } else {
      AttemptFollowsPrediction(db, id, pair, audited, supply);
    }
  }

  lemma AttemptFollowsPrediction(db: Db, id: CallId, pair: Pair, audited: seq<AuditRow>, supply: Pc -> Input)
    requires UndisturbedRequest(db, pair, supply) && IsSnapshot(db, audited) && pair !in db.mappings
    ensures var (after, pc) := RunAlone(db, id, Call(pair, Attempting(1)), supply);
            Fulfilled(ClassifyPair(pair, audited, None), db, pair, after, pc)
  {
    var input := supply(Attempting(1));
    AuditNamesTheSameWinner(db, pair, audited, input.rows);
    WinnerInTheTable(db, pair, input.rows);
    SettlesAsPredicted(db, id, pair, input);
    SettledRequestEnds(db, id, pair, supply);
  }

  /** How the first attempt settles decides how the request ends. */
  lemma SettledRequestEnds(db: Db, id: CallId, pair: Pair, supply: Pc -> Input)
    requires UndisturbedRequest(db, pair, supply) && pair !in db.mappings
    ensures var input := supply(Attempting(1));
            var r := CreateTx(db, pair, input.domain, input.rows, input.mint, input.now, id).1;
            var (after, pc) := RunAlone(db, id, Call(pair, Attempting(1)), supply);
            && (r.Refused? ==> after == db && pc == Thrown(r.error))
            && (r.Pinned? && !r.adopted ==>
                  pc.Returned? && pc.outcome == CREATED && pc.linkId == r.linkId && r.linkId in after.links)
            && (r.Pinned? && r.adopted ==>
                  && r.linkId in db.links && pair in after.mappings && after.mappings[pair].shareLinkId == r.linkId
                  && (if Denying(db.links[r.linkId].status)
                      then after.links == db.links && pc in {Thrown(LinkRevoked), Thrown(LinkInactive)}
                      else pc.Returned? && pc.outcome == REUSED && pc.linkId == r.linkId))
  {
    var input := supply(Attempting(1));
    var (after, r) := CreateTx(db, pair, input.domain, input.rows, input.mint, input.now, id);
    RunOneStep(db, id, Call(pair, Attempting(1)), supply);
    CreatePinsTheNewestLink(db, pair, input.domain, input.rows, input.mint, input.now, id);
    if r.Pinned? {
      CreateKeepsSound(db, pair, input, id);
      FreshMappingIsReusable(db, pair, input.domain, input.rows, input.mint, input.now, id);
      LoadHolds(after, pair);
      ReuseAnswers(after, id, pair, supply);
    }
  }

  /** With every other check passing, history alone decides how the transaction settles. */
  lemma SettlesAsPredicted(db: Db, id: CallId, pair: Pair, input: Input)
    requires DbSound(db) && InputFits(db, input) && pair !in db.mappings
    requires pair.websiteId in db.activeWebsites && Eligible(db, pair) && ReadEvidence(db, pair.videoId).Complete?
    requires EnumeratesRows(db, pair, input.rows)
    requires input.domain.Some? && input.mint.linkId !in db.links && !CredentialTaken(db, input.mint)
    ensures var s := SelectWinner(ExactCandidates(db, pair, input.rows), pair);
            CreateTx(db, pair, input.domain, input.rows, input.mint, input.now, id).1 ==
              if s.pinBlocker.Some? then Refused(PinBlocked(s.pinBlocker.value))
              else if s.winner.Some? then Pinned(s.winner.value.id, true)
              else Pinned(input.mint.linkId, false)
  {
    WinnerInTheTable(db, pair, input.rows);
    forall l | l in db.anchors
      ensures l in db.links
    {
      assert MappingSound(db, db.anchors[l]);
    }
  }

  // ---------------------------------------------------------------- existing mappings

  datatype Finding = SHARE_LINK_MISSING | Structural(fault: Fault) | STATUS_NOT_ACTIVE

  function FindRow(rows: seq<AuditRow>, l: Id): Option<AuditRow> {
    if rows == [] then None else if rows[0].id == l then Some(rows[0]) else FindRow(rows[1..], l)
  }

  /** classifyExistingCanonical: the first finding, status last. */
  function ClassifyExisting(pair: Pair, shareLinkId: Id, rows: seq<AuditRow>): Option<Finding> {
    match FindRow(rows, shareLinkId)
    case None => Some(SHARE_LINK_MISSING)
    case Some(link) =>
      if link.alias.None? || Trim(link.alias.value) == "" then Some(Structural(Fault.ALIAS_MISSING))
      else if link.websiteId != pair.websiteId then Some(Structural(WEBSITE_MISMATCH))
      else if |link.videoIds| != 1 || link.videoIds[0] != pair.videoId then Some(Structural(MEMBERSHIP_MISMATCH))
      else if link.expiresAt.Some? then Some(Structural(Fault.HAS_EXPIRY))
      else if link.maxViews.Some? then Some(Structural(Fault.HAS_MAX_VIEWS))
      else if link.status != ACTIVE then Some(STATUS_NOT_ACTIVE)
      else None
  }

  lemma {:induction false} FindRowFinds(rows: seq<AuditRow>, i: nat)
    requires i < |rows| && forall j, k :: 0 <= j < k < |rows| ==> rows[j].id != rows[k].id
    ensures FindRow(rows, rows[i].id) == Some(rows[i])
  {
    if i > 0 { FindRowFinds(rows[1..], i - 1); }
  }

  lemma LinkHasItsRow(db: Db, rows: seq<AuditRow>, l: Id)
    requires IsSnapshot(db, rows) && l in db.links
    ensures FindRow(rows, l) == Some(AuditRowOf(db, l))
  {
    assert AuditRowOf(db, l) in rows;
    var i :| 0 <= i < |rows| && rows[i] == AuditRowOf(db, l);
    FindRowFinds(rows, i);
  }

  /** What the runtime refuses, as a finding: it names a withdrawn link's status before any structural fault. */
  function FindingOf(error: Option<Error>): Option<Finding> {
    match error
    case None => None
    case Some(ContractBroken(fault)) => Some(Structural(fault))
    case Some(_) => Some(STATUS_NOT_ACTIVE)
  }

  /**
   A mapping has a finding exactly when the runtime refuses it for what it anchors; the two name the
   same fault if and only if the link is ACTIVE or has no structural fault.
   */
  lemma AuditAgreesWithRuntime(db: Db, pair: Pair, rows: seq<AuditRow>)
    requires DbSound(db) && IsSnapshot(db, rows) && pair in db.mappings
    ensures db.mappings[pair].shareLinkId in db.links
    ensures var link := db.links[db.mappings[pair].shareLinkId];
            var finding := ClassifyExisting(pair, db.mappings[pair].shareLinkId, rows);
            && (finding.None? <==> AnchorError(pair, link).None?)
            && (finding == FindingOf(AnchorError(pair, link)) <==>
                  link.status == ACTIVE || ContractFault(pair, link).None?)
            && finding != Some(SHARE_LINK_MISSING)
  {
    assert MappingSound(db, pair);
    LinkHasItsRow(db, rows, db.mappings[pair].shareLinkId);
  }

  /** A revoked link that also carries an expiry: the audit names the expiry, the runtime the revocation. */
  lemma AuditAndRuntimeCanDiffer()
    ensures var link := Link(1, 7, Some("a"), None, REVOKED, Some(5), None, 0, [2]);
            var mapping := Mapping(4, 3, "example.org", None, None);
            var db := Db({1}, map[3 := Domain(Some(1), true, true, 0, "example.org")],
                map[2 := Video(true, true, Evidence(0, false, false))],
                         {PAIR}, map[4 := link], map[PAIR := mapping], map[4 := PAIR], map[PAIR := Legacy], {});
            && DbSound(db) && IsSnapshot(db, [AuditRowOf(db, 4)])
            && ClassifyExisting(PAIR, 4, [AuditRowOf(db, 4)]) == Some(Structural(Fault.HAS_EXPIRY))
            && AnchorError(PAIR, link) == Some(LinkRevoked)
  {
    BlankIff("a");
  }

  // ---------------------------------------------------------------- summaries

  /** summarize, summarizeResolutions and summarizeExistingCanonical: one counter per key met. */
  method Summarize<Key(==)>(keys: seq<Key>) returns (summary: map<Key, nat>)
    ensures forall k :: k in summary <==> k in keys
    ensures forall k :: k in summary ==> summary[k] == multiset(keys)[k]
  {
    summary := map[];
    for i := 0 to |keys|
      invariant forall k :: k in summary <==> k in keys[..i]
      invariant forall k :: k in summary ==> summary[k] == multiset(keys[..i])[k]
    {
      assert keys[..i + 1] == keys[..i] + [keys[i]];
      summary := summary[keys[i] := (if keys[i] in summary then summary[keys[i]] else 0) + 1];
    }
    assert keys[..|keys|] == keys;
  }
}
