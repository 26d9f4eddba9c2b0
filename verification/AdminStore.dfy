/**
 The services themselves: each transaction as the statements it issues, in order, against rows held
 in fields. Every method is tied to the transaction function of AdminModel, about which AdminRuns
 proves the properties of whole runs.
 */
module AdminStore {
  import opened Wrappers
  import opened AdminModel
  import opened AdminRuns

  const MAX_ATTEMPTS := 3

  datatype RefreshResult = Rejected | Issued(adminId: AdminId, sessionId: SessionId)

  /** The read before the transaction: is this token worth rotating? */
  predicate ReadAccepts(db: Db, t: Token, now: Time) {
    && t.sessionId.Some? && t.sessionId.value in db.sessions
    && db.sessions[t.sessionId.value].revokedAt.None? && db.sessions[t.sessionId.value].expiresAt > now
    && t.expiresAt > now
    && t.adminId in db.admins && db.admins[t.adminId].Live()
  }

  /**
   One whole refresh call with nothing in between: the read, then the replay revocation or the
   rotation. (A rotation that loses a race is a `Rotate` followed by a `RevokeOne` in AdminRuns.)
   */
  function RefreshCall(db: Db, presented: TokenHash, token: TokenHash, now: Time, expiresAt: Time)
    : (Db, RefreshResult)
  {
    if presented !in db.tokens then (db, Rejected)
    else
      var t := db.tokens[presented];
      if t.revokedAt.Some? then
        (if t.sessionId.None? then db else Revoke(db, t.adminId, t.sessionId, now), Rejected)
      else if !ReadAccepts(db, t, now) then (db, Rejected)
      else
        var (after, rotation) := RotateTx(db, presented, t.adminId, t.sessionId.value, token, now, expiresAt);
        (after, if rotation == Rotated then Issued(t.adminId, t.sessionId.value) else Rejected)
  }

  /** A refresh succeeds exactly for a live, unexpired token whose session and admin are live too. */
  lemma RefreshSucceedsIff(db: Db, presented: TokenHash, token: TokenHash, now: Time, expiresAt: Time)
    requires Inv(db) && FreshToken(db, token)
    ensures RefreshCall(db, presented, token, now, expiresAt).1.Issued? <==>
              && presented in db.tokens && db.tokens[presented].revokedAt.None?
              && db.tokens[presented].sessionId.Some? && db.tokens[presented].expiresAt > now
  {
    if presented in db.tokens {
      assert TokenBacked(db, presented);
      if db.tokens[presented].revokedAt.None? && db.tokens[presented].sessionId.Some? {
        assert OpenedUnderCurrentCredentials(db, db.tokens[presented].sessionId.value);
      }
    }
  }

  /** After a successful refresh the new token is the session's only live one. */
  lemma RefreshReplacesTheToken(db: Db, presented: TokenHash, token: TokenHash, now: Time, expiresAt: Time)
    requires Inv(db) && FreshToken(db, token)
    requires RefreshCall(db, presented, token, now, expiresAt).1.Issued?
    ensures var (after, r) := RefreshCall(db, presented, token, now, expiresAt);
            && LiveTokenOf(after, token, r.sessionId)
            && (forall k :: LiveTokenOf(after, k, r.sessionId) ==> k == token)
            && after.sessions[r.sessionId].expiresAt == expiresAt
            && Inv(after)
  {
    var t := db.tokens[presented];
    var e := Rotate(presented, t.adminId, t.sessionId.value, token, now, expiresAt);
    RotateKeepsInv(db, e);
    assert LiveTokenOf(Step(db, e), token, t.sessionId.value);
  }

  /** Presenting the replaced token once more ends the session and the token that replaced it. */
  lemma ReplayKillsTheSession(db: Db, presented: TokenHash, token: TokenHash, now: Time, expiresAt: Time,
                              token': TokenHash, now': Time, expiresAt': Time)
    requires Inv(db) && FreshToken(db, token)
    requires RefreshCall(db, presented, token, now, expiresAt).1.Issued?
    ensures var (after, r) := RefreshCall(db, presented, token, now, expiresAt);
            var (last, r') := RefreshCall(after, presented, token', now', expiresAt');
            && r'.Rejected?
            && last.sessions[r.sessionId].revokedAt.Some?
            && last.tokens[token].revokedAt.Some?
            && forall k :: !LiveTokenOf(last, k, r.sessionId)
  {
    RefreshReplacesTheToken(db, presented, token, now, expiresAt);
    var (after, r) := RefreshCall(db, presented, token, now, expiresAt);
    assert TokenBacked(db, presented);
    RevokeKeepsInv(after, r.adminId, Some(r.sessionId), now');
    forall k
      ensures !LiveTokenOf(Revoke(after, r.adminId, Some(r.sessionId), now'), k, r.sessionId)
    {
      if k in after.tokens { assert TokenBacked(after, k); }
    }
  }

  /**
   Replaying a token exchanged earlier in a run ends its session as long as the token's row is kept. Once a
   clean-up has deleted it, the replay is a token nobody knows: refused, but without revoking anything.
   */
  lemma ReplayIsAnsweredIff(states: seq<Db>, events: seq<Event>, i: nat, j: nat, token: TokenHash, now: Time,
                            expiresAt: Time)
    requires IsRun(states, events) && Inv(states[0]) && i < |events| && i < j < |states|
    requires Rotates(states[i], events[i])
    ensures var h, row := events[i].presented, ExchangedRow(states[i], events[i]);
            var (after, r) := RefreshCall(states[j], h, token, now, expiresAt);
            && r.Rejected?
            && (if forall k :: i < k < j ==> !Forgets(states[k], events[k], h, row)
                then after == Revoke(states[j], row.adminId, row.sessionId, now) && Ended(after, row.sessionId.value)
                else after == states[j])
  {
    ExchangedTokenIsKnownIff(states, events, i, j);
    RunKeepsInv(states, events, j);
    var h := events[i].presented;
    if h in states[j].tokens { assert TokenBacked(states[j], h); }
  }

  const OnlyOwner := map[1 := Admin("owner", 5, OWNER, ACTIVE, false, None, None, 0)]
  const Registered := Db(OnlyOwner, map[], map[], map[], {5}, {})
  const SignedIn := Db(OnlyOwner, map[7 := Session(1, 1000, 0, None)], map[10 := Token(1, Some(7), 1000, None)],
                       map[7 := Opening(5, OWNER)], {5}, {10})
  const Exchanged := Db(OnlyOwner, map[7 := Session(1, 1060, 60, None)],
                        map[10 := Token(1, Some(7), 1000, Some(60)), 11 := Token(1, Some(7), 1060, None)],
                        map[7 := Opening(5, OWNER)], {5}, {10, 11})
  const Cleaned := Db(OnlyOwner, map[7 := Session(1, 1060, 60, None)], map[11 := Token(1, Some(7), 1060, None)],
                      map[7 := Opening(5, OWNER)], {5}, {10, 11})

  lemma OwnerSignsIn()
    ensures var e := Register(1, "owner", 5, 0); Fresh(EmptyDb, e) && Step(EmptyDb, e) == Registered
    ensures var e := Login(1, 5, 7, 10, 0, 1000); Fresh(Registered, e) && Step(Registered, e) == SignedIn
  {
    assert Step(Registered, Login(1, 5, 7, 10, 0, 1000)).admins == OnlyOwner;
  }

  lemma TokenIsExchanged()
    ensures var e := Rotate(10, 1, 7, 11, 60, 1060);
            Fresh(SignedIn, e) && Rotates(SignedIn, e) && Step(SignedIn, e) == Exchanged
  {
    var claimed := SignedIn.(tokens := map[10 := Token(1, Some(7), 1000, Some(60))]);
    assert Claimable(SignedIn, 10, 1, 7) && SessionUsable(claimed, 1, 7, 60);
    assert SignedIn.tokens[10 := Token(1, Some(7), 1000, Some(60))] == claimed.tokens;
    assert Step(SignedIn, Rotate(10, 1, 7, 11, 60, 1060)).tokens == Exchanged.tokens;
  }

  lemma TokenIsCleanedUp()
    ensures Step(Exchanged, CleanTokens({10}, 100)) == Cleaned
  {
    assert CleanTokensTx(Exchanged, {10}, 100).tokens == Cleaned.tokens;
  }

  /**
   A sign-in, an exchange at 60 and a clean-up with cutoff 100, before the session ends at 1060: replaying
   the exchanged token revokes nothing, and the token that replaced it stays live.
   */
  lemma ReplayCanBeForgotten(states: seq<Db>, events: seq<Event>)
    requires states == [EmptyDb, Registered, SignedIn, Exchanged, Cleaned]
    requires events == [Register(1, "owner", 5, 0), Login(1, 5, 7, 10, 0, 1000), Rotate(10, 1, 7, 11, 60, 1060),
                        CleanTokens({10}, 100)]
    ensures IsRun(states, events) && Rotates(states[2], events[2]) && events[2].presented == 10
    ensures RefreshCall(states[4], 10, 12, 110, 1110) == (states[4], Rejected)
    ensures LiveTokenOf(states[4], 11, 7) && states[4].sessions[7] == Session(1, 1060, 60, None)
  {
    OwnerSignsIn();
    TokenIsExchanged();
    TokenIsCleanedUp();
    forall k | 0 <= k < |events|
      ensures Fresh(states[k], events[k]) && states[k + 1] == Step(states[k], events[k])
    {
      if k == 0 {} else if k == 1 {} else if k == 2 {} else {}
    }
  }

  class AdminStore {
    var admins: map<AdminId, Admin>
    var sessions: map<SessionId, Session>
    var tokens: map<TokenHash, Token>
    ghost var openings: map<SessionId, Opening>
    ghost var usedHashes: set<PasswordHash>
    ghost var usedTokens: set<TokenHash>

    ghost function Rows(): Db
      reads this
    {
      Db(admins, sessions, tokens, openings, usedHashes, usedTokens)
    }

    constructor ()
      ensures Rows() == EmptyDb && Inv(Rows())
    {
      admins, sessions, tokens := map[], map[], map[];
      openings, usedHashes, usedTokens := map[], {}, {};
    }

    /** No session of this admin is left unrevoked, nor any token. */
    ghost predicate SignedOut(adminId: AdminId)
      reads this
    {
      && (forall s :: s in sessions && sessions[s].adminId == adminId ==> sessions[s].revokedAt.Some?)
      && (forall h :: h in tokens && tokens[h].adminId == adminId ==> tokens[h].revokedAt.Some?)
    }

    method RevokeRows(adminId: AdminId, session: Option<SessionId>, now: Time) returns (count: nat)
      modifies this
      ensures Rows() == Revoke(old(Rows()), adminId, session, now)
      ensures session.None? ==> SignedOut(adminId)
      ensures admins == old(admins) && sessions.Keys == old(sessions).Keys && tokens.Keys == old(tokens).Keys
      ensures forall s :: s in sessions ==>
                sessions[s] ==
                  if old(sessions)[s].adminId == adminId && old(sessions)[s].revokedAt.None?
                     && (session.None? || session == Some(s))
                  then old(sessions)[s].(revokedAt := Some(now)) else old(sessions)[s]
      ensures forall h :: h in tokens ==>
                tokens[h] ==
                  if old(tokens)[h].adminId == adminId && old(tokens)[h].revokedAt.None?
                     && (session.None? || session == old(tokens)[h].sessionId)
                  then old(tokens)[h].(revokedAt := Some(now)) else old(tokens)[h]
      ensures count == |set s | s in old(sessions) && SessionMatches(s, old(sessions)[s], adminId, session)|
    {
      tokens := map h | h in tokens ::
        if TokenMatches(tokens[h], adminId, session) then tokens[h].(revokedAt := Some(now)) else tokens[h];
      var matching := set s | s in sessions && SessionMatches(s, sessions[s], adminId, session);
      sessions := map s | s in sessions :: if s in matching then sessions[s].(revokedAt := Some(now)) else sessions[s];
      count := |matching|;
    }

    /** `aborts[k]` says that attempt k was aborted by a write conflict, which leaves the rows alone. */
    method CreateInitialOwner(id: AdminId, username: string, hash: PasswordHash, now: Time, aborts: seq<bool>)
      returns (outcome: Option<Outcome>)
      requires |aborts| == MAX_ATTEMPTS
      modifies this
      ensures outcome.None? <==> forall k :: 0 <= k < MAX_ATTEMPTS ==> aborts[k]
      ensures outcome.None? ==> Rows() == old(Rows())
      ensures outcome.Some? ==> (Rows(), outcome.value) == RegisterTx(old(Rows()), id, username, hash, now)
      ensures outcome == Some(Committed) ==>
                && old(admins) == map[]
                && admins == map[id := Admin(username, hash, OWNER, ACTIVE, false, None, None, now)]
    {
      var attempt := 0;
      while attempt < MAX_ATTEMPTS
        invariant 0 <= attempt <= MAX_ATTEMPTS
        invariant forall k :: 0 <= k < attempt ==> aborts[k]
        invariant Rows() == old(Rows())
      {
        if !aborts[attempt] {
          if |admins| > 0 {
            return Some(Refused(AlreadyInitialised));
          }
          admins := admins[id := Admin(username, hash, OWNER, ACTIVE, false, None, None, now)];
          usedHashes := usedHashes + {hash};
          return Some(Committed);
        }
        attempt := attempt + 1;
      }
      return None;
    }

    method CreateLoginTokens(adminId: AdminId, seenHash: PasswordHash, session: SessionId, token: TokenHash,
                             now: Time, expiresAt: Time) returns (outcome: Outcome)
      modifies this
      ensures (Rows(), outcome) == LoginTx(old(Rows()), adminId, seenHash, session, token, now, expiresAt)
      ensures outcome != Committed ==> Rows() == old(Rows())
      ensures outcome == Committed <==>
                && adminId in old(admins)
                && var was := old(admins)[adminId];
                   && was.passwordHash == seenHash && was.status == ACTIVE && was.deletedAt.None?
                   && !(was.mustChangePassword && was.temporaryPasswordExpiresAt.Some?
                       && was.temporaryPasswordExpiresAt.value <= now)
      ensures outcome == Refused(TemporaryPasswordExpired) <==>
                && outcome != Committed && adminId in old(admins) && old(admins)[adminId].passwordHash == seenHash
                && old(admins)[adminId].status == ACTIVE && old(admins)[adminId].deletedAt.None?
      ensures outcome in {Committed, Refused(TemporaryPasswordExpired), Refused(InvalidCredentials)}
      ensures outcome == Committed ==>
                && admins == old(admins)[adminId := old(admins)[adminId].(updatedAt := now)]
                && sessions == old(sessions)[session := Session(adminId, expiresAt, now, None)]
                && tokens == old(tokens)[token := Token(adminId, Some(session), expiresAt, None)]
    {
      if adminId !in admins { return Refused(InvalidCredentials); }
      var current := admins[adminId];
      if current.passwordHash != seenHash || current.status != ACTIVE || current.deletedAt.Some? {
        return Refused(InvalidCredentials);
      }
      if current.TemporaryPasswordExpired(now) { return Refused(TemporaryPasswordExpired); }
      admins := admins[adminId := current.(updatedAt := now)];
      sessions := sessions[session := Session(adminId, expiresAt, now, None)];
      tokens := tokens[token := Token(adminId, Some(session), expiresAt, None)];
      openings := openings[session := Opening(current.passwordHash, current.role)];
      usedTokens := usedTokens + {token};
      return Committed;
    }

    method RotateToken(presented: TokenHash, adminId: AdminId, session: SessionId, token: TokenHash,
                       now: Time, expiresAt: Time) returns (rotation: Rotation)
      modifies this
      ensures (Rows(), rotation) == RotateTx(old(Rows()), presented, adminId, session, token, now, expiresAt)
      ensures rotation != Replay <==>
                && presented in old(tokens) && old(tokens)[presented].revokedAt.None?
                && old(tokens)[presented].adminId == adminId && old(tokens)[presented].sessionId == Some(session)
      ensures rotation == Rotated <==>
                && rotation != Replay
                && adminId in old(admins) && old(admins)[adminId].status == ACTIVE
                && old(admins)[adminId].deletedAt.None?
                && session in old(sessions) && old(sessions)[session].adminId == adminId
                && old(sessions)[session].revokedAt.None? && now < old(sessions)[session].expiresAt
      ensures admins == old(admins)
      ensures rotation == Replay ==> Rows() == old(Rows())
      ensures rotation == Rotated ==>
                && sessions == old(sessions)[
                     session := old(sessions)[session].(lastUsedAt := now, expiresAt := expiresAt)]
                && tokens == old(tokens)[presented := old(tokens)[presented].(revokedAt := Some(now))][
                     token := Token(adminId, Some(session), expiresAt, None)]
      ensures rotation == Invalid ==>
                && (session in sessions && sessions[session].adminId == adminId ==> sessions[session].revokedAt.Some?)
                && forall h :: h in tokens && tokens[h].adminId == adminId && tokens[h].sessionId == Some(session) ==>
                     tokens[h].revokedAt.Some?
    {
      if presented !in tokens || !TokenMatches(tokens[presented], adminId, Some(session)) { return Replay; }
      tokens := tokens[presented := tokens[presented].(revokedAt := Some(now))];
      if adminId !in admins || !admins[adminId].Live()
         || session !in sessions || sessions[session].adminId != adminId
         || sessions[session].revokedAt.Some? || sessions[session].expiresAt <= now
      {
        var _ := RevokeRows(adminId, Some(session), now);
        return Invalid;
      }
      sessions := sessions[session := sessions[session].(lastUsedAt := now, expiresAt := expiresAt)];
      tokens := tokens[token := Token(adminId, Some(session), expiresAt, None)];
      usedTokens := usedTokens + {token};
      return Rotated;
    }

    method Refresh(presented: TokenHash, token: TokenHash, now: Time, expiresAt: Time) returns (result: RefreshResult)
      modifies this
      ensures (Rows(), result) == RefreshCall(old(Rows()), presented, token, now, expiresAt)
    {
      if presented !in tokens { return Rejected; }
      var existing := tokens[presented];
      if existing.revokedAt.Some? {
        if existing.sessionId.Some? {
          var _ := RevokeRows(existing.adminId, existing.sessionId, now);
        }
        return Rejected;
      }
      if existing.sessionId.None? { return Rejected; }
      var session := existing.sessionId.value;
      if session !in sessions || sessions[session].revokedAt.Some? || sessions[session].expiresAt <= now
         || existing.expiresAt <= now || existing.adminId !in admins || !admins[existing.adminId].Live()
      {
        return Rejected;
      }
      var rotation := RotateToken(presented, existing.adminId, session, token, now, expiresAt);
      return if rotation == Rotated then Issued(existing.adminId, session) else Rejected;
    }

    method ChangeOwnPassword(adminId: AdminId, seenHash: PasswordHash, hash: PasswordHash, now: Time)
      returns (outcome: Outcome)
      modifies this
      ensures (Rows(), outcome) == ChangePasswordTx(old(Rows()), adminId, seenHash, hash, now)
      ensures outcome == Committed ==> SignedOut(adminId)
      ensures outcome != Committed ==> Rows() == old(Rows())
      ensures outcome == Committed ==>
                && adminId in old(admins)
                && var was := old(admins)[adminId];
                   admins == old(admins)[adminId :=
                       Admin(was.username, hash, was.role, was.status, false, None, was.deletedAt, now)]
      ensures outcome == Committed <==>
                && adminId in old(admins) && old(admins)[adminId].passwordHash == seenHash
                && old(admins)[adminId].status == ACTIVE && old(admins)[adminId].deletedAt.None?
    {
      if adminId !in admins || admins[adminId].passwordHash != seenHash || !admins[adminId].Live() {
        return Refused(Unauthorized);
      }
      admins := admins[adminId := admins[adminId].(passwordHash := hash, mustChangePassword := false,
                                                   temporaryPasswordExpiresAt := None, updatedAt := now)];
      usedHashes := usedHashes + {hash};
      var _ := RevokeRows(adminId, None, now);
      return Committed;
    }

    /** recheckOwner, loadMutableTarget and ensureVersion, in that order. */
    method LoadMutableTarget(actor: ActorSnapshot, target: AdminId, expected: Option<Time>)
      returns (refusal: Option<Error>)
      ensures refusal == MutationRefusal(Rows(), actor, target, expected)
      ensures var verified := && actor.id in admins && admins[actor.id].passwordHash == actor.passwordHash
                              && admins[actor.id].role == OWNER && admins[actor.id].status == ACTIVE
                              && admins[actor.id].deletedAt == None;
              if !verified then refusal == Some(ConcurrentMutation)
              else if target !in admins then refusal == Some(AccountNotFound)
              else
                && (refusal == Some(SelfActionForbidden) <==> target == actor.id)
                && (refusal == Some(OwnerProtected) <==> target != actor.id && admins[target].role == OWNER)
                && (refusal == Some(AccountDeleted) <==>
                      admins[target].role != OWNER && admins[target].deletedAt != None)
                && (refusal == Some(ConcurrentMutation) <==>
                      && admins[target].role != OWNER && admins[target].deletedAt == None
                      && expected !in {None, Some(admins[target].updatedAt)})
                && (refusal == None <==>
                      && admins[target].role != OWNER && admins[target].deletedAt == None
                      && expected in {None, Some(admins[target].updatedAt)})
    {
      if actor.id !in admins { return Some(ConcurrentMutation); }
      var current := admins[actor.id];
      if current.passwordHash != actor.passwordHash || current.role != OWNER || !current.Live() {
        return Some(ConcurrentMutation);
      }
      if target !in admins { return Some(AccountNotFound); }
      if target == actor.id { return Some(SelfActionForbidden); }
      if admins[target].role == OWNER { return Some(OwnerProtected); }
      if admins[target].deletedAt.Some? { return Some(AccountDeleted); }
      if expected.Some? && admins[target].updatedAt != expected.value { return Some(ConcurrentMutation); }
      return None;
    }

    method Create(actor: ActorSnapshot, id: AdminId, username: string, role: Role, hash: PasswordHash,
                  temporaryUntil: Time, now: Time) returns (outcome: Outcome)
      modifies this
      ensures (Rows(), outcome) == CreateAccountTx(old(Rows()), actor, id, username, role, hash, temporaryUntil, now)
      ensures id !in old(admins) ==>
                (outcome == Committed <==>
                   && role != OWNER && OwnerStillVerified(old(Rows()), actor)
                   && forall a :: a in old(admins) ==> old(admins)[a].username != username)
      ensures outcome != Committed ==> Rows() == old(Rows())
      ensures outcome == Committed ==>
                && admins == old(admins)[id :=
                    Admin(username, hash, role, ACTIVE, true, Some(temporaryUntil), None, now)]
                && sessions == old(sessions) && tokens == old(tokens)
    {
      if id !in admins { CreationCommitsIff(Rows(), actor, id, username, role, hash, temporaryUntil, now); }
      if role == OWNER { return Refused(RoleNotAllowed); }
      if actor.id !in admins || admins[actor.id].passwordHash != actor.passwordHash
         || admins[actor.id].role != OWNER || !admins[actor.id].Live()
      {
        return Refused(ConcurrentMutation);
      }
      if exists a :: a in admins && admins[a].username == username { return Refused(UsernameTaken); }
      admins := admins[id := Admin(username, hash, role, ACTIVE, true, Some(temporaryUntil), None, now)];
      usedHashes := usedHashes + {hash};
      return Committed;
    }

    method ChangeRole(actor: ActorSnapshot, target: AdminId, role: Role, expected: Time, now: Time)
      returns (outcome: Outcome)
      modifies this
      ensures (Rows(), outcome) == ChangeRoleTx(old(Rows()), actor, target, role, expected, now)
      ensures outcome == Committed ==> SignedOut(target)
      ensures outcome == Committed <==>
                && role != OWNER && Authorised(old(Rows()), actor, target) && old(admins)[target].updatedAt == expected
                && old(admins)[target].role != role
      ensures outcome != Committed ==> Rows() == old(Rows())
      ensures outcome == Committed ==>
                && target in old(admins)
                && var was := old(admins)[target];
                   admins == old(admins)[target := was.(role := role, updatedAt := now)]
    {
      MutationsCommitIff(Rows(), actor, target, role, DISABLED, 0, 0, expected, now);
      if role == OWNER { return Refused(RoleNotAllowed); }
      var refusal := LoadMutableTarget(actor, target, Some(expected));
      if refusal.Some? { return Refused(refusal.value); }
      if admins[target].role == role { return Refused(AlreadyCurrent); }
      admins := admins[target := admins[target].(role := role, updatedAt := now)];
      var _ := RevokeRows(target, None, now);
      return Committed;
    }

    method ChangeStatus(actor: ActorSnapshot, target: AdminId, status: AccountStatus, expected: Time, now: Time)
      returns (outcome: Outcome)
      modifies this
      ensures (Rows(), outcome) == ChangeStatusTx(old(Rows()), actor, target, status, expected, now)
      ensures outcome == Committed && status == DISABLED ==> SignedOut(target)
      ensures outcome == Committed <==>
                && Authorised(old(Rows()), actor, target) && old(admins)[target].updatedAt == expected
                && old(admins)[target].status != status
      ensures outcome != Committed ==> Rows() == old(Rows())
      ensures outcome == Committed ==>
                && target in old(admins)
                && var was := old(admins)[target];
                   admins == old(admins)[target := was.(status := status, updatedAt := now)]
    {
      MutationsCommitIff(Rows(), actor, target, STAFF, status, 0, 0, expected, now);
      var refusal := LoadMutableTarget(actor, target, Some(expected));
      if refusal.Some? { return Refused(refusal.value); }
      if admins[target].status == status { return Refused(AlreadyCurrent); }
      admins := admins[target := admins[target].(status := status, updatedAt := now)];
      if status == DISABLED {
        var _ := RevokeRows(target, None, now);
      }
      return Committed;
    }

    method ResetPassword(actor: ActorSnapshot, target: AdminId, hash: PasswordHash, temporaryUntil: Time,
                         expected: Time, now: Time) returns (outcome: Outcome)
      modifies this
      ensures (Rows(), outcome) == ResetPasswordTx(old(Rows()), actor, target, hash, temporaryUntil, expected, now)
      ensures outcome == Committed ==> SignedOut(target)
      ensures outcome == Committed <==>
                Authorised(old(Rows()), actor, target) && old(admins)[target].updatedAt == expected
      ensures outcome != Committed ==> Rows() == old(Rows())
      ensures outcome == Committed ==>
                && target in old(admins)
                && var was := old(admins)[target];
                   admins == old(admins)[target :=
                       Admin(was.username, hash, was.role, was.status, true, Some(temporaryUntil), None, now)]
    {
      MutationsCommitIff(Rows(), actor, target, STAFF, DISABLED, hash, temporaryUntil, expected, now);
      var refusal := LoadMutableTarget(actor, target, Some(expected));
      if refusal.Some? { return Refused(refusal.value); }
      admins := admins[target := admins[target].(passwordHash := hash, mustChangePassword := true,
                                                 temporaryPasswordExpiresAt := Some(temporaryUntil), updatedAt := now)];
      usedHashes := usedHashes + {hash};
      var _ := RevokeRows(target, None, now);
      return Committed;
    }

    method Delete(actor: ActorSnapshot, target: AdminId, confirm: string, activeUploads: nat, hash: PasswordHash,
                  expected: Time, now: Time) returns (outcome: Outcome)
      modifies this
      ensures (Rows(), outcome) == DeleteTx(old(Rows()), actor, target, confirm, activeUploads, hash, expected, now)
      ensures outcome == Committed ==> SignedOut(target)
      ensures outcome == Committed <==>
                && Authorised(old(Rows()), actor, target) && old(admins)[target].updatedAt == expected
                && old(admins)[target].username == confirm && old(admins)[target].status == DISABLED
                && activeUploads == 0
      ensures outcome != Committed ==> Rows() == old(Rows())
      ensures outcome == Committed ==>
                && target in old(admins)
                && var was := old(admins)[target];
                   admins == old(admins)[target :=
                       Admin(was.username, hash, was.role, DISABLED, false, None, Some(now), now)]
    {
      DeletionCommitsIff(Rows(), actor, target, confirm, activeUploads, hash, expected, now);
      var refusal := LoadMutableTarget(actor, target, Some(expected));
      if refusal.Some? { return Refused(refusal.value); }
      if confirm != admins[target].username { return Refused(ConfirmationFailed); }
      if admins[target].status != DISABLED { return Refused(StillActive); }
      if activeUploads > 0 { return Refused(ActiveUploads); }
      admins := admins[target := admins[target].(status := DISABLED, deletedAt := Some(now), passwordHash := hash,
                                                 mustChangePassword := false, temporaryPasswordExpiresAt := None,
                                                 updatedAt := now)];
      usedHashes := usedHashes + {hash};
      var _ := RevokeRows(target, None, now);
      return Committed;
    }
  }
}
