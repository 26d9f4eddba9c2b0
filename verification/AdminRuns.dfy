/**
 Every interleaving of the account and session transactions: a run is a sequence of committed
 transactions, each with whatever stale values its caller happened to hold.
 */
module AdminRuns {
  import opened Wrappers
  import opened AdminModel

  datatype Event =
    | Register(id: AdminId, username: string, hash: PasswordHash, now: Time)
    | Login(adminId: AdminId, seenHash: PasswordHash, session: SessionId, token: TokenHash, now: Time, expiresAt: Time)
    | Rotate(presented: TokenHash, adminId: AdminId, session: SessionId, token: TokenHash, now: Time, expiresAt: Time)
    | RevokeOne(adminId: AdminId, session: SessionId, now: Time)
    | ChangePassword(adminId: AdminId, seenHash: PasswordHash, hash: PasswordHash, now: Time)
    | CreateAccount(actor: ActorSnapshot, id: AdminId, username: string, role: Role, hash: PasswordHash,
                    temporaryUntil: Time, now: Time)
    | ChangeRole(actor: ActorSnapshot, target: AdminId, role: Role, expected: Time, now: Time)
    | ChangeStatus(actor: ActorSnapshot, target: AdminId, status: AccountStatus, expected: Time, now: Time)
    | RevokeAll(actor: ActorSnapshot, target: AdminId, now: Time)
    | ResetPassword(actor: ActorSnapshot, target: AdminId, hash: PasswordHash, temporaryUntil: Time, expected: Time,
                    now: Time)
    | Delete(actor: ActorSnapshot, target: AdminId, confirm: string, activeUploads: nat, hash: PasswordHash,
             expected: Time, now: Time)
    | CleanTokens(tokenBatch: set<TokenHash>, cutoff: Time)
    | CleanSessions(sessionBatch: set<SessionId>, cutoff: Time)

  predicate FreshSession(db: Db, s: SessionId) { s !in db.sessions && s !in db.openings }

  predicate FreshToken(db: Db, h: TokenHash) { h !in db.tokens && h !in db.usedTokens }

  /** Random identifiers and salted hashes never repeat; nothing is asked of the stale values. */
  predicate Fresh(db: Db, e: Event) {
    match e
    case Register(id, _, hash, _) => id !in db.admins && hash !in db.usedHashes
    case Login(_, _, session, token, _, _) => FreshSession(db, session) && FreshToken(db, token)
    case Rotate(_, _, _, token, _, _) => FreshToken(db, token)
    case ChangePassword(_, _, hash, _) => hash !in db.usedHashes
    case CreateAccount(_, id, _, _, hash, _, _) => id !in db.admins && hash !in db.usedHashes
    case ResetPassword(_, _, hash, _, _, _) => hash !in db.usedHashes
    case Delete(_, _, _, _, hash, _, _) => hash !in db.usedHashes
    case _ => true
  }

  function Step(db: Db, e: Event): Db {
    match e
    case Register(id, username, hash, now) => RegisterTx(db, id, username, hash, now).0
    case Login(a, seen, session, token, now, expiresAt) => LoginTx(db, a, seen, session, token, now, expiresAt).0
    case Rotate(p, a, session, token, now, expiresAt) => RotateTx(db, p, a, session, token, now, expiresAt).0
    case RevokeOne(a, session, now) => Revoke(db, a, Some(session), now)
    case ChangePassword(a, seen, hash, now) => ChangePasswordTx(db, a, seen, hash, now).0
    case CreateAccount(actor, id, username, role, hash, until, now) =>
      CreateAccountTx(db, actor, id, username, role, hash, until, now).0
    case ChangeRole(actor, target, role, expected, now) => ChangeRoleTx(db, actor, target, role, expected, now).0
    case ChangeStatus(actor, target, status, expected, now) =>
        ChangeStatusTx(db, actor, target, status, expected, now).0
    case RevokeAll(actor, target, now) => RevokeAllTx(db, actor, target, now).0
    case ResetPassword(actor, target, hash, until, expected, now) =>
      ResetPasswordTx(db, actor, target, hash, until, expected, now).0
    case Delete(actor, target, confirm, uploads, hash, expected, now) =>
      DeleteTx(db, actor, target, confirm, uploads, hash, expected, now).0
    case CleanTokens(batch, cutoff) => CleanTokensTx(db, batch, cutoff)
    case CleanSessions(batch, cutoff) => CleanSessionsTx(db, batch, cutoff)
  }

  predicate Rotates(db: Db, e: Event) {
    e.Rotate? && RotateTx(db, e.presented, e.adminId, e.session, e.token, e.now, e.expiresAt).1 == Rotated
  }

  ghost predicate IsRun(states: seq<Db>, events: seq<Event>) {
    && |states| == |events| + 1
    && forall i :: 0 <= i < |events| ==> Fresh(states[i], events[i]) && states[i + 1] == Step(states[i], events[i])
  }

  const EmptyDb := Db(map[], map[], map[], map[], {}, {})

  // ---------------------------------------------------------------- invariants

  ghost predicate AccountsSound(db: Db) {
    && (forall a :: a in db.admins ==> db.admins[a].passwordHash in db.usedHashes)
    && (forall a :: a in db.admins && db.admins[a].role == OWNER ==> db.admins[a].Live())
    && (forall a, b :: a in db.admins && b in db.admins && db.admins[a].role == OWNER && db.admins[b].role == OWNER ==>
          a == b)
  }

  /** The session belongs to a live admin and was opened under its current hash and role. */
  predicate OpenedUnderCurrentCredentials(db: Db, s: SessionId)
    requires s in db.sessions
  {
    var a := db.sessions[s].adminId;
    && a in db.admins && db.admins[a].Live()
    && s in db.openings && db.openings[s] == Opening(db.admins[a].passwordHash, db.admins[a].role)
  }

  ghost predicate SessionsCurrent(db: Db) {
    forall s :: s in db.sessions && db.sessions[s].revokedAt.None? ==> OpenedUnderCurrentCredentials(db, s)
  }

  /** What one unrevoked token promises about its session. */
  predicate TokenBacked(db: Db, h: TokenHash)
    requires h in db.tokens
  {
    var t := db.tokens[h];
    t.sessionId.Some? ==>
      && t.sessionId.value in db.sessions
      && db.sessions[t.sessionId.value].adminId == t.adminId
      && (t.revokedAt.None? ==>
            db.sessions[t.sessionId.value].revokedAt.None? && db.sessions[t.sessionId.value].expiresAt == t.expiresAt)
  }

  predicate LiveTokenOf(db: Db, h: TokenHash, s: SessionId) {
    h in db.tokens && db.tokens[h].sessionId == Some(s) && db.tokens[h].revokedAt.None?
  }

  ghost predicate TokensSound(db: Db) {
    && (forall h :: h in db.tokens ==> TokenBacked(db, h))
    && (forall h, k, s :: LiveTokenOf(db, h, s) && LiveTokenOf(db, k, s) ==> h == k)
  }

  /** The history knows every row there is. */
  predicate Recorded(db: Db) {
    db.tokens.Keys <= db.usedTokens && db.sessions.Keys <= db.openings.Keys
  }

  ghost predicate Inv(db: Db) {
    AccountsSound(db) && SessionsCurrent(db) && TokensSound(db) && Recorded(db)
  }

  // ---------------------------------------------------------------- one transaction keeps the invariant

  /** What every transaction but a sign-in or a rotation does to sessions and tokens: revoke some. */
  ghost predicate OnlyRevokes(db: Db, after: Db) {
    && after.openings == db.openings && after.usedTokens == db.usedTokens
    && after.sessions.Keys == db.sessions.Keys
    && (forall s :: s in db.sessions ==>
          after.sessions[s] == db.sessions[s]
          || (after.sessions[s].adminId == db.sessions[s].adminId && after.sessions[s].revokedAt.Some?))
    && after.tokens.Keys == db.tokens.Keys
    && (forall h :: h in db.tokens ==>
          after.tokens[h] == db.tokens[h]
          || (after.tokens[h] == db.tokens[h].(revokedAt := after.tokens[h].revokedAt)
              && after.tokens[h].revokedAt.Some?))
    && (forall h, s :: LiveTokenOf(after, h, s) && s in db.sessions ==> after.sessions[s] == db.sessions[s])
  }

  /** Revoking sessions and tokens is safe if the sessions left alone still match their admin's row. */
  lemma RevokingKeepsInv(db: Db, after: Db)
    requires Inv(db) && AccountsSound(after) && OnlyRevokes(db, after)
    requires forall s :: s in db.sessions && OpenedUnderCurrentCredentials(db, s) && after.sessions[s].revokedAt.None?
                         ==> OpenedUnderCurrentCredentials(after, s)
    ensures Inv(after)
  {
    forall s | s in after.sessions && after.sessions[s].revokedAt.None?
      ensures OpenedUnderCurrentCredentials(after, s)
    {
      assert OpenedUnderCurrentCredentials(db, s);
    }
    forall h | h in after.tokens
      ensures TokenBacked(after, h)
    {
      assert TokenBacked(db, h);
      if after.tokens[h].sessionId.Some? && after.tokens[h].revokedAt.None? {
        assert LiveTokenOf(after, h, after.tokens[h].sessionId.value);
      }
    }
    forall h, k, s | LiveTokenOf(after, h, s) && LiveTokenOf(after, k, s)
      ensures h == k
    {
      assert LiveTokenOf(db, h, s) && LiveTokenOf(db, k, s);
    }
  }

  lemma RevokeOnlyRevokes(db: Db, a: AdminId, session: Option<SessionId>, now: Time)
    requires TokensSound(db)
    ensures OnlyRevokes(db, Revoke(db, a, session, now))
  {
    var after := Revoke(db, a, session, now);
    forall h, s | LiveTokenOf(after, h, s) && s in db.sessions
      ensures after.sessions[s] == db.sessions[s]
    {
      assert TokenBacked(db, h);
    }
  }

  /** A revocation stamps the live rows of that account, of one session or of all, and nothing else. */
  lemma RevokeIsExact(db: Db, a: AdminId, session: Option<SessionId>, now: Time)
    ensures var after := Revoke(db, a, session, now);
            && after == db.(sessions := after.sessions, tokens := after.tokens)
            && after.sessions.Keys == db.sessions.Keys && after.tokens.Keys == db.tokens.Keys
            && (forall s :: s in db.sessions ==>
                  after.sessions[s] ==
                    if db.sessions[s].adminId == a && db.sessions[s].revokedAt.None?
                        && (session.None? || session == Some(s))
                    then db.sessions[s].(revokedAt := Some(now)) else db.sessions[s])
            && (forall h :: h in db.tokens ==>
                  after.tokens[h] ==
                    if db.tokens[h].adminId == a && db.tokens[h].revokedAt.None?
                       && (session.None? || session == db.tokens[h].sessionId)
                    then db.tokens[h].(revokedAt := Some(now)) else db.tokens[h])
  {
  }

  lemma RevokeKeepsInv(db: Db, a: AdminId, session: Option<SessionId>, now: Time)
    requires Inv(db)
    ensures Inv(Revoke(db, a, session, now))
  {
    RevokeOnlyRevokes(db, a, session, now);
    RevokingKeepsInv(db, Revoke(db, a, session, now));
  }

  /** Rewriting one row is harmless once every session of that admin is revoked. */
  lemma RewriteThenRevoke(db: Db, a: AdminId, row: Admin, used: set<PasswordHash>, now: Time)
    requires Inv(db) && a in db.admins
    requires row.passwordHash in used && db.usedHashes <= used
    requires row.role == OWNER ==> db.admins[a].role == OWNER && row.Live()
    ensures Inv(Revoke(db.(admins := db.admins[a := row], usedHashes := used), a, None, now))
  {
    RevokeOnlyRevokes(db, a, None, now);
    RevokingKeepsInv(db, Revoke(db.(admins := db.admins[a := row], usedHashes := used), a, None, now));
  }

  lemma LoginKeepsInv(db: Db, e: Event)
    requires Inv(db) && e.Login? && Fresh(db, e)
    ensures Inv(Step(db, e))
  {
    var after := Step(db, e);
    forall s | s in after.sessions && after.sessions[s].revokedAt.None?
      ensures OpenedUnderCurrentCredentials(after, s)
    {
      if s in db.sessions { assert OpenedUnderCurrentCredentials(db, s); }
    }
    forall h | h in after.tokens
      ensures TokenBacked(after, h)
    {
      if h in db.tokens { assert TokenBacked(db, h); }
    }
    forall h, k, s | LiveTokenOf(after, h, s) && LiveTokenOf(after, k, s)
      ensures h == k
    {
      if h in db.tokens { assert TokenBacked(db, h); }
      if k in db.tokens { assert TokenBacked(db, k); }
      if h in db.tokens && k in db.tokens { assert LiveTokenOf(db, h, s) && LiveTokenOf(db, k, s); }
    }
  }

  /** Claiming a token leaves its session without any live token. */
  lemma ClaimKeepsInv(db: Db, presented: TokenHash, a: AdminId, session: SessionId, now: Time) returns (claimed: Db)
    requires Inv(db) && Claimable(db, presented, a, session)
    ensures claimed == db.(tokens := db.tokens[presented := db.tokens[presented].(revokedAt := Some(now))])
    ensures Inv(claimed)
    ensures forall h :: !LiveTokenOf(claimed, h, session)
  {
    claimed := db.(tokens := db.tokens[presented := db.tokens[presented].(revokedAt := Some(now))]);
    RevokingKeepsInv(db, claimed);
    forall h
      ensures !LiveTokenOf(claimed, h, session)
    {
      assert LiveTokenOf(db, presented, session);
      if LiveTokenOf(claimed, h, session) { assert LiveTokenOf(db, h, session); }
    }
  }

  lemma RotateKeepsInv(db: Db, e: Event)
    requires Inv(db) && e.Rotate? && Fresh(db, e)
    ensures Inv(Step(db, e))
  {
    if Claimable(db, e.presented, e.adminId, e.session) {
      var claimed := ClaimKeepsInv(db, e.presented, e.adminId, e.session, e.now);
      if !SessionUsable(claimed, e.adminId, e.session, e.now) {
        RevokeKeepsInv(claimed, e.adminId, Some(e.session), e.now);
      } else {
        var after := Step(db, e);
        forall s | s in after.sessions && after.sessions[s].revokedAt.None?
          ensures OpenedUnderCurrentCredentials(after, s)
        {
          assert OpenedUnderCurrentCredentials(claimed, s);
        }
        forall h | h in after.tokens
          ensures TokenBacked(after, h)
        {
          if h in claimed.tokens {
            assert TokenBacked(claimed, h);
            assert !LiveTokenOf(claimed, h, e.session);
          }
        }
        forall h, k, s | LiveTokenOf(after, h, s) && LiveTokenOf(after, k, s)
          ensures h == k
        {
          if h != e.token { assert LiveTokenOf(claimed, h, s); }
          if k != e.token { assert LiveTokenOf(claimed, k, s); }
        }
      }
    }
  }

  /** Inserting an account changes nothing that a session or token refers to. */
  lemma InsertAccountKeepsInv(db: Db, id: AdminId, row: Admin)
    requires Inv(db) && id !in db.admins
    requires row.role == OWNER ==> db.admins == map[] && row.Live()
    ensures Inv(db.(admins := db.admins[id := row], usedHashes := db.usedHashes + {row.passwordHash}))
  {
    RevokingKeepsInv(db, db.(admins := db.admins[id := row], usedHashes := db.usedHashes + {row.passwordHash}));
  }

  /** Re-activating a disabled account revokes nothing, and needs not to: it has no live session. */
  lemma ActivateKeepsInv(db: Db, a: AdminId, now: Time)
    requires Inv(db) && a in db.admins && db.admins[a].role != OWNER && db.admins[a].status == DISABLED
    ensures Inv(db.(admins := db.admins[a := db.admins[a].(status := ACTIVE, updatedAt := now)]))
  {
    RevokingKeepsInv(db, db.(admins := db.admins[a := db.admins[a].(status := ACTIVE, updatedAt := now)]));
  }

  /** Deleting rows is harmless: what is left is unchanged, and no token outlives its session. */
  lemma CleanUpKeepsInv(db: Db, e: Event)
    requires Inv(db) && (e.CleanTokens? || e.CleanSessions?)
    ensures Inv(Step(db, e))
  {
    var after := Step(db, e);
    forall s | s in after.sessions && after.sessions[s].revokedAt.None?
      ensures OpenedUnderCurrentCredentials(after, s)
    {
      assert OpenedUnderCurrentCredentials(db, s);
    }
    forall h | h in after.tokens
      ensures TokenBacked(after, h)
    {
      assert TokenBacked(db, h);
    }
    forall h, k, s | LiveTokenOf(after, h, s) && LiveTokenOf(after, k, s)
      ensures h == k
    {
      assert LiveTokenOf(db, h, s) && LiveTokenOf(db, k, s);
    }
  }

  lemma StepKeepsInv(db: Db, e: Event)
    requires Inv(db) && Fresh(db, e)
    ensures Inv(Step(db, e))
  {
    match e
    case Register(id, username, hash, now) =>
      if |db.admins| == 0 {
        assert db.admins == map[];
        InsertAccountKeepsInv(db, id, Admin(username, hash, OWNER, ACTIVE, false, None, None, now));
      }
    case Login(_, _, _, _, _, _) => LoginKeepsInv(db, e);
    case Rotate(_, _, _, _, _, _) => RotateKeepsInv(db, e);
    case RevokeOne(a, session, now) => RevokeKeepsInv(db, a, Some(session), now);
    case ChangePassword(a, seen, hash, now) =>
      if ChangePasswordTx(db, a, seen, hash, now).1 == Committed {
        RewriteThenRevoke(db, a, WithPassword(db.admins[a], hash, None, now), db.usedHashes + {hash}, now);
      }
    case CreateAccount(actor, id, username, role, hash, until, now) =>
      if CreateAccountTx(db, actor, id, username, role, hash, until, now).1 == Committed {
        InsertAccountKeepsInv(db, id, Admin(username, hash, role, ACTIVE, true, Some(until), None, now));
      }
    case ChangeRole(actor, target, role, expected, now) =>
      if ChangeRoleTx(db, actor, target, role, expected, now).1 == Committed {
        RewriteThenRevoke(db, target, db.admins[target].(role := role, updatedAt := now), db.usedHashes, now);
      }
    case ChangeStatus(actor, target, status, expected, now) =>
      if ChangeStatusTx(db, actor, target, status, expected, now).1 == Committed {
        if status == DISABLED {
          RewriteThenRevoke(db, target, db.admins[target].(status := status, updatedAt := now), db.usedHashes, now);
        } else {
          ActivateKeepsInv(db, target, now);
        }
      }
    case RevokeAll(_, target, now) => RevokeKeepsInv(db, target, None, now);
    case ResetPassword(actor, target, hash, until, expected, now) =>
      if ResetPasswordTx(db, actor, target, hash, until, expected, now).1 == Committed {
        RewriteThenRevoke(db, target, WithPassword(db.admins[target], hash, Some(until), now), db.usedHashes + {hash},
            now);
      }
    case Delete(actor, target, confirm, uploads, hash, expected, now) =>
      if DeleteTx(db, actor, target, confirm, uploads, hash, expected, now).1 == Committed {
        RewriteThenRevoke(db, target, DeletedRow(db.admins[target], hash, now), db.usedHashes + {hash}, now);
      }
    case CleanTokens(_, _) => CleanUpKeepsInv(db, e);
    case CleanSessions(_, _) => CleanUpKeepsInv(db, e);
  }

  // ---------------------------------------------------------------- every run

  lemma {:induction false} RunKeepsInv(states: seq<Db>, events: seq<Event>, i: nat)
    requires IsRun(states, events) && Inv(states[0]) && i < |states|
    ensures Inv(states[i])
  {
    if i > 0 {
      RunKeepsInv(states, events, i - 1);
      StepKeepsInv(states[i - 1], events[i - 1]);
    }
  }

  /**
   An unrevoked session belongs to a live admin and was opened under the password hash and the role
   that admin has now, whatever stale values any request held.
   */
  lemma UnrevokedSessionsAreCurrent(states: seq<Db>, events: seq<Event>, i: nat, s: SessionId)
    requires IsRun(states, events) && Inv(states[0]) && i < |states|
    requires s in states[i].sessions && states[i].sessions[s].revokedAt.None?
    ensures var a := states[i].sessions[s].adminId;
            && a in states[i].admins
            && states[i].admins[a].status == ACTIVE && states[i].admins[a].deletedAt.None?
            && s in states[i].openings
            && states[i].openings[s].passwordHash == states[i].admins[a].passwordHash
            && states[i].openings[s].role == states[i].admins[a].role
  {
    RunKeepsInv(states, events, i);
    assert OpenedUnderCurrentCredentials(states[i], s);
  }

  /** A live token's session is live with the same admin and expiry, and has no second live token. */
  lemma LiveTokenOwnsItsSession(states: seq<Db>, events: seq<Event>, i: nat, h: TokenHash, s: SessionId)
    requires IsRun(states, events) && Inv(states[0]) && i < |states|
    requires LiveTokenOf(states[i], h, s)
    ensures s in states[i].sessions && states[i].sessions[s].revokedAt.None?
    ensures states[i].sessions[s].adminId == states[i].tokens[h].adminId
    ensures states[i].sessions[s].expiresAt == states[i].tokens[h].expiresAt
    ensures forall k :: LiveTokenOf(states[i], k, s) ==> k == h
  {
    RunKeepsInv(states, events, i);
    assert TokenBacked(states[i], h);
  }

  /** The session existed and is revoked, or its row is gone. */
  predicate Ended(db: Db, s: SessionId) {
    s in db.openings && (s in db.sessions ==> db.sessions[s].revokedAt.Some?)
  }

  /** The token was issued and is revoked, or its row is gone. */
  predicate Spent(db: Db, h: TokenHash) {
    h in db.usedTokens && (h in db.tokens ==> db.tokens[h].revokedAt.Some?)
  }

  /** Nothing comes back to life; the rows that are left keep their owner, and revoked tokens do not change at all. */
  ghost predicate KeepsRevocations(before: Db, after: Db) {
    && before.usedTokens <= after.usedTokens && before.openings.Keys <= after.openings.Keys
    && (forall h :: h in after.tokens && h in before.usedTokens ==>
          && h in before.tokens
          && after.tokens[h] == before.tokens[h].(revokedAt := after.tokens[h].revokedAt)
          && (before.tokens[h].revokedAt.Some? ==> after.tokens[h] == before.tokens[h]))
    && (forall s :: s in after.sessions && s in before.openings ==>
          && s in before.sessions
          && after.sessions[s].adminId == before.sessions[s].adminId
          && (before.sessions[s].revokedAt.Some? ==> after.sessions[s].revokedAt.Some?))
  }

  lemma RevokeKeepsRevocations(db: Db, admins: map<AdminId, Admin>, used: set<PasswordHash>,
                               a: AdminId, session: Option<SessionId>, now: Time)
    requires Recorded(db)
    ensures KeepsRevocations(db, Revoke(db.(admins := admins, usedHashes := used), a, session, now))
  {
  }

  lemma KeepsRevocationsTransitive(x: Db, y: Db, z: Db)
    requires KeepsRevocations(x, y) && KeepsRevocations(y, z)
    ensures KeepsRevocations(x, z)
  {
    forall h | h in z.tokens && h in x.usedTokens
      ensures h in y.tokens && h in x.tokens
    {
    }
    forall s | s in z.sessions && s in x.openings
      ensures s in y.sessions && s in x.sessions
    {
    }
  }

  lemma RotateKeepsRevocations(db: Db, e: Event)
    requires Recorded(db) && e.Rotate? && Fresh(db, e)
    ensures KeepsRevocations(db, Step(db, e)) && Recorded(Step(db, e))
  {
    if Claimable(db, e.presented, e.adminId, e.session) {
      var claimed := db.(tokens := db.tokens[e.presented := db.tokens[e.presented].(revokedAt := Some(e.now))]);
      assert KeepsRevocations(db, claimed);
      if !SessionUsable(claimed, e.adminId, e.session, e.now) {
        RevokeKeepsRevocations(claimed, claimed.admins, claimed.usedHashes, e.adminId, Some(e.session), e.now);
      }
      KeepsRevocationsTransitive(db, claimed, Step(db, e));
    }
  }

  /** A new password, whoever sets it, comes with a bulk revocation. */
  lemma PasswordKeepsRevocations(db: Db, e: Event)
    requires Recorded(db) && (e.ChangePassword? || e.ResetPassword? || e.Delete?)
    ensures KeepsRevocations(db, Step(db, e)) && Recorded(Step(db, e))
  {
    var after := Step(db, e);
    if after != db {
      var target := if e.ChangePassword? then e.adminId else e.target;
      assert after == Revoke(db.(admins := after.admins, usedHashes := after.usedHashes), target, None, e.now);
      RevokeKeepsRevocations(db, after.admins, after.usedHashes, target, None, e.now);
    }
  }

  lemma MutationKeepsRevocations(db: Db, e: Event)
    requires Recorded(db) && (e.ChangeRole? || e.ChangeStatus? || e.RevokeAll?)
    ensures KeepsRevocations(db, Step(db, e)) && Recorded(Step(db, e))
  {
    var after := Step(db, e);
    if after != db && !(e.ChangeStatus? && e.status == ACTIVE) {
      assert after == Revoke(db.(admins := after.admins), e.target, None, e.now);
      RevokeKeepsRevocations(db, after.admins, db.usedHashes, e.target, None, e.now);
    }
  }

  lemma StepKeepsRevocations(db: Db, e: Event)
    requires Recorded(db) && Fresh(db, e)
    ensures KeepsRevocations(db, Step(db, e)) && Recorded(Step(db, e))
  {
    match e
    case Register(_, _, _, _) =>
    case Login(_, _, _, _, _, _) =>
    case CreateAccount(_, _, _, _, _, _, _) =>
    case CleanTokens(_, _) =>
    case CleanSessions(_, _) =>
    case Rotate(_, _, _, _, _, _) => RotateKeepsRevocations(db, e);
    case RevokeOne(a, session, now) => RevokeKeepsRevocations(db, db.admins, db.usedHashes, a, Some(session), now);
    case ChangeRole(_, _, _, _, _) => MutationKeepsRevocations(db, e);
    case ChangeStatus(_, _, _, _, _) => MutationKeepsRevocations(db, e);
    case RevokeAll(_, _, _) => MutationKeepsRevocations(db, e);
    case _ => PasswordKeepsRevocations(db, e);
  }

  /** Revocation is permanent, for tokens and for sessions, whether or not their rows are kept. */
  lemma {:induction false} RevocationIsPermanent(states: seq<Db>, events: seq<Event>, i: nat, j: nat)
    requires IsRun(states, events) && Recorded(states[0]) && i <= j < |states|
    ensures Recorded(states[i]) && KeepsRevocations(states[i], states[j])
    ensures forall h :: Spent(states[i], h) ==> Spent(states[j], h)
    ensures forall s :: Ended(states[i], s) ==> Ended(states[j], s)
    decreases j, i
  {
    if i < j {
      RevocationIsPermanent(states, events, i, j - 1);
      RevocationIsPermanent(states, events, j - 1, j - 1);
      StepKeepsRevocations(states[j - 1], events[j - 1]);
      KeepsRevocationsTransitive(states[i], states[j - 1], states[j]);
    } else if i > 0 {
      RevocationIsPermanent(states, events, i - 1, i - 1);
      StepKeepsRevocations(states[i - 1], events[i - 1]);
    }
  }

  /** One token value is exchanged successfully at most once. */
  lemma TokenRotatesAtMostOnce(states: seq<Db>, events: seq<Event>, i: nat, j: nat)
    requires IsRun(states, events) && Recorded(states[0]) && i < j < |events|
    requires Rotates(states[i], events[i]) && Rotates(states[j], events[j])
    ensures events[i].presented != events[j].presented
  {
    RevocationIsPermanent(states, events, i, i);
    RevocationIsPermanent(states, events, i + 1, j);
    assert Spent(states[i + 1], events[i].presented);
  }

  /** Once a replay's revocation commits, no token of that session is exchanged again, and none is live. */
  lemma ReplayRevocationIsFinal(states: seq<Db>, events: seq<Event>, i: nat, j: nat)
    requires IsRun(states, events) && Inv(states[0]) && i < j < |states|
    requires events[i].RevokeOne? && events[i].session in states[i].sessions
    requires states[i].sessions[events[i].session].adminId == events[i].adminId
    ensures forall h :: !LiveTokenOf(states[j], h, events[i].session)
    ensures j < |events| && Rotates(states[j], events[j]) ==> events[j].session != events[i].session
  {
    RunKeepsInv(states, events, i);
    assert Ended(states[i + 1], events[i].session);
    RevocationIsPermanent(states, events, i + 1, j);
    RunKeepsInv(states, events, j);
    forall h
      ensures !LiveTokenOf(states[j], h, events[i].session)
    {
      if h in states[j].tokens { assert TokenBacked(states[j], h); }
    }
  }

  /** The change takes away what `a`'s sessions were opened under, or the account itself. */
  predicate EndsSessionsOf(db: Db, e: Event, a: AdminId) {
    match e
    case ChangePassword(id, seen, hash, now) => id == a && ChangePasswordTx(db, id, seen, hash, now).1 == Committed
    case ChangeRole(actor, target, role, expected, now) =>
      target == a && ChangeRoleTx(db, actor, target, role, expected, now).1 == Committed
    case ChangeStatus(actor, target, status, expected, now) =>
      target == a && status == DISABLED && ChangeStatusTx(db, actor, target, status, expected, now).1 == Committed
    case RevokeAll(actor, target, now) => target == a && RevokeAllTx(db, actor, target, now).1 == Committed
    case ResetPassword(actor, target, hash, until, expected, now) =>
      target == a && ResetPasswordTx(db, actor, target, hash, until, expected, now).1 == Committed
    case Delete(actor, target, confirm, uploads, hash, expected, now) =>
      target == a && DeleteTx(db, actor, target, confirm, uploads, hash, expected, now).1 == Committed
    case _ => false
  }

  /**
   A committed password change, reset, role change, disabling, deletion or revocation of all sessions ends
   every session the account had, for good: none of their tokens is live or rotates from then on.
   */
  lemma ChangeEndsEverySession(states: seq<Db>, events: seq<Event>, i: nat, j: nat, s: SessionId)
    requires IsRun(states, events) && Inv(states[0]) && i < |events| && i < j < |states|
    requires s in states[i].sessions && EndsSessionsOf(states[i], events[i], states[i].sessions[s].adminId)
    ensures Ended(states[j], s)
    ensures forall h :: !LiveTokenOf(states[j], h, s)
    ensures j < |events| && Rotates(states[j], events[j]) ==> events[j].session != s
  {
    RunKeepsInv(states, events, i);
    assert Ended(states[i + 1], s);
    RevocationIsPermanent(states, events, i + 1, j);
    RunKeepsInv(states, events, j);
    forall h
      ensures !LiveTokenOf(states[j], h, s)
    {
      if h in states[j].tokens { assert TokenBacked(states[j], h); }
    }
  }

  // ---------------------------------------------------------------- exchanged tokens and retention

  /** This step deletes that row: its own retention is over, or its session's is. */
  predicate Forgets(db: Db, e: Event, h: TokenHash, row: Token) {
    match e
    case CleanTokens(batch, cutoff) => h in batch && Eligible(row.expiresAt, row.revokedAt, cutoff)
    case CleanSessions(batch, cutoff) => row.sessionId.Some? && SessionEligible(db, row.sessionId.value, batch, cutoff)
    case _ => false
  }

  /**
   What any step deletes: a token or session its batch names whose expiry or revocation lies before the
   cutoff, and with a session all of its tokens. Nothing else deletes a row.
   */
  lemma RowsAreDeletedIff(db: Db, e: Event)
    requires Fresh(db, e)
    ensures forall s :: s in db.sessions ==>
              (s !in Step(db, e).sessions <==>
                 && e.CleanSessions? && s in e.sessionBatch
                 && (db.sessions[s].expiresAt < e.cutoff
                     || (db.sessions[s].revokedAt.Some? && db.sessions[s].revokedAt.value < e.cutoff)))
    ensures forall h :: h in db.tokens ==>
              var t := db.tokens[h];
              h !in Step(db, e).tokens <==>
                || (e.CleanTokens? && h in e.tokenBatch
                    && (t.expiresAt < e.cutoff || (t.revokedAt.Some? && t.revokedAt.value < e.cutoff)))
                || (t.sessionId.Some? && t.sessionId.value in db.sessions
                    && t.sessionId.value !in Step(db, e).sessions)
  {
  }

  lemma StepForgetsIff(db: Db, e: Event, h: TokenHash, row: Token)
    requires Recorded(db) && Fresh(db, e) && h in db.usedTokens && row.revokedAt.Some?
    requires h in db.tokens ==> db.tokens[h] == row
    ensures h in Step(db, e).tokens <==> h in db.tokens && !Forgets(db, e, h, row)
    ensures h in Step(db, e).tokens ==> Step(db, e).tokens[h] == row
  {
    StepKeepsRevocations(db, e);
  }

  /**
   An exchanged token is still known as a replay exactly as long as no clean-up has deleted it: none whose
   cutoff lies after its revocation or its expiry, and none that deletes its session.
   */
  lemma {:induction false} ExchangedTokenIsKnownIff(states: seq<Db>, events: seq<Event>, i: nat, j: nat)
    requires IsRun(states, events) && Recorded(states[0]) && i < |events| && i < j < |states|
    requires Rotates(states[i], events[i])
    ensures var h, row := events[i].presented, ExchangedRow(states[i], events[i]);
            && (h in states[j].tokens <==> forall k :: i < k < j ==> !Forgets(states[k], events[k], h, row))
            && (h in states[j].tokens ==> states[j].tokens[h] == row)
            && h in states[j].usedTokens
    decreases j
  {
    RevocationIsPermanent(states, events, i, i);
    if j > i + 1 {
      ExchangedTokenIsKnownIff(states, events, i, j - 1);
      RevocationIsPermanent(states, events, j - 1, j - 1);
      StepForgetsIff(states[j - 1], events[j - 1], events[i].presented, ExchangedRow(states[i], events[i]));
      StepKeepsRevocations(states[j - 1], events[j - 1]);
    }
  }

  /** The row that an exchange leaves behind. */
  function ExchangedRow(db: Db, e: Event): Token
    requires Rotates(db, e)
  {
    db.tokens[e.presented].(revokedAt := Some(e.now))
  }

  // ---------------------------------------------------------------- the owner

  lemma StepKeepsAccounts(db: Db, e: Event, a: AdminId)
    requires a in db.admins && Fresh(db, e)
    ensures a in Step(db, e).admins && db.usedHashes <= Step(db, e).usedHashes
    ensures db.admins[a].role == OWNER ==> Step(db, e).admins[a].role == OWNER
  {
  }

  lemma {:induction false} OwnerIsForever(states: seq<Db>, events: seq<Event>, i: nat, j: nat, a: AdminId)
    requires IsRun(states, events) && i <= j < |states|
    requires a in states[i].admins && states[i].admins[a].role == OWNER
    ensures a in states[j].admins && states[j].admins[a].role == OWNER
  {
    if i < j {
      OwnerIsForever(states, events, i, j - 1, a);
      StepKeepsAccounts(states[j - 1], events[j - 1], a);
    }
  }

  /** At most one account is ever the owner; once there, it stays the owner, active and undeleted. */
  lemma AtMostOneOwnerEver(states: seq<Db>, events: seq<Event>, i: nat, j: nat, a: AdminId, b: AdminId)
    requires IsRun(states, events) && Inv(states[0]) && i <= j < |states|
    requires a in states[i].admins && states[i].admins[a].role == OWNER
    requires b in states[j].admins && states[j].admins[b].role == OWNER
    ensures a == b && states[j].admins[a].status == ACTIVE && states[j].admins[a].deletedAt.None?
  {
    OwnerIsForever(states, events, i, j, a);
    RunKeepsInv(states, events, j);
  }

  // ---------------------------------------------------------------- stale password checks

  /** A hash that has been replaced never comes back: salted hashes are fresh. */
  lemma StepNeverRestoresAHash(db: Db, e: Event, a: AdminId, h: PasswordHash)
    requires Fresh(db, e)
    requires a in db.admins && db.admins[a].passwordHash != h && h in db.usedHashes
    ensures a in Step(db, e).admins && Step(db, e).admins[a].passwordHash != h && h in Step(db, e).usedHashes
  {
  }

  lemma {:induction false} ReplacedHashNeverReturns(states: seq<Db>, events: seq<Event>, i: nat, j: nat, a: AdminId,
                                                    h: PasswordHash)
    requires IsRun(states, events) && i <= j < |states|
    requires a in states[i].admins && states[i].admins[a].passwordHash != h && h in states[i].usedHashes
    ensures a in states[j].admins && states[j].admins[a].passwordHash != h && h in states[j].usedHashes
  {
    if i < j {
      ReplacedHashNeverReturns(states, events, i, j - 1, a, h);
      StepNeverRestoresAHash(states[j - 1], events[j - 1], a, h);
    }
  }

  /**
   A sign-in whose password was compared with a hash read at step `i` and which commits at step `j`
   proves that no password change or reset of that account took effect in between.
   */
  lemma CommittedLoginSpansNoPasswordChange(states: seq<Db>, events: seq<Event>, i: nat, j: nat, k: nat)
    requires IsRun(states, events) && Inv(states[0]) && i <= k <= j < |events|
    requires events[j].Login? && events[j].adminId in states[i].admins
    requires states[i].admins[events[j].adminId].passwordHash == events[j].seenHash
    requires events[j].session in Step(states[j], events[j]).sessions
    ensures events[j].adminId in states[k].admins
    ensures states[k].admins[events[j].adminId].passwordHash == events[j].seenHash
  {
    var a, h := events[j].adminId, events[j].seenHash;
    RunKeepsInv(states, events, i);
    AccountsPersist(states, events, i, k, a);
    if states[k].admins[a].passwordHash != h {
      ReplacedHashNeverReturns(states, events, k, j, a, h);
    }
  }

  /** The change sets this account's password hash to a fresh one. */
  predicate SetsPassword(db: Db, e: Event, a: AdminId, hash: PasswordHash) {
    match e
    case ChangePassword(id, seen, h, now) => id == a && h == hash
        && ChangePasswordTx(db, id, seen, h, now).1 == Committed
    case ResetPassword(actor, target, h, until, expected, now) =>
      target == a && h == hash && ResetPasswordTx(db, actor, target, h, until, expected, now).1 == Committed
    case Delete(actor, target, confirm, uploads, h, expected, now) =>
      target == a && h == hash && DeleteTx(db, actor, target, confirm, uploads, h, expected, now).1 == Committed
    case _ => false
  }

  /** A sign-in commits exactly with the hash the account has now, on an active account, in time. */
  lemma LoginCommitsIff(db: Db, a: AdminId, seen: PasswordHash, session: SessionId, token: TokenHash, now: Time,
                        expiresAt: Time)
    ensures LoginTx(db, a, seen, session, token, now, expiresAt).1 == Committed <==>
              && a in db.admins && db.admins[a].passwordHash == seen
              && db.admins[a].status == ACTIVE && db.admins[a].deletedAt.None?
              && !(db.admins[a].mustChangePassword && db.admins[a].temporaryPasswordExpiresAt.Some?
                   && db.admins[a].temporaryPasswordExpiresAt.value <= now)
  {
  }

  /**
   In every run: once a password change, a reset or a deletion of the account commits, no sign-in that was
   compared with the hash before it ever commits again. The new hash signs in at once after a change; after
   a reset if the account is active, until the temporary password expires; after a deletion never.
   */
  lemma OldPasswordNeverSignsIn(states: seq<Db>, events: seq<Event>, i: nat, j: nat, a: AdminId, hash: PasswordHash,
                                session: SessionId, token: TokenHash, now: Time, expiresAt: Time)
    requires IsRun(states, events) && Inv(states[0]) && i < j < |states|
    requires SetsPassword(states[i], events[i], a, hash)
    ensures a in states[i].admins && hash != states[i].admins[a].passwordHash
    ensures LoginTx(states[j], a, states[i].admins[a].passwordHash, session, token, now, expiresAt).1 != Committed
    ensures LoginTx(states[i + 1], a, hash, session, token, now, expiresAt).1 == Committed <==>
              match events[i]
              case ChangePassword(_, _, _, _) => true
              case ResetPassword(_, _, _, until, _, _) => states[i].admins[a].status == ACTIVE && now < until
              case _ => false
  {
    RunKeepsInv(states, events, i);
    var before := states[i].admins[a].passwordHash;
    assert states[i + 1].admins[a].passwordHash == hash && before in states[i].usedHashes;
    ReplacedHashNeverReturns(states, events, i + 1, j, a, before);
  }

  lemma {:induction false} AccountsPersist(states: seq<Db>, events: seq<Event>, i: nat, j: nat, a: AdminId)
    requires IsRun(states, events) && i <= j < |states| && a in states[i].admins
    ensures a in states[j].admins && states[i].usedHashes <= states[j].usedHashes
  {
    if i < j {
      AccountsPersist(states, events, i, j - 1, a);
      StepKeepsAccounts(states[j - 1], events[j - 1], a);
    }
  }

  // ---------------------------------------------------------------- owner mutations

  /** What has to hold at the moment an owner's mutation of another account commits. */
  predicate Authorised(db: Db, actor: ActorSnapshot, target: AdminId) {
    && actor.id in db.admins && db.admins[actor.id].role == OWNER && db.admins[actor.id].Live()
    && db.admins[actor.id].passwordHash == actor.passwordHash
    && target in db.admins && target != actor.id
    && db.admins[target].role != OWNER && db.admins[target].deletedAt.None?
  }

  /**
   A mutation of another account commits exactly when its caller is, at that moment, still the live owner
   whose password was verified, the target is somebody else's undeleted account at the expected version,
   and there is something to change; otherwise it writes nothing.
   */
  lemma MutationsCommitIff(db: Db, actor: ActorSnapshot, target: AdminId, role: Role, status: AccountStatus,
                           hash: PasswordHash, until: Time, expected: Time, now: Time)
    ensures var (after, r) := ChangeRoleTx(db, actor, target, role, expected, now);
            && (r == Committed <==>
                  && role != OWNER && Authorised(db, actor, target)
                  && db.admins[target].updatedAt == expected && db.admins[target].role != role)
            && (r != Committed ==> after == db)
    ensures var (after, r) := ChangeStatusTx(db, actor, target, status, expected, now);
            && (r == Committed <==> Authorised(db, actor, target) && db.admins[target].updatedAt == expected
                                    && db.admins[target].status != status)
            && (r != Committed ==> after == db)
    ensures var (after, r) := ResetPasswordTx(db, actor, target, hash, until, expected, now);
            && (r == Committed <==> Authorised(db, actor, target) && db.admins[target].updatedAt == expected)
            && (r != Committed ==> after == db)
    ensures var (after, r) := RevokeAllTx(db, actor, target, now);
            && (r == Committed <==> Authorised(db, actor, target))
            && (r != Committed ==> after == db)
  {
  }

  /** Deleting also needs the account disabled, its name confirmed and no upload running. */
  lemma DeletionCommitsIff(db: Db, actor: ActorSnapshot, target: AdminId, confirm: string, uploads: nat,
                           hash: PasswordHash, expected: Time, now: Time)
    ensures var (after, r) := DeleteTx(db, actor, target, confirm, uploads, hash, expected, now);
            && (r == Committed <==> Authorised(db, actor, target) && db.admins[target].updatedAt == expected
                                    && db.admins[target].username == confirm && db.admins[target].status == DISABLED
                                    && uploads == 0)
            && (r != Committed ==> after == db)
            && (r == Committed ==> after.admins[target].deletedAt == Some(now) && !after.admins[target].Live())
  {
  }

  /** Whoever is created by the owner is no owner, is active, and must replace a temporary password. */
  lemma CreationCommitsIff(db: Db, actor: ActorSnapshot, id: AdminId, username: string, role: Role, hash: PasswordHash,
                           until: Time, now: Time)
    requires id !in db.admins
    ensures var (after, r) := CreateAccountTx(db, actor, id, username, role, hash, until, now);
            && (r == Committed <==>
                  && role != OWNER && OwnerStillVerified(db, actor)
                  && forall a :: a in db.admins ==> db.admins[a].username != username)
            && (r != Committed ==> after == db)
            && (r == Committed ==>
                  && after.admins == db.admins[id := after.admins[id]]
                  && after.admins[id].role == role && after.admins[id].Live() && after.admins[id].mustChangePassword
                  && after.admins[id].TemporaryPasswordExpired(until)
                  && !after.admins[id].TemporaryPasswordExpired(until - 1))
  {
  }
}
