/**
 Admin accounts, sessions and refresh tokens as database rows, and every transaction that writes
 them as a function on those rows.

 Each function is one `$transaction`: it reads the current rows, rechecks, and either commits or
 leaves the database as it was. Values the caller read before the transaction opened (a password
 hash, a token row) are parameters, so nothing below assumes that they are still current.
 */
module AdminModel {
  import opened Wrappers

  type AdminId = nat
  type SessionId = nat
  type TokenHash = nat
  type PasswordHash = nat
  type Time = int

  datatype Role = OWNER | ADMIN | STAFF
  datatype AccountStatus = ACTIVE | DISABLED

  datatype Admin = Admin(
    username: string,
    passwordHash: PasswordHash,
    role: Role,
    status: AccountStatus,
    mustChangePassword: bool,
    temporaryPasswordExpiresAt: Option<Time>,
    deletedAt: Option<Time>,
    updatedAt: Time)
  {
    predicate Live() { status == ACTIVE && deletedAt.None? }

    predicate TemporaryPasswordExpired(now: Time) {
      mustChangePassword && temporaryPasswordExpiresAt.Some? && temporaryPasswordExpiresAt.value <= now
    }
  }

  datatype Session = Session(adminId: AdminId, expiresAt: Time, lastUsedAt: Time, revokedAt: Option<Time>)

  /** `sessionId` is nullable in the schema: a legacy token belongs to no session. */
  datatype Token = Token(adminId: AdminId, sessionId: Option<SessionId>, expiresAt: Time, revokedAt: Option<Time>)

  /** History: the credentials a session was opened under. No transaction reads it. */
  datatype Opening = Opening(passwordHash: PasswordHash, role: Role)

  /**
   History that only the proofs look at: the openings of all sessions there ever were, and the password
   hashes and tokens ever issued. A clean-up deletes rows, never history.
   */
  datatype Db = Db(
    admins: map<AdminId, Admin>,
    sessions: map<SessionId, Session>,
    tokens: map<TokenHash, Token>,
    openings: map<SessionId, Opening>,
    usedHashes: set<PasswordHash>,
    usedTokens: set<TokenHash>)

  datatype Error =
    | AlreadyInitialised | InvalidCredentials | TemporaryPasswordExpired | Unauthorized
    | RoleNotAllowed | ConcurrentMutation | AccountNotFound | SelfActionForbidden | OwnerProtected
    | AccountDeleted | AlreadyCurrent | UsernameTaken | ConfirmationFailed | StillActive | ActiveUploads

  datatype Outcome = Committed | Refused(error: Error)

  /** What the caller of an owner mutation verified before its transaction opened. */
  datatype ActorSnapshot = ActorSnapshot(id: AdminId, passwordHash: PasswordHash)

  // ---------------------------------------------------------------- revocation

  /** The `where` shared by every bulk revocation: one admin, and one session or all of them. */
  predicate TokenMatches(t: Token, adminId: AdminId, session: Option<SessionId>) {
    t.adminId == adminId && t.revokedAt.None? && (session.Some? ==> t.sessionId == session)
  }

  predicate SessionMatches(id: SessionId, s: Session, adminId: AdminId, session: Option<SessionId>) {
    s.adminId == adminId && s.revokedAt.None? && (session.Some? ==> id == session.value)
  }

  function RevokeTokens(tokens: map<TokenHash, Token>, adminId: AdminId, session: Option<SessionId>, now: Time)
    : map<TokenHash, Token>
  {
    map h | h in tokens ::
      if TokenMatches(tokens[h], adminId, session) then tokens[h].(revokedAt := Some(now)) else tokens[h]
  }

  function RevokeSessions(sessions: map<SessionId, Session>, adminId: AdminId, session: Option<SessionId>, now: Time)
    : map<SessionId, Session>
  {
    map s | s in sessions ::
      if SessionMatches(s, sessions[s], adminId, session) then sessions[s].(revokedAt := Some(now)) else sessions[s]
  }

  /** Tokens first, then sessions, in one transaction: replay, logout, self-revoke, reset, role change... */
  function Revoke(db: Db, adminId: AdminId, session: Option<SessionId>, now: Time): Db {
    db.(tokens := RevokeTokens(db.tokens, adminId, session, now),
        sessions := RevokeSessions(db.sessions, adminId, session, now))
  }

  // ---------------------------------------------------------------- sign-in and refresh

  function RegisterTx(db: Db, id: AdminId, username: string, hash: PasswordHash, now: Time): (Db, Outcome) {
    if |db.admins| > 0 then (db, Refused(AlreadyInitialised))
    else
      (db.(admins := db.admins[id := Admin(username, hash, OWNER, ACTIVE, false, None, None, now)],
           usedHashes := db.usedHashes + {hash}),
       Committed)
  }

  /** The password was compared with `seenHash`, read some time before this transaction. */
  function LoginTx(db: Db, adminId: AdminId, seenHash: PasswordHash,
                   session: SessionId, token: TokenHash, now: Time, expiresAt: Time): (Db, Outcome)
  {
    if adminId !in db.admins || db.admins[adminId].passwordHash != seenHash || !db.admins[adminId].Live() then
      (db, Refused(InvalidCredentials))
    else if db.admins[adminId].TemporaryPasswordExpired(now) then
      (db, Refused(TemporaryPasswordExpired))
    else
      var admin := db.admins[adminId];
      (db.(admins := db.admins[adminId := admin.(updatedAt := now)],
           sessions := db.sessions[session := Session(adminId, expiresAt, now, None)],
           tokens := db.tokens[token := Token(adminId, Some(session), expiresAt, None)],
           openings := db.openings[session := Opening(admin.passwordHash, admin.role)],
           usedTokens := db.usedTokens + {token}),
       Committed)
  }

  datatype Rotation = Replay | Invalid | Rotated

  predicate Claimable(db: Db, presented: TokenHash, adminId: AdminId, session: SessionId) {
    presented in db.tokens && TokenMatches(db.tokens[presented], adminId, Some(session))
  }

  predicate SessionUsable(db: Db, adminId: AdminId, session: SessionId, now: Time) {
    && adminId in db.admins && db.admins[adminId].Live()
    && session in db.sessions && db.sessions[session].adminId == adminId
    && db.sessions[session].revokedAt.None? && db.sessions[session].expiresAt > now
  }

  /** `adminId` and `session` come from the token row read before the transaction. */
  function RotateTx(db: Db, presented: TokenHash, adminId: AdminId, session: SessionId,
                    token: TokenHash, now: Time, expiresAt: Time): (Db, Rotation)
  {
    if !Claimable(db, presented, adminId, session) then (db, Replay)
    else
      var claimed := db.(tokens := db.tokens[presented := db.tokens[presented].(revokedAt := Some(now))]);
      if !SessionUsable(claimed, adminId, session, now) then
        (Revoke(claimed, adminId, Some(session), now), Invalid)
      else
        (claimed.(
           sessions := claimed.sessions[
             session := claimed.sessions[session].(lastUsedAt := now, expiresAt := expiresAt)],
           tokens := claimed.tokens[token := Token(adminId, Some(session), expiresAt, None)],
           usedTokens := claimed.usedTokens + {token}),
         Rotated)
  }

  /** The row written by a password change: a new hash, and no temporary-password state left. */
  function WithPassword(admin: Admin, hash: PasswordHash, temporaryUntil: Option<Time>, now: Time): Admin {
    admin.(passwordHash := hash, mustChangePassword := temporaryUntil.Some?,
           temporaryPasswordExpiresAt := temporaryUntil, updatedAt := now)
  }

  function ChangePasswordTx(db: Db, adminId: AdminId, seenHash: PasswordHash, hash: PasswordHash, now: Time)
    : (Db, Outcome)
  {
    if adminId !in db.admins || db.admins[adminId].passwordHash != seenHash || !db.admins[adminId].Live() then
      (db, Refused(Unauthorized))
    else
      (Revoke(db.(admins := db.admins[adminId := WithPassword(db.admins[adminId], hash, None, now)],
                  usedHashes := db.usedHashes + {hash}),
              adminId, None, now),
       Committed)
  }

  // ---------------------------------------------------------------- retention

  /** The `where` of the clean-up script, the same for tokens and sessions. */
  predicate Eligible(expiresAt: Time, revokedAt: Option<Time>, cutoff: Time) {
    expiresAt < cutoff || (revokedAt.Some? && revokedAt.value < cutoff)
  }

  predicate TokenEligible(db: Db, h: TokenHash, batch: set<TokenHash>, cutoff: Time) {
    h in db.tokens && h in batch && Eligible(db.tokens[h].expiresAt, db.tokens[h].revokedAt, cutoff)
  }

  predicate SessionEligible(db: Db, s: SessionId, batch: set<SessionId>, cutoff: Time) {
    s in db.sessions && s in batch && Eligible(db.sessions[s].expiresAt, db.sessions[s].revokedAt, cutoff)
  }

  /** One deleteMany over a batch of ids read before: what is still eligible goes. */
  function CleanTokensTx(db: Db, batch: set<TokenHash>, cutoff: Time): Db {
    db.(tokens := map h | h in db.tokens && !TokenEligible(db, h, batch, cutoff) :: db.tokens[h])
  }

  /** The same for sessions; the foreign key takes their tokens with them. */
  function CleanSessionsTx(db: Db, batch: set<SessionId>, cutoff: Time): Db {
    db.(sessions := map s | s in db.sessions && !SessionEligible(db, s, batch, cutoff) :: db.sessions[s],
        tokens := map h | h in db.tokens && !CascadesTo(db, h, batch, cutoff) :: db.tokens[h])
  }

  predicate CascadesTo(db: Db, h: TokenHash, batch: set<SessionId>, cutoff: Time) {
    h in db.tokens && db.tokens[h].sessionId.Some? && SessionEligible(db, db.tokens[h].sessionId.value, batch, cutoff)
  }

  // ---------------------------------------------------------------- owner mutations

  /** recheckOwner */
  predicate OwnerStillVerified(db: Db, actor: ActorSnapshot) {
    && actor.id in db.admins
    && db.admins[actor.id].passwordHash == actor.passwordHash
    && db.admins[actor.id].role == OWNER
    && db.admins[actor.id].Live()
  }

  /** recheckOwner, loadMutableTarget and, when a version is expected, ensureVersion: the first refusal. */
  function MutationRefusal(db: Db, actor: ActorSnapshot, target: AdminId, expected: Option<Time>): Option<Error> {
    if !OwnerStillVerified(db, actor) then Some(ConcurrentMutation)
    else if target !in db.admins then Some(AccountNotFound)
    else if target == actor.id then Some(SelfActionForbidden)
    else if db.admins[target].role == OWNER then Some(OwnerProtected)
    else if db.admins[target].deletedAt.Some? then Some(AccountDeleted)
    else if expected.Some? && db.admins[target].updatedAt != expected.value then Some(ConcurrentMutation)
    else None
  }

  function CreateAccountTx(db: Db, actor: ActorSnapshot, id: AdminId, username: string, role: Role,
                           hash: PasswordHash, temporaryUntil: Time, now: Time): (Db, Outcome)
  {
    if role == OWNER then (db, Refused(RoleNotAllowed))
    else if !OwnerStillVerified(db, actor) then (db, Refused(ConcurrentMutation))
    else if exists a :: a in db.admins && db.admins[a].username == username then (db, Refused(UsernameTaken))
    else
      (db.(admins := db.admins[id := Admin(username, hash, role, ACTIVE, true, Some(temporaryUntil), None, now)],
           usedHashes := db.usedHashes + {hash}),
       Committed)
  }

  function ChangeRoleTx(db: Db, actor: ActorSnapshot, target: AdminId, role: Role, expected: Time, now: Time)
    : (Db, Outcome)
  {
    if role == OWNER then (db, Refused(RoleNotAllowed))
    else
      var refusal := MutationRefusal(db, actor, target, Some(expected));
      if refusal.Some? then (db, Refused(refusal.value))
      else if db.admins[target].role == role then (db, Refused(AlreadyCurrent))
      else
        (Revoke(db.(admins := db.admins[target := db.admins[target].(role := role, updatedAt := now)]), target, None,
            now),
         Committed)
  }

  function ChangeStatusTx(db: Db, actor: ActorSnapshot, target: AdminId, status: AccountStatus, expected: Time,
                          now: Time)
    : (Db, Outcome)
  {
    var refusal := MutationRefusal(db, actor, target, Some(expected));
    if refusal.Some? then (db, Refused(refusal.value))
    else if db.admins[target].status == status then (db, Refused(AlreadyCurrent))
    else
      var updated := db.(admins := db.admins[target := db.admins[target].(status := status, updatedAt := now)]);
      (if status == DISABLED then Revoke(updated, target, None, now) else updated, Committed)
  }

  function RevokeAllTx(db: Db, actor: ActorSnapshot, target: AdminId, now: Time): (Db, Outcome) {
    var refusal := MutationRefusal(db, actor, target, None);
    if refusal.Some? then (db, Refused(refusal.value)) else (Revoke(db, target, None, now), Committed)
  }

  function ResetPasswordTx(db: Db, actor: ActorSnapshot, target: AdminId, hash: PasswordHash,
                           temporaryUntil: Time, expected: Time, now: Time): (Db, Outcome)
  {
    var refusal := MutationRefusal(db, actor, target, Some(expected));
    if refusal.Some? then (db, Refused(refusal.value))
    else
      (Revoke(db.(admins := db.admins[target := WithPassword(db.admins[target], hash, Some(temporaryUntil), now)],
                  usedHashes := db.usedHashes + {hash}),
              target, None, now),
       Committed)
  }

  function DeletedRow(admin: Admin, hash: PasswordHash, now: Time): Admin {
    WithPassword(admin, hash, None, now).(status := DISABLED, deletedAt := Some(now))
  }

  function DeleteTx(db: Db, actor: ActorSnapshot, target: AdminId, confirm: string, activeUploads: nat,
                    hash: PasswordHash, expected: Time, now: Time): (Db, Outcome)
  {
    var refusal := MutationRefusal(db, actor, target, Some(expected));
    if refusal.Some? then (db, Refused(refusal.value))
    else if confirm != db.admins[target].username then (db, Refused(ConfirmationFailed))
    else if db.admins[target].status != DISABLED then (db, Refused(StillActive))
    else if activeUploads > 0 then (db, Refused(ActiveUploads))
    else
      (Revoke(db.(admins := db.admins[target := DeletedRow(db.admins[target], hash, now)],
                  usedHashes := db.usedHashes + {hash}),
              target, None, now),
       Committed)
  }
}
