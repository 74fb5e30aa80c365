/** Self-service account steps (internal/account): each is one transaction, a function from the
    database to the committed database or the error it was abandoned with. */
module AccountSteps {
  import opened Common
  import opened Bytes
  import opened Protector
  import opened AccountState

  /** Seven days. */
  const RECOVERY_WINDOW: Time := 7 * 24 * 3_600_000_000_000

  // ---------- receipts and identities ----------

  /** The sealed identity was sealed under a ring key for the login the receipt names. */
  predicate SealedMatches(db: Db, keyId: KeyId, hmac: seq<Byte>, claims: Claims)
    requires ValidLookup(db.lookup)
  {
    Candidate(keyId, hmac) in Candidates(db.lookup, claims.kind, claims.login)
  }

  /** A verified challenge with the receipt's purpose and login whose receipt is not yet spent. */
  predicate ReceiptAvailable(db: Db, claims: Claims)
    requires ValidLookup(db.lookup)
  {
    && claims.challenge in db.challenges
    && var c := db.challenges[claims.challenge];
    && c.purpose == claims.purpose
    && c.consumedAt.Some? && c.receiptAt.None? && c.kind == claims.kind
    && Candidate(c.keyId, c.hmac) in Candidates(db.lookup, claims.kind, claims.login)
  }

  function MarkReceipt(db: Db, challenge: Uuid, at: Time): Outcome<Db, Failure> {
    if !(challenge in db.challenges) then Err(ReceiptUnavailable) else
    var c := db.challenges[challenge];
    :- Need(c.consumedAt.Some? && c.receiptAt.None?, ReceiptUnavailable);
    :- Need(at >= c.consumedAt.value, ServiceUnavailable);
    Ok(db.(challenges := Spend(db.challenges, challenge, at)))
  }

  function Spend(challenges: map<Uuid, Challenge>, challenge: Uuid, at: Time): map<Uuid, Challenge>
    requires challenge in challenges
  {
    challenges[challenge := challenges[challenge].(receiptAt := Some(at))]
  }

  function StoredUnder(identities: map<Uuid, Identity>, kind: Kind, c: Candidate): set<Uuid> {
    set i | i in identities && identities[i].kind == kind && identities[i].keyId == c.keyId && identities[i].hmac == c.hmac
  }

  predicate IdentityExists(db: Db, kind: Kind, login: Login)
    requires ValidLookup(db.lookup)
  {
    exists c :: c in Candidates(db.lookup, kind, login) && StoredUnder(db.identities, kind, c) != {}
  }

  /** The owner of the first candidate that is stored. */
  function FirstOwner(identities: map<Uuid, Identity>, kind: Kind, candidates: seq<Candidate>): Option<Uuid> {
    if candidates == [] then None
    else
      var found := StoredUnder(identities, kind, candidates[0]);
      if found != {} then Some(identities[Least(found)].user) else FirstOwner(identities, kind, candidates[1..])
  }

  function FindUser(db: Db, claims: Claims): Option<Uuid>
    requires ValidLookup(db.lookup)
  {
    FirstOwner(db.identities, claims.kind, Candidates(db.lookup, claims.kind, claims.login))
  }

  /** The candidate whose digest names the advisory lock of a login. */
  function StableCandidate(candidates: seq<Candidate>): Candidate
    requires candidates != []
  {
    if |candidates| == 1 then candidates[0]
    else
      var best := StableCandidate(candidates[..|candidates| - 1]);
      var last := candidates[|candidates| - 1];
      if Less(last.keyId, best.keyId) then last else best
  }

  function IdentityScope(db: Db, kind: Kind, login: Login): Outcome<nat, Failure>
    requires ValidLookup(db.lookup)
  {
    var candidates := Candidates(db.lookup, kind, login);
    :- Need(candidates != [] && |StableCandidate(candidates).hmac| >= 8, ReceiptUnavailable);
    Ok(FromBe(StableCandidate(candidates).hmac[..8]))
  }

  /** INSERT INTO identities under UNIQUE (kind, lookup_hmac) and the primary key. */
  function InsertIdentity(db: Db, id: Uuid, row: Identity): Outcome<Db, Failure> {
    if !(!exists i :: i in db.identities && db.identities[i].kind == row.kind && db.identities[i].hmac == row.hmac) then Err(IdentityConflict) else
    :- Need(id !in db.identities, ServiceUnavailable);
    Ok(db.(identities := db.identities[id := row]))
  }

  // ---------- registration, login, password reset, binding ----------

  datatype RegisterRecord = RegisterRecord(
    direct: bool, user: Uuid, identity: Uuid, claims: Claims, keyId: KeyId, hmac: seq<Byte>,
    password: seq<Byte>, at: Time)

  const NEW_USER := User(Active, false, None, None, 1, 1)

  function Register(db: Db, r: RegisterRecord): Outcome<Db, Failure>
    requires ValidLookup(db.lookup)
  {
    if !(r.claims.purpose.Registration? && r.user != NIL && r.identity != NIL) then Err(InvalidRequest) else
    :- Need(SealedMatches(db, r.keyId, r.hmac, r.claims), InvalidRequest);
    :- Need(if r.direct then r.claims.challenge == NIL && r.claims.kind.Email? else r.claims.challenge != NIL, InvalidRequest);
    :- Need(r.direct || ReceiptAvailable(db, r.claims), ReceiptUnavailable);
    var _ :- IdentityScope(db, r.claims.kind, r.claims.login);
    :- Need(!IdentityExists(db, r.claims.kind, r.claims.login), IdentityConflict);
    :- Need(r.user !in db.users, ServiceUnavailable);
    var db1 := db.(users := db.users[r.user := NEW_USER]);
    var db2 :- InsertIdentity(db1, r.identity, Identity(r.user, r.claims.kind, r.keyId, r.hmac, r.claims.login));
    :- Need(r.user !in db2.credentials && r.user !in db2.spaces, ServiceUnavailable);
    var db3 := db2.(credentials := db2.credentials[r.user := r.password], spaces := db2.spaces[r.user := true]);
    if r.direct then Ok(db3) else MarkReceipt(db3, r.claims.challenge, r.at)
  }

  datatype LoginRecord = LoginRecord(claims: Claims, user: Uuid, at: Time)

  function ConsumeLoginReceipt(db: Db, r: LoginRecord): Outcome<Db, Failure>
    requires ValidLookup(db.lookup)
  {
    if !(r.claims.purpose.SignIn? && r.claims.challenge != NIL && r.user != NIL && r.at != ZERO_TIME) then Err(InvalidRequest) else
    :- Need(FindUser(db, r.claims) == Some(r.user), InvalidCredentials);
    :- Need(r.user in db.users, AccountNotFound);
    :- Need(!db.users[r.user].status.PendingDeletion?, AccountPendingDeletion);
    :- Need(!db.users[r.user].status.Disabled?, AccountDisabled);
    :- Need(ReceiptAvailable(db, r.claims), ReceiptUnavailable);
    MarkReceipt(db, r.claims.challenge, r.at)
  }

  datatype ResetRecord = ResetRecord(claims: Claims, password: seq<Byte>, at: Time)

  function ResetPassword(db: Db, r: ResetRecord): Outcome<Db, Failure>
    requires ValidLookup(db.lookup)
  {
    if !(r.claims.purpose.PasswordReset?) then Err(InvalidRequest) else
    var owner := FindUser(db, r.claims);
    :- Need(owner.Some? && owner.value in db.users, AccountNotFound);
    var user := owner.value;
    :- Need(!db.users[user].status.Disabled?, AccountNotFound);
    :- Need(ReceiptAvailable(db, r.claims), ReceiptUnavailable);
    :- Need(user in db.credentials, ServiceUnavailable);
    var row := db.users[user].(passwordVersion := db.users[user].passwordVersion + 1);
    var db1 := db.(credentials := db.credentials[user := r.password],
                   users := db.users[user := row],
                   sessions := OverwriteReason(db.sessions, LiveSessionsOf(db.sessions, user), r.at, ByPasswordReset));
    MarkReceipt(db1, r.claims.challenge, r.at)
  }

  /** UPDATE sessions SET revoked_at = at, revoked_reason = reason for the given rows. */
  function OverwriteReason(sessions: map<Uuid, Session>, ids: set<Uuid>, at: Time, reason: Reason): map<Uuid, Session> {
    map s | s in sessions ::
      if s in ids then sessions[s].(revokedAt := Some(at), reason := Some(reason)) else sessions[s]
  }

  datatype BindRecord = BindRecord(user: Uuid, identity: Uuid, claims: Claims, keyId: KeyId, hmac: seq<Byte>, at: Time)

  function BindIdentity(db: Db, r: BindRecord): Outcome<Db, Failure>
    requires ValidLookup(db.lookup)
  {
    if !(r.claims.purpose.BindLogin? && r.user != NIL && r.identity != NIL) then Err(InvalidRequest) else
    :- Need(SealedMatches(db, r.keyId, r.hmac, r.claims), InvalidRequest);
    :- Need(r.user in db.users && db.users[r.user].status.Active?, AccountNotFound);
    :- Need(ReceiptAvailable(db, r.claims), ReceiptUnavailable);
    var _ :- IdentityScope(db, r.claims.kind, r.claims.login);
    :- Need(!IdentityExists(db, r.claims.kind, r.claims.login), IdentityConflict);
    :- Need(!HasKind(db.identities, r.user, r.claims.kind), IdentityConflict);
    var db1 :- InsertIdentity(db, r.identity, Identity(r.user, r.claims.kind, r.keyId, r.hmac, r.claims.login));
    MarkReceipt(db1, r.claims.challenge, r.at)
  }

  predicate HasKind(identities: map<Uuid, Identity>, user: Uuid, kind: Kind) {
    exists i :: i in identities && identities[i].user == user && identities[i].kind == kind
  }

  // ---------- lifecycle ----------

  function IdentitiesOf(identities: map<Uuid, Identity>, user: Uuid): set<Uuid> {
    set i | i in identities && identities[i].user == user
  }

  function OfKind(identities: map<Uuid, Identity>, user: Uuid, kind: Kind): set<Uuid> {
    set i | i in identities && identities[i].user == user && identities[i].kind == kind
  }

  datatype RemoveRecord = RemoveRecord(user: Uuid, kind: Kind, at: Time)

  function RemoveIdentity(db: Db, r: RemoveRecord): Outcome<Db, Failure> {
    if !(r.user != NIL && r.at != ZERO_TIME) then Err(InvalidRequest) else
    :- Need(r.user in db.users && db.users[r.user].status.Active?, AccountNotFound);
    var mine := IdentitiesOf(db.identities, r.user);
    var removed := OfKind(db.identities, r.user, r.kind);
    :- Need(removed != {}, AccountNotFound);
    :- Need(|mine| > 1, LastIdentity);
    :- Need(|removed| == 1, AccountNotFound);
    Ok(db.(identities := db.identities - removed))
  }

  function EntitlementsElsewhere(entitlements: map<Uuid, Entitlement>, user: Uuid, device: Uuid): set<Uuid> {
    set e | e in entitlements && entitlements[e].user == user && entitlements[e].device != device
  }

  datatype ChangeRecord = ChangeRecord(user: Uuid, session: Uuid, password: seq<Byte>, at: Time)

  function ChangePassword(db: Db, r: ChangeRecord): Outcome<Db, Failure> {
    if !(r.user != NIL && r.session != NIL && r.password != [] && r.at != ZERO_TIME) then Err(InvalidRequest) else
    :- Need(r.user in db.users && db.users[r.user].status.Active?, AccountNotFound);
    :- Need(r.session in db.sessions && db.sessions[r.session].user == r.user, AccountNotFound);
    :- Need(db.sessions[r.session].revokedAt.None? && db.sessions[r.session].expiresAt > r.at, AccountNotFound);
    :- Need(r.user in db.credentials, ServiceUnavailable);
    var device := db.sessions[r.session].device;
    var row := db.users[r.user].(passwordVersion := db.users[r.user].passwordVersion + 1);
    Ok(db.(credentials := db.credentials[r.user := r.password],
           users := db.users[r.user := row],
           devices := RevokeDevices(db.devices, DevicesOf(db.devices, r.user) - {device}, r.at),
           sessions := RevokeSessions(db.sessions, SessionsOf(db.sessions, r.user) - {r.session}, r.at, ByPasswordChange),
           entitlements := RevokeEntitlements(db.entitlements, EntitlementsElsewhere(db.entitlements, r.user, device), r.at)))
  }

  function OwnedOrganizations(db: Db, user: Uuid): set<(Uuid, Uuid)> {
    set o | o in db.owned && o.0 == user
  }

  function RevokeEverything(db: Db, user: Uuid, at: Time, reason: Reason): Db {
    db.(devices := RevokeDevices(db.devices, DevicesOf(db.devices, user), at),
        sessions := RevokeSessions(db.sessions, SessionsOf(db.sessions, user), at, reason),
        entitlements := RevokeEntitlements(db.entitlements, EntitlementsOf(db.entitlements, user), at))
  }

  /** UPDATE personal_spaces SET status for the owner, if there is one. */
  function SetSpace(spaces: map<Uuid, bool>, user: Uuid, active: bool): map<Uuid, bool> {
    if user in spaces then spaces[user := active] else spaces
  }

  datatype DeletionRecord = DeletionRecord(user: Uuid, claims: Claims, at: Time)

  function RequestDeletion(db: Db, r: DeletionRecord): Outcome<Db, Failure>
    requires ValidLookup(db.lookup)
  {
    if !(r.user != NIL && r.claims.purpose.AccountDeletion? && r.at != ZERO_TIME) then Err(InvalidRequest) else
    :- Need(r.user in db.users && db.users[r.user].status.Active?, AccountNotFound);
    :- Need(ReceiptAvailable(db, r.claims), ReceiptUnavailable);
    :- Need(FindUser(db, r.claims) == Some(r.user), AccountNotFound);
    var owned := |OwnedOrganizations(db, r.user)|;
    :- Need(owned == 0, OwnerTransferRequired(owned));
    var row := db.users[r.user].(status := PendingDeletion, requestedAt := Some(r.at), finalizedAt := None);
    var db1 := RevokeEverything(db, r.user, r.at, ByAccountDeletion)
      .(users := db.users[r.user := row], spaces := SetSpace(db.spaces, r.user, false));
    MarkReceipt(db1, r.claims.challenge, r.at)
  }

  function RecoverDeletion(db: Db, r: DeletionRecord): Outcome<Db, Failure>
    requires ValidLookup(db.lookup)
  {
    if !(r.user != NIL && r.claims.purpose.DeletionRecovery? && r.at != ZERO_TIME) then Err(InvalidRequest) else
    :- Need(r.user in db.users, AccountNotFound);
    var user := db.users[r.user];
    :- Need(user.status.PendingDeletion? && user.requestedAt.Some?, AccountNotFound);
    :- Need(r.at < user.requestedAt.value + RECOVERY_WINDOW, DeletionWindowExpired);
    :- Need(ReceiptAvailable(db, r.claims), ReceiptUnavailable);
    :- Need(FindUser(db, r.claims) == Some(r.user), AccountNotFound);
    var row := user.(status := Active, requestedAt := None, finalizedAt := None);
    var db1 := db.(users := db.users[r.user := row], spaces := SetSpace(db.spaces, r.user, true));
    MarkReceipt(db1, r.claims.challenge, r.at)
  }

  datatype FinalizeRecord = FinalizeRecord(user: Uuid, at: Time)

  /** Challenges addressed to one of the user's identities. */
  function ChallengesFor(db: Db, user: Uuid): set<Uuid> {
    set c, i | c in db.challenges && i in db.identities && db.identities[i].user == user
               && db.challenges[c].kind == db.identities[i].kind
               && db.challenges[c].keyId == db.identities[i].keyId && db.challenges[c].hmac == db.identities[i].hmac :: c
  }

  /** Rows that go with the deleted devices of a user, or with the user's personal space. */
  function SessionsOn(db: Db, devices: set<Uuid>): set<Uuid> {
    set s | s in db.sessions && db.sessions[s].device in devices
  }

  function EntitlementsOn(db: Db, user: Uuid, devices: set<Uuid>): set<Uuid> {
    set e | e in db.entitlements && (db.entitlements[e].device in devices || db.entitlements[e].user == user)
  }

  function FinalizeDeletion(db: Db, r: FinalizeRecord): Outcome<Db, Failure> {
    if !(r.user != NIL && r.at != ZERO_TIME) then Err(InvalidRequest) else
    :- Need(r.user in db.users, AccountNotFound);
    var user := db.users[r.user];
    :- Need(user.status.PendingDeletion? && user.requestedAt.Some? && r.at >= user.requestedAt.value + RECOVERY_WINDOW,
            DeletionWindowExpired);
    var owned := |OwnedOrganizations(db, r.user)|;
    :- Need(owned == 0, OwnerTransferRequired(owned));
    var devices := DevicesOf(db.devices, r.user);
    var row := user.(status := Disabled, adminDisabled := false, finalizedAt := Some(r.at));
    Ok(db.(challenges := db.challenges - ChallengesFor(db, r.user),
           identities := db.identities - IdentitiesOf(db.identities, r.user),
           credentials := db.credentials - {r.user},
           devices := db.devices - devices,
           sessions := db.sessions - SessionsOn(db, devices),
           entitlements := db.entitlements - EntitlementsOn(db, r.user, devices),
           spaces := db.spaces - {r.user},
           users := db.users[r.user := row]))
  }
}
