/** The tables behind accounts and their administration: users with their personal space, password,
    login identities and verification challenges, the devices, sessions and offline entitlements they
    hold, and the administrative operations with their audit trail. */
module AccountState {
  import opened Common
  import opened Bytes
  import opened Protector

  datatype Status = Active | PendingDeletion | Disabled

  datatype User = User(
    status: Status, adminDisabled: bool,
    requestedAt: Option<Time>, finalizedAt: Option<Time>,
    revision: int, passwordVersion: int)

  // ---------- identities and challenges ----------

  datatype Kind = Email | Phone

  /** A normalized e-mail address or phone number. */
  type Login = seq<Byte>

  /** A bound login.  `login` is what the sealed ciphertext holds; only `keyId` and `hmac` are searchable. */
  datatype Identity = Identity(user: Uuid, kind: Kind, keyId: KeyId, hmac: seq<Byte>, login: Login)

  datatype Purpose = Registration | SignIn | PasswordReset | BindLogin | AccountDeletion | DeletionRecovery

  datatype Challenge = Challenge(
    purpose: Purpose, kind: Kind, keyId: KeyId, hmac: seq<Byte>,
    consumedAt: Option<Time>, receiptAt: Option<Time>)

  /** What a verification receipt asserts. */
  datatype Claims = Claims(challenge: Uuid, purpose: Purpose, kind: Kind, login: Login)

  /** A lookup key: the keyed digest of a login. */
  type LookupKey = (Kind, Login) -> seq<Byte>

  datatype LookupRing = LookupRing(active: KeyId, keys: map<KeyId, LookupKey>, order: seq<KeyId>)

  datatype Candidate = Candidate(keyId: KeyId, hmac: seq<Byte>)

  ghost predicate ValidLookup(ring: LookupRing) {
    IsOrder(ring.order, ring.active, ring.keys.Keys)
  }

  /** The digests a login may be stored under, active key first; none for an empty login. */
  function Candidates(ring: LookupRing, kind: Kind, login: Login): (r: seq<Candidate>)
    requires ValidLookup(ring)
    ensures forall c :: c in r <==> login != [] && c.keyId in ring.keys && c.hmac == ring.keys[c.keyId](kind, login)
  {
    if login == [] then []
    else
      var r := seq(|ring.order|, i requires 0 <= i < |ring.order| =>
        assert ring.order[i] in ring.order;
        Candidate(ring.order[i], ring.keys[ring.order[i]](kind, login)));
      CandidatesCover(ring, kind, login, r);
      r
  }

  lemma CandidatesCover(ring: LookupRing, kind: Kind, login: Login, r: seq<Candidate>)
    requires ValidLookup(ring) && |r| == |ring.order|
    requires forall i :: 0 <= i < |r| ==> ring.order[i] in ring.keys
    requires forall i :: 0 <= i < |r| ==> r[i] == Candidate(ring.order[i], ring.keys[ring.order[i]](kind, login))
    ensures forall c :: c in r <==> c.keyId in ring.keys && c.hmac == ring.keys[c.keyId](kind, login)
  {
    forall c: Candidate | c.keyId in ring.keys && c.hmac == ring.keys[c.keyId](kind, login) ensures c in r {
      assert c.keyId in ring.order;
      var i :| 0 <= i < |ring.order| && ring.order[i] == c.keyId;
      assert r[i] == c;
    }
  }

  // ---------- devices, sessions, entitlements ----------

  datatype DeviceStatus = DeviceActive | DeviceInactive | DeviceRevoked

  datatype Device = Device(
    user: Uuid, installation: Uuid, publicKey: seq<Byte>,
    status: DeviceStatus, revokedAt: Option<Time>)

  datatype Reason =
    | ByPasswordReset | ByPasswordChange | ByAccountDeletion
    | ByAdminDisable | ByDeviceAdmin | ByAdmin | ByAdminAll | ByAdminPasswordReset
    | ByDeviceRevocation | BySelfRevocation
    | ByReplay | ByInvalidSession | ByLogout | ByIssuanceFailure

  datatype Session = Session(
    user: Uuid, device: Uuid, family: Uuid, expiresAt: Time,
    replacedAt: Option<Time>, revokedAt: Option<Time>, reason: Option<Reason>)

  datatype Entitlement = Entitlement(user: Uuid, device: Uuid, revokedAt: Option<Time>)

  function Coalesce<T>(current: Option<T>, otherwise: T): Option<T> {
    if current.Some? then current else Some(otherwise)
  }

  /** UPDATE devices SET status = 'revoked', revoked_at = COALESCE(revoked_at, at) for the given rows. */
  function RevokeDevices(devices: map<Uuid, Device>, ids: set<Uuid>, at: Time): map<Uuid, Device> {
    map d | d in devices ::
      if d in ids then devices[d].(status := DeviceRevoked, revokedAt := Coalesce(devices[d].revokedAt, at))
      else devices[d]
  }

  function RevokeSessions(sessions: map<Uuid, Session>, ids: set<Uuid>, at: Time, reason: Reason): map<Uuid, Session> {
    map s | s in sessions ::
      if s in ids
      then sessions[s].(revokedAt := Coalesce(sessions[s].revokedAt, at), reason := Coalesce(sessions[s].reason, reason))
      else sessions[s]
  }

  function RevokeEntitlements(entitlements: map<Uuid, Entitlement>, ids: set<Uuid>, at: Time): map<Uuid, Entitlement> {
    map e | e in entitlements ::
      if e in ids then entitlements[e].(revokedAt := Coalesce(entitlements[e].revokedAt, at)) else entitlements[e]
  }

  function DevicesOf(devices: map<Uuid, Device>, user: Uuid): set<Uuid> {
    set d | d in devices && devices[d].user == user
  }

  function SessionsOf(sessions: map<Uuid, Session>, user: Uuid): set<Uuid> {
    set s | s in sessions && sessions[s].user == user
  }

  function LiveSessionsOf(sessions: map<Uuid, Session>, user: Uuid): set<Uuid> {
    set s | s in sessions && sessions[s].user == user && sessions[s].revokedAt.None?
  }

  function EntitlementsOf(entitlements: map<Uuid, Entitlement>, user: Uuid): set<Uuid> {
    set e | e in entitlements && entitlements[e].user == user
  }

  // ---------- administrative operations ----------

  datatype OperationStatus = Executing | Succeeded | Failed | Conflict

  datatype Code =
    | NoCode | DeviceNotFound | SessionNotFound | UserNotFound
    | UserStateConflict | DeviceAlreadyRevoked | SessionAlreadyRevoked | NoActiveSessions

  datatype TargetType = DeviceTarget | SessionTarget | UserTarget

  datatype Operation = Operation(
    id: Uuid, status: OperationStatus, code: Code, revision: int,
    targetType: TargetType, target: Uuid, updatedAt: Time)

  /** A row of admin_operations: the sealed request and what became of it. */
  datatype StoredOperation = StoredOperation(
    keyId: KeyId, hmac: seq<Byte>, fingerprint: seq<Byte>,
    action: Action, expected: int, createdAt: Time, operation: Operation)

  /** The part of an audit event that names an administrative operation. */
  datatype AuditEvent = AuditEvent(operation: Uuid, action: Action, success: bool, expected: int, result: int)

  // ---------- the database ----------

  /** `issued` holds every identifier a challenge, device, session, session family or entitlement was ever given;
      `deviceLimit` is the configured number of active devices a user may have. */
  datatype Db = Db(
    users: map<Uuid, User>,
    spaces: map<Uuid, bool>,
    credentials: map<Uuid, seq<Byte>>,
    identities: map<Uuid, Identity>,
    challenges: map<Uuid, Challenge>,
    devices: map<Uuid, Device>,
    sessions: map<Uuid, Session>,
    entitlements: map<Uuid, Entitlement>,
    issued: set<Uuid>,
    owned: set<(Uuid, Uuid)>,
    deviceLimit: nat,
    lookup: LookupRing,
    protector: Ring,
    operations: map<Uuid, StoredOperation>,
    audit: seq<AuditEvent>)

  /** The database a deployment starts from: no rows, and its configuration. */
  function Fresh(lookup: LookupRing, protector: Ring, deviceLimit: nat): Db {
    Db(map[], map[], map[], map[], map[], map[], map[], map[], {}, {}, deviceLimit, lookup, protector, map[], [])
  }

  datatype Failure =
    | InvalidRequest | ServiceUnavailable | IdentityConflict | ReceiptUnavailable
    | AccountNotFound | InvalidCredentials | AccountPendingDeletion | AccountDisabled
    | LastIdentity | DeletionWindowExpired | OwnerTransferRequired(count: nat)
    | InvalidCommand | NotFound | Unavailable | IdempotencyKeyReused
    | AccountUnavailable | DeviceConflict | DeviceLimitReached | UnknownDevice | SelfRevokeReplayed
    | SessionEnded
}
