/** Devices and sessions as their owners use them (internal/device, internal/session): authorization,
    revocation, sign-in, refresh and logout, and the sweep of expired sessions (internal/jobs). */
module AccessSteps {
  import opened Common
  import opened Bytes
  import opened AccountState
  import opened AccountSteps

  // ---------- devices ----------

  /** `backupBound` stands for the look into the backup tables. */
  datatype AuthorizeRecord = AuthorizeRecord(
    device: Uuid, user: Uuid, installation: Uuid, publicKey: seq<Byte>, backupBound: bool)

  function Installed(devices: map<Uuid, Device>, installation: Uuid): set<Uuid> {
    set d | d in devices && devices[d].installation == installation
  }

  function ActiveDevicesOf(devices: map<Uuid, Device>, user: Uuid): set<Uuid> {
    set d | d in devices && devices[d].user == user && devices[d].status.DeviceActive?
  }

  predicate HasCapacity(db: Db, user: Uuid) {
    |ActiveDevicesOf(db.devices, user)| < db.deviceLimit
  }

  predicate KeyInUse(devices: map<Uuid, Device>, publicKey: seq<Byte>) {
    exists d :: d in devices && devices[d].publicKey == publicKey
  }

  /** A known installation comes back, for its owner or, once revoked, for another account. */
  function Reauthorize(db: Db, device: Uuid, r: AuthorizeRecord): Outcome<Db, Failure>
    requires device in db.devices
  {
    var row := db.devices[device];
    :- Need(row.publicKey == r.publicKey, DeviceConflict);
    :- Need(row.user == r.user || row.status.DeviceRevoked?, DeviceConflict);
    :- Need(row.status.DeviceActive? || HasCapacity(db, r.user), DeviceLimitReached);
    :- Need(row.user == r.user || !r.backupBound, DeviceConflict);
    Ok(db.(devices := db.devices[device := row.(user := r.user, status := DeviceActive, revokedAt := None)]))
  }

  function Authorize(db: Db, r: AuthorizeRecord): Outcome<Db, Failure> {
    if !(r.user in db.users && db.users[r.user].status.Active?) then Err(AccountUnavailable) else
    var known := Installed(db.devices, r.installation);
    if known != {} then Reauthorize(db, Least(known), r) else
    :- Need(HasCapacity(db, r.user), DeviceLimitReached);
    :- Need(!KeyInUse(db.devices, r.publicKey), DeviceConflict);
    :- Need(r.device !in db.issued, Unavailable);
    Ok(db.(devices := db.devices[r.device := Device(r.user, r.installation, r.publicKey, DeviceActive, None)],
           issued := db.issued + {r.device}))
  }

  /** UPDATE devices SET status = 'revoked', revoked_at = at. */
  function EndDevice(devices: map<Uuid, Device>, device: Uuid, at: Time): map<Uuid, Device>
    requires device in devices
  {
    devices[device := devices[device].(status := DeviceRevoked, revokedAt := Some(at))]
  }

  function SessionsAt(sessions: map<Uuid, Session>, device: Uuid): set<Uuid> {
    set s | s in sessions && sessions[s].device == device
  }

  function EntitlementsAt(entitlements: map<Uuid, Entitlement>, device: Uuid): set<Uuid> {
    set e | e in entitlements && entitlements[e].device == device
  }

  datatype RevokeDeviceRecord = RevokeDeviceRecord(user: Uuid, device: Uuid, at: Time)

  function RevokeOwnDevice(db: Db, r: RevokeDeviceRecord): Outcome<Db, Failure> {
    if !(r.user in db.users && db.users[r.user].status.Active?) then Err(AccountUnavailable) else
    :- Need(r.device in db.devices && db.devices[r.device].user == r.user, UnknownDevice);
    :- Need(!db.devices[r.device].status.DeviceRevoked?, UnknownDevice);
    var live := set s | s in SessionsAt(db.sessions, r.device) && db.sessions[s].revokedAt.None?;
    Ok(db.(devices := EndDevice(db.devices, r.device, r.at),
           sessions := OverwriteReason(db.sessions, live, r.at, ByDeviceRevocation),
           entitlements := RevokeEntitlements(db.entitlements, EntitlementsAt(db.entitlements, r.device), r.at)))
  }

  /** `replayed` stands for the nonce having been used before. */
  datatype SelfRevokeRecord = SelfRevokeRecord(user: Uuid, device: Uuid, installation: Uuid, replayed: bool, at: Time)

  function SelfRevoke(db: Db, r: SelfRevokeRecord): Outcome<Db, Failure> {
    if !(r.user != NIL && r.device != NIL && r.installation != NIL && r.at != ZERO_TIME) then Err(InvalidRequest) else
    :- Need(r.device in db.devices, UnknownDevice);
    var row := db.devices[r.device];
    :- Need(!r.replayed, SelfRevokeReplayed);
    :- Need(row.user == r.user && row.installation == r.installation && row.status.DeviceActive?, UnknownDevice);
    Ok(db.(devices := EndDevice(db.devices, r.device, r.at),
           sessions := RevokeSessions(db.sessions, SessionsAt(db.sessions, r.device), r.at, BySelfRevocation),
           entitlements := RevokeEntitlements(db.entitlements, EntitlementsAt(db.entitlements, r.device), r.at)))
  }

  // ---------- sessions ----------

  /** Session and family identifiers are both drawn afresh. */
  datatype CreateRecord = CreateRecord(
    session: Uuid, user: Uuid, device: Uuid, installation: Uuid, family: Uuid, issuedAt: Time, expiresAt: Time)

  /** User, device and personal space are all active and belong together. */
  predicate MaySignIn(db: Db, user: Uuid, device: Uuid) {
    && user in db.users && db.users[user].status.Active?
    && device in db.devices && db.devices[device].user == user && db.devices[device].status.DeviceActive?
    && user in db.spaces && db.spaces[user]
  }

  function CreateSession(db: Db, r: CreateRecord): Outcome<Db, Failure> {
    if !(r.session != NIL && r.family != NIL && r.user != NIL && r.device != NIL && r.installation != NIL && r.expiresAt > r.issuedAt)
    then Err(SessionEnded) else
    :- Need(MaySignIn(db, r.user, r.device) && db.devices[r.device].installation == r.installation, SessionEnded);
    :- Need(r.session !in db.issued && r.family !in db.issued, Unavailable);
    Ok(db.(sessions := db.sessions[r.session := Session(r.user, r.device, r.family, r.expiresAt, None, None, None)],
           issued := db.issued + {r.session, r.family}))
  }

  function Family(sessions: map<Uuid, Session>, family: Uuid): set<Uuid> {
    set s | s in sessions && sessions[s].family == family
  }

  /** The whole family is revoked, and the replay becomes the reason even of rows revoked before. */
  function MarkReplay(sessions: map<Uuid, Session>, ids: set<Uuid>, at: Time): map<Uuid, Session> {
    map s | s in sessions ::
      if s in ids then sessions[s].(revokedAt := Coalesce(sessions[s].revokedAt, at), reason := Some(ByReplay))
      else sessions[s]
  }

  /** `source` is the session whose refresh token was presented. */
  datatype RotateRecord = RotateRecord(source: Uuid, successor: Uuid, issuedAt: Time, expiresAt: Time, at: Time)

  function EndedBecause(status: Status): Failure {
    match status
    case Active => SessionEnded
    case PendingDeletion => AccountPendingDeletion
    case Disabled => AccountDisabled
  }

  /** The user, device and personal space a session is joined with. */
  predicate Joined(db: Db, row: Session) {
    row.user in db.users && row.device in db.devices && row.user in db.spaces
  }

  /** The token presented was replaced before: a replay. */
  predicate Replays(db: Db, r: RotateRecord) {
    && r.successor != NIL && r.expiresAt > r.issuedAt && r.source in db.sessions
    && Joined(db, db.sessions[r.source]) && db.sessions[r.source].replacedAt.Some?
  }

  /** The sessions and identifiers after a refresh, and the error the caller sees. */
  datatype Refreshed = Refreshed(sessions: map<Uuid, Session>, issued: set<Uuid>, error: Option<Failure>)

  function Refresh(db: Db, r: RotateRecord): Refreshed {
    if r.successor == NIL || r.expiresAt <= r.issuedAt || r.source !in db.sessions
    then Refreshed(db.sessions, db.issued, Some(SessionEnded))
    else
      var row := db.sessions[r.source];
      var family := Family(db.sessions, row.family);
      if !Joined(db, row) then Refreshed(db.sessions, db.issued, Some(SessionEnded))
      else if row.replacedAt.Some? then Refreshed(MarkReplay(db.sessions, family, r.at), db.issued, Some(SessionEnded))
      else if row.revokedAt.Some? || r.at >= row.expiresAt || !db.users[row.user].status.Active? || !db.devices[row.device].status.DeviceActive?
      then Refreshed(RevokeSessions(db.sessions, family, r.at, ByInvalidSession), db.issued, Some(EndedBecause(db.users[row.user].status)))
      else if r.successor in db.issued then Refreshed(db.sessions, db.issued, Some(Unavailable))
      else
        var next := Session(row.user, row.device, row.family, r.expiresAt, None, None, None);
        Refreshed(db.sessions[r.source := row.(replacedAt := Some(r.at))][r.successor := next], db.issued + {r.successor}, None)
  }

  /** A refresh commits its changes even where it answers with an error. */
  function Rotate(db: Db, r: RotateRecord): (Db, Option<Failure>) {
    var t := Refresh(db, r);
    (db.(sessions := t.sessions, issued := t.issued), t.error)
  }

  function EndFamily(db: Db, family: Uuid, at: Time, reason: Reason): Db {
    db.(sessions := RevokeSessions(db.sessions, Family(db.sessions, family), at, reason))
  }

  /** `session` is the one whose refresh token was presented. */
  function Logout(db: Db, session: Uuid, at: Time): Outcome<Db, Failure> {
    if !(session in db.sessions) then Err(SessionEnded)
    else Ok(EndFamily(db, db.sessions[session].family, at, ByLogout))
  }

  function SweepSessions(db: Db, now: Time): Db {
    db.(sessions := db.sessions - (set s | s in db.sessions && db.sessions[s].expiresAt <= now))
  }

  /** What every authenticated request asks. */
  predicate AccessActive(db: Db, session: Uuid, user: Uuid, device: Uuid, now: Time) {
    && session in db.sessions
    && db.sessions[session].user == user && db.sessions[session].device == device
    && db.sessions[session].revokedAt.None? && db.sessions[session].expiresAt > now
    && MaySignIn(db, user, device)
  }
}
