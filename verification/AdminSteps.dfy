/** Administrative steps (internal/admin): the operator commands and the control API, whose
    operations run exactly once. */
module AdminSteps {
  import opened Common
  import opened Bytes
  import opened Protector
  import opened AccountState
  import opened AccountSteps

  // ---------- lifecycle updates ----------

  /** UPDATE users SET administrative_revision = administrative_revision + 1. */
  function Increment(db: Db, user: Uuid): Db
    requires user in db.users
  {
    db.(users := db.users[user := db.users[user].(revision := db.users[user].revision + 1)])
  }

  function DisableLifecycle(db: Db, user: Uuid, now: Time): Outcome<Db, Failure>
    requires user in db.users
  {
    var row := db.users[user].(status := Disabled, adminDisabled := true, revision := db.users[user].revision + 1);
    :- Need(user in db.spaces, Unavailable);
    Ok(RevokeEverything(db, user, now, ByAdminDisable)
       .(users := db.users[user := row], spaces := db.spaces[user := false]))
  }

  function EnableLifecycle(db: Db, user: Uuid): Outcome<Db, Failure>
    requires user in db.users
  {
    var row := db.users[user].(status := Active, adminDisabled := false, revision := db.users[user].revision + 1);
    :- Need(user in db.spaces, Unavailable);
    Ok(db.(users := db.users[user := row], spaces := db.spaces[user := true]))
  }

  function RevokeDeviceLifecycle(db: Db, user: Uuid, device: Uuid, now: Time): Outcome<Db, Failure>
    requires user in db.users
  {
    if !(device in db.devices && db.devices[device].user == user) then Err(Unavailable) else
    var sessions := set s | s in db.sessions && db.sessions[s].device == device;
    var entitlements := set e | e in db.entitlements && db.entitlements[e].device == device;
    Ok(Increment(db.(devices := RevokeDevices(db.devices, {device}, now),
                     sessions := RevokeSessions(db.sessions, sessions, now, ByDeviceAdmin),
                     entitlements := RevokeEntitlements(db.entitlements, entitlements, now)), user))
  }

  function FamilyOf(db: Db, user: Uuid, family: Uuid): set<Uuid> {
    set s | s in db.sessions && db.sessions[s].family == family && db.sessions[s].user == user
  }

  function RevokeFamilyLifecycle(db: Db, user: Uuid, family: Uuid, now: Time): Outcome<Db, Failure>
    requires user in db.users
  {
    var members := FamilyOf(db, user, family);
    :- Need(members != {}, Unavailable);
    Ok(Increment(db.(sessions := RevokeSessions(db.sessions, members, now, ByAdmin)), user))
  }

  function RevokeAllLifecycle(db: Db, user: Uuid, now: Time): Db
    requires user in db.users
  {
    Increment(db.(sessions := RevokeSessions(db.sessions, LiveSessionsOf(db.sessions, user), now, ByAdminAll),
                  entitlements := RevokeEntitlements(db.entitlements, EntitlementsOf(db.entitlements, user), now)), user)
  }

  function ForceResetLifecycle(db: Db, user: Uuid, now: Time, secret: seq<Byte>): Outcome<Db, Failure>
    requires user in db.users
  {
    if !(user in db.credentials) then Err(Unavailable) else
    Ok(Increment(db.(credentials := db.credentials[user := secret],
                     sessions := RevokeSessions(db.sessions, LiveSessionsOf(db.sessions, user), now, ByAdminPasswordReset),
                     entitlements := RevokeEntitlements(db.entitlements, EntitlementsOf(db.entitlements, user), now)), user))
  }

  // ---------- operator commands ----------

  /** `operatorOk` stands for the operator-name normalization. */
  datatype Mutation = Mutation(operatorOk: bool, target: Uuid, audit: Uuid, at: Time)

  predicate ValidMutation(m: Mutation) {
    m.operatorOk && m.target != NIL && m.audit != NIL && m.at != ZERO_TIME
  }

  function DisableAccount(db: Db, m: Mutation): Outcome<Db, Failure> {
    if !(ValidMutation(m)) then Err(InvalidCommand) else
    :- Need(m.target in db.users && db.users[m.target].status.Active?, NotFound);
    DisableLifecycle(db, m.target, m.at)
  }

  function EnableAccount(db: Db, m: Mutation): Outcome<Db, Failure> {
    if !(ValidMutation(m)) then Err(InvalidCommand) else
    :- Need(m.target in db.users, NotFound);
    var user := db.users[m.target];
    :- Need(user.status.Disabled? && user.adminDisabled && user.finalizedAt.None?, NotFound);
    EnableLifecycle(db, m.target)
  }

  function RevokeSessionCommand(db: Db, m: Mutation): Outcome<Db, Failure> {
    if !(ValidMutation(m)) then Err(InvalidCommand) else
    :- Need(m.target in db.sessions, NotFound);
    var session := db.sessions[m.target];
    :- Need(session.user in db.users, Unavailable);
    RevokeFamilyLifecycle(db, session.user, session.family, m.at)
  }

  // ---------- the control API ----------

  datatype Cause = TargetMissing | StateConflict

  /** A domain failure that is recorded with the operation. */
  datatype Denial = Denial(cause: Cause, code: Code)

  /** What applying an action comes to: a new database, a recorded denial, or an abandoned transaction. */
  datatype Applied =
    | Mutated(db: Db, user: Uuid, before: int, after: int)
    | Denied(denial: Denial)
    | Broken

  /** One call: what was asked, the clock readings it takes, and the random secret a forced reset draws. */
  datatype Call = Call(
    action: Action, target: Uuid, command: Command, subjectOk: bool,
    createdAt: Time, appliedAt: Time, finishedAt: Time, secret: seq<Byte>)

  function TargetTypeOf(action: Action): TargetType {
    match action
    case RevokeDevice => DeviceTarget
    case RevokeSession => SessionTarget
    case _ => UserTarget
  }

  function NotFoundCode(action: Action): Code {
    match action
    case RevokeDevice => DeviceNotFound
    case RevokeSession => SessionNotFound
    case _ => UserNotFound
  }

  function ResolveUser(db: Db, action: Action, target: Uuid): Option<Uuid> {
    match action
    case RevokeDevice => if target in db.devices then Some(db.devices[target].user) else None
    case RevokeSession => if target in db.sessions then Some(db.sessions[target].user) else None
    case _ => if target in db.users then Some(target) else None
  }

  /** The state guard of an action, past the revision check: the code it is denied with, or none. */
  function Guard(db: Db, action: Action, target: Uuid, user: Uuid): Code
    requires user in db.users && ResolveUser(db, action, target) == Some(user)
  {
    var row := db.users[user];
    match action
    case RevokeDevice => if db.devices[target].status.DeviceRevoked? then DeviceAlreadyRevoked else NoCode
    case RevokeSession => if db.sessions[target].revokedAt.Some? then SessionAlreadyRevoked else NoCode
    case RevokeAllSessions => if LiveSessionsOf(db.sessions, user) == {} then NoActiveSessions else NoCode
    case ForcePasswordReset => if !row.status.Active? || row.finalizedAt.Some? then UserStateConflict else NoCode
    case DisableUser =>
      if !row.status.Active? || row.adminDisabled || row.finalizedAt.Some? then UserStateConflict else NoCode
    case EnableUser =>
      if !row.status.Disabled? || !row.adminDisabled || row.finalizedAt.Some? then UserStateConflict else NoCode
  }

  function Lifecycle(db: Db, action: Action, target: Uuid, user: Uuid, now: Time, secret: seq<Byte>): Outcome<Db, Failure>
    requires user in db.users && ResolveUser(db, action, target) == Some(user)
  {
    match action
    case RevokeDevice => RevokeDeviceLifecycle(db, user, target, now)
    case RevokeSession => RevokeFamilyLifecycle(db, user, db.sessions[target].family, now)
    case RevokeAllSessions => Ok(RevokeAllLifecycle(db, user, now))
    case ForcePasswordReset => ForceResetLifecycle(db, user, now, secret)
    case DisableUser => DisableLifecycle(db, user, now)
    case EnableUser => EnableLifecycle(db, user)
  }

  function ApplyAction(db: Db, x: Call): Applied {
    var resolved := ResolveUser(db, x.action, x.target);
    if resolved.None? || resolved.value !in db.users then Denied(Denial(TargetMissing, NotFoundCode(x.action)))
    else
      var user := resolved.value;
      var revision := db.users[user].revision;
      if revision < 1 then Broken
      else if revision != x.command.expected then Denied(Denial(StateConflict, UserStateConflict))
      else if x.appliedAt == ZERO_TIME then Broken
      else if Guard(db, x.action, x.target, user) != NoCode
      then Denied(Denial(StateConflict, Guard(db, x.action, x.target, user)))
      else
        var changed := Lifecycle(db, x.action, x.target, user, x.appliedAt, x.secret);
        if changed.Err? || user !in changed.value.users || changed.value.users[user].revision != revision + 1 then Broken
        else Mutated(changed.value, user, revision, revision + 1)
  }

  predicate ValidOperation(o: Operation) {
    && o.id != NIL && o.updatedAt != ZERO_TIME
    && match o.status
       case Executing => o.code == NoCode && o.revision == 0
       case Succeeded => o.code == NoCode && o.revision >= 1
       case _ => o.code != NoCode && o.revision == 0
  }

  /** A reply: the operation and the domain failure that goes with it, or a refusal. */
  datatype Answer = Replied(operation: Operation, denial: Option<Denial>) | Refused(error: Failure)

  function IdempotencyDigest(ring: Ring, keyId: KeyId, operation: Uuid): seq<Byte>
    requires keyId in ring.keys
  {
    ring.keys[keyId].mac(IdempotencyMessage(operation))
  }

  function SealedUnder(operations: map<Uuid, StoredOperation>, keyId: KeyId, hmac: seq<Byte>): set<Uuid> {
    set o | o in operations && operations[o].keyId == keyId && operations[o].hmac == hmac
  }

  function FindByDigests(db: Db, operation: Uuid, order: seq<KeyId>): Option<Uuid>
    requires forall k :: k in order ==> k in db.protector.keys
  {
    if order == [] then None
    else
      var found := SealedUnder(db.operations, order[0], IdempotencyDigest(db.protector, order[0], operation));
      if found != {} then Some(Least(found)) else FindByDigests(db, operation, order[1..])
  }

  /** By identifier first, then by any digest the ring can form. */
  function FindOperation(db: Db, operation: Uuid): Option<Uuid>
    requires ValidRing(db.protector)
  {
    if operation in db.operations then Some(operation) else FindByDigests(db, operation, db.protector.order)
  }

  function ReplayResult(o: Operation): Answer {
    if !ValidOperation(o) then Refused(Unavailable)
    else match o.status
         case Failed => Replied(o, Some(Denial(TargetMissing, o.code)))
         case Conflict => Replied(o, Some(Denial(StateConflict, o.code)))
         case _ => Replied(o, None)
  }

  function Replay(db: Db, stored: StoredOperation, x: Call): Answer {
    var fingerprint := RequestFingerprint(db.protector, stored.keyId, x.action, x.target, x.command);
    if fingerprint.None? || |fingerprint.value| != 32 then Refused(Unavailable)
    else if fingerprint.value != stored.fingerprint then Refused(IdempotencyKeyReused)
    else ReplayResult(stored.operation)
  }

  /** The row insertExecuting writes. */
  function ExecutingRow(db: Db, x: Call): StoredOperation
    requires db.protector.active in db.protector.keys
  {
    var ring := db.protector;
    StoredOperation(ring.active, IdempotencyDigest(ring, ring.active, x.command.operation),
                    RequestFingerprint(ring, ring.active, x.action, x.target, x.command).value,
                    x.action, x.command.expected, x.createdAt,
                    Operation(x.command.operation, Executing, NoCode, 0, TargetTypeOf(x.action), x.target, x.createdAt))
  }

  /** An executing operation closed; no denial means success. */
  function Closed(open: StoredOperation, at: Time, result: int, denial: Option<Denial>): StoredOperation {
    var status := if denial.None? then Succeeded else if denial.value.cause.TargetMissing? then Failed else Conflict;
    var code := if denial.None? then NoCode else denial.value.code;
    open.(operation := open.operation.(status := status, code := code, revision := result, updatedAt := at))
  }

  function AuditOf(x: Call, result: int, denial: Option<Denial>): AuditEvent {
    AuditEvent(x.command.operation, x.action, denial.None?, x.command.expected, result)
  }

  /** Closing the executing row and writing its audit event. */
  function Finish(db: Db, x: Call, result: int, denial: Option<Denial>): (Db, Answer) {
    var id := x.command.operation;
    if x.finishedAt == ZERO_TIME || x.finishedAt < x.createdAt || id !in db.operations then (db, Refused(Unavailable))
    else
      var closed := Closed(db.operations[id], x.finishedAt, result, denial);
      (db.(operations := db.operations[id := closed], audit := db.audit + [AuditOf(x, result, denial)]),
       Replied(closed.operation, denial))
  }

  /** A call that found no stored operation and sealed itself as `row`. */
  function ExecuteFresh(db: Db, x: Call, row: StoredOperation): (Db, Answer) {
    if |row.fingerprint| != 32 then (db, Refused(Unavailable))
    else if |row.hmac| != 32 then (db, Refused(InvalidCommand))
    else if x.createdAt == ZERO_TIME then (db, Refused(Unavailable))
    else
      var tx := db.(operations := db.operations[x.command.operation := row]);
      match ApplyAction(tx, x)
      case Broken => (db, Refused(Unavailable))
      case Denied(denial) => CommitOr(db, Finish(tx, x, 0, Some(denial)))
      case Mutated(acted, _, _, after) => CommitOr(db, Finish(acted, x, after, None))
  }

  function CommitOr(db: Db, finished: (Db, Answer)): (Db, Answer) {
    if finished.1.Refused? then (db, finished.1) else finished
  }

  function Execute(db: Db, x: Call): (Db, Answer)
    requires ValidRing(db.protector)
  {
    if !ValidCommand(x.action, x.target, x.command) || !x.subjectOk then (db, Refused(InvalidCommand))
    else
      var found := FindOperation(db, x.command.operation);
      if found.Some? && found.value in db.operations then (db, Replay(db, db.operations[found.value], x))
      else ExecuteFresh(db, x, ExecutingRow(db, x))
  }
}
