/** What each account step changes when it commits, table by table. */
module AccountShapes {
  import opened Common
  import opened Bytes
  import opened Protector
  import opened AccountState
  import opened AccountSteps
  import opened AdminSteps

  /** The receipt the step spends, and the table after. */
  ghost predicate Spends(a: Db, b: Db, claims: Claims, at: Time)
    requires ValidLookup(a.lookup)
  {
    && ReceiptAvailable(a, claims)
    && b.challenges == Spend(a.challenges, claims.challenge, at)
  }

  ghost predicate Registered(a: Db, b: Db, r: RegisterRecord)
    requires ValidLookup(a.lookup)
  {
    var row := Identity(r.user, r.claims.kind, r.keyId, r.hmac, r.claims.login);
    && r.user !in a.users && r.identity !in a.identities && r.claims.purpose.Registration?
    && SealedMatches(a, r.keyId, r.hmac, r.claims) && !IdentityExists(a, r.claims.kind, r.claims.login)
    && !ClashesWith(a.identities, row)
    && b == a.(users := a.users[r.user := NEW_USER], spaces := a.spaces[r.user := true],
               credentials := a.credentials[r.user := r.password],
               identities := a.identities[r.identity := row], challenges := b.challenges)
    && if r.direct then b.challenges == a.challenges else Spends(a, b, r.claims, r.at)
  }

  ghost predicate ClashesWith(identities: map<Uuid, Identity>, row: Identity) {
    exists i :: i in identities && identities[i].kind == row.kind && identities[i].hmac == row.hmac
  }

  lemma RegisterShape(db: Db, r: RegisterRecord)
    requires ValidLookup(db.lookup) && Register(db, r).Ok?
    ensures Registered(db, Register(db, r).value, r)
  {
  }

  ghost predicate SignedIn(a: Db, b: Db, r: LoginRecord)
    requires ValidLookup(a.lookup)
  {
    && r.claims.purpose.SignIn? && FindUser(a, r.claims) == Some(r.user)
    && r.user in a.users && a.users[r.user].status.Active?
    && Spends(a, b, r.claims, r.at) && b == a.(challenges := b.challenges)
  }

  lemma LoginShape(db: Db, r: LoginRecord)
    requires ValidLookup(db.lookup) && ConsumeLoginReceipt(db, r).Ok?
    ensures SignedIn(db, ConsumeLoginReceipt(db, r).value, r)
  {
  }

  /** Password set anew: the credential and the user's password version. */
  ghost predicate PasswordSet(a: Db, b: Db, user: Uuid, password: seq<Byte>) {
    && user in a.users && user in a.credentials
    && b.credentials == a.credentials[user := password]
    && b.users == a.users[user := a.users[user].(passwordVersion := a.users[user].passwordVersion + 1)]
  }

  ghost predicate PasswordWasReset(a: Db, b: Db, r: ResetRecord)
    requires ValidLookup(a.lookup)
  {
    var owner := FindUser(a, r.claims);
    && r.claims.purpose.PasswordReset? && owner.Some? && PasswordSet(a, b, owner.value, r.password)
    && !a.users[owner.value].status.Disabled?
    && Spends(a, b, r.claims, r.at)
    && b == a.(users := b.users, credentials := b.credentials, challenges := b.challenges,
               sessions := OverwriteReason(a.sessions, LiveSessionsOf(a.sessions, owner.value), r.at, ByPasswordReset))
  }

  lemma ResetShape(db: Db, r: ResetRecord)
    requires ValidLookup(db.lookup) && ResetPassword(db, r).Ok?
    ensures PasswordWasReset(db, ResetPassword(db, r).value, r)
  {
  }

  ghost predicate Bound(a: Db, b: Db, r: BindRecord)
    requires ValidLookup(a.lookup)
  {
    var row := Identity(r.user, r.claims.kind, r.keyId, r.hmac, r.claims.login);
    && r.user in a.users && a.users[r.user].status.Active? && r.claims.purpose.BindLogin?
    && r.identity !in a.identities
    && SealedMatches(a, r.keyId, r.hmac, r.claims) && !IdentityExists(a, r.claims.kind, r.claims.login)
    && !HasKind(a.identities, r.user, r.claims.kind) && !ClashesWith(a.identities, row)
    && Spends(a, b, r.claims, r.at)
    && b == a.(identities := a.identities[r.identity := row], challenges := b.challenges)
  }

  lemma BindShape(db: Db, r: BindRecord)
    requires ValidLookup(db.lookup) && BindIdentity(db, r).Ok?
    ensures Bound(db, BindIdentity(db, r).value, r)
  {
  }

  ghost predicate Removed(a: Db, b: Db, r: RemoveRecord) {
    var mine := IdentitiesOf(a.identities, r.user);
    && r.user in a.users && a.users[r.user].status.Active? && |mine| > 1
    && exists i :: i in mine && a.identities[i].kind == r.kind && b == a.(identities := a.identities - {i})
  }

  lemma RemoveShape(db: Db, r: RemoveRecord)
    requires RemoveIdentity(db, r).Ok?
    ensures Removed(db, RemoveIdentity(db, r).value, r)
  {
    var removed := OfKind(db.identities, r.user, r.kind);
    var i :| i in removed;
    OnlyMember(removed, i);
  }

  lemma OnlyMember(s: set<Uuid>, x: Uuid)
    requires x in s && |s| == 1
    ensures s == {x}
  {
    assert |s - {x}| == 0;
  }

  ghost predicate PasswordChanged(a: Db, b: Db, r: ChangeRecord) {
    && r.session in a.sessions && a.sessions[r.session].user == r.user
    && a.sessions[r.session].revokedAt.None?
    && PasswordSet(a, b, r.user, r.password) && a.users[r.user].status.Active?
    && var device := a.sessions[r.session].device;
    && b == a.(users := b.users, credentials := b.credentials,
               devices := RevokeDevices(a.devices, DevicesOf(a.devices, r.user) - {device}, r.at),
               sessions := RevokeSessions(a.sessions, SessionsOf(a.sessions, r.user) - {r.session}, r.at, ByPasswordChange),
               entitlements := RevokeEntitlements(a.entitlements, EntitlementsElsewhere(a.entitlements, r.user, device), r.at))
  }

  lemma ChangeShape(db: Db, r: ChangeRecord)
    requires ChangePassword(db, r).Ok?
    ensures PasswordChanged(db, ChangePassword(db, r).value, r)
  {
  }

  ghost predicate RevokedAll(a: Db, b: Db, user: Uuid, at: Time, reason: Reason) {
    && b.devices == RevokeDevices(a.devices, DevicesOf(a.devices, user), at)
    && b.sessions == RevokeSessions(a.sessions, SessionsOf(a.sessions, user), at, reason)
    && b.entitlements == RevokeEntitlements(a.entitlements, EntitlementsOf(a.entitlements, user), at)
  }

  ghost predicate Requested(a: Db, b: Db, r: DeletionRecord)
    requires ValidLookup(a.lookup)
  {
    && r.user in a.users && a.users[r.user].status.Active? && r.claims.purpose.AccountDeletion?
    && FindUser(a, r.claims) == Some(r.user)
    && Spends(a, b, r.claims, r.at) && RevokedAll(a, b, r.user, r.at, ByAccountDeletion)
    && b == a.(users := a.users[r.user := a.users[r.user].(status := PendingDeletion, requestedAt := Some(r.at), finalizedAt := None)],
               spaces := SetSpace(a.spaces, r.user, false), challenges := b.challenges,
               devices := b.devices, sessions := b.sessions, entitlements := b.entitlements)
  }

  lemma RequestShape(db: Db, r: DeletionRecord)
    requires ValidLookup(db.lookup) && RequestDeletion(db, r).Ok?
    ensures Requested(db, RequestDeletion(db, r).value, r)
  {
  }

  ghost predicate Recovered(a: Db, b: Db, r: DeletionRecord)
    requires ValidLookup(a.lookup)
  {
    && r.user in a.users && a.users[r.user].status.PendingDeletion? && a.users[r.user].requestedAt.Some?
    && r.claims.purpose.DeletionRecovery? && FindUser(a, r.claims) == Some(r.user)
    && r.at < a.users[r.user].requestedAt.value + RECOVERY_WINDOW
    && Spends(a, b, r.claims, r.at)
    && b == a.(users := a.users[r.user := a.users[r.user].(status := Active, requestedAt := None, finalizedAt := None)],
               spaces := SetSpace(a.spaces, r.user, true), challenges := b.challenges)
  }

  lemma RecoverShape(db: Db, r: DeletionRecord)
    requires ValidLookup(db.lookup) && RecoverDeletion(db, r).Ok?
    ensures Recovered(db, RecoverDeletion(db, r).value, r)
  {
  }

  ghost predicate Finalized(a: Db, b: Db, r: FinalizeRecord) {
    && r.user in a.users && a.users[r.user].status.PendingDeletion? && a.users[r.user].requestedAt.Some?
    && r.at >= a.users[r.user].requestedAt.value + RECOVERY_WINDOW
    && b == a.(users := a.users[r.user := a.users[r.user].(status := Disabled, adminDisabled := false, finalizedAt := Some(r.at))],
               spaces := a.spaces - {r.user}, credentials := a.credentials - {r.user},
               identities := a.identities - IdentitiesOf(a.identities, r.user),
               challenges := b.challenges, devices := b.devices, sessions := b.sessions, entitlements := b.entitlements)
    && Shrinks(a.challenges, b.challenges) && Shrinks(a.devices, b.devices)
    && Shrinks(a.sessions, b.sessions) && Shrinks(a.entitlements, b.entitlements)
  }

  ghost predicate Shrinks<T(!new)>(m: map<Uuid, T>, n: map<Uuid, T>) {
    forall k :: k in n ==> k in m && n[k] == m[k]
  }

  lemma FinalizeShape(db: Db, r: FinalizeRecord)
    requires FinalizeDeletion(db, r).Ok?
    ensures Finalized(db, FinalizeDeletion(db, r).value, r)
  {
  }

  // ---------- revocation ----------

  /** A later version of a session, its refresh token replayed or not: owner, device and family, a revocation time,
      a replacement and a replay that was found out all stay. */
  ghost predicate SessionMoves(s: Session, t: Session) {
    && t == s.(revokedAt := t.revokedAt, reason := t.reason, replacedAt := t.replacedAt)
    && (s.revokedAt.Some? ==> t.revokedAt == s.revokedAt) && (s.replacedAt.Some? ==> t.replacedAt == s.replacedAt)
    && (s.reason == Some(ByReplay) ==> t.reason == s.reason)
  }

  /** A later version of a row: what was revoked stays revoked as it was. */
  ghost predicate SessionAdvances(s: Session, t: Session) {
    SessionMoves(s, t) && (s.reason.Some? ==> t.reason == s.reason)
  }

  ghost predicate DeviceAdvances(s: Device, t: Device) {
    && t == s.(status := t.status, revokedAt := t.revokedAt)
    && (s.revokedAt.Some? ==> t.revokedAt == s.revokedAt) && (t.status == s.status || t.status.DeviceRevoked?)
  }

  ghost predicate EntitlementAdvances(s: Entitlement, t: Entitlement) {
    t == s.(revokedAt := t.revokedAt) && (s.revokedAt.Some? ==> t.revokedAt == s.revokedAt)
  }

  /** The same rows, some of them newly revoked, with time and reason together. */
  ghost predicate SessionsRevoked(a: map<Uuid, Session>, b: map<Uuid, Session>) {
    && a.Keys == b.Keys
    && (forall s :: s in a ==> SessionAdvances(a[s], b[s]))
    && (forall s :: s in a && (a[s].revokedAt.None? <==> a[s].reason.None?) ==> (b[s].revokedAt.None? <==> b[s].reason.None?))
  }

  ghost predicate DevicesRevoked(a: map<Uuid, Device>, b: map<Uuid, Device>) {
    && a.Keys == b.Keys
    && (forall d :: d in a ==> DeviceAdvances(a[d], b[d]))
    && (forall d :: d in a && (a[d].status.DeviceRevoked? <==> a[d].revokedAt.Some?) ==> (b[d].status.DeviceRevoked? <==> b[d].revokedAt.Some?))
  }

  ghost predicate EntitlementsRevoked(a: map<Uuid, Entitlement>, b: map<Uuid, Entitlement>) {
    a.Keys == b.Keys && forall e :: e in a ==> EntitlementAdvances(a[e], b[e])
  }

  ghost predicate Revoked(a: Db, b: Db) {
    && SessionsRevoked(a.sessions, b.sessions) && DevicesRevoked(a.devices, b.devices)
    && EntitlementsRevoked(a.entitlements, b.entitlements)
  }

  lemma RevokeSessionsAdvances(sessions: map<Uuid, Session>, ids: set<Uuid>, at: Time, reason: Reason)
    ensures SessionsRevoked(sessions, RevokeSessions(sessions, ids, at, reason))
  {
  }

  lemma OverwriteAdvances(sessions: map<Uuid, Session>, user: Uuid, at: Time, reason: Reason)
    requires forall s :: s in sessions ==> (sessions[s].revokedAt.None? <==> sessions[s].reason.None?)
    ensures SessionsRevoked(sessions, OverwriteReason(sessions, LiveSessionsOf(sessions, user), at, reason))
  {
  }

  lemma RevokeDevicesAdvances(devices: map<Uuid, Device>, ids: set<Uuid>, at: Time)
    ensures DevicesRevoked(devices, RevokeDevices(devices, ids, at))
  {
  }

  lemma RevokeEntitlementsAdvances(entitlements: map<Uuid, Entitlement>, ids: set<Uuid>, at: Time)
    ensures EntitlementsRevoked(entitlements, RevokeEntitlements(entitlements, ids, at))
  {
  }

  // ---------- administrative changes ----------

  /** What becomes of the user row and the personal space. */
  ghost predicate StatusMoves(a: User, b: User, space: map<Uuid, bool>, after: map<Uuid, bool>, user: Uuid) {
    || (b == a.(revision := a.revision + 1) && after == space)
    || (a.status.Active? && b == a.(status := Disabled, adminDisabled := true, revision := a.revision + 1)
        && user in space && after == space[user := false])
    || (a.status.Disabled? && a.adminDisabled && a.finalizedAt.None?
        && b == a.(status := Active, adminDisabled := false, revision := a.revision + 1)
        && user in space && after == space[user := true])
  }

  /** An administrative change of one user: the revision moves by one, rows are only revoked. */
  ghost predicate AdminChanges(a: Db, b: Db, user: Uuid) {
    && user in a.users && b.users.Keys == a.users.Keys && b.users == a.users[user := b.users[user]]
    && StatusMoves(a.users[user], b.users[user], a.spaces, b.spaces, user)
    && b.credentials.Keys == a.credentials.Keys
    && Revoked(a, b)
    && b == a.(users := b.users, spaces := b.spaces, credentials := b.credentials,
               devices := b.devices, sessions := b.sessions, entitlements := b.entitlements)
  }

  lemma Unrevoked(db: Db)
    ensures Revoked(db, db)
  {
  }

  lemma DisableChanges(db: Db, user: Uuid, now: Time)
    requires user in db.users && db.users[user].status.Active? && DisableLifecycle(db, user, now).Ok?
    ensures AdminChanges(db, DisableLifecycle(db, user, now).value, user)
  {
    RevokeSessionsAdvances(db.sessions, SessionsOf(db.sessions, user), now, ByAdminDisable);
    RevokeDevicesAdvances(db.devices, DevicesOf(db.devices, user), now);
    RevokeEntitlementsAdvances(db.entitlements, EntitlementsOf(db.entitlements, user), now);
  }

  lemma EnableChanges(db: Db, user: Uuid)
    requires user in db.users && db.users[user].status.Disabled? && db.users[user].adminDisabled
    requires db.users[user].finalizedAt.None? && EnableLifecycle(db, user).Ok?
    ensures AdminChanges(db, EnableLifecycle(db, user).value, user)
  {
    Unrevoked(db);
  }

  lemma DeviceChanges(db: Db, user: Uuid, device: Uuid, now: Time)
    requires user in db.users && RevokeDeviceLifecycle(db, user, device, now).Ok?
    ensures AdminChanges(db, RevokeDeviceLifecycle(db, user, device, now).value, user)
  {
    var sessions := set s | s in db.sessions && db.sessions[s].device == device;
    var entitlements := set e | e in db.entitlements && db.entitlements[e].device == device;
    RevokeSessionsAdvances(db.sessions, sessions, now, ByDeviceAdmin);
    RevokeDevicesAdvances(db.devices, {device}, now);
    RevokeEntitlementsAdvances(db.entitlements, entitlements, now);
  }

  lemma FamilyChanges(db: Db, user: Uuid, family: Uuid, now: Time)
    requires user in db.users && RevokeFamilyLifecycle(db, user, family, now).Ok?
    ensures AdminChanges(db, RevokeFamilyLifecycle(db, user, family, now).value, user)
  {
    Unrevoked(db);
    RevokeSessionsAdvances(db.sessions, FamilyOf(db, user, family), now, ByAdmin);
  }

  lemma AllSessionsChange(db: Db, user: Uuid, now: Time)
    requires user in db.users
    ensures AdminChanges(db, RevokeAllLifecycle(db, user, now), user)
  {
    Unrevoked(db);
    RevokeSessionsAdvances(db.sessions, LiveSessionsOf(db.sessions, user), now, ByAdminAll);
    RevokeEntitlementsAdvances(db.entitlements, EntitlementsOf(db.entitlements, user), now);
  }

  lemma ForceResetChanges(db: Db, user: Uuid, now: Time, secret: seq<Byte>)
    requires user in db.users && ForceResetLifecycle(db, user, now, secret).Ok?
    ensures AdminChanges(db, ForceResetLifecycle(db, user, now, secret).value, user)
  {
    Unrevoked(db);
    RevokeSessionsAdvances(db.sessions, LiveSessionsOf(db.sessions, user), now, ByAdminPasswordReset);
    RevokeEntitlementsAdvances(db.entitlements, EntitlementsOf(db.entitlements, user), now);
  }

  lemma LifecycleChanges(db: Db, x: Call, user: Uuid)
    requires user in db.users && ResolveUser(db, x.action, x.target) == Some(user)
    requires Guard(db, x.action, x.target, user) == NoCode
    requires Lifecycle(db, x.action, x.target, user, x.appliedAt, x.secret).Ok?
    ensures AdminChanges(db, Lifecycle(db, x.action, x.target, user, x.appliedAt, x.secret).value, user)
  {
    match x.action
    case RevokeDevice => DeviceChanges(db, user, x.target, x.appliedAt);
    case RevokeSession => FamilyChanges(db, user, db.sessions[x.target].family, x.appliedAt);
    case RevokeAllSessions => AllSessionsChange(db, user, x.appliedAt);
    case ForcePasswordReset => ForceResetChanges(db, user, x.appliedAt, x.secret);
    case DisableUser => DisableChanges(db, user, x.appliedAt);
    case EnableUser => EnableChanges(db, user);
  }

  lemma ApplyShape(db: Db, x: Call)
    requires ApplyAction(db, x).Mutated?
    ensures var m := ApplyAction(db, x);
            && AdminChanges(db, m.db, m.user) && ResolveUser(db, x.action, x.target) == Some(m.user)
            && db.users[m.user].revision == x.command.expected == m.before >= 1
            && m.after == m.before + 1 == m.db.users[m.user].revision
            && Guard(db, x.action, x.target, m.user) == NoCode
            && Lifecycle(db, x.action, x.target, m.user, x.appliedAt, x.secret) == Ok(m.db)
  {
    LifecycleChanges(db, x, ResolveUser(db, x.action, x.target).value);
  }

  // ---------- the control API ----------

  lemma ResolveIgnoresOperations(db: Db, ops: map<Uuid, StoredOperation>, x: Call)
    ensures ResolveUser(db.(operations := ops), x.action, x.target) == ResolveUser(db, x.action, x.target)
  {
  }

  /** Two transactions that differ in the operations table came to the same. */
  ghost predicate SameBut(db: Db, ops: map<Uuid, StoredOperation>, with: Outcome<Db, Failure>, without: Outcome<Db, Failure>) {
    && with.Ok? == without.Ok?
    && (with.Ok? ==> with.value == without.value.(operations := ops)
                     && without.value.operations == db.operations && without.value.audit == db.audit)
  }

  lemma DeviceIgnoresOperations(db: Db, ops: map<Uuid, StoredOperation>, user: Uuid, device: Uuid, now: Time)
    requires user in db.users
    ensures SameBut(db, ops, RevokeDeviceLifecycle(db.(operations := ops), user, device, now), RevokeDeviceLifecycle(db, user, device, now))
  {
  }

  lemma FamilyIgnoresOperations(db: Db, ops: map<Uuid, StoredOperation>, user: Uuid, family: Uuid, now: Time)
    requires user in db.users
    ensures SameBut(db, ops, RevokeFamilyLifecycle(db.(operations := ops), user, family, now), RevokeFamilyLifecycle(db, user, family, now))
  {
    assert FamilyOf(db.(operations := ops), user, family) == FamilyOf(db, user, family);
  }

  lemma UserIgnoresOperations(db: Db, ops: map<Uuid, StoredOperation>, user: Uuid, now: Time, secret: seq<Byte>)
    requires user in db.users
    ensures SameBut(db, ops, Ok(RevokeAllLifecycle(db.(operations := ops), user, now)), Ok(RevokeAllLifecycle(db, user, now)))
    ensures SameBut(db, ops, ForceResetLifecycle(db.(operations := ops), user, now, secret), ForceResetLifecycle(db, user, now, secret))
  {
  }

  lemma StatusIgnoresOperations(db: Db, ops: map<Uuid, StoredOperation>, user: Uuid, now: Time)
    requires user in db.users
    ensures SameBut(db, ops, DisableLifecycle(db.(operations := ops), user, now), DisableLifecycle(db, user, now))
    ensures SameBut(db, ops, EnableLifecycle(db.(operations := ops), user), EnableLifecycle(db, user))
  {
  }

  lemma LifecycleIgnoresOperations(db: Db, ops: map<Uuid, StoredOperation>, x: Call, user: Uuid)
    requires user in db.users && ResolveUser(db, x.action, x.target) == Some(user)
    requires ResolveUser(db.(operations := ops), x.action, x.target) == Some(user)
    ensures SameBut(db, ops, Lifecycle(db.(operations := ops), x.action, x.target, user, x.appliedAt, x.secret),
                    Lifecycle(db, x.action, x.target, user, x.appliedAt, x.secret))
  {
    match x.action
    case RevokeDevice => DeviceIgnoresOperations(db, ops, user, x.target, x.appliedAt);
    case RevokeSession => FamilyIgnoresOperations(db, ops, user, db.sessions[x.target].family, x.appliedAt);
    case DisableUser => StatusIgnoresOperations(db, ops, user, x.appliedAt);
    case EnableUser => StatusIgnoresOperations(db, ops, user, x.appliedAt);
    case _ => UserIgnoresOperations(db, ops, user, x.appliedAt, x.secret);
  }

  lemma GuardIgnoresOperations(db: Db, ops: map<Uuid, StoredOperation>, x: Call, user: Uuid)
    requires user in db.users && ResolveUser(db, x.action, x.target) == Some(user)
    requires ResolveUser(db.(operations := ops), x.action, x.target) == Some(user)
    ensures Guard(db.(operations := ops), x.action, x.target, user) == Guard(db, x.action, x.target, user)
  {
  }

  /** Applying an action does not look at the operations table. */
  lemma ApplyIgnoresOperations(db: Db, ops: map<Uuid, StoredOperation>, x: Call)
    ensures var with := ApplyAction(db.(operations := ops), x);
            var without := ApplyAction(db, x);
            && (without.Mutated? ==> with == without.(db := without.db.(operations := ops))
                                     && without.db.operations == db.operations && without.db.audit == db.audit)
            && (!without.Mutated? ==> with == without)
  {
    ResolveIgnoresOperations(db, ops, x);
    var resolved := ResolveUser(db, x.action, x.target);
    if resolved.Some? && resolved.value in db.users {
      LifecycleIgnoresOperations(db, ops, x, resolved.value);
      GuardIgnoresOperations(db, ops, x, resolved.value);
    }
  }

  /** A call that ran: the operation was new, and its row and one audit event were added to what the action did. */
  ghost predicate Recorded(a: Db, b: Db, x: Call, row: StoredOperation, answer: Answer, acted: Db, result: int, denial: Option<Denial>)
    requires ValidRing(a.protector)
  {
    var id := x.command.operation;
    var closed := Closed(row, x.finishedAt, result, denial);
    && ValidCommand(x.action, x.target, x.command)
    && FindOperation(a, id).None? && x.createdAt != ZERO_TIME && x.finishedAt != ZERO_TIME
    && |row.fingerprint| == 32 && |row.hmac| == 32
    && b == acted.(operations := a.operations[id := closed], audit := a.audit + [AuditOf(x, result, denial)])
    && answer == Replied(closed.operation, denial)
  }

  lemma FoundExists(db: Db, x: Call)
    requires ValidRing(db.protector)
    ensures var found := FindOperation(db, x.command.operation);
            found.Some? ==> found.value in db.operations
  {
    if x.command.operation !in db.operations { FoundByDigest(db, x.command.operation, db.protector.order); }
  }

  lemma {:induction false} FoundByDigest(db: Db, operation: Uuid, order: seq<KeyId>)
    requires forall k :: k in order ==> k in db.protector.keys
    ensures var found := FindByDigests(db, operation, order);
            found.Some? ==> found.value in db.operations
                            && exists k :: k in order && db.operations[found.value].keyId == k
                                           && db.operations[found.value].hmac == IdempotencyDigest(db.protector, k, operation)
  {
    if order != [] {
      var found := SealedUnder(db.operations, order[0], IdempotencyDigest(db.protector, order[0], operation));
      if found != {} {
        assert Least(found) in found;
      } else {
        FoundByDigest(db, operation, order[1..]);
      }
    }
  }

  ghost predicate Outcomes(db: Db, x: Call, row: StoredOperation, b: Db, answer: Answer)
    requires ValidRing(db.protector)
  {
    var applied := ApplyAction(db, x);
    || (b == db && (FindOperation(db, x.command.operation).None? ==> answer.Refused?))
    || (applied.Denied? && Recorded(db, b, x, row, answer, db, 0, Some(applied.denial)))
    || (applied.Mutated? && Recorded(db, b, x, row, answer, applied.db, applied.after, None))
  }

  lemma FinishShape(db: Db, x: Call, row: StoredOperation, acted: Db, result: int, denial: Option<Denial>)
    requires ValidRing(db.protector) && ValidCommand(x.action, x.target, x.command)
    requires FindOperation(db, x.command.operation).None?
    requires x.createdAt != ZERO_TIME && |row.fingerprint| == 32 && |row.hmac| == 32
    requires acted.operations == db.operations[x.command.operation := row] && acted.audit == db.audit
    ensures var (b, answer) := CommitOr(db, Finish(acted, x, result, denial));
            (b == db && answer.Refused?) || Recorded(db, b, x, row, answer, acted, result, denial)
  {
    assert acted.operations[x.command.operation := Closed(row, x.finishedAt, result, denial)]
        == db.operations[x.command.operation := Closed(row, x.finishedAt, result, denial)];
  }

  lemma FreshShape(db: Db, x: Call, row: StoredOperation)
    requires ValidRing(db.protector) && ValidCommand(x.action, x.target, x.command)
    requires FindOperation(db, x.command.operation).None?
    ensures Outcomes(db, x, row, ExecuteFresh(db, x, row).0, ExecuteFresh(db, x, row).1)
  {
    var tx := db.(operations := db.operations[x.command.operation := row]);
    ApplyIgnoresOperations(db, tx.operations, x);
    var applied := ApplyAction(tx, x);
    if |row.fingerprint| == 32 && |row.hmac| == 32 && x.createdAt != ZERO_TIME {
      match applied
      case Broken =>
      case Denied(denial) => FinishShape(db, x, row, tx, 0, Some(denial));
      case Mutated(acted, _, _, after) => FinishShape(db, x, row, acted, after, None);
    }
  }

  /** A call either leaves the database alone, records a denial, or records what its action did. */
  lemma ExecuteShape(db: Db, x: Call)
    requires ValidRing(db.protector)
    ensures Outcomes(db, x, ExecutingRow(db, x), Execute(db, x).0, Execute(db, x).1)
  {
    FoundExists(db, x);
    if ValidCommand(x.action, x.target, x.command) && FindOperation(db, x.command.operation).None? {
      FreshShape(db, x, ExecutingRow(db, x));
    }
  }
}
