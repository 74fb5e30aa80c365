/** What a live session, a device and a finalised account mean in every reachable state. */
module AccessTheorems {
  import opened Common
  import opened Bytes
  import opened Protector
  import opened AccountState
  import opened AccountSteps
  import opened AdminSteps
  import opened AccessSteps
  import opened AccountShapes
  import opened AccountRuns
  import opened AccountInvariants
  import opened AccountProofs

  // ---------- the invariant ----------

  /** A session that is not revoked runs on an active device of its active user. */
  ghost predicate LiveOk(db: Db, s: Uuid)
    requires s in db.sessions
  {
    var row := db.sessions[s];
    row.revokedAt.None? ==>
      && row.user in db.users && db.users[row.user].status.Active?
      && row.device in db.devices && db.devices[row.device].user == row.user && db.devices[row.device].status.DeviceActive?
  }

  ghost predicate LiveInv(db: Db) {
    forall s {:trigger LiveOk(db, s)} :: s in db.sessions ==> LiveOk(db, s)
  }

  ghost predicate Present(users: map<Uuid, User>, u: Uuid) { u in users && users[u].finalizedAt.None? }

  /** Devices and entitlements belong to accounts that are not finalised. */
  ghost predicate OwnerInv(db: Db) {
    && (forall d :: d in db.devices ==> Present(db.users, db.devices[d].user))
    && (forall e :: e in db.entitlements ==> Present(db.users, db.entitlements[e].user))
  }

  ghost predicate LimitInv(db: Db) {
    forall u {:trigger ActiveDevicesOf(db.devices, u)} :: |ActiveDevicesOf(db.devices, u)| <= db.deviceLimit
  }

  ghost predicate AccessInv(db: Db) { LiveInv(db) && OwnerInv(db) && LimitInv(db) }

  // ---------- frames ----------

  ghost predicate Live(db: Db, s: Uuid) { s in db.sessions && db.sessions[s].revokedAt.None? }

  /** A live session that was live before, on the same rows. */
  ghost predicate Carried(a: Db, b: Db, s: Uuid) {
    && Live(a, s) && Live(b, s) && b.sessions[s].user == a.sessions[s].user && b.sessions[s].device == a.sessions[s].device
    && var (user, device) := (a.sessions[s].user, a.sessions[s].device);
    && (user in a.users ==> user in b.users && b.users[user].status == a.users[user].status)
    && (device in a.devices ==> device in b.devices && b.devices[device] == a.devices[device])
  }

  lemma LiveFrame(a: Db, b: Db)
    requires LiveInv(a) && forall s :: Live(b, s) ==> Carried(a, b, s)
    ensures LiveInv(b)
  {
    forall s | s in b.sessions ensures LiveOk(b, s) {
      if Live(b, s) {
        assert Carried(a, b, s);
        assert LiveOk(a, s);
      }
    }
  }

  /** Devices and entitlements are at most revoked or deleted. */
  ghost predicate NoneGained(a: Db, b: Db) {
    && b.deviceLimit == a.deviceLimit
    && (forall d :: d in b.devices ==>
          d in a.devices && b.devices[d].user == a.devices[d].user
          && (b.devices[d].status.DeviceActive? ==> a.devices[d].status.DeviceActive?))
    && (forall e :: e in b.entitlements ==> e in a.entitlements && b.entitlements[e].user == a.entitlements[e].user)
  }

  lemma LimitFrame(a: Db, b: Db)
    requires LimitInv(a) && NoneGained(a, b)
    ensures LimitInv(b)
  {
    forall u ensures |ActiveDevicesOf(b.devices, u)| <= b.deviceLimit {
      assert ActiveDevicesOf(b.devices, u) <= ActiveDevicesOf(a.devices, u);
      SubsetSize(ActiveDevicesOf(b.devices, u), ActiveDevicesOf(a.devices, u));
    }
  }

  lemma {:induction false} SubsetSize(s: set<Uuid>, t: set<Uuid>)
    requires s <= t
    ensures |s| <= |t|
  {
    assert |t| == |s| + |t - s| by { assert t == s + (t - s); }
  }

  ghost predicate FinalsKept(a: map<Uuid, User>, b: map<Uuid, User>) {
    forall u :: Present(a, u) ==> Present(b, u)
  }

  lemma RestFrame(a: Db, b: Db)
    requires OwnerInv(a) && LimitInv(a) && NoneGained(a, b) && FinalsKept(a.users, b.users)
    ensures OwnerInv(b) && LimitInv(b)
  {
    LimitFrame(a, b);
  }

  lemma RevokedGainsNone(a: Db, b: Db)
    requires Revoked(a, b) && b.deviceLimit == a.deviceLimit
    ensures NoneGained(a, b)
  {
  }

  ghost predicate SameStatus(a: Db, b: Db) {
    forall u :: u in a.users ==> u in b.users && b.users[u].status == a.users[u].status
  }

  /** Sessions are only revoked; devices and account states are as they were. */
  lemma LiveQuiet(a: Db, b: Db)
    requires LiveInv(a) && SessionsRevoked(a.sessions, b.sessions) && b.devices == a.devices && SameStatus(a, b)
    ensures LiveInv(b)
  {
    forall s | Live(b, s) ensures Carried(a, b, s) { assert SessionAdvances(a.sessions[s], b.sessions[s]); }
    LiveFrame(a, b);
  }

  /** The devices named go, and with them every session that was live on one. */
  lemma LiveWithout(a: Db, b: Db, gone: set<Uuid>)
    requires LiveInv(a) && SessionsRevoked(a.sessions, b.sessions) && SameStatus(a, b)
    requires forall d :: d in a.devices && d !in gone ==> d in b.devices && b.devices[d] == a.devices[d]
    requires forall s :: Live(b, s) && Live(a, s) ==> a.sessions[s].device !in gone
    ensures LiveInv(b)
  {
    forall s | Live(b, s) ensures Carried(a, b, s) { assert SessionAdvances(a.sessions[s], b.sessions[s]); }
    LiveFrame(a, b);
  }

  /** The account of one user shuts. */
  lemma LiveShut(a: Db, b: Db, u: Uuid, at: Time, reason: Reason)
    requires LiveInv(a) && RevokedAll(a, b, u, at, reason) && b.users.Keys == a.users.Keys
    requires forall v :: v in a.users && v != u ==> b.users[v] == a.users[v]
    ensures LiveInv(b)
  {
    forall s | Live(b, s) ensures Carried(a, b, s) {
      assert s !in SessionsOf(a.sessions, u);
      assert LiveOk(a, s);
    }
    LiveFrame(a, b);
  }

  /** The account of a user without live sessions changes; rows may go. */
  lemma LiveElsewhere(a: Db, b: Db, u: Uuid)
    requires LiveInv(a) && (u in a.users ==> !a.users[u].status.Active?)
    requires Shrinks(a.sessions, b.sessions)
    requires forall v :: v in a.users && v != u ==> v in b.users && b.users[v] == a.users[v]
    requires forall d :: d in a.devices && a.devices[d].user != u ==> d in b.devices && b.devices[d] == a.devices[d]
    ensures LiveInv(b)
  {
    forall s | Live(b, s) ensures Carried(a, b, s) {
      assert s in a.sessions && LiveOk(a, s);
    }
    LiveFrame(a, b);
  }

  // ---------- self-service steps ----------

  lemma RegisterAccess(a: Db, b: Db, r: RegisterRecord)
    requires Inv(a) && AccessInv(a) && Registered(a, b, r)
    ensures AccessInv(b)
  {
    RevokeSessionsAdvances(a.sessions, {}, 0, ByAdmin);
    Unrevoked(a);
    LiveQuiet(a, b);
    RestFrame(a, b);
  }

  lemma SameAccess(a: Db, b: Db)
    requires AccessInv(a) && OnlyElsewhere(a, b)
    ensures AccessInv(b)
  {
    Unrevoked(a);
    LiveQuiet(a, b);
    RestFrame(a, b);
  }

  /** None of the tables the invariant speaks of differ. */
  ghost predicate OnlyElsewhere(a: Db, b: Db) {
    && b.users == a.users && b.devices == a.devices && b.sessions == a.sessions
    && b.entitlements == a.entitlements && b.deviceLimit == a.deviceLimit
  }

  lemma PasswordPresent(a: Db, b: Db, user: Uuid, password: seq<Byte>)
    requires PasswordSet(a, b, user, password)
    ensures SameStatus(a, b) && FinalsKept(a.users, b.users)
  {
  }

  lemma ResetAccess(a: Db, b: Db, r: ResetRecord)
    requires Inv(a) && AccessInv(a) && PasswordWasReset(a, b, r)
    ensures AccessInv(b)
  {
    var user := FindUser(a, r.claims).value;
    PasswordPresent(a, b, user, r.password);
    OverwriteAdvances(a.sessions, user, r.at, ByPasswordReset);
    LiveQuiet(a, b);
    RestFrame(a, b);
  }

  lemma ChangeAccess(a: Db, b: Db, r: ChangeRecord)
    requires Inv(a) && AccessInv(a) && PasswordChanged(a, b, r)
    ensures AccessInv(b)
  {
    PasswordPresent(a, b, r.user, r.password);
    ChangeRevokes(a, b, r);
    var device := a.sessions[r.session].device;
    forall s | Live(b, s) && Live(a, s) ensures a.sessions[s].device !in DevicesOf(a.devices, r.user) - {device} {
      assert LiveOk(a, s);
      assert s !in SessionsOf(a.sessions, r.user) - {r.session};
    }
    LiveWithout(a, b, DevicesOf(a.devices, r.user) - {device});
    RevokedGainsNone(a, b);
    RestFrame(a, b);
  }

  lemma RequestAccess(a: Db, b: Db, r: DeletionRecord)
    requires Inv(a) && AccessInv(a) && Requested(a, b, r)
    ensures AccessInv(b)
  {
    LiveShut(a, b, r.user, r.at, ByAccountDeletion);
    RevokedAllAdvances(a, b, r.user, r.at, ByAccountDeletion);
    RevokedGainsNone(a, b);
    RestFrame(a, b);
  }

  lemma RecoverAccess(a: Db, b: Db, r: DeletionRecord)
    requires Inv(a) && AccessInv(a) && Recovered(a, b, r)
    ensures AccessInv(b)
  {
    LiveElsewhere(a, b, r.user);
    RestFrame(a, b);
  }

  lemma FinalizeAccess(db: Db, r: FinalizeRecord)
    requires Inv(db) && AccessInv(db) && FinalizeDeletion(db, r).Ok?
    ensures AccessInv(FinalizeDeletion(db, r).value)
  {
    var b := FinalizeDeletion(db, r).value;
    FinalizeShape(db, r);
    LiveElsewhere(db, b, r.user);
    LimitFrame(db, b);
  }

  lemma SelfServiceAccess(db: Db, e: Event)
    requires Inv(db) && AccessInv(db) && IsSelfService(e)
    ensures AccessInv(Committed(db, SelfService(db, e)))
  {
    var b := Committed(db, SelfService(db, e));
    if SelfService(db, e).Ok? {
      match e
      case RegisterEvent(r) => RegisterShape(db, r); RegisterAccess(db, b, r);
      case LoginEvent(r) => LoginShape(db, r); SameAccess(db, b);
      case ResetEvent(r) => ResetShape(db, r); ResetAccess(db, b, r);
      case BindEvent(r) => BindShape(db, r); SameAccess(db, b);
      case RemoveEvent(r) => RemoveShape(db, r); SameAccess(db, b);
      case ChangeEvent(r) => ChangeShape(db, r); ChangeAccess(db, b, r);
      case RequestEvent(r) => RequestShape(db, r); RequestAccess(db, b, r);
      case RecoverEvent(r) => RecoverShape(db, r); RecoverAccess(db, b, r);
      case FinalizeEvent(r) => FinalizeAccess(db, r);
    }
  }

  // ---------- administrative steps ----------

  lemma AdminRest(a: Db, b: Db, u: Uuid)
    requires AccessInv(a) && AdminChanges(a, b, u)
    ensures OwnerInv(b) && LimitInv(b)
  {
    RevokedGainsNone(a, b);
    RestFrame(a, b);
  }

  lemma DisableAccess(db: Db, user: Uuid, now: Time)
    requires AccessInv(db) && user in db.users && db.users[user].status.Active? && DisableLifecycle(db, user, now).Ok?
    ensures AccessInv(DisableLifecycle(db, user, now).value)
  {
    var b := DisableLifecycle(db, user, now).value;
    LiveShut(db, b, user, now, ByAdminDisable);
    DisableChanges(db, user, now);
    AdminRest(db, b, user);
  }

  lemma EnableAccess(db: Db, user: Uuid)
    requires AccessInv(db) && user in db.users && db.users[user].status.Disabled? && db.users[user].adminDisabled
    requires db.users[user].finalizedAt.None? && EnableLifecycle(db, user).Ok?
    ensures AccessInv(EnableLifecycle(db, user).value)
  {
    var b := EnableLifecycle(db, user).value;
    LiveElsewhere(db, b, user);
    EnableChanges(db, user);
    AdminRest(db, b, user);
  }

  lemma QuietAdmin(a: Db, b: Db, user: Uuid)
    requires AccessInv(a) && AdminChanges(a, b, user) && b.devices == a.devices && SameStatus(a, b)
    ensures AccessInv(b)
  {
    LiveQuiet(a, b);
    AdminRest(a, b, user);
  }

  lemma DeviceAccess(db: Db, user: Uuid, device: Uuid, now: Time)
    requires AccessInv(db) && user in db.users && RevokeDeviceLifecycle(db, user, device, now).Ok?
    ensures AccessInv(RevokeDeviceLifecycle(db, user, device, now).value)
  {
    var b := RevokeDeviceLifecycle(db, user, device, now).value;
    DeviceChanges(db, user, device, now);
    LiveWithout(db, b, {device});
    AdminRest(db, b, user);
  }

  lemma FamilyAccess(db: Db, user: Uuid, family: Uuid, now: Time)
    requires AccessInv(db) && user in db.users && RevokeFamilyLifecycle(db, user, family, now).Ok?
    ensures AccessInv(RevokeFamilyLifecycle(db, user, family, now).value)
  {
    FamilyChanges(db, user, family, now);
    QuietAdmin(db, RevokeFamilyLifecycle(db, user, family, now).value, user);
  }

  lemma LogoutAllAccess(db: Db, user: Uuid, now: Time)
    requires AccessInv(db) && user in db.users
    ensures AccessInv(RevokeAllLifecycle(db, user, now))
  {
    AllSessionsChange(db, user, now);
    QuietAdmin(db, RevokeAllLifecycle(db, user, now), user);
  }

  lemma ForceResetAccess(db: Db, user: Uuid, now: Time, secret: seq<Byte>)
    requires AccessInv(db) && user in db.users && ForceResetLifecycle(db, user, now, secret).Ok?
    ensures AccessInv(ForceResetLifecycle(db, user, now, secret).value)
  {
    ForceResetChanges(db, user, now, secret);
    QuietAdmin(db, ForceResetLifecycle(db, user, now, secret).value, user);
  }

  lemma OperatorAccess(db: Db, e: Event)
    requires Inv(db) && AccessInv(db)
    ensures AccessInv(Committed(db, Operator(db, e)))
  {
    if Operator(db, e).Ok? {
      match e
      case DisableEvent(m) => DisableAccess(db, m.target, m.at);
      case EnableEvent(m) => EnableAccess(db, m.target);
      case RevokeEvent(m) => FamilyAccess(db, db.sessions[m.target].user, db.sessions[m.target].family, m.at);
    }
  }

  lemma ActionAccess(db: Db, x: Call)
    requires AccessInv(db) && ApplyAction(db, x).Mutated?
    ensures AccessInv(ApplyAction(db, x).db)
  {
    ApplyShape(db, x);
    var user := ApplyAction(db, x).user;
    match x.action
    case RevokeDevice => DeviceAccess(db, user, x.target, x.appliedAt);
    case RevokeSession => FamilyAccess(db, user, db.sessions[x.target].family, x.appliedAt);
    case RevokeAllSessions => LogoutAllAccess(db, user, x.appliedAt);
    case ForcePasswordReset => ForceResetAccess(db, user, x.appliedAt, x.secret);
    case DisableUser => DisableAccess(db, user, x.appliedAt);
    case EnableUser => EnableAccess(db, user);
  }

  lemma RecordedElsewhere(a: Db, b: Db, x: Call, row: StoredOperation, answer: Answer, acted: Db, result: int, denial: Option<Denial>)
    requires ValidRing(a.protector) && Recorded(a, b, x, row, answer, acted, result, denial)
    ensures OnlyElsewhere(acted, b)
  {
  }

  lemma OutcomeAccess(db: Db, x: Call, row: StoredOperation, b: Db, answer: Answer)
    requires ValidRing(db.protector) && Outcomes(db, x, row, b, answer) && AccessInv(db)
    requires ApplyAction(db, x).Mutated? ==> AccessInv(ApplyAction(db, x).db)
    ensures AccessInv(b)
  {
    var applied := ApplyAction(db, x);
    if b != db {
      if applied.Mutated? {
        RecordedElsewhere(db, b, x, row, answer, applied.db, applied.after, None);
        SameAccess(applied.db, b);
      } else {
        RecordedElsewhere(db, b, x, row, answer, db, 0, Some(applied.denial));
        SameAccess(db, b);
      }
    }
  }

  lemma ExecuteAccess(db: Db, x: Call)
    requires Inv(db) && AccessInv(db)
    ensures AccessInv(Execute(db, x).0)
  {
    ExecuteShape(db, x);
    if ApplyAction(db, x).Mutated? { ActionAccess(db, x); }
    OutcomeAccess(db, x, ExecutingRow(db, x), Execute(db, x).0, Execute(db, x).1);
  }

  // ---------- devices and sessions ----------

  /** A device becomes active for a user with room for it; no live session ran on it unless it already was. */
  lemma AuthorizedAccess(a: Db, b: Db, d: Uuid, row: Device)
    requires Inv(a) && AccessInv(a) && b == a.(devices := a.devices[d := row], issued := b.issued)
    requires row.user in a.users && a.users[row.user].status.Active? && row.status.DeviceActive?
    requires d in a.devices && a.devices[d].status.DeviceActive? ==> a.devices[d].user == row.user
    requires (d in a.devices && a.devices[d].status.DeviceActive?) || HasCapacity(a, row.user)
    ensures AccessInv(b)
  {
    assert UserOk(a.users, a.spaces, a.credentials, row.user);
    forall s | s in b.sessions ensures LiveOk(b, s) { assert LiveOk(a, s); }
    forall u ensures |ActiveDevicesOf(b.devices, u)| <= b.deviceLimit {
      OneMoreActive(a, b, d, row, u);
    }
  }

  lemma OneMoreActive(a: Db, b: Db, d: Uuid, row: Device, u: Uuid)
    requires LimitInv(a) && b.devices == a.devices[d := row] && b.deviceLimit == a.deviceLimit
    requires d in a.devices && a.devices[d].status.DeviceActive? ==> a.devices[d].user == row.user
    requires (d in a.devices && a.devices[d].status.DeviceActive?) || HasCapacity(a, row.user)
    ensures |ActiveDevicesOf(b.devices, u)| <= b.deviceLimit
  {
    var before, after := ActiveDevicesOf(a.devices, u), ActiveDevicesOf(b.devices, u);
    if u == row.user && d !in before {
      SubsetSize(after, before + {d});
    } else {
      SubsetSize(after, before);
    }
  }

  lemma ReauthorizeAccess(db: Db, d: Uuid, r: AuthorizeRecord)
    requires Inv(db) && AccessInv(db) && d in db.devices && Reauthorize(db, d, r).Ok?
    requires r.user in db.users && db.users[r.user].status.Active?
    ensures AccessInv(Reauthorize(db, d, r).value)
  {
    AuthorizedAccess(db, Reauthorize(db, d, r).value, d, db.devices[d].(user := r.user, status := DeviceActive, revokedAt := None));
  }

  lemma AuthorizeAccess(db: Db, r: AuthorizeRecord)
    requires Inv(db) && AccessInv(db) && Authorize(db, r).Ok?
    ensures AccessInv(Authorize(db, r).value)
  {
    var known := Installed(db.devices, r.installation);
    if known != {} {
      ReauthorizeAccess(db, Least(known), r);
    } else {
      NewDeviceAccess(db, r);
    }
  }

  lemma NewDeviceAccess(db: Db, r: AuthorizeRecord)
    requires Inv(db) && AccessInv(db) && Authorize(db, r).Ok? && Installed(db.devices, r.installation) == {}
    ensures AccessInv(Authorize(db, r).value)
  {
    AuthorizedAccess(db, Authorize(db, r).value, r.device, Device(r.user, r.installation, r.publicKey, DeviceActive, None));
  }

  /** A device ends with its sessions. */
  lemma EndedAccess(a: Db, b: Db, d: Uuid, at: Time)
    requires Inv(a) && AccessInv(a) && d in a.devices && b.devices == EndDevice(a.devices, d, at)
    requires b.users == a.users && b.deviceLimit == a.deviceLimit
    requires SessionsRevoked(a.sessions, b.sessions) && EntitlementsRevoked(a.entitlements, b.entitlements)
    requires forall s :: s in a.sessions && a.sessions[s].device == d ==> b.sessions[s].revokedAt.Some?
    ensures AccessInv(b)
  {
    LiveWithout(a, b, {d});
    RestFrame(a, b);
  }

  lemma RevokeDeviceAccess(db: Db, r: RevokeDeviceRecord)
    requires Inv(db) && AccessInv(db) && RevokeOwnDevice(db, r).Ok?
    ensures AccessInv(RevokeOwnDevice(db, r).value)
  {
    var live := set s | s in SessionsAt(db.sessions, r.device) && db.sessions[s].revokedAt.None?;
    OverwriteLiveAdvances(db.sessions, live, r.at, ByDeviceRevocation);
    RevokeEntitlementsAdvances(db.entitlements, EntitlementsAt(db.entitlements, r.device), r.at);
    EndedAccess(db, RevokeOwnDevice(db, r).value, r.device, r.at);
  }

  lemma SelfRevokeAccess(db: Db, r: SelfRevokeRecord)
    requires Inv(db) && AccessInv(db) && SelfRevoke(db, r).Ok?
    ensures AccessInv(SelfRevoke(db, r).value)
  {
    RevokeSessionsAdvances(db.sessions, SessionsAt(db.sessions, r.device), r.at, BySelfRevocation);
    RevokeEntitlementsAdvances(db.entitlements, EntitlementsAt(db.entitlements, r.device), r.at);
    EndedAccess(db, SelfRevoke(db, r).value, r.device, r.at);
  }

  /** Sessions only end. */
  lemma FewerSessions(a: Db, b: Db)
    requires AccessInv(a) && b == a.(sessions := b.sessions)
    requires forall s :: s in b.sessions && b.sessions[s].revokedAt.None? ==> s in a.sessions && b.sessions[s] == a.sessions[s]
    ensures AccessInv(b)
  {
    forall s | Live(b, s) ensures Carried(a, b, s) {}
    LiveFrame(a, b);
    RestFrame(a, b);
  }

  lemma NewSessionAccess(a: Db, b: Db, s: Uuid, row: Session)
    requires AccessInv(a) && b == a.(sessions := b.sessions, issued := b.issued)
    requires s in b.sessions && b.sessions[s] == row && b.sessions.Keys == a.sessions.Keys + {s}
    requires forall t :: t in a.sessions && t != s ==> SessionAdvances(a.sessions[t], b.sessions[t])
    requires row.user in a.users && a.users[row.user].status.Active? && row.device in a.devices
    requires a.devices[row.device].user == row.user && a.devices[row.device].status.DeviceActive?
    ensures AccessInv(b)
  {
    forall t | t in b.sessions ensures LiveOk(b, t) {
      if t != s { assert LiveOk(a, t); }
    }
    RestFrame(a, b);
  }

  lemma SuccessorAccess(a: Db, b: Db, r: RotateRecord)
    requires Inv(a) && AccessInv(a) && Live(a, r.source) && r.successor !in a.issued
    requires var row := a.sessions[r.source];
             b == a.(sessions := a.sessions[r.source := row.(replacedAt := Some(r.at))]
                                   [r.successor := Session(row.user, row.device, row.family, r.expiresAt, None, None, None)],
                     issued := a.issued + {r.successor}) && row.replacedAt.None?
    ensures AccessInv(b)
  {
    var row := a.sessions[r.source];
    assert LiveOk(a, r.source);
    NewSessionAccess(a, b, r.successor, Session(row.user, row.device, row.family, r.expiresAt, None, None, None));
  }

  lemma RotateAccess(db: Db, b: Db, r: RotateRecord)
    requires Inv(db) && AccessInv(db) && Rotated(db, b, r)
    ensures AccessInv(b)
  {
    if Replays(db, r) {
      FewerSessions(db, b);
    } else if b != db {
      var row := db.sessions[r.source];
      if b == EndFamily(db, row.family, r.at, ByInvalidSession) {
        EndFamilyAccess(db, row.family, r.at, ByInvalidSession);
      } else {
        SuccessorAccess(db, b, r);
      }
    }
  }

  lemma EndFamilyAccess(db: Db, family: Uuid, at: Time, reason: Reason)
    requires AccessInv(db)
    ensures AccessInv(EndFamily(db, family, at, reason))
  {
    FewerSessions(db, EndFamily(db, family, at, reason));
  }

  lemma CreateAccess(db: Db, r: CreateRecord)
    requires AccessInv(db) && CreateSession(db, r).Ok? && SessionRows(db.sessions, db.issued)
    ensures AccessInv(CreateSession(db, r).value)
  {
    NewSessionAccess(db, CreateSession(db, r).value, r.session,
                     Session(r.user, r.device, r.family, r.expiresAt, None, None, None));
  }

  lemma AccessAccess(db: Db, e: Event)
    requires Inv(db) && AccessInv(db) && IsAccess(e)
    ensures AccessInv(Access(db, e))
  {
    match e
    case AuthorizeEvent(r) => if Authorize(db, r).Ok? { AuthorizeAccess(db, r); }
    case RevokeDeviceEvent(r) => if RevokeOwnDevice(db, r).Ok? { RevokeDeviceAccess(db, r); }
    case SelfRevokeEvent(r) => if SelfRevoke(db, r).Ok? { SelfRevokeAccess(db, r); }
    case CreateEvent(r) => if CreateSession(db, r).Ok? { CreateAccess(db, r); }
    case RotateEvent(r) => RotateShape(db, r); RotateAccess(db, Rotate(db, r).0, r);
    case LogoutEvent(s, at) => if s in db.sessions { EndFamilyAccess(db, db.sessions[s].family, at, ByLogout); }
    case EndFamilyEvent(family, at) => EndFamilyAccess(db, family, at, ByIssuanceFailure);
    case ExpireEvent(now) => FewerSessions(db, SweepSessions(db, now));
  }

  // ---------- every run ----------

  lemma EntitlementAccess(db: Db, id: Uuid, row: Entitlement)
    requires Inv(db) && AccessInv(db)
    ensures AccessInv(Record(db, id, row))
  {
    var b := Record(db, id, row);
    if b != db {
      assert UserOk(db.users, db.spaces, db.credentials, row.user);
      Unrevoked(db);
      LiveQuiet(db, b);
    }
  }

  lemma LookupAccess(db: Db, ring: LookupRing)
    requires AccessInv(db)
    ensures AccessInv(RotateLookup(db, ring))
  {
    var b := RotateLookup(db, ring);
    if b != db {
      assert b == db.(lookup := ring);
      SameAccess(db, b);
    }
  }

  lemma ProtectorAccess(db: Db, ring: Ring)
    requires AccessInv(db)
    ensures AccessInv(RotateProtector(db, ring))
  {
    var b := RotateProtector(db, ring);
    if b != db {
      assert b == db.(protector := ring);
      SameAccess(db, b);
    }
  }

  lemma ChallengeAccess(db: Db, b: Db)
    requires AccessInv(db) && b == db.(challenges := b.challenges, issued := b.issued)
    ensures AccessInv(b)
  {
    SameAccess(db, b);
  }

  lemma OwnershipAccess(db: Db, owned: set<(Uuid, Uuid)>)
    requires AccessInv(db)
    ensures AccessInv(db.(owned := owned))
  {
    SameAccess(db, db.(owned := owned));
  }

  lemma ChallengeEventAccess(db: Db, e: Event)
    requires Inv(db) && AccessInv(db) && (e.IssueEvent? || e.VerifyEvent? || e.SweepEvent?)
    ensures AccessInv(Around(db, e))
  {
    match e
    case IssueEvent(id, purpose, kind, login) =>
      IssueIsLocal(db, id, purpose, kind, login);
      ChallengeAccess(db, Issue(db, id, purpose, kind, login));
    case VerifyEvent(id, at) =>
      VerifyIsLocal(db, id, at);
      ChallengeAccess(db, Verify(db, id, at));
    case SweepEvent(ids) => ChallengeAccess(db, db.(challenges := db.challenges - ids));
  }

  lemma AroundAccess(db: Db, e: Event)
    requires Inv(db) && AccessInv(db)
    ensures AccessInv(Around(db, e))
  {
    match e
    case LookupRotation(ring) => LookupAccess(db, ring);
    case ProtectorRotation(ring) => ProtectorAccess(db, ring);
    case IssueEvent(_, _, _, _) => ChallengeEventAccess(db, e);
    case VerifyEvent(_, _) => ChallengeEventAccess(db, e);
    case SweepEvent(_) => ChallengeEventAccess(db, e);
    case EntitlementEvent(id, row) => EntitlementAccess(db, id, row);
    case OwnershipEvent(owned) =>
      assert Around(db, e) == db.(owned := owned);
      OwnershipAccess(db, owned);
    case _ => assert Around(db, e) == db;
  }

  lemma StepAccess(db: Db, e: Event)
    requires Inv(db) && AccessInv(db)
    ensures AccessInv(Apply(db, e))
  {
    if IsSelfService(e) { SelfServiceAccess(db, e); }
    else if IsOperator(e) { OperatorAccess(db, e); }
    else if IsAccess(e) { AccessAccess(db, e); }
    else if e.ExecuteEvent? { ExecuteAccess(db, e.call); }
    else { AroundAccess(db, e); }
  }

  lemma NextAccess(trace: seq<Db>, events: seq<Event>, i: nat)
    requires IsRun(trace, events) && i < |events| && AccessInv(trace[i])
    ensures AccessInv(trace[i + 1])
  {
    RunInv(trace, events, i);
    RunApply(trace, events, i);
    StepAccess(trace[i], events[i]);
  }

  lemma FreshAccess(db: Db)
    requires Start(db)
    ensures AccessInv(db)
  {
    assert forall u :: ActiveDevicesOf(db.devices, u) == {};
  }

  /** In every reachable state live sessions run on active devices of their active users, devices and entitlements
      belong to accounts that are not finalised, and nobody has more active devices than allowed. */
  lemma {:induction false} RunAccess(trace: seq<Db>, events: seq<Event>, i: nat)
    requires IsRun(trace, events) && i <= |events|
    ensures AccessInv(trace[i])
  {
    if i == 0 {
      FreshAccess(trace[0]);
    } else {
      RunAccess(trace, events, i - 1);
      NextAccess(trace, events, i - 1);
    }
  }

  /** The check made on every request joins four tables; in every reachable state the session row alone decides it. */
  lemma AccessIsTheSession(trace: seq<Db>, events: seq<Event>, session: Uuid, user: Uuid, device: Uuid, now: Time)
    requires IsRun(trace, events)
    ensures var db := trace[|events|];
            AccessActive(db, session, user, device, now) <==>
              && session in db.sessions
              && db.sessions[session].user == user && db.sessions[session].device == device
              && db.sessions[session].revokedAt.None? && db.sessions[session].expiresAt > now
  {
    var db := trace[|events|];
    RunAccess(trace, events, |events|);
    RunInv(trace, events, |events|);
    if Live(db, session) {
      assert LiveOk(db, session);
      assert UserOk(db.users, db.spaces, db.credentials, db.sessions[session].user);
    }
  }

  /** A refresh goes through exactly for a session that was neither replaced nor revoked nor has expired, and then
      the successor is bound to a device of its own user: the refresh statement does not compare the two. */
  lemma RefreshIff(trace: seq<Db>, events: seq<Event>, r: RotateRecord)
    requires IsRun(trace, events) && r.successor != NIL && r.successor !in trace[|events|].issued && r.expiresAt > r.issuedAt
    ensures var db := trace[|events|];
            && (Rotate(db, r).1.None? <==>
                  && Live(db, r.source) && db.sessions[r.source].replacedAt.None? && db.sessions[r.source].expiresAt > r.at)
            && (Rotate(db, r).1.None? ==>
                  AccessActive(Rotate(db, r).0, r.successor, db.sessions[r.source].user, db.sessions[r.source].device, r.expiresAt - 1))
  {
    var db := trace[|events|];
    RunAccess(trace, events, |events|);
    RunInv(trace, events, |events|);
    if Live(db, r.source) {
      assert LiveOk(db, r.source);
      assert UserOk(db.users, db.spaces, db.credentials, db.sessions[r.source].user);
    }
  }

  /** Nobody ever has more active devices than the configured limit. */
  lemma DeviceLimitHolds(trace: seq<Db>, events: seq<Event>, u: Uuid)
    requires IsRun(trace, events)
    ensures |ActiveDevicesOf(trace[|events|].devices, u)| <= trace[0].deviceLimit
  {
    RunAccess(trace, events, |events|);
    RunExtends(trace, events, 0, |events|);
  }

  /** Once an account is finalised nothing of it but its row is left at any later time: no login, password, space,
      device or entitlement, and no session that is not revoked. */
  lemma FinalizedLeavesNothing(trace: seq<Db>, events: seq<Event>, i: nat, j: nat, u: Uuid)
    requires IsRun(trace, events) && i <= j <= |events| && u in trace[i].users && trace[i].users[u].finalizedAt.Some?
    ensures var db := trace[j];
            && u in db.users && !HasIdentity(db.identities, u) && u !in db.credentials && u !in db.spaces
            && DevicesOf(db.devices, u) == {} && EntitlementsOf(db.entitlements, u) == {} && LiveSessionsOf(db.sessions, u) == {}
  {
    var db := trace[j];
    RunExtends(trace, events, i, j);
    RunInv(trace, events, j);
    RunAccess(trace, events, j);
    assert UserOk(db.users, db.spaces, db.credentials, u);
    forall n | n in db.identities ensures db.identities[n].user != u {
      assert IdentityOk(db.identities, db.users, db.lookup.keys, n);
    }
    forall s | Live(db, s) ensures db.sessions[s].user != u { assert LiveOk(db, s); }
    assert !Present(db.users, u);
  }
}
