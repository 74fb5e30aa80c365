/** Every step of the account database keeps the invariant and only advances what is there. */
module AccountProofs {
  import opened Common
  import opened Bytes
  import opened Protector
  import opened AccountState
  import opened AccountSteps
  import opened AdminSteps
  import opened AccessSteps
  import opened AccountShapes
  import opened AccountRuns
  import opened AccountInvariants

  ghost predicate Kept(a: Db, b: Db) { Inv(b) && Extends(a, b, {}, {}) }

  // ---------- rows ----------

  lemma SpendAdvances(a: Db, b: Db, claims: Claims, at: Time)
    requires Inv(a) && Spends(a, b, claims, at)
    ensures ChallengeRows(b.challenges, a.issued) && ChallengesAdvance(a.challenges, a.issued, b.challenges)
  {
  }

  lemma SameChallenges(a: Db, b: Db)
    requires Inv(a) && a.challenges == b.challenges
    ensures ChallengeRows(b.challenges, a.issued) && ChallengesAdvance(a.challenges, a.issued, b.challenges)
  {
  }

  /** Rows that are only advanced. */
  lemma RowsKept(a: Db, b: Db)
    requires RowInv(a) && b.issued == a.issued && Revoked(a, b)
    requires ChallengeRows(b.challenges, a.issued) && ChallengesAdvance(a.challenges, a.issued, b.challenges)
    ensures RowInv(b) && RowsAdvance(a, b, {}, {})
  {
  }

  /** Rows that are only deleted. */
  lemma RowsDropped(a: Db, b: Db)
    requires RowInv(a) && b.issued == a.issued && Shrinks(a.challenges, b.challenges)
    requires Shrinks(a.sessions, b.sessions) && Shrinks(a.devices, b.devices) && Shrinks(a.entitlements, b.entitlements)
    ensures RowInv(b) && RowsAdvance(a, b, {}, {})
  {
  }

  /** One user's row changed within the rules. */
  lemma UserKept(a: Db, b: Db, u: Uuid)
    requires u in b.users && b.users.Keys == a.users.Keys + {u}
    requires forall v :: v in a.users && v != u ==> b.users[v] == a.users[v]
    requires u in a.users ==> UserAdvances(a.users[u], b.users[u])
    ensures UsersAdvance(a.users, b.users)
  {
  }

  lemma SpaceFrame(a: map<Uuid, bool>, b: map<Uuid, bool>, u: Uuid)
    requires b == a || b == a - {u} || (u in b && b == a[u := b[u]])
    ensures forall v :: v != u ==> SpaceOf(a, v) == SpaceOf(b, v)
  {
  }

  // ---------- self-service steps ----------

  lemma RegisterIdentityKept(a: Db, b: Db, r: RegisterRecord)
    requires Inv(a) && Registered(a, b, r)
    ensures IdentityInv(b.identities, b.users, b.lookup.keys)
  {
    var row := Identity(r.user, r.claims.kind, r.keyId, r.hmac, r.claims.login);
    UnknownLogin(a, r.claims.kind, r.claims.login);
    forall i | i in a.identities ensures a.identities[i].user != r.user {
      assert IdentityOk(a.identities, a.users, a.lookup.keys, i);
    }
    InsertInv(a.identities, a.users, b.users, a.lookup.keys, r.identity, row);
  }

  lemma RegisterKept(a: Db, b: Db, r: RegisterRecord)
    requires Inv(a) && Registered(a, b, r)
    ensures Kept(a, b)
  {
    RegisterIdentityKept(a, b, r);
    SpaceFrame(a.spaces, b.spaces, r.user);
    StatusUpdate(a, b, r.user);
    UserKept(a, b, r.user);
    Unrevoked(a);
    if r.direct { SameChallenges(a, b); } else { SpendAdvances(a, b, r.claims, r.at); }
    RowsKept(a, b);
  }

  lemma LoginKept(a: Db, b: Db, r: LoginRecord)
    requires Inv(a) && SignedIn(a, b, r)
    ensures Kept(a, b)
  {
    Unrevoked(a);
    SpendAdvances(a, b, r.claims, r.at);
    RowsKept(a, b);
  }

  lemma PasswordKept(a: Db, b: Db, user: Uuid, password: seq<Byte>)
    requires Inv(a) && PasswordSet(a, b, user, password) && b.spaces == a.spaces && b.identities == a.identities && b.lookup == a.lookup
    ensures StatusInv(b.users, b.spaces, b.credentials) && UsersAdvance(a.users, b.users)
    ensures IdentityInv(b.identities, b.users, b.lookup.keys)
  {
    assert UserOk(a.users, a.spaces, a.credentials, user);
    StatusUpdate(a, b, user);
    UserKept(a, b, user);
    IdentityFrame(a.identities, a.users, b.users, a.lookup.keys, b.lookup.keys);
  }

  lemma ResetKept(a: Db, b: Db, r: ResetRecord)
    requires Inv(a) && PasswordWasReset(a, b, r)
    ensures Kept(a, b)
  {
    var user := FindUser(a, r.claims).value;
    PasswordKept(a, b, user, r.password);
    OverwriteAdvances(a.sessions, user, r.at, ByPasswordReset);
    Unrevoked(a);
    SpendAdvances(a, b, r.claims, r.at);
    RowsKept(a, b);
  }

  lemma BindKept(a: Db, b: Db, r: BindRecord)
    requires Inv(a) && Bound(a, b, r)
    ensures Kept(a, b)
  {
    var row := Identity(r.user, r.claims.kind, r.keyId, r.hmac, r.claims.login);
    UnknownLogin(a, r.claims.kind, r.claims.login);
    assert UserOk(a.users, a.spaces, a.credentials, r.user);
    InsertInv(a.identities, a.users, b.users, a.lookup.keys, r.identity, row);
    Unrevoked(a);
    SpendAdvances(a, b, r.claims, r.at);
    RowsKept(a, b);
  }

  lemma RemoveKept(a: Db, b: Db, r: RemoveRecord)
    requires Inv(a) && Removed(a, b, r)
    ensures Kept(a, b)
  {
    var i :| i in IdentitiesOf(a.identities, r.user) && b == a.(identities := a.identities - {i});
    RemoveInv(a, r.user, i);
  }

  lemma ChangeKept(a: Db, b: Db, r: ChangeRecord)
    requires Inv(a) && PasswordChanged(a, b, r)
    ensures Kept(a, b)
  {
    PasswordKept(a, b, r.user, r.password);
    ChangeRevokes(a, b, r);
    SameChallenges(a, b);
    RowsKept(a, b);
  }

  lemma ChangeRevokes(a: Db, b: Db, r: ChangeRecord)
    requires PasswordChanged(a, b, r)
    ensures Revoked(a, b)
    ensures b == a.(users := b.users, credentials := b.credentials, devices := b.devices, sessions := b.sessions,
                    entitlements := b.entitlements)
  {
    var device := a.sessions[r.session].device;
    RevokeDevicesAdvances(a.devices, DevicesOf(a.devices, r.user) - {device}, r.at);
    RevokeSessionsAdvances(a.sessions, SessionsOf(a.sessions, r.user) - {r.session}, r.at, ByPasswordChange);
    RevokeEntitlementsAdvances(a.entitlements, EntitlementsElsewhere(a.entitlements, r.user, device), r.at);
  }

  lemma RevokedAllAdvances(a: Db, b: Db, user: Uuid, at: Time, reason: Reason)
    requires RevokedAll(a, b, user, at, reason)
    ensures Revoked(a, b)
  {
    RevokeDevicesAdvances(a.devices, DevicesOf(a.devices, user), at);
    RevokeSessionsAdvances(a.sessions, SessionsOf(a.sessions, user), at, reason);
    RevokeEntitlementsAdvances(a.entitlements, EntitlementsOf(a.entitlements, user), at);
  }

  /** A user who is not finalised moves to another unfinalised state, with the personal space. */
  lemma StatusChangeKept(a: Db, b: Db, u: Uuid)
    requires Inv(a) && u in a.users && u in b.users && a.users[u].finalizedAt.None? && b.users[u].finalizedAt.None?
    requires b.users == a.users[u := b.users[u]] && b.users[u].revision >= a.users[u].revision
    requires u in a.spaces && u in b.spaces && b.spaces == a.spaces[u := b.spaces[u]]
    requires b.credentials.Keys == a.credentials.Keys && b.identities == a.identities && b.lookup == a.lookup
    requires UserOk(b.users, b.spaces, b.credentials, u)
    ensures StatusInv(b.users, b.spaces, b.credentials) && UsersAdvance(a.users, b.users)
    ensures IdentityInv(b.identities, b.users, b.lookup.keys)
  {
    SpaceFrame(a.spaces, b.spaces, u);
    StatusUpdate(a, b, u);
    UserKept(a, b, u);
    IdentityFrame(a.identities, a.users, b.users, a.lookup.keys, b.lookup.keys);
  }

  lemma RequestKept(a: Db, b: Db, r: DeletionRecord)
    requires Inv(a) && Requested(a, b, r)
    ensures Kept(a, b)
  {
    assert UserOk(a.users, a.spaces, a.credentials, r.user);
    StatusChangeKept(a, b, r.user);
    RevokedAllAdvances(a, b, r.user, r.at, ByAccountDeletion);
    SpendAdvances(a, b, r.claims, r.at);
    RowsKept(a, b);
  }

  lemma RecoverKept(a: Db, b: Db, r: DeletionRecord)
    requires Inv(a) && Recovered(a, b, r)
    ensures Kept(a, b)
  {
    assert UserOk(a.users, a.spaces, a.credentials, r.user);
    StatusChangeKept(a, b, r.user);
    Unrevoked(a);
    SpendAdvances(a, b, r.claims, r.at);
    RowsKept(a, b);
  }

  lemma FinalizeKept(a: Db, b: Db, r: FinalizeRecord)
    requires Inv(a) && Finalized(a, b, r)
    ensures Kept(a, b)
  {
    assert UserOk(a.users, a.spaces, a.credentials, r.user);
    SpaceFrame(a.spaces, b.spaces, r.user);
    StatusUpdate(a, b, r.user);
    UserKept(a, b, r.user);
    FinalizeIdentityInv(a, b.users, r.user);
    RowsDropped(a, b);
  }

  lemma SelfServiceKept(db: Db, e: Event)
    requires Inv(db) && IsSelfService(e)
    ensures Kept(db, Committed(db, SelfService(db, e)))
  {
    var b := Committed(db, SelfService(db, e));
    ExtendsSelf(db);
    if SelfService(db, e).Ok? {
      match e
      case RegisterEvent(r) => RegisterShape(db, r); RegisterKept(db, b, r);
      case LoginEvent(r) => LoginShape(db, r); LoginKept(db, b, r);
      case ResetEvent(r) => ResetShape(db, r); ResetKept(db, b, r);
      case BindEvent(r) => BindShape(db, r); BindKept(db, b, r);
      case RemoveEvent(r) => RemoveShape(db, r); RemoveKept(db, b, r);
      case ChangeEvent(r) => ChangeShape(db, r); ChangeKept(db, b, r);
      case RequestEvent(r) => RequestShape(db, r); RequestKept(db, b, r);
      case RecoverEvent(r) => RecoverShape(db, r); RecoverKept(db, b, r);
      case FinalizeEvent(r) => FinalizeShape(db, r); FinalizeKept(db, b, r);
    }
  }

  // ---------- administrative steps ----------

  lemma AdminKept(a: Db, b: Db, u: Uuid)
    requires Inv(a) && AdminChanges(a, b, u)
    ensures Kept(a, b)
  {
    assert UserOk(a.users, a.spaces, a.credentials, u);
    SpaceFrame(a.spaces, b.spaces, u);
    StatusUpdate(a, b, u);
    UserKept(a, b, u);
    IdentityFrame(a.identities, a.users, b.users, a.lookup.keys, b.lookup.keys);
    SameChallenges(a, b);
    RowsKept(a, b);
  }

  lemma OperatorKept(db: Db, e: Event)
    requires Inv(db)
    ensures Kept(db, Committed(db, Operator(db, e)))
  {
    var b := Committed(db, Operator(db, e));
    ExtendsSelf(db);
    if Operator(db, e).Ok? {
      match e
      case DisableEvent(m) => DisableChanges(db, m.target, m.at); AdminKept(db, b, m.target);
      case EnableEvent(m) => EnableChanges(db, m.target); AdminKept(db, b, m.target);
      case RevokeEvent(m) =>
        var session := db.sessions[m.target];
        FamilyChanges(db, session.user, session.family, m.at);
        AdminKept(db, b, session.user);
    }
  }

  lemma FoundNone(db: Db, operation: Uuid)
    requires ValidRing(db.protector) && FindOperation(db, operation).None?
    ensures operation !in db.operations
  {
  }

  /** Adding an operation's row and audit event to a database that already holds the invariant. */
  lemma RecordedKept(a: Db, b: Db, x: Call, row: StoredOperation, answer: Answer, acted: Db, result: int, denial: Option<Denial>)
    requires Inv(a) && Kept(a, acted) && acted.operations == a.operations && acted.audit == a.audit
    requires Recorded(a, b, x, row, answer, acted, result, denial)
    requires row.operation.id == x.command.operation && row.action == x.action && row.expected == x.command.expected
    requires if denial.None? then result == x.command.expected + 1 && result >= 1
             else result == 0 && denial.value.code != NoCode
    ensures Kept(a, b)
  {
    FoundNone(a, x.command.operation);
    RecordInv(a.operations, a.audit, x.command.operation, Closed(row, x.finishedAt, result, denial), AuditOf(x, result, denial));
  }

  lemma DenialCodes(db: Db, x: Call)
    ensures ApplyAction(db, x).Denied? ==> ApplyAction(db, x).denial.code != NoCode
  {
  }

  lemma OutcomesKept(db: Db, x: Call, row: StoredOperation, b: Db, answer: Answer)
    requires Inv(db) && Outcomes(db, x, row, b, answer)
    requires row.operation.id == x.command.operation && row.action == x.action && row.expected == x.command.expected
    ensures Kept(db, b)
  {
    ExtendsSelf(db);
    var applied := ApplyAction(db, x);
    if b != db {
      if applied.Denied? {
        DenialCodes(db, x);
        RecordedKept(db, b, x, row, answer, db, 0, Some(applied.denial));
      } else {
        ApplyShape(db, x);
        AdminKept(db, applied.db, applied.user);
        RecordedKept(db, b, x, row, answer, applied.db, applied.after, None);
      }
    }
  }

  lemma RowOfCall(db: Db, x: Call)
    requires ValidRing(db.protector)
    ensures var row := ExecutingRow(db, x);
            row.operation.id == x.command.operation && row.action == x.action && row.expected == x.command.expected
  {
  }

  lemma ExecuteKept(db: Db, x: Call)
    requires Inv(db)
    ensures Kept(db, Execute(db, x).0)
  {
    ExecuteShape(db, x);
    RowOfCall(db, x);
    OutcomesKept(db, x, ExecutingRow(db, x), Execute(db, x).0, Execute(db, x).1);
  }

  // ---------- around ----------

  lemma RotationKept(db: Db, ring: LookupRing)
    requires Inv(db) && ValidLookup(ring) && KeysKept(db.lookup, ring)
    ensures Kept(db, db.(lookup := ring))
  {
    IdentityFrame(db.identities, db.users, db.users, db.lookup.keys, ring.keys);
  }

  /** Only tables of issued rows changed. */
  lemma RowChangeKept(a: Db, b: Db, again: set<Uuid>, replayed: set<Uuid>)
    requires Inv(a) && RowInv(b) && RowsAdvance(a, b, again, replayed)
    requires b == a.(challenges := b.challenges, devices := b.devices, sessions := b.sessions,
                     entitlements := b.entitlements, issued := b.issued)
    ensures Inv(b) && Extends(a, b, again, replayed)
  {
  }

  lemma NewChallengeKept(db: Db, b: Db, id: Uuid, row: Challenge)
    requires RowInv(db) && id !in db.issued && id != NIL && row.receiptAt.None?
    requires b == db.(challenges := db.challenges[id := row], issued := db.issued + {id})
    ensures RowInv(b) && RowsAdvance(db, b, {}, {})
  {
    RowsSame(db, b.issued);
  }

  lemma IssueShape(db: Db, id: Uuid, purpose: Purpose, kind: Kind, login: Login)
    requires ValidLookup(db.lookup)
    ensures var b := Issue(db, id, purpose, kind, login);
            b == db || (id !in db.issued && id != NIL && id in b.challenges && b.challenges[id].receiptAt.None?
                        && b == db.(challenges := db.challenges[id := b.challenges[id]], issued := db.issued + {id}))
  {
  }

  lemma VerifyKept(db: Db, id: Uuid, at: Time)
    requires RowInv(db)
    ensures RowInv(Verify(db, id, at)) && RowsAdvance(db, Verify(db, id, at), {}, {})
  {
    RowsSame(db, db.issued);
    ConfirmedRows(db.challenges, db.issued, id, at);
  }

  lemma ConfirmedRows(challenges: map<Uuid, Challenge>, issued: set<Uuid>, id: Uuid, at: Time)
    requires ChallengeRows(challenges, issued)
    ensures id in challenges && challenges[id].consumedAt.None? ==>
              var after := challenges[id := challenges[id].(consumedAt := Some(at))];
              ChallengeRows(after, issued) && ChallengesAdvance(challenges, issued, after)
  {
  }

  lemma NewSessionRows(db: Db, b: Db, id: Uuid, session: Session)
    requires RowInv(db) && id !in db.issued && session.revokedAt.None? && session.reason.None?
    requires b == db.(sessions := db.sessions[id := session], issued := db.issued + {id, session.family})
    ensures RowInv(b) && RowsAdvance(db, b, {}, {})
  {
    RowsSame(db, b.issued);
  }

  lemma NewDeviceRows(db: Db, b: Db, id: Uuid, device: Device)
    requires RowInv(db) && id !in db.issued && device.status.DeviceActive? && device.revokedAt.None?
    requires b == db.(devices := db.devices[id := device], issued := db.issued + {id})
    ensures RowInv(b) && RowsAdvance(db, b, {}, {})
  {
    RowsSame(db, b.issued);
  }

  lemma NewEntitlementRows(db: Db, b: Db, id: Uuid, entitlement: Entitlement)
    requires RowInv(db) && id !in db.issued
    requires b == db.(entitlements := db.entitlements[id := entitlement], issued := db.issued + {id})
    ensures RowInv(b) && RowsAdvance(db, b, {}, {})
  {
    RowsSame(db, b.issued);
  }

  lemma SweptRows(db: Db, b: Db, ids: set<Uuid>)
    requires RowInv(db) && b == db.(challenges := db.challenges - ids)
    ensures RowInv(b) && RowsAdvance(db, b, {}, {})
  {
    RowsSame(db, db.issued);
  }

  lemma RowEventKept(db: Db, e: Event)
    requires Inv(db)
    requires e.IssueEvent? || e.VerifyEvent? || e.SweepEvent? || e.EntitlementEvent?
    ensures Kept(db, Around(db, e))
  {
    var b := Around(db, e);
    ExtendsSelf(db);
    if b != db {
      match e
      case IssueEvent(id, purpose, kind, login) =>
        IssueShape(db, id, purpose, kind, login);
        NewChallengeKept(db, b, id, b.challenges[id]);
      case VerifyEvent(id, at) => VerifyKept(db, id, at);
      case SweepEvent(ids) => SweptRows(db, b, ids);
      case EntitlementEvent(id, entitlement) => NewEntitlementRows(db, b, id, entitlement);
      RowChangeKept(db, b, {}, {});
    }
  }

  lemma OwnershipKept(db: Db, owned: set<(Uuid, Uuid)>)
    requires Inv(db)
    ensures Kept(db, db.(owned := owned))
  {
    RowsSame(db, db.issued);
  }

  lemma ProtectorKept(db: Db, ring: Ring)
    requires Inv(db) && ValidRing(ring)
    ensures Kept(db, db.(protector := ring))
  {
    RowsSame(db, db.issued);
  }

  lemma AroundKept(db: Db, e: Event)
    requires Inv(db)
    ensures Kept(db, Around(db, e))
  {
    ExtendsSelf(db);
    if e.LookupRotation? {
      if ValidLookup(e.lookup) && KeysKept(db.lookup, e.lookup) { RotationKept(db, e.lookup); }
    } else if e.OwnershipEvent? {
      OwnershipKept(db, e.owned);
    } else if e.ProtectorRotation? {
      if ValidRing(e.protector) { ProtectorKept(db, e.protector); }
    } else if e.IssueEvent? || e.VerifyEvent? || e.SweepEvent? || e.EntitlementEvent? {
      RowEventKept(db, e);
    }
  }

  // ---------- devices and sessions ----------

  /** The device an event authorizes again. */
  ghost function AgainBy(db: Db, e: Event): set<Uuid> {
    if e.AuthorizeEvent? && Authorize(db, e.authorize).Ok? then AgainAs(db, e.authorize) else {}
  }

  ghost function AgainAs(db: Db, r: AuthorizeRecord): set<Uuid> {
    var known := Installed(db.devices, r.installation);
    if known != {} then {Least(known)} else {}
  }

  /** The session family of which an event replays a refresh token. */
  ghost function ReplayedBy(db: Db, e: Event): set<Uuid> {
    if e.RotateEvent? then ReplayedAs(db, e.rotate) else {}
  }

  ghost function ReplayedAs(db: Db, r: RotateRecord): set<Uuid> {
    if Replays(db, r) then {db.sessions[r.source].family} else {}
  }

  lemma ReauthorizedRows(db: Db, b: Db, d: Uuid, user: Uuid)
    requires RowInv(db) && d in db.devices
    requires b == db.(devices := db.devices[d := db.devices[d].(user := user, status := DeviceActive, revokedAt := None)])
    ensures RowInv(b) && RowsAdvance(db, b, {d}, {})
  {
    RowsSame(db, db.issued);
  }

  lemma AuthorizeRows(db: Db, r: AuthorizeRecord)
    requires Inv(db) && Authorize(db, r).Ok?
    ensures var b := Authorize(db, r).value;
            RowInv(b) && RowsAdvance(db, b, AgainAs(db, r), {})
  {
    var b := Authorize(db, r).value;
    var known := Installed(db.devices, r.installation);
    if known != {} {
      ReauthorizedRows(db, b, Least(known), r.user);
    } else {
      NewDeviceRows(db, b, r.device, Device(r.user, r.installation, r.publicKey, DeviceActive, None));
    }
  }

  lemma EndDeviceAdvances(devices: map<Uuid, Device>, device: Uuid, at: Time)
    requires device in devices && devices[device].revokedAt.None?
    ensures DevicesRevoked(devices, EndDevice(devices, device, at))
  {
  }

  lemma OverwriteLiveAdvances(sessions: map<Uuid, Session>, ids: set<Uuid>, at: Time, reason: Reason)
    requires forall s :: s in ids ==> s in sessions && sessions[s].revokedAt.None?
    requires forall s :: s in sessions ==> (sessions[s].revokedAt.None? <==> sessions[s].reason.None?)
    ensures SessionsRevoked(sessions, OverwriteReason(sessions, ids, at, reason))
  {
  }

  lemma ReplaySessions(sessions: map<Uuid, Session>, issued: set<Uuid>, family: Uuid, at: Time)
    requires SessionRows(sessions, issued)
    ensures var after := MarkReplay(sessions, Family(sessions, family), at);
            SessionRows(after, issued) && SessionsAdvance(sessions, issued, after, {family})
  {
  }

  lemma ReplayRows(db: Db, b: Db, family: Uuid, at: Time)
    requires RowInv(db) && b == db.(sessions := MarkReplay(db.sessions, Family(db.sessions, family), at))
    ensures RowInv(b) && RowsAdvance(db, b, {}, {family})
  {
    RowsSame(db, db.issued);
    ReplaySessions(db.sessions, db.issued, family, at);
  }

  lemma RevokedRows(a: Db, b: Db)
    requires Inv(a) && Revoked(a, b) && b.issued == a.issued && b.challenges == a.challenges
    ensures RowInv(b) && RowsAdvance(a, b, {}, {})
  {
    SameChallenges(a, b);
    RowsKept(a, b);
  }

  lemma RevokeDeviceRows(db: Db, r: RevokeDeviceRecord)
    requires Inv(db) && RevokeOwnDevice(db, r).Ok?
    ensures var b := RevokeOwnDevice(db, r).value;
            RowInv(b) && RowsAdvance(db, b, {}, {})
  {
    EndDeviceAdvances(db.devices, r.device, r.at);
    var live := set s | s in SessionsAt(db.sessions, r.device) && db.sessions[s].revokedAt.None?;
    OverwriteLiveAdvances(db.sessions, live, r.at, ByDeviceRevocation);
    RevokeEntitlementsAdvances(db.entitlements, EntitlementsAt(db.entitlements, r.device), r.at);
    RevokedRows(db, RevokeOwnDevice(db, r).value);
  }

  lemma SelfRevokeRows(db: Db, r: SelfRevokeRecord)
    requires Inv(db) && SelfRevoke(db, r).Ok?
    ensures var b := SelfRevoke(db, r).value;
            RowInv(b) && RowsAdvance(db, b, {}, {})
  {
    EndDeviceAdvances(db.devices, r.device, r.at);
    RevokeSessionsAdvances(db.sessions, SessionsAt(db.sessions, r.device), r.at, BySelfRevocation);
    RevokeEntitlementsAdvances(db.entitlements, EntitlementsAt(db.entitlements, r.device), r.at);
    RevokedRows(db, SelfRevoke(db, r).value);
  }

  lemma FamilyEndsRows(db: Db, family: Uuid, at: Time, reason: Reason)
    requires Inv(db)
    ensures var b := EndFamily(db, family, at, reason);
            RowInv(b) && RowsAdvance(db, b, {}, {})
  {
    Unrevoked(db);
    RevokeSessionsAdvances(db.sessions, Family(db.sessions, family), at, reason);
    RevokedRows(db, EndFamily(db, family, at, reason));
  }

  /** A session replaced by its successor. */
  lemma SuccessorRows(db: Db, b: Db, source: Uuid, at: Time, successor: Uuid, next: Session)
    requires RowInv(db) && source in db.sessions && db.sessions[source].replacedAt.None? && successor !in db.issued
    requires next.revokedAt.None? && next.reason.None? && next.family == db.sessions[source].family
    requires b == db.(sessions := db.sessions[source := db.sessions[source].(replacedAt := Some(at))][successor := next],
                      issued := db.issued + {successor})
    ensures RowInv(b) && RowsAdvance(db, b, {}, {})
  {
    RowsSame(db, b.issued);
  }

  /** What a refresh comes to: a replay marked, nothing, a revoked family, or a successor. */
  ghost predicate Rotated(db: Db, b: Db, r: RotateRecord) {
    if Replays(db, r) then
      b == db.(sessions := MarkReplay(db.sessions, Family(db.sessions, db.sessions[r.source].family), r.at))
    else
      || b == db
      || (r.source in db.sessions
          && var row := db.sessions[r.source];
          || b == EndFamily(db, row.family, r.at, ByInvalidSession)
          || (row.replacedAt.None? && row.revokedAt.None? && r.successor !in db.issued
              && row.user in db.users && row.device in db.devices
              && b == db.(sessions := db.sessions[r.source := row.(replacedAt := Some(r.at))]
                                         [r.successor := Session(row.user, row.device, row.family, r.expiresAt, None, None, None)],
                          issued := db.issued + {r.successor})))
  }

  lemma RotateShape(db: Db, r: RotateRecord)
    ensures Rotated(db, Rotate(db, r).0, r)
  {
  }

  lemma RotateRows(db: Db, b: Db, r: RotateRecord)
    requires Inv(db) && Rotated(db, b, r)
    ensures RowInv(b) && RowsAdvance(db, b, {}, ReplayedAs(db, r))
  {
    if Replays(db, r) {
      ReplayRows(db, b, db.sessions[r.source].family, r.at);
    } else if b == db {
      RowsSame(db, db.issued);
    } else {
      var row := db.sessions[r.source];
      if b == EndFamily(db, row.family, r.at, ByInvalidSession) {
        FamilyEndsRows(db, row.family, r.at, ByInvalidSession);
      } else {
        SuccessorRows(db, b, r.source, r.at, r.successor,
                      Session(row.user, row.device, row.family, r.expiresAt, None, None, None));
      }
    }
  }

  lemma CreateRows(db: Db, r: CreateRecord)
    requires RowInv(db) && CreateSession(db, r).Ok?
    ensures var b := CreateSession(db, r).value;
            RowInv(b) && RowsAdvance(db, b, {}, {})
  {
    NewSessionRows(db, CreateSession(db, r).value, r.session,
                   Session(r.user, r.device, r.family, r.expiresAt, None, None, None));
  }

  lemma SweepRows(db: Db, now: Time)
    requires RowInv(db)
    ensures RowInv(SweepSessions(db, now)) && RowsAdvance(db, SweepSessions(db, now), {}, {})
  {
    RowsDropped(db, SweepSessions(db, now));
  }

  ghost predicate RowsStep(db: Db, b: Db, e: Event) {
    RowInv(b) && RowsAdvance(db, b, AgainBy(db, e), ReplayedBy(db, e))
  }

  lemma DeviceEventRows(db: Db, e: Event)
    requires Inv(db) && (e.AuthorizeEvent? || e.RevokeDeviceEvent? || e.SelfRevokeEvent?)
    ensures RowsStep(db, Access(db, e), e)
  {
    RowsSame(db, db.issued);
    match e
    case AuthorizeEvent(r) => if Authorize(db, r).Ok? { AuthorizeRows(db, r); }
    case RevokeDeviceEvent(r) => if RevokeOwnDevice(db, r).Ok? { RevokeDeviceRows(db, r); }
    case SelfRevokeEvent(r) => if SelfRevoke(db, r).Ok? { SelfRevokeRows(db, r); }
  }

  lemma SessionEventRows(db: Db, e: Event)
    requires Inv(db) && (e.CreateEvent? || e.RotateEvent? || e.LogoutEvent? || e.EndFamilyEvent? || e.ExpireEvent?)
    ensures RowsStep(db, Access(db, e), e)
  {
    RowsSame(db, db.issued);
    match e
    case CreateEvent(r) => if CreateSession(db, r).Ok? { CreateRows(db, r); }
    case RotateEvent(r) => RotateShape(db, r); RotateRows(db, Rotate(db, r).0, r);
    case LogoutEvent(s, at) => if s in db.sessions { FamilyEndsRows(db, db.sessions[s].family, at, ByLogout); }
    case EndFamilyEvent(family, at) => FamilyEndsRows(db, family, at, ByIssuanceFailure);
    case ExpireEvent(now) => SweepRows(db, now);
  }

  lemma AccessKept(db: Db, e: Event)
    requires Inv(db) && IsAccess(e)
    ensures Inv(Access(db, e)) && Extends(db, Access(db, e), AgainBy(db, e), ReplayedBy(db, e))
  {
    AccessIsLocal(db, e);
    if e.AuthorizeEvent? || e.RevokeDeviceEvent? || e.SelfRevokeEvent? { DeviceEventRows(db, e); } else { SessionEventRows(db, e); }
    RowChangeKept(db, Access(db, e), AgainBy(db, e), ReplayedBy(db, e));
  }

  lemma StepKept(db: Db, e: Event)
    requires Inv(db)
    ensures Inv(Apply(db, e)) && Extends(db, Apply(db, e), AgainBy(db, e), ReplayedBy(db, e))
  {
    if IsSelfService(e) { SelfServiceKept(db, e); }
    else if IsOperator(e) { OperatorKept(db, e); }
    else if IsAccess(e) { AccessKept(db, e); }
    else if e.ExecuteEvent? { ExecuteKept(db, e.call); }
    else { AroundKept(db, e); }
  }

  /** Every state a run reaches keeps the invariant. */
  lemma {:induction false} RunInv(trace: seq<Db>, events: seq<Event>, i: nat)
    requires IsRun(trace, events) && i <= |events|
    ensures Inv(trace[i])
  {
    if i == 0 {
      FreshInv(trace[0].lookup, trace[0].protector, trace[0].deviceLimit);
    } else {
      RunInv(trace, events, i - 1);
      RunStep(trace, events, i - 1);
    }
  }

  lemma RunStep(trace: seq<Db>, events: seq<Event>, i: nat)
    requires IsRun(trace, events) && i < |events| && Inv(trace[i])
    ensures Inv(trace[i + 1]) && Extends(trace[i], trace[i + 1], AgainBy(trace[i], events[i]), ReplayedBy(trace[i], events[i]))
  {
    RunApply(trace, events, i);
    StepKept(trace[i], events[i]);
  }

  lemma RunApply(trace: seq<Db>, events: seq<Event>, i: nat)
    requires IsRun(trace, events) && i < |events|
    ensures RingsOk(trace[i]) && trace[i + 1] == Apply(trace[i], events[i])
  {
    assert StepAt(trace, events, i);
  }

  ghost function AgainSteps(trace: seq<Db>, events: seq<Event>): (r: seq<set<Uuid>>)
    requires |events| < |trace|
    ensures |r| == |events|
  {
    seq(|events|, k requires 0 <= k < |events| => AgainBy(trace[k], events[k]))
  }

  ghost function ReplaySteps(trace: seq<Db>, events: seq<Event>): (r: seq<set<Uuid>>)
    requires |events| < |trace|
    ensures |r| == |events|
  {
    seq(|events|, k requires 0 <= k < |events| => ReplayedBy(trace[k], events[k]))
  }

  /** The devices authorized again by the events from `i` to `j`. */
  ghost function Again(trace: seq<Db>, events: seq<Event>, i: nat, j: nat): set<Uuid>
    requires i <= j <= |events| < |trace|
  {
    Gather(AgainSteps(trace, events), i, j)
  }

  /** The session families replayed by the events from `i` to `j`. */
  ghost function Replayed(trace: seq<Db>, events: seq<Event>, i: nat, j: nat): set<Uuid>
    requires i <= j <= |events| < |trace|
  {
    Gather(ReplaySteps(trace, events), i, j)
  }

  lemma NextExtends(trace: seq<Db>, events: seq<Event>, i: nat)
    requires IsRun(trace, events) && i < |events|
    ensures Extends(trace[i], trace[i + 1], AgainSteps(trace, events)[i], ReplaySteps(trace, events)[i])
  {
    RunInv(trace, events, i);
    RunStep(trace, events, i);
  }

  ghost predicate Linked(trace: seq<Db>, agains: seq<set<Uuid>>, replays: seq<set<Uuid>>, k: nat) {
    k < |agains| == |replays| < |trace| && Extends(trace[k], trace[k + 1], agains[k], replays[k])
  }

  lemma {:induction false} ExtendsAlong(trace: seq<Db>, agains: seq<set<Uuid>>, replays: seq<set<Uuid>>, i: nat, j: nat)
    requires i <= j <= |agains| == |replays| < |trace|
    requires forall k {:trigger Linked(trace, agains, replays, k)} :: i <= k < j ==> Linked(trace, agains, replays, k)
    ensures Extends(trace[i], trace[j], Gather(agains, i, j), Gather(replays, i, j))
    decreases j
  {
    if i == j {
      ExtendsSelf(trace[i]);
    } else {
      ExtendsAlong(trace, agains, replays, i, j - 1);
      assert Linked(trace, agains, replays, j - 1);
      ExtendsTransitive(trace[i], trace[j - 1], trace[j], Gather(agains, i, j - 1), agains[j - 1], Gather(replays, i, j - 1), replays[j - 1]);
    }
  }

  /** A later state of a run extends an earlier one. */
  lemma RunExtends(trace: seq<Db>, events: seq<Event>, i: nat, j: nat)
    requires IsRun(trace, events) && i <= j <= |events|
    ensures Extends(trace[i], trace[j], Again(trace, events, i, j), Replayed(trace, events, i, j))
  {
    var agains, replays := AgainSteps(trace, events), ReplaySteps(trace, events);
    forall k | i <= k < j ensures Linked(trace, agains, replays, k) { NextExtends(trace, events, k); }
    ExtendsAlong(trace, agains, replays, i, j);
  }

  /** What becomes of one session along a run. */
  lemma RunSession(trace: seq<Db>, events: seq<Event>, i: nat, j: nat, s: Uuid)
    requires IsRun(trace, events) && i <= j <= |events| && s in trace[i].sessions && s in trace[j].sessions
    ensures var (a, b) := (trace[i].sessions[s], trace[j].sessions[s]);
            if a.family in Replayed(trace, events, i, j) then ReplayMoves(a, b) else SessionAdvances(a, b)
  {
    RunInv(trace, events, i);
    RunExtends(trace, events, i, j);
  }
}
