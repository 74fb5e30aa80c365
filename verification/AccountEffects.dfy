/** What account and administrative steps do to the rows of a user when they commit, and when they commit. */
module AccountEffects {
  import opened Common
  import opened Bytes
  import opened Protector
  import opened AccountState
  import opened AccountSteps
  import opened AdminSteps
  import opened AccessSteps
  import opened AccountShapes
  import opened AccountRuns
  import opened AccountInvariants
  import opened AccountProofs
  import opened OperationTheorems

  // ---------- who is signed out, and who is not ----------

  /** The rows of one user a step signs out, and the time and reason it gives those not yet revoked. */
  datatype Cut = Cut(user: Uuid, sessions: set<Uuid>, devices: set<Uuid>, entitlements: set<Uuid>, at: Time, reason: Reason)

  function Everything(db: Db, user: Uuid, at: Time, reason: Reason): Cut {
    Cut(user, SessionsOf(db.sessions, user), DevicesOf(db.devices, user), EntitlementsOf(db.entitlements, user), at, reason)
  }

  function DeviceOnly(db: Db, user: Uuid, device: Uuid, at: Time, reason: Reason): Cut {
    Cut(user, SessionsAt(db.sessions, device), {device}, EntitlementsAt(db.entitlements, device), at, reason)
  }

  function NoDevices(db: Db, user: Uuid, at: Time, reason: Reason): Cut {
    Cut(user, SessionsOf(db.sessions, user), {}, EntitlementsOf(db.entitlements, user), at, reason)
  }

  ghost predicate SessionCut(a: Session, b: Session, cut: Cut) {
    b == a.(revokedAt := Coalesce(a.revokedAt, cut.at), reason := Coalesce(a.reason, cut.reason))
  }

  ghost predicate DeviceCut(a: Device, b: Device, cut: Cut) {
    b == a.(status := DeviceRevoked, revokedAt := Coalesce(a.revokedAt, cut.at))
  }

  ghost predicate EntitlementCut(a: Entitlement, b: Entitlement, cut: Cut) {
    b == a.(revokedAt := Coalesce(a.revokedAt, cut.at))
  }

  ghost predicate SessionsCut(a: map<Uuid, Session>, b: map<Uuid, Session>, cut: Cut) {
    && a.Keys == b.Keys && cut.sessions <= a.Keys
    && forall s :: s in a ==> if s in cut.sessions then SessionCut(a[s], b[s], cut) else b[s] == a[s]
  }

  ghost predicate DevicesCut(a: map<Uuid, Device>, b: map<Uuid, Device>, cut: Cut) {
    && a.Keys == b.Keys && cut.devices <= a.Keys
    && forall d :: d in a ==> if d in cut.devices then DeviceCut(a[d], b[d], cut) else b[d] == a[d]
  }

  ghost predicate EntitlementsCut(a: map<Uuid, Entitlement>, b: map<Uuid, Entitlement>, cut: Cut) {
    && a.Keys == b.Keys && cut.entitlements <= a.Keys
    && forall e :: e in a ==> if e in cut.entitlements then EntitlementCut(a[e], b[e], cut) else b[e] == a[e]
  }

  /** Exactly the rows named are revoked, those revoked before as they were. */
  ghost predicate CutDown(a: Db, b: Db, cut: Cut) {
    SessionsCut(a.sessions, b.sessions, cut) && DevicesCut(a.devices, b.devices, cut) && EntitlementsCut(a.entitlements, b.entitlements, cut)
  }

  lemma RevokedAllIsCut(a: Db, b: Db, user: Uuid, at: Time, reason: Reason)
    requires RevokedAll(a, b, user, at, reason)
    ensures CutDown(a, b, Everything(a, user, at, reason))
  {
  }

  /** A deletion request signs the user out everywhere and touches nobody else. */
  lemma DeletionRequestShuts(db: Db, r: DeletionRecord)
    requires ValidLookup(db.lookup) && RequestDeletion(db, r).Ok?
    ensures CutDown(db, RequestDeletion(db, r).value, Everything(db, r.user, r.at, ByAccountDeletion))
  {
    RequestShape(db, r);
    RevokedAllIsCut(db, RequestDeletion(db, r).value, r.user, r.at, ByAccountDeletion);
  }

  /** So does disabling, from the command line or the control API. */
  lemma DisableShuts(db: Db, user: Uuid, now: Time)
    requires user in db.users && DisableLifecycle(db, user, now).Ok?
    ensures CutDown(db, DisableLifecycle(db, user, now).value, Everything(db, user, now, ByAdminDisable))
  {
    RevokedAllIsCut(db, DisableLifecycle(db, user, now).value, user, now, ByAdminDisable);
  }

  function AllButOne(db: Db, r: ChangeRecord): Cut
    requires r.session in db.sessions
  {
    var device := db.sessions[r.session].device;
    Cut(r.user, SessionsOf(db.sessions, r.user) - {r.session}, DevicesOf(db.devices, r.user) - {device},
        EntitlementsElsewhere(db.entitlements, r.user, device), r.at, ByPasswordChange)
  }

  /** A password change spares the session it was made from, its device and that device's entitlements. */
  lemma PasswordChangeKeepsOneSession(db: Db, r: ChangeRecord)
    requires ChangePassword(db, r).Ok?
    ensures r.session in db.sessions && CutDown(db, ChangePassword(db, r).value, AllButOne(db, r))
  {
    ChangeShape(db, r);
    ChangedIsCut(db, ChangePassword(db, r).value, r);
  }

  lemma ChangedIsCut(a: Db, b: Db, r: ChangeRecord)
    requires PasswordChanged(a, b, r)
    ensures CutDown(a, b, AllButOne(a, r))
  {
  }

  function SessionsOnly(db: Db, user: Uuid, at: Time, reason: Reason): Cut {
    Cut(user, SessionsOf(db.sessions, user), {}, {}, at, reason)
  }

  /** A password reset ends every session of the owner, and nobody else's. */
  lemma PasswordResetEndsSessions(db: Db, r: ResetRecord)
    requires Inv(db) && ResetPassword(db, r).Ok?
    ensures FindUser(db, r.claims).Some?
    ensures CutDown(db, ResetPassword(db, r).value, SessionsOnly(db, FindUser(db, r.claims).value, r.at, ByPasswordReset))
  {
    ResetShape(db, r);
    ResetIsCut(db, ResetPassword(db, r).value, FindUser(db, r.claims).value, r.at);
  }

  lemma ResetIsCut(a: Db, b: Db, user: Uuid, at: Time)
    requires RowInv(a) && b.devices == a.devices && b.entitlements == a.entitlements
    requires b.sessions == OverwriteReason(a.sessions, LiveSessionsOf(a.sessions, user), at, ByPasswordReset)
    ensures CutDown(a, b, SessionsOnly(a, user, at, ByPasswordReset))
  {
  }

  /** Revoking a device revokes it, its sessions and its entitlements, and no other row. */
  lemma DeviceRevocationIsLocal(db: Db, user: Uuid, device: Uuid, now: Time)
    requires user in db.users && RevokeDeviceLifecycle(db, user, device, now).Ok?
    ensures CutDown(db, RevokeDeviceLifecycle(db, user, device, now).value, DeviceOnly(db, user, device, now, ByDeviceAdmin))
  {
  }

  function FamilyOnly(db: Db, user: Uuid, family: Uuid, at: Time): Cut {
    Cut(user, FamilyOf(db, user, family), {}, {}, at, ByAdmin)
  }

  /** Revoking a session revokes its whole family for its user, and no other row. */
  lemma FamilyRevocationIsLocal(db: Db, user: Uuid, family: Uuid, now: Time)
    requires user in db.users && RevokeFamilyLifecycle(db, user, family, now).Ok?
    ensures CutDown(db, RevokeFamilyLifecycle(db, user, family, now).value, FamilyOnly(db, user, family, now))
  {
  }

  lemma SignedOut(a: Db, b: Db, user: Uuid, now: Time, reason: Reason)
    requires RowInv(a) && b.devices == a.devices
    requires b.sessions == RevokeSessions(a.sessions, LiveSessionsOf(a.sessions, user), now, reason)
    requires b.entitlements == RevokeEntitlements(a.entitlements, EntitlementsOf(a.entitlements, user), now)
    ensures CutDown(a, b, NoDevices(a, user, now, reason))
  {
  }

  /** A forced logout leaves no live session and no live entitlement; devices stay. */
  lemma ForcedLogoutEndsSessions(db: Db, user: Uuid, now: Time)
    requires RowInv(db) && user in db.users
    ensures CutDown(db, RevokeAllLifecycle(db, user, now), NoDevices(db, user, now, ByAdminAll))
  {
    SignedOut(db, RevokeAllLifecycle(db, user, now), user, now, ByAdminAll);
  }

  /** So does a forced password reset. */
  lemma ForcedResetEndsSessions(db: Db, user: Uuid, now: Time, secret: seq<Byte>)
    requires RowInv(db) && user in db.users && ForceResetLifecycle(db, user, now, secret).Ok?
    ensures CutDown(db, ForceResetLifecycle(db, user, now, secret).value, NoDevices(db, user, now, ByAdminPasswordReset))
  {
    SignedOut(db, ForceResetLifecycle(db, user, now, secret).value, user, now, ByAdminPasswordReset);
  }

  /** The owner's own ways to end a device. */
  lemma OwnDeviceEnds(a: Db, b: Db, user: Uuid, device: Uuid, at: Time)
    requires RowInv(a) && device in a.devices && a.devices[device].revokedAt.None? && b.devices == EndDevice(a.devices, device, at)
    requires b.entitlements == RevokeEntitlements(a.entitlements, EntitlementsAt(a.entitlements, device), at)
    ensures var live := set s | s in SessionsAt(a.sessions, device) && a.sessions[s].revokedAt.None?;
            b.sessions == OverwriteReason(a.sessions, live, at, ByDeviceRevocation) ==>
              CutDown(a, b, DeviceOnly(a, user, device, at, ByDeviceRevocation))
    ensures b.sessions == RevokeSessions(a.sessions, SessionsAt(a.sessions, device), at, BySelfRevocation) ==>
              CutDown(a, b, DeviceOnly(a, user, device, at, BySelfRevocation))
  {
  }

  // ---------- signing out lasts ----------

  function ActionCut(db: Db, x: Call, user: Uuid): Option<Cut>
    requires ResolveUser(db, x.action, x.target) == Some(user)
  {
    match x.action
    case RevokeDevice => Some(DeviceOnly(db, user, x.target, x.appliedAt, ByDeviceAdmin))
    case RevokeSession => Some(FamilyOnly(db, user, db.sessions[x.target].family, x.appliedAt))
    case RevokeAllSessions => Some(NoDevices(db, user, x.appliedAt, ByAdminAll))
    case ForcePasswordReset => Some(NoDevices(db, user, x.appliedAt, ByAdminPasswordReset))
    case DisableUser => Some(Everything(db, user, x.appliedAt, ByAdminDisable))
    case EnableUser => None
  }

  /** What a committed event signs out. */
  ghost function CutOf(db: Db, e: Event): Option<Cut> {
    match e
    case RequestEvent(r) =>
      if ValidLookup(db.lookup) && RequestDeletion(db, r).Ok? then Some(Everything(db, r.user, r.at, ByAccountDeletion)) else None
    case ResetEvent(r) =>
      if ValidLookup(db.lookup) && ResetPassword(db, r).Ok?
      then Some(SessionsOnly(db, FindUser(db, r.claims).value, r.at, ByPasswordReset)) else None
    case ChangeEvent(r) => if ChangePassword(db, r).Ok? then Some(AllButOne(db, r)) else None
    case DisableEvent(m) => if DisableAccount(db, m).Ok? then Some(Everything(db, m.target, m.at, ByAdminDisable)) else None
    case RevokeEvent(m) =>
      if RevokeSessionCommand(db, m).Ok?
      then Some(FamilyOnly(db, db.sessions[m.target].user, db.sessions[m.target].family, m.at)) else None
    case RevokeDeviceEvent(r) =>
      if RevokeOwnDevice(db, r).Ok? then Some(DeviceOnly(db, r.user, r.device, r.at, ByDeviceRevocation)) else None
    case SelfRevokeEvent(r) =>
      if SelfRevoke(db, r).Ok? then Some(DeviceOnly(db, r.user, r.device, r.at, BySelfRevocation)) else None
    case ExecuteEvent(x) =>
      if TookEffect(db, x) && ResolveUser(db, x.action, x.target).Some?
      then ActionCut(db, x, ResolveUser(db, x.action, x.target).value) else None
    case _ => None
  }

  lemma ActionCuts(db: Db, x: Call)
    requires Inv(db) && ApplyAction(db, x).Mutated?
    ensures ResolveUser(db, x.action, x.target) == Some(ApplyAction(db, x).user)
    ensures var cut := ActionCut(db, x, ApplyAction(db, x).user);
            cut.Some? ==> CutDown(db, ApplyAction(db, x).db, cut.value)
  {
    ApplyShape(db, x);
    var user := ApplyAction(db, x).user;
    match x.action
    case RevokeDevice => DeviceRevocationIsLocal(db, user, x.target, x.appliedAt);
    case RevokeSession => FamilyRevocationIsLocal(db, user, db.sessions[x.target].family, x.appliedAt);
    case RevokeAllSessions => ForcedLogoutEndsSessions(db, user, x.appliedAt);
    case ForcePasswordReset => ForcedResetEndsSessions(db, user, x.appliedAt, x.secret);
    case DisableUser => DisableShuts(db, user, x.appliedAt);
    case EnableUser =>
  }

  lemma EffectiveIsApplied(db: Db, x: Call)
    requires Inv(db) && TookEffect(db, x)
    ensures ApplyAction(db, x).Mutated?
    ensures var (b, acted) := (Execute(db, x).0, ApplyAction(db, x).db);
            b.sessions == acted.sessions && b.devices == acted.devices && b.entitlements == acted.entitlements
  {
    RanShape(db, x);
    AppliedRows(db, x, ExecutingRow(db, x), Execute(db, x).0, Execute(db, x).1);
  }

  lemma AppliedRows(db: Db, x: Call, row: StoredOperation, b: Db, answer: Answer)
    requires ValidRing(db.protector) && RanAs(db, x, row, b, answer) && answer.denial.None?
    ensures ApplyAction(db, x).Mutated?
    ensures var acted := ApplyAction(db, x).db;
            b.sessions == acted.sessions && b.devices == acted.devices && b.entitlements == acted.entitlements
  {
  }

  lemma ExecuteCuts(db: Db, x: Call)
    requires Inv(db) && CutOf(db, ExecuteEvent(x)).Some?
    ensures CutDown(db, Execute(db, x).0, CutOf(db, ExecuteEvent(x)).value)
  {
    EffectiveIsApplied(db, x);
    ActionCuts(db, x);
  }

  lemma OwnDeviceCuts(db: Db, e: Event)
    requires Inv(db) && (e.RevokeDeviceEvent? || e.SelfRevokeEvent?) && CutOf(db, e).Some?
    ensures CutDown(db, Access(db, e), CutOf(db, e).value)
  {
    match e
    case RevokeDeviceEvent(r) => OwnDeviceEnds(db, Access(db, e), r.user, r.device, r.at);
    case SelfRevokeEvent(r) => OwnDeviceEnds(db, Access(db, e), r.user, r.device, r.at);
  }

  lemma SelfServiceCuts(db: Db, e: Event)
    requires Inv(db) && IsSelfService(e) && CutOf(db, e).Some?
    ensures CutDown(db, Committed(db, SelfService(db, e)), CutOf(db, e).value)
  {
    match e
    case RequestEvent(r) => DeletionRequestShuts(db, r);
    case ResetEvent(r) => PasswordResetEndsSessions(db, r);
    case ChangeEvent(r) => PasswordChangeKeepsOneSession(db, r);
  }

  lemma OperatorCuts(db: Db, e: Event)
    requires IsOperator(e) && CutOf(db, e).Some?
    ensures CutDown(db, Committed(db, Operator(db, e)), CutOf(db, e).value)
  {
    match e
    case DisableEvent(m) => DisableShuts(db, m.target, m.at);
    case RevokeEvent(m) => FamilyRevocationIsLocal(db, db.sessions[m.target].user, db.sessions[m.target].family, m.at);
  }

  lemma CutStep(db: Db, e: Event)
    requires Inv(db) && CutOf(db, e).Some?
    ensures CutDown(db, Apply(db, e), CutOf(db, e).value)
  {
    if IsSelfService(e) { SelfServiceCuts(db, e); }
    else if IsOperator(e) { OperatorCuts(db, e); }
    else if IsAccess(e) { OwnDeviceCuts(db, e); }
    else { ExecuteCuts(db, e.call); }
  }

  /** The rows of a cut, much later: as first revoked, but that sessions of a replayed family carry the replay as
      their reason, and that a device may have been authorized again. */
  ghost predicate StaysCut(a: Db, b: Db, cut: Cut, again: set<Uuid>, replayed: set<Uuid>) {
    && cut.sessions <= a.sessions.Keys && cut.devices <= a.devices.Keys && cut.entitlements <= a.entitlements.Keys
    && (forall s :: s in cut.sessions && s in b.sessions ==>
          && b.sessions[s].revokedAt == Coalesce(a.sessions[s].revokedAt, cut.at)
          && b.sessions[s].reason ==
             if a.sessions[s].family in replayed then Some(ByReplay) else Coalesce(a.sessions[s].reason, cut.reason))
    && (forall d :: d in cut.devices && d in b.devices && d !in again ==>
          DeviceCut(a.devices[d], b.devices[d], cut))
    && (forall e :: e in cut.entitlements && e in b.entitlements ==>
          EntitlementCut(a.entitlements[e], b.entitlements[e], cut))
  }

  /** What of the user's is live, much later: spared by the cut, or new since. */
  ghost predicate OnlySparedOrNew(a: Db, b: Db, cut: Cut, again: set<Uuid>) {
    && (forall s :: s in LiveSessionsOf(b.sessions, cut.user) ==>
          s !in a.issued || s in SessionsOf(a.sessions, cut.user) - cut.sessions)
    && (forall d :: d in b.devices && b.devices[d].user == cut.user && !b.devices[d].status.DeviceRevoked? && d !in again ==>
          d !in a.issued || d in DevicesOf(a.devices, cut.user) - cut.devices)
    && (forall e :: e in b.entitlements && b.entitlements[e].user == cut.user && b.entitlements[e].revokedAt.None? ==>
          e !in a.issued || e in EntitlementsOf(a.entitlements, cut.user) - cut.entitlements)
  }

  lemma CutCarries(a: Db, mid: Db, b: Db, cut: Cut, again: set<Uuid>, replayed: set<Uuid>)
    requires RowInv(a) && CutDown(a, mid, cut) && a.issued <= mid.issued && Extends(mid, b, again, replayed)
    ensures StaysCut(a, b, cut, again, replayed)
  {
  }

  lemma CutLeaves(a: Db, b: Db, cut: Cut, again: set<Uuid>, replayed: set<Uuid>, sooner: set<Uuid>)
    requires StaysCut(a, b, cut, again, replayed) && Extends(a, b, again, sooner)
    ensures OnlySparedOrNew(a, b, cut, again)
  {
  }

  lemma CutIsNotAgain(db: Db, e: Event)
    requires CutOf(db, e).Some?
    ensures AgainBy(db, e) == {}
  {
  }

  lemma CutKeepsAgain(trace: seq<Db>, events: seq<Event>, i: nat, j: nat)
    requires i < j <= |events| < |trace| && CutOf(trace[i], events[i]).Some?
    ensures Again(trace, events, i, j) == Again(trace, events, i + 1, j)
  {
    CutIsNotAgain(trace[i], events[i]);
    GatherFirst(AgainSteps(trace, events), i, j);
  }

  /** After a committed disable, deletion request, password change or reset, forced logout or device or session
      revocation at event `i`, every session, device and entitlement it covered is revoked in every later state,
      with the time of its first revocation, and its reason unless the family is replayed, and what is live of that
      user was spared or came later.  Devices are excepted once they are authorized again. */
  lemma SignOutLasts(trace: seq<Db>, events: seq<Event>, i: nat, j: nat)
    requires IsRun(trace, events) && i < j <= |events| && CutOf(trace[i], events[i]).Some?
    ensures StaysCut(trace[i], trace[j], CutOf(trace[i], events[i]).value,
                     Again(trace, events, i + 1, j), Replayed(trace, events, i + 1, j))
    ensures OnlySparedOrNew(trace[i], trace[j], CutOf(trace[i], events[i]).value, Again(trace, events, i + 1, j))
  {
    var cut, again := CutOf(trace[i], events[i]).value, Again(trace, events, i + 1, j);
    CutKeepsAgain(trace, events, i, j);
    RunExtends(trace, events, i, j);
    RunCut(trace, events, i);
    RunExtends(trace, events, i + 1, j);
    CutCarries(trace[i], trace[i + 1], trace[j], cut, again, Replayed(trace, events, i + 1, j));
    CutLeaves(trace[i], trace[j], cut, again, Replayed(trace, events, i + 1, j), Replayed(trace, events, i, j));
  }

  lemma RunCut(trace: seq<Db>, events: seq<Event>, i: nat)
    requires IsRun(trace, events) && i < |events| && CutOf(trace[i], events[i]).Some?
    ensures CutDown(trace[i], trace[i + 1], CutOf(trace[i], events[i]).value)
    ensures RowInv(trace[i]) && trace[i].issued <= trace[i + 1].issued
  {
    RunInv(trace, events, i);
    RunApply(trace, events, i);
    CutStep(trace[i], events[i]);
    NextExtends(trace, events, i);
  }

  // ---------- finalisation ----------

  ghost predicate AddressedTo(c: Challenge, i: Identity) {
    c.kind == i.kind && c.keyId == i.keyId && c.hmac == i.hmac
  }

  /** No challenge is left that was addressed to one of the user's logins. */
  ghost predicate NoneAddressed(challenges: map<Uuid, Challenge>, identities: map<Uuid, Identity>, user: Uuid) {
    forall c, i :: c in challenges && i in identities && identities[i].user == user ==> !AddressedTo(challenges[c], identities[i])
  }

  /** Finalisation leaves nothing of the user but the row itself: no identity, password, space, device, session on
      such a device, entitlement, or challenge addressed to one of the identities. */
  lemma FinalisationErases(db: Db, r: FinalizeRecord)
    requires FinalizeDeletion(db, r).Ok?
    ensures var b := FinalizeDeletion(db, r).value;
            && (forall i :: i in b.identities ==> b.identities[i].user != r.user)
            && r.user !in b.credentials && r.user !in b.spaces
            && (forall d :: d in b.devices ==> b.devices[d].user != r.user)
            && (forall s :: s in b.sessions && b.sessions[s].device in db.devices ==> db.devices[b.sessions[s].device].user != r.user)
            && (forall e :: e in b.entitlements ==> b.entitlements[e].user != r.user)
            && NoneAddressed(b.challenges, db.identities, r.user)
            && (forall i :: i in db.identities && db.identities[i].user != r.user ==> i in b.identities && b.identities[i] == db.identities[i])
  {
    var b := FinalizeDeletion(db, r).value;
    forall c, i | c in b.challenges && i in db.identities && db.identities[i].user == r.user
      ensures !AddressedTo(b.challenges[c], db.identities[i])
    {
      assert c in db.challenges && c !in ChallengesFor(db, r.user);
    }
  }

  /** Challenges that were there when an account was finalised and addressed to it are gone for good. */
  lemma FinalizedChallengesGone(trace: seq<Db>, events: seq<Event>, i: nat, j: nat, c: Uuid)
    requires IsRun(trace, events) && i < j <= |events| && events[i].FinalizeEvent? && FinalizeDeletion(trace[i], events[i].finalize).Ok?
    requires c in trace[i].issued && c in trace[j].challenges
    ensures forall n :: n in trace[i].identities && trace[i].identities[n].user == events[i].finalize.user ==>
              !AddressedTo(trace[j].challenges[c], trace[i].identities[n])
  {
    FinalizedStep(trace, events, i);
    NextExtends(trace, events, i);
    RunExtends(trace, events, i + 1, j);
  }

  lemma FinalizedStep(trace: seq<Db>, events: seq<Event>, i: nat)
    requires IsRun(trace, events) && i < |events| && events[i].FinalizeEvent? && FinalizeDeletion(trace[i], events[i].finalize).Ok?
    ensures NoneAddressed(trace[i + 1].challenges, trace[i].identities, events[i].finalize.user)
  {
    RunApply(trace, events, i);
    FinalisationErases(trace[i], events[i].finalize);
  }

  // ---------- when the control API acts ----------

  /** The state an action needs, as an operator sees it. */
  ghost predicate Applicable(db: Db, x: Call, user: Uuid)
    requires user in db.users && ResolveUser(db, x.action, x.target) == Some(user)
  {
    match x.action
    case RevokeDevice => !db.devices[x.target].status.DeviceRevoked?
    case RevokeSession => db.sessions[x.target].revokedAt.None?
    case RevokeAllSessions => exists s :: s in db.sessions && db.sessions[s].user == user && db.sessions[s].revokedAt.None?
    case ForcePasswordReset => db.users[user].status.Active?
    case DisableUser => db.users[user].status.Active?
    case EnableUser => db.users[user].adminDisabled
  }

  lemma GuardIsApplicable(db: Db, x: Call, user: Uuid)
    requires Inv(db) && user in db.users && ResolveUser(db, x.action, x.target) == Some(user)
    ensures Guard(db, x.action, x.target, user) == NoCode <==> Applicable(db, x, user)
  {
    assert UserOk(db.users, db.spaces, db.credentials, user);
    if x.action.RevokeAllSessions? && Applicable(db, x, user) {
      var s :| s in db.sessions && db.sessions[s].user == user && db.sessions[s].revokedAt.None?;
      assert s in LiveSessionsOf(db.sessions, user);
    }
  }

  lemma LifecycleNeverFails(db: Db, x: Call, user: Uuid)
    requires Inv(db) && user in db.users && ResolveUser(db, x.action, x.target) == Some(user)
    requires Guard(db, x.action, x.target, user) == NoCode
    ensures Lifecycle(db, x.action, x.target, user, x.appliedAt, x.secret).Ok?
  {
    assert UserOk(db.users, db.spaces, db.credentials, user);
    if x.action.RevokeSession? {
      assert x.target in FamilyOf(db, user, db.sessions[x.target].family);
    }
  }

  ghost predicate Targets(db: Db, x: Call) {
    ResolveUser(db, x.action, x.target).Some? && ResolveUser(db, x.action, x.target).value in db.users
  }

  /** With the invariant in force an action takes effect exactly when its target exists, the expected revision is
      the current one and the state allows it; a missing target and a conflict are told apart, and nothing is
      abandoned half-way while the clock works. */
  lemma ActionAppliesIff(db: Db, x: Call)
    requires Inv(db) && x.appliedAt != ZERO_TIME
    ensures !ApplyAction(db, x).Broken?
    ensures ApplyAction(db, x).Denied? && ApplyAction(db, x).denial.cause.TargetMissing? <==> !Targets(db, x)
    ensures ApplyAction(db, x).Mutated? <==>
            && Targets(db, x)
            && db.users[ResolveUser(db, x.action, x.target).value].revision == x.command.expected
            && Applicable(db, x, ResolveUser(db, x.action, x.target).value)
  {
    if Targets(db, x) {
      var user := ResolveUser(db, x.action, x.target).value;
      assert UserOk(db.users, db.spaces, db.credentials, user);
      GuardIsApplicable(db, x, user);
      if Guard(db, x.action, x.target, user) == NoCode {
        LifecycleNeverFails(db, x, user);
        LifecycleChanges(db, x, user);
      }
    }
  }
}
