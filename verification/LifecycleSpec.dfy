/** What deletion requests, recovery, finalisation, disabling, enabling and the other administrative actions ask of the
    rows they find, and what they leave. */
module LifecycleSpec {
  import opened Common
  import opened Bytes
  import opened Protector
  import opened AccountState
  import opened AccountSteps
  import opened AdminSteps
  import opened AccessSteps
  import opened AccountShapes
  import opened AccountRuns
  import opened AccountInvariants
  import opened OperationTheorems
  import opened AccountEffects
  import opened AccountSpec

  const SEVEN_DAYS: Time := 604_800_000_000_000

  ghost predicate OwnsNothing(db: Db, user: Uuid) { forall o :: o in db.owned ==> o.0 != user }

  lemma OwnsNothingIff(db: Db, user: Uuid)
    ensures |OwnedOrganizations(db, user)| == 0 <==> OwnsNothing(db, user)
  {
    if OwnsNothing(db, user) { assert OwnedOrganizations(db, user) == {}; }
    if |OwnedOrganizations(db, user)| == 0 {
      forall o | o in db.owned ensures o.0 != user { assert o !in OwnedOrganizations(db, user); }
    }
  }

  // ---------- deletion ----------

  ghost predicate MayRequest(db: Db, r: DeletionRecord)
    requires ValidLookup(db.lookup)
  {
    && r.user != NIL && r.claims.purpose == AccountDeletion && r.at != ZERO_TIME
    && r.user in db.users && db.users[r.user].status == Active && Usable(db, r.claims, r.at)
    && FindUser(db, r.claims) == Some(r.user) && OwnsNothing(db, r.user)
  }

  /** Pending from now on, the space shut, and every session, device and entitlement of the user revoked. */
  ghost predicate RequestedAs(db: Db, b: Db, r: DeletionRecord) {
    && r.user in db.users && r.claims.challenge in db.challenges
    && b.users == db.users[r.user := db.users[r.user].(status := PendingDeletion, requestedAt := Some(r.at), finalizedAt := None)]
    && b.spaces == (if r.user in db.spaces then db.spaces[r.user := false] else db.spaces)
    && b.challenges == Used(db.challenges, r.claims.challenge, r.at)
    && CutDown(db, b, Everything(db, r.user, r.at, ByAccountDeletion))
    && b == db.(users := b.users, spaces := b.spaces, challenges := b.challenges,
                devices := b.devices, sessions := b.sessions, entitlements := b.entitlements)
  }

  lemma RequestOnly(db: Db, r: DeletionRecord)
    requires ValidLookup(db.lookup) && RequestDeletion(db, r).Ok?
    ensures MayRequest(db, r) && RequestedAs(db, RequestDeletion(db, r).value, r)
  {
    ReceiptIff(db, r.claims);
    OwnsNothingIff(db, r.user);
    RequestShape(db, r);
    DeletionRequestShuts(db, r);
  }

  /** A deletion is requested exactly by the active owner of the login who owns no organization. */
  lemma RequestDoes(db: Db, r: DeletionRecord)
    requires ValidLookup(db.lookup)
    ensures RequestDeletion(db, r).Ok? <==> MayRequest(db, r)
    ensures RequestDeletion(db, r).Ok? ==> RequestedAs(db, RequestDeletion(db, r).value, r)
  {
    if RequestDeletion(db, r).Ok? { RequestOnly(db, r); }
    if MayRequest(db, r) {
      ReceiptIff(db, r.claims);
      OwnsNothingIff(db, r.user);
    }
  }

  ghost predicate MayRecover(db: Db, r: DeletionRecord)
    requires ValidLookup(db.lookup)
  {
    && r.user != NIL && r.claims.purpose == DeletionRecovery && r.at != ZERO_TIME
    && r.user in db.users && db.users[r.user].status == PendingDeletion && db.users[r.user].requestedAt.Some?
    && r.at < db.users[r.user].requestedAt.value + SEVEN_DAYS
    && Usable(db, r.claims, r.at) && FindUser(db, r.claims) == Some(r.user)
  }

  ghost predicate RecoveredAs(db: Db, b: Db, r: DeletionRecord) {
    && r.user in db.users && r.claims.challenge in db.challenges
    && b == db.(users := db.users[r.user := db.users[r.user].(status := Active, requestedAt := None, finalizedAt := None)],
                spaces := if r.user in db.spaces then db.spaces[r.user := true] else db.spaces,
                challenges := Used(db.challenges, r.claims.challenge, r.at))
  }

  /** An account is recovered exactly within seven days of the request, by the owner of the login. */
  lemma RecoverDoes(db: Db, r: DeletionRecord)
    requires ValidLookup(db.lookup)
    ensures RecoverDeletion(db, r).Ok? <==> MayRecover(db, r)
    ensures RecoverDeletion(db, r).Ok? ==> RecoveredAs(db, RecoverDeletion(db, r).value, r)
  {
    ReceiptIff(db, r.claims);
    if RecoverDeletion(db, r).Ok? { RecoverShape(db, r); }
  }

  ghost predicate MayFinalize(db: Db, r: FinalizeRecord) {
    && r.user != NIL && r.at != ZERO_TIME && r.user in db.users && db.users[r.user].status == PendingDeletion
    && db.users[r.user].requestedAt.Some? && r.at >= db.users[r.user].requestedAt.value + SEVEN_DAYS && OwnsNothing(db, r.user)
  }

  /** Exactly the rows of the user go, with the sessions and entitlements of the user's devices. */
  ghost predicate FinalizedAs(db: Db, b: Db, r: FinalizeRecord) {
    && r.user in db.users
    && b.users == db.users[r.user := db.users[r.user].(status := Disabled, adminDisabled := false, finalizedAt := Some(r.at))]
    && b.spaces == db.spaces - {r.user} && b.credentials == db.credentials - {r.user}
    && Shrinks(db.identities, b.identities) && (forall i :: i in db.identities ==> (i in b.identities <==> db.identities[i].user != r.user))
    && Shrinks(db.devices, b.devices) && (forall d :: d in db.devices ==> (d in b.devices <==> db.devices[d].user != r.user))
    && Shrinks(db.sessions, b.sessions)
    && (forall s :: s in db.sessions ==>
          (s in b.sessions <==> !(db.sessions[s].device in db.devices && db.devices[db.sessions[s].device].user == r.user)))
    && Shrinks(db.entitlements, b.entitlements)
    && (forall e :: e in db.entitlements ==>
          (e in b.entitlements <==> && db.entitlements[e].user != r.user
                                    && !(db.entitlements[e].device in db.devices && db.devices[db.entitlements[e].device].user == r.user)))
    && Shrinks(db.challenges, b.challenges)
    && (forall c :: c in db.challenges ==>
          (c in b.challenges <==> forall i :: i in db.identities && db.identities[i].user == r.user ==>
                                    !AddressedTo(db.challenges[c], db.identities[i])))
    && b == db.(users := b.users, spaces := b.spaces, credentials := b.credentials, identities := b.identities,
                devices := b.devices, sessions := b.sessions, entitlements := b.entitlements, challenges := b.challenges)
  }

  lemma FinalizeIff(db: Db, r: FinalizeRecord)
    ensures FinalizeDeletion(db, r).Ok? <==> MayFinalize(db, r)
  {
    OwnsNothingIff(db, r.user);
  }

  lemma FinalizeChallenges(db: Db, r: FinalizeRecord)
    requires FinalizeDeletion(db, r).Ok?
    ensures var b := FinalizeDeletion(db, r).value;
            && Shrinks(db.challenges, b.challenges)
            && (forall c :: c in db.challenges ==>
                  (c in b.challenges <==> forall i :: i in db.identities && db.identities[i].user == r.user ==>
                                            !AddressedTo(db.challenges[c], db.identities[i])))
  {
    var b := FinalizeDeletion(db, r).value;
    forall c | c in db.challenges
      ensures c in b.challenges <==> forall i :: i in db.identities && db.identities[i].user == r.user ==>
                                       !AddressedTo(db.challenges[c], db.identities[i])
    {
      assert c in b.challenges <==> c !in ChallengesFor(db, r.user);
    }
  }

  /** An account is finalised exactly after seven days of a pending deletion, if it owns no organization. */
  lemma FinalizeDoes(db: Db, r: FinalizeRecord)
    ensures FinalizeDeletion(db, r).Ok? <==> MayFinalize(db, r)
    ensures FinalizeDeletion(db, r).Ok? ==> FinalizedAs(db, FinalizeDeletion(db, r).value, r)
  {
    FinalizeIff(db, r);
    if FinalizeDeletion(db, r).Ok? {
      FinalizeShape(db, r);
      FinalizeChallenges(db, r);
    }
  }

  // ---------- administrative actions ----------

  /** What an action does to the user's row. */
  ghost function RowAfter(u: User, action: Action): User {
    match action
    case DisableUser => u.(status := Disabled, adminDisabled := true, revision := u.revision + 1)
    case EnableUser => u.(status := Active, adminDisabled := false, revision := u.revision + 1)
    case _ => u.(revision := u.revision + 1)
  }

  ghost function SpacesAfter(spaces: map<Uuid, bool>, user: Uuid, action: Action): map<Uuid, bool> {
    if action.DisableUser? then spaces[user := false] else if action.EnableUser? then spaces[user := true] else spaces
  }

  /** The user's row and space as the action says, the drawn secret as the password after a forced reset, and nothing
      else changed but what is revoked. */
  ghost predicate RowsAs(db: Db, b: Db, action: Action, user: Uuid, secret: seq<Byte>) {
    && user in db.users && b.users == db.users[user := RowAfter(db.users[user], action)]
    && b.spaces == SpacesAfter(db.spaces, user, action)
    && b.credentials == (if action.ForcePasswordReset? then db.credentials[user := secret] else db.credentials)
    && b == db.(users := b.users, spaces := b.spaces, credentials := b.credentials,
                devices := b.devices, sessions := b.sessions, entitlements := b.entitlements)
  }

  /** What a committed action leaves: those rows, and exactly the rows it covers revoked. */
  ghost predicate ActedAs(db: Db, b: Db, x: Call, user: Uuid)
    requires ResolveUser(db, x.action, x.target) == Some(user)
  {
    && RowsAs(db, b, x.action, user, x.secret)
    && match ActionCut(db, x, user)
       case Some(cut) => CutDown(db, b, cut)
       case None => b.devices == db.devices && b.sessions == db.sessions && b.entitlements == db.entitlements
  }

  lemma DisableRows(db: Db, user: Uuid, now: Time, secret: seq<Byte>)
    requires user in db.users && DisableLifecycle(db, user, now).Ok?
    ensures RowsAs(db, DisableLifecycle(db, user, now).value, DisableUser, user, secret)
  {
  }

  lemma EnableRows(db: Db, user: Uuid, secret: seq<Byte>)
    requires user in db.users && EnableLifecycle(db, user).Ok?
    ensures RowsAs(db, EnableLifecycle(db, user).value, EnableUser, user, secret)
    ensures var b := EnableLifecycle(db, user).value;
            b.devices == db.devices && b.sessions == db.sessions && b.entitlements == db.entitlements
  {
  }

  lemma DeviceRows(db: Db, user: Uuid, device: Uuid, now: Time, secret: seq<Byte>)
    requires user in db.users && RevokeDeviceLifecycle(db, user, device, now).Ok?
    ensures RowsAs(db, RevokeDeviceLifecycle(db, user, device, now).value, RevokeDevice, user, secret)
  {
  }

  lemma FamilyRows(db: Db, user: Uuid, family: Uuid, now: Time, secret: seq<Byte>)
    requires user in db.users && RevokeFamilyLifecycle(db, user, family, now).Ok?
    ensures RowsAs(db, RevokeFamilyLifecycle(db, user, family, now).value, RevokeSession, user, secret)
  {
  }

  lemma SessionsRows(db: Db, user: Uuid, now: Time, secret: seq<Byte>)
    requires user in db.users
    ensures RowsAs(db, RevokeAllLifecycle(db, user, now), RevokeAllSessions, user, secret)
  {
  }

  lemma ResetRows(db: Db, user: Uuid, now: Time, secret: seq<Byte>)
    requires user in db.users && ForceResetLifecycle(db, user, now, secret).Ok?
    ensures RowsAs(db, ForceResetLifecycle(db, user, now, secret).value, ForcePasswordReset, user, secret)
  {
  }

  lemma ActionLeaves(db: Db, x: Call)
    requires Inv(db) && ApplyAction(db, x).Mutated?
    ensures ResolveUser(db, x.action, x.target) == Some(ApplyAction(db, x).user)
    ensures ActedAs(db, ApplyAction(db, x).db, x, ApplyAction(db, x).user)
  {
    ActionCuts(db, x);
    ApplyShape(db, x);
    var user := ApplyAction(db, x).user;
    match x.action
    case RevokeDevice => DeviceRows(db, user, x.target, x.appliedAt, x.secret);
    case RevokeSession => FamilyRows(db, user, db.sessions[x.target].family, x.appliedAt, x.secret);
    case RevokeAllSessions => SessionsRows(db, user, x.appliedAt, x.secret);
    case ForcePasswordReset => ResetRows(db, user, x.appliedAt, x.secret);
    case DisableUser => DisableRows(db, user, x.appliedAt, x.secret);
    case EnableUser => EnableRows(db, user, x.secret);
  }

  /** The database but for the operations and their audit trail. */
  ghost predicate SameButRecord(a: Db, b: Db) { b == a.(operations := b.operations, audit := b.audit) }

  /** A control call that took effect leaves exactly what its action says, beside its record. */
  lemma ExecuteLeaves(db: Db, x: Call)
    requires Inv(db) && TookEffect(db, x)
    ensures ResolveUser(db, x.action, x.target).Some?
    ensures exists b :: SameButRecord(b, Execute(db, x).0) && ActedAs(db, b, x, ResolveUser(db, x.action, x.target).value)
  {
    EffectiveIsApplied(db, x);
    ActionLeaves(db, x);
    RanShape(db, x);
    RecordedBeside(db, x, ExecutingRow(db, x), Execute(db, x).0, Execute(db, x).1);
    assert ActedAs(db, ApplyAction(db, x).db, x, ResolveUser(db, x.action, x.target).value);
  }

  lemma RecordedBeside(db: Db, x: Call, row: StoredOperation, b: Db, answer: Answer)
    requires ValidRing(db.protector) && RanAs(db, x, row, b, answer) && answer.denial.None?
    ensures ApplyAction(db, x).Mutated? && SameButRecord(ApplyAction(db, x).db, b)
  {
  }

  // ---------- the operator's commands ----------

  ghost predicate Named(m: Mutation) { m.operatorOk && m.target != NIL && m.audit != NIL && m.at != ZERO_TIME }

  /** Disabling is for active users, and leaves them disabled and signed out. */
  lemma DisableDoes(db: Db, m: Mutation)
    requires Inv(db)
    ensures DisableAccount(db, m).Ok? <==> Named(m) && m.target in db.users && db.users[m.target].status == Active
    ensures DisableAccount(db, m).Ok? ==>
              var b := DisableAccount(db, m).value;
              && RowsAs(db, b, DisableUser, m.target, []) && CutDown(db, b, Everything(db, m.target, m.at, ByAdminDisable))
  {
    if m.target in db.users { assert UserOk(db.users, db.spaces, db.credentials, m.target); }
    if DisableAccount(db, m).Ok? {
      DisableRows(db, m.target, m.at, []);
      DisableShuts(db, m.target, m.at);
    }
  }

  /** Enabling is for administratively disabled users, and leaves them active with their space. */
  lemma EnableDoes(db: Db, m: Mutation)
    requires Inv(db)
    ensures EnableAccount(db, m).Ok? <==> Named(m) && m.target in db.users && db.users[m.target].adminDisabled
    ensures EnableAccount(db, m).Ok? ==>
              var b := EnableAccount(db, m).value;
              && RowsAs(db, b, EnableUser, m.target, [])
              && b.devices == db.devices && b.sessions == db.sessions && b.entitlements == db.entitlements
  {
    if m.target in db.users { assert UserOk(db.users, db.spaces, db.credentials, m.target); }
    if EnableAccount(db, m).Ok? { EnableRows(db, m.target, []); }
  }

  /** Revoking a session is for one that is there, and ends its family. */
  lemma RevokeDoes(db: Db, m: Mutation)
    requires Inv(db) && m.target in db.sessions && db.sessions[m.target].user in db.users
    ensures RevokeSessionCommand(db, m).Ok? <==> Named(m)
    ensures RevokeSessionCommand(db, m).Ok? ==>
              var (b, session) := (RevokeSessionCommand(db, m).value, db.sessions[m.target]);
              && RowsAs(db, b, RevokeSession, session.user, [])
              && CutDown(db, b, FamilyOnly(db, session.user, session.family, m.at))
  {
    var session := db.sessions[m.target];
    assert m.target in FamilyOf(db, session.user, session.family);
    if RevokeSessionCommand(db, m).Ok? {
      FamilyRows(db, session.user, session.family, m.at, []);
      FamilyRevocationIsLocal(db, session.user, session.family, m.at);
    }
  }
}
