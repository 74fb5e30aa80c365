/** Runs of the account database: the self-service, device, session and administrative steps, interleaved
    with challenges being issued, confirmed and swept, entitlements being recorded, keys rotating and
    organizations changing hands. */
module AccountRuns {
  import opened Common
  import opened Protector
  import opened AccountState
  import opened AccountSteps
  import opened AdminSteps
  import opened AccessSteps
  import opened AccountShapes

  datatype Event =
    | RegisterEvent(register: RegisterRecord)
    | LoginEvent(login: LoginRecord)
    | ResetEvent(reset: ResetRecord)
    | BindEvent(bind: BindRecord)
    | RemoveEvent(remove: RemoveRecord)
    | ChangeEvent(change: ChangeRecord)
    | RequestEvent(request: DeletionRecord)
    | RecoverEvent(recover: DeletionRecord)
    | FinalizeEvent(finalize: FinalizeRecord)
    | DisableEvent(disable: Mutation)
    | EnableEvent(enable: Mutation)
    | RevokeEvent(revoke: Mutation)
    | ExecuteEvent(call: Call)
    // a challenge is delivered, its code is confirmed, old challenges are swept
    | IssueEvent(id: Uuid, purpose: Purpose, kind: Kind, target: Login)
    | VerifyEvent(id: Uuid, at: Time)
    | SweepEvent(ids: set<Uuid>)
    // keys are added or the active one switched; protector keys may also be dropped
    | LookupRotation(lookup: LookupRing)
    | ProtectorRotation(protector: Ring)
    // devices and sessions
    | AuthorizeEvent(authorize: AuthorizeRecord)
    | RevokeDeviceEvent(revokeDevice: RevokeDeviceRecord)
    | SelfRevokeEvent(selfRevoke: SelfRevokeRecord)
    | CreateEvent(create: CreateRecord)
    | RotateEvent(rotate: RotateRecord)
    | LogoutEvent(session: Uuid, logoutAt: Time)
    | EndFamilyEvent(family: Uuid, endAt: Time)
    | ExpireEvent(now: Time)
    // a new offline entitlement, and organizations changing hands
    | EntitlementEvent(id: Uuid, entitlement: Entitlement)
    | OwnershipEvent(owned: set<(Uuid, Uuid)>)

  ghost predicate RingsOk(db: Db) {
    ValidLookup(db.lookup) && ValidRing(db.protector)
  }

  function Committed(db: Db, outcome: Outcome<Db, Failure>): Db {
    if outcome.Ok? then outcome.value else db
  }

  function SelfService(db: Db, e: Event): Outcome<Db, Failure>
    requires ValidLookup(db.lookup)
  {
    match e
    case RegisterEvent(r) => Register(db, r)
    case LoginEvent(r) => ConsumeLoginReceipt(db, r)
    case ResetEvent(r) => ResetPassword(db, r)
    case BindEvent(r) => BindIdentity(db, r)
    case RemoveEvent(r) => RemoveIdentity(db, r)
    case ChangeEvent(r) => ChangePassword(db, r)
    case RequestEvent(r) => RequestDeletion(db, r)
    case RecoverEvent(r) => RecoverDeletion(db, r)
    case FinalizeEvent(r) => FinalizeDeletion(db, r)
    case _ => Err(InvalidRequest)
  }

  function Operator(db: Db, e: Event): Outcome<Db, Failure> {
    match e
    case DisableEvent(m) => DisableAccount(db, m)
    case EnableEvent(m) => EnableAccount(db, m)
    case RevokeEvent(m) => RevokeSessionCommand(db, m)
    case _ => Err(InvalidCommand)
  }

  function Access(db: Db, e: Event): Db {
    match e
    case AuthorizeEvent(r) => Committed(db, Authorize(db, r))
    case RevokeDeviceEvent(r) => Committed(db, RevokeOwnDevice(db, r))
    case SelfRevokeEvent(r) => Committed(db, SelfRevoke(db, r))
    case CreateEvent(r) => Committed(db, CreateSession(db, r))
    case RotateEvent(r) => Rotate(db, r).0
    case LogoutEvent(s, at) => Committed(db, Logout(db, s, at))
    case EndFamilyEvent(family, at) => EndFamily(db, family, at, ByIssuanceFailure)
    case ExpireEvent(now) => SweepSessions(db, now)
    case _ => db
  }

  /** A challenge is stored under the active lookup key. */
  function Issue(db: Db, id: Uuid, purpose: Purpose, kind: Kind, login: Login): Db
    requires ValidLookup(db.lookup)
  {
    if id in db.issued || id == NIL || login == [] then db
    else
      assert db.lookup.active in db.lookup.order;
      var key := db.lookup.active;
      db.(challenges := db.challenges[id := Challenge(purpose, kind, key, db.lookup.keys[key](kind, login), None, None)],
          issued := db.issued + {id})
  }

  function Verify(db: Db, id: Uuid, at: Time): Db {
    if id in db.challenges && db.challenges[id].consumedAt.None?
    then db.(challenges := db.challenges[id := db.challenges[id].(consumedAt := Some(at))])
    else db
  }

  ghost predicate KeysKept(a: LookupRing, b: LookupRing) {
    forall k :: k in a.keys ==> k in b.keys && b.keys[k] == a.keys[k]
  }

  /** The foreign keys of an entitlement. */
  predicate Recordable(db: Db, row: Entitlement) {
    row.user in db.users && row.user in db.spaces && row.device in db.devices
  }

  /** Lookup keys are never dropped. */
  ghost function RotateLookup(db: Db, ring: LookupRing): Db {
    if ValidLookup(ring) && KeysKept(db.lookup, ring) then db.(lookup := ring) else db
  }

  ghost function RotateProtector(db: Db, ring: Ring): Db {
    if ValidRing(ring) then db.(protector := ring) else db
  }

  function Record(db: Db, id: Uuid, entitlement: Entitlement): Db {
    if id in db.issued || entitlement.revokedAt.Some? || !Recordable(db, entitlement) then db
    else db.(entitlements := db.entitlements[id := entitlement], issued := db.issued + {id})
  }

  /** Around the modelled steps. */
  ghost function Around(db: Db, e: Event): Db
    requires ValidLookup(db.lookup)
  {
    match e
    case IssueEvent(id, purpose, kind, login) => Issue(db, id, purpose, kind, login)
    case VerifyEvent(id, at) => Verify(db, id, at)
    case SweepEvent(ids) => db.(challenges := db.challenges - ids)
    case LookupRotation(ring) => RotateLookup(db, ring)
    case ProtectorRotation(ring) => RotateProtector(db, ring)
    case EntitlementEvent(id, entitlement) => Record(db, id, entitlement)
    case OwnershipEvent(owned) => db.(owned := owned)
    case _ => db
  }

  predicate IsSelfService(e: Event) {
    e.RegisterEvent? || e.LoginEvent? || e.ResetEvent? || e.BindEvent? || e.RemoveEvent? || e.ChangeEvent?
    || e.RequestEvent? || e.RecoverEvent? || e.FinalizeEvent?
  }

  predicate IsAccess(e: Event) {
    e.AuthorizeEvent? || e.RevokeDeviceEvent? || e.SelfRevokeEvent? || e.CreateEvent? || e.RotateEvent?
    || e.LogoutEvent? || e.EndFamilyEvent? || e.ExpireEvent?
  }

  predicate IsOperator(e: Event) { e.DisableEvent? || e.EnableEvent? || e.RevokeEvent? }

  ghost function Apply(db: Db, e: Event): Db
    requires RingsOk(db)
  {
    if IsSelfService(e) then Committed(db, SelfService(db, e))
    else if IsOperator(e) then Committed(db, Operator(db, e))
    else if IsAccess(e) then Access(db, e)
    else if e.ExecuteEvent? then Execute(db, e.call).0
    else Around(db, e)
  }

  /** Neither the rings nor the identifiers given out differ. */
  ghost predicate SameRings(a: Db, b: Db) { a.lookup == b.lookup && a.protector == b.protector && a.issued == b.issued }

  lemma SelfServiceKeepsRings(db: Db, e: Event)
    requires ValidLookup(db.lookup) && IsSelfService(e)
    ensures SameRings(db, Committed(db, SelfService(db, e)))
  {
    if SelfService(db, e).Ok? {
      match e
      case RegisterEvent(r) => RegisterShape(db, r);
      case LoginEvent(r) => LoginShape(db, r);
      case ResetEvent(r) => ResetShape(db, r);
      case BindEvent(r) => BindShape(db, r);
      case RemoveEvent(r) => RemoveShape(db, r);
      case ChangeEvent(r) => ChangeShape(db, r);
      case RequestEvent(r) => RequestShape(db, r);
      case RecoverEvent(r) => RecoverShape(db, r);
      case FinalizeEvent(r) => FinalizeShape(db, r);
    }
  }

  lemma OperatorKeepsRings(db: Db, e: Event)
    ensures SameRings(db, Committed(db, Operator(db, e)))
  {
  }

  /** Only devices, sessions, entitlements and issued identifiers may differ. */
  ghost predicate OnlyAccess(a: Db, b: Db) {
    b == a.(devices := b.devices, sessions := b.sessions, entitlements := b.entitlements, issued := b.issued)
  }

  lemma RotateIsLocal(db: Db, r: RotateRecord)
    ensures OnlyAccess(db, Rotate(db, r).0)
  {
  }

  lemma AuthorizeIsLocal(db: Db, r: AuthorizeRecord)
    requires Authorize(db, r).Ok?
    ensures OnlyAccess(db, Authorize(db, r).value)
  {
    var b := Authorize(db, r).value;
    assert b == db.(devices := b.devices, issued := b.issued);
  }

  lemma RevokeDeviceIsLocal(db: Db, r: RevokeDeviceRecord)
    requires RevokeOwnDevice(db, r).Ok?
    ensures OnlyAccess(db, RevokeOwnDevice(db, r).value)
  {
  }

  lemma SelfRevokeIsLocal(db: Db, r: SelfRevokeRecord)
    requires SelfRevoke(db, r).Ok?
    ensures OnlyAccess(db, SelfRevoke(db, r).value)
  {
  }

  lemma CreateIsLocal(db: Db, r: CreateRecord)
    requires CreateSession(db, r).Ok?
    ensures OnlyAccess(db, CreateSession(db, r).value)
  {
  }

  lemma CommittedIsLocal(db: Db, outcome: Outcome<Db, Failure>)
    requires outcome.Ok? ==> OnlyAccess(db, outcome.value)
    ensures OnlyAccess(db, Committed(db, outcome))
  {
  }

  lemma AccessIsLocal(db: Db, e: Event)
    requires IsAccess(e)
    ensures OnlyAccess(db, Access(db, e))
  {
    match e
    case AuthorizeEvent(r) =>
      if Authorize(db, r).Ok? { AuthorizeIsLocal(db, r); }
      CommittedIsLocal(db, Authorize(db, r));
    case RevokeDeviceEvent(r) =>
      if RevokeOwnDevice(db, r).Ok? { RevokeDeviceIsLocal(db, r); }
      CommittedIsLocal(db, RevokeOwnDevice(db, r));
    case SelfRevokeEvent(r) =>
      if SelfRevoke(db, r).Ok? { SelfRevokeIsLocal(db, r); }
      CommittedIsLocal(db, SelfRevoke(db, r));
    case CreateEvent(r) =>
      if CreateSession(db, r).Ok? { CreateIsLocal(db, r); }
      CommittedIsLocal(db, CreateSession(db, r));
    case RotateEvent(r) => RotateIsLocal(db, r);
    case LogoutEvent(s, at) => CommittedIsLocal(db, Logout(db, s, at));
    case EndFamilyEvent(family, at) => assert OnlyAccess(db, EndFamily(db, family, at, ByIssuanceFailure));
    case ExpireEvent(now) => assert OnlyAccess(db, SweepSessions(db, now));
  }

  lemma ApplyActionKeepsRings(db: Db, x: Call)
    ensures ApplyAction(db, x).Mutated? ==> SameRings(db, ApplyAction(db, x).db)
  {
    if ApplyAction(db, x).Mutated? { ApplyShape(db, x); }
  }

  lemma OutcomesKeepRings(db: Db, x: Call, row: StoredOperation, b: Db, answer: Answer)
    requires ValidRing(db.protector) && Outcomes(db, x, row, b, answer)
    requires ApplyAction(db, x).Mutated? ==> SameRings(db, ApplyAction(db, x).db)
    ensures SameRings(db, b)
  {
  }

  lemma ExecuteKeepsRings(db: Db, x: Call)
    requires ValidRing(db.protector)
    ensures SameRings(db, Execute(db, x).0)
  {
    ExecuteShape(db, x);
    ApplyActionKeepsRings(db, x);
    OutcomesKeepRings(db, x, ExecutingRow(db, x), Execute(db, x).0, Execute(db, x).1);
  }

  lemma IssueIsLocal(db: Db, id: Uuid, purpose: Purpose, kind: Kind, login: Login)
    requires ValidLookup(db.lookup)
    ensures var b := Issue(db, id, purpose, kind, login);
            b == db.(challenges := b.challenges, issued := b.issued)
  {
  }

  lemma VerifyIsLocal(db: Db, id: Uuid, at: Time)
    ensures Verify(db, id, at) == db.(challenges := Verify(db, id, at).challenges)
  {
  }

  lemma RecordIsLocal(db: Db, id: Uuid, row: Entitlement)
    ensures var b := Record(db, id, row);
            b == db.(entitlements := b.entitlements, issued := b.issued)
  {
    var b := Record(db, id, row);
    if b != db { assert b == db.(entitlements := db.entitlements[id := row], issued := db.issued + {id}); }
  }

  lemma RotateLookupKeeps(db: Db, ring: LookupRing)
    requires RingsOk(db)
    ensures var b := RotateLookup(db, ring);
            b == db.(lookup := b.lookup) && RingsOk(b) && KeysKept(db.lookup, b.lookup)
  {
  }

  lemma RotateProtectorKeeps(db: Db, ring: Ring)
    requires RingsOk(db)
    ensures var b := RotateProtector(db, ring);
            b == db.(protector := b.protector) && RingsOk(b)
  {
  }

  /** Users, sessions and devices are none of its business. */
  lemma AroundIsLocal(db: Db, e: Event)
    requires RingsOk(db)
    ensures Around(db, e).users == db.users && Around(db, e).sessions == db.sessions && Around(db, e).devices == db.devices
  {
    match e
    case LookupRotation(ring) => RotateLookupKeeps(db, ring);
    case ProtectorRotation(ring) => RotateProtectorKeeps(db, ring);
    case IssueEvent(id, purpose, kind, login) => IssueIsLocal(db, id, purpose, kind, login);
    case VerifyEvent(id, at) => VerifyIsLocal(db, id, at);
    case EntitlementEvent(id, row) => RecordIsLocal(db, id, row);
    case SweepEvent(ids) =>
    case OwnershipEvent(owned) =>
    case _ => assert Around(db, e) == db;
  }

  lemma AroundKeepsRings(db: Db, e: Event)
    requires RingsOk(db)
    ensures RingsOk(Around(db, e)) && KeysKept(db.lookup, Around(db, e).lookup)
  {
    match e
    case LookupRotation(ring) => RotateLookupKeeps(db, ring);
    case ProtectorRotation(ring) => RotateProtectorKeeps(db, ring);
    case IssueEvent(id, purpose, kind, login) => IssueIsLocal(db, id, purpose, kind, login);
    case VerifyEvent(id, at) => VerifyIsLocal(db, id, at);
    case EntitlementEvent(id, row) => RecordIsLocal(db, id, row);
    case SweepEvent(ids) =>
    case OwnershipEvent(owned) =>
    case _ => assert Around(db, e) == db;
  }

  lemma ApplyKeepsRings(db: Db, e: Event)
    requires RingsOk(db)
    ensures RingsOk(Apply(db, e)) && KeysKept(db.lookup, Apply(db, e).lookup)
  {
    if IsSelfService(e) { SelfServiceKeepsRings(db, e); }
    else if IsOperator(e) { OperatorKeepsRings(db, e); }
    else if IsAccess(e) { AccessIsLocal(db, e); }
    else if e.ExecuteEvent? { ExecuteKeepsRings(db, e.call); }
    else { AroundKeepsRings(db, e); }
  }

  /** The database of a fresh deployment. */
  ghost predicate Start(db: Db) { RingsOk(db) && db == Fresh(db.lookup, db.protector, db.deviceLimit) }

  ghost predicate StepAt(trace: seq<Db>, events: seq<Event>, i: nat) {
    i < |events| && i + 1 < |trace| && RingsOk(trace[i]) && trace[i + 1] == Apply(trace[i], events[i])
  }

  /** The states a run passes through: one before each event, and the last. */
  ghost predicate IsRun(trace: seq<Db>, events: seq<Event>) {
    && |trace| == |events| + 1 && Start(trace[0])
    && forall i {:trigger StepAt(trace, events, i)} :: 0 <= i < |events| ==> StepAt(trace, events, i)
  }

  /** Every sequence of events has its run. */
  lemma {:induction false} RunExists(start: Db, events: seq<Event>) returns (trace: seq<Db>)
    requires Start(start)
    ensures IsRun(trace, events) && trace[0] == start && RingsOk(trace[|events|])
  {
    if events == [] {
      trace := [start];
    } else {
      var n := |events| - 1;
      var shorter := RunExists(start, events[..n]);
      ApplyKeepsRings(shorter[n], events[n]);
      trace := shorter + [Apply(shorter[n], events[n])];
      forall i | 0 <= i < |events| ensures StepAt(trace, events, i) {
        if i < n { assert StepAt(shorter, events[..n], i); }
      }
    }
  }
}
