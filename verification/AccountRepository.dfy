/** The account and control repositories as the program runs them: methods that work on a transaction
    row by row and commit it or leave the database alone.  Each does exactly what its step function says. */
module AccountRepository {
  import opened Common
  import opened Bytes
  import opened Protector
  import opened AccountState
  import opened AccountSteps
  import opened AdminSteps
  import opened AccountRuns
  import opened AccountInvariants
  import opened AccountProofs

  function ErrorOf(outcome: Outcome<Db, Failure>): Option<Failure> {
    if outcome.Ok? then None else Some(outcome.error)
  }

  // ---------- searches ----------

  /** The least key among the candidates, whatever order they come in. */
  method FindStable(candidates: seq<Candidate>) returns (stable: Candidate)
    requires candidates != []
    ensures stable == StableCandidate(candidates)
  {
    stable := candidates[0];
    assert candidates[..1] == [candidates[0]];
    for i := 1 to |candidates|
      invariant stable == StableCandidate(candidates[..i])
    {
      assert candidates[..i + 1][..i] == candidates[..i];
      if Less(candidates[i].keyId, stable.keyId) { stable := candidates[i]; }
    }
    assert candidates[..|candidates|] == candidates;
  }

  /** The number of the advisory lock that serializes bindings of one login. */
  method LockIdentityScope(tx: Db, kind: Kind, login: Login) returns (r: Outcome<nat, Failure>)
    requires ValidLookup(tx.lookup)
    ensures r == IdentityScope(tx, kind, login)
  {
    var candidates := Candidates(tx.lookup, kind, login);
    if |candidates| == 0 { return Err(ReceiptUnavailable); }
    var stable := FindStable(candidates);
    if |stable.hmac| < 8 { return Err(ReceiptUnavailable); }
    return Ok(FromBe(stable.hmac[..8]));
  }

  lemma {:induction false} FirstOwnerSkips(identities: map<Uuid, Identity>, kind: Kind, candidates: seq<Candidate>, n: nat)
    requires n <= |candidates|
    requires forall k :: 0 <= k < n ==> StoredUnder(identities, kind, candidates[k]) == {}
    ensures FirstOwner(identities, kind, candidates) == FirstOwner(identities, kind, candidates[n..])
  {
    if n > 0 {
      FirstOwnerSkips(identities, kind, candidates[1..], n - 1);
      assert candidates[1..][n - 1..] == candidates[n..];
    } else {
      assert candidates[0..] == candidates;
    }
  }

  method FindUserByClaims(tx: Db, claims: Claims) returns (user: Option<Uuid>)
    requires ValidLookup(tx.lookup)
    ensures user == FindUser(tx, claims)
  {
    var candidates := Candidates(tx.lookup, claims.kind, claims.login);
    for i := 0 to |candidates|
      invariant forall k :: 0 <= k < i ==> StoredUnder(tx.identities, claims.kind, candidates[k]) == {}
    {
      var found := StoredUnder(tx.identities, claims.kind, candidates[i]);
      if found != {} {
        FirstOwnerSkips(tx.identities, claims.kind, candidates, i);
        return Some(tx.identities[Least(found)].user);
      }
    }
    FirstOwnerSkips(tx.identities, claims.kind, candidates, |candidates|);
    return None;
  }

  method FindIdentity(tx: Db, kind: Kind, login: Login) returns (present: bool)
    requires ValidLookup(tx.lookup)
    ensures present == IdentityExists(tx, kind, login)
  {
    var candidates := Candidates(tx.lookup, kind, login);
    for i := 0 to |candidates|
      invariant forall k :: 0 <= k < i ==> StoredUnder(tx.identities, kind, candidates[k]) == {}
    {
      if StoredUnder(tx.identities, kind, candidates[i]) != {} { return true; }
    }
    return false;
  }

  /** Counting the user's rows one by one. */
  method CountIdentities(tx: Db, user: Uuid, kind: Kind) returns (count: nat, found: bool)
    ensures count == |IdentitiesOf(tx.identities, user)|
    ensures found <==> exists i :: i in IdentitiesOf(tx.identities, user) && tx.identities[i].kind == kind
  {
    var rows := IdentitiesOf(tx.identities, user);
    ghost var seen: set<Uuid> := {};
    count, found := 0, false;
    while rows != {}
      invariant rows !! seen && rows + seen == IdentitiesOf(tx.identities, user) && count == |seen|
      invariant found <==> exists i :: i in seen && tx.identities[i].kind == kind
      decreases rows
    {
      var i :| i in rows;
      count := count + 1;
      found := found || tx.identities[i].kind == kind;
      rows := rows - {i};
      seen := seen + {i};
    }
  }

  lemma {:induction false} FindSkips(db: Db, operation: Uuid, order: seq<KeyId>, n: nat)
    requires n <= |order| && forall k :: k in order ==> k in db.protector.keys
    requires forall k :: 0 <= k < n ==> SealedUnder(db.operations, order[k], IdempotencyDigest(db.protector, order[k], operation)) == {}
    ensures FindByDigests(db, operation, order) == FindByDigests(db, operation, order[n..])
  {
    if n > 0 {
      FindSkips(db, operation, order[1..], n - 1);
      assert order[1..][n - 1..] == order[n..];
    } else {
      assert order[0..] == order;
    }
  }

  method LookUpOperation(tx: Db, operation: Uuid) returns (r: Option<Uuid>)
    requires ValidRing(tx.protector)
    ensures r == FindOperation(tx, operation)
  {
    if operation in tx.operations { return Some(operation); }
    var order := tx.protector.order;
    for i := 0 to |order|
      invariant forall k :: 0 <= k < i ==> SealedUnder(tx.operations, order[k], IdempotencyDigest(tx.protector, order[k], operation)) == {}
    {
      var found := SealedUnder(tx.operations, order[i], IdempotencyDigest(tx.protector, order[i], operation));
      if found != {} {
        FindSkips(tx, operation, order, i);
        return Some(Least(found));
      }
    }
    FindSkips(tx, operation, order, |order|);
    return None;
  }

  lemma ResetStepKept(db: Db, r: ResetRecord)
    requires Inv(db)
    ensures Kept(db, Committed(db, ResetPassword(db, r)))
  {
    SelfServiceKept(db, ResetEvent(r));
  }

  lemma ChangeStepKept(db: Db, r: ChangeRecord)
    requires Inv(db)
    ensures Kept(db, Committed(db, ChangePassword(db, r)))
  {
    SelfServiceKept(db, ChangeEvent(r));
  }

  // ---------- transactions ----------

  method ResetIn(start: Db, r: ResetRecord) returns (done: Outcome<Db, Failure>)
    requires ValidLookup(start.lookup)
    ensures done == ResetPassword(start, r)
  {
    if !r.claims.purpose.PasswordReset? { return Err(InvalidRequest); }
    var tx := start;
    var owner := FindUserByClaims(tx, r.claims);
    if owner.None? { return Err(AccountNotFound); }
    var user := owner.value;
    if user !in tx.users { return Err(AccountNotFound); }
    if tx.users[user].status.Disabled? { return Err(AccountNotFound); }
    if !ReceiptAvailable(tx, r.claims) { return Err(ReceiptUnavailable); }
    var stillOwner := FindUserByClaims(tx, r.claims);
    if stillOwner != Some(user) { return Err(AccountNotFound); }
    if user !in tx.credentials { return Err(ServiceUnavailable); }
    tx := tx.(credentials := tx.credentials[user := r.password]);
    tx := tx.(users := tx.users[user := tx.users[user].(passwordVersion := tx.users[user].passwordVersion + 1)]);
    tx := tx.(sessions := OverwriteReason(tx.sessions, LiveSessionsOf(tx.sessions, user), r.at, ByPasswordReset));
    done := MarkReceipt(tx, r.claims.challenge, r.at);
  }

  method ChangeIn(start: Db, r: ChangeRecord) returns (done: Outcome<Db, Failure>)
    ensures done == ChangePassword(start, r)
  {
    if r.user == NIL || r.session == NIL || r.password == [] || r.at == ZERO_TIME { return Err(InvalidRequest); }
    var tx := start;
    if r.user !in tx.users || !tx.users[r.user].status.Active? { return Err(AccountNotFound); }
    if r.session !in tx.sessions || tx.sessions[r.session].user != r.user { return Err(AccountNotFound); }
    if tx.sessions[r.session].revokedAt.Some? || tx.sessions[r.session].expiresAt <= r.at { return Err(AccountNotFound); }
    var device := tx.sessions[r.session].device;
    if r.user !in tx.credentials { return Err(ServiceUnavailable); }
    tx := tx.(credentials := tx.credentials[r.user := r.password]);
    tx := tx.(users := tx.users[r.user := tx.users[r.user].(passwordVersion := tx.users[r.user].passwordVersion + 1)]);
    tx := tx.(devices := RevokeDevices(tx.devices, DevicesOf(tx.devices, r.user) - {device}, r.at));
    tx := tx.(sessions := RevokeSessions(tx.sessions, SessionsOf(tx.sessions, r.user) - {r.session}, r.at, ByPasswordChange));
    tx := tx.(entitlements := RevokeEntitlements(tx.entitlements, EntitlementsElsewhere(tx.entitlements, r.user, device), r.at));
    return Ok(tx);
  }

  class Repository {
    var db: Db

    ghost predicate Valid() reads this { Inv(db) }

    constructor (lookup: LookupRing, protector: Ring, deviceLimit: nat)
      requires ValidLookup(lookup) && ValidRing(protector)
      ensures Valid() && db == Fresh(lookup, protector, deviceLimit)
    {
      db := Fresh(lookup, protector, deviceLimit);
      FreshInv(lookup, protector, deviceLimit);
    }

    method RegisterUser(r: RegisterRecord) returns (error: Option<Failure>)
      requires Valid()
      modifies this
      ensures Valid() && Extends(old(db), db, {}, {})
      ensures db == Committed(old(db), Register(old(db), r)) && error == ErrorOf(Register(old(db), r))
    {
      SelfServiceKept(db, RegisterEvent(r));
      if !r.claims.purpose.Registration? || r.user == NIL || r.identity == NIL { return Some(InvalidRequest); }
      if !SealedMatches(db, r.keyId, r.hmac, r.claims) { return Some(InvalidRequest); }
      if r.direct {
        if r.claims.challenge != NIL || !r.claims.kind.Email? { return Some(InvalidRequest); }
      } else if r.claims.challenge == NIL {
        return Some(InvalidRequest);
      }
      var tx := db;
      if !r.direct && !ReceiptAvailable(tx, r.claims) { return Some(ReceiptUnavailable); }
      var scope := LockIdentityScope(tx, r.claims.kind, r.claims.login);
      if scope.Err? { return Some(scope.error); }
      var bound := FindIdentity(tx, r.claims.kind, r.claims.login);
      if bound { return Some(IdentityConflict); }
      if r.user in tx.users { return Some(ServiceUnavailable); }
      tx := tx.(users := tx.users[r.user := NEW_USER]);
      var inserted := InsertIdentity(tx, r.identity, Identity(r.user, r.claims.kind, r.keyId, r.hmac, r.claims.login));
      if inserted.Err? { return Some(inserted.error); }
      tx := inserted.value;
      if r.user in tx.credentials || r.user in tx.spaces { return Some(ServiceUnavailable); }
      tx := tx.(credentials := tx.credentials[r.user := r.password]);
      tx := tx.(spaces := tx.spaces[r.user := true]);
      if !r.direct {
        var marked := MarkReceipt(tx, r.claims.challenge, r.at);
        if marked.Err? { return Some(marked.error); }
        tx := marked.value;
      }
      db := tx;
      return None;
    }

    method ConsumeReceipt(r: LoginRecord) returns (error: Option<Failure>)
      requires Valid()
      modifies this
      ensures Valid() && Extends(old(db), db, {}, {})
      ensures db == Committed(old(db), ConsumeLoginReceipt(old(db), r)) && error == ErrorOf(ConsumeLoginReceipt(old(db), r))
    {
      SelfServiceKept(db, LoginEvent(r));
      if !r.claims.purpose.SignIn? || r.claims.challenge == NIL || r.user == NIL || r.at == ZERO_TIME { return Some(InvalidRequest); }
      var tx := db;
      var owner := FindUserByClaims(tx, r.claims);
      if owner != Some(r.user) { return Some(InvalidCredentials); }
      if r.user !in tx.users { return Some(AccountNotFound); }
      match tx.users[r.user].status {
        case Active =>
        case PendingDeletion => return Some(AccountPendingDeletion);
        case Disabled => return Some(AccountDisabled);
      }
      if !ReceiptAvailable(tx, r.claims) { return Some(ReceiptUnavailable); }
      var stillBound := FindUserByClaims(tx, r.claims);
      if stillBound != Some(r.user) { return Some(InvalidCredentials); }
      var marked := MarkReceipt(tx, r.claims.challenge, r.at);
      if marked.Err? { return Some(marked.error); }
      db := marked.value;
      return None;
    }

    method Reset(r: ResetRecord) returns (error: Option<Failure>)
      requires Valid()
      modifies this
      ensures Valid() && Extends(old(db), db, {}, {})
      ensures db == Committed(old(db), ResetPassword(old(db), r)) && error == ErrorOf(ResetPassword(old(db), r))
    {
      var done := ResetIn(db, r);
      ResetStepKept(db, r);
      if done.Err? { return Some(done.error); }
      db := done.value;
      return None;
    }

    method Bind(r: BindRecord) returns (error: Option<Failure>)
      requires Valid()
      modifies this
      ensures Valid() && Extends(old(db), db, {}, {})
      ensures db == Committed(old(db), BindIdentity(old(db), r)) && error == ErrorOf(BindIdentity(old(db), r))
    {
      SelfServiceKept(db, BindEvent(r));
      if !r.claims.purpose.BindLogin? || r.user == NIL || r.identity == NIL { return Some(InvalidRequest); }
      if !SealedMatches(db, r.keyId, r.hmac, r.claims) { return Some(InvalidRequest); }
      var tx := db;
      if r.user !in tx.users || !tx.users[r.user].status.Active? { return Some(AccountNotFound); }
      if !ReceiptAvailable(tx, r.claims) { return Some(ReceiptUnavailable); }
      var scope := LockIdentityScope(tx, r.claims.kind, r.claims.login);
      if scope.Err? { return Some(scope.error); }
      var bound := FindIdentity(tx, r.claims.kind, r.claims.login);
      if bound { return Some(IdentityConflict); }
      if HasKind(tx.identities, r.user, r.claims.kind) { return Some(IdentityConflict); }
      var inserted := InsertIdentity(tx, r.identity, Identity(r.user, r.claims.kind, r.keyId, r.hmac, r.claims.login));
      if inserted.Err? { return Some(inserted.error); }
      var marked := MarkReceipt(inserted.value, r.claims.challenge, r.at);
      if marked.Err? { return Some(marked.error); }
      db := marked.value;
      return None;
    }

    method Remove(r: RemoveRecord) returns (error: Option<Failure>)
      requires Valid()
      modifies this
      ensures Valid() && Extends(old(db), db, {}, {})
      ensures db == Committed(old(db), RemoveIdentity(old(db), r)) && error == ErrorOf(RemoveIdentity(old(db), r))
    {
      SelfServiceKept(db, RemoveEvent(r));
      if r.user == NIL || r.at == ZERO_TIME { return Some(InvalidRequest); }
      var tx := db;
      if r.user !in tx.users || !tx.users[r.user].status.Active? { return Some(AccountNotFound); }
      var count, found := CountIdentities(tx, r.user, r.kind);
      var removed := OfKind(tx.identities, r.user, r.kind);
      if !found {
        assert removed == {};
        return Some(AccountNotFound);
      }
      ghost var one :| one in IdentitiesOf(tx.identities, r.user) && tx.identities[one].kind == r.kind;
      assert one in removed;
      if count <= 1 { return Some(LastIdentity); }
      if |removed| != 1 { return Some(AccountNotFound); }
      db := tx.(identities := tx.identities - removed);
      return None;
    }

    method ChangeUserPassword(r: ChangeRecord) returns (error: Option<Failure>)
      requires Valid()
      modifies this
      ensures Valid() && Extends(old(db), db, {}, {})
      ensures db == Committed(old(db), ChangePassword(old(db), r)) && error == ErrorOf(ChangePassword(old(db), r))
    {
      var done := ChangeIn(db, r);
      ChangeStepKept(db, r);
      if done.Err? { return Some(done.error); }
      db := done.value;
      return None;
    }

    method RequestAccountDeletion(r: DeletionRecord) returns (error: Option<Failure>)
      requires Valid()
      modifies this
      ensures Valid() && Extends(old(db), db, {}, {})
      ensures db == Committed(old(db), RequestDeletion(old(db), r)) && error == ErrorOf(RequestDeletion(old(db), r))
    {
      SelfServiceKept(db, RequestEvent(r));
      if r.user == NIL || !r.claims.purpose.AccountDeletion? || r.at == ZERO_TIME { return Some(InvalidRequest); }
      var tx := db;
      if r.user !in tx.users || !tx.users[r.user].status.Active? { return Some(AccountNotFound); }
      if !ReceiptAvailable(tx, r.claims) { return Some(ReceiptUnavailable); }
      var owner := FindUserByClaims(tx, r.claims);
      if owner != Some(r.user) { return Some(AccountNotFound); }
      var owned := |OwnedOrganizations(tx, r.user)|;
      if owned > 0 { return Some(OwnerTransferRequired(owned)); }
      var row := tx.users[r.user].(status := PendingDeletion, requestedAt := Some(r.at), finalizedAt := None);
      tx := tx.(users := tx.users[r.user := row]);
      tx := tx.(spaces := SetSpace(tx.spaces, r.user, false));
      tx := tx.(devices := RevokeDevices(tx.devices, DevicesOf(tx.devices, r.user), r.at));
      tx := tx.(sessions := RevokeSessions(tx.sessions, SessionsOf(tx.sessions, r.user), r.at, ByAccountDeletion));
      tx := tx.(entitlements := RevokeEntitlements(tx.entitlements, EntitlementsOf(tx.entitlements, r.user), r.at));
      var marked := MarkReceipt(tx, r.claims.challenge, r.at);
      if marked.Err? { return Some(marked.error); }
      db := marked.value;
      return None;
    }

    method RecoverAccount(r: DeletionRecord) returns (error: Option<Failure>)
      requires Valid()
      modifies this
      ensures Valid() && Extends(old(db), db, {}, {})
      ensures db == Committed(old(db), RecoverDeletion(old(db), r)) && error == ErrorOf(RecoverDeletion(old(db), r))
    {
      SelfServiceKept(db, RecoverEvent(r));
      if r.user == NIL || !r.claims.purpose.DeletionRecovery? || r.at == ZERO_TIME { return Some(InvalidRequest); }
      var tx := db;
      if r.user !in tx.users { return Some(AccountNotFound); }
      var row := tx.users[r.user];
      if !row.status.PendingDeletion? || row.requestedAt.None? { return Some(AccountNotFound); }
      if r.at >= row.requestedAt.value + RECOVERY_WINDOW { return Some(DeletionWindowExpired); }
      if !ReceiptAvailable(tx, r.claims) { return Some(ReceiptUnavailable); }
      var owner := FindUserByClaims(tx, r.claims);
      if owner != Some(r.user) { return Some(AccountNotFound); }
      row := row.(status := Active, requestedAt := None, finalizedAt := None);
      tx := tx.(users := tx.users[r.user := row]);
      tx := tx.(spaces := SetSpace(tx.spaces, r.user, true));
      var marked := MarkReceipt(tx, r.claims.challenge, r.at);
      if marked.Err? { return Some(marked.error); }
      db := marked.value;
      return None;
    }

    method FinalizeAccount(r: FinalizeRecord) returns (error: Option<Failure>)
      requires Valid()
      modifies this
      ensures Valid() && Extends(old(db), db, {}, {})
      ensures db == Committed(old(db), FinalizeDeletion(old(db), r)) && error == ErrorOf(FinalizeDeletion(old(db), r))
    {
      SelfServiceKept(db, FinalizeEvent(r));
      if r.user == NIL || r.at == ZERO_TIME { return Some(InvalidRequest); }
      var tx := db;
      if r.user !in tx.users { return Some(AccountNotFound); }
      var row := tx.users[r.user];
      if !row.status.PendingDeletion? || row.requestedAt.None? || r.at < row.requestedAt.value + RECOVERY_WINDOW {
        return Some(DeletionWindowExpired);
      }
      var owned := |OwnedOrganizations(tx, r.user)|;
      if owned > 0 { return Some(OwnerTransferRequired(owned)); }
      tx := tx.(challenges := tx.challenges - ChallengesFor(tx, r.user));
      tx := tx.(identities := tx.identities - IdentitiesOf(tx.identities, r.user));
      tx := tx.(credentials := tx.credentials - {r.user});
      var devices := DevicesOf(tx.devices, r.user);
      var sessions, entitlements := SessionsOn(tx, devices), EntitlementsOn(tx, r.user, devices);
      assert sessions == SessionsOn(db, devices) && entitlements == EntitlementsOn(db, r.user, devices);
      tx := tx.(devices := tx.devices - devices, sessions := tx.sessions - sessions, entitlements := tx.entitlements - entitlements);
      tx := tx.(spaces := tx.spaces - {r.user});
      tx := tx.(users := tx.users[r.user := row.(status := Disabled, adminDisabled := false, finalizedAt := Some(r.at))]);
      db := tx;
      return None;
    }

    method Disable(m: Mutation) returns (error: Option<Failure>)
      requires Valid()
      modifies this
      ensures Valid() && Extends(old(db), db, {}, {})
      ensures db == Committed(old(db), DisableAccount(old(db), m)) && error == ErrorOf(DisableAccount(old(db), m))
    {
      OperatorKept(db, DisableEvent(m));
      if !ValidMutation(m) { return Some(InvalidCommand); }
      var tx := db;
      if m.target !in tx.users || !tx.users[m.target].status.Active? { return Some(NotFound); }
      var row := tx.users[m.target];
      tx := tx.(users := tx.users[m.target := row.(status := Disabled, adminDisabled := true, revision := row.revision + 1)]);
      if m.target !in tx.spaces { return Some(Unavailable); }
      tx := tx.(spaces := tx.spaces[m.target := false]);
      tx := tx.(devices := RevokeDevices(tx.devices, DevicesOf(tx.devices, m.target), m.at));
      tx := tx.(sessions := RevokeSessions(tx.sessions, SessionsOf(tx.sessions, m.target), m.at, ByAdminDisable));
      tx := tx.(entitlements := RevokeEntitlements(tx.entitlements, EntitlementsOf(tx.entitlements, m.target), m.at));
      db := tx;
      return None;
    }

    method RunOperation(x: Call) returns (answer: Answer)
      requires Valid()
      modifies this
      ensures Valid() && Extends(old(db), db, {}, {})
      ensures (db, answer) == Execute(old(db), x)
    {
      ExecuteKept(db, x);
      if !ValidCommand(x.action, x.target, x.command) || !x.subjectOk { return Refused(InvalidCommand); }
      var tx := db;
      var found := LookUpOperation(tx, x.command.operation);
      if found.Some? && found.value in tx.operations { return Replay(tx, tx.operations[found.value], x); }
      var row := ExecutingRow(tx, x);
      if |row.fingerprint| != 32 { return Refused(Unavailable); }
      if |row.hmac| != 32 { return Refused(InvalidCommand); }
      if x.createdAt == ZERO_TIME { return Refused(Unavailable); }
      tx := tx.(operations := tx.operations[x.command.operation := row]);
      var applied := ApplyAction(tx, x);
      if applied.Broken? { return Refused(Unavailable); }
      var denial := if applied.Denied? then Some(applied.denial) else None;
      var result := if applied.Denied? then 0 else applied.after;
      if applied.Mutated? { tx := applied.db; }
      var finished := Finish(tx, x, result, denial);
      if finished.1.Replied? { db := finished.0; }
      return finished.1;
    }
  }
}
