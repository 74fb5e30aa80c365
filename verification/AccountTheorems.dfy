/** Main results about accounts, over every run that starts from an empty database. */
module AccountTheorems {
  import opened Common
  import opened Bytes
  import opened Protector
  import opened AccountState
  import opened AccountSteps
  import opened AdminSteps
  import opened AccountShapes
  import opened AccountRuns
  import opened AccountInvariants
  import opened AccountProofs

  // ---------- account states ----------

  /** In every reachable state: an active account has an active space, no administrative mark and no
      deletion mark; a pending one a request time and a disabled space; a disabled one is either
      administratively disabled or finalised after its recovery window. */
  lemma AccountStatesHold(trace: seq<Db>, events: seq<Event>, u: Uuid)
    requires IsRun(trace, events) && u in trace[|events|].users
    ensures var db := trace[|events|];
            StatusOk(db.users[u], SpaceOf(db.spaces, u), u in db.credentials)
  {
    var db := trace[|events|];
    RunInv(trace, events, |events|);
    assert UserOk(db.users, db.spaces, db.credentials, u);
  }

  /** A finalised account stays exactly that, and is never active again. */
  lemma FinalizedForever(trace: seq<Db>, events: seq<Event>, i: nat, j: nat, u: Uuid)
    requires IsRun(trace, events) && i <= j <= |events|
    requires u in trace[i].users && trace[i].users[u].finalizedAt.Some?
    ensures var a, b := trace[i], trace[j];
            && u in b.users && b.users[u].status.Disabled? && !b.users[u].adminDisabled
            && b.users[u].finalizedAt == a.users[u].finalizedAt && b.users[u].requestedAt == a.users[u].requestedAt
  {
    RunExtends(trace, events, i, j);
    RunInv(trace, events, i);
    var a := trace[i];
    assert UserOk(a.users, a.spaces, a.credentials, u);
  }

  // ---------- how a user's row can move ----------

  /** Neither status nor deletion marks changed. */
  ghost predicate Steady(a: User, b: User) {
    b == a.(revision := b.revision, passwordVersion := b.passwordVersion)
  }

  ghost predicate RequestsDeletion(db: Db, e: Event, u: Uuid, t: Time) {
    e.RequestEvent? && e.request.user == u && e.request.at == t && ValidLookup(db.lookup) && RequestDeletion(db, e.request).Ok?
  }

  ghost predicate Recovers(db: Db, e: Event, u: Uuid) {
    e.RecoverEvent? && e.recover.user == u && ValidLookup(db.lookup) && RecoverDeletion(db, e.recover).Ok?
  }

  ghost predicate Finalizes(db: Db, e: Event, u: Uuid) {
    e.FinalizeEvent? && e.finalize.user == u && FinalizeDeletion(db, e.finalize).Ok?
  }

  ghost predicate Pends(db: Db, u: Uuid, t: Time) {
    u in db.users && db.users[u].status.PendingDeletion? && db.users[u].requestedAt == Some(t)
  }

  /** The rows of users nobody asked to delete, recover or finalise: steady, or moved between active
      and administratively disabled. */
  ghost predicate NoDeletionMove(a: map<Uuid, User>, b: map<Uuid, User>) {
    && a.Keys <= b.Keys
    && (forall u :: u in b && u !in a ==> b[u].status.Active?)
    && (forall u :: u in a ==> Steady(a[u], b[u]) || (!a[u].status.PendingDeletion? && !b[u].status.PendingDeletion?))
  }

  lemma SelfServiceMoves(db: Db, e: Event)
    requires Inv(db) && IsSelfService(e) && !e.RequestEvent? && !e.RecoverEvent? && !e.FinalizeEvent?
    ensures NoDeletionMove(db.users, Committed(db, SelfService(db, e)).users)
  {
    var b := Committed(db, SelfService(db, e));
    if SelfService(db, e).Ok? {
      match e
      case RegisterEvent(r) => RegisterShape(db, r); RegisterMoves(db, b, r);
      case LoginEvent(r) => LoginShape(db, r);
      case ResetEvent(r) => ResetShape(db, r); PasswordMoves(db, b, FindUser(db, r.claims).value, r.password);
      case BindEvent(r) => BindShape(db, r);
      case RemoveEvent(r) => RemoveShape(db, r);
      case ChangeEvent(r) => ChangeShape(db, r); PasswordMoves(db, b, r.user, r.password);
    }
  }

  lemma RegisterMoves(a: Db, b: Db, r: RegisterRecord)
    requires ValidLookup(a.lookup) && Registered(a, b, r)
    ensures NoDeletionMove(a.users, b.users)
  {
  }

  lemma PasswordMoves(a: Db, b: Db, user: Uuid, password: seq<Byte>)
    requires PasswordSet(a, b, user, password)
    ensures NoDeletionMove(a.users, b.users)
  {
  }

  lemma AdminMoves(a: Db, b: Db, u: Uuid)
    requires AdminChanges(a, b, u)
    ensures NoDeletionMove(a.users, b.users)
  {
  }

  lemma OperatorMoves(db: Db, e: Event)
    requires Inv(db)
    ensures NoDeletionMove(db.users, Committed(db, Operator(db, e)).users)
  {
    if Operator(db, e).Ok? {
      var b := Operator(db, e).value;
      match e
      case DisableEvent(m) => DisableChanges(db, m.target, m.at); AdminMoves(db, b, m.target);
      case EnableEvent(m) => EnableChanges(db, m.target); AdminMoves(db, b, m.target);
      case RevokeEvent(m) =>
        var session := db.sessions[m.target];
        FamilyChanges(db, session.user, session.family, m.at);
        AdminMoves(db, b, session.user);
    }
  }

  lemma ExecuteMoves(db: Db, x: Call)
    requires Inv(db)
    ensures NoDeletionMove(db.users, Execute(db, x).0.users)
  {
    ExecuteShape(db, x);
    if ApplyAction(db, x).Mutated? {
      ApplyShape(db, x);
      AdminMoves(db, ApplyAction(db, x).db, ApplyAction(db, x).user);
    }
    OutcomesMove(db, x, ExecutingRow(db, x), Execute(db, x).0, Execute(db, x).1);
  }

  lemma OutcomesMove(db: Db, x: Call, row: StoredOperation, b: Db, answer: Answer)
    requires ValidRing(db.protector) && Outcomes(db, x, row, b, answer)
    requires ApplyAction(db, x).Mutated? ==> NoDeletionMove(db.users, ApplyAction(db, x).db.users)
    ensures NoDeletionMove(db.users, b.users)
  {
  }

  lemma AroundMoves(db: Db, e: Event)
    requires Inv(db)
    ensures NoDeletionMove(db.users, Around(db, e).users)
  {
    AroundIsLocal(db, e);
  }

  lemma AccessMoves(db: Db, e: Event)
    requires IsAccess(e)
    ensures NoDeletionMove(db.users, Access(db, e).users)
  {
    AccessIsLocal(db, e);
  }

  lemma OtherMoves(db: Db, e: Event)
    requires Inv(db) && !e.RequestEvent? && !e.RecoverEvent? && !e.FinalizeEvent?
    ensures NoDeletionMove(db.users, Apply(db, e).users)
  {
    if IsSelfService(e) { SelfServiceMoves(db, e); }
    else if IsOperator(e) { OperatorMoves(db, e); }
    else if IsAccess(e) { AccessMoves(db, e); }
    else if e.ExecuteEvent? { ExecuteMoves(db, e.call); }
    else { AroundMoves(db, e); }
  }

  /** A pending deletion goes on, or is recovered inside the window, or finalised after it. */
  ghost predicate PendingFate(db: Db, e: Event, u: Uuid, t: Time, b: Db) {
    || (Pends(b, u, t) && !Recovers(db, e, u) && !Finalizes(db, e, u))
    || (Recovers(db, e, u) && e.recover.at < t + RECOVERY_WINDOW && u in b.users && b.users[u].status.Active?)
    || (Finalizes(db, e, u) && e.finalize.at >= t + RECOVERY_WINDOW
        && u in b.users && b.users[u].finalizedAt == Some(e.finalize.at) && !b.users[u].status.PendingDeletion?)
  }

  lemma RequestFate(db: Db, r: DeletionRecord, u: Uuid, t: Time)
    requires ValidLookup(db.lookup) && Pends(db, u, t)
    ensures PendingFate(db, RequestEvent(r), u, t, Committed(db, RequestDeletion(db, r)))
  {
    if RequestDeletion(db, r).Ok? { RequestShape(db, r); }
  }

  lemma RecoverFate(db: Db, r: DeletionRecord, u: Uuid, t: Time)
    requires ValidLookup(db.lookup) && Pends(db, u, t)
    ensures PendingFate(db, RecoverEvent(r), u, t, Committed(db, RecoverDeletion(db, r)))
  {
    if RecoverDeletion(db, r).Ok? { RecoverShape(db, r); }
  }

  lemma FinalizeFate(db: Db, r: FinalizeRecord, u: Uuid, t: Time)
    requires Pends(db, u, t)
    ensures PendingFate(db, FinalizeEvent(r), u, t, Committed(db, FinalizeDeletion(db, r)))
  {
    if FinalizeDeletion(db, r).Ok? { FinalizeShape(db, r); }
  }

  lemma PendingStep(db: Db, e: Event, u: Uuid, t: Time)
    requires Inv(db) && Pends(db, u, t)
    ensures PendingFate(db, e, u, t, Apply(db, e))
  {
    match e
    case RequestEvent(r) => RequestFate(db, r, u, t);
    case RecoverEvent(r) => RecoverFate(db, r, u, t);
    case FinalizeEvent(r) => FinalizeFate(db, r, u, t);
    case _ =>
      OtherMoves(db, e);
      OtherFate(db, e, u, t, Apply(db, e));
  }

  lemma OtherFate(db: Db, e: Event, u: Uuid, t: Time, b: Db)
    requires Pends(db, u, t) && NoDeletionMove(db.users, b.users) && !e.RecoverEvent? && !e.FinalizeEvent?
    ensures PendingFate(db, e, u, t, b)
  {
  }

  /** Only a request makes a deletion pending. */
  lemma PendingBegins(db: Db, e: Event, u: Uuid, t: Time)
    requires Inv(db) && Pends(Apply(db, e), u, t)
    ensures Pends(db, u, t) || RequestsDeletion(db, e, u, t)
  {
    if e.RequestEvent? {
      if RequestDeletion(db, e.request).Ok? { RequestShape(db, e.request); }
    } else if e.RecoverEvent? {
      if RecoverDeletion(db, e.recover).Ok? { RecoverShape(db, e.recover); }
    } else if e.FinalizeEvent? {
      if FinalizeDeletion(db, e.finalize).Ok? { FinalizeShape(db, e.finalize); }
    } else {
      OtherMoves(db, e);
    }
  }

  /** Event `i` requested the deletion that is still pending at every later state up to `j`. */
  ghost predicate PendingSince(trace: seq<Db>, events: seq<Event>, i: nat, j: nat, u: Uuid, t: Time)
    requires IsRun(trace, events) && j <= |events|
  {
    && i < j && RequestsDeletion(trace[i], events[i], u, t)
    && forall k :: i < k <= j ==> Pends(trace[k], u, t)
  }

  lemma PendingGoesOn(trace: seq<Db>, events: seq<Event>, j: nat, u: Uuid, t: Time)
    requires IsRun(trace, events) && j < |events| && Pends(trace[j + 1], u, t)
    ensures Pends(trace[j], u, t) || RequestsDeletion(trace[j], events[j], u, t)
  {
    RunInv(trace, events, j);
    RunApply(trace, events, j);
    PendingBegins(trace[j], events[j], u, t);
  }

  lemma {:induction false} PendingHasRequest(trace: seq<Db>, events: seq<Event>, j: nat, u: Uuid, t: Time) returns (i: nat)
    requires IsRun(trace, events) && j <= |events| && Pends(trace[j], u, t)
    ensures PendingSince(trace, events, i, j, u, t)
    decreases j
  {
    PendingGoesOn(trace, events, j - 1, u, t);
    if Pends(trace[j - 1], u, t) {
      i := PendingHasRequest(trace, events, j - 1, u, t);
    } else {
      i := j - 1;
    }
  }

  /** Event `j` decided the deletion requested by event `i`. */
  ghost predicate Decides(trace: seq<Db>, events: seq<Event>, i: nat, j: nat, u: Uuid, t: Time)
    requires IsRun(trace, events) && j < |events|
  {
    && PendingSince(trace, events, i, j, u, t)
    && (Recovers(trace[j], events[j], u) || Finalizes(trace[j], events[j], u))
  }

  /** Every recovery answers a request less than seven days old, and every finalisation one at least
      seven days old; the account was pending all the while. */
  lemma DecisionAnswersRequest(trace: seq<Db>, events: seq<Event>, j: nat, u: Uuid) returns (i: nat, t: Time)
    requires IsRun(trace, events) && j < |events|
    requires Recovers(trace[j], events[j], u) || Finalizes(trace[j], events[j], u)
    ensures Decides(trace, events, i, j, u, t)
    ensures Recovers(trace[j], events[j], u) ==> events[j].recover.at < t + RECOVERY_WINDOW
    ensures Finalizes(trace[j], events[j], u) ==> events[j].finalize.at >= t + RECOVERY_WINDOW
  {
    var db := trace[j];
    if events[j].RecoverEvent? { RecoverShape(db, events[j].recover); } else { FinalizeShape(db, events[j].finalize); }
    t := db.users[u].requestedAt.value;
    i := PendingHasRequest(trace, events, j, u, t);
  }

  /** A deletion request is decided at most once, one way or the other. */
  lemma RequestDecidedOnce(trace: seq<Db>, events: seq<Event>, i: nat, j: nat, k: nat, u: Uuid, t: Time)
    requires IsRun(trace, events) && j < |events| && k < |events|
    requires Decides(trace, events, i, j, u, t) && Decides(trace, events, i, k, u, t)
    ensures j == k
  {
    DecidedEnds(trace, events, i, j, u, t);
    DecidedEnds(trace, events, i, k, u, t);
  }

  lemma DecisionStep(db: Db, e: Event, u: Uuid, t: Time)
    requires Inv(db) && Pends(db, u, t) && (Recovers(db, e, u) || Finalizes(db, e, u))
    ensures !Pends(Apply(db, e), u, t)
  {
    PendingStep(db, e, u, t);
  }

  lemma DecidedEnds(trace: seq<Db>, events: seq<Event>, i: nat, j: nat, u: Uuid, t: Time)
    requires IsRun(trace, events) && j < |events| && Decides(trace, events, i, j, u, t)
    ensures !Pends(trace[j + 1], u, t)
  {
    RunInv(trace, events, j);
    RunApply(trace, events, j);
    DecisionStep(trace[j], events[j], u, t);
  }

  // ---------- revocation ----------

  /** A device authorized again between `i` and `j` was so at some event, and active right after it. */
  lemma AgainAt(trace: seq<Db>, events: seq<Event>, i: nat, j: nat, d: Uuid) returns (k: nat)
    requires IsRun(trace, events) && i <= j <= |events| && d in Again(trace, events, i, j)
    ensures i < k <= j && d in trace[k].devices && trace[k].devices[d].status.DeviceActive?
  {
    var n := GatheredAt(AgainSteps(trace, events), i, j, d);
    k := n + 1;
    RunApply(trace, events, n);
    AgainIsActive(trace[n], events[n], d);
  }

  lemma AgainIsActive(db: Db, e: Event, d: Uuid)
    requires RingsOk(db) && d in AgainBy(db, e)
    ensures d in Apply(db, e).devices && Apply(db, e).devices[d].status.DeviceActive?
  {
  }

  /** The device row is the one it was at `i`. */
  ghost predicate DeviceStands(trace: seq<Db>, i: nat, k: nat, d: Uuid) {
    && i < |trace| && k < |trace| && d in trace[i].devices && d in trace[k].devices
    && trace[k].devices[d] == trace[i].devices[d]
  }

  lemma DeviceStandsUntil(trace: seq<Db>, events: seq<Event>, i: nat, k: nat, j: nat, d: Uuid)
    requires IsRun(trace, events) && i <= k <= j <= |events| && d !in Again(trace, events, i, j)
    requires d in trace[i].devices && trace[i].devices[d].revokedAt.Some? && d in trace[j].devices
    ensures DeviceStands(trace, i, k, d)
  {
    RunInv(trace, events, i);
    GatherGrows(AgainSteps(trace, events), i, k, j);
    RunExtends(trace, events, i, k);
    RunExtends(trace, events, k, j);
  }

  /** A device that is revoked stays exactly as it is as long as it is there, if and only if nobody authorizes it again. */
  lemma RevokedDeviceStandsIff(trace: seq<Db>, events: seq<Event>, i: nat, j: nat, d: Uuid)
    requires IsRun(trace, events) && i <= j <= |events|
    requires d in trace[i].devices && trace[i].devices[d].revokedAt.Some? && d in trace[j].devices
    ensures (forall k :: i <= k <= j ==> DeviceStands(trace, i, k, d)) <==> d !in Again(trace, events, i, j)
  {
    if d in Again(trace, events, i, j) {
      var k := AgainAt(trace, events, i, j, d);
      RunInv(trace, events, i);
      assert !DeviceStands(trace, i, k, d);
    } else {
      forall k | i <= k <= j ensures DeviceStands(trace, i, k, d) { DeviceStandsUntil(trace, events, i, k, j, d); }
    }
  }

  /** The first revocation of a session or entitlement fixes its time for good.  It fixes a session's reason exactly
      until a refresh token of its family is replayed, which then is the reason.  A revoked device stays exactly as it
      is until it is authorized again. */
  lemma FirstRevocationStands(trace: seq<Db>, events: seq<Event>, i: nat, j: nat, id: Uuid)
    requires IsRun(trace, events) && i <= j <= |events|
    ensures var a, b := trace[i], trace[j];
            && (id in a.sessions && id in b.sessions && a.sessions[id].revokedAt.Some? ==>
                  var replayed := a.sessions[id].family in Replayed(trace, events, i, j);
                  && b.sessions[id].revokedAt == a.sessions[id].revokedAt
                  && b.sessions[id].reason == (if replayed then Some(ByReplay) else a.sessions[id].reason)
                  && (b.sessions[id].reason == a.sessions[id].reason <==> !replayed || a.sessions[id].reason == Some(ByReplay)))
            && (id in a.devices && id in b.devices && a.devices[id].revokedAt.Some? ==>
                  ((forall k :: i <= k <= j ==> DeviceStands(trace, i, k, id)) <==> id !in Again(trace, events, i, j)))
            && (id in a.entitlements && id in b.entitlements && a.entitlements[id].revokedAt.Some? ==>
                  b.entitlements[id].revokedAt == a.entitlements[id].revokedAt)
  {
    RunInv(trace, events, i);
    RunExtends(trace, events, i, j);
    var a, b := trace[i], trace[j];
    if id in a.devices && id in b.devices && a.devices[id].revokedAt.Some? { RevokedDeviceStandsIff(trace, events, i, j, id); }
  }

  // ---------- the two ways to disable ----------

  /** In every reachable state the operator command and the control API disable exactly the same users,
      with the same effect. */
  lemma DisableGuardsAgree(trace: seq<Db>, events: seq<Event>, m: Mutation, x: Call)
    requires IsRun(trace, events) && ValidMutation(m) && m.target in trace[|events|].users
    requires x.action.DisableUser? && x.target == m.target && x.appliedAt == m.at
    requires x.command.expected == trace[|events|].users[m.target].revision
    ensures var db := trace[|events|];
            && (DisableAccount(db, m).Ok? <==> ApplyAction(db, x).Mutated?)
            && (DisableAccount(db, m).Ok? ==> ApplyAction(db, x).db == DisableAccount(db, m).value)
            && (DisableAccount(db, m).Ok? <==> db.users[m.target].status.Active?)
  {
    AccountStatesHold(trace, events, m.target);
  }

  lemma EnableGuardsAgree(trace: seq<Db>, events: seq<Event>, m: Mutation, x: Call)
    requires IsRun(trace, events) && ValidMutation(m) && m.target in trace[|events|].users
    requires x.action.EnableUser? && x.target == m.target && x.appliedAt == m.at
    requires x.command.expected == trace[|events|].users[m.target].revision
    ensures var db := trace[|events|];
            && (EnableAccount(db, m).Ok? <==> ApplyAction(db, x).Mutated?)
            && (EnableAccount(db, m).Ok? ==> ApplyAction(db, x).db == EnableAccount(db, m).value)
            && (EnableAccount(db, m).Ok? <==> db.users[m.target].adminDisabled)
  {
    AccountStatesHold(trace, events, m.target);
  }

  // ---------- logins ----------

  /** In every reachable state no login is bound twice, a user has at most one of each kind, and every
      user who is not finalised has one. */
  lemma LoginsStayUnique(trace: seq<Db>, events: seq<Event>)
    requires IsRun(trace, events)
    ensures var db := trace[|events|];
            && Distinct(db.identities)
            && (forall u :: u in db.users && db.users[u].finalizedAt.None? ==> HasIdentity(db.identities, u))
            && (forall i :: i in db.identities ==>
                  db.identities[i].user in db.users && db.users[db.identities[i].user].finalizedAt.None?)
  {
    var db := trace[|events|];
    RunInv(trace, events, |events|);
    forall i | i in db.identities ensures db.identities[i].user in db.users && db.users[db.identities[i].user].finalizedAt.None? {
      assert IdentityOk(db.identities, db.users, db.lookup.keys, i);
    }
  }

  /** No stored digest of this kind belongs to another login than the one looked up. */
  ghost predicate NoCollision(db: Db, kind: Kind, login: Login) {
    forall i :: i in db.identities && db.identities[i].kind == kind && db.identities[i].keyId in db.lookup.keys
                && db.identities[i].hmac == db.lookup.keys[db.identities[i].keyId](kind, login) ==>
      db.identities[i].login == login
  }

  lemma {:induction false} FirstOwnerFinds(db: Db, kind: Kind, login: Login, candidates: seq<Candidate>, i: Uuid)
    requires Distinct(db.identities) && NoCollision(db, kind, login)
    requires forall c :: c in candidates ==> c.keyId in db.lookup.keys && c.hmac == db.lookup.keys[c.keyId](kind, login)
    requires i in db.identities && db.identities[i].kind == kind && db.identities[i].login == login
    requires Candidate(db.identities[i].keyId, db.identities[i].hmac) in candidates
    ensures FirstOwner(db.identities, kind, candidates) == Some(db.identities[i].user)
  {
    var c := candidates[0];
    var found := StoredUnder(db.identities, kind, c);
    assert c in candidates;
    if found != {} {
      var f := Least(found);
      assert db.identities[f].login == login;
      assert f == i;
    } else {
      assert Candidate(db.identities[i].keyId, db.identities[i].hmac) == c ==> i in found;
      FirstOwnerFinds(db, kind, login, candidates[1..], i);
    }
  }

  /** Whatever key a login was stored under, looking it up finds its owner. */
  lemma LoginFindsOwner(trace: seq<Db>, events: seq<Event>, claims: Claims, i: Uuid)
    requires IsRun(trace, events)
    requires var db := trace[|events|];
             && i in db.identities && db.identities[i].kind == claims.kind && db.identities[i].login == claims.login
             && NoCollision(db, claims.kind, claims.login)
    ensures var db := trace[|events|];
            ValidLookup(db.lookup) && FindUser(db, claims) == Some(db.identities[i].user)
  {
    var db := trace[|events|];
    RunInv(trace, events, |events|);
    assert IdentityOk(db.identities, db.users, db.lookup.keys, i);
    FirstOwnerFinds(db, claims.kind, claims.login, Candidates(db.lookup, claims.kind, claims.login), i);
  }

  // ---------- the lock on a login ----------

  lemma {:induction false} StableIsLeast(candidates: seq<Candidate>)
    requires candidates != []
    ensures StableCandidate(candidates) in candidates
    ensures forall c :: c in candidates ==> c.keyId == StableCandidate(candidates).keyId
                                            || Less(StableCandidate(candidates).keyId, c.keyId)
  {
    var n := |candidates| - 1;
    if n > 0 {
      StableIsLeast(candidates[..n]);
      var best, last := StableCandidate(candidates[..n]), candidates[n];
      LessTotal(last.keyId, best.keyId);
      forall c | c in candidates
        ensures c.keyId == StableCandidate(candidates).keyId || Less(StableCandidate(candidates).keyId, c.keyId)
      {
        LastOrEarlier(candidates, c);
        if c in candidates[..n] && c.keyId != best.keyId && Less(last.keyId, best.keyId) {
          LessTransitive(last.keyId, best.keyId, c.keyId);
        }
      }
    }
  }

  lemma LastOrEarlier(candidates: seq<Candidate>, c: Candidate)
    requires c in candidates
    ensures c in candidates[..|candidates| - 1] || c == candidates[|candidates| - 1]
  {
    assert candidates == candidates[..|candidates| - 1] + [candidates[|candidates| - 1]];
  }

  /** Two rings with the same keys take the same lock for a login, whichever key is active. */
  lemma ScopeIgnoresActiveKey(a: Db, b: Db, kind: Kind, login: Login)
    requires ValidLookup(a.lookup) && ValidLookup(b.lookup) && a.lookup.keys == b.lookup.keys
    ensures IdentityScope(a, kind, login) == IdentityScope(b, kind, login)
  {
    var left, right := Candidates(a.lookup, kind, login), Candidates(b.lookup, kind, login);
    assert forall c :: c in left <==> c in right;
    assert left != [] ==> left[0] in right;
    assert right != [] ==> right[0] in left;
    if left != [] {
      StableIsLeast(left);
      StableIsLeast(right);
      var l, r := StableCandidate(left), StableCandidate(right);
      LessTotal(l.keyId, r.keyId);
      assert l == r;
    }
  }
}
