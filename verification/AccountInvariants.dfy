/** What every run of the account database keeps, table by table, and how a later state relates to
    an earlier one. */
module AccountInvariants {
  import opened Common
  import opened Bytes
  import opened Protector
  import opened AccountState
  import opened AccountSteps
  import opened AdminSteps
  import opened AccountShapes
  import opened AccountRuns

  // ---------- users ----------

  /** The states an account can be in, with its personal space and password. */
  ghost predicate StatusOk(row: User, space: Option<bool>, hasPassword: bool) {
    && row.revision >= 1
    && match row.status
       case Active =>
         !row.adminDisabled && row.requestedAt.None? && row.finalizedAt.None? && space == Some(true) && hasPassword
       case PendingDeletion =>
         !row.adminDisabled && row.requestedAt.Some? && row.finalizedAt.None? && space == Some(false) && hasPassword
       case Disabled =>
         if row.finalizedAt.None?
         then row.adminDisabled && row.requestedAt.None? && space == Some(false) && hasPassword
         else !row.adminDisabled && space.None? && !hasPassword
              && row.requestedAt.Some? && row.finalizedAt.value >= row.requestedAt.value + RECOVERY_WINDOW
  }

  ghost function SpaceOf(spaces: map<Uuid, bool>, user: Uuid): Option<bool> {
    if user in spaces then Some(spaces[user]) else None
  }

  ghost predicate UserOk(users: map<Uuid, User>, spaces: map<Uuid, bool>, credentials: map<Uuid, seq<Byte>>, u: Uuid)
    requires u in users
  {
    StatusOk(users[u], SpaceOf(spaces, u), u in credentials)
  }

  ghost predicate StatusInv(users: map<Uuid, User>, spaces: map<Uuid, bool>, credentials: map<Uuid, seq<Byte>>) {
    forall u {:trigger UserOk(users, spaces, credentials, u)} :: u in users ==> UserOk(users, spaces, credentials, u)
  }

  /** A change of one user's rows. */
  lemma StatusUpdate(a: Db, b: Db, u: Uuid)
    requires StatusInv(a.users, a.spaces, a.credentials)
    requires u in b.users && UserOk(b.users, b.spaces, b.credentials, u)
    requires b.users.Keys == a.users.Keys + {u}
    requires forall v :: v in a.users && v != u ==> b.users[v] == a.users[v]
    requires forall v :: v != u ==> SpaceOf(a.spaces, v) == SpaceOf(b.spaces, v)
    requires forall v :: v != u ==> (v in a.credentials <==> v in b.credentials)
    ensures StatusInv(b.users, b.spaces, b.credentials)
  {
    forall v | v in b.users ensures UserOk(b.users, b.spaces, b.credentials, v) {
      if v != u { assert UserOk(a.users, a.spaces, a.credentials, v); }
    }
  }

  // ---------- identities ----------

  ghost predicate IdentityOk(identities: map<Uuid, Identity>, users: map<Uuid, User>, keys: map<KeyId, LookupKey>, i: Uuid)
    requires i in identities
  {
    var row := identities[i];
    && row.user in users && users[row.user].finalizedAt.None?
    && row.login != [] && row.keyId in keys && row.hmac == keys[row.keyId](row.kind, row.login)
  }

  /** No two rows of a kind share a login, a digest or a user. */
  ghost predicate Distinct(identities: map<Uuid, Identity>) {
    forall i, j :: i in identities && j in identities && i != j && identities[i].kind == identities[j].kind ==>
      && identities[i].login != identities[j].login && identities[i].hmac != identities[j].hmac
      && identities[i].user != identities[j].user
  }

  ghost predicate HasIdentity(identities: map<Uuid, Identity>, u: Uuid) {
    exists i :: i in identities && identities[i].user == u
  }

  ghost predicate IdentityInv(identities: map<Uuid, Identity>, users: map<Uuid, User>, keys: map<KeyId, LookupKey>) {
    && (forall i {:trigger IdentityOk(identities, users, keys, i)} :: i in identities ==> IdentityOk(identities, users, keys, i))
    && Distinct(identities)
    && (forall u {:trigger HasIdentity(identities, u)} :: u in users && users[u].finalizedAt.None? ==> HasIdentity(identities, u))
  }

  ghost predicate SameFinal(a: map<Uuid, User>, b: map<Uuid, User>) {
    a.Keys == b.Keys && forall u :: u in a ==> a[u].finalizedAt == b[u].finalizedAt
  }

  lemma IdentityFrame(identities: map<Uuid, Identity>, a: map<Uuid, User>, b: map<Uuid, User>,
                      keys: map<KeyId, LookupKey>, more: map<KeyId, LookupKey>)
    requires IdentityInv(identities, a, keys) && SameFinal(a, b)
    requires forall k :: k in keys ==> k in more && more[k] == keys[k]
    ensures IdentityInv(identities, b, more)
  {
    forall i | i in identities ensures IdentityOk(identities, b, more, i) { assert IdentityOk(identities, a, keys, i); }
    forall u | u in b && b[u].finalizedAt.None? ensures HasIdentity(identities, u) { assert a[u].finalizedAt.None?; }
  }

  ghost predicate NewLogin(identities: map<Uuid, Identity>, row: Identity) {
    forall i :: i in identities && identities[i].kind == row.kind ==>
      identities[i].login != row.login && identities[i].hmac != row.hmac && identities[i].user != row.user
  }

  lemma InsertInv(identities: map<Uuid, Identity>, a: map<Uuid, User>, b: map<Uuid, User>, keys: map<KeyId, LookupKey>,
                  id: Uuid, row: Identity)
    requires IdentityInv(identities, a, keys) && id !in identities && NewLogin(identities, row)
    requires row.user in b && b[row.user].finalizedAt.None? && b.Keys == a.Keys + {row.user}
    requires forall u :: u in a ==> a[u].finalizedAt == b[u].finalizedAt
    requires row.login != [] && row.keyId in keys && row.hmac == keys[row.keyId](row.kind, row.login)
    ensures IdentityInv(identities[id := row], b, keys)
  {
    var after := identities[id := row];
    forall i | i in after ensures IdentityOk(after, b, keys, i) {
      if i != id { assert IdentityOk(identities, a, keys, i); }
    }
    forall u | u in b && b[u].finalizedAt.None? ensures HasIdentity(after, u) {
      if u == row.user {
        assert after[id].user == u;
      } else {
        assert u in a && HasIdentity(identities, u);
        var i :| i in identities && identities[i].user == u;
        assert after[i].user == u;
      }
    }
  }

  /** A login no candidate of which is stored is nobody's. */
  lemma UnknownLogin(db: Db, kind: Kind, login: Login)
    requires ValidLookup(db.lookup) && IdentityInv(db.identities, db.users, db.lookup.keys)
    requires !IdentityExists(db, kind, login)
    ensures forall i :: i in db.identities && db.identities[i].kind == kind ==> db.identities[i].login != login
  {
    forall i | i in db.identities ensures IdentityExists(db, db.identities[i].kind, db.identities[i].login) {
      StoredIsFound(db, i);
    }
  }

  lemma StoredIsFound(db: Db, i: Uuid)
    requires ValidLookup(db.lookup) && IdentityInv(db.identities, db.users, db.lookup.keys) && i in db.identities
    ensures IdentityExists(db, db.identities[i].kind, db.identities[i].login)
  {
    assert IdentityOk(db.identities, db.users, db.lookup.keys, i);
    var c := Candidate(db.identities[i].keyId, db.identities[i].hmac);
    assert i in StoredUnder(db.identities, db.identities[i].kind, c);
  }

  lemma RemoveInv(a: Db, user: Uuid, gone: Uuid)
    requires IdentityInv(a.identities, a.users, a.lookup.keys)
    requires gone in IdentitiesOf(a.identities, user) && |IdentitiesOf(a.identities, user)| > 1
    ensures IdentityInv(a.identities - {gone}, a.users, a.lookup.keys)
  {
    var after := a.identities - {gone};
    forall i | i in after ensures IdentityOk(after, a.users, a.lookup.keys, i) {
      assert IdentityOk(a.identities, a.users, a.lookup.keys, i);
    }
    forall u | u in a.users && a.users[u].finalizedAt.None? ensures HasIdentity(after, u) {
      if u == user {
        var mine := IdentitiesOf(a.identities, user);
        assert mine - {gone} != {} by { assert |mine - {gone}| == |mine| - 1; }
        var i :| i in mine - {gone};
        assert after[i].user == u;
      } else {
        assert HasIdentity(a.identities, u);
        var i :| i in a.identities && a.identities[i].user == u;
        assert after[i].user == u;
      }
    }
  }

  lemma FinalizeIdentityInv(a: Db, b: map<Uuid, User>, user: Uuid)
    requires IdentityInv(a.identities, a.users, a.lookup.keys) && user in b && b[user].finalizedAt.Some?
    requires b.Keys == a.users.Keys && forall u :: u in b && u != user ==> b[u] == a.users[u]
    ensures IdentityInv(a.identities - IdentitiesOf(a.identities, user), b, a.lookup.keys)
  {
    var after := a.identities - IdentitiesOf(a.identities, user);
    forall i | i in after ensures IdentityOk(after, b, a.lookup.keys, i) {
      assert IdentityOk(a.identities, a.users, a.lookup.keys, i);
      assert i !in IdentitiesOf(a.identities, user);
    }
    forall u | u in b && b[u].finalizedAt.None? ensures HasIdentity(after, u) {
      assert HasIdentity(a.identities, u);
      var i :| i in a.identities && a.identities[i].user == u;
      assert i !in IdentitiesOf(a.identities, user);
      assert after[i].user == u;
    }
  }

  // ---------- rows with issued identifiers ----------

  ghost predicate SessionRows(sessions: map<Uuid, Session>, issued: set<Uuid>) {
    && sessions.Keys <= issued
    && (forall s :: s in sessions ==> (sessions[s].revokedAt.None? <==> sessions[s].reason.None?))
    && (forall s :: s in sessions ==> sessions[s].family in issued)
  }

  ghost predicate DeviceRows(devices: map<Uuid, Device>, issued: set<Uuid>) {
    && devices.Keys <= issued
    && forall d :: d in devices ==> (devices[d].status.DeviceRevoked? <==> devices[d].revokedAt.Some?)
  }

  ghost predicate EntitlementRows(entitlements: map<Uuid, Entitlement>, issued: set<Uuid>) {
    entitlements.Keys <= issued
  }

  ghost predicate ChallengeRows(challenges: map<Uuid, Challenge>, issued: set<Uuid>) {
    && challenges.Keys <= issued && NIL !in challenges
    && forall c :: c in challenges && challenges[c].receiptAt.Some? ==> challenges[c].consumedAt.Some?
  }

  ghost predicate RowInv(db: Db) {
    && SessionRows(db.sessions, db.issued) && DeviceRows(db.devices, db.issued)
    && EntitlementRows(db.entitlements, db.issued) && ChallengeRows(db.challenges, db.issued)
  }

  ghost predicate ChallengeAdvances(c: Challenge, d: Challenge) {
    && d == c.(consumedAt := d.consumedAt, receiptAt := d.receiptAt)
    && (c.consumedAt.Some? ==> d.consumedAt == c.consumedAt) && (c.receiptAt.Some? ==> d.receiptAt == c.receiptAt)
  }

  // ---------- operations ----------

  /** Exactly one audit event names the operation, and it says what the row says. */
  ghost predicate AuditedOnce(audit: seq<AuditEvent>, id: Uuid, row: StoredOperation) {
    exists n :: AuditedAt(audit, id, row, n)
  }

  ghost predicate AuditedAt(audit: seq<AuditEvent>, id: Uuid, row: StoredOperation, n: nat) {
    && n < |audit|
    && audit[n] == AuditEvent(id, row.action, row.operation.status.Succeeded?, row.expected, row.operation.revision)
    && forall m :: 0 <= m < |audit| && audit[m].operation == id ==> m == n
  }

  ghost predicate OperationOk(operations: map<Uuid, StoredOperation>, audit: seq<AuditEvent>, id: Uuid)
    requires id in operations
  {
    var row := operations[id];
    && row.operation.id == id && ValidOperation(row.operation) && !row.operation.status.Executing?
    && |row.fingerprint| == 32
    && (row.operation.status.Succeeded? ==> row.operation.revision == row.expected + 1)
    && AuditedOnce(audit, id, row)
  }

  ghost predicate OperationInv(operations: map<Uuid, StoredOperation>, audit: seq<AuditEvent>) {
    && (forall id {:trigger OperationOk(operations, audit, id)} :: id in operations ==> OperationOk(operations, audit, id))
    && (forall n :: 0 <= n < |audit| ==> audit[n].operation in operations)
  }

  lemma RecordInv(operations: map<Uuid, StoredOperation>, audit: seq<AuditEvent>, id: Uuid, row: StoredOperation, event: AuditEvent)
    requires OperationInv(operations, audit) && id !in operations
    requires row.operation.id == id && ValidOperation(row.operation) && !row.operation.status.Executing? && |row.fingerprint| == 32
    requires row.operation.status.Succeeded? ==> row.operation.revision == row.expected + 1
    requires event == AuditEvent(id, row.action, row.operation.status.Succeeded?, row.expected, row.operation.revision)
    ensures OperationInv(operations[id := row], audit + [event])
  {
    var after, log := operations[id := row], audit + [event];
    forall o | o in after ensures OperationOk(after, log, o) {
      if o == id {
        assert AuditedAt(log, id, row, |audit|);
      } else {
        assert OperationOk(operations, audit, o);
        var n :| AuditedAt(audit, o, operations[o], n);
        assert AuditedAt(log, o, after[o], n);
      }
    }
  }

  // ---------- the whole database ----------

  ghost predicate Inv(db: Db) {
    && RingsOk(db)
    && StatusInv(db.users, db.spaces, db.credentials)
    && IdentityInv(db.identities, db.users, db.lookup.keys)
    && RowInv(db)
    && OperationInv(db.operations, db.audit)
  }

  lemma FreshInv(lookup: LookupRing, protector: Ring, deviceLimit: nat)
    requires ValidLookup(lookup) && ValidRing(protector)
    ensures Inv(Fresh(lookup, protector, deviceLimit))
  {
  }

  // ---------- later states ----------

  ghost predicate UserAdvances(a: User, b: User) {
    && b.revision >= a.revision
    && (a.finalizedAt.Some? ==> b == a.(revision := b.revision, passwordVersion := b.passwordVersion))
  }

  ghost predicate UsersAdvance(a: map<Uuid, User>, b: map<Uuid, User>) {
    forall u :: u in a ==> u in b && UserAdvances(a[u], b[u])
  }

  /** Rows are kept, advanced or deleted; an identifier in `issued` is never given out again.  The families in
      `replayed` carry that reason, whatever they were revoked for before; all others keep theirs. */
  ghost predicate SessionsAdvance(a: map<Uuid, Session>, issued: set<Uuid>, b: map<Uuid, Session>, replayed: set<Uuid>) {
    forall s :: s in b && s in issued ==>
      s in a && if a[s].family in replayed then ReplayMoves(a[s], b[s]) else SessionAdvances(a[s], b[s])
  }

  ghost predicate ReplayMoves(s: Session, t: Session) {
    SessionMoves(s, t) && t.reason == Some(ByReplay) && t.revokedAt.Some?
  }

  /** A device authorized again keeps its installation and key; any other is only revoked. */
  ghost predicate DevicesAdvance(a: map<Uuid, Device>, issued: set<Uuid>, b: map<Uuid, Device>, again: set<Uuid>) {
    forall d :: d in b && d in issued ==>
      && d in a && b[d].installation == a[d].installation && b[d].publicKey == a[d].publicKey
      && (d !in again ==> DeviceAdvances(a[d], b[d]))
  }

  ghost predicate EntitlementsAdvance(a: map<Uuid, Entitlement>, issued: set<Uuid>, b: map<Uuid, Entitlement>) {
    forall e :: e in b && e in issued ==> e in a && EntitlementAdvances(a[e], b[e])
  }

  ghost predicate ChallengesAdvance(a: map<Uuid, Challenge>, issued: set<Uuid>, b: map<Uuid, Challenge>) {
    forall c :: c in b && c in issued ==> c in a && ChallengeAdvances(a[c], b[c])
  }

  ghost predicate RowsAdvance(a: Db, b: Db, again: set<Uuid>, replayed: set<Uuid>) {
    && a.issued <= b.issued
    && SessionsAdvance(a.sessions, a.issued, b.sessions, replayed) && DevicesAdvance(a.devices, a.issued, b.devices, again)
    && EntitlementsAdvance(a.entitlements, a.issued, b.entitlements) && ChallengesAdvance(a.challenges, a.issued, b.challenges)
  }

  lemma RowsSame(db: Db, more: set<Uuid>)
    requires RowInv(db) && db.issued <= more
    ensures SessionRows(db.sessions, more) && SessionsAdvance(db.sessions, db.issued, db.sessions, {})
    ensures DeviceRows(db.devices, more) && DevicesAdvance(db.devices, db.issued, db.devices, {})
    ensures EntitlementRows(db.entitlements, more) && EntitlementsAdvance(db.entitlements, db.issued, db.entitlements)
    ensures ChallengeRows(db.challenges, more) && ChallengesAdvance(db.challenges, db.issued, db.challenges)
  {
  }

  ghost predicate OperationsAdvance(a: Db, b: Db) {
    && (forall o :: o in a.operations ==> o in b.operations && b.operations[o] == a.operations[o])
    && |a.audit| <= |b.audit| && b.audit[..|a.audit|] == a.audit
  }

  /** The database later on; `again` are the devices authorized again in between, `replayed` the session families
      of which a refresh token was replayed. */
  ghost predicate Extends(a: Db, b: Db, again: set<Uuid>, replayed: set<Uuid>) {
    && UsersAdvance(a.users, b.users) && RowsAdvance(a, b, again, replayed) && OperationsAdvance(a, b)
    && KeysKept(a.lookup, b.lookup) && b.deviceLimit == a.deviceLimit
  }

  lemma ExtendsSelf(a: Db)
    ensures Extends(a, a, {}, {})
  {
  }

  lemma ExtendsTransitive(a: Db, b: Db, c: Db, again: set<Uuid>, moreAgain: set<Uuid>, replayed: set<Uuid>, moreReplayed: set<Uuid>)
    requires Extends(a, b, again, replayed) && Extends(b, c, moreAgain, moreReplayed)
    ensures Extends(a, c, again + moreAgain, replayed + moreReplayed)
  {
    UsersTransitive(a.users, b.users, c.users);
    SessionsTransitive(a, b, c, replayed, moreReplayed);
    RowsTransitive(a, b, c, again, moreAgain, replayed, moreReplayed);
    assert c.audit[..|b.audit|][..|a.audit|] == c.audit[..|a.audit|];
  }

  lemma UsersTransitive(a: map<Uuid, User>, b: map<Uuid, User>, c: map<Uuid, User>)
    requires UsersAdvance(a, b) && UsersAdvance(b, c)
    ensures UsersAdvance(a, c)
  {
  }

  lemma SessionsTransitive(a: Db, b: Db, c: Db, replayed: set<Uuid>, more: set<Uuid>)
    requires a.issued <= b.issued && SessionsAdvance(a.sessions, a.issued, b.sessions, replayed)
    requires SessionsAdvance(b.sessions, b.issued, c.sessions, more)
    ensures SessionsAdvance(a.sessions, a.issued, c.sessions, replayed + more)
  {
  }

  lemma RowsTransitive(a: Db, b: Db, c: Db, again: set<Uuid>, moreAgain: set<Uuid>, replayed: set<Uuid>, moreReplayed: set<Uuid>)
    requires RowsAdvance(a, b, again, replayed) && RowsAdvance(b, c, moreAgain, moreReplayed)
    requires SessionsAdvance(a.sessions, a.issued, c.sessions, replayed + moreReplayed)
    ensures RowsAdvance(a, c, again + moreAgain, replayed + moreReplayed)
  {
  }
}
