/** What the self-service steps ask of the rows they find, and what they leave. */
module AccountSpec {
  import opened Common
  import opened Bytes
  import opened Protector
  import opened AccountState
  import opened AccountSteps
  import opened AccountShapes
  import opened AccountRuns
  import opened AccountInvariants

  // ---------- digests, receipts and logins ----------

  /** The digest of a login under a key of the ring. */
  ghost predicate DigestOf(db: Db, keyId: KeyId, hmac: seq<Byte>, kind: Kind, login: Login) {
    login != [] && keyId in db.lookup.keys && hmac == db.lookup.keys[keyId](kind, login)
  }

  /** The receipt of a confirmed challenge of this purpose, addressed to this login, that was not used. */
  ghost predicate Receipt(db: Db, claims: Claims) {
    && claims.challenge in db.challenges
    && var c := db.challenges[claims.challenge];
    && c.purpose == claims.purpose && c.kind == claims.kind && DigestOf(db, c.keyId, c.hmac, claims.kind, claims.login)
    && c.consumedAt.Some? && c.receiptAt.None?
  }

  /** And the clock has not gone back since it was confirmed. */
  ghost predicate Usable(db: Db, claims: Claims, at: Time) {
    Receipt(db, claims) && at >= db.challenges[claims.challenge].consumedAt.value
  }

  lemma ReceiptIff(db: Db, claims: Claims)
    requires ValidLookup(db.lookup)
    ensures ReceiptAvailable(db, claims) <==> Receipt(db, claims)
  {
  }

  ghost function Used(challenges: map<Uuid, Challenge>, c: Uuid, at: Time): map<Uuid, Challenge>
    requires c in challenges
  {
    challenges[c := challenges[c].(receiptAt := Some(at))]
  }

  /** The login is bound under some key. */
  ghost predicate Bound(db: Db, kind: Kind, login: Login) {
    exists i :: i in db.identities && db.identities[i].kind == kind
                && DigestOf(db, db.identities[i].keyId, db.identities[i].hmac, kind, login)
  }

  lemma BoundIff(db: Db, kind: Kind, login: Login)
    requires ValidLookup(db.lookup)
    ensures IdentityExists(db, kind, login) <==> Bound(db, kind, login)
  {
    if IdentityExists(db, kind, login) {
      var c :| c in Candidates(db.lookup, kind, login) && StoredUnder(db.identities, kind, c) != {};
      var i :| i in StoredUnder(db.identities, kind, c);
      assert DigestOf(db, db.identities[i].keyId, db.identities[i].hmac, kind, login);
    }
    if Bound(db, kind, login) {
      var i :| i in db.identities && db.identities[i].kind == kind
               && DigestOf(db, db.identities[i].keyId, db.identities[i].hmac, kind, login);
      var c := Candidate(db.identities[i].keyId, db.identities[i].hmac);
      assert c in Candidates(db.lookup, kind, login) && i in StoredUnder(db.identities, kind, c);
    }
  }

  /** Keyed digests have the length of SHA-256. */
  ghost predicate SizedLookup(ring: LookupRing) {
    forall k, kind, login :: k in ring.keys ==> |ring.keys[k](kind, login)| == 32
  }

  lemma {:induction false} StableAmong(candidates: seq<Candidate>)
    requires candidates != []
    ensures StableCandidate(candidates) in candidates
  {
    if |candidates| > 1 { StableAmong(candidates[..|candidates| - 1]); }
  }

  lemma ScopeIff(db: Db, kind: Kind, login: Login)
    requires ValidLookup(db.lookup) && SizedLookup(db.lookup)
    ensures IdentityScope(db, kind, login).Ok? <==> login != []
  {
    var candidates := Candidates(db.lookup, kind, login);
    if login != [] {
      assert db.lookup.active in db.lookup.order;
      assert Candidate(db.lookup.active, db.lookup.keys[db.lookup.active](kind, login)) in candidates;
      StableAmong(candidates);
    }
  }

  // ---------- registering ----------

  /** A login nobody has, with its digest, confirmed or taken directly, for new identifiers. */
  ghost predicate MayRegister(db: Db, r: RegisterRecord) {
    && r.claims.purpose == Registration && r.user != NIL && r.identity != NIL
    && DigestOf(db, r.keyId, r.hmac, r.claims.kind, r.claims.login)
    && (r.direct ==> r.claims.challenge == NIL && r.claims.kind == Email)
    && (!r.direct ==> r.claims.challenge != NIL && Usable(db, r.claims, r.at))
    && !Bound(db, r.claims.kind, r.claims.login)
    && (forall i :: i in db.identities && db.identities[i].kind == r.claims.kind ==> db.identities[i].hmac != r.hmac)
    && r.identity !in db.identities && r.user !in db.users && r.user !in db.credentials && r.user !in db.spaces
  }

  ghost predicate RegisteredAs(db: Db, b: Db, r: RegisterRecord) {
    && (!r.direct ==> r.claims.challenge in db.challenges)
    && b == db.(users := db.users[r.user := User(Active, false, None, None, 1, 1)], spaces := db.spaces[r.user := true],
                credentials := db.credentials[r.user := r.password],
                identities := db.identities[r.identity := Identity(r.user, r.claims.kind, r.keyId, r.hmac, r.claims.login)],
                challenges := if r.direct then db.challenges else Used(db.challenges, r.claims.challenge, r.at))
  }

  lemma RegisterOnly(db: Db, r: RegisterRecord)
    requires ValidLookup(db.lookup) && Register(db, r).Ok?
    ensures MayRegister(db, r) && RegisteredAs(db, Register(db, r).value, r)
  {
    RegisterShape(db, r);
    ReceiptIff(db, r.claims);
    BoundIff(db, r.claims.kind, r.claims.login);
  }

  lemma RegisterTakes(db: Db, r: RegisterRecord)
    requires ValidLookup(db.lookup) && SizedLookup(db.lookup) && MayRegister(db, r)
    ensures Register(db, r).Ok?
  {
    ReceiptIff(db, r.claims);
    BoundIff(db, r.claims.kind, r.claims.login);
    ScopeIff(db, r.claims.kind, r.claims.login);
    assert SealedMatches(db, r.keyId, r.hmac, r.claims);
  }

  /** Somebody is registered exactly where they may be. */
  lemma RegisterDoes(db: Db, r: RegisterRecord)
    requires ValidLookup(db.lookup) && SizedLookup(db.lookup)
    ensures Register(db, r).Ok? <==> MayRegister(db, r)
    ensures Register(db, r).Ok? ==> RegisteredAs(db, Register(db, r).value, r)
  {
    if Register(db, r).Ok? { RegisterOnly(db, r); }
    if MayRegister(db, r) { RegisterTakes(db, r); }
  }

  // ---------- signing in ----------

  ghost predicate MayUseLogin(db: Db, r: LoginRecord)
    requires ValidLookup(db.lookup)
  {
    && r.claims.purpose == SignIn && r.claims.challenge != NIL && r.user != NIL && r.at != ZERO_TIME
    && FindUser(db, r.claims) == Some(r.user) && r.user in db.users && db.users[r.user].status == Active
    && Usable(db, r.claims, r.at)
  }

  /** A login receipt is used exactly for the active owner of the login. */
  lemma LoginDoes(db: Db, r: LoginRecord)
    requires ValidLookup(db.lookup)
    ensures ConsumeLoginReceipt(db, r).Ok? <==> MayUseLogin(db, r)
    ensures ConsumeLoginReceipt(db, r).Ok? ==>
              r.claims.challenge in db.challenges
              && ConsumeLoginReceipt(db, r).value == db.(challenges := Used(db.challenges, r.claims.challenge, r.at))
  {
    ReceiptIff(db, r.claims);
  }

  // ---------- passwords ----------

  ghost function NextPassword(u: User): User { u.(passwordVersion := u.passwordVersion + 1) }

  ghost predicate MayReset(db: Db, r: ResetRecord)
    requires ValidLookup(db.lookup)
  {
    && r.claims.purpose == PasswordReset && FindUser(db, r.claims).Some?
    && var user := FindUser(db, r.claims).value;
    && user in db.users && db.users[user].status != Disabled && user in db.credentials && Usable(db, r.claims, r.at)
  }

  /** The new password, and every session of the owner that was live is revoked. */
  ghost predicate ResetAs(db: Db, b: Db, r: ResetRecord, user: Uuid) {
    && user in db.users && r.claims.challenge in db.challenges && b.sessions.Keys == db.sessions.Keys
    && b == db.(credentials := db.credentials[user := r.password], users := db.users[user := NextPassword(db.users[user])],
                challenges := Used(db.challenges, r.claims.challenge, r.at), sessions := b.sessions)
    && forall s :: s in db.sessions ==>
         b.sessions[s] == if db.sessions[s].user == user && db.sessions[s].revokedAt.None?
                          then db.sessions[s].(revokedAt := Some(r.at), reason := Some(ByPasswordReset)) else db.sessions[s]
  }

  /** A password is reset exactly by the owner of the login, unless the account is disabled. */
  lemma ResetDoes(db: Db, r: ResetRecord)
    requires ValidLookup(db.lookup)
    ensures ResetPassword(db, r).Ok? <==> MayReset(db, r)
    ensures ResetPassword(db, r).Ok? ==> FindUser(db, r.claims).Some? && ResetAs(db, ResetPassword(db, r).value, r, FindUser(db, r.claims).value)
  {
    ReceiptIff(db, r.claims);
    if ResetPassword(db, r).Ok? { ResetShape(db, r); }
  }

  /** From a session of the user that is neither revoked nor expired. */
  ghost predicate MayChange(db: Db, r: ChangeRecord) {
    && r.user != NIL && r.session != NIL && r.password != [] && r.at != ZERO_TIME
    && r.user in db.users && db.users[r.user].status == Active && r.user in db.credentials
    && r.session in db.sessions
    && var session := db.sessions[r.session];
    && session.user == r.user && session.revokedAt.None? && session.expiresAt > r.at
  }

  /** The new password; which rows are revoked is `AccountEffects.PasswordChangeKeepsOneSession`. */
  lemma ChangeDoes(db: Db, r: ChangeRecord)
    ensures ChangePassword(db, r).Ok? <==> MayChange(db, r)
    ensures ChangePassword(db, r).Ok? ==>
              var b := ChangePassword(db, r).value;
              && r.user in db.users
              && b == db.(credentials := db.credentials[r.user := r.password], users := db.users[r.user := NextPassword(db.users[r.user])],
                          devices := b.devices, sessions := b.sessions, entitlements := b.entitlements)
  {
    if ChangePassword(db, r).Ok? { ChangeShape(db, r); }
  }

  // ---------- binding and removing ----------

  ghost predicate MayBind(db: Db, r: BindRecord) {
    && r.claims.purpose == BindLogin && r.user != NIL && r.identity != NIL
    && DigestOf(db, r.keyId, r.hmac, r.claims.kind, r.claims.login) && Usable(db, r.claims, r.at)
    && r.user in db.users && db.users[r.user].status == Active
    && !Bound(db, r.claims.kind, r.claims.login)
    && (forall i :: i in db.identities && db.identities[i].kind == r.claims.kind ==>
          db.identities[i].hmac != r.hmac && db.identities[i].user != r.user)
    && r.identity !in db.identities
  }

  ghost predicate BoundAs(db: Db, b: Db, r: BindRecord) {
    && r.claims.challenge in db.challenges
    && b == db.(identities := db.identities[r.identity := Identity(r.user, r.claims.kind, r.keyId, r.hmac, r.claims.login)],
                challenges := Used(db.challenges, r.claims.challenge, r.at))
  }

  lemma BindOnly(db: Db, r: BindRecord)
    requires ValidLookup(db.lookup) && BindIdentity(db, r).Ok?
    ensures MayBind(db, r) && BoundAs(db, BindIdentity(db, r).value, r)
  {
    BindShape(db, r);
    ReceiptIff(db, r.claims);
    BoundIff(db, r.claims.kind, r.claims.login);
  }

  lemma BindTakes(db: Db, r: BindRecord)
    requires ValidLookup(db.lookup) && SizedLookup(db.lookup) && MayBind(db, r)
    ensures BindIdentity(db, r).Ok?
  {
    ReceiptIff(db, r.claims);
    BoundIff(db, r.claims.kind, r.claims.login);
    ScopeIff(db, r.claims.kind, r.claims.login);
    assert SealedMatches(db, r.keyId, r.hmac, r.claims);
  }

  /** A login is bound exactly for an active user without one of that kind, if nobody has it. */
  lemma BindDoes(db: Db, r: BindRecord)
    requires ValidLookup(db.lookup) && SizedLookup(db.lookup)
    ensures BindIdentity(db, r).Ok? <==> MayBind(db, r)
    ensures BindIdentity(db, r).Ok? ==> BoundAs(db, BindIdentity(db, r).value, r)
  {
    if BindIdentity(db, r).Ok? { BindOnly(db, r); }
    if MayBind(db, r) { BindTakes(db, r); }
  }

  /** Two logins of the user, one of them of the kind to be removed. */
  ghost predicate MayRemove(db: Db, r: RemoveRecord, i: Uuid) {
    && r.user != NIL && r.at != ZERO_TIME && r.user in db.users && db.users[r.user].status == Active
    && i in db.identities && db.identities[i].user == r.user && db.identities[i].kind == r.kind
    && exists j :: j in db.identities && j != i && db.identities[j].user == r.user
  }

  lemma OnlyOne(db: Db, r: RemoveRecord, i: Uuid)
    requires Distinct(db.identities) && i in db.identities && db.identities[i].user == r.user && db.identities[i].kind == r.kind
    ensures OfKind(db.identities, r.user, r.kind) == {i}
  {
  }

  lemma MoreThanOne(db: Db, user: Uuid, i: Uuid)
    requires i in db.identities && db.identities[i].user == user
    ensures |IdentitiesOf(db.identities, user)| > 1 <==> exists j :: j in db.identities && j != i && db.identities[j].user == user
  {
    var mine := IdentitiesOf(db.identities, user);
    assert i in mine;
    if j :| j in db.identities && j != i && db.identities[j].user == user {
      assert {i, j} <= mine;
      assert |mine| == |mine - {i, j}| + 2;
    }
    if |mine| > 1 {
      assert |mine - {i}| == |mine| - 1;
      var j :| j in mine - {i};
      assert j in db.identities && j != i && db.identities[j].user == user;
    }
  }

  lemma RemoveTakes(db: Db, r: RemoveRecord, i: Uuid)
    requires Distinct(db.identities) && MayRemove(db, r, i)
    ensures RemoveIdentity(db, r) == Ok(db.(identities := db.identities - {i}))
  {
    OnlyOne(db, r, i);
    MoreThanOne(db, r.user, i);
    assert OfKind(db.identities, r.user, r.kind) != {};
  }

  lemma RemoveOnly(db: Db, r: RemoveRecord) returns (i: Uuid)
    requires RemoveIdentity(db, r).Ok?
    ensures MayRemove(db, r, i)
  {
    i :| i in OfKind(db.identities, r.user, r.kind);
    MoreThanOne(db, r.user, i);
  }

  /** A login is removed exactly when it is not the user's last, and then nothing else changes. */
  lemma RemoveDoes(db: Db, r: RemoveRecord)
    requires Distinct(db.identities)
    ensures RemoveIdentity(db, r).Ok? <==> exists i :: MayRemove(db, r, i)
    ensures forall i :: MayRemove(db, r, i) ==> RemoveIdentity(db, r) == Ok(db.(identities := db.identities - {i}))
  {
    forall i | MayRemove(db, r, i) ensures RemoveIdentity(db, r) == Ok(db.(identities := db.identities - {i})) { RemoveTakes(db, r, i); }
    if RemoveIdentity(db, r).Ok? { var i := RemoveOnly(db, r); }
  }
}
