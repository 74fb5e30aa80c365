/** Verification receipts: each confirmed challenge pays for one step, the one it was issued for. */
module ReceiptTheorems {
  import opened Common
  import opened Protector
  import opened AccountState
  import opened AccountSteps
  import opened AdminSteps
  import opened AccountShapes
  import opened AccountRuns
  import opened AccountInvariants
  import opened AccountProofs

  /** The receipt a step presents; direct registration presents none. */
  function ClaimsOf(e: Event): Option<Claims> {
    match e
    case RegisterEvent(r) => if r.direct then None else Some(r.claims)
    case LoginEvent(r) => Some(r.claims)
    case ResetEvent(r) => Some(r.claims)
    case BindEvent(r) => Some(r.claims)
    case RequestEvent(r) => Some(r.claims)
    case RecoverEvent(r) => Some(r.claims)
    case _ => None
  }

  /** The purpose a step's challenge must have been issued for. */
  function PurposeOf(e: Event): Purpose {
    match e
    case RegisterEvent(_) => Registration
    case LoginEvent(_) => SignIn
    case ResetEvent(_) => PasswordReset
    case BindEvent(_) => BindLogin
    case RequestEvent(_) => AccountDeletion
    case _ => DeletionRecovery
  }

  /** The step commits on the strength of challenge `c`. */
  ghost predicate Backs(db: Db, e: Event, c: Uuid) {
    ClaimsOf(e).Some? && ClaimsOf(e).value.challenge == c && ValidLookup(db.lookup) && SelfService(db, e).Ok?
  }

  ghost predicate Spent(db: Db, c: Uuid) {
    c in db.issued && (c in db.challenges ==> db.challenges[c].receiptAt.Some?)
  }

  /** The database with this one receipt spent. */
  ghost predicate SpendsOne(a: Db, b: Db, claims: Claims) {
    && claims.challenge in a.challenges
    && exists at :: b.challenges == Spend(a.challenges, claims.challenge, at)
  }

  lemma BackedStep(db: Db, e: Event, c: Uuid)
    requires Inv(db) && Backs(db, e, c)
    ensures ReceiptAvailable(db, ClaimsOf(e).value) && ClaimsOf(e).value.purpose == PurposeOf(e)
    ensures SpendsOne(db, SelfService(db, e).value, ClaimsOf(e).value)
  {
    match e
    case RegisterEvent(r) => RegisterShape(db, r);
    case LoginEvent(r) => LoginShape(db, r);
    case ResetEvent(r) => ResetShape(db, r);
    case BindEvent(r) => BindShape(db, r);
    case RequestEvent(r) => RequestShape(db, r);
    case RecoverEvent(r) => RecoverShape(db, r);
  }

  lemma BackedIsSpent(db: Db, e: Event, c: Uuid)
    requires Inv(db) && Backs(db, e, c)
    ensures !Spent(db, c) && Spent(Apply(db, e), c)
  {
    BackedStep(db, e, c);
    StepKept(db, e);
  }

  lemma SpentStays(a: Db, b: Db, again: set<Uuid>, replayed: set<Uuid>, c: Uuid)
    requires Extends(a, b, again, replayed) && Spent(a, c)
    ensures Spent(b, c)
  {
  }

  /** In every run a challenge backs at most one committed step. */
  lemma OneEffectPerChallenge(trace: seq<Db>, events: seq<Event>, i: nat, j: nat, c: Uuid)
    requires IsRun(trace, events) && i < |events| && j < |events|
    requires Backs(trace[i], events[i], c) && Backs(trace[j], events[j], c)
    ensures i == j
  {
    if i < j { EarlierEffectSpends(trace, events, i, j, c); }
    if j < i { EarlierEffectSpends(trace, events, j, i, c); }
  }

  lemma EarlierEffectSpends(trace: seq<Db>, events: seq<Event>, i: nat, j: nat, c: Uuid)
    requires IsRun(trace, events) && i < j <= |events| && Backs(trace[i], events[i], c)
    ensures Spent(trace[j], c)
    ensures j < |events| ==> !Backs(trace[j], events[j], c)
  {
    RunInv(trace, events, i);
    RunApply(trace, events, i);
    BackedIsSpent(trace[i], events[i], c);
    RunExtends(trace, events, i + 1, j);
    SpentStays(trace[i + 1], trace[j], Again(trace, events, i + 1, j), Replayed(trace, events, i + 1, j), c);
    RunInv(trace, events, j);
    if j < |events| && Backs(trace[j], events[j], c) { BackedIsSpent(trace[j], events[j], c); }
  }

  // ---------- a receipt nobody used stays available ----------

  /** How a step may treat the challenges that are left after it. */
  ghost predicate ChallengesMove(a: map<Uuid, Challenge>, b: map<Uuid, Challenge>, spent: set<Uuid>) {
    forall c :: c in b && c !in spent ==> c in a && b[c] == a[c]
  }

  ghost function SpentBy(db: Db, e: Event): set<Uuid> {
    if ClaimsOf(e).Some? && Backs(db, e, ClaimsOf(e).value.challenge) then {ClaimsOf(e).value.challenge} else {}
  }

  lemma SelfServiceChallenges(db: Db, e: Event)
    requires Inv(db) && IsSelfService(e)
    ensures ChallengesMove(db.challenges, Committed(db, SelfService(db, e)).challenges, SpentBy(db, e))
  {
    if SelfService(db, e).Ok? {
      if ClaimsOf(e).Some? {
        BackedStep(db, e, ClaimsOf(e).value.challenge);
      } else {
        match e
        case RegisterEvent(r) => RegisterShape(db, r);
        case RemoveEvent(r) => RemoveShape(db, r);
        case ChangeEvent(r) => ChangeShape(db, r);
        case FinalizeEvent(r) => FinalizeShape(db, r);
      }
    }
  }

  lemma OperatorChallenges(db: Db, e: Event)
    ensures Committed(db, Operator(db, e)).challenges == db.challenges
  {
  }

  lemma ExecuteChallenges(db: Db, x: Call)
    requires Inv(db)
    ensures Execute(db, x).0.challenges == db.challenges
  {
    ExecuteShape(db, x);
    if ApplyAction(db, x).Mutated? { ApplyShape(db, x); }
    OutcomeChallenges(db, x, ExecutingRow(db, x), Execute(db, x).0, Execute(db, x).1);
  }

  lemma OutcomeChallenges(db: Db, x: Call, row: StoredOperation, b: Db, answer: Answer)
    requires ValidRing(db.protector) && Outcomes(db, x, row, b, answer)
    requires ApplyAction(db, x).Mutated? ==> ApplyAction(db, x).db.challenges == db.challenges
    ensures b.challenges == db.challenges
  {
  }

  /** Challenges an event may add or confirm. */
  ghost function TouchedBy(e: Event): set<Uuid> {
    match e
    case IssueEvent(id, _, _, _) => {id}
    case VerifyEvent(id, _) => {id}
    case _ => {}
  }

  lemma AroundChallenges(db: Db, e: Event)
    requires Inv(db)
    ensures ChallengesMove(db.challenges, Around(db, e).challenges, TouchedBy(e))
  {
  }

  lemma ChallengeStep(db: Db, e: Event)
    requires Inv(db)
    ensures ChallengesMove(db.challenges, Apply(db, e).challenges, SpentBy(db, e) + TouchedBy(e))
  {
    if IsSelfService(e) { SelfServiceChallenges(db, e); }
    else if IsOperator(e) { OperatorChallenges(db, e); }
    else if IsAccess(e) { AccessIsLocal(db, e); }
    else if e.ExecuteEvent? { ExecuteChallenges(db, e.call); }
    else { AroundChallenges(db, e); }
  }

  lemma CandidatesKept(a: Db, b: Db, kind: Kind, login: Login, c: Candidate)
    requires ValidLookup(a.lookup) && ValidLookup(b.lookup) && KeysKept(a.lookup, b.lookup)
    requires c in Candidates(a.lookup, kind, login)
    ensures c in Candidates(b.lookup, kind, login)
  {
  }

  lemma UnusedRowSame(db: Db, e: Event, c: Uuid)
    requires Inv(db) && c in db.challenges && db.challenges[c].consumedAt.Some? && !Backs(db, e, c)
    requires c in Apply(db, e).challenges
    ensures Apply(db, e).challenges[c] == db.challenges[c]
  {
    ChallengeStep(db, e);
    if c in TouchedBy(e) { TouchedKeeps(db, e, c); }
  }

  lemma AvailableCarries(a: Db, b: Db, claims: Claims)
    requires ValidLookup(a.lookup) && ValidLookup(b.lookup) && KeysKept(a.lookup, b.lookup) && ReceiptAvailable(a, claims)
    requires claims.challenge in b.challenges && b.challenges[claims.challenge] == a.challenges[claims.challenge]
    ensures ReceiptAvailable(b, claims)
  {
    var c := a.challenges[claims.challenge];
    CandidatesKept(a, b, claims.kind, claims.login, Candidate(c.keyId, c.hmac));
  }

  /** A step that does not commit on it, failed or unrelated, leaves a receipt available as long as its
      challenge is not deleted. */
  lemma UnusedReceiptStays(db: Db, e: Event, claims: Claims)
    requires Inv(db) && ReceiptAvailable(db, claims) && !Backs(db, e, claims.challenge)
    requires claims.challenge in Apply(db, e).challenges
    ensures RingsOk(Apply(db, e)) && ReceiptAvailable(Apply(db, e), claims)
  {
    ApplyKeepsRings(db, e);
    UnusedRowSame(db, e, claims.challenge);
    AvailableCarries(db, Apply(db, e), claims);
  }

  lemma TouchedKeeps(db: Db, e: Event, c: Uuid)
    requires Inv(db) && c in db.challenges && db.challenges[c].consumedAt.Some? && c in TouchedBy(e)
    ensures Apply(db, e) == db
  {
  }

  // ---------- a receipt is good for what it was issued for ----------

  ghost predicate IssuedAs(db: Db, c: Uuid, e: Event) {
    && c in db.challenges
    && var row := db.challenges[c];
    && e.IssueEvent? && e.id == c && e.purpose == row.purpose && e.kind == row.kind
    && row.keyId in db.lookup.keys && row.hmac == db.lookup.keys[row.keyId](row.kind, e.target)
  }

  lemma IssueIsOrigin(db: Db, id: Uuid, purpose: Purpose, kind: Kind, login: Login)
    requires Inv(db) && id !in db.challenges && id in Issue(db, id, purpose, kind, login).challenges
    ensures IssuedAs(Issue(db, id, purpose, kind, login), id, IssueEvent(id, purpose, kind, login))
  {
    assert db.lookup.active in db.lookup.order;
  }

  lemma NewChallengeIsIssue(db: Db, e: Event, c: Uuid)
    requires Inv(db) && c !in db.challenges && c in Apply(db, e).challenges
    ensures IssuedAs(Apply(db, e), c, e)
  {
    ChallengeStep(db, e);
    if e.IssueEvent? {
      IssueIsOrigin(db, e.id, e.purpose, e.kind, e.target);
    } else if ClaimsOf(e).Some? && Backs(db, e, ClaimsOf(e).value.challenge) {
      BackedStep(db, e, ClaimsOf(e).value.challenge);
    }
  }

  lemma OriginStays(a: Db, b: Db, again: set<Uuid>, replayed: set<Uuid>, c: Uuid, e: Event)
    requires Inv(a) && Extends(a, b, again, replayed) && IssuedAs(a, c, e) && c in b.challenges
    ensures IssuedAs(b, c, e)
  {
  }

  /** Every stored challenge goes back to the event that issued it. */
  lemma {:induction false} ChallengeOrigin(trace: seq<Db>, events: seq<Event>, j: nat, c: Uuid) returns (i: nat)
    requires IsRun(trace, events) && j <= |events| && c in trace[j].challenges
    ensures i < j && IssuedAs(trace[j], c, events[i])
    decreases j
  {
    RunInv(trace, events, j - 1);
    if c in trace[j - 1].challenges {
      i := ChallengeOrigin(trace, events, j - 1, c);
      NextExtends(trace, events, j - 1);
      OriginStays(trace[j - 1], trace[j], AgainSteps(trace, events)[j - 1], ReplaySteps(trace, events)[j - 1], c, events[i]);
    } else {
      RunApply(trace, events, j - 1);
      NewChallengeIsIssue(trace[j - 1], events[j - 1], c);
      i := j - 1;
    }
  }

  /** The login a challenge was sent to, up to a collision of the digest it is stored under. */
  ghost predicate SameOrColliding(keys: map<KeyId, LookupKey>, kind: Kind, l: Login, m: Login) {
    l == m || exists k :: k in keys && keys[k](kind, l) == keys[k](kind, m)
  }

  /** The step a challenge backs has the purpose, the kind and the login the challenge was issued for. */
  lemma EffectMatchesIssue(trace: seq<Db>, events: seq<Event>, j: nat, c: Uuid) returns (i: nat)
    requires IsRun(trace, events) && j < |events| && Backs(trace[j], events[j], c)
    ensures i < j && events[i].IssueEvent? && events[i].id == c
    ensures events[i].purpose == PurposeOf(events[j]) && events[i].kind == ClaimsOf(events[j]).value.kind
    ensures SameOrColliding(trace[j].lookup.keys, events[i].kind, events[i].target, ClaimsOf(events[j]).value.login)
  {
    var db := trace[j];
    RunInv(trace, events, j);
    BackedStep(db, events[j], c);
    i := ChallengeOrigin(trace, events, j, c);
    var k := db.challenges[c].keyId;
    assert k in db.lookup.keys;
  }
}
