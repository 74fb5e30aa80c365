/** The organization publication pipeline: submit, withdraw, reject and approve, each one
    transaction.  Approving a submission whose base is no longer the head commits a
    `superseded` outcome and answers with an error.  Every load, and every approval, canonicalizes
    the stored content again and compares digests. */
module OrganizationSteps {
  import opened Common
  import opened Bytes
  import opened SubmissionPackage
  import Manifest

  type Digest = nat

  datatype Failure =
    | InvalidRepositoryCommand | ServiceUnavailable | AgentNotFound | AgentForbidden | OrganizationArchived
    | SubmissionConflict | IdempotencyConflict | DlpBlocked | PolicyBlocked | InvalidAgentContent

  datatype Status = Pending | Approved | Rejected | Withdrawn | Superseded

  datatype Definition = Definition(organization: Uuid, displayName: seq<Byte>, latest: Uuid)
  datatype Version = Version(
    organization: Uuid, definition: Uuid, number: nat, content: Manifest.Canonical, submission: Uuid)
  datatype Submission = Submission(
    organization: Uuid, stored: Stored, submitter: Uuid, submittedAt: Time,
    status: Status, revision: nat, terminalAt: Option<Time>)
  datatype Decision = Approve | Reject
  datatype Review = Review(
    id: Uuid, reviewer: Uuid, decision: Decision, reason: string, note: string,
    content: seq<Byte>, reviewedAt: Time)                              // `content` is the reviewed content digest

  datatype Operation = SubmitAgent | WithdrawAgent | ReviewAgent
  datatype Evidence = Evidence(key: Digest, request: Digest)
  datatype IdempotencyRow = IdempotencyRow(request: Digest, submission: Uuid)

  datatype Role = Owner | Admin | Auditor | Member
  datatype OrganizationStatus = Active | Archived
  /** Memberships, accounts and policy: read by the steps, changed by others. */
  datatype Surroundings = Surroundings(
    organizations: map<Uuid, OrganizationStatus>, roles: map<(Uuid, Uuid), Role>, activeUsers: set<Uuid>,
    blocked: set<(Uuid, Manifest.Manifest)>, archivedDefinitions: set<Uuid>)

  /** The tables, and the content rules the deployment runs with. */
  datatype Db = Db(
    rules: Rules,
    around: Surroundings,
    definitions: map<Uuid, Definition>,
    versions: map<Uuid, Version>,
    submissions: map<Uuid, Submission>,
    reviews: map<Uuid, Review>,                                        // by submission
    idempotency: map<(Uuid, Operation, Digest), IdempotencyRow>)       // by organization

  function Empty(rules: Rules): Db {
    Db(rules, Surroundings(map[], map[], {}, {}, {}), map[], map[], map[], map[], map[])
  }

  datatype SubmitCommand = SubmitCommand(
    wellFormed: bool, submission: Uuid, organization: Uuid, actor: Uuid, canonical: Sealed,
    evidence: Evidence, at: Time)
  datatype WithdrawCommand = WithdrawCommand(
    wellFormed: bool, submission: Uuid, organization: Uuid, actor: Uuid, expectedRevision: int,
    evidence: Evidence, at: Time)
  datatype Material = Material(id: Uuid, number: nat, content: Manifest.Canonical)
  datatype ReviewCommand = ReviewCommand(
    wellFormed: bool, review: Uuid, submission: Uuid, organization: Uuid, actor: Uuid, expectedRevision: int,
    decision: Decision, reason: string, note: string, built: Outcome<Material, Failure>,
    evidence: Evidence, at: Time)

  datatype View = View(
    id: Uuid, row: Submission, package: Package, published: set<Uuid>, review: Option<Review>, replayed: bool)
  /** A committed answer: the submission, or the superseded error carrying it. */
  datatype Answer = Answered(view: View) | SupersededError(view: View)

  // ---------- reading ----------

  function PublishedVersions(db: Db, s: Uuid): set<Uuid>
    requires s in db.submissions
  {
    set v | v in db.versions && db.versions[v].submission == s
            && db.versions[v].organization == db.submissions[s].organization
  }

  predicate ValidState(row: Submission, published: set<Uuid>) {
    && (match row.stored.kind
        case Initial => row.stored.base == NIL && row.stored.name != []
        case Next => row.stored.base != NIL && row.stored.name == [] && row.stored.iconType == [] && row.stored.icon == []
        case UnknownKind => false)
    && match row.status
       case Pending => published == {} && row.terminalAt.None? && row.revision == 1
       case Approved => published != {} && row.terminalAt.Some? && row.revision >= 2
       case Rejected => published == {} && row.terminalAt.Some? && row.revision >= 2
       case Withdrawn => published == {} && row.terminalAt.Some? && row.revision >= 2
       case Superseded => published == {} && row.terminalAt.Some? && row.revision >= 2
  }

  /** Reading a submission: its content is decoded, canonicalized and compared with the digests on record, its
      state validated, and its review held against the content digest. */
  function Load(db: Db, organization: Uuid, s: Uuid): Outcome<View, Failure> {
    if s !in db.submissions || db.submissions[s].organization != organization then Err(AgentNotFound)
    else
      var row := db.submissions[s];
      var reloaded := Reload(db.rules, row.stored);
      if reloaded.Err? || !ValidState(row, PublishedVersions(db, s)) then Err(ServiceUnavailable)
      else if s in db.reviews && db.reviews[s].content != row.stored.digests.content then Err(ServiceUnavailable)
      else Ok(View(s, row, reloaded.value.package, PublishedVersions(db, s),
                   if s in db.reviews then Some(db.reviews[s]) else None, false))
  }

  predicate MayPublish(role: Role) { role.Owner? || role.Admin? }

  /** Publishing and reviewing both ask for an active account that owns or administers an active organization. */
  function RequireAccess(db: Db, organization: Uuid, user: Uuid): Check<Failure> {
    if || organization == NIL || user == NIL || organization !in db.around.organizations
       || (organization, user) !in db.around.roles || user !in db.around.activeUsers then Fail(AgentNotFound)
    else if db.around.organizations[organization].Archived? then Fail(OrganizationArchived)
    else Need(MayPublish(db.around.roles[(organization, user)]), AgentForbidden)
  }

  function RequirePublisher(db: Db, organization: Uuid, user: Uuid): Check<Failure> {
    Need(&& user in db.around.activeUsers && (organization, user) in db.around.roles
         && MayPublish(db.around.roles[(organization, user)]), AgentForbidden)
  }

  function Lookup(db: Db, organization: Uuid, operation: Operation, evidence: Evidence)
    : Outcome<Option<Uuid>, Failure>
  {
    var k := (organization, operation, evidence.key);
    if k !in db.idempotency then Ok(None)
    else if db.idempotency[k].request != evidence.request then Err(IdempotencyConflict)
    else Ok(Some(db.idempotency[k].submission))
  }

  function Remember(db: Db, organization: Uuid, operation: Operation, evidence: Evidence, s: Uuid): Db {
    db.(idempotency := db.idempotency[(organization, operation, evidence.key) := IdempotencyRow(evidence.request, s)])
  }

  // ---------- submit and withdraw ----------

  predicate DefinitionIdUsed(db: Db, definition: Uuid) {
    || definition in db.definitions
    || exists s :: s in db.submissions && db.submissions[s].stored.definition == definition
  }

  function RequireTarget(db: Db, c: SubmitCommand): Check<Failure> {
    var p := c.canonical.package;
    match p.kind
    case Initial => Need(!DefinitionIdUsed(db, p.definition), SubmissionConflict)
    case Next =>
      if || p.definition !in db.definitions || db.definitions[p.definition].organization != c.organization
         || p.definition in db.around.archivedDefinitions then Fail(AgentNotFound)
      else if db.definitions[p.definition].latest == NIL then Fail(ServiceUnavailable)
      else Need(db.definitions[p.definition].latest == p.base, SubmissionConflict)
    case UnknownKind => Fail(InvalidRepositoryCommand)
  }

  /** Submitting demands a package that canonicalizes to itself and that the scan finds nothing in. */
  predicate ValidSubmit(db: Db, c: SubmitCommand) {
    && c.wellFormed && c.submission != NIL && c.organization != NIL
    && SelfCanonical(db.rules, c.canonical) && db.rules.scan(c.canonical.package.files)
  }

  function SubmittedRow(c: SubmitCommand, stored: Stored): Submission {
    Submission(c.organization, stored, c.actor, c.at, Pending, 1, None)
  }

  function Submit(db: Db, c: SubmitCommand): Outcome<(Db, Answer), Failure> {
    if !ValidSubmit(db, c) then Err(InvalidRepositoryCommand) else
    :- RequireAccess(db, c.organization, c.actor);
    var replay :- Lookup(db, c.organization, SubmitAgent, c.evidence);
    if replay.Some? then
      var view :- Load(db, c.organization, replay.value);
      Ok((db, Answered(view.(replayed := true))))
    else
      :- Need((c.organization, c.canonical.package.manifest) !in db.around.blocked, PolicyBlocked);
      :- RequireTarget(db, c);
      var stored := Columns(db.rules, c.canonical);
      :- Need(stored.Ok?, InvalidRepositoryCommand);
      :- Need(c.submission !in db.submissions, ServiceUnavailable);
      var db1 := db.(submissions := db.submissions[c.submission := SubmittedRow(c, stored.value)]);
      var db2 := Remember(db1, c.organization, SubmitAgent, c.evidence, c.submission);
      var view :- Load(db2, c.organization, c.submission);
      Ok((db2, Answered(view)))
  }

  function Terminal(row: Submission, status: Status, at: Time): Submission {
    row.(status := status, revision := row.revision + 1, terminalAt := Some(at))
  }

  /** UPDATE … WHERE revision = expected AND status = 'pending'. */
  function Transition(db: Db, organization: Uuid, id: Uuid, expected: int, status: Status, at: Time): Outcome<Db, Failure> {
    if || id !in db.submissions || db.submissions[id].organization != organization
       || !db.submissions[id].status.Pending? || db.submissions[id].revision != expected then Err(SubmissionConflict)
    else if at < db.submissions[id].submittedAt then Err(ServiceUnavailable)
    else Ok(db.(submissions := db.submissions[id := Terminal(db.submissions[id], status, at)]))
  }

  function Withdraw(db: Db, c: WithdrawCommand): Outcome<(Db, Answer), Failure> {
    if !(c.wellFormed && c.organization != NIL && c.submission != NIL && c.expectedRevision > 0) then Err(InvalidRepositoryCommand) else
    :- RequireAccess(db, c.organization, c.actor);
    var replay :- Lookup(db, c.organization, WithdrawAgent, c.evidence);
    if replay.Some? then
      var view :- Load(db, c.organization, replay.value);
      Ok((db, Answered(view.(replayed := true))))
    else
      var current :- Load(db, c.organization, c.submission);
      :- Need(current.row.status.Pending? && current.row.revision == c.expectedRevision, SubmissionConflict);
      :- Need(current.row.submitter == c.actor, AgentForbidden);
      var db1 :- Transition(db, c.organization, c.submission, c.expectedRevision, Withdrawn, c.at);
      var db2 := Remember(db1, c.organization, WithdrawAgent, c.evidence, c.submission);
      var view :- Load(db2, c.organization, c.submission);
      Ok((db2, Answered(view)))
  }

  // ---------- review ----------

  predicate ReviewIdTaken(db: Db, id: Uuid) {
    exists s :: s in db.reviews && db.reviews[s].id == id
  }

  predicate ValidReview(c: ReviewCommand) {
    && c.wellFormed && c.review != NIL && c.organization != NIL && c.submission != NIL && c.expectedRevision > 0
    && (c.decision.Approve? ==> c.reason == "" && c.note == "")
  }

  function RejectStep(db: Db, c: ReviewCommand): Outcome<(Db, Answer), Failure> {
    if !(ValidReview(c)) then Err(InvalidRepositoryCommand) else
    :- RequireAccess(db, c.organization, c.actor);
    var replay :- Lookup(db, c.organization, ReviewAgent, c.evidence);
    if replay.Some? then
      var view :- Load(db, c.organization, replay.value);
      Ok((db, Answered(view.(replayed := true))))
    else
      var current :- Load(db, c.organization, c.submission);
      :- Need(current.row.status.Pending? && current.row.revision == c.expectedRevision, SubmissionConflict);
      :- Need(c.submission !in db.reviews && !ReviewIdTaken(db, c.review), ServiceUnavailable);
      var db1 := db.(reviews := db.reviews[c.submission :=
                       Review(c.review, c.actor, Reject, c.reason, c.note, current.row.stored.digests.content, c.at)]);
      var db2 :- Transition(db1, c.organization, c.submission, c.expectedRevision, Rejected, c.at);
      var db3 := Remember(db2, c.organization, ReviewAgent, c.evidence, c.submission);
      var view :- Load(db3, c.organization, c.submission);
      Ok((db3, Answered(view)))
  }

  /** The head of an active definition of this organization, with its number. */
  function LockDefinition(db: Db, organization: Uuid, definition: Uuid): Outcome<(Uuid, nat), Failure> {
    if || definition !in db.definitions || db.definitions[definition].organization != organization
       || definition in db.around.archivedDefinitions || db.definitions[definition].latest !in db.versions
       || db.versions[db.definitions[definition].latest].organization != organization then Err(AgentNotFound)
    else
      var latest := db.definitions[definition].latest;
      if latest == NIL || db.versions[latest].number == 0 then Err(ServiceUnavailable)
      else Ok((latest, db.versions[latest].number))
  }

  /** What an approval is to do: publish under a number, or find itself superseded. */
  datatype Plan = PublishAs(number: nat) | Stale

  function PlanApproval(db: Db, organization: Uuid, row: Submission): Outcome<Plan, Failure> {
    if row.stored.kind.Initial? then
      if row.stored.definition in db.definitions then Err(SubmissionConflict) else Ok(PublishAs(1))
    else
      var head :- LockDefinition(db, organization, row.stored.definition);
      Ok(if head.0 != row.stored.base then Stale else PublishAs(head.1 + 1))
  }

  /** Definition, version, head, review and status of an approval; the built version must hold the canonical content. */
  function Publish(db: Db, id: Uuid, row: Submission, sealed: Sealed, number: nat, c: ReviewCommand): Outcome<Db, Failure>
    requires !row.stored.kind.Initial? ==> row.stored.definition in db.definitions
  {
    var material :- c.built;
    var expected := db.rules.version(sealed.package.manifest, sealed.package.files);
    :- Need(expected.Ok? && material.id != NIL && material.number == number && material.content == expected.value,
            InvalidRepositoryCommand);
    :- Need(material.id !in db.versions, ServiceUnavailable);
    var definition := row.stored.definition;
    var name := if row.stored.kind.Initial? then row.stored.name else db.definitions[definition].displayName;
    var db1 := db.(versions := db.versions[material.id :=
                     Version(row.organization, definition, number, material.content, id)],
                   definitions := db.definitions[definition := Definition(row.organization, name, material.id)]);
    :- Need(id !in db.reviews && !ReviewIdTaken(db, c.review), ServiceUnavailable);
    var db2 := db1.(reviews := db1.reviews[id := Review(c.review, c.actor, Approve, "", "", sealed.digests.content, c.at)]);
    Transition(db2, row.organization, id, c.expectedRevision, Approved, c.at)
  }

  function ApproveStep(db: Db, c: ReviewCommand): Outcome<(Db, Answer), Failure> {
    if !(ValidReview(c)) then Err(InvalidRepositoryCommand) else
    :- RequireAccess(db, c.organization, c.actor);
    var replay :- Lookup(db, c.organization, ReviewAgent, c.evidence);
    if replay.Some? then
      var view :- Load(db, c.organization, replay.value);
      var again := view.(replayed := true);
      Ok((db, if again.row.status.Superseded? then SupersededError(again) else Answered(again)))
    else
      var current :- Load(db, c.organization, c.submission);
      var row := current.row;
      :- Need(row.status.Pending? && row.revision == c.expectedRevision, SubmissionConflict);
      :- RequirePublisher(db, c.organization, row.submitter);
      var sealed := Recanonicalize(db.rules, current.package, row.stored.digests);
      :- Need(sealed.Ok?, InvalidAgentContent);
      :- Need(db.rules.scan(sealed.value.package.files), DlpBlocked);
      :- Need((c.organization, sealed.value.package.manifest) !in db.around.blocked, PolicyBlocked);
      var plan :- PlanApproval(db, c.organization, row);
      var db1 :- if plan.Stale?
                 then Transition(db, c.organization, c.submission, c.expectedRevision, Superseded, c.at)
                 else Publish(db, c.submission, row, sealed.value, plan.number, c);
      var db2 := Remember(db1, c.organization, ReviewAgent, c.evidence, c.submission);
      var view :- Load(db2, c.organization, c.submission);
      Ok((db2, if plan.Stale? then SupersededError(view) else Answered(view)))
  }

  function ReviewStep(db: Db, c: ReviewCommand): Outcome<(Db, Answer), Failure> {
    if c.decision.Approve? then ApproveStep(db, c) else RejectStep(db, c)
  }

  // ---------- runs ----------

  datatype Event =
    | SubmitEvent(submit: SubmitCommand)
    | WithdrawEvent(withdraw: WithdrawCommand)
    | ReviewEvent(review: ReviewCommand)
    | SurroundingsEvent(around: Surroundings)

  function Committed(db: Db, outcome: Outcome<(Db, Answer), Failure>): Db {
    if outcome.Ok? then outcome.value.0 else db
  }

  function Apply(db: Db, e: Event): Db {
    match e
    case SubmitEvent(c) => Committed(db, Submit(db, c))
    case WithdrawEvent(c) => Committed(db, Withdraw(db, c))
    case ReviewEvent(c) => Committed(db, ReviewStep(db, c))
    case SurroundingsEvent(around) => db.(around := around)
  }

  function Run(db: Db, events: seq<Event>): Db {
    if events == [] then db else Apply(Run(db, events[..|events| - 1]), events[|events| - 1])
  }
}
