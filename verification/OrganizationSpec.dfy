/** What the organization steps ask of the rows they find, and what they leave: an account that names none of the
    functions that carry them out. */
module OrganizationSpec {
  import opened Common
  import opened Bytes
  import opened SubmissionPackage
  import opened OrganizationSteps
  import opened OrganizationProofs

  ghost predicate NewKey(db: Db, organization: Uuid, operation: Operation, evidence: Evidence) {
    (organization, operation, evidence.key) !in db.idempotency
  }

  // ---------- who may act ----------

  /** An active account that owns or administers the organization. */
  ghost predicate Publisher(db: Db, organization: Uuid, user: Uuid) {
    && user in db.around.activeUsers && (organization, user) in db.around.roles
    && (db.around.roles[(organization, user)] == Owner || db.around.roles[(organization, user)] == Admin)
  }

  /** And the organization is there and active. */
  ghost predicate MayAct(db: Db, organization: Uuid, user: Uuid) {
    && organization != NIL && user != NIL && Publisher(db, organization, user)
    && organization in db.around.organizations && db.around.organizations[organization] == Active
  }

  lemma ActsIff(db: Db, organization: Uuid, user: Uuid)
    ensures RequireAccess(db, organization, user) == Pass <==> MayAct(db, organization, user)
    ensures RequirePublisher(db, organization, user) == Pass <==> Publisher(db, organization, user)
  {
  }

  // ---------- submitting ----------

  /** An initial submission takes an unused definition, any other stands on the head of an active one. */
  ghost predicate MayTarget(db: Db, organization: Uuid, p: Package) {
    || (&& p.kind == Initial && p.definition !in db.definitions
        && forall s :: s in db.submissions ==> db.submissions[s].stored.definition != p.definition)
    || (&& p.kind == Next && p.definition in db.definitions && db.definitions[p.definition].organization == organization
        && p.definition !in db.around.archivedDefinitions && db.definitions[p.definition].latest == p.base)
  }

  ghost predicate Headed(p: Package) {
    || (p.kind == Initial && p.base == NIL && p.name != [])
    || (p.kind == Next && p.base != NIL && p.name == [] && p.iconType == [] && p.icon == [])
  }

  /** What submitting asks for besides the content. */
  ghost predicate MayTake(db: Db, c: SubmitCommand) {
    && c.wellFormed && c.submission != NIL && MayAct(db, c.organization, c.actor)
    && (c.organization, c.canonical.package.manifest) !in db.around.blocked
    && MayTarget(db, c.organization, c.canonical.package) && c.submission !in db.submissions
  }

  ghost predicate MaySubmit(db: Db, c: SubmitCommand) {
    && MayTake(db, c) && Headed(c.canonical.package)
    && Canonicalize(db.rules, c.canonical.package) == Ok(c.canonical) && db.rules.scan(c.canonical.package.files)
  }

  /** A pending submission by the actor, of exactly the package of the command. */
  ghost predicate SubmittedAs(db: Db, b: Db, c: SubmitCommand) {
    && c.submission in b.submissions && b.submissions == db.submissions[c.submission := b.submissions[c.submission]]
    && b == db.(submissions := b.submissions, idempotency := b.idempotency)
    && var row := b.submissions[c.submission];
    && PackageOf(row.stored) == c.canonical.package && row.stored.digests == c.canonical.digests
    && row == Submission(c.organization, row.stored, c.actor, c.at, Pending, 1, None)
  }

  lemma TargetsIff(db: Db, c: SubmitCommand)
    requires Inv(db)
    ensures RequireTarget(db, c) == Pass <==> MayTarget(db, c.organization, c.canonical.package)
  {
    var p := c.canonical.package;
    if p.definition in db.definitions { assert DefinitionOk(db, p.definition); }
  }

  lemma NothingPublished(db: Db, b: Db, s: Uuid)
    requires Inv(db) && s !in db.submissions && s in b.submissions && b.versions == db.versions
    ensures PublishedVersions(b, s) == {}
  {
    forall v | v in b.versions ensures b.versions[v].submission != s { assert VersionOk(db, v); }
  }

  ghost function SubmittedDb(db: Db, c: SubmitCommand, stored: Stored): Db {
    Remember(db.(submissions := db.submissions[c.submission := SubmittedRow(c, stored)]),
             c.organization, SubmitAgent, c.evidence, c.submission)
  }

  lemma SubmittedLoads(db: Db, c: SubmitCommand, stored: Stored)
    requires Inv(db) && c.submission !in db.submissions && Intact(db.rules, stored)
    ensures Load(SubmittedDb(db, c, stored), c.organization, c.submission).Ok? <==> Headed(PackageOf(stored))
  {
    IntactReloads(db.rules, stored);
    NothingPublished(db, SubmittedDb(db, c, stored), c.submission);
    assert c.submission !in db.reviews;
  }

  lemma SubmitAcceptsAt(db: Db, c: SubmitCommand)
    requires Inv(db) && NewKey(db, c.organization, SubmitAgent, c.evidence)
    ensures Submit(db, c).Ok? <==> MaySubmit(db, c)
  {
    ActsIff(db, c.organization, c.actor);
    TargetsIff(db, c);
    if SelfCanonical(db.rules, c.canonical) {
      SelfCanonicalIsIntact(db.rules, c.canonical);
      if c.submission !in db.submissions { SubmittedLoads(db, c, Columns(db.rules, c.canonical).value); }
    }
  }

  /** A package is submitted exactly where it may be. */
  lemma SubmitDoes(db: Db, c: SubmitCommand)
    requires Inv(db) && NewKey(db, c.organization, SubmitAgent, c.evidence)
    ensures Submit(db, c).Ok? <==> MaySubmit(db, c)
    ensures Submit(db, c).Ok? ==> SubmittedAs(db, Submit(db, c).value.0, c)
  {
    SubmitAcceptsAt(db, c);
    if Submit(db, c).Ok? {
      SubmitShape(db, c);
      SelfCanonicalIsIntact(db.rules, c.canonical);
    }
  }

  // ---------- pending submissions ----------

  /** The submission is this organization's, pending, and at the revision the caller saw. */
  ghost predicate IsPending(db: Db, organization: Uuid, s: Uuid, expected: int, at: Time) {
    && s in db.submissions && db.submissions[s].organization == organization && db.submissions[s].status == Pending
    && db.submissions[s].revision == expected && at >= db.submissions[s].submittedAt
  }

  ghost predicate ClosedAs(db: Db, b: Db, s: Uuid, status: Status, at: Time) {
    s in db.submissions && b.submissions == db.submissions[s := db.submissions[s].(status := status, revision := 2, terminalAt := Some(at))]
  }

  lemma RowLoads(db: Db, s: Uuid)
    requires Inv(db) && s in db.submissions
    ensures Load(db, db.submissions[s].organization, s).Ok?
    ensures var view := Load(db, db.submissions[s].organization, s).value;
            view.row == db.submissions[s] && view.package == PackageOf(db.submissions[s].stored)
    ensures Recanonicalize(db.rules, PackageOf(db.submissions[s].stored), db.submissions[s].stored.digests)
            == Ok(Sealed(PackageOf(db.submissions[s].stored), db.submissions[s].stored.digests))
    ensures db.submissions[s].status.Pending? ==> db.submissions[s].revision == 1 && s !in db.reviews
  {
    assert SubmissionOk(db, s);
    IntactReloads(db.rules, db.submissions[s].stored);
  }

  /** A row that was pending, closed without a version, loads. */
  lemma ClosedLoads(db: Db, b: Db, s: Uuid, status: Status, at: Time)
    requires Inv(db) && s in db.submissions && db.submissions[s].status.Pending? && b.rules == db.rules && b.versions == db.versions
    requires status.Withdrawn? || status.Rejected? || status.Superseded?
    requires b.submissions == db.submissions[s := Terminal(db.submissions[s], status, at)]
    requires s in b.reviews ==> b.reviews[s].content == db.submissions[s].stored.digests.content
    ensures Load(b, db.submissions[s].organization, s).Ok? && ClosedAs(db, b, s, status, at)
  {
    RowLoads(db, s);
    assert SubmissionOk(db, s);
    assert PublishedVersions(b, s) == PublishedVersions(db, s);
  }

  ghost predicate MayWithdraw(db: Db, c: WithdrawCommand) {
    && c.wellFormed && c.submission != NIL && c.expectedRevision > 0 && MayAct(db, c.organization, c.actor)
    && IsPending(db, c.organization, c.submission, c.expectedRevision, c.at) && db.submissions[c.submission].submitter == c.actor
  }

  /** A submission is withdrawn exactly while pending, by its submitter. */
  lemma WithdrawDoes(db: Db, c: WithdrawCommand)
    requires Inv(db) && NewKey(db, c.organization, WithdrawAgent, c.evidence)
    ensures Withdraw(db, c).Ok? <==> MayWithdraw(db, c)
    ensures Withdraw(db, c).Ok? ==>
              var b := Withdraw(db, c).value.0;
              ClosedAs(db, b, c.submission, Withdrawn, c.at) && b == db.(submissions := b.submissions, idempotency := b.idempotency)
  {
    ActsIff(db, c.organization, c.actor);
    if c.submission in db.submissions {
      RowLoads(db, c.submission);
      if MayWithdraw(db, c) {
        var b := Remember(db.(submissions := db.submissions[c.submission := Terminal(db.submissions[c.submission], Withdrawn, c.at)]),
                          c.organization, WithdrawAgent, c.evidence, c.submission);
        ClosedLoads(db, b, c.submission, Withdrawn, c.at);
      }
    }
  }

  // ---------- rejecting ----------

  ghost predicate Reviewing(c: ReviewCommand) {
    && c.wellFormed && c.review != NIL && c.organization != NIL && c.submission != NIL && c.expectedRevision >= 1
    && (c.decision.Approve? ==> c.reason == "" && c.note == "")
  }

  ghost predicate UnusedReview(db: Db, id: Uuid) { forall s :: s in db.reviews ==> db.reviews[s].id != id }

  ghost predicate MayReject(db: Db, c: ReviewCommand) {
    && Reviewing(c) && MayAct(db, c.organization, c.actor) && UnusedReview(db, c.review)
    && IsPending(db, c.organization, c.submission, c.expectedRevision, c.at)
  }

  ghost function RejectedDb(db: Db, c: ReviewCommand): Db
    requires c.submission in db.submissions
  {
    var row := db.submissions[c.submission];
    Remember(db.(reviews := db.reviews[c.submission :=
                   Review(c.review, c.actor, Reject, c.reason, c.note, row.stored.digests.content, c.at)],
                 submissions := db.submissions[c.submission := Terminal(row, Rejected, c.at)]),
             c.organization, ReviewAgent, c.evidence, c.submission)
  }

  /** A rejection is accepted exactly where it may be, and records the review. */
  lemma RejectDoes(db: Db, c: ReviewCommand)
    requires Inv(db) && NewKey(db, c.organization, ReviewAgent, c.evidence)
    ensures RejectStep(db, c).Ok? <==> MayReject(db, c)
    ensures RejectStep(db, c).Ok? ==>
              var b := RejectStep(db, c).value.0;
              && ClosedAs(db, b, c.submission, Rejected, c.at)
              && b.reviews == db.reviews[c.submission := Review(c.review, c.actor, Reject, c.reason, c.note,
                                                                db.submissions[c.submission].stored.digests.content, c.at)]
              && b == db.(submissions := b.submissions, reviews := b.reviews, idempotency := b.idempotency)
  {
    ActsIff(db, c.organization, c.actor);
    if c.submission in db.submissions {
      RowLoads(db, c.submission);
      if MayReject(db, c) {
        ClosedLoads(db, RejectedDb(db, c), c.submission, Rejected, c.at);
        assert RejectStep(db, c).Ok? && RejectStep(db, c).value.0 == RejectedDb(db, c);
      }
    }
  }

  // ---------- approving ----------

  /** What an approval asks for before it looks at the definition. */
  ghost predicate MayDecide(db: Db, c: ReviewCommand) {
    && Reviewing(c) && MayAct(db, c.organization, c.actor)
    && IsPending(db, c.organization, c.submission, c.expectedRevision, c.at)
    && var row := db.submissions[c.submission];
    && Publisher(db, c.organization, row.submitter) && db.rules.scan(PackageOf(row.stored).files)
    && (c.organization, PackageOf(row.stored).manifest) !in db.around.blocked
  }

  ghost predicate ActiveDefinition(db: Db, organization: Uuid, definition: Uuid) {
    && definition in db.definitions && db.definitions[definition].organization == organization
    && definition !in db.around.archivedDefinitions
  }

  /** A `next` submission of an active definition whose head has moved past its base. */
  ghost predicate BaseMoved(db: Db, c: ReviewCommand)
    requires c.submission in db.submissions
  {
    var st := db.submissions[c.submission].stored;
    st.kind == Next && ActiveDefinition(db, c.organization, st.definition) && db.definitions[st.definition].latest != st.base
  }

  /** The number a publication gets: 1 for a free initial definition, one more than the head it is based on. */
  ghost function NumberFor(db: Db, c: ReviewCommand): Option<nat>
    requires c.submission in db.submissions
  {
    var st := db.submissions[c.submission].stored;
    if st.kind == Initial && st.definition !in db.definitions then Some(1)
    else if st.kind == Next && ActiveDefinition(db, c.organization, st.definition) && db.definitions[st.definition].latest == st.base
            && st.base in db.versions
    then Some(db.versions[st.base].number + 1)
    else None
  }

  ghost predicate MayPublish(db: Db, c: ReviewCommand)
    requires c.submission in db.submissions
  {
    && NumberFor(db, c).Some? && UnusedReview(db, c.review)
    && c.built.Ok? && c.built.value.id != NIL && c.built.value.id !in db.versions
    && c.built.value.number == NumberFor(db, c).value && c.built.value.content == db.submissions[c.submission].stored.content
  }

  /** The version built from the submission's content is written under its number and is the new head. */
  ghost predicate PublishedAs(db: Db, b: Db, c: ReviewCommand)
    requires c.submission in db.submissions && c.built.Ok? && NumberFor(db, c).Some?
  {
    var (row, id) := (db.submissions[c.submission], c.built.value.id);
    var definition := row.stored.definition;
    && b.versions == db.versions[id := Version(c.organization, definition, NumberFor(db, c).value, row.stored.content, c.submission)]
    && definition in b.definitions && b.definitions == db.definitions[definition := b.definitions[definition]]
    && b.definitions[definition] == Definition(c.organization,
         if row.stored.kind == Initial then row.stored.name else b.definitions[definition].displayName, id)
    && (definition in db.definitions ==> b.definitions[definition].displayName == db.definitions[definition].displayName)
    && ClosedAs(db, b, c.submission, Approved, c.at)
    && b.reviews == db.reviews[c.submission := Review(c.review, c.actor, Approve, "", "", row.stored.digests.content, c.at)]
    && b == db.(versions := b.versions, definitions := b.definitions, submissions := b.submissions, reviews := b.reviews,
                idempotency := b.idempotency)
  }

  lemma PlansIff(db: Db, c: ReviewCommand)
    requires Inv(db) && c.submission in db.submissions && db.submissions[c.submission].organization == c.organization
    ensures var plan := PlanApproval(db, c.organization, db.submissions[c.submission]);
            && (plan == Ok(Stale) <==> BaseMoved(db, c))
            && (plan.Ok? && plan.value.PublishAs? <==> NumberFor(db, c).Some?)
            && (plan.Ok? && plan.value.PublishAs? ==> plan.value.number == NumberFor(db, c).value)
  {
    var st := db.submissions[c.submission].stored;
    assert SubmissionOk(db, c.submission);
    if st.definition in db.definitions {
      assert DefinitionOk(db, st.definition);
      assert VersionOk(db, db.definitions[st.definition].latest);
    }
  }

  /** Past its guards an approval supersedes or publishes. */
  ghost function ApprovePast(db: Db, c: ReviewCommand, row: Submission): Outcome<(Db, Answer), Failure> {
    var plan :- PlanApproval(db, c.organization, row);
    var db1 :- if plan.Stale?
               then Transition(db, c.organization, c.submission, c.expectedRevision, Superseded, c.at)
               else Publish(db, c.submission, row, Sealed(PackageOf(row.stored), row.stored.digests), plan.number, c);
    var db2 := Remember(db1, c.organization, ReviewAgent, c.evidence, c.submission);
    var view :- Load(db2, c.organization, c.submission);
    Ok((db2, if plan.Stale? then SupersededError(view) else Answered(view)))
  }

  lemma ApprovalPastGuards(db: Db, c: ReviewCommand)
    requires Inv(db) && NewKey(db, c.organization, ReviewAgent, c.evidence) && MayDecide(db, c)
    ensures ApproveStep(db, c) == ApprovePast(db, c, db.submissions[c.submission])
  {
    ActsIff(db, c.organization, c.actor);
    ActsIff(db, c.organization, db.submissions[c.submission].submitter);
    RowLoads(db, c.submission);
  }

  lemma ApprovalGuards(db: Db, c: ReviewCommand)
    requires Inv(db) && NewKey(db, c.organization, ReviewAgent, c.evidence) && ApproveStep(db, c).Ok?
    ensures MayDecide(db, c)
  {
    ActsIff(db, c.organization, c.actor);
    if c.submission in db.submissions {
      ActsIff(db, c.organization, db.submissions[c.submission].submitter);
      RowLoads(db, c.submission);
    }
  }

  lemma SupersedePast(db: Db, c: ReviewCommand)
    requires Inv(db) && MayDecide(db, c) && BaseMoved(db, c)
    ensures var r := ApprovePast(db, c, db.submissions[c.submission]);
            && r.Ok? && r.value.1.SupersededError? && ClosedAs(db, r.value.0, c.submission, Superseded, c.at)
            && r.value.0 == db.(submissions := r.value.0.submissions, idempotency := r.value.0.idempotency)
  {
    PlansIff(db, c);
    RowLoads(db, c.submission);
    var b := Remember(db.(submissions := db.submissions[c.submission := Terminal(db.submissions[c.submission], Superseded, c.at)]),
                      c.organization, ReviewAgent, c.evidence, c.submission);
    ClosedLoads(db, b, c.submission, Superseded, c.at);
  }

  /** The rows a publication writes, before the idempotency row. */
  ghost function PublishedDb(db: Db, c: ReviewCommand, name: seq<Byte>, number: nat): Db
    requires c.submission in db.submissions && c.built.Ok?
  {
    var (row, id) := (db.submissions[c.submission], c.built.value.id);
    db.(versions := db.versions[id := Version(c.organization, row.stored.definition, number, row.stored.content, c.submission)],
        definitions := db.definitions[row.stored.definition := Definition(c.organization, name, id)],
        reviews := db.reviews[c.submission := Review(c.review, c.actor, Approve, "", "", row.stored.digests.content, c.at)],
        submissions := db.submissions[c.submission := Terminal(row, Approved, c.at)])
  }

  lemma PublishIff(db: Db, c: ReviewCommand, number: nat)
    requires Inv(db) && MayDecide(db, c) && NumberFor(db, c) == Some(number)
    ensures var row := db.submissions[c.submission];
            (!row.stored.kind.Initial? ==> row.stored.definition in db.definitions)
    ensures var row := db.submissions[c.submission];
            var r := Publish(db, c.submission, row, Sealed(PackageOf(row.stored), row.stored.digests), number, c);
            && (r.Ok? <==> MayPublish(db, c))
            && (r.Ok? ==> r.value == PublishedDb(db, c, if row.stored.kind.Initial? then row.stored.name
                                                       else db.definitions[row.stored.definition].displayName, number))
  {
    RowLoads(db, c.submission);
    var row := db.submissions[c.submission];
    assert SubmissionOk(db, c.submission);
    assert db.rules.version(PackageOf(row.stored).manifest, PackageOf(row.stored).files) == Ok(row.stored.content);
  }

  lemma PublishedLoads(db: Db, c: ReviewCommand, name: seq<Byte>, number: nat)
    requires Inv(db) && MayDecide(db, c) && c.built.Ok? && c.built.value.id !in db.versions
    ensures var b := Remember(PublishedDb(db, c, name, number), c.organization, ReviewAgent, c.evidence, c.submission);
            Load(b, c.organization, c.submission).Ok?
  {
    var b := Remember(PublishedDb(db, c, name, number), c.organization, ReviewAgent, c.evidence, c.submission);
    RowLoads(db, c.submission);
    assert SubmissionOk(db, c.submission);
    assert c.built.value.id in PublishedVersions(b, c.submission);
  }

  lemma PublishPast(db: Db, c: ReviewCommand)
    requires Inv(db) && MayDecide(db, c) && !BaseMoved(db, c)
    ensures var r := ApprovePast(db, c, db.submissions[c.submission]);
            && (r.Ok? <==> MayPublish(db, c))
            && (r.Ok? ==> r.value.1.Answered? && PublishedAs(db, r.value.0, c))
  {
    PlansIff(db, c);
    RowLoads(db, c.submission);
    if NumberFor(db, c).Some? {
      var number, row := NumberFor(db, c).value, db.submissions[c.submission];
      PublishIff(db, c, number);
      if MayPublish(db, c) {
        PublishedLoads(db, c, if row.stored.kind.Initial? then row.stored.name else db.definitions[row.stored.definition].displayName, number);
      }
    }
  }

  /** An approval commits exactly where it may be decided and either the base has moved, and then it closes the submission
      as superseded and answers with that error, or the version can be published, and then it is written under the number
      after the head's, is the new head, and closes the submission as approved. */
  lemma ApproveDoes(db: Db, c: ReviewCommand)
    requires Inv(db) && NewKey(db, c.organization, ReviewAgent, c.evidence)
    ensures var r := ApproveStep(db, c);
            && (r.Ok? <==> MayDecide(db, c) && (BaseMoved(db, c) || MayPublish(db, c)))
            && (r.Ok? && BaseMoved(db, c) ==>
                  && r.value.1.SupersededError? && ClosedAs(db, r.value.0, c.submission, Superseded, c.at)
                  && r.value.0 == db.(submissions := r.value.0.submissions, idempotency := r.value.0.idempotency))
            && (r.Ok? && !BaseMoved(db, c) ==> r.value.1.Answered? && PublishedAs(db, r.value.0, c))
  {
    if ApproveStep(db, c).Ok? { ApprovalGuards(db, c); }
    if MayDecide(db, c) {
      ApprovalPastGuards(db, c);
      if BaseMoved(db, c) { SupersedePast(db, c); } else { PublishPast(db, c); }
    }
  }

  /** In every reachable state an approval whose guards pass commits `superseded` and answers with that error exactly
      when the base of its submission is no longer the head, whatever version was built for it. */
  lemma StaleApprovalSupersedes(rules: Rules, events: seq<Event>, c: ReviewCommand)
    requires NewKey(Reached(rules, events), c.organization, ReviewAgent, c.evidence) && MayDecide(Reached(rules, events), c)
    ensures var (db, r) := (Reached(rules, events), ApproveStep(Reached(rules, events), c));
            && (BaseMoved(db, c) <==> r.Ok? && r.value.1.SupersededError?)
            && (BaseMoved(db, c) ==>
                  && ClosedAs(db, r.value.0, c.submission, Superseded, c.at)
                  && r.value.0 == db.(submissions := r.value.0.submissions, idempotency := r.value.0.idempotency))
  {
    ReachableInv(rules, events);
    ApproveDoes(Reached(rules, events), c);
  }

  // ---------- who submitted what ----------

  /** Event `i` committed a new submission `s`. */
  ghost predicate SubmitsAt(rules: Rules, events: seq<Event>, i: nat, s: Uuid) {
    && i < |events| && events[i].SubmitEvent? && events[i].submit.submission == s
    && var (db, c) := (Reached(rules, events[..i]), events[i].submit);
    && NewKey(db, c.organization, SubmitAgent, c.evidence) && Submit(db, c).Ok?
  }

  lemma NewSubmission(db: Db, e: Event, s: Uuid)
    requires Inv(db) && s !in db.submissions && s in Apply(db, e).submissions
    ensures e.SubmitEvent? && e.submit.submission == s
    ensures NewKey(db, e.submit.organization, SubmitAgent, e.submit.evidence) && Submit(db, e.submit).Ok?
    ensures SubmittedAs(db, Apply(db, e), e.submit)
  {
    match e
    case SubmitEvent(c) => SubmitDoesWhere(db, c);
    case WithdrawEvent(c) => WithdrawAddsNone(db, c);
    case ReviewEvent(c) => ReviewAddsNone(db, c);
    case SurroundingsEvent(_) =>
  }

  lemma SubmitDoesWhere(db: Db, c: SubmitCommand)
    requires Inv(db)
    ensures Committed(db, Submit(db, c)) != db ==>
              && NewKey(db, c.organization, SubmitAgent, c.evidence) && Submit(db, c).Ok?
              && SubmittedAs(db, Submit(db, c).value.0, c)
  {
    if NewKey(db, c.organization, SubmitAgent, c.evidence) { SubmitDoes(db, c); }
  }

  lemma WithdrawAddsNone(db: Db, c: WithdrawCommand)
    requires Inv(db)
    ensures Committed(db, Withdraw(db, c)).submissions.Keys == db.submissions.Keys
  {
    if NewKey(db, c.organization, WithdrawAgent, c.evidence) { WithdrawDoes(db, c); }
  }

  lemma ReviewAddsNone(db: Db, c: ReviewCommand)
    requires Inv(db)
    ensures Committed(db, ReviewStep(db, c)).submissions.Keys == db.submissions.Keys
  {
    if NewKey(db, c.organization, ReviewAgent, c.evidence) { ApproveDoes(db, c); RejectDoes(db, c); }
  }

  /** Every stored submission goes back to the event that submitted it, by the person and at the time its row names. */
  lemma {:induction false} SubmissionGoesBack(rules: Rules, events: seq<Event>, s: Uuid) returns (i: nat)
    requires s in Reached(rules, events).submissions
    ensures SubmitsAt(rules, events, i, s)
    ensures var row := Reached(rules, events).submissions[s];
            && row.submitter == events[i].submit.actor && row.submittedAt == events[i].submit.at
            && row.organization == events[i].submit.organization && PackageOf(row.stored) == events[i].submit.canonical.package
  {
    var last := |events| - 1;
    var before := Reached(rules, events[..last]);
    ReachableInv(rules, events[..last]);
    if s in before.submissions {
      i := SubmissionGoesBack(rules, events[..last], s);
      assert events[..last][..i] == events[..i];
      StepInv(before, events[last]);
    } else {
      i := last;
      NewSubmission(before, events[last], s);
    }
  }

  /** Every committed withdrawal is by the person whose event submitted it. */
  lemma OnlySubmittersWithdraw(rules: Rules, events: seq<Event>, c: WithdrawCommand) returns (i: nat)
    requires NewKey(Reached(rules, events), c.organization, WithdrawAgent, c.evidence) && Withdraw(Reached(rules, events), c).Ok?
    ensures SubmitsAt(rules, events, i, c.submission) && events[i].submit.actor == c.actor
  {
    ReachableInv(rules, events);
    WithdrawDoes(Reached(rules, events), c);
    i := SubmissionGoesBack(rules, events, c.submission);
  }
}
