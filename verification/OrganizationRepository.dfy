/** The organization repository as the program runs it; each method does what its step function says. */
module OrganizationRepository {
  import opened Common
  import opened SubmissionPackage
  import opened OrganizationSteps
  import opened OrganizationProofs

  function Returned(outcome: Outcome<(Db, Answer), Failure>): Outcome<Answer, Failure> {
    if outcome.Ok? then Ok(outcome.value.1) else Err(outcome.error)
  }

  class Repository {
    var db: Db

    /** The database keeps the invariant of every run. */
    ghost predicate Valid() reads this { Inv(db) }

    constructor (rules: Rules)
      ensures Valid() && db == Empty(rules)
    {
      db := Empty(rules);
    }

    method SubmitOrganizationAgent(c: SubmitCommand) returns (r: Outcome<Answer, Failure>)
      requires Valid()
      modifies this
      ensures Valid() && Extends(old(db), db)
      ensures db == Committed(old(db), Submit(old(db), c)) && r == Returned(Submit(old(db), c))
    {
      SubmitInv(db, c);
      if !ValidSubmit(db, c) { return Err(InvalidRepositoryCommand); }
      var tx := db;
      var access := RequireAccess(tx, c.organization, c.actor);
      if access.Fail? { return Err(access.error); }
      var replay := Lookup(tx, c.organization, SubmitAgent, c.evidence);
      if replay.Err? { return Err(replay.error); }
      if replay.value.Some? {
        var stored := Load(tx, c.organization, replay.value.value);
        if stored.Err? { return Err(stored.error); }
        return Ok(Answered(stored.value.(replayed := true)));
      }
      if (c.organization, c.canonical.package.manifest) in tx.around.blocked { return Err(PolicyBlocked); }
      var target := RequireTarget(tx, c);
      if target.Fail? { return Err(target.error); }
      var columns := Columns(tx.rules, c.canonical);
      if columns.Err? { return Err(InvalidRepositoryCommand); }
      if c.submission in tx.submissions { return Err(ServiceUnavailable); }
      tx := tx.(submissions := tx.submissions[c.submission := SubmittedRow(c, columns.value)]);
      tx := Remember(tx, c.organization, SubmitAgent, c.evidence, c.submission);
      var stored := Load(tx, c.organization, c.submission);
      if stored.Err? { return Err(stored.error); }
      db := tx;
      return Ok(Answered(stored.value));
    }

    method WithdrawOrganizationAgentSubmission(c: WithdrawCommand) returns (r: Outcome<Answer, Failure>)
      requires Valid()
      modifies this
      ensures Valid() && Extends(old(db), db)
      ensures db == Committed(old(db), Withdraw(old(db), c)) && r == Returned(Withdraw(old(db), c))
    {
      WithdrawInv(db, c);
      if !c.wellFormed || c.organization == NIL || c.submission == NIL || c.expectedRevision <= 0 {
        return Err(InvalidRepositoryCommand);
      }
      var tx := db;
      var access := RequireAccess(tx, c.organization, c.actor);
      if access.Fail? { return Err(access.error); }
      var replay := Lookup(tx, c.organization, WithdrawAgent, c.evidence);
      if replay.Err? { return Err(replay.error); }
      if replay.value.Some? {
        var stored := Load(tx, c.organization, replay.value.value);
        if stored.Err? { return Err(stored.error); }
        return Ok(Answered(stored.value.(replayed := true)));
      }
      var current := Load(tx, c.organization, c.submission);
      if current.Err? { return Err(current.error); }
      var row := current.value.row;
      if !row.status.Pending? || row.revision != c.expectedRevision { return Err(SubmissionConflict); }
      if row.submitter != c.actor { return Err(AgentForbidden); }
      var moved := Transition(tx, c.organization, c.submission, c.expectedRevision, Withdrawn, c.at);
      if moved.Err? { return Err(moved.error); }
      tx := Remember(moved.value, c.organization, WithdrawAgent, c.evidence, c.submission);
      var stored := Load(tx, c.organization, c.submission);
      if stored.Err? { return Err(stored.error); }
      db := tx;
      return Ok(Answered(stored.value));
    }

    method ReviewOrganizationAgentSubmission(c: ReviewCommand) returns (r: Outcome<Answer, Failure>)
      requires Valid()
      modifies this
      ensures Valid() && Extends(old(db), db)
      ensures db == Committed(old(db), ReviewStep(old(db), c)) && r == Returned(ReviewStep(old(db), c))
    {
      if c.decision.Approve? {
        r := ApproveOrganizationAgentSubmission(c);
        return;
      }
      RejectInv(db, c);
      if !ValidReview(c) { return Err(InvalidRepositoryCommand); }
      var tx := db;
      var access := RequireAccess(tx, c.organization, c.actor);
      if access.Fail? { return Err(access.error); }
      var replay := Lookup(tx, c.organization, ReviewAgent, c.evidence);
      if replay.Err? { return Err(replay.error); }
      if replay.value.Some? {
        var stored := Load(tx, c.organization, replay.value.value);
        if stored.Err? { return Err(stored.error); }
        return Ok(Answered(stored.value.(replayed := true)));
      }
      var current := Load(tx, c.organization, c.submission);
      if current.Err? { return Err(current.error); }
      var row := current.value.row;
      if !row.status.Pending? || row.revision != c.expectedRevision { return Err(SubmissionConflict); }
      if c.submission in tx.reviews || ReviewIdTaken(tx, c.review) { return Err(ServiceUnavailable); }
      tx := tx.(reviews := tx.reviews[c.submission := Review(
        c.review, c.actor, Reject, c.reason, c.note, row.stored.digests.content, c.at)]);
      var moved := Transition(tx, c.organization, c.submission, c.expectedRevision, Rejected, c.at);
      if moved.Err? { return Err(moved.error); }
      tx := Remember(moved.value, c.organization, ReviewAgent, c.evidence, c.submission);
      var stored := Load(tx, c.organization, c.submission);
      if stored.Err? { return Err(stored.error); }
      db := tx;
      return Ok(Answered(stored.value));
    }

    /** Definition (for an initial submission), version, head, review and status of an approval. */
    method PersistApprovedPublication(start: Db, row: Submission, sealed: Sealed, number: nat, c: ReviewCommand)
      returns (r: Outcome<Db, Failure>)
      requires !row.stored.kind.Initial? ==> row.stored.definition in start.definitions
      ensures r == Publish(start, c.submission, row, sealed, number, c)
    {
      if c.built.Err? { return Err(c.built.error); }
      var material := c.built.value;
      var expected := start.rules.version(sealed.package.manifest, sealed.package.files);
      if expected.Err? || material.id == NIL || material.number != number || material.content != expected.value {
        return Err(InvalidRepositoryCommand);
      }
      var tx, definition := start, row.stored.definition;
      if row.stored.kind.Initial? {
        tx := tx.(definitions := tx.definitions[definition := Definition(row.organization, row.stored.name, NIL)]);
      }
      if material.id in tx.versions { return Err(ServiceUnavailable); }
      tx := tx.(versions := tx.versions[material.id :=
        Version(row.organization, definition, number, material.content, c.submission)]);
      tx := tx.(definitions := tx.definitions[definition :=
        Definition(row.organization, tx.definitions[definition].displayName, material.id)]);
      assert tx.definitions == start.definitions[definition := tx.definitions[definition]];
      if c.submission in tx.reviews || ReviewIdTaken(tx, c.review) { return Err(ServiceUnavailable); }
      tx := tx.(reviews := tx.reviews[c.submission :=
        Review(c.review, c.actor, Approve, "", "", sealed.digests.content, c.at)]);
      return Transition(tx, row.organization, c.submission, c.expectedRevision, Approved, c.at);
    }

    method ApproveOrganizationAgentSubmission(c: ReviewCommand) returns (r: Outcome<Answer, Failure>)
      requires Valid()
      modifies this
      ensures Valid() && Extends(old(db), db)
      ensures db == Committed(old(db), ApproveStep(old(db), c)) && r == Returned(ApproveStep(old(db), c))
    {
      ApproveInv(db, c);
      if !ValidReview(c) { return Err(InvalidRepositoryCommand); }
      var tx := db;
      var access := RequireAccess(tx, c.organization, c.actor);
      if access.Fail? { return Err(access.error); }
      var replay := Lookup(tx, c.organization, ReviewAgent, c.evidence);
      if replay.Err? { return Err(replay.error); }
      if replay.value.Some? {
        var stored := Load(tx, c.organization, replay.value.value);
        if stored.Err? { return Err(stored.error); }
        var again := stored.value.(replayed := true);
        if again.row.status.Superseded? { return Ok(SupersededError(again)); }
        return Ok(Answered(again));
      }
      var current := Load(tx, c.organization, c.submission);
      if current.Err? { return Err(current.error); }
      var row := current.value.row;
      if !row.status.Pending? || row.revision != c.expectedRevision { return Err(SubmissionConflict); }
      var publisher := RequirePublisher(tx, c.organization, row.submitter);
      if publisher.Fail? { return Err(publisher.error); }
      var sealed := Recanonicalize(tx.rules, current.value.package, row.stored.digests);
      if sealed.Err? { return Err(InvalidAgentContent); }
      if !tx.rules.scan(sealed.value.package.files) { return Err(DlpBlocked); }
      if (c.organization, sealed.value.package.manifest) in tx.around.blocked { return Err(PolicyBlocked); }
      var number, stale := 1, false;
      if row.stored.kind.Initial? {
        if row.stored.definition in tx.definitions { return Err(SubmissionConflict); }
      } else {
        var head := LockDefinition(tx, c.organization, row.stored.definition);
        if head.Err? { return Err(head.error); }
        number, stale := head.value.1 + 1, head.value.0 != row.stored.base;
      }
      var written;
      if stale {
        written := Transition(tx, c.organization, c.submission, c.expectedRevision, Superseded, c.at);
      } else {
        written := PersistApprovedPublication(tx, row, sealed.value, number, c);
      }
      if written.Err? { return Err(written.error); }
      tx := Remember(written.value, c.organization, ReviewAgent, c.evidence, c.submission);
      var stored := Load(tx, c.organization, c.submission);
      if stored.Err? { return Err(stored.error); }
      db := tx;
      if stale { return Ok(SupersededError(stored.value)); }
      return Ok(Answered(stored.value));
    }
  }
}
