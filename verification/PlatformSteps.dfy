/** The steps of the official publication and release pipeline.  Each function is one
    transaction: `Ok((db', view))` commits `db'`, `Err` leaves the database as it was. */
module PlatformSteps {
  import opened Common
  import opened SubmissionPackage
  import opened PlatformState

  const NO_RESPONSE := Response(NIL, NIL, NIL, NIL, NIL, NIL)

  function Reserve(db: Db, c: ReserveCommand): Outcome<(Db, Uuid), Failure> {
    if !(c.wellFormed && c.definition != NIL) then Err(InvalidRepositoryCommand) else
    var replay :- LookupIdempotency(db, ReserveDefinition, c.evidence);
    if replay.Some? then
      if replay.value.definition in db.definitions then Ok((db, replay.value.definition)) else Err(NotFound)
    else
      :- RequireActivePlatform(db);
      :- Need(c.definition !in db.definitions, ServiceUnavailable);
      var db1 := db.(definitions := db.definitions[c.definition := Definition(c.displayName, NIL)]);
      Ok((Remember(db1, ReserveDefinition, c.evidence, NO_RESPONSE.(definition := c.definition)), c.definition))
  }

  predicate DraftExistsFor(db: Db, definition: Uuid) {
    exists d :: d in db.drafts && db.drafts[d].stored.definition == definition
  }

  /** Creating demands a package that canonicalizes to itself and that the scan finds nothing in. */
  predicate ValidCreate(db: Db, c: CreateCommand) {
    && c.wellFormed && c.draft != NIL
    && SelfCanonical(db.rules, c.canonical) && db.rules.scan(c.canonical.package.files)
  }

  function Create(db: Db, c: CreateCommand): Outcome<(Db, DraftView), Failure> {
    if !ValidCreate(db, c) then Err(InvalidRepositoryCommand) else
    var replay :- LookupIdempotency(db, CreateDraft, c.evidence);
    if replay.Some? then
      var view :- LoadDraft(db, replay.value.draft);
      Ok((db, view))
    else
      var package := c.canonical.package;
      :- RequireActivePlatform(db);
      :- RequireDraftTarget(db, package.definition, package.kind, package.base);
      var stored := Columns(db.rules, c.canonical);
      :- Need(stored.Ok?, InvalidRepositoryCommand);
      :- Need(c.draft !in db.drafts && !DraftExistsFor(db, package.definition), ServiceUnavailable);
      var db1 := db.(drafts := db.drafts[c.draft := Draft(stored.value, 1, c.at, c.at)]);
      var db2 := Remember(db1, CreateDraft, c.evidence, NO_RESPONSE.(definition := package.definition, draft := c.draft));
      var view :- LoadDraft(db2, c.draft);
      Ok((db2, view))
  }

  /** The package an update asks for, on the draft's own definition. */
  function Requested(c: UpdateCommand, current: Draft): Package {
    c.package.(definition := current.stored.definition)
  }

  function UpdatedRow(current: Draft, stored: Stored, at: Time): Draft {
    current.(stored := stored, revision := current.revision + 1, updatedAt := at)
  }

  function Update(db: Db, c: UpdateCommand): Outcome<(Db, DraftView), Failure> {
    if !(c.wellFormed && c.draft != NIL && c.expectedRevision > 0) then Err(InvalidRepositoryCommand) else
    var replay :- LookupIdempotency(db, UpdateDraft, c.evidence);
    if replay.Some? then
      var view :- LoadDraft(db, replay.value.draft);
      Ok((db, view))
    else
      var loaded :- LoadDraft(db, c.draft);
      var current := loaded.row;
      :- Need(c.draft !in db.around.archivedDrafts && current.revision == c.expectedRevision, SubmissionConflict);
      var sealed := Canonicalize(db.rules, Requested(c, current));
      :- Need(sealed.Ok? && db.rules.scan(sealed.value.package.files), InvalidRepositoryCommand);
      :- RequireDraftTarget(db, current.stored.definition, c.package.kind, c.package.base);
      var stored := Columns(db.rules, sealed.value);
      :- Need(stored.Ok?, InvalidRepositoryCommand);
      :- Need(c.at >= current.createdAt, ServiceUnavailable);
      var db1 := db.(drafts := db.drafts[c.draft := UpdatedRow(current, stored.value, c.at)]);
      var db2 := Remember(db1, UpdateDraft, c.evidence,
                          NO_RESPONSE.(definition := current.stored.definition, draft := c.draft));
      var view :- LoadDraft(db2, c.draft);
      Ok((db2, view))
  }

  // ---------- submissions ----------

  predicate PendingOn(row: Submission, draft: Uuid) { row.draft == draft && row.status.Pending? }

  function Terminal(row: Submission, status: SubmissionStatus, at: Time): Submission {
    row.(status := status, revision := row.revision + 1, terminalAt := Some(at))
  }

  function SupersedePending(submissions: map<Uuid, Submission>, draft: Uuid, at: Time): map<Uuid, Submission> {
    map s | s in submissions ::
      if PendingOn(submissions[s], draft) then Terminal(submissions[s], Superseded, at) else submissions[s]
  }

  function SubmittedRow(draft: Draft, stored: Stored, c: SubmitCommand): Submission {
    Submission(c.draft, draft.revision, stored, c.actor, c.at, Pending, 1, None)
  }

  function Submit(db: Db, c: SubmitCommand): Outcome<(Db, SubmissionView), Failure> {
    if !(c.wellFormed && c.submission != NIL && c.draft != NIL && c.expectedRevision > 0) then Err(InvalidRepositoryCommand) else
    var replay :- LookupIdempotency(db, SubmitDraft, c.evidence);
    if replay.Some? then
      var view :- LoadSubmission(db, replay.value.submission);
      Ok((db, view.(replayed := true)))
    else
      var loaded :- LoadDraft(db, c.draft);
      var draft := loaded.row;
      :- Need(c.draft !in db.around.archivedDrafts && draft.revision == c.expectedRevision, SubmissionConflict);
      var sealed := Recanonicalize(db.rules, loaded.package, draft.stored.digests);
      :- Need(sealed.Ok?, VersionIntegrityFailed);
      :- Need(db.rules.scan(sealed.value.package.files), DlpBlocked);
      :- RequireDraftTarget(db, draft.stored.definition, draft.stored.kind, draft.stored.base);
      :- Need(forall s :: s in db.submissions && PendingOn(db.submissions[s], c.draft)
                          ==> c.at >= db.submissions[s].submittedAt, ServiceUnavailable);
      var stored := Columns(db.rules, sealed.value);
      :- Need(stored.Ok?, VersionIntegrityFailed);
      :- Need(c.submission !in db.submissions, ServiceUnavailable);
      var db1 := db.(submissions := SupersedePending(db.submissions, c.draft, c.at)
                                    [c.submission := SubmittedRow(draft, stored.value, c)]);
      var db2 := Remember(db1, SubmitDraft, c.evidence,
                          NO_RESPONSE.(definition := draft.stored.definition, draft := c.draft, submission := c.submission));
      var view :- LoadSubmission(db2, c.submission);
      Ok((db2, view))
  }

  /** UPDATE … WHERE revision = expected AND status = 'pending'. */
  function Transition(db: Db, id: Uuid, expected: int, status: SubmissionStatus, at: Time): Outcome<Db, Failure> {
    if id !in db.submissions || !db.submissions[id].status.Pending? || db.submissions[id].revision != expected then
      Err(SubmissionConflict)
    else if at < db.submissions[id].submittedAt then Err(ServiceUnavailable)
    else Ok(db.(submissions := db.submissions[id := Terminal(db.submissions[id], status, at)]))
  }

  function Withdraw(db: Db, c: WithdrawCommand): Outcome<(Db, SubmissionView), Failure> {
    if !(c.wellFormed && c.submission != NIL && c.expectedRevision > 0) then Err(InvalidRepositoryCommand) else
    var replay :- LookupIdempotency(db, WithdrawSubmission, c.evidence);
    if replay.Some? then
      var view :- LoadSubmission(db, replay.value.submission);
      Ok((db, view.(replayed := true)))
    else
      var current :- LoadSubmission(db, c.submission);
      :- Need(current.row.status.Pending? && current.row.revision == c.expectedRevision, SubmissionConflict);
      :- Need(current.row.submitter == c.actor, PlatformForbidden);
      var db1 :- Transition(db, c.submission, c.expectedRevision, Withdrawn, c.at);
      var db2 := Remember(db1, WithdrawSubmission, c.evidence,
                          NO_RESPONSE.(definition := current.row.stored.definition, draft := current.row.draft,
                                       submission := c.submission));
      var view :- LoadSubmission(db2, c.submission);
      Ok((db2, view))
  }

  // ---------- review ----------

  predicate ReviewIdTaken(db: Db, id: Uuid) {
    exists s :: s in db.reviews && db.reviews[s].id == id
  }

  predicate ChannelTaken(db: Db, definition: Uuid, channel: Channel) {
    exists r :: r in db.releases && db.releases[r].definition == definition && db.releases[r].channel == channel
  }

  function InitialRevision(release: Uuid, version: Uuid, minimum: string, key: string, actor: Uuid, at: Time): Revision {
    Revision(release, 1, version, Paused, Rollout(0, minimum, key), Action.InitialRelease, NIL, NIL,
             actor, "initial_release", "", at)
  }

  /** INSERT … ON CONFLICT (platform_id, definition_id, channel) DO NOTHING, then revision 1. */
  function InsertInitial(db: Db, definition: Uuid, version: Uuid, minimum: string, i: InitialRelease,
                         key: string, actor: Uuid, at: Time): Outcome<Db, Failure>
  {
    if ChannelTaken(db, definition, i.channel) then Ok(db)
    else if i.release in db.releases || i.revision in db.revisions then Err(ServiceUnavailable)
    else Ok(db.(releases := db.releases[i.release := Release(definition, i.channel, i.revision, 1, at, at)],
                revisions := db.revisions[i.revision := InitialRevision(i.release, version, minimum, key, actor, at)]))
  }

  function InsertInitials(db: Db, definition: Uuid, version: Uuid, minimum: string, initial: seq<InitialRelease>,
                          key: string, actor: Uuid, at: Time): Outcome<Db, Failure>
  {
    if initial == [] then Ok(db) else
      var last := |initial| - 1;
      var db1 :- InsertInitials(db, definition, version, minimum, initial[..last], key, actor, at);
      InsertInitial(db1, definition, version, minimum, initial[last], key, actor, at)
  }

  /** The approving half of a review: version row, definition head, initial releases.  The built version must hold
      the canonical content. */
  function Publish(db: Db, id: Uuid, row: Submission, sealed: Sealed, number: nat, c: ReviewCommand)
    : Outcome<(Db, Uuid), Failure>
    requires row.stored.definition in db.definitions
  {
    var material :- c.built;
    var expected := db.rules.version(sealed.package.manifest, sealed.package.files);
    :- Need(expected.Ok? && material.id != NIL && material.number == number && material.content == expected.value,
            VersionIntegrityFailed);
    :- Need(material.id !in db.versions, ServiceUnavailable);
    var definition := row.stored.definition;
    var db1 := db.(versions := db.versions[material.id := Version(definition, number, material.content, id)],
                   definitions := db.definitions[definition := Definition(sealed.package.name, material.id)]);
    var db2 :- InsertInitials(db1, definition, material.id, material.minimumVersion, c.initial,
                              c.rolloutKey, c.actor, c.at);
    Ok((db2, material.id))
  }

  /** What a review checks before it writes anything; the answer is the submission's content, checked again. */
  function Reviewable(db: Db, c: ReviewCommand): (r: Outcome<Sealed, Failure>)
    ensures r.Ok? ==>
              && c.submission in db.submissions && RequireActivePlatform(db).Pass?
              && var row := db.submissions[c.submission];
              && row.status.Pending? && row.revision == c.expectedRevision && row.submitter != c.actor
              && Reload(db.rules, row.stored).Ok? && db.rules.scan(r.value.package.files)
              && Recanonicalize(db.rules, Reload(db.rules, row.stored).value.package, row.stored.digests) == Ok(r.value)
  {
    if RequireActivePlatform(db).Fail? then Err(RequireActivePlatform(db).error) else
    var current :- LoadSubmission(db, c.submission);
    var row := current.row;
    :- Need(row.status.Pending? && row.revision == c.expectedRevision, SubmissionConflict);
    :- Need(row.submitter != c.actor, SubmissionSelfReview);
    var _ :- LoadDraft(db, row.draft);
    var sealed := Recanonicalize(db.rules, current.package, row.stored.digests);
    :- Need(sealed.Ok?, VersionIntegrityFailed);
    :- Need(db.rules.scan(sealed.value.package.files), DlpBlocked);
    :- Need(db.around.permitted.Some?, ServiceUnavailable);
    :- Need(c.decision.Approve? ==> ChannelsAllowed(c.initial, db.around.permitted.value), RolloutInvalid);
    Ok(sealed.value)
  }

  function ReviewRow(c: ReviewCommand, row: Submission): Review {
    Review(c.review, c.actor, c.decision, if c.decision.Approve? then "approved" else c.reason, c.note,
           row.stored.digests.content, c.at)
  }

  function ReviewStep(db: Db, c: ReviewCommand): Outcome<(Db, SubmissionView), Failure> {
    if !(ValidReview(c)) then Err(InvalidRepositoryCommand) else
    var replay :- LookupIdempotency(db, Operation.ReviewSubmission, c.evidence);
    if replay.Some? then
      var view :- LoadSubmission(db, replay.value.submission);
      Ok((db, view.(replayed := true)))
    else
      var sealed :- Reviewable(db, c);
      var row := db.submissions[c.submission];
      var number :- if c.decision.Approve?
                    then LockPublicationTarget(db, row.stored.definition, row.stored.kind, row.stored.base) else Ok(0);
      :- Need(c.submission !in db.reviews && !ReviewIdTaken(db, c.review), ServiceUnavailable);
      var db1 := db.(reviews := db.reviews[c.submission := ReviewRow(c, row)]);
      var published :- if c.decision.Approve? then Publish(db1, c.submission, row, sealed, number, c) else Ok((db1, NIL));
      var db3 :- Transition(published.0, c.submission, c.expectedRevision,
                            if c.decision.Approve? then Approved else Rejected, c.at);
      var db4 := Remember(db3, Operation.ReviewSubmission, c.evidence,
                          NO_RESPONSE.(definition := row.stored.definition, draft := row.draft,
                                       submission := c.submission, version := published.1));
      var view :- LoadSubmission(db4, c.submission);
      Ok((db4, view))
  }

  // ---------- releases ----------

  function CopyPayload(to: Revision, from: Revision): Revision {
    to.(version := from.version, rollout := from.rollout)
  }

  /** The revision a command appends to `current`, with its audience. */
  function BuildRevision(db: Db, current: ReleaseView, c: ReleaseCommand): Outcome<(Revision, seq<Uuid>), Failure> {
    var head := current.revision;
    var next := Revision(current.id, current.head + 1, NIL, Paused, NO_ROLLOUT, c.action, head.id, NIL,
                         c.actor, c.reason, c.ticket, c.at);
    match c.action
    case Activate =>
      :- RequireApprovedVersion(db, current.definition, c.version);
      :- RequireActiveAudience(db, c.audience);
      Ok((next.(version := c.version, state := Active, rollout := c.rollout), c.audience))
    case RolloutUpdate =>
      :- Need(head.row.state.Active?, ReleasePaused);
      :- RequireActiveAudience(db, c.audience);
      Ok((next.(version := head.row.version, state := Active, rollout := c.rollout), c.audience))
    case Pause =>
      :- Need(head.row.state.Active?, RolloutInvalid);
      Ok((CopyPayload(next, head.row).(state := Paused), head.audience))
    case Resume =>
      :- Need(head.row.state.Paused?, RolloutInvalid);
      Ok((CopyPayload(next, head.row).(state := Active), head.audience))
    case Rollback =>
      var loaded := LoadReleaseAtRevision(db, current.id, c.target);
      :- Need(loaded.Ok?, RolloutInvalid);
      var target := loaded.value.revision;
      :- Need(target.row.number < current.head && target.row.version == c.version, RolloutInvalid);
      :- RequireApprovedVersion(db, current.definition, c.version);
      Ok((CopyPayload(next, target.row).(state := head.row.state, target := target.id), target.audience))
    case InitialRelease => Err(RolloutInvalid)
  }

  function AudienceRows(revision: Uuid, audience: seq<Uuid>): set<(Uuid, Uuid)> {
    set u | u in audience :: (revision, u)
  }

  function AppendRevision(db: Db, c: ReleaseCommand): Outcome<(Db, ReleaseView), Failure> {
    if !(ValidRelease(c)) then Err(InvalidRepositoryCommand) else
    var replay :- LookupIdempotency(db, ReleaseOperation(c.action), c.evidence);
    if replay.Some? then
      :- Need(replay.value.release == c.release && replay.value.revision != NIL, ServiceUnavailable);
      var view :- LoadReleaseAtRevision(db, replay.value.release, replay.value.revision);
      Ok((db, view.(replayed := true)))
    else
      :- RequireActivePlatform(db);
      var current :- LoadRelease(db, c.release);
      :- Need(current.head == c.expectedHead, ReleaseRevisionConflict);
      var built :- BuildRevision(db, current, c);
      :- Need(c.revision !in db.revisions, ServiceUnavailable);
      :- Need(c.at >= current.createdAt, ServiceUnavailable);
      var row := db.releases[c.release].(current := c.revision, head := built.0.number, updatedAt := c.at);
      var db1 := db.(revisions := db.revisions[c.revision := built.0],
                     audience := db.audience + AudienceRows(c.revision, built.1),
                     releases := db.releases[c.release := row]);
      var db2 := Remember(db1, ReleaseOperation(c.action), c.evidence,
                          NO_RESPONSE.(release := c.release, revision := c.revision));
      Ok((db2, current.(current := c.revision, head := built.0.number,
                        revision := RevisionView(c.revision, built.0, built.1), updatedAt := c.at)))
  }

  // ---------- runs ----------

  datatype Event =
    | ReserveEvent(reserve: ReserveCommand)
    | CreateEvent(create: CreateCommand)
    | UpdateEvent(update: UpdateCommand)
    | SubmitEvent(submit: SubmitCommand)
    | WithdrawEvent(withdraw: WithdrawCommand)
    | ReviewEvent(review: ReviewCommand)
    | ReleaseEvent(release: ReleaseCommand)
    | SurroundingsEvent(around: Surroundings)

  function Committed<V>(db: Db, outcome: Outcome<(Db, V), Failure>): Db {
    if outcome.Ok? then outcome.value.0 else db
  }

  function Apply(db: Db, e: Event): Db {
    match e
    case ReserveEvent(c) => Committed(db, Reserve(db, c))
    case CreateEvent(c) => Committed(db, Create(db, c))
    case UpdateEvent(c) => Committed(db, Update(db, c))
    case SubmitEvent(c) => Committed(db, Submit(db, c))
    case WithdrawEvent(c) => Committed(db, Withdraw(db, c))
    case ReviewEvent(c) => Committed(db, ReviewStep(db, c))
    case ReleaseEvent(c) => Committed(db, AppendRevision(db, c))
    case SurroundingsEvent(around) => db.(around := around)
  }

  function Run(db: Db, events: seq<Event>): Db {
    if events == [] then db else Apply(Run(db, events[..|events| - 1]), events[|events| - 1])
  }
}
