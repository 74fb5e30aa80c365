/** Tables and commands of the official (platform) publication pipeline.

    One platform's rows are modelled: every query of the repository is keyed on the
    platform.  Drafts and submissions hold the columns of a package; every load decodes
    them, canonicalizes the package again and compares digests. */
module PlatformState {
  import opened Common
  import opened Bytes
  import opened SubmissionPackage
  import Manifest

  type Digest = nat

  datatype Failure =
    | InvalidRepositoryCommand | ServiceUnavailable | NotFound | PlatformForbidden
    | SubmissionConflict | SubmissionSelfReview | VersionConflict | DefinitionArchived
    | DlpBlocked | VersionIntegrityFailed | IdempotencyConflict
    | RolloutInvalid | ReleasePaused | ReleaseRevisionConflict

  // ---------- rows ----------

  datatype Definition = Definition(displayName: seq<Byte>, latest: Uuid)

  datatype Draft = Draft(stored: Stored, revision: nat, createdAt: Time, updatedAt: Time)

  datatype SubmissionStatus = Pending | Approved | Rejected | Withdrawn | Superseded

  datatype Submission = Submission(
    draft: Uuid, draftRevision: nat, stored: Stored,
    submitter: Uuid, submittedAt: Time, status: SubmissionStatus, revision: nat,
    terminalAt: Option<Time>)

  datatype Decision = Approve | Reject
  datatype Review = Review(
    id: Uuid, reviewer: Uuid, decision: Decision, reason: string, note: string,
    content: seq<Byte>, reviewedAt: Time)                              // `content` is the reviewed content digest

  datatype Version = Version(definition: Uuid, number: nat, content: Manifest.Canonical, submission: Uuid)

  datatype Channel = Internal | Stable
  datatype ReleaseState = Active | Paused
  datatype Action = InitialRelease | Activate | RolloutUpdate | Pause | Resume | Rollback
  datatype Rollout = Rollout(basisPoints: int, minimumDesktop: string, keyId: string)

  const NO_ROLLOUT := Rollout(0, "", "")

  datatype Release = Release(
    definition: Uuid, channel: Channel, current: Uuid, head: nat, createdAt: Time, updatedAt: Time)

  datatype Revision = Revision(
    release: Uuid, number: nat, version: Uuid, state: ReleaseState, rollout: Rollout,
    action: Action, previous: Uuid, target: Uuid,
    actor: Uuid, reason: string, ticket: string, createdAt: Time)

  // ---------- idempotency ----------

  datatype Operation =
    | ReserveDefinition | CreateDraft | UpdateDraft | SubmitDraft | WithdrawSubmission
    | ReviewSubmission | ReleaseOperation(action: Action)

  datatype Response = Response(
    definition: Uuid, draft: Uuid, submission: Uuid, version: Uuid, release: Uuid, revision: Uuid)
  datatype IdempotencyRow = IdempotencyRow(request: Digest, response: Response)
  datatype Evidence = Evidence(key: Digest, request: Digest)

  // ---------- everything the steps read but do not own ----------

  datatype PlatformStatus = Missing | Enabled | Disabled
  datatype Surroundings = Surroundings(
    platform: PlatformStatus, permitted: Option<set<Channel>>, activeUsers: set<Uuid>,
    archivedDefinitions: set<Uuid>, archivedDrafts: set<Uuid>)

  /** The tables, and the content rules the deployment runs with. */
  datatype Db = Db(
    rules: Rules,
    around: Surroundings,
    definitions: map<Uuid, Definition>,
    drafts: map<Uuid, Draft>,
    submissions: map<Uuid, Submission>,
    reviews: map<Uuid, Review>,            // by submission
    versions: map<Uuid, Version>,
    releases: map<Uuid, Release>,
    revisions: map<Uuid, Revision>,
    audience: set<(Uuid, Uuid)>,           // (revision, user)
    idempotency: map<(Operation, Digest), IdempotencyRow>)

  const NO_SURROUNDINGS := Surroundings(Missing, None, {}, {}, {})

  function Empty(rules: Rules): Db {
    Db(rules, NO_SURROUNDINGS, map[], map[], map[], map[], map[], map[], map[], {}, map[])
  }

  // ---------- commands: `wellFormed` is the verdict of the opaque syntax and role checks ----------

  datatype ReserveCommand = ReserveCommand(
    wellFormed: bool, definition: Uuid, displayName: seq<Byte>, evidence: Evidence)
  datatype CreateCommand = CreateCommand(
    wellFormed: bool, draft: Uuid, canonical: Sealed, evidence: Evidence, at: Time)
  /** The package's definition is taken from the draft, whatever the command says. */
  datatype UpdateCommand = UpdateCommand(
    wellFormed: bool, draft: Uuid, expectedRevision: int, package: Package, evidence: Evidence, at: Time)
  datatype SubmitCommand = SubmitCommand(
    wellFormed: bool, submission: Uuid, draft: Uuid, expectedRevision: int,
    actor: Uuid, evidence: Evidence, at: Time)
  datatype WithdrawCommand = WithdrawCommand(
    wellFormed: bool, submission: Uuid, expectedRevision: int, actor: Uuid, evidence: Evidence, at: Time)

  datatype InitialRelease = InitialRelease(release: Uuid, revision: Uuid, channel: Channel)
  /** What the version builder returned for this call. */
  datatype Material = Material(id: Uuid, number: nat, content: Manifest.Canonical, minimumVersion: string)
  datatype ReviewCommand = ReviewCommand(
    wellFormed: bool, review: Uuid, submission: Uuid, expectedRevision: int, actor: Uuid,
    decision: Decision, reason: string, note: string, initial: seq<InitialRelease>, rolloutKey: string,
    built: Outcome<Material, Failure>, evidence: Evidence, at: Time)
  datatype ReleaseCommand = ReleaseCommand(
    wellFormed: bool, revision: Uuid, release: Uuid, expectedHead: int, action: Action,
    version: Uuid, target: Uuid, approval: Uuid, rollout: Rollout, audience: seq<Uuid>,
    actor: Uuid, reason: string, ticket: string, evidence: Evidence, at: Time)

  // ---------- views returned to callers ----------

  datatype DraftView = DraftView(id: Uuid, row: Draft, package: Package)
  datatype SubmissionView = SubmissionView(
    id: Uuid, row: Submission, package: Package, review: Option<Review>, replayed: bool)
  datatype RevisionView = RevisionView(id: Uuid, row: Revision, audience: seq<Uuid>)
  datatype ReleaseView = ReleaseView(
    id: Uuid, definition: Uuid, channel: Channel, current: Uuid, head: nat, revision: RevisionView,
    createdAt: Time, updatedAt: Time, replayed: bool)

  // ---------- loading rows ----------

  predicate ValidSubmissionState(row: Submission, reviewed: bool) {
    match row.status
    case Pending => row.revision == 1 && row.terminalAt.None? && !reviewed
    case Approved => row.revision == 2 && row.terminalAt.Some? && reviewed
    case Rejected => row.revision == 2 && row.terminalAt.Some? && reviewed
    case Withdrawn => row.revision == 2 && row.terminalAt.Some? && !reviewed
    case Superseded => row.revision == 2 && row.terminalAt.Some? && !reviewed
  }

  function LoadDraft(db: Db, id: Uuid): Outcome<DraftView, Failure> {
    if id !in db.drafts then Err(NotFound)
    else
      var reloaded := Reload(db.rules, db.drafts[id].stored);
      if reloaded.Err? then Err(ServiceUnavailable) else Ok(DraftView(id, db.drafts[id], reloaded.value.package))
  }

  /** Beside the content, the state is validated and the review held against the content digest. */
  function LoadSubmission(db: Db, id: Uuid): Outcome<SubmissionView, Failure> {
    if id !in db.submissions then Err(NotFound)
    else
      var row := db.submissions[id];
      var reloaded := Reload(db.rules, row.stored);
      if reloaded.Err? || !ValidSubmissionState(row, id in db.reviews) then Err(ServiceUnavailable)
      else if id in db.reviews && db.reviews[id].content != row.stored.digests.content then Err(ServiceUnavailable)
      else Ok(SubmissionView(id, row, reloaded.value.package,
                             if id in db.reviews then Some(db.reviews[id]) else None, false))
  }

  predicate ValidStoredRelease(id: Uuid, release: Release, revisionId: Uuid, revision: Revision) {
    && id != NIL && release.definition != NIL && release.current != NIL && release.head > 0
    && release.updatedAt >= release.createdAt
    && revisionId != NIL && revision.release == id && revision.number > 0 && revision.version != NIL
    && 0 <= revision.rollout.basisPoints <= 10000
    && (revisionId == release.current ==> revision.number == release.head)
    && (if revision.action.InitialRelease?
        then revision.number == 1 && revision.state.Paused? && revision.previous == NIL
        else revision.number > 1 && revision.previous != NIL)
  }

  function AudienceOf(audience: set<(Uuid, Uuid)>, revision: Uuid): seq<Uuid> {
    Ascending(set p | p in audience && p.0 == revision :: p.1)
  }

  /** The release joined with one of its revisions, as stored. */
  function JoinRelease(db: Db, id: Uuid, revision: Uuid): Outcome<ReleaseView, Failure> {
    if id !in db.releases || revision !in db.revisions || db.revisions[revision].release != id then
      Err(NotFound)
    else
      var r := db.releases[id];
      if !ValidStoredRelease(id, r, revision, db.revisions[revision]) then Err(ServiceUnavailable)
      else Ok(ReleaseView(id, r.definition, r.channel, r.current, r.head,
                          RevisionView(revision, db.revisions[revision], AudienceOf(db.audience, revision)),
                          r.createdAt, r.updatedAt, false))
  }

  function LoadRelease(db: Db, id: Uuid): Outcome<ReleaseView, Failure> {
    if id !in db.releases then Err(NotFound) else JoinRelease(db, id, db.releases[id].current)
  }

  /** The release as it looked when `revision` was its head. */
  function LoadReleaseAtRevision(db: Db, id: Uuid, revision: Uuid): Outcome<ReleaseView, Failure> {
    var view :- JoinRelease(db, id, revision);
    Ok(view.(current := view.revision.id, head := view.revision.row.number))
  }

  // ---------- guards ----------

  function LookupIdempotency(db: Db, operation: Operation, evidence: Evidence)
    : Outcome<Option<Response>, Failure>
  {
    if (operation, evidence.key) !in db.idempotency then Ok(None)
    else if db.idempotency[(operation, evidence.key)].request != evidence.request then Err(IdempotencyConflict)
    else Ok(Some(db.idempotency[(operation, evidence.key)].response))
  }

  function Remember(db: Db, operation: Operation, evidence: Evidence, response: Response): Db {
    db.(idempotency := db.idempotency[(operation, evidence.key) := IdempotencyRow(evidence.request, response)])
  }

  function RequireActivePlatform(db: Db): Check<Failure> {
    match db.around.platform
    case Missing => Fail(NotFound)
    case Enabled => Pass
    case Disabled => Fail(PlatformForbidden)
  }

  function RequireDraftTarget(db: Db, definition: Uuid, kind: Kind, base: Uuid): Check<Failure> {
    if definition !in db.definitions then Fail(NotFound)
    else if definition in db.around.archivedDefinitions then Fail(DefinitionArchived)
    else
      var latest := db.definitions[definition].latest;
      match kind
      case Initial => Need(latest == NIL && base == NIL, VersionConflict)
      case Next => Need(latest != NIL && latest == base, VersionConflict)
      case UnknownKind => Fail(InvalidRepositoryCommand)
  }

  /** The number the next version of `definition` gets, read under the definition lock. */
  function LockPublicationTarget(db: Db, definition: Uuid, kind: Kind, base: Uuid): Outcome<nat, Failure> {
    if definition !in db.definitions then Err(NotFound)
    else if definition in db.around.archivedDefinitions then Err(DefinitionArchived)
    else
      var latest := db.definitions[definition].latest;
      match kind
      case Initial => if latest == NIL && base == NIL then Ok(1) else Err(VersionConflict)
      case Next =>
        if latest != NIL && latest in db.versions && latest == base && db.versions[latest].number > 0
        then Ok(db.versions[latest].number + 1) else Err(VersionConflict)
      case UnknownKind => Err(InvalidRepositoryCommand)
  }

  function RequireApprovedVersion(db: Db, definition: Uuid, version: Uuid): Check<Failure> {
    Need(&& version in db.versions && db.versions[version].definition == definition
         && db.versions[version].submission in db.submissions
         && db.submissions[db.versions[version].submission].status.Approved?, RolloutInvalid)
  }

  function RequireActiveAudience(db: Db, audience: seq<Uuid>): Check<Failure> {
    Need(forall u :: u in audience ==> u in db.around.activeUsers, RolloutInvalid)
  }

  predicate ChannelsAllowed(initial: seq<InitialRelease>, allowed: set<Channel>) {
    && 1 <= |initial| <= 2
    && (forall i :: 0 <= i < |initial| ==>
          && initial[i].release != NIL && initial[i].revision != NIL
          && initial[i].release != initial[i].revision && initial[i].channel in allowed)
    && (forall i, j :: 0 <= i < j < |initial| ==> initial[i].channel != initial[j].channel)
  }

  predicate CanonicalAudience(audience: seq<Uuid>) {
    && |audience| <= 10000
    && (forall i :: 0 <= i < |audience| ==> audience[i] != NIL)
    && StrictlyAscending(audience)
  }

  predicate ValidReview(c: ReviewCommand) {
    && c.wellFormed && c.review != NIL && c.submission != NIL && c.expectedRevision > 0
    && match c.decision
       case Approve => c.reason == "" && c.note == "" && ChannelsAllowed(c.initial, {Internal, Stable})
       case Reject => c.initial == [] && c.rolloutKey == ""
  }

  predicate ValidRelease(c: ReleaseCommand) {
    && c.wellFormed && c.revision != NIL && c.release != NIL && c.expectedHead > 0
    && CanonicalAudience(c.audience)
    && var validRollout := 0 <= c.rollout.basisPoints <= 10000 && c.rollout.minimumDesktop != "";
       match c.action
       case Activate => c.version != NIL && c.target == NIL && c.approval == NIL && validRollout
       case RolloutUpdate => c.version == NIL && c.target == NIL && c.approval == NIL && validRollout
       case Pause => c.version == NIL && c.target == NIL && c.approval == NIL && c.rollout == NO_ROLLOUT && c.audience == []
       case Resume => c.version == NIL && c.target == NIL && c.approval == NIL && c.rollout == NO_ROLLOUT && c.audience == []
       case Rollback => c.version != NIL && c.target != NIL && c.approval != NIL && c.rollout == NO_ROLLOUT && c.audience == []
       case InitialRelease => false
  }
}
