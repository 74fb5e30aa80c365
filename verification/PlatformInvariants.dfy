/** What every reachable state of the official pipeline satisfies, row by row, and what
    one state keeps of an earlier one. */
module PlatformInvariants {
  import opened Common
  import opened SubmissionPackage
  import opened PlatformState
  import opened PlatformSteps

  // ---------- publication tables ----------

  /** Stored content passes its integrity check, and under lawful rules reads back as exactly what was written. */
  ghost predicate StoredOk(rules: Rules, st: Stored) {
    Reload(rules, st).Ok? && (Lawful(rules) ==> Intact(rules, st))
  }

  ghost predicate DraftOk(db: Db, d: Uuid)
    requires d in db.drafts
  {
    && db.drafts[d].stored.definition in db.definitions && db.drafts[d].revision >= 1
    && StoredOk(db.rules, db.drafts[d].stored)
  }

  ghost predicate SubmissionOk(db: Db, s: Uuid)
    requires s in db.submissions
  {
    var row := db.submissions[s];
    && ValidSubmissionState(row, s in db.reviews)
    && StoredOk(db.rules, row.stored)
    && row.draft in db.drafts && row.stored.definition == db.drafts[row.draft].stored.definition
    && row.stored.definition in db.definitions
    && 1 <= row.draftRevision <= db.drafts[row.draft].revision
    && (Lawful(db.rules) && row.draftRevision == db.drafts[row.draft].revision ==> row.stored == db.drafts[row.draft].stored)
  }

  ghost predicate ReviewOk(db: Db, s: Uuid)
    requires s in db.reviews
  {
    && s in db.submissions
    && db.reviews[s].reviewer != db.submissions[s].submitter
    && db.reviews[s].content == db.submissions[s].stored.digests.content
    && (db.reviews[s].decision.Approve? <==> db.submissions[s].status.Approved?)
  }

  ghost predicate OnePendingPerDraft(submissions: map<Uuid, Submission>) {
    forall s, t :: (s in submissions && t in submissions && submissions[s].status.Pending?
                    && PendingOn(submissions[t], submissions[s].draft)) ==> s == t
  }

  ghost predicate SubmissionsInv(db: Db) {
    && (forall d {:trigger DraftOk(db, d)} :: d in db.drafts ==> DraftOk(db, d))
    && (forall s {:trigger SubmissionOk(db, s)} :: s in db.submissions ==> SubmissionOk(db, s))
    && (forall s {:trigger ReviewOk(db, s)} :: s in db.reviews ==> ReviewOk(db, s))
    && OnePendingPerDraft(db.submissions)
  }

  // ---------- versions ----------

  ghost predicate DefinitionOk(db: Db, d: Uuid)
    requires d in db.definitions
  {
    && d != NIL
    && var latest := db.definitions[d].latest;
       latest != NIL ==> latest in db.versions && db.versions[latest].definition == d
  }

  /** A version hangs below its definition's head, on the version its submission named as base. */
  ghost predicate VersionOk(db: Db, v: Uuid)
    requires v in db.versions
  {
    var row := db.versions[v];
    && v != NIL && row.definition in db.definitions
    && var latest := db.definitions[row.definition].latest;
    && latest != NIL && latest in db.versions && 1 <= row.number <= db.versions[latest].number
    && row.submission in db.submissions
    && var s := db.submissions[row.submission];
    && s.status.Approved? && s.stored.definition == row.definition
    && (Lawful(db.rules) ==> s.stored.content == row.content)
    && match s.stored.kind
       case Initial => row.number == 1
       case Next => && s.stored.base in db.versions && db.versions[s.stored.base].definition == row.definition
                    && db.versions[s.stored.base].number + 1 == row.number
       case UnknownKind => false
  }

  ghost predicate DistinctVersions(versions: map<Uuid, Version>) {
    forall v, w :: v in versions && w in versions && v != w ==>
      && versions[v].submission != versions[w].submission
      && (versions[v].definition == versions[w].definition ==> versions[v].number != versions[w].number)
  }

  ghost predicate Published(db: Db, s: Uuid) {
    exists v :: v in db.versions && db.versions[v].submission == s
  }

  ghost predicate VersionsInv(db: Db) {
    && (forall d {:trigger DefinitionOk(db, d)} :: d in db.definitions ==> DefinitionOk(db, d))
    && (forall v {:trigger VersionOk(db, v)} :: v in db.versions ==> VersionOk(db, v))
    && DistinctVersions(db.versions)
    && (forall s {:trigger Published(db, s)} :: s in db.submissions && db.submissions[s].status.Approved? ==> Published(db, s))
  }

  // ---------- releases ----------

  ghost function AudienceSet(audience: set<(Uuid, Uuid)>, x: Uuid): set<Uuid> {
    set p | p in audience && p.0 == x :: p.1
  }

  ghost predicate SamePayload(db: Db, x: Uuid, y: Uuid)
    requires x in db.revisions && y in db.revisions
  {
    && db.revisions[x].version == db.revisions[y].version
    && db.revisions[x].rollout == db.revisions[y].rollout
    && AudienceSet(db.audience, x) == AudienceSet(db.audience, y)
  }

  ghost predicate Earlier(revisions: map<Uuid, Revision>, y: Uuid, x: Uuid)
    requires x in revisions
  {
    y in revisions && revisions[y].release == revisions[x].release && revisions[y].number < revisions[x].number
  }

  /** How one revision follows from its predecessor, action by action. */
  ghost predicate Link(db: Db, x: Uuid)
    requires x in db.revisions
  {
    var v := db.revisions[x];
    if v.action.InitialRelease? then
      v.number == 1 && v.state.Paused? && v.previous == NIL && v.target == NIL && AudienceSet(db.audience, x) == {}
    else
      && Earlier(db.revisions, v.previous, x)
      && var p := db.revisions[v.previous];
      && p.number == v.number - 1
      && (v.target != NIL <==> v.action.Rollback?)
      && match v.action
         case Activate => v.state.Active?
         case RolloutUpdate => v.state.Active? && p.state.Active? && v.version == p.version
         case Pause => v.state.Paused? && p.state.Active? && SamePayload(db, x, v.previous)
         case Resume => v.state.Active? && p.state.Paused? && SamePayload(db, x, v.previous)
         case Rollback => && v.state == p.state && Earlier(db.revisions, v.target, x)
                          && db.revisions[v.target].number < p.number && SamePayload(db, x, v.target)
         case InitialRelease => false
  }

  ghost predicate RevisionOk(db: Db, x: Uuid)
    requires x in db.revisions
  {
    var v := db.revisions[x];
    && v.release in db.releases
    && ValidStoredRelease(v.release, db.releases[v.release], x, v)
    && v.number <= db.releases[v.release].head
    && v.version in db.versions
    && db.versions[v.version].definition == db.releases[v.release].definition
    && Link(db, x)
  }

  ghost predicate DistinctNumbers(revisions: map<Uuid, Revision>) {
    forall x, y :: x in revisions && y in revisions && x != y && revisions[x].release == revisions[y].release
                   ==> revisions[x].number != revisions[y].number
  }

  ghost predicate ReleaseOk(db: Db, r: Uuid)
    requires r in db.releases
  {
    var row := db.releases[r];
    && row.definition in db.definitions
    && row.current in db.revisions && db.revisions[row.current].release == r
    && db.revisions[row.current].number == row.head
  }

  ghost predicate OneReleasePerChannel(releases: map<Uuid, Release>) {
    forall r, q :: (r in releases && q in releases && releases[r].definition == releases[q].definition
                    && releases[r].channel == releases[q].channel) ==> r == q
  }

  ghost predicate ReleasesInv(db: Db) {
    && (forall r {:trigger ReleaseOk(db, r)} :: r in db.releases ==> ReleaseOk(db, r))
    && (forall x {:trigger RevisionOk(db, x)} :: x in db.revisions ==> RevisionOk(db, x))
    && DistinctNumbers(db.revisions)
    && OneReleasePerChannel(db.releases)
    && (forall p :: p in db.audience ==> p.0 in db.revisions)
  }

  // ---------- idempotency rows ----------

  ghost predicate IdempotencyOk(db: Db, k: (Operation, Digest))
    requires k in db.idempotency
  {
    var r := db.idempotency[k].response;
    match k.0
    case ReserveDefinition => r.definition in db.definitions
    case CreateDraft => r.draft in db.drafts
    case UpdateDraft => r.draft in db.drafts
    case SubmitDraft => r.submission in db.submissions
    case WithdrawSubmission => r.submission in db.submissions && !db.submissions[r.submission].status.Pending?
    case ReviewSubmission => r.submission in db.submissions && !db.submissions[r.submission].status.Pending?
    case ReleaseOperation(_) =>
      r.revision != NIL && r.revision in db.revisions && db.revisions[r.revision].release == r.release
  }

  ghost predicate IdempotencyInv(db: Db) {
    forall k {:trigger IdempotencyOk(db, k)} :: k in db.idempotency ==> IdempotencyOk(db, k)
  }

  ghost predicate Inv(db: Db) {
    SubmissionsInv(db) && VersionsInv(db) && ReleasesInv(db) && IdempotencyInv(db)
  }

  // ---------- what a later state keeps of an earlier one ----------

  ghost predicate DraftsAdvance(m: map<Uuid, Draft>, n: map<Uuid, Draft>) {
    forall d :: d in m ==>
      && d in n && n[d].stored.definition == m[d].stored.definition && m[d].revision <= n[d].revision
      && (m[d].revision == n[d].revision ==> n[d] == m[d])
  }

  /** A submission changes only in status, revision and terminal time, and only while pending. */
  ghost predicate SubmissionAdvances(a: Submission, b: Submission) {
    && b == a.(status := b.status, revision := b.revision, terminalAt := b.terminalAt)
    && (a == b || (a.status.Pending? && !b.status.Pending? && b.revision == a.revision + 1))
  }

  ghost predicate SubmissionsAdvance(m: map<Uuid, Submission>, n: map<Uuid, Submission>) {
    forall s :: s in m ==> s in n && SubmissionAdvances(m[s], n[s])
  }

  ghost predicate ReleaseAdvances(a: Release, b: Release) {
    && b == a.(current := b.current, head := b.head, updatedAt := b.updatedAt)
    && a.head <= b.head && (a.head == b.head ==> a == b)
  }

  ghost predicate ReleasesAdvance(m: map<Uuid, Release>, n: map<Uuid, Release>) {
    forall r :: r in m ==> r in n && ReleaseAdvances(m[r], n[r])
  }

  ghost predicate Extends(a: Db, b: Db) {
    && b.rules == a.rules
    && a.definitions.Keys <= b.definitions.Keys
    && DraftsAdvance(a.drafts, b.drafts)
    && SubmissionsAdvance(a.submissions, b.submissions)
    && Grows(a.reviews, b.reviews)
    && Grows(a.versions, b.versions)
    && ReleasesAdvance(a.releases, b.releases)
    && Grows(a.revisions, b.revisions)
    && a.audience <= b.audience
    && (forall p :: p in b.audience && p.0 in a.revisions ==> p in a.audience)
    && Grows(a.idempotency, b.idempotency)
  }

  lemma ExtendsTransitive(a: Db, b: Db, c: Db)
    requires Extends(a, b) && Extends(b, c)
    ensures Extends(a, c)
  {
  }

  // ---------- every step extends the state ----------

  lemma ReserveExtends(db: Db, c: ReserveCommand)
    ensures Extends(db, Committed(db, Reserve(db, c)))
  {
    var b := Committed(db, Reserve(db, c));
    if b != db { assert b == db.(definitions := b.definitions, idempotency := b.idempotency); }
  }

  lemma CreateExtends(db: Db, c: CreateCommand)
    ensures Extends(db, Committed(db, Create(db, c)))
  {
    var b := Committed(db, Create(db, c));
    if b != db { assert b == db.(drafts := b.drafts, idempotency := b.idempotency); }
  }

  /** What a fresh update writes. */
  lemma UpdateShape(db: Db, c: UpdateCommand) returns (sealed: Sealed, stored: Stored)
    requires Update(db, c).Ok? && LookupIdempotency(db, UpdateDraft, c.evidence) == Ok(None)
    ensures c.draft in db.drafts
    ensures Canonicalize(db.rules, Requested(c, db.drafts[c.draft])) == Ok(sealed) && Columns(db.rules, sealed) == Ok(stored)
    ensures Reload(db.rules, stored).Ok?
    ensures Update(db, c).value.0 ==
            Remember(db.(drafts := db.drafts[c.draft := UpdatedRow(db.drafts[c.draft], stored, c.at)]), UpdateDraft, c.evidence,
                     NO_RESPONSE.(definition := db.drafts[c.draft].stored.definition, draft := c.draft))
  {
    sealed := Canonicalize(db.rules, Requested(c, db.drafts[c.draft])).value;
    stored := Columns(db.rules, sealed).value;
  }

  lemma UpdateExtends(db: Db, c: UpdateCommand)
    ensures Extends(db, Committed(db, Update(db, c)))
  {
    if Update(db, c).Ok? && LookupIdempotency(db, UpdateDraft, c.evidence) == Ok(None) {
      var sealed, stored := UpdateShape(db, c);
    }
  }

  /** What a fresh submission writes. */
  lemma SubmitShape(db: Db, c: SubmitCommand) returns (sealed: Sealed, stored: Stored)
    requires Submit(db, c).Ok? && LookupIdempotency(db, SubmitDraft, c.evidence) == Ok(None)
    ensures c.draft in db.drafts && c.submission !in db.submissions
    ensures var draft := db.drafts[c.draft];
            && Reload(db.rules, draft.stored).Ok?
            && Recanonicalize(db.rules, Reload(db.rules, draft.stored).value.package, draft.stored.digests) == Ok(sealed)
    ensures Columns(db.rules, sealed) == Ok(stored) && Reload(db.rules, stored).Ok?
    ensures Submit(db, c).value.0 ==
            Remember(db.(submissions := SupersedePending(db.submissions, c.draft, c.at)
                                        [c.submission := SubmittedRow(db.drafts[c.draft], stored, c)]), SubmitDraft, c.evidence,
                     NO_RESPONSE.(definition := db.drafts[c.draft].stored.definition, draft := c.draft, submission := c.submission))
  {
    var draft := db.drafts[c.draft];
    sealed := Recanonicalize(db.rules, Reload(db.rules, draft.stored).value.package, draft.stored.digests).value;
    stored := Columns(db.rules, sealed).value;
  }

  lemma SubmitExtends(db: Db, c: SubmitCommand)
    ensures Extends(db, Committed(db, Submit(db, c)))
  {
    if Submit(db, c).Ok? && LookupIdempotency(db, SubmitDraft, c.evidence) == Ok(None) {
      var sealed, stored := SubmitShape(db, c);
    }
  }

  lemma WithdrawExtends(db: Db, c: WithdrawCommand)
    ensures Extends(db, Committed(db, Withdraw(db, c)))
  {
    var b := Committed(db, Withdraw(db, c));
    if b != db { assert b == db.(submissions := b.submissions, idempotency := b.idempotency); }
  }

  lemma AppendExtends(db: Db, c: ReleaseCommand)
    ensures Extends(db, Committed(db, AppendRevision(db, c)))
  {
    var b := Committed(db, AppendRevision(db, c));
    if b != db { assert b == db.(releases := b.releases, revisions := b.revisions, audience := b.audience, idempotency := b.idempotency); }
  }

  lemma InsertInitialExtends(db: Db, definition: Uuid, version: Uuid, minimum: string, i: PlatformState.InitialRelease,
                             key: string, actor: Uuid, at: Time)
    ensures var r := InsertInitial(db, definition, version, minimum, i, key, actor, at);
            r.Ok? ==> Extends(db, r.value)
                      && r.value == db.(releases := r.value.releases, revisions := r.value.revisions)
  {
    var r := InsertInitial(db, definition, version, minimum, i, key, actor, at);
    if r.Ok? && r.value != db {
      assert r.value == db.(releases := r.value.releases, revisions := r.value.revisions);
    }
  }

  lemma {:induction false} InsertInitialsExtends(db: Db, definition: Uuid, version: Uuid, minimum: string,
                                                 initial: seq<PlatformState.InitialRelease>, key: string, actor: Uuid, at: Time)
    ensures var r := InsertInitials(db, definition, version, minimum, initial, key, actor, at);
            r.Ok? ==> Extends(db, r.value)
                      && r.value == db.(releases := r.value.releases, revisions := r.value.revisions)
  {
    if initial != [] {
      var last := |initial| - 1;
      InsertInitialsExtends(db, definition, version, minimum, initial[..last], key, actor, at);
      var before := InsertInitials(db, definition, version, minimum, initial[..last], key, actor, at);
      if before.Ok? {
        InsertInitialExtends(before.value, definition, version, minimum, initial[last], key, actor, at);
        var r := InsertInitials(db, definition, version, minimum, initial, key, actor, at);
        if r.Ok? { ExtendsTransitive(db, before.value, r.value); }
      }
    }
  }

  lemma TransitionExtends(db: Db, id: Uuid, expected: int, status: SubmissionStatus, at: Time)
    requires !status.Pending? && Transition(db, id, expected, status, at).Ok?
    ensures Extends(db, Transition(db, id, expected, status, at).value)
  {
  }

  /** The stages of a committed review that is not a replay. */
  lemma ReviewStages(db: Db, c: ReviewCommand)
    returns (row: Submission, sealed: Sealed, db1: Db, db2: Db, version: Uuid, db3: Db)
    requires ReviewStep(db, c).Ok? && LookupIdempotency(db, Operation.ReviewSubmission, c.evidence) == Ok(None)
    ensures c.submission in db.submissions && row == db.submissions[c.submission]
    ensures row.status.Pending? && row.revision == c.expectedRevision && row.submitter != c.actor
    ensures c.submission !in db.reviews
    ensures db1.reviews.Keys == db.reviews.Keys + {c.submission} && Grows(db.reviews, db1.reviews)
    ensures db1.reviews[c.submission].reviewer == c.actor && db1.reviews[c.submission].decision == c.decision
    ensures db1.reviews[c.submission].content == row.stored.digests.content
    ensures Reload(db.rules, row.stored).Ok?
    ensures Recanonicalize(db.rules, Reload(db.rules, row.stored).value.package, row.stored.digests) == Ok(sealed)
    ensures db1 == db.(reviews := db1.reviews)
    ensures c.decision.Approve? ==>
              && LockPublicationTarget(db, row.stored.definition, row.stored.kind, row.stored.base).Ok?
              && Publish(db1, c.submission, row, sealed,
                         LockPublicationTarget(db, row.stored.definition, row.stored.kind, row.stored.base).value, c) == Ok((db2, version))
    ensures c.decision.Reject? ==> db2 == db1
    ensures Transition(db2, c.submission, c.expectedRevision,
                       if c.decision.Approve? then Approved else Rejected, c.at) == Ok(db3)
    ensures ReviewStep(db, c).value.0 ==
            Remember(db3, Operation.ReviewSubmission, c.evidence,
                     NO_RESPONSE.(definition := row.stored.definition, draft := row.draft, submission := c.submission,
                                  version := if c.decision.Approve? then version else NIL))
  {
    row := db.submissions[c.submission];
    sealed := Reviewable(db, c).value;
    db1 := db.(reviews := db.reviews[c.submission := ReviewRow(c, row)]);
    if c.decision.Approve? {
      var number := LockPublicationTarget(db, row.stored.definition, row.stored.kind, row.stored.base).value;
      var published := Publish(db1, c.submission, row, sealed, number, c);
      db2, version := published.value.0, published.value.1;
    } else {
      db2, version := db1, NIL;
    }
    db3 := Transition(db2, c.submission, c.expectedRevision,
                      if c.decision.Approve? then Approved else Rejected, c.at).value;
  }

  /** The version row and definition head a publication writes, before its initial releases. */
  lemma PublishStages(db: Db, id: Uuid, row: Submission, sealed: Sealed, number: nat, c: ReviewCommand) returns (mid: Db)
    requires row.stored.definition in db.definitions && Publish(db, id, row, sealed, number, c).Ok?
    ensures var version := Publish(db, id, row, sealed, number, c).value.1;
            var definition := row.stored.definition;
            && c.built.Ok? && c.built.value.id == version && version != NIL && version !in db.versions
            && db.rules.version(sealed.package.manifest, sealed.package.files) == Ok(c.built.value.content)
            && mid == db.(versions := db.versions[version := Version(definition, number, c.built.value.content, id)],
                          definitions := db.definitions[definition := Definition(sealed.package.name, version)])
            && InsertInitials(mid, definition, version, c.built.value.minimumVersion, c.initial,
                              c.rolloutKey, c.actor, c.at) == Ok(Publish(db, id, row, sealed, number, c).value.0)
  {
    var version, definition := c.built.value.id, row.stored.definition;
    mid := db.(versions := db.versions[version := Version(definition, number, c.built.value.content, id)],
               definitions := db.definitions[definition := Definition(sealed.package.name, version)]);
  }

  lemma PublishExtends(db: Db, id: Uuid, row: Submission, sealed: Sealed, number: nat, c: ReviewCommand)
    requires row.stored.definition in db.definitions && Publish(db, id, row, sealed, number, c).Ok?
    ensures var r := Publish(db, id, row, sealed, number, c).value.0;
            && Extends(db, r)
            && r == db.(versions := r.versions, definitions := r.definitions,
                        releases := r.releases, revisions := r.revisions)
  {
    var mid := PublishStages(db, id, row, sealed, number, c);
    var version := Publish(db, id, row, sealed, number, c).value.1;
    assert Extends(db, mid);
    InsertInitialsExtends(mid, row.stored.definition, version, c.built.value.minimumVersion, c.initial,
                          c.rolloutKey, c.actor, c.at);
    ExtendsTransitive(db, mid, Publish(db, id, row, sealed, number, c).value.0);
  }

  lemma RememberExtends(db: Db, operation: Operation, evidence: Evidence, response: Response)
    requires (operation, evidence.key) !in db.idempotency
    ensures Extends(db, Remember(db, operation, evidence, response))
  {
  }

  lemma ReviewExtends(db: Db, c: ReviewCommand)
    ensures Extends(db, Committed(db, ReviewStep(db, c)))
  {
    if ReviewStep(db, c).Ok? && LookupIdempotency(db, Operation.ReviewSubmission, c.evidence) == Ok(None) {
      FreshReviewExtends(db, c);
    }
  }

  lemma FreshReviewExtends(db: Db, c: ReviewCommand)
    requires ReviewStep(db, c).Ok? && LookupIdempotency(db, Operation.ReviewSubmission, c.evidence) == Ok(None)
    ensures Extends(db, ReviewStep(db, c).value.0)
  {
    var row, sealed, db1, db2, version, db3 := ReviewStages(db, c);
    assert Extends(db1, db2) && db2.idempotency == db.idempotency by {
      if c.decision.Approve? {
        PublishExtends(db1, c.submission, row, sealed, LockPublicationTarget(db, row.stored.definition, row.stored.kind, row.stored.base).value, c);
      }
    }
    ReviewTailExtends(db1, db2, db3, c,
                      NO_RESPONSE.(definition := row.stored.definition, draft := row.draft, submission := c.submission,
                                   version := if c.decision.Approve? then version else NIL));
    ExtendsTransitive(db, db1, ReviewStep(db, c).value.0);
  }

  lemma ReviewTailExtends(db1: Db, db2: Db, db3: Db, c: ReviewCommand, response: Response)
    requires Extends(db1, db2) && (Operation.ReviewSubmission, c.evidence.key) !in db2.idempotency
    requires Transition(db2, c.submission, c.expectedRevision,
                        if c.decision.Approve? then Approved else Rejected, c.at) == Ok(db3)
    ensures Extends(db1, Remember(db3, Operation.ReviewSubmission, c.evidence, response))
  {
    TransitionExtends(db2, c.submission, c.expectedRevision,
                      if c.decision.Approve? then Approved else Rejected, c.at);
    RememberExtends(db3, Operation.ReviewSubmission, c.evidence, response);
    ExtendsTransitive(db1, db2, db3);
    ExtendsTransitive(db1, db3, Remember(db3, Operation.ReviewSubmission, c.evidence, response));
  }

  lemma StepExtends(db: Db, e: Event)
    ensures Extends(db, Apply(db, e))
  {
    match e
    case ReserveEvent(c) => ReserveExtends(db, c);
    case CreateEvent(c) => CreateExtends(db, c);
    case UpdateEvent(c) => UpdateExtends(db, c);
    case SubmitEvent(c) => SubmitExtends(db, c);
    case WithdrawEvent(c) => WithdrawExtends(db, c);
    case ReviewEvent(c) => ReviewExtends(db, c);
    case ReleaseEvent(c) => AppendExtends(db, c);
    case SurroundingsEvent(_) =>
  }

  /** Over any run, published rows, reviews, release revisions and audiences never change, a
      submission leaves `pending` at most once, and counters only go up. */
  lemma {:induction false} RunExtends(db: Db, events: seq<Event>)
    ensures Extends(db, Run(db, events))
  {
    if events != [] {
      var last := |events| - 1;
      RunExtends(db, events[..last]);
      StepExtends(Run(db, events[..last]), events[last]);
      ExtendsTransitive(db, Run(db, events[..last]), Run(db, events));
    }
  }
}
