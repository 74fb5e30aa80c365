/** Every step of the official pipeline keeps the invariant. */
module PlatformProofs {
  import opened Common
  import opened Bytes
  import opened SubmissionPackage
  import Manifest
  import opened PlatformState
  import opened PlatformSteps
  import opened PlatformInvariants

  // ---------- frames ----------

  lemma SubmissionsFrame(a: Db, b: Db)
    requires SubmissionsInv(a)
    requires b.rules == a.rules && b.drafts == a.drafts && b.submissions == a.submissions && b.reviews == a.reviews
    requires a.definitions.Keys <= b.definitions.Keys
    ensures SubmissionsInv(b)
  {
    forall d | d in b.drafts ensures DraftOk(b, d) { assert DraftOk(a, d); }
    forall s | s in b.submissions ensures SubmissionOk(b, s) { assert SubmissionOk(a, s); }
    forall s | s in b.reviews ensures ReviewOk(b, s) { assert ReviewOk(a, s); }
  }

  lemma VersionsFrame(a: Db, b: Db)
    requires VersionsInv(a) && Extends(a, b) && b.versions == a.versions
    requires forall d :: d in a.definitions ==> b.definitions[d] == a.definitions[d]
    requires forall d :: d in b.definitions && d !in a.definitions ==> d != NIL && b.definitions[d].latest == NIL
    requires forall s :: s in b.submissions && b.submissions[s].status.Approved? ==>
               s in a.submissions && a.submissions[s].status.Approved?
    ensures VersionsInv(b)
  {
    forall d | d in b.definitions ensures DefinitionOk(b, d) { if d in a.definitions { assert DefinitionOk(a, d); } }
    forall v | v in b.versions ensures VersionOk(b, v) { assert VersionOk(a, v); }
    forall s | s in b.submissions && b.submissions[s].status.Approved? ensures Published(b, s) {
      assert Published(a, s);
    }
  }

  lemma ReleasesFrame(a: Db, b: Db)
    requires ReleasesInv(a) && Extends(a, b)
    requires b.releases == a.releases && b.revisions == a.revisions && b.audience == a.audience
    ensures ReleasesInv(b)
  {
    forall r | r in b.releases ensures ReleaseOk(b, r) { assert ReleaseOk(a, r); }
    forall x | x in b.revisions ensures RevisionOk(b, x) { assert RevisionOk(a, x); assert Link(a, x); }
  }

  /** Idempotency rows stay sound as the state grows, whatever one new row remembers. */
  lemma IdempotencyFrame(a: Db, b: Db)
    requires IdempotencyInv(a) && Extends(a, b)
    requires forall k {:trigger IdempotencyOk(b, k)} :: k in b.idempotency && k !in a.idempotency ==> IdempotencyOk(b, k)
    ensures IdempotencyInv(b)
  {
    forall k | k in b.idempotency ensures IdempotencyOk(b, k) {
      if k in a.idempotency { assert IdempotencyOk(a, k); }
    }
  }

  // ---------- drafts ----------

  lemma ReserveInv(db: Db, c: ReserveCommand)
    requires Inv(db)
    ensures Inv(Committed(db, Reserve(db, c)))
  {
    var b := Committed(db, Reserve(db, c));
    ReserveExtends(db, c);
    SubmissionsFrame(db, b);
    VersionsFrame(db, b);
    ReleasesFrame(db, b);
    IdempotencyFrame(db, b);
  }

  /** A draft row may be new, or move on with a higher revision. */
  lemma DraftChangeInv(db: Db, b: Db)
    requires Inv(db) && Extends(db, b)
    requires b == db.(drafts := b.drafts, idempotency := b.idempotency)
    requires forall d {:trigger DraftOk(b, d)} :: d in b.drafts ==> DraftOk(b, d)
    requires forall k {:trigger IdempotencyOk(b, k)} :: k in b.idempotency && k !in db.idempotency ==> IdempotencyOk(b, k)
    ensures Inv(b)
  {
    forall s | s in b.submissions ensures SubmissionOk(b, s) { assert SubmissionOk(db, s); }
    forall s | s in b.reviews ensures ReviewOk(b, s) { assert ReviewOk(db, s); }
    VersionsFrame(db, b);
    ReleasesFrame(db, b);
    IdempotencyFrame(db, b);
  }

  lemma CreatedOk(rules: Rules, s: Sealed)
    requires SelfCanonical(rules, s)
    ensures Columns(rules, s).Ok? && StoredOk(rules, Columns(rules, s).value)
    ensures Columns(rules, s).value.definition == s.package.definition
  {
    SelfCanonicalIsIntact(rules, s);
    IntactReloads(rules, Columns(rules, s).value);
  }

  lemma CreateInv(db: Db, c: CreateCommand)
    requires Inv(db)
    ensures Inv(Committed(db, Create(db, c)))
  {
    var b := Committed(db, Create(db, c));
    CreateExtends(db, c);
    if b != db {
      CreatedOk(db.rules, c.canonical);
      forall d | d in b.drafts ensures DraftOk(b, d) { if d in db.drafts { assert DraftOk(db, d); } }
      DraftChangeInv(db, b);
    }
  }

  /** A package that was canonicalized and could be written reads back. */
  lemma UpdatedOk(rules: Rules, package: Package, sealed: Sealed, stored: Stored)
    requires Canonicalize(rules, package) == Ok(sealed) && Columns(rules, sealed) == Ok(stored) && Reload(rules, stored).Ok?
    ensures StoredOk(rules, stored) && stored.definition == package.definition
  {
    if Lawful(rules) {
      CanonicalIsIntact(rules, package);
      SelfCanonicalIsIntact(rules, sealed);
    }
  }

  lemma UpdateInv(db: Db, c: UpdateCommand)
    requires Inv(db)
    ensures Inv(Committed(db, Update(db, c)))
  {
    if Update(db, c).Ok? && LookupIdempotency(db, UpdateDraft, c.evidence) == Ok(None) {
      var b := Update(db, c).value.0;
      var sealed, stored := UpdateShape(db, c);
      UpdatedOk(db.rules, Requested(c, db.drafts[c.draft]), sealed, stored);
      UpdateExtends(db, c);
      forall d | d in b.drafts ensures DraftOk(b, d) { assert DraftOk(db, d); }
      DraftChangeInv(db, b);
    }
  }

  // ---------- submissions ----------

  /** A submission that moved to another valid state over the same draft. */
  lemma SubmissionCarries(a: Db, b: Db, s: Uuid)
    requires s in a.submissions && SubmissionOk(a, s) && s in b.submissions
    requires b.rules == a.rules && b.drafts == a.drafts && a.definitions.Keys <= b.definitions.Keys
    requires var (before, after) := (a.submissions[s], b.submissions[s]);
             after == before.(status := after.status, revision := after.revision, terminalAt := after.terminalAt)
    requires ValidSubmissionState(b.submissions[s], s in b.reviews)
    ensures SubmissionOk(b, s)
  {
  }

  lemma DraftsCarry(a: Db, b: Db)
    requires SubmissionsInv(a) && b.rules == a.rules && b.drafts == a.drafts && a.definitions.Keys <= b.definitions.Keys
    ensures forall d {:trigger DraftOk(b, d)} :: d in b.drafts ==> DraftOk(b, d)
  {
    forall d | d in b.drafts ensures DraftOk(b, d) { assert DraftOk(a, d); }
  }

  /** Submissions may be added or become terminal without an approval; no version appears. */
  lemma SubmissionChangeInv(db: Db, b: Db)
    requires Inv(db) && Extends(db, b)
    requires b == db.(submissions := b.submissions, reviews := b.reviews, idempotency := b.idempotency)
    requires SubmissionsInv(b)
    requires forall s :: s in b.submissions && b.submissions[s].status.Approved? ==>
               s in db.submissions && db.submissions[s].status.Approved?
    requires forall k {:trigger IdempotencyOk(b, k)} :: k in b.idempotency && k !in db.idempotency ==> IdempotencyOk(b, k)
    ensures Inv(b)
  {
    VersionsFrame(db, b);
    ReleasesFrame(db, b);
    IdempotencyFrame(db, b);
  }

  lemma SubmittedRowOk(db: Db, b: Db, draft: Uuid, id: Uuid)
    requires SubmissionsInv(db) && b.rules == db.rules && b.drafts == db.drafts && b.definitions == db.definitions
    requires draft in db.drafts && id in b.submissions && id !in b.reviews
    requires var row := b.submissions[id];
             && row.draft == draft && row.draftRevision == db.drafts[draft].revision
             && row.status.Pending? && row.revision == 1 && row.terminalAt.None?
             && row.stored.definition == db.drafts[draft].stored.definition
             && StoredOk(db.rules, row.stored) && (Lawful(db.rules) ==> row.stored == db.drafts[draft].stored)
    ensures SubmissionOk(b, id)
  {
    assert DraftOk(db, draft);
  }

  lemma SupersededOnePending(submissions: map<Uuid, Submission>, draft: Uuid, id: Uuid, row: Submission, at: Time)
    requires OnePendingPerDraft(submissions) && id !in submissions && row.draft == draft
    ensures OnePendingPerDraft(SupersedePending(submissions, draft, at)[id := row])
  {
  }

  /** A row other than the new one: as it was, or superseded from pending. */
  lemma SupersededCarries(db: Db, b: Db, draft: Uuid, id: Uuid, row: Submission, at: Time, s: Uuid)
    requires SubmissionsInv(db) && b.rules == db.rules && b.definitions == db.definitions && b.drafts == db.drafts && b.reviews == db.reviews
    requires b.submissions == SupersedePending(db.submissions, draft, at)[id := row] && s in db.submissions && s != id
    ensures SubmissionOk(b, s)
    ensures s in db.reviews ==> b.submissions[s] == db.submissions[s]
  {
    assert SubmissionOk(db, s);
    SubmissionCarries(db, b, s);
  }

  lemma SubmittedSubmissionsInv(db: Db, b: Db, draft: Uuid, id: Uuid, row: Submission, at: Time)
    requires SubmissionsInv(db) && b.rules == db.rules
    requires b.definitions == db.definitions && b.drafts == db.drafts && b.reviews == db.reviews
    requires id !in db.submissions && draft in db.drafts && row.draft == draft
    requires row.status.Pending? && row.revision == 1 && row.terminalAt.None?
    requires row.stored.definition == db.drafts[draft].stored.definition && row.draftRevision == db.drafts[draft].revision
    requires StoredOk(db.rules, row.stored) && (Lawful(db.rules) ==> row.stored == db.drafts[draft].stored)
    requires b.submissions == SupersedePending(db.submissions, draft, at)[id := row]
    ensures SubmissionsInv(b)
  {
    DraftsCarry(db, b);
    SupersededOnePending(db.submissions, draft, id, row, at);
    forall s | s in b.reviews ensures s in db.submissions && ReviewOk(b, s) {
      assert ReviewOk(db, s);
      SupersededCarries(db, b, draft, id, row, at, s);
    }
    assert id !in b.reviews;
    forall s | s in b.submissions ensures SubmissionOk(b, s) {
      if s == id { SubmittedRowOk(db, b, draft, id); } else { SupersededCarries(db, b, draft, id, row, at, s); }
    }
  }

  /** What a submission copies from a draft that reads back. */
  lemma CopiedOk(rules: Rules, draft: Stored, sealed: Sealed, stored: Stored)
    requires StoredOk(rules, draft) && Recanonicalize(rules, Reload(rules, draft).value.package, draft.digests) == Ok(sealed)
    requires Columns(rules, sealed) == Ok(stored) && Reload(rules, stored).Ok?
    ensures StoredOk(rules, stored) && stored.definition == draft.definition && (Lawful(rules) ==> stored == draft)
  {
    if Lawful(rules) { IntactReloads(rules, draft); }
  }

  lemma SubmitInv(db: Db, c: SubmitCommand)
    requires Inv(db)
    ensures Inv(Committed(db, Submit(db, c)))
  {
    if Submit(db, c).Ok? && LookupIdempotency(db, SubmitDraft, c.evidence) == Ok(None) {
      var b, draft := Submit(db, c).value.0, db.drafts[c.draft];
      var sealed, stored := SubmitShape(db, c);
      assert DraftOk(db, c.draft);
      CopiedOk(db.rules, draft.stored, sealed, stored);
      SubmittedSubmissionsInv(db, b, c.draft, c.submission, SubmittedRow(draft, stored, c), c.at);
      SubmitExtends(db, c);
      SubmissionChangeInv(db, b);
    }
  }

  lemma WithdrawnSubmissionsInv(db: Db, b: Db, id: Uuid, at: Time)
    requires SubmissionsInv(db) && b.rules == db.rules
    requires b.definitions == db.definitions && b.drafts == db.drafts && b.reviews == db.reviews
    requires id in db.submissions && db.submissions[id].status.Pending?
    requires b.submissions == db.submissions[id := Terminal(db.submissions[id], Withdrawn, at)]
    ensures SubmissionsInv(b)
  {
    DraftsCarry(db, b);
    forall s | s in b.submissions ensures SubmissionOk(b, s) { assert SubmissionOk(db, s); SubmissionCarries(db, b, s); }
    forall s | s in b.reviews ensures ReviewOk(b, s) { assert ReviewOk(db, s); assert SubmissionOk(db, s); }
  }

  lemma WithdrawInv(db: Db, c: WithdrawCommand)
    requires Inv(db)
    ensures Inv(Committed(db, Withdraw(db, c)))
  {
    var b := Committed(db, Withdraw(db, c));
    WithdrawExtends(db, c);
    if b != db {
      WithdrawnSubmissionsInv(db, b, c.submission, c.at);
      SubmissionChangeInv(db, b);
    }
  }

  // ---------- review ----------

  /** After a review the submission is terminal and carries exactly that review. */
  lemma ReviewedSubmissionsInv(db: Db, b: Db, id: Uuid, review: Review, status: SubmissionStatus, at: Time)
    requires SubmissionsInv(db) && b.rules == db.rules && db.definitions.Keys <= b.definitions.Keys && b.drafts == db.drafts
    requires id in db.submissions && db.submissions[id].status.Pending? && id !in db.reviews
    requires status.Approved? || status.Rejected?
    requires review.content == db.submissions[id].stored.digests.content
    requires review.reviewer != db.submissions[id].submitter && (review.decision.Approve? <==> status.Approved?)
    requires b.reviews == db.reviews[id := review]
    requires b.submissions == db.submissions[id := Terminal(db.submissions[id], status, at)]
    ensures SubmissionsInv(b)
  {
    DraftsCarry(db, b);
    forall s | s in b.submissions ensures SubmissionOk(b, s) { assert SubmissionOk(db, s); SubmissionCarries(db, b, s); }
    forall s | s in b.reviews ensures ReviewOk(b, s) { if s != id { assert ReviewOk(db, s); } }
  }

  /** What publishing `id` as `version` writes. */
  ghost predicate Publishes(db: Db, b: Db, id: Uuid, version: Uuid, number: nat, name: seq<Byte>, content: Manifest.Canonical, at: Time) {
    && b.rules == db.rules && id in db.submissions && db.submissions[id].status.Pending?
    && version != NIL && version !in db.versions
    && var row := db.submissions[id];
    && row.stored.definition in db.definitions
    && LockPublicationTarget(db, row.stored.definition, row.stored.kind, row.stored.base) == Ok(number)
    && (Lawful(db.rules) ==> content == row.stored.content)
    && b.versions == db.versions[version := Version(row.stored.definition, number, content, id)]
    && b.definitions == db.definitions[row.stored.definition := Definition(name, version)]
    && b.submissions == db.submissions[id := Terminal(row, Approved, at)]
  }

  /** The number given out is above every number in use, and the submission backs no version yet. */
  lemma NextNumberIsFresh(db: Db, b: Db, id: Uuid, version: Uuid, number: nat, name: seq<Byte>, content: Manifest.Canonical, at: Time, v: Uuid)
    requires VersionsInv(db) && Publishes(db, b, id, version, number, name, content, at) && v in db.versions
    ensures db.versions[v].submission != id
    ensures db.versions[v].definition == db.submissions[id].stored.definition ==> db.versions[v].number < number
  {
    assert VersionOk(db, v);
    assert DefinitionOk(db, db.submissions[id].stored.definition);
  }

  lemma PublishedVersionOk(db: Db, b: Db, id: Uuid, version: Uuid, number: nat, name: seq<Byte>, content: Manifest.Canonical, at: Time, v: Uuid)
    requires VersionsInv(db) && Publishes(db, b, id, version, number, name, content, at) && v in b.versions
    ensures VersionOk(b, v)
  {
    assert DefinitionOk(db, db.submissions[id].stored.definition);
    if v != version {
      assert VersionOk(db, v);
      NextNumberIsFresh(db, b, id, version, number, name, content, at, v);
    }
  }

  /** Publishing puts the next number on the head, based on the previous head. */
  lemma PublishedVersionsInv(db: Db, b: Db, id: Uuid, version: Uuid, number: nat, name: seq<Byte>, content: Manifest.Canonical, at: Time)
    requires VersionsInv(db) && Publishes(db, b, id, version, number, name, content, at)
    ensures VersionsInv(b)
  {
    forall v | v in b.versions ensures VersionOk(b, v) { PublishedVersionOk(db, b, id, version, number, name, content, at, v); }
    forall d | d in b.definitions ensures DefinitionOk(b, d) { assert DefinitionOk(db, d); }
    PublishedDistinct(db, b, id, version, number, name, content, at);
    forall s | s in b.submissions && b.submissions[s].status.Approved? ensures Published(b, s) {
      StillPublished(db, b, id, version, number, name, content, at, s);
    }
  }

  lemma PublishedDistinct(db: Db, b: Db, id: Uuid, version: Uuid, number: nat, name: seq<Byte>, content: Manifest.Canonical, at: Time)
    requires VersionsInv(db) && Publishes(db, b, id, version, number, name, content, at)
    ensures DistinctVersions(b.versions)
  {
    forall v | v in db.versions
      ensures db.versions[v].submission != id
      ensures db.versions[v].definition == db.submissions[id].stored.definition ==> db.versions[v].number < number
    {
      NextNumberIsFresh(db, b, id, version, number, name, content, at, v);
    }
  }

  lemma StillPublished(db: Db, b: Db, id: Uuid, version: Uuid, number: nat, name: seq<Byte>, content: Manifest.Canonical, at: Time, s: Uuid)
    requires VersionsInv(db) && Publishes(db, b, id, version, number, name, content, at)
    requires s in b.submissions && b.submissions[s].status.Approved?
    ensures Published(b, s)
  {
    if s == id {
      assert b.versions[version].submission == id;
    } else {
      assert Published(db, s);
      var v :| v in db.versions && db.versions[v].submission == s;
      assert b.versions[v].submission == s;
    }
  }

  lemma NewReleaseKeepsRevisions(db: Db, b: Db, release: Uuid, revision: Uuid, x: Uuid)
    requires ReleasesInv(db) && x in db.revisions && release !in db.releases && revision !in db.revisions
    requires b.versions == db.versions && b.audience == db.audience
    requires release in b.releases && b.releases == db.releases[release := b.releases[release]]
    requires revision in b.revisions && b.revisions == db.revisions[revision := b.revisions[revision]]
    ensures RevisionOk(b, x) && db.revisions[x].release != release
  {
    assert RevisionOk(db, x);
    assert Link(db, x);
  }

  lemma InsertInitialInv(db: Db, definition: Uuid, version: Uuid, minimum: string, i: PlatformState.InitialRelease,
                         key: string, actor: Uuid, at: Time)
    requires ReleasesInv(db) && definition in db.definitions && definition != NIL && version != NIL
    requires version in db.versions && db.versions[version].definition == definition
    requires i.release != NIL && i.revision != NIL
    requires InsertInitial(db, definition, version, minimum, i, key, actor, at).Ok?
    ensures ReleasesInv(InsertInitial(db, definition, version, minimum, i, key, actor, at).value)
  {
    var b := InsertInitial(db, definition, version, minimum, i, key, actor, at).value;
    if b != db {
      assert AudienceSet(b.audience, i.revision) == {};
      assert RevisionOk(b, i.revision);
      assert forall r :: r in db.releases && db.releases[r].definition == definition ==> db.releases[r].channel != i.channel;
      NewReleaseInv(db, b, i.release, i.revision);
    }
  }

  /** A release inserted with its first revision. */
  lemma NewReleaseInv(db: Db, b: Db, release: Uuid, revision: Uuid)
    requires ReleasesInv(db) && release !in db.releases && revision !in db.revisions
    requires b.versions == db.versions && b.audience == db.audience && b.definitions == db.definitions
    requires release in b.releases && b.releases == db.releases[release := b.releases[release]]
    requires revision in b.revisions && b.revisions == db.revisions[revision := b.revisions[revision]]
    requires RevisionOk(b, revision) && ReleaseOk(b, release) && b.revisions[revision].release == release
    requires forall r :: r in db.releases && db.releases[r].definition == b.releases[release].definition ==>
               db.releases[r].channel != b.releases[release].channel
    ensures ReleasesInv(b)
  {
    forall x | x in db.revisions ensures db.revisions[x].release != release && RevisionOk(b, x) {
      NewReleaseKeepsRevisions(db, b, release, revision, x);
    }
    forall r | r in b.releases ensures ReleaseOk(b, r) { if r in db.releases { assert ReleaseOk(db, r); } }
  }

  lemma {:induction false} InsertInitialsInv(
    db: Db, definition: Uuid, version: Uuid, minimum: string, initial: seq<PlatformState.InitialRelease>,
    key: string, actor: Uuid, at: Time)
    requires ReleasesInv(db) && definition in db.definitions && definition != NIL && version != NIL
    requires version in db.versions && db.versions[version].definition == definition
    requires forall k :: 0 <= k < |initial| ==> initial[k].release != NIL && initial[k].revision != NIL
    requires InsertInitials(db, definition, version, minimum, initial, key, actor, at).Ok?
    ensures ReleasesInv(InsertInitials(db, definition, version, minimum, initial, key, actor, at).value)
  {
    if initial != [] {
      var last := |initial| - 1;
      InsertInitialsInv(db, definition, version, minimum, initial[..last], key, actor, at);
      var before := InsertInitials(db, definition, version, minimum, initial[..last], key, actor, at).value;
      InsertInitialsExtends(db, definition, version, minimum, initial[..last], key, actor, at);
      InsertInitialInv(before, definition, version, minimum, initial[last], key, actor, at);
    }
  }

  lemma PublishReleasesInv(db: Db, id: Uuid, row: Submission, sealed: Sealed, number: nat, c: ReviewCommand)
    requires ReleasesInv(db) && ValidReview(c) && c.decision.Approve?
    requires row.stored.definition in db.definitions && row.stored.definition != NIL && Publish(db, id, row, sealed, number, c).Ok?
    ensures ReleasesInv(Publish(db, id, row, sealed, number, c).value.0)
  {
    var mid := PublishStages(db, id, row, sealed, number, c);
    var version := Publish(db, id, row, sealed, number, c).value.1;
    ReleasesFrame(db, mid);
    InsertInitialsInv(mid, row.stored.definition, version, c.built.value.minimumVersion, c.initial, c.rolloutKey, c.actor, c.at);
  }

  lemma ReviewInv(db: Db, c: ReviewCommand)
    requires Inv(db)
    ensures Inv(Committed(db, ReviewStep(db, c)))
  {
    if ReviewStep(db, c).Ok? && LookupIdempotency(db, Operation.ReviewSubmission, c.evidence) == Ok(None) {
      if c.decision.Approve? { ApproveInv(db, c); } else { RejectInv(db, c); }
    }
  }

  lemma RejectInv(db: Db, c: ReviewCommand)
    requires Inv(db) && c.decision.Reject?
    requires ReviewStep(db, c).Ok? && LookupIdempotency(db, Operation.ReviewSubmission, c.evidence) == Ok(None)
    ensures Inv(ReviewStep(db, c).value.0)
  {
    var b, review := RejectShape(db, c);
    ReviewedSubmissionsInv(db, b, c.submission, review, Rejected, c.at);
    FreshReviewExtends(db, c);
    SubmissionChangeInv(db, b);
  }

  lemma RejectShape(db: Db, c: ReviewCommand) returns (b: Db, review: Review)
    requires c.decision.Reject?
    requires ReviewStep(db, c).Ok? && LookupIdempotency(db, Operation.ReviewSubmission, c.evidence) == Ok(None)
    ensures b == ReviewStep(db, c).value.0
    ensures c.submission in db.submissions && db.submissions[c.submission].status.Pending? && c.submission !in db.reviews
    ensures review.reviewer != db.submissions[c.submission].submitter && review.decision.Reject?
    ensures review.content == db.submissions[c.submission].stored.digests.content
    ensures b.submissions == db.submissions[c.submission := Terminal(db.submissions[c.submission], Rejected, c.at)]
    ensures b.reviews == db.reviews[c.submission := review]
    ensures b == db.(submissions := b.submissions, reviews := b.reviews, idempotency := b.idempotency)
    ensures forall k {:trigger IdempotencyOk(b, k)} :: k in b.idempotency && k !in db.idempotency ==> IdempotencyOk(b, k)
  {
    var row, sealed, db1, db2, version, db3 := ReviewStages(db, c);
    b := ReviewStep(db, c).value.0;
    review := b.reviews[c.submission];
  }

  lemma ApproveShape(db: Db, c: ReviewCommand)
    returns (b: Db, review: Review, version: Uuid, number: nat, name: seq<Byte>, content: Manifest.Canonical)
    requires c.decision.Approve? && Inv(db)
    requires ReviewStep(db, c).Ok? && LookupIdempotency(db, Operation.ReviewSubmission, c.evidence) == Ok(None)
    ensures b == ReviewStep(db, c).value.0
    ensures Publishes(db, b, c.submission, version, number, name, content, c.at)
    ensures c.submission !in db.reviews && b.reviews == db.reviews[c.submission := review]
    ensures review.reviewer != db.submissions[c.submission].submitter && review.decision.Approve?
    ensures review.content == db.submissions[c.submission].stored.digests.content
    ensures b.drafts == db.drafts
    ensures forall k {:trigger IdempotencyOk(b, k)} :: k in b.idempotency && k !in db.idempotency ==> IdempotencyOk(b, k)
  {
    var row, sealed, db1, db2, v, db3 := ReviewStages(db, c);
    b, review, version := ReviewStep(db, c).value.0, db1.reviews[c.submission], v;
    number, name, content := ApproveRows(db, db1, db2, row, sealed, v, c);
    ApprovedContent(db, c.submission, sealed, content);
    ApproveTail(db, db1, db2, db3, b, version, number, name, content, c);
  }

  /** Under lawful rules the content built from a submission that reads back is the content it stores. */
  lemma ApprovedContent(db: Db, s: Uuid, sealed: Sealed, content: Manifest.Canonical)
    requires SubmissionsInv(db) && s in db.submissions
    requires var st := db.submissions[s].stored;
             Reload(db.rules, st).Ok? && Recanonicalize(db.rules, Reload(db.rules, st).value.package, st.digests) == Ok(sealed)
    requires db.rules.version(sealed.package.manifest, sealed.package.files) == Ok(content)
    ensures Lawful(db.rules) ==> content == db.submissions[s].stored.content
  {
    assert SubmissionOk(db, s);
    if Lawful(db.rules) { IntactReloads(db.rules, db.submissions[s].stored); }
  }

  lemma ApproveTail(db: Db, db1: Db, db2: Db, db3: Db, b: Db, version: Uuid, number: nat, name: seq<Byte>,
                    content: Manifest.Canonical, c: ReviewCommand)
    requires c.submission in db.submissions && db.submissions[c.submission].status.Pending?
    requires var row := db.submissions[c.submission];
             && LockPublicationTarget(db, row.stored.definition, row.stored.kind, row.stored.base) == Ok(number)
             && (Lawful(db.rules) ==> content == row.stored.content)
             && db2.versions == db.versions[version := Version(row.stored.definition, number, content, c.submission)]
             && db2.definitions == db.definitions[row.stored.definition := Definition(name, version)]
             && b == Remember(db3, Operation.ReviewSubmission, c.evidence,
                              NO_RESPONSE.(definition := row.stored.definition, draft := row.draft,
                                           submission := c.submission, version := version))
    requires version != NIL && version !in db.versions
    requires db1 == db.(reviews := db1.reviews)
    requires db2 == db1.(versions := db2.versions, definitions := db2.definitions,
                         releases := db2.releases, revisions := db2.revisions)
    requires Transition(db2, c.submission, c.expectedRevision, Approved, c.at) == Ok(db3)
    ensures Publishes(db, b, c.submission, version, number, name, content, c.at)
    ensures b.reviews == db1.reviews && b.drafts == db.drafts
    ensures forall k {:trigger IdempotencyOk(b, k)} :: k in b.idempotency && k !in db.idempotency ==> IdempotencyOk(b, k)
  {
  }

  lemma ApproveRows(db: Db, db1: Db, db2: Db, row: Submission, sealed: Sealed, version: Uuid, c: ReviewCommand)
    returns (number: nat, name: seq<Byte>, content: Manifest.Canonical)
    requires db1 == db.(reviews := db1.reviews)
    requires LockPublicationTarget(db, row.stored.definition, row.stored.kind, row.stored.base).Ok?
    requires Publish(db1, c.submission, row, sealed,
                     LockPublicationTarget(db, row.stored.definition, row.stored.kind, row.stored.base).value, c) == Ok((db2, version))
    ensures LockPublicationTarget(db, row.stored.definition, row.stored.kind, row.stored.base) == Ok(number)
    ensures version != NIL && version !in db.versions
    ensures db.rules.version(sealed.package.manifest, sealed.package.files) == Ok(content)
    ensures db2.versions == db.versions[version := Version(row.stored.definition, number, content, c.submission)]
    ensures db2.definitions == db.definitions[row.stored.definition := Definition(name, version)]
    ensures db2 == db1.(versions := db2.versions, definitions := db2.definitions,
                        releases := db2.releases, revisions := db2.revisions)
  {
    number := LockPublicationTarget(db, row.stored.definition, row.stored.kind, row.stored.base).value;
    name, content := sealed.package.name, c.built.value.content;
    var mid := PublishStages(db1, c.submission, row, sealed, number, c);
    InsertInitialsExtends(mid, row.stored.definition, version, c.built.value.minimumVersion, c.initial,
                          c.rolloutKey, c.actor, c.at);
  }

  lemma ApproveReleasesInv(db: Db, c: ReviewCommand)
    requires Inv(db) && c.decision.Approve?
    requires ReviewStep(db, c).Ok? && LookupIdempotency(db, Operation.ReviewSubmission, c.evidence) == Ok(None)
    ensures ReleasesInv(ReviewStep(db, c).value.0)
  {
    var row, sealed, db1, db2, version, db3 := ReviewStages(db, c);
    assert DefinitionOk(db, row.stored.definition);
    ReleasesFrame(db, db1);
    PublishReleasesInv(db1, c.submission, row, sealed, LockPublicationTarget(db, row.stored.definition, row.stored.kind, row.stored.base).value, c);
    ReviewTailReleases(db2, db3, c, ReviewStep(db, c).value.0);
  }

  lemma ReviewTailReleases(db2: Db, db3: Db, c: ReviewCommand, b: Db)
    requires ReleasesInv(db2)
    requires Transition(db2, c.submission, c.expectedRevision,
                        if c.decision.Approve? then Approved else Rejected, c.at) == Ok(db3)
    requires b == db3.(idempotency := b.idempotency)
    ensures ReleasesInv(b)
  {
    forall r | r in b.releases ensures ReleaseOk(b, r) { assert ReleaseOk(db2, r); }
    forall x | x in b.revisions ensures RevisionOk(b, x) { assert RevisionOk(db2, x); assert Link(db2, x); }
  }

  lemma ApproveInv(db: Db, c: ReviewCommand)
    requires Inv(db) && c.decision.Approve?
    requires ReviewStep(db, c).Ok? && LookupIdempotency(db, Operation.ReviewSubmission, c.evidence) == Ok(None)
    ensures Inv(ReviewStep(db, c).value.0)
  {
    var b, review, version, number, name, content := ApproveShape(db, c);
    ReviewedSubmissionsInv(db, b, c.submission, review, Approved, c.at);
    PublishedVersionsInv(db, b, c.submission, version, number, name, content, c.at);
    ApproveReleasesInv(db, c);
    FreshReviewExtends(db, c);
    IdempotencyFrame(db, b);
  }

  // ---------- releases ----------

  /** The rows appending `next` with `audience` to a release writes. */
  ghost predicate AppendRows(db: Db, b: Db, c: ReleaseCommand, next: Revision, audience: seq<Uuid>) {
    && c.release in db.releases && c.revision != NIL && c.revision !in db.revisions
    && c.at >= db.releases[c.release].createdAt
    && b.revisions == db.revisions[c.revision := next]
    && b.audience == db.audience + AudienceRows(c.revision, audience)
    && b.releases == db.releases[c.release :=
         db.releases[c.release].(current := c.revision, head := next.number, updatedAt := c.at)]
    && b == db.(revisions := b.revisions, audience := b.audience, releases := b.releases, idempotency := b.idempotency)
  }

  /** What appending `next`, built from the command, to a release writes. */
  ghost predicate Appends(db: Db, b: Db, c: ReleaseCommand, next: Revision, audience: seq<Uuid>) {
    && AppendRows(db, b, c, next, audience)
    && LoadRelease(db, c.release).Ok?
    && BuildRevision(db, LoadRelease(db, c.release).value, c) == Ok((next, audience))
    && ValidRelease(c)
  }

  lemma AppendShape(db: Db, c: ReleaseCommand) returns (b: Db, next: Revision, audience: seq<Uuid>)
    requires AppendRevision(db, c).Ok?
    requires LookupIdempotency(db, ReleaseOperation(c.action), c.evidence) == Ok(None)
    ensures b == AppendRevision(db, c).value.0 && Appends(db, b, c, next, audience)
    ensures AppendRevision(db, c).value.1 ==
            LoadRelease(db, c.release).value
            .(current := c.revision, head := next.number, revision := RevisionView(c.revision, next, audience),
              updatedAt := c.at)
    ensures forall k {:trigger IdempotencyOk(b, k)} :: k in b.idempotency && k !in db.idempotency ==> IdempotencyOk(b, k)
  {
    b := AppendRevision(db, c).value.0;
    var built := BuildRevision(db, LoadRelease(db, c.release).value, c).value;
    next, audience := built.0, built.1;
  }

  lemma AppendedAudience(db: Db, b: Db, c: ReleaseCommand, next: Revision, audience: seq<Uuid>)
    requires ReleasesInv(db) && AppendRows(db, b, c, next, audience)
    ensures AudienceSet(b.audience, c.revision) == Members(audience)
    ensures forall y :: y != c.revision ==> AudienceSet(b.audience, y) == AudienceSet(db.audience, y)
  {
    forall u | u in Members(audience) ensures u in AudienceSet(b.audience, c.revision) {
      assert (c.revision, u) in b.audience;
    }
    forall y | y != c.revision ensures AudienceSet(b.audience, y) == AudienceSet(db.audience, y) {}
  }

  lemma AppendKeepsRevision(db: Db, b: Db, c: ReleaseCommand, next: Revision, audience: seq<Uuid>, x: Uuid)
    requires ReleasesInv(db) && AppendRows(db, b, c, next, audience) && x in db.revisions
    requires next.number == db.releases[c.release].head + 1
    requires forall y :: y != c.revision ==> AudienceSet(b.audience, y) == AudienceSet(db.audience, y)
    ensures RevisionOk(b, x)
    ensures db.revisions[x].release == c.release ==> db.revisions[x].number < next.number
  {
    assert RevisionOk(db, x);
    assert Link(db, x);
  }

  /** The facts about the head and about the appended row that the release row carries over. */
  lemma AppendedHead(db: Db, b: Db, c: ReleaseCommand, next: Revision, audience: seq<Uuid>)
    requires ReleasesInv(db) && Appends(db, b, c, next, audience)
    ensures var head := db.releases[c.release].current;
            && head in db.revisions && RevisionOk(db, head) && ReleaseOk(db, c.release)
            && next.release == c.release && next.number == db.releases[c.release].head + 1
            && next.previous == head && next.action == c.action
  {
    assert ReleaseOk(db, c.release);
    assert RevisionOk(db, db.releases[c.release].current);
    LoadedRow(db, c.release);
    BuiltRow(db, LoadRelease(db, c.release).value, c);
  }

  lemma LoadedRow(db: Db, r: Uuid)
    requires r in db.releases && LoadRelease(db, r).Ok?
    ensures var view := LoadRelease(db, r).value;
            view.id == r && view.head == db.releases[r].head && view.revision.id == db.releases[r].current
  {
  }

  lemma BuiltRow(db: Db, current: ReleaseView, c: ReleaseCommand)
    requires BuildRevision(db, current, c).Ok?
    ensures var next := BuildRevision(db, current, c).value.0;
            && next.release == current.id && next.number == current.head + 1
            && next.previous == current.revision.id && next.action == c.action
  {
  }

  lemma AppendedPayload(db: Db, b: Db, c: ReleaseCommand, next: Revision, audience: seq<Uuid>, from: Uuid)
    requires ReleasesInv(db) && AppendRows(db, b, c, next, audience)
    requires from in db.revisions && audience == AudienceOf(db.audience, from)
    requires next.version == db.revisions[from].version && next.rollout == db.revisions[from].rollout
    ensures SamePayload(b, c.revision, from)
  {
    AppendedAudience(db, b, c, next, audience);
    AscendingMembers(AudienceSet(db.audience, from));
  }

  lemma AppendedLink(db: Db, b: Db, c: ReleaseCommand, next: Revision, audience: seq<Uuid>)
    requires ReleasesInv(db) && Appends(db, b, c, next, audience)
    ensures Link(b, c.revision)
  {
    AppendedHead(db, b, c, next, audience);
    var head := db.releases[c.release].current;
    match c.action
    case Activate =>
    case RolloutUpdate =>
    case Pause => AppendedPayload(db, b, c, next, audience, head);
    case Resume => AppendedPayload(db, b, c, next, audience, head);
    case Rollback => AppendedPayload(db, b, c, next, audience, c.target);
  }

  lemma AppendedRevisionOk(db: Db, b: Db, c: ReleaseCommand, next: Revision, audience: seq<Uuid>)
    requires ReleasesInv(db) && VersionsInv(db) && Appends(db, b, c, next, audience)
    ensures RevisionOk(b, c.revision)
  {
    AppendedHead(db, b, c, next, audience);
    AppendedLink(db, b, c, next, audience);
    if c.action.Rollback? { assert RevisionOk(db, c.target); }
    if c.action.Activate? { assert VersionOk(db, c.version); }
  }

  lemma AppendedReleasesInv(db: Db, b: Db, c: ReleaseCommand, next: Revision, audience: seq<Uuid>)
    requires ReleasesInv(db) && VersionsInv(db) && Appends(db, b, c, next, audience)
    ensures ReleasesInv(b)
  {
    AppendedHead(db, b, c, next, audience);
    AppendedRevisionOk(db, b, c, next, audience);
    AppendedTables(db, b, c, next, audience);
  }

  lemma AppendedTables(db: Db, b: Db, c: ReleaseCommand, next: Revision, audience: seq<Uuid>)
    requires ReleasesInv(db) && AppendRows(db, b, c, next, audience) && RevisionOk(b, c.revision)
    requires next.release == c.release && next.number == db.releases[c.release].head + 1
    ensures ReleasesInv(b)
  {
    AppendedAudience(db, b, c, next, audience);
    forall x | x in db.revisions
      ensures RevisionOk(b, x)
      ensures db.revisions[x].release == c.release ==> db.revisions[x].number < next.number
    {
      AppendKeepsRevision(db, b, c, next, audience, x);
    }
    AppendedReleaseRows(db, b, c, next, audience);
  }

  lemma AppendedReleaseRows(db: Db, b: Db, c: ReleaseCommand, next: Revision, audience: seq<Uuid>)
    requires ReleasesInv(db) && AppendRows(db, b, c, next, audience) && next.release == c.release
    ensures forall r {:trigger ReleaseOk(b, r)} :: r in b.releases ==> ReleaseOk(b, r)
    ensures OneReleasePerChannel(b.releases) && forall p :: p in b.audience ==> p.0 in b.revisions
  {
    forall r | r in b.releases ensures ReleaseOk(b, r) { assert ReleaseOk(db, r); }
  }

  lemma AppendInv(db: Db, c: ReleaseCommand)
    requires Inv(db)
    ensures Inv(Committed(db, AppendRevision(db, c)))
  {
    if AppendRevision(db, c).Ok? && LookupIdempotency(db, ReleaseOperation(c.action), c.evidence) == Ok(None) {
      var b, next, audience := AppendShape(db, c);
      AppendExtends(db, c);
      AppendedReleasesInv(db, b, c, next, audience);
      SubmissionsFrame(db, b);
      VersionsFrame(db, b);
      IdempotencyFrame(db, b);
    }
  }

  // ---------- runs ----------

  lemma StepInv(db: Db, e: Event)
    requires Inv(db)
    ensures Inv(Apply(db, e))
  {
    match e
    case ReserveEvent(c) => ReserveInv(db, c);
    case CreateEvent(c) => CreateInv(db, c);
    case UpdateEvent(c) => UpdateInv(db, c);
    case SubmitEvent(c) => SubmitInv(db, c);
    case WithdrawEvent(c) => WithdrawInv(db, c);
    case ReviewEvent(c) => ReviewInv(db, c);
    case ReleaseEvent(c) => AppendInv(db, c);
    case SurroundingsEvent(around) => SurroundingsInv(db, around);
  }

  lemma SurroundingsInv(db: Db, around: Surroundings)
    requires Inv(db)
    ensures Inv(db.(around := around))
  {
    var b := db.(around := around);
    SubmissionsFrame(db, b);
    VersionsFrame(db, b);
    ReleasesFrame(db, b);
    IdempotencyFrame(db, b);
  }

  lemma EmptyInv(rules: Rules)
    ensures Inv(Empty(rules))
  {
  }

  /** Every state any run reaches from the empty database satisfies the invariant. */
  lemma {:induction false} ReachableInv(rules: Rules, events: seq<Event>)
    ensures Inv(Run(Empty(rules), events))
  {
    if events == [] {
      EmptyInv(rules);
    } else {
      ReachableInv(rules, events[..|events| - 1]);
      StepInv(Run(Empty(rules), events[..|events| - 1]), events[|events| - 1]);
    }
  }
}
