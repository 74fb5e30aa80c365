/** What the publication steps of the official pipeline ask of the rows they find, and what they leave: an account
    that names none of the functions that carry them out. */
module PlatformSubmissionSpec {
  import opened Common
  import opened SubmissionPackage
  import Manifest
  import opened PlatformState
  import opened PlatformSteps
  import opened PlatformInvariants
  import opened PlatformProofs
  import opened PlatformIntegrity
  import opened PlatformReleaseSpec

  // ---------- numbers ----------

  /** The number after the head's, or 1. */
  ghost function NextNumber(db: Db, definition: Uuid): nat
    requires definition in db.definitions
  {
    var latest := db.definitions[definition].latest;
    if latest in db.versions && latest != NIL then db.versions[latest].number + 1 else 1
  }

  lemma LocksIff(db: Db, definition: Uuid, kind: Kind, base: Uuid)
    requires Inv(db)
    ensures LockPublicationTarget(db, definition, kind, base).Ok? <==> Targets(db, definition, kind, base)
    ensures Targets(db, definition, kind, base) ==>
              LockPublicationTarget(db, definition, kind, base) == Ok(NextNumber(db, definition))
  {
    if definition in db.definitions {
      assert DefinitionOk(db, definition);
      if db.definitions[definition].latest != NIL { assert VersionOk(db, db.definitions[definition].latest); }
    }
  }

  // ---------- reserving and drafting ----------

  /** A definition is reserved under an unused identifier on an active platform. */
  lemma ReserveDoes(db: Db, c: ReserveCommand)
    requires NewKey(db, ReserveDefinition, c.evidence)
    ensures Reserve(db, c).Ok? <==>
            c.wellFormed && c.definition != NIL && db.around.platform == Enabled && c.definition !in db.definitions
    ensures Reserve(db, c).Ok? ==>
              var b := Reserve(db, c).value.0;
              b == db.(definitions := db.definitions[c.definition := Definition(c.displayName, NIL)], idempotency := b.idempotency)
  {
  }

  ghost predicate MayCreate(db: Db, c: CreateCommand) {
    && c.wellFormed && c.draft != NIL && Canonicalize(db.rules, c.canonical.package) == Ok(c.canonical)
    && db.rules.scan(c.canonical.package.files) && db.around.platform == Enabled
    && Targets(db, c.canonical.package.definition, c.canonical.package.kind, c.canonical.package.base)
    && c.draft !in db.drafts && forall d :: d in db.drafts ==> db.drafts[d].stored.definition != c.canonical.package.definition
  }

  /** A draft holding exactly the package of the command, at revision 1. */
  ghost predicate CreatedAs(db: Db, b: Db, c: CreateCommand) {
    && c.draft in b.drafts && b.drafts == db.drafts[c.draft := b.drafts[c.draft]]
    && b == db.(drafts := b.drafts, idempotency := b.idempotency)
    && var row := b.drafts[c.draft];
    && PackageOf(row.stored) == c.canonical.package && row.stored.digests == c.canonical.digests
    && row.revision == 1 && row.createdAt == row.updatedAt == c.at
  }

  /** A draft is created exactly where it may be. */
  lemma CreateDoes(db: Db, c: CreateCommand)
    requires Inv(db) && NewKey(db, CreateDraft, c.evidence)
    ensures Create(db, c).Ok? <==> MayCreate(db, c)
    ensures Create(db, c).Ok? ==> CreatedAs(db, Create(db, c).value.0, c)
  {
    CreateAcceptsIff(db, c);
    if Create(db, c).Ok? {
      SelfCanonicalIsIntact(db.rules, c.canonical);
      var stored := Columns(db.rules, c.canonical).value;
      assert Create(db, c).value.0 == Remember(db.(drafts := db.drafts[c.draft := Draft(stored, 1, c.at, c.at)]), CreateDraft, c.evidence,
                                               NO_RESPONSE.(definition := c.canonical.package.definition, draft := c.draft));
    }
  }

  lemma CreateAcceptsIff(db: Db, c: CreateCommand)
    requires Inv(db) && NewKey(db, CreateDraft, c.evidence)
    ensures Create(db, c).Ok? <==> MayCreate(db, c)
  {
    TargetsIff(db, c.canonical.package.definition, c.canonical.package.kind, c.canonical.package.base);
    if SelfCanonical(db.rules, c.canonical) {
      SelfCanonicalIsIntact(db.rules, c.canonical);
      IntactReloads(db.rules, Columns(db.rules, c.canonical).value);
    }
  }

  /** The package a draft is to hold: the command's, on the draft's own definition. */
  ghost function Wanted(db: Db, c: UpdateCommand): Package
    requires c.draft in db.drafts
  {
    c.package.(definition := db.drafts[c.draft].stored.definition)
  }

  ghost predicate MayRevise(db: Db, c: UpdateCommand) {
    && c.wellFormed && c.draft != NIL && c.expectedRevision > 0
    && c.draft in db.drafts && c.draft !in db.around.archivedDrafts
    && db.drafts[c.draft].revision == c.expectedRevision && c.at >= db.drafts[c.draft].createdAt
    && Targets(db, db.drafts[c.draft].stored.definition, c.package.kind, c.package.base)
    && var sealed := Canonicalize(db.rules, Wanted(db, c));
    && sealed.Ok? && db.rules.scan(sealed.value.package.files) && SelfCanonical(db.rules, sealed.value)
  }

  /** The draft's next revision, holding what the wanted package canonicalizes to. */
  ghost predicate RevisedAs(db: Db, b: Db, c: UpdateCommand) {
    && c.draft in db.drafts && c.draft in b.drafts && b.drafts == db.drafts[c.draft := b.drafts[c.draft]]
    && b == db.(drafts := b.drafts, idempotency := b.idempotency)
    && var (before, row) := (db.drafts[c.draft], b.drafts[c.draft]);
    && Canonicalize(db.rules, Wanted(db, c)) == Ok(Sealed(PackageOf(row.stored), row.stored.digests))
    && row.revision == before.revision + 1 && row.createdAt == before.createdAt && row.updatedAt == c.at
  }

  /** Under lawful rules a draft is revised exactly where it may be. */
  lemma UpdateDoes(db: Db, c: UpdateCommand)
    requires Inv(db) && Lawful(db.rules) && NewKey(db, UpdateDraft, c.evidence)
    ensures Update(db, c).Ok? <==> MayRevise(db, c)
    ensures Update(db, c).Ok? ==> RevisedAs(db, Update(db, c).value.0, c)
  {
    UpdateAcceptsAt(db, c);
    if Update(db, c).Ok? {
      var sealed, stored := UpdateShape(db, c);
      WrittenIff(db.rules, Wanted(db, c), sealed);
    }
  }

  lemma UpdateAcceptsAt(db: Db, c: UpdateCommand)
    requires Inv(db) && Lawful(db.rules) && NewKey(db, UpdateDraft, c.evidence)
    ensures Update(db, c).Ok? <==> MayRevise(db, c)
  {
    if c.draft in db.drafts {
      DraftLoads(db, c.draft);
      TargetsIff(db, db.drafts[c.draft].stored.definition, c.package.kind, c.package.base);
      var sealed := Canonicalize(db.rules, Wanted(db, c));
      if sealed.Ok? {
        WrittenIff(db.rules, Wanted(db, c), sealed.value);
        if SelfCanonical(db.rules, sealed.value) { IntactReloads(db.rules, Columns(db.rules, sealed.value).value); }
      }
    }
  }

  /** What was canonicalized can be written exactly when it canonicalizes to itself. */
  lemma WrittenIff(rules: Rules, package: Package, sealed: Sealed)
    requires Lawful(rules) && Canonicalize(rules, package) == Ok(sealed)
    ensures Columns(rules, sealed).Ok? <==> SelfCanonical(rules, sealed)
    ensures SelfCanonical(rules, sealed) ==>
              var st := Columns(rules, sealed).value;
              Intact(rules, st) && PackageOf(st) == sealed.package && st.digests == sealed.digests
  {
    if Columns(rules, sealed).Ok? { CanonicalIsIntact(rules, package); }
    if SelfCanonical(rules, sealed) { SelfCanonicalIsIntact(rules, sealed); }
  }

  // ---------- submitting and withdrawing ----------

  ghost predicate MaySubmit(db: Db, c: SubmitCommand) {
    && c.wellFormed && c.submission != NIL && c.draft != NIL && c.expectedRevision > 0
    && c.draft in db.drafts && c.draft !in db.around.archivedDrafts
    && var draft := db.drafts[c.draft];
    && draft.revision == c.expectedRevision && db.rules.scan(PackageOf(draft.stored).files)
    && Targets(db, draft.stored.definition, draft.stored.kind, draft.stored.base)
    && c.submission !in db.submissions
    && forall s :: s in db.submissions && db.submissions[s].draft == c.draft && db.submissions[s].status == Pending ==>
         c.at >= db.submissions[s].submittedAt
  }

  /** A pending submission by the actor of the draft as it stands; the one that was pending on the draft is superseded. */
  ghost predicate SubmittedAs(db: Db, b: Db, c: SubmitCommand) {
    && c.draft in db.drafts && b.submissions.Keys == db.submissions.Keys + {c.submission}
    && b == db.(submissions := b.submissions, idempotency := b.idempotency)
    && b.submissions[c.submission] ==
       Submission(c.draft, db.drafts[c.draft].revision, db.drafts[c.draft].stored, c.actor, c.at, Pending, 1, None)
    && forall s :: s in db.submissions ==>
         b.submissions[s] == if db.submissions[s].draft == c.draft && db.submissions[s].status == Pending
                             then db.submissions[s].(status := Superseded, revision := 2, terminalAt := Some(c.at))
                             else db.submissions[s]
  }

  lemma PendingTimes(db: Db, c: SubmitCommand)
    ensures (forall s :: s in db.submissions && PendingOn(db.submissions[s], c.draft) ==> c.at >= db.submissions[s].submittedAt) <==>
            (forall s :: s in db.submissions && db.submissions[s].draft == c.draft && db.submissions[s].status == Pending ==>
               c.at >= db.submissions[s].submittedAt)
  {
  }

  lemma NotReviewed(db: Db, s: Uuid)
    requires Inv(db) && s !in db.submissions
    ensures s !in db.reviews
  {
    forall r | r in db.reviews ensures r != s { assert ReviewOk(db, r); }
  }

  lemma SubmitAcceptsIff(db: Db, c: SubmitCommand)
    requires Inv(db) && Lawful(db.rules) && NewKey(db, SubmitDraft, c.evidence)
    ensures Submit(db, c).Ok? <==> MaySubmit(db, c)
  {
    PendingTimes(db, c);
    if c.submission !in db.submissions { NotReviewed(db, c.submission); }
    if c.draft in db.drafts {
      DraftLoads(db, c.draft);
      TargetsIff(db, db.drafts[c.draft].stored.definition, db.drafts[c.draft].stored.kind, db.drafts[c.draft].stored.base);
    }
  }

  lemma SubmitLeaves(db: Db, c: SubmitCommand)
    requires Inv(db) && Lawful(db.rules) && NewKey(db, SubmitDraft, c.evidence) && Submit(db, c).Ok?
    ensures SubmittedAs(db, Submit(db, c).value.0, c)
  {
    var sealed, stored := SubmitShape(db, c);
    assert DraftOk(db, c.draft);
    CopiedOk(db.rules, db.drafts[c.draft].stored, sealed, stored);
    forall s | s in db.submissions && db.submissions[s].status.Pending? ensures db.submissions[s].revision == 1 {
      assert SubmissionOk(db, s);
    }
  }

  /** Under lawful rules a draft is submitted exactly where it may be. */
  lemma SubmitDoes(db: Db, c: SubmitCommand)
    requires Inv(db) && Lawful(db.rules) && NewKey(db, SubmitDraft, c.evidence)
    ensures Submit(db, c).Ok? <==> MaySubmit(db, c)
    ensures Submit(db, c).Ok? ==> SubmittedAs(db, Submit(db, c).value.0, c)
  {
    SubmitAcceptsIff(db, c);
    if Submit(db, c).Ok? { SubmitLeaves(db, c); }
  }

  ghost predicate MayWithdraw(db: Db, c: WithdrawCommand) {
    && c.wellFormed && c.submission != NIL && c.expectedRevision > 0 && c.submission in db.submissions
    && var row := db.submissions[c.submission];
    && row.status == Pending && row.revision == c.expectedRevision && row.submitter == c.actor && c.at >= row.submittedAt
  }

  ghost predicate ClosedAs(db: Db, b: Db, s: Uuid, status: SubmissionStatus, at: Time) {
    s in db.submissions && b.submissions == db.submissions[s := db.submissions[s].(status := status, revision := 2, terminalAt := Some(at))]
  }

  /** A submission is withdrawn exactly while pending, by its submitter. */
  lemma WithdrawDoes(db: Db, c: WithdrawCommand)
    requires Inv(db) && NewKey(db, WithdrawSubmission, c.evidence)
    ensures Withdraw(db, c).Ok? <==> MayWithdraw(db, c)
    ensures Withdraw(db, c).Ok? ==>
              var b := Withdraw(db, c).value.0;
              ClosedAs(db, b, c.submission, Withdrawn, c.at) && b == db.(submissions := b.submissions, idempotency := b.idempotency)
  {
    if c.submission in db.submissions {
      SubmissionLoads(db, c.submission);
      assert SubmissionOk(db, c.submission);
    }
  }

  /** A withdrawal by anybody else is forbidden. */
  lemma StrangersMayNotWithdraw(db: Db, c: WithdrawCommand)
    requires Inv(db) && NewKey(db, WithdrawSubmission, c.evidence)
    requires c.submission in db.submissions && MayWithdraw(db, c.(actor := db.submissions[c.submission].submitter))
    requires db.submissions[c.submission].submitter != c.actor
    ensures Withdraw(db, c) == Err(PlatformForbidden)
  {
    SubmissionLoads(db, c.submission);
  }
}
