/** Retries of the drafting half of the official pipeline: after any later events a repeated call changes nothing and
    answers with what its first call made, as it now is. */
module PlatformRetries {
  import opened Common
  import opened SubmissionPackage
  import opened PlatformState
  import opened PlatformSteps
  import opened PlatformInvariants
  import opened PlatformProofs
  import opened PlatformTheorems
  import opened PlatformIntegrity
  import opened PlatformReleaseSpec

  /** The call is on record under its own request, with the row it made. */
  ghost predicate OnRecord(db: Db, operation: Operation, evidence: Evidence) {
    (operation, evidence.key) in db.idempotency && db.idempotency[(operation, evidence.key)].request == evidence.request
  }

  ghost function Recorded(db: Db, operation: Operation, evidence: Evidence): Response
    requires OnRecord(db, operation, evidence)
  {
    db.idempotency[(operation, evidence.key)].response
  }

  /** And stays there. */
  lemma RecordStays(a: Db, more: seq<Event>, operation: Operation, evidence: Evidence)
    requires Inv(a) && OnRecord(a, operation, evidence)
    ensures Inv(Run(a, more)) && Extends(a, Run(a, more)) && OnRecord(Run(a, more), operation, evidence)
    ensures Recorded(Run(a, more), operation, evidence) == Recorded(a, operation, evidence)
  {
    RunExtends(a, more);
    RunKeepsInv(a, more);
  }

  // ---------- reserving ----------

  lemma RetriedReservation(rules: Rules, events: seq<Event>, c: ReserveCommand, more: seq<Event>)
    requires NewKey(Reached(rules, events), ReserveDefinition, c.evidence) && Reserve(Reached(rules, events), c).Ok?
    ensures var later := Run(Reserve(Reached(rules, events), c).value.0, more);
            Reserve(later, c) == Ok((later, c.definition))
  {
    var db := Reached(rules, events);
    ReachableInv(rules, events);
    ReserveInv(db, c);
    RecordStays(Reserve(db, c).value.0, more, ReserveDefinition, c.evidence);
  }

  // ---------- drafting ----------

  lemma CreatedIsOnRecord(db: Db, c: CreateCommand)
    requires NewKey(db, CreateDraft, c.evidence) && Create(db, c).Ok?
    ensures var b := Create(db, c).value.0;
            && c.draft in b.drafts && b.rules == db.rules
            && OnRecord(b, CreateDraft, c.evidence) && Recorded(b, CreateDraft, c.evidence).draft == c.draft
  {
  }

  lemma CreationReplays(later: Db, c: CreateCommand)
    requires Inv(later) && ValidCreate(later, c) && c.draft in later.drafts
    requires OnRecord(later, CreateDraft, c.evidence) && Recorded(later, CreateDraft, c.evidence).draft == c.draft
    ensures Create(later, c).Ok? && Create(later, c).value.0 == later && Create(later, c).value.1.row == later.drafts[c.draft]
  {
    DraftLoads(later, c.draft);
  }

  /** A retried creation returns the draft it created. */
  lemma RetriedCreation(rules: Rules, events: seq<Event>, c: CreateCommand, more: seq<Event>)
    requires NewKey(Reached(rules, events), CreateDraft, c.evidence) && Create(Reached(rules, events), c).Ok?
    ensures var later := Run(Create(Reached(rules, events), c).value.0, more);
            && c.draft in later.drafts && Create(later, c).Ok?
            && Create(later, c).value.0 == later && Create(later, c).value.1.row == later.drafts[c.draft]
  {
    var db := Reached(rules, events);
    ReachableInv(rules, events);
    CreateInv(db, c);
    CreatedIsOnRecord(db, c);
    var b := Create(db, c).value.0;
    RecordStays(b, more, CreateDraft, c.evidence);
    CreationReplays(Run(b, more), c);
  }

  lemma UpdatedIsOnRecord(db: Db, c: UpdateCommand)
    requires NewKey(db, UpdateDraft, c.evidence) && Update(db, c).Ok?
    ensures var b := Update(db, c).value.0;
            && c.wellFormed && c.draft != NIL && c.expectedRevision > 0 && c.draft in b.drafts
            && b.drafts[c.draft].revision == c.expectedRevision + 1
            && OnRecord(b, UpdateDraft, c.evidence) && Recorded(b, UpdateDraft, c.evidence).draft == c.draft
  {
    var sealed, stored := UpdateShape(db, c);
  }

  lemma UpdateReplays(later: Db, c: UpdateCommand)
    requires Inv(later) && c.wellFormed && c.draft != NIL && c.expectedRevision > 0 && c.draft in later.drafts
    requires OnRecord(later, UpdateDraft, c.evidence) && Recorded(later, UpdateDraft, c.evidence).draft == c.draft
    ensures Update(later, c).Ok? && Update(later, c).value.0 == later && Update(later, c).value.1.row == later.drafts[c.draft]
  {
    DraftLoads(later, c.draft);
  }

  /** A retried update returns the draft, at the revision it made or a later one, and does not update it again. */
  lemma RetriedUpdate(rules: Rules, events: seq<Event>, c: UpdateCommand, more: seq<Event>)
    requires NewKey(Reached(rules, events), UpdateDraft, c.evidence) && Update(Reached(rules, events), c).Ok?
    ensures var later := Run(Update(Reached(rules, events), c).value.0, more);
            && c.draft in later.drafts && later.drafts[c.draft].revision > c.expectedRevision && Update(later, c).Ok?
            && Update(later, c).value.0 == later && Update(later, c).value.1.row == later.drafts[c.draft]
  {
    var db := Reached(rules, events);
    ReachableInv(rules, events);
    UpdateInv(db, c);
    UpdatedIsOnRecord(db, c);
    var b := Update(db, c).value.0;
    RecordStays(b, more, UpdateDraft, c.evidence);
    UpdateReplays(Run(b, more), c);
  }

  // ---------- submitting ----------

  lemma SubmittedIsOnRecord(db: Db, c: SubmitCommand)
    requires NewKey(db, SubmitDraft, c.evidence) && Submit(db, c).Ok?
    ensures var b := Submit(db, c).value.0;
            && c.wellFormed && c.submission != NIL && c.draft != NIL && c.expectedRevision > 0 && c.submission in b.submissions
            && OnRecord(b, SubmitDraft, c.evidence) && Recorded(b, SubmitDraft, c.evidence).submission == c.submission
  {
    var sealed, stored := SubmitShape(db, c);
  }

  lemma SubmissionReplays(later: Db, c: SubmitCommand)
    requires Inv(later) && c.wellFormed && c.submission != NIL && c.draft != NIL && c.expectedRevision > 0
    requires c.submission in later.submissions
    requires OnRecord(later, SubmitDraft, c.evidence) && Recorded(later, SubmitDraft, c.evidence).submission == c.submission
    ensures Submit(later, c).Ok? && Submit(later, c).value.0 == later
    ensures Submit(later, c).value.1.row == later.submissions[c.submission] && Submit(later, c).value.1.replayed
  {
    SubmissionLoads(later, c.submission);
  }

  /** A retried submission submits nothing again: it returns the first one, whatever has become of it. */
  lemma RetriedSubmission(rules: Rules, events: seq<Event>, c: SubmitCommand, more: seq<Event>)
    requires NewKey(Reached(rules, events), SubmitDraft, c.evidence) && Submit(Reached(rules, events), c).Ok?
    ensures var later := Run(Submit(Reached(rules, events), c).value.0, more);
            && c.submission in later.submissions && Submit(later, c).Ok? && Submit(later, c).value.0 == later
            && Submit(later, c).value.1.row == later.submissions[c.submission] && Submit(later, c).value.1.replayed
  {
    var db := Reached(rules, events);
    ReachableInv(rules, events);
    SubmitInv(db, c);
    SubmittedIsOnRecord(db, c);
    var b := Submit(db, c).value.0;
    RecordStays(b, more, SubmitDraft, c.evidence);
    SubmissionReplays(Run(b, more), c);
  }

  /** The same key with another request is refused, in every operation and however much later. */
  lemma OtherRequestConflicts(rules: Rules, events: seq<Event>, key: Evidence, operation: Operation, more: seq<Event>, other: Evidence)
    requires OnRecord(Reached(rules, events), operation, key) && other.key == key.key && other.request != key.request
    ensures var later := Run(Reached(rules, events), more);
            && (operation == SubmitDraft ==> forall c: SubmitCommand :: c.evidence == other ==> Submit(later, c).Err?)
            && (operation == UpdateDraft ==> forall c: UpdateCommand :: c.evidence == other ==> Update(later, c).Err?)
            && (operation == CreateDraft ==> forall c: CreateCommand :: c.evidence == other ==> Create(later, c).Err?)
            && (operation == ReserveDefinition ==> forall c: ReserveCommand :: c.evidence == other ==> Reserve(later, c).Err?)
            && (operation == WithdrawSubmission ==> forall c: WithdrawCommand :: c.evidence == other ==> Withdraw(later, c).Err?)
            && (operation == Operation.ReviewSubmission ==> forall c: ReviewCommand :: c.evidence == other ==> ReviewStep(later, c).Err?)
  {
    ReachableInv(rules, events);
    RecordStays(Reached(rules, events), more, operation, key);
  }
}
