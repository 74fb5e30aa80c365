/** Who did what in a run of the official pipeline: every submission and every review goes back to the event that made
    it, and nobody decides on what they submitted. */
module PlatformOrigins {
  import opened Common
  import opened SubmissionPackage
  import opened PlatformState
  import opened PlatformSteps
  import opened PlatformInvariants
  import opened PlatformProofs
  import opened PlatformTheorems
  import opened PlatformReleaseSpec

  /** Event `i` committed a new submission `s`. */
  ghost predicate SubmitsAt(rules: Rules, events: seq<Event>, i: nat, s: Uuid) {
    && i < |events| && events[i].SubmitEvent? && events[i].submit.submission == s
    && NewKey(Reached(rules, events[..i]), SubmitDraft, events[i].submit.evidence)
    && Submit(Reached(rules, events[..i]), events[i].submit).Ok?
  }

  ghost predicate SubmittedBy(row: Submission, c: SubmitCommand) {
    row.submitter == c.actor && row.submittedAt == c.at && row.draft == c.draft && row.draftRevision == c.expectedRevision
  }

  lemma NewSubmission(db: Db, e: Event, s: Uuid)
    requires Inv(db) && s !in db.submissions && s in Apply(db, e).submissions
    ensures e.SubmitEvent? && e.submit.submission == s && NewKey(db, SubmitDraft, e.submit.evidence) && Submit(db, e.submit).Ok?
    ensures SubmittedBy(Apply(db, e).submissions[s], e.submit)
  {
    if e.SubmitEvent? { SubmitAdds(db, e.submit, s); } else { OthersAddNone(db, e); }
  }

  lemma SubmitAdds(db: Db, c: SubmitCommand, s: Uuid)
    requires s !in db.submissions && s in Committed(db, Submit(db, c)).submissions
    ensures c.submission == s && NewKey(db, SubmitDraft, c.evidence) && Submit(db, c).Ok?
    ensures SubmittedBy(Committed(db, Submit(db, c)).submissions[s], c)
  {
    var sealed, stored := SubmitShape(db, c);
    assert db.drafts[c.draft].revision == c.expectedRevision;
  }

  lemma EarlierSubmits(rules: Rules, events: seq<Event>, n: nat, i: nat, s: Uuid)
    requires n <= |events| && i < n
    ensures SubmitsAt(rules, events[..n], i, s) <==> SubmitsAt(rules, events, i, s)
  {
    assert events[..n][..i] == events[..i];
  }

  /** Every stored submission goes back to one event that submitted it, by the person, at the time and of the draft
      revision its row names. */
  lemma {:induction false} SubmissionGoesBack(rules: Rules, events: seq<Event>, s: Uuid) returns (i: nat)
    requires s in Reached(rules, events).submissions
    ensures SubmitsAt(rules, events, i, s) && SubmittedBy(Reached(rules, events).submissions[s], events[i].submit)
  {
    var last := |events| - 1;
    var before := Reached(rules, events[..last]);
    ReachableInv(rules, events[..last]);
    if s in before.submissions {
      i := SubmissionGoesBack(rules, events[..last], s);
      EarlierSubmits(rules, events, last, i, s);
      StepExtends(before, events[last]);
    } else {
      i := last;
      NewSubmission(before, events[last], s);
    }
  }

  /** A submission is submitted once. */
  lemma SubmittedOnce(rules: Rules, events: seq<Event>, i: nat, j: nat, s: Uuid)
    requires SubmitsAt(rules, events, i, s) && SubmitsAt(rules, events, j, s)
    ensures i == j
  {
    if i < j { SubmitsOnceBefore(rules, events, i, j, s); }
    if j < i { SubmitsOnceBefore(rules, events, j, i, s); }
  }

  lemma SubmitsOnceBefore(rules: Rules, events: seq<Event>, i: nat, j: nat, s: Uuid)
    requires SubmitsAt(rules, events, i, s) && i < j < |events|
    ensures !SubmitsAt(rules, events, j, s)
  {
    var sealed, stored := SubmitShape(Reached(rules, events[..i]), events[i].submit);
    assert events[..i + 1][..i] == events[..i];
    assert s in Reached(rules, events[..i + 1]).submissions;
    PrefixExtends(rules, events, i + 1, j);
    if SubmitsAt(rules, events, j, s) { NotThere(Reached(rules, events[..j]), events[j].submit); }
  }

  lemma NotThere(db: Db, c: SubmitCommand)
    requires NewKey(db, SubmitDraft, c.evidence) && Submit(db, c).Ok?
    ensures c.submission !in db.submissions
  {
    var sealed, stored := SubmitShape(db, c);
  }

  /** Event `j` committed a new review. */
  ghost predicate ReviewsAt(rules: Rules, events: seq<Event>, j: nat) {
    && j < |events| && events[j].ReviewEvent?
    && NewKey(Reached(rules, events[..j]), Operation.ReviewSubmission, events[j].review.evidence)
    && ReviewStep(Reached(rules, events[..j]), events[j].review).Ok?
  }

  ghost predicate WithdrawsAt(rules: Rules, events: seq<Event>, j: nat) {
    && j < |events| && events[j].WithdrawEvent?
    && NewKey(Reached(rules, events[..j]), WithdrawSubmission, events[j].withdraw.evidence)
    && Withdraw(Reached(rules, events[..j]), events[j].withdraw).Ok?
  }

  /** Every committed review, of either kind, is by somebody else than the person whose event submitted it. */
  lemma NobodyReviewsTheirOwn(rules: Rules, events: seq<Event>, j: nat) returns (i: nat)
    requires ReviewsAt(rules, events, j)
    ensures i < j && SubmitsAt(rules, events, i, events[j].review.submission)
    ensures events[j].review.actor != events[i].submit.actor
  {
    var db := Reached(rules, events[..j]);
    var row, sealed, db1, db2, version, db3 := ReviewStages(db, events[j].review);
    i := SubmissionGoesBack(rules, events[..j], events[j].review.submission);
    EarlierSubmits(rules, events, j, i, events[j].review.submission);
  }

  /** Every committed withdrawal is by the person whose event submitted it. */
  lemma OnlySubmittersWithdraw(rules: Rules, events: seq<Event>, j: nat) returns (i: nat)
    requires WithdrawsAt(rules, events, j)
    ensures i < j && SubmitsAt(rules, events, i, events[j].withdraw.submission)
    ensures events[j].withdraw.actor == events[i].submit.actor
  {
    var db := Reached(rules, events[..j]);
    var c := events[j].withdraw;
    WithdrawnRow(db, c);
    i := SubmissionGoesBack(rules, events[..j], c.submission);
    EarlierSubmits(rules, events, j, i, c.submission);
  }

  lemma WithdrawnRow(db: Db, c: WithdrawCommand)
    requires NewKey(db, WithdrawSubmission, c.evidence) && Withdraw(db, c).Ok?
    ensures c.submission in db.submissions && db.submissions[c.submission].submitter == c.actor
  {
  }

  // ---------- reviews ----------

  ghost predicate ReviewedBy(row: Review, c: ReviewCommand) {
    && row.id == c.review && row.reviewer == c.actor && row.decision == c.decision && row.note == c.note && row.reviewedAt == c.at
    && row.reason == if c.decision.Approve? then "approved" else c.reason
  }

  lemma NewReview(db: Db, e: Event, s: Uuid)
    requires Inv(db) && s !in db.reviews && s in Apply(db, e).reviews
    ensures e.ReviewEvent? && e.review.submission == s
    ensures NewKey(db, Operation.ReviewSubmission, e.review.evidence) && ReviewStep(db, e.review).Ok?
    ensures ReviewedBy(Apply(db, e).reviews[s], e.review)
  {
    if e.ReviewEvent? { ReviewAdds(db, e.review, s); } else { OthersReviewNone(db, e); }
  }

  lemma ReviewAdds(db: Db, c: ReviewCommand, s: Uuid)
    requires Inv(db) && s !in db.reviews && s in Committed(db, ReviewStep(db, c)).reviews
    ensures c.submission == s && NewKey(db, Operation.ReviewSubmission, c.evidence) && ReviewStep(db, c).Ok?
    ensures ReviewedBy(Committed(db, ReviewStep(db, c)).reviews[s], c)
  {
    ReviewRowWritten(db, c);
  }

  lemma ReviewRowWritten(db: Db, c: ReviewCommand)
    requires ReviewStep(db, c).Ok? && NewKey(db, Operation.ReviewSubmission, c.evidence)
    ensures c.submission in db.submissions
    ensures ReviewStep(db, c).value.0.reviews == db.reviews[c.submission := ReviewRow(c, db.submissions[c.submission])]
  {
    var row := db.submissions[c.submission];
    var db1 := db.(reviews := db.reviews[c.submission := ReviewRow(c, row)]);
    if c.decision.Approve? {
      var number := LockPublicationTarget(db, row.stored.definition, row.stored.kind, row.stored.base).value;
      PublishExtends(db1, c.submission, row, Reviewable(db, c).value, number, c);
    }
  }

  lemma OthersReviewNone(db: Db, e: Event)
    requires !e.ReviewEvent?
    ensures Apply(db, e).reviews == db.reviews
  {
    match e
    case ReserveEvent(c) =>
    case CreateEvent(c) => CreateAddsNoSubmission(db, c);
    case UpdateEvent(c) => UpdateAddsNoSubmission(db, c);
    case SubmitEvent(c) => SubmitReviewsNone(db, c);
    case WithdrawEvent(c) => WithdrawAddsNoSubmission(db, c);
    case ReleaseEvent(c) => AppendAddsNoSubmission(db, c);
    case SurroundingsEvent(_) =>
  }

  lemma SubmitReviewsNone(db: Db, c: SubmitCommand)
    ensures Committed(db, Submit(db, c)).reviews == db.reviews
  {
    if Submit(db, c).Ok? && NewKey(db, SubmitDraft, c.evidence) { var sealed, stored := SubmitShape(db, c); }
  }

  lemma EarlierReviews(rules: Rules, events: seq<Event>, n: nat, i: nat)
    requires n <= |events| && i < n
    ensures ReviewsAt(rules, events[..n], i) <==> ReviewsAt(rules, events, i)
  {
    assert events[..n][..i] == events[..i];
  }

  /** Every stored review goes back to the event that made it. */
  lemma {:induction false} ReviewGoesBack(rules: Rules, events: seq<Event>, s: Uuid) returns (i: nat)
    requires s in Reached(rules, events).reviews
    ensures ReviewsAt(rules, events, i) && events[i].review.submission == s && ReviewedBy(Reached(rules, events).reviews[s], events[i].review)
  {
    var last := |events| - 1;
    var before := Reached(rules, events[..last]);
    ReachableInv(rules, events[..last]);
    if s in before.reviews {
      i := ReviewGoesBack(rules, events[..last], s);
      EarlierReviews(rules, events, last, i);
      StepExtends(before, events[last]);
    } else {
      i := last;
      NewReview(before, events[last], s);
    }
  }
}
