/** The official repository as the program runs it: a database handle whose methods work on a
    transaction row by row, then commit it or leave the database alone.  Each method does exactly
    what its step function says. */
module PlatformRepository {
  import opened Common
  import opened SubmissionPackage
  import opened PlatformState
  import opened PlatformSteps
  import opened PlatformInvariants
  import opened PlatformProofs

  function Returned<V>(outcome: Outcome<(Db, V), Failure>): Outcome<V, Failure> {
    if outcome.Ok? then Ok(outcome.value.1) else Err(outcome.error)
  }

  lemma {:induction false} InitialsFail(db: Db, definition: Uuid, version: Uuid, minimum: string,
                                        initial: seq<PlatformState.InitialRelease>, n: nat, key: string, actor: Uuid, at: Time)
    requires n <= |initial|
    requires InsertInitials(db, definition, version, minimum, initial[..n], key, actor, at).Err?
    ensures InsertInitials(db, definition, version, minimum, initial, key, actor, at)
            == InsertInitials(db, definition, version, minimum, initial[..n], key, actor, at)
  {
    if n == |initial| {
      assert initial[..n] == initial;
    } else {
      var shorter := initial[..|initial| - 1];
      assert shorter[..n] == initial[..n];
      InitialsFail(db, definition, version, minimum, shorter, n, key, actor, at);
    }
  }

  lemma UpdateKept(db: Db, c: UpdateCommand)
    requires Inv(db)
    ensures Inv(Committed(db, Update(db, c))) && Extends(db, Committed(db, Update(db, c)))
  {
    UpdateInv(db, c);
    UpdateExtends(db, c);
  }

  lemma SubmitKept(db: Db, c: SubmitCommand)
    requires Inv(db)
    ensures Inv(Committed(db, Submit(db, c))) && Extends(db, Committed(db, Submit(db, c)))
  {
    SubmitInv(db, c);
    SubmitExtends(db, c);
  }

  lemma WithdrawKept(db: Db, c: WithdrawCommand)
    requires Inv(db)
    ensures Inv(Committed(db, Withdraw(db, c))) && Extends(db, Committed(db, Withdraw(db, c)))
  {
    WithdrawInv(db, c);
    WithdrawExtends(db, c);
  }

  lemma ReviewKept(db: Db, c: ReviewCommand)
    requires Inv(db)
    ensures Inv(Committed(db, ReviewStep(db, c))) && Extends(db, Committed(db, ReviewStep(db, c)))
  {
    ReviewInv(db, c);
    ReviewExtends(db, c);
  }

  lemma AppendKept(db: Db, c: ReleaseCommand)
    requires Inv(db)
    ensures Inv(Committed(db, AppendRevision(db, c))) && Extends(db, Committed(db, AppendRevision(db, c)))
  {
    AppendInv(db, c);
    AppendExtends(db, c);
  }

  class Repository {
    var db: Db

    ghost predicate Valid() reads this { Inv(db) }

    constructor (rules: Rules)
      ensures Valid() && db == Empty(rules)
    {
      db := Empty(rules);
      EmptyInv(rules);
    }

    method UpdatePlatformDraft(c: UpdateCommand) returns (r: Outcome<DraftView, Failure>)
      requires Valid()
      modifies this
      ensures Valid() && Extends(old(db), db)
      ensures db == Committed(old(db), Update(old(db), c)) && r == Returned(Update(old(db), c))
    {
      UpdateKept(db, c);
      if !c.wellFormed || c.draft == NIL || c.expectedRevision <= 0 { return Err(InvalidRepositoryCommand); }
      var tx := db;
      var replay := LookupIdempotency(tx, UpdateDraft, c.evidence);
      if replay.Err? { return Err(replay.error); }
      if replay.value.Some? { return LoadDraft(tx, replay.value.value.draft); }
      var current := LoadDraft(tx, c.draft);
      if current.Err? { return Err(current.error); }
      var row := current.value.row;
      if c.draft in tx.around.archivedDrafts || row.revision != c.expectedRevision { return Err(SubmissionConflict); }
      var sealed := Canonicalize(tx.rules, Requested(c, row));
      if sealed.Err? || !tx.rules.scan(sealed.value.package.files) { return Err(InvalidRepositoryCommand); }
      var target := RequireDraftTarget(tx, row.stored.definition, c.package.kind, c.package.base);
      if target.Fail? { return Err(target.error); }
      var stored := Columns(tx.rules, sealed.value);
      if stored.Err? { return Err(InvalidRepositoryCommand); }
      if c.at < row.createdAt { return Err(ServiceUnavailable); }
      tx := tx.(drafts := tx.drafts[c.draft := UpdatedRow(row, stored.value, c.at)]);
      tx := Remember(tx, UpdateDraft, c.evidence, NO_RESPONSE.(definition := row.stored.definition, draft := c.draft));
      r := LoadDraft(tx, c.draft);
      if r.Ok? { db := tx; }
    }

    method SubmitPlatformDraft(c: SubmitCommand) returns (r: Outcome<SubmissionView, Failure>)
      requires Valid()
      modifies this
      ensures Valid() && Extends(old(db), db)
      ensures db == Committed(old(db), Submit(old(db), c)) && r == Returned(Submit(old(db), c))
    {
      SubmitKept(db, c);
      if !c.wellFormed || c.submission == NIL || c.draft == NIL || c.expectedRevision <= 0 {
        return Err(InvalidRepositoryCommand);
      }
      var tx := db;
      var replay := LookupIdempotency(tx, SubmitDraft, c.evidence);
      if replay.Err? { return Err(replay.error); }
      if replay.value.Some? {
        r := Replayed(tx, replay.value.value.submission);
        return;
      }
      var loaded := LoadDraft(tx, c.draft);
      if loaded.Err? { return Err(loaded.error); }
      var draft := loaded.value.row;
      if c.draft in tx.around.archivedDrafts || draft.revision != c.expectedRevision { return Err(SubmissionConflict); }
      var sealed := Recanonicalize(tx.rules, loaded.value.package, draft.stored.digests);
      if sealed.Err? { return Err(VersionIntegrityFailed); }
      if !tx.rules.scan(sealed.value.package.files) { return Err(DlpBlocked); }
      var target := RequireDraftTarget(tx, draft.stored.definition, draft.stored.kind, draft.stored.base);
      if target.Fail? { return Err(target.error); }
      if exists s :: s in tx.submissions && PendingOn(tx.submissions[s], c.draft) && c.at < tx.submissions[s].submittedAt {
        return Err(ServiceUnavailable);
      }
      tx := tx.(submissions := SupersedePending(tx.submissions, c.draft, c.at));
      var stored := Columns(tx.rules, sealed.value);
      if stored.Err? { return Err(VersionIntegrityFailed); }
      if c.submission in tx.submissions { return Err(ServiceUnavailable); }
      tx := tx.(submissions := tx.submissions[c.submission := SubmittedRow(draft, stored.value, c)]);
      tx := Remember(tx, SubmitDraft, c.evidence,
                     NO_RESPONSE.(definition := draft.stored.definition, draft := c.draft, submission := c.submission));
      r := LoadSubmission(tx, c.submission);
      if r.Ok? { db := tx; }
    }

    method Replayed(tx: Db, submission: Uuid) returns (r: Outcome<SubmissionView, Failure>)
      ensures r == var view := LoadSubmission(tx, submission);
                   if view.Ok? then Ok(view.value.(replayed := true)) else view
    {
      r := LoadSubmission(tx, submission);
      if r.Ok? { r := Ok(r.value.(replayed := true)); }
    }

    method WithdrawPlatformSubmission(c: WithdrawCommand) returns (r: Outcome<SubmissionView, Failure>)
      requires Valid()
      modifies this
      ensures Valid() && Extends(old(db), db)
      ensures db == Committed(old(db), Withdraw(old(db), c)) && r == Returned(Withdraw(old(db), c))
    {
      WithdrawKept(db, c);
      if !c.wellFormed || c.submission == NIL || c.expectedRevision <= 0 { return Err(InvalidRepositoryCommand); }
      var tx := db;
      var replay := LookupIdempotency(tx, WithdrawSubmission, c.evidence);
      if replay.Err? { return Err(replay.error); }
      if replay.value.Some? {
        r := Replayed(tx, replay.value.value.submission);
        return;
      }
      var current := LoadSubmission(tx, c.submission);
      if current.Err? { return Err(current.error); }
      var row := current.value.row;
      if !row.status.Pending? || row.revision != c.expectedRevision { return Err(SubmissionConflict); }
      if row.submitter != c.actor { return Err(PlatformForbidden); }
      if c.at < row.submittedAt { return Err(ServiceUnavailable); }
      tx := tx.(submissions := tx.submissions[c.submission := Terminal(row, Withdrawn, c.at)]);
      tx := Remember(tx, WithdrawSubmission, c.evidence,
                     NO_RESPONSE.(definition := row.stored.definition, draft := row.draft, submission := c.submission));
      r := LoadSubmission(tx, c.submission);
      if r.Ok? { db := tx; }
    }

    /** One initial release per channel; a channel that already has a release is skipped. */
    method InsertInitialOfficialReleases(start: Db, definition: Uuid, version: Uuid, minimum: string,
                                         initial: seq<PlatformState.InitialRelease>, key: string, actor: Uuid, at: Time)
      returns (r: Outcome<Db, Failure>)
      ensures r == InsertInitials(start, definition, version, minimum, initial, key, actor, at)
    {
      var tx := start;
      for i := 0 to |initial|
        invariant InsertInitials(start, definition, version, minimum, initial[..i], key, actor, at) == Ok(tx)
      {
        var one := initial[i];
        assert initial[..i + 1][..i] == initial[..i] && initial[..i + 1][i] == one;
        if !ChannelTaken(tx, definition, one.channel) {
          if one.release in tx.releases || one.revision in tx.revisions {
            InitialsFail(start, definition, version, minimum, initial, i + 1, key, actor, at);
            return Err(ServiceUnavailable);
          }
          tx := tx.(releases := tx.releases[one.release := Release(definition, one.channel, one.revision, 1, at, at)]);
          tx := tx.(revisions := tx.revisions[one.revision :=
                      InitialRevision(one.release, version, minimum, key, actor, at)]);
        }
      }
      assert initial[..|initial|] == initial;
      return Ok(tx);
    }

    /** Version row, definition head and initial releases of an approval. */
    method PublishVersion(start: Db, id: Uuid, row: Submission, sealed: Sealed, number: nat, c: ReviewCommand)
      returns (r: Outcome<(Db, Uuid), Failure>)
      requires row.stored.definition in start.definitions
      ensures r == Publish(start, id, row, sealed, number, c)
    {
      if c.built.Err? { return Err(c.built.error); }
      var material, definition := c.built.value, row.stored.definition;
      var expected := start.rules.version(sealed.package.manifest, sealed.package.files);
      if expected.Err? || material.id == NIL || material.number != number || material.content != expected.value {
        return Err(VersionIntegrityFailed);
      }
      if material.id in start.versions { return Err(ServiceUnavailable); }
      var tx := start.(versions := start.versions[material.id := Version(definition, number, material.content, id)]);
      tx := tx.(definitions := tx.definitions[definition := Definition(sealed.package.name, material.id)]);
      var released := InsertInitialOfficialReleases(tx, definition, material.id, material.minimumVersion,
                                                    c.initial, c.rolloutKey, c.actor, c.at);
      if released.Err? { return Err(released.error); }
      return Ok((released.value, material.id));
    }

    /** The checks of a review, up to its first write. */
    method CheckReview(tx: Db, c: ReviewCommand) returns (r: Outcome<Sealed, Failure>)
      ensures r == Reviewable(tx, c)
    {
      var platform := RequireActivePlatform(tx);
      if platform.Fail? { return Err(platform.error); }
      var current := LoadSubmission(tx, c.submission);
      if current.Err? { return Err(current.error); }
      var row := current.value.row;
      if !row.status.Pending? || row.revision != c.expectedRevision { return Err(SubmissionConflict); }
      if row.submitter == c.actor { return Err(SubmissionSelfReview); }
      var draft := LoadDraft(tx, row.draft);
      if draft.Err? { return Err(draft.error); }
      var sealed := Recanonicalize(tx.rules, current.value.package, row.stored.digests);
      if sealed.Err? { return Err(VersionIntegrityFailed); }
      if !tx.rules.scan(sealed.value.package.files) { return Err(DlpBlocked); }
      if tx.around.permitted.None? { return Err(ServiceUnavailable); }
      if c.decision.Approve? && !ChannelsAllowed(c.initial, tx.around.permitted.value) { return Err(RolloutInvalid); }
      return Ok(sealed.value);
    }

    method ReviewPlatformSubmission(c: ReviewCommand) returns (r: Outcome<SubmissionView, Failure>)
      requires Valid()
      modifies this
      ensures Valid() && Extends(old(db), db)
      ensures db == Committed(old(db), ReviewStep(old(db), c)) && r == Returned(ReviewStep(old(db), c))
    {
      ReviewKept(db, c);
      if !ValidReview(c) { return Err(InvalidRepositoryCommand); }
      var tx := db;
      var replay := LookupIdempotency(tx, Operation.ReviewSubmission, c.evidence);
      if replay.Err? { return Err(replay.error); }
      if replay.value.Some? {
        r := Replayed(tx, replay.value.value.submission);
        return;
      }
      var checked := CheckReview(tx, c);
      if checked.Err? { return Err(checked.error); }
      var row, approve := tx.submissions[c.submission], c.decision.Approve?;
      var number := 0;
      if approve {
        var target := LockPublicationTarget(tx, row.stored.definition, row.stored.kind, row.stored.base);
        if target.Err? { return Err(target.error); }
        number := target.value;
      }
      if c.submission in tx.reviews || ReviewIdTaken(tx, c.review) { return Err(ServiceUnavailable); }
      tx := tx.(reviews := tx.reviews[c.submission := ReviewRow(c, row)]);
      var version := NIL;
      if approve {
        var published := PublishVersion(tx, c.submission, row, checked.value, number, c);
        if published.Err? { return Err(published.error); }
        tx, version := published.value.0, published.value.1;
      }
      var moved := Transition(tx, c.submission, c.expectedRevision, if approve then Approved else Rejected, c.at);
      if moved.Err? { return Err(moved.error); }
      tx := Remember(moved.value, Operation.ReviewSubmission, c.evidence,
                     NO_RESPONSE.(definition := row.stored.definition, draft := row.draft,
                                  submission := c.submission, version := version));
      r := LoadSubmission(tx, c.submission);
      if r.Ok? { db := tx; }
    }

    method InsertOfficialAudience(rows: set<(Uuid, Uuid)>, revision: Uuid, audience: seq<Uuid>)
      returns (r: set<(Uuid, Uuid)>)
      ensures r == rows + AudienceRows(revision, audience)
    {
      r := rows;
      for i := 0 to |audience|
        invariant r == rows + AudienceRows(revision, audience[..i])
      {
        r := r + {(revision, audience[i])};
        assert audience[..i + 1] == audience[..i] + [audience[i]];
      }
      assert audience[..|audience|] == audience;
    }

    /** The next revision, filled in field by field. */
    method BuildOfficialReleaseRevision(tx: Db, current: ReleaseView, c: ReleaseCommand)
      returns (r: Outcome<(Revision, seq<Uuid>), Failure>)
      ensures r == BuildRevision(tx, current, c)
    {
      var head := current.revision;
      var next := Revision(current.id, current.head + 1, NIL, Paused, NO_ROLLOUT, c.action, head.id, NIL,
                           c.actor, c.reason, c.ticket, c.at);
      var audience := c.audience;
      match c.action {
        case Activate =>
          var approved := RequireApprovedVersion(tx, current.definition, c.version);
          if approved.Fail? { return Err(approved.error); }
          var active := RequireActiveAudience(tx, c.audience);
          if active.Fail? { return Err(active.error); }
          next := next.(version := c.version, rollout := c.rollout);
          next := next.(state := Active);
        case RolloutUpdate =>
          if !head.row.state.Active? { return Err(ReleasePaused); }
          var active := RequireActiveAudience(tx, c.audience);
          if active.Fail? { return Err(active.error); }
          next := next.(version := head.row.version, rollout := c.rollout);
          next := next.(state := Active);
        case Pause =>
          if !head.row.state.Active? { return Err(RolloutInvalid); }
          next, audience := CopyPayload(next, head.row), head.audience;
          next := next.(state := Paused);
        case Resume =>
          if !head.row.state.Paused? { return Err(RolloutInvalid); }
          next, audience := CopyPayload(next, head.row), head.audience;
          next := next.(state := Active);
        case Rollback =>
          var loaded := LoadReleaseAtRevision(tx, current.id, c.target);
          if loaded.Err? { return Err(RolloutInvalid); }
          var target := loaded.value.revision;
          if target.row.number >= current.head || target.row.version != c.version { return Err(RolloutInvalid); }
          var approved := RequireApprovedVersion(tx, current.definition, c.version);
          if approved.Fail? { return Err(approved.error); }
          next, audience := CopyPayload(next, target.row), target.audience;
          next := next.(state := head.row.state);
          next := next.(target := target.id);
        case InitialRelease =>
          return Err(RolloutInvalid);
      }
      return Ok((next, audience));
    }

    method AppendOfficialReleaseRevision(c: ReleaseCommand) returns (r: Outcome<ReleaseView, Failure>)
      requires Valid()
      modifies this
      ensures Valid() && Extends(old(db), db)
      ensures db == Committed(old(db), AppendRevision(old(db), c)) && r == Returned(AppendRevision(old(db), c))
    {
      AppendKept(db, c);
      if !ValidRelease(c) { return Err(InvalidRepositoryCommand); }
      var tx := db;
      var replay := LookupIdempotency(tx, ReleaseOperation(c.action), c.evidence);
      if replay.Err? { return Err(replay.error); }
      if replay.value.Some? {
        var response := replay.value.value;
        if response.release != c.release || response.revision == NIL { return Err(ServiceUnavailable); }
        var stored := LoadReleaseAtRevision(tx, response.release, response.revision);
        if stored.Err? { return Err(stored.error); }
        return Ok(stored.value.(replayed := true));
      }
      var platform := RequireActivePlatform(tx);
      if platform.Fail? { return Err(platform.error); }
      var loaded := LoadRelease(tx, c.release);
      if loaded.Err? { return Err(loaded.error); }
      var current := loaded.value;
      if current.head != c.expectedHead { return Err(ReleaseRevisionConflict); }
      var built := BuildOfficialReleaseRevision(tx, current, c);
      if built.Err? { return Err(built.error); }
      var next, audience := built.value.0, built.value.1;
      if c.revision in tx.revisions { return Err(ServiceUnavailable); }
      tx := tx.(revisions := tx.revisions[c.revision := next]);
      var rows := InsertOfficialAudience(tx.audience, c.revision, audience);
      tx := tx.(audience := rows);
      if c.at < current.createdAt { return Err(ServiceUnavailable); }
      tx := tx.(releases := tx.releases[c.release :=
        tx.releases[c.release].(current := c.revision, head := next.number, updatedAt := c.at)]);
      tx := Remember(tx, ReleaseOperation(c.action), c.evidence,
                     NO_RESPONSE.(release := c.release, revision := c.revision));
      current := current.(current := c.revision, head := next.number);
      current := current.(revision := RevisionView(c.revision, next, audience), updatedAt := c.at);
      db := tx;
      return Ok(current);
    }
  }
}
