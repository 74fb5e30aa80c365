/** What a release command asks of the rows it finds, and what it leaves: an account of releasing that names none of
    the functions that carry it out. */
module PlatformReleaseSpec {
  import opened Common
  import opened SubmissionPackage
  import opened PlatformState
  import opened PlatformSteps
  import opened PlatformInvariants
  import opened PlatformProofs
  import opened PlatformTheorems

  // ---------- when a command is accepted ----------

  ghost predicate NoRollout(c: ReleaseCommand) {
    c.rollout.basisPoints == 0 && c.rollout.minimumDesktop == "" && c.rollout.keyId == "" && |c.audience| == 0
  }

  ghost predicate SetsRollout(c: ReleaseCommand) { 0 <= c.rollout.basisPoints <= 10000 && c.rollout.minimumDesktop != "" }

  /** A command fills in what its action needs and nothing else. */
  ghost predicate Filled(c: ReleaseCommand) {
    && c.wellFormed && c.revision != NIL && c.release != NIL && c.expectedHead >= 1
    && |c.audience| <= 10000 && (forall i :: 0 <= i < |c.audience| ==> c.audience[i] != NIL)
    && (forall i, j :: 0 <= i < j < |c.audience| ==> c.audience[i] < c.audience[j])
    && (c.version != NIL <==> c.action.Activate? || c.action.Rollback?)
    && (c.target != NIL <==> c.action.Rollback?) && (c.approval != NIL <==> c.action.Rollback?)
    && (c.action.Activate? || c.action.RolloutUpdate? ==> SetsRollout(c))
    && (c.action.Pause? || c.action.Resume? || c.action.Rollback? ==> NoRollout(c))
    && !c.action.InitialRelease?
  }

  lemma FilledIsValid(c: ReleaseCommand)
    ensures ValidRelease(c) <==> Filled(c)
  {
  }

  ghost predicate AllActive(db: Db, audience: seq<Uuid>) {
    forall i :: 0 <= i < |audience| ==> audience[i] in db.around.activeUsers
  }

  /** The rows let the command append to the head it expects. */
  ghost predicate MayAppend(db: Db, c: ReleaseCommand) {
    && db.around.platform == Enabled && c.release in db.releases
    && var release := db.releases[c.release];
    && release.head == c.expectedHead && c.revision !in db.revisions && c.at >= release.createdAt
    && release.current in db.revisions
    && var head := db.revisions[release.current];
    && match c.action
       case Activate => c.version in db.versions && db.versions[c.version].definition == release.definition && AllActive(db, c.audience)
       case RolloutUpdate => head.state == Active && AllActive(db, c.audience)
       case Pause => head.state == Active
       case Resume => head.state == Paused
       case Rollback => && c.target in db.revisions && db.revisions[c.target].release == c.release
                        && db.revisions[c.target].number < c.expectedHead && db.revisions[c.target].version == c.version
       case InitialRelease => false
  }

  ghost predicate NewKey(db: Db, operation: Operation, evidence: Evidence) { (operation, evidence.key) !in db.idempotency }

  lemma ReleaseLoads(db: Db, r: Uuid)
    requires Inv(db) && r in db.releases
    ensures LoadRelease(db, r).Ok?
    ensures var (view, release) := (LoadRelease(db, r).value, db.releases[r]);
            && release.current in db.revisions && view.head == release.head && view.definition == release.definition
            && view.id == r && view.revision.row == db.revisions[release.current] && view.createdAt == release.createdAt
            && view.revision.id == release.current && view.revision.audience == AudienceOf(db.audience, release.current)
  {
    assert ReleaseOk(db, r);
    assert RevisionOk(db, db.releases[r].current);
  }

  lemma TargetLoads(db: Db, r: Uuid, x: Uuid)
    requires Inv(db)
    ensures LoadReleaseAtRevision(db, r, x).Ok? <==> x in db.revisions && db.revisions[x].release == r
    ensures LoadReleaseAtRevision(db, r, x).Ok? ==>
              var revision := LoadReleaseAtRevision(db, r, x).value.revision;
              && revision.row == db.revisions[x] && revision.id == x && revision.audience == AudienceOf(db.audience, x)
              && RequireApprovedVersion(db, db.releases[r].definition, revision.row.version).Pass?
  {
    if x in db.revisions && db.revisions[x].release == r {
      assert RevisionOk(db, x);
      assert VersionOk(db, db.revisions[x].version);
    }
  }

  lemma VersionApproved(db: Db, definition: Uuid, v: Uuid)
    requires Inv(db)
    ensures RequireApprovedVersion(db, definition, v).Pass? <==> v in db.versions && db.versions[v].definition == definition
  {
    if v in db.versions { assert VersionOk(db, v); }
  }

  lemma BuildsIff(db: Db, c: ReleaseCommand)
    requires Inv(db) && Filled(c) && c.release in db.releases && db.releases[c.release].head == c.expectedHead
    requires db.around.platform == Enabled && c.revision !in db.revisions && c.at >= db.releases[c.release].createdAt
    ensures LoadRelease(db, c.release).Ok?
    ensures BuildRevision(db, LoadRelease(db, c.release).value, c).Ok? <==> MayAppend(db, c)
  {
    ReleaseLoads(db, c.release);
    var current := LoadRelease(db, c.release).value;
    match c.action
    case Activate =>
      VersionApproved(db, current.definition, c.version);
      assert AllActive(db, c.audience) <==> RequireActiveAudience(db, c.audience).Pass?;
    case RolloutUpdate => assert AllActive(db, c.audience) <==> RequireActiveAudience(db, c.audience).Pass?;
    case Pause =>
    case Resume =>
    case Rollback => TargetLoads(db, c.release, c.target);
  }

  /** In every reachable state a command under a new key is accepted exactly when it is filled in as its action needs
      and the rows let it append. */
  lemma AppendAcceptsIff(rules: Rules, events: seq<Event>, c: ReleaseCommand)
    requires NewKey(Reached(rules, events), ReleaseOperation(c.action), c.evidence)
    ensures AppendRevision(Reached(rules, events), c).Ok? <==> Filled(c) && MayAppend(Reached(rules, events), c)
  {
    ReachableInv(rules, events);
    AppendsIff(Reached(rules, events), c);
  }

  lemma AppendsIff(db: Db, c: ReleaseCommand)
    requires Inv(db) && NewKey(db, ReleaseOperation(c.action), c.evidence)
    ensures AppendRevision(db, c).Ok? <==> Filled(c) && MayAppend(db, c)
  {
    FilledIsValid(c);
    if c.release in db.releases {
      ReleaseLoads(db, c.release);
      if Filled(c) && db.releases[c.release].head == c.expectedHead && db.around.platform == Enabled
         && c.revision !in db.revisions && c.at >= db.releases[c.release].createdAt
      {
        BuildsIff(db, c);
      }
    }
  }

  // ---------- what a command leaves ----------

  /** The revision a command appends, read against the command and the rows before. */
  ghost predicate RevisionIs(db: Db, c: ReleaseCommand, v: Revision)
    requires c.release in db.releases && db.releases[c.release].current in db.revisions
  {
    var head := db.revisions[db.releases[c.release].current];
    && v.release == c.release && v.number == db.releases[c.release].head + 1 && v.previous == db.releases[c.release].current
    && v.action == c.action && v.actor == c.actor && v.reason == c.reason && v.ticket == c.ticket && v.createdAt == c.at
    && v.target == c.target
    && match c.action
       case Activate => v.version == c.version && v.state == Active && v.rollout == c.rollout
       case RolloutUpdate => v.version == head.version && v.state == Active && v.rollout == c.rollout
       case Pause => v.version == head.version && v.state == Paused && v.rollout == head.rollout
       case Resume => v.version == head.version && v.state == Active && v.rollout == head.rollout
       case Rollback => && v.version == c.version && v.state == head.state
                        && c.target in db.revisions && v.rollout == db.revisions[c.target].rollout
       case InitialRelease => false
  }

  /** Whose audience it gets: the command's, the head's or the target's. */
  ghost function AudienceGiven(db: Db, c: ReleaseCommand): set<Uuid>
    requires c.release in db.releases
  {
    match c.action
    case Pause => AudienceSet(db.audience, db.releases[c.release].current)
    case Resume => AudienceSet(db.audience, db.releases[c.release].current)
    case Rollback => AudienceSet(db.audience, c.target)
    case _ => Members(c.audience)
  }

  /** The release moved on to the new revision, and every other row is as it was. */
  ghost predicate AppendedAs(db: Db, b: Db, c: ReleaseCommand) {
    && c.release in db.releases && db.releases[c.release].current in db.revisions
    && c.revision !in db.revisions && c.revision in b.revisions && RevisionIs(db, c, b.revisions[c.revision])
    && AudienceSet(b.audience, c.revision) == AudienceGiven(db, c)
    && (forall x :: x != c.revision ==> AudienceSet(b.audience, x) == AudienceSet(db.audience, x))
    && b.revisions == db.revisions[c.revision := b.revisions[c.revision]]
    && b.releases == db.releases[c.release := db.releases[c.release].(current := c.revision,
                                                                      head := db.releases[c.release].head + 1, updatedAt := c.at)]
    && b == db.(revisions := b.revisions, audience := b.audience, releases := b.releases, idempotency := b.idempotency)
  }

  lemma BuiltIs(db: Db, c: ReleaseCommand)
    requires Inv(db) && Filled(c) && c.release in db.releases && LoadRelease(db, c.release).Ok?
    requires BuildRevision(db, LoadRelease(db, c.release).value, c).Ok?
    ensures db.releases[c.release].current in db.revisions
    ensures RevisionIs(db, c, BuildRevision(db, LoadRelease(db, c.release).value, c).value.0)
    ensures Members(BuildRevision(db, LoadRelease(db, c.release).value, c).value.1) == AudienceGiven(db, c)
  {
    ReleaseLoads(db, c.release);
    AscendingMembers(AudienceSet(db.audience, db.releases[c.release].current));
    if c.action.Rollback? {
      TargetLoads(db, c.release, c.target);
      AscendingMembers(AudienceSet(db.audience, c.target));
    }
  }

  /** Whatever was committed, in any run: the stored row and audience come from the command and the rows its action
      refers to, and nothing else changes. */
  lemma AppendLeaves(rules: Rules, events: seq<Event>, c: ReleaseCommand)
    requires NewKey(Reached(rules, events), ReleaseOperation(c.action), c.evidence) && AppendRevision(Reached(rules, events), c).Ok?
    ensures AppendedAs(Reached(rules, events), AppendRevision(Reached(rules, events), c).value.0, c)
  {
    var db := Reached(rules, events);
    ReachableInv(rules, events);
    AppendsIff(db, c);
    var b, next, audience := AppendShape(db, c);
    BuiltIs(db, c);
    AppendedAudience(db, b, c, next, audience);
  }

  /** A command that expects another head is refused as that. */
  lemma OtherHeadConflicts(db: Db, c: ReleaseCommand)
    requires Inv(db) && NewKey(db, ReleaseOperation(c.action), c.evidence) && Filled(c) && db.around.platform == Enabled
    requires c.release in db.releases && db.releases[c.release].head != c.expectedHead
    ensures AppendRevision(db, c) == Err(ReleaseRevisionConflict)
  {
    FilledIsValid(c);
    ReleaseLoads(db, c.release);
  }
}
