/** Main results about the official publication and release pipeline, over every run. */
module PlatformTheorems {
  import opened Common
  import opened SubmissionPackage
  import Manifest
  import opened PlatformState
  import opened PlatformSteps
  import opened PlatformInvariants
  import opened PlatformProofs
  import opened VersionTree

  /** The state a run from the empty database reaches. */
  ghost function Reached(rules: Rules, events: seq<Event>): Db { Run(Empty(rules), events) }

  lemma {:induction false} RunConcat(db: Db, first: seq<Event>, second: seq<Event>)
    ensures Run(db, first + second) == Run(Run(db, first), second)
  {
    if second == [] {
      assert first + second == first;
    } else {
      var last := |second| - 1;
      RunConcat(db, first, second[..last]);
      assert (first + second)[..|first + second| - 1] == first + second[..last];
    }
  }

  lemma PrefixExtends(rules: Rules, events: seq<Event>, i: nat, j: nat)
    requires i <= j <= |events|
    ensures Extends(Reached(rules, events[..i]), Reached(rules, events[..j]))
  {
    assert events[..j] == events[..i] + events[i..j];
    RunConcat(Empty(rules), events[..i], events[i..j]);
    RunExtends(Reached(rules, events[..i]), events[i..j]);
  }

  // ---------- version lineage ----------

  ghost function NodeOf(db: Db, row: Version): Node {
    if row.submission in db.submissions
    then var st := db.submissions[row.submission].stored; Node(row.definition, row.number, st.kind.Initial?, st.base)
    else Node(row.definition, row.number, false, NIL)
  }

  ghost function TreeOf(db: Db): Tree { map v | v in db.versions :: NodeOf(db, db.versions[v]) }

  ghost function HeadNumber(db: Db, d: Uuid): nat
    requires d in db.definitions
  {
    var latest := db.definitions[d].latest;
    if latest != NIL && latest in db.versions then db.versions[latest].number else 0
  }

  /** Version `v` was published by an approved submission of its definition, with its content. */
  ghost predicate Backed(db: Db, v: Uuid)
    requires v in db.versions
  {
    && db.versions[v].submission in db.submissions
    && var s := db.submissions[db.versions[v].submission];
    && s.status.Approved? && s.stored.definition == db.versions[v].definition && !s.stored.kind.UnknownKind?
    && (Lawful(db.rules) ==> s.stored.content == db.versions[v].content)
  }

  ghost predicate Lineage(db: Db, d: Uuid)
    requires d in db.definitions
  {
    && Numbered(TreeOf(db), d, HeadNumber(db, d))
    && (HeadNumber(db, d) > 0 ==> IsVersion(TreeOf(db), d, HeadNumber(db, d), db.definitions[d].latest))
    && (forall v :: v in db.versions && db.versions[v].definition == d ==> Backed(db, v))
  }

  lemma TreeIsOk(db: Db)
    requires VersionsInv(db)
    ensures TreeOk(TreeOf(db))
  {
    var t := TreeOf(db);
    forall v | v in t ensures NodeOk(t, v) { assert VersionOk(db, v); }
  }

  /** Versions of a definition are numbered 1..n without gaps or repeats, its head is version n,
      version 1 comes from an approved `initial` submission and version k+1 from an approved
      submission based on exactly version k. */
  lemma VersionLineage(rules: Rules, events: seq<Event>, d: Uuid)
    requires d in Reached(rules, events).definitions
    ensures Lineage(Reached(rules, events), d)
  {
    var db := Reached(rules, events);
    ReachableInv(rules, events);
    TreeIsOk(db);
    assert DefinitionOk(db, d);
    forall v | v in db.versions && db.versions[v].definition == d
      ensures Backed(db, v) && db.versions[v].number <= HeadNumber(db, d)
    {
      assert VersionOk(db, v);
    }
    NumberedToHead(TreeOf(db), d, HeadNumber(db, d), db.definitions[d].latest);
  }

  /** Each approved submission published exactly one version. */
  lemma ApprovedPublishesOnce(rules: Rules, events: seq<Event>, s: Uuid)
    requires s in Reached(rules, events).submissions
    ensures var db := Reached(rules, events);
            && (db.submissions[s].status.Approved? <==> Published(db, s))
            && (forall v, w :: (v in db.versions && w in db.versions && db.versions[v].submission == s
                                && db.versions[w].submission == s) ==> v == w)
  {
    var db := Reached(rules, events);
    ReachableInv(rules, events);
    if Published(db, s) {
      var v :| v in db.versions && db.versions[v].submission == s;
      assert VersionOk(db, v);
    }
  }

  // ---------- the life of a submission ----------

  /** Between any two moments of a run a submission keeps its content and is either unchanged or has
      gone once from pending (revision 1) to a terminal status (revision 2) that then never changes;
      a review exists exactly for approved and rejected ones, by someone other than the submitter;
      no draft has two pending submissions. */
  lemma SubmissionLife(rules: Rules, events: seq<Event>, i: nat, j: nat, s: Uuid)
    requires i <= j <= |events| && s in Reached(rules, events[..i]).submissions
    ensures s in Reached(rules, events[..j]).submissions
    ensures var a, b := Reached(rules, events[..i]), Reached(rules, events[..j]);
            && SubmissionAdvances(a.submissions[s], b.submissions[s])
            && (!a.submissions[s].status.Pending? ==>
                  b.submissions[s] == a.submissions[s] && LoadSubmission(b, s) == LoadSubmission(a, s))
            && b.submissions[s].revision == (if b.submissions[s].status.Pending? then 1 else 2)
            && (s in b.reviews <==> b.submissions[s].status.Approved? || b.submissions[s].status.Rejected?)
            && (s in b.reviews ==> b.reviews[s].reviewer != b.submissions[s].submitter)
            && LoadSubmission(b, s).Ok?
            && OnePendingPerDraft(b.submissions)
  {
    var a, b := Reached(rules, events[..i]), Reached(rules, events[..j]);
    PrefixExtends(rules, events, i, j);
    ReachableInv(rules, events[..i]);
    ReachableInv(rules, events[..j]);
    assert SubmissionOk(a, s) && SubmissionOk(b, s);
    if s in b.reviews { assert ReviewOk(b, s); }
  }

  /** The draft stood at revision `r` with this package stored. */
  ghost predicate DraftHad(db: Db, d: Uuid, r: nat, stored: Stored) {
    d in db.drafts && db.drafts[d].revision == r && db.drafts[d].stored == stored
  }

  lemma {:induction false} SubmissionOrigin(rules: Rules, events: seq<Event>, s: Uuid) returns (i: nat)
    requires Lawful(rules) && s in Reached(rules, events).submissions
    ensures i <= |events|
    ensures var row := Reached(rules, events).submissions[s];
            DraftHad(Reached(rules, events[..i]), row.draft, row.draftRevision, row.stored)
  {
    var last := |events| - 1;
    var before := Reached(rules, events[..last]);
    if s in before.submissions {
      i := SubmissionOrigin(rules, events[..last], s);
      assert events[..last][..i] == events[..i];
      StepExtends(before, events[last]);
    } else {
      i := last;
      ReachableInv(rules, events[..last]);
      RulesStay(rules, events[..last]);
      OnlySubmitAdds(before, events[last], s);
    }
  }

  lemma RulesStay(rules: Rules, events: seq<Event>)
    ensures Reached(rules, events).rules == rules
  {
    RunExtends(Empty(rules), events);
  }

  lemma OnlySubmitAdds(db: Db, e: Event, s: Uuid)
    requires Inv(db) && Lawful(db.rules) && s !in db.submissions && s in Apply(db, e).submissions
    ensures var row := Apply(db, e).submissions[s];
            DraftHad(db, row.draft, row.draftRevision, row.stored)
  {
    if e.SubmitEvent? { SubmitAddsDraft(db, e.submit, s); } else { OthersAddNone(db, e); }
  }

  lemma OthersAddNone(db: Db, e: Event)
    requires Inv(db) && !e.SubmitEvent?
    ensures Apply(db, e).submissions.Keys == db.submissions.Keys
  {
    match e
    case ReviewEvent(c) =>
      if ReviewStep(db, c).Ok? && LookupIdempotency(db, Operation.ReviewSubmission, c.evidence) == Ok(None) {
        ReviewAddsNoSubmission(db, c);
      }
    case CreateEvent(c) => CreateAddsNoSubmission(db, c);
    case UpdateEvent(c) => UpdateAddsNoSubmission(db, c);
    case ReleaseEvent(c) => AppendAddsNoSubmission(db, c);
    case ReserveEvent(c) =>
    case WithdrawEvent(c) => WithdrawAddsNoSubmission(db, c);
    case SurroundingsEvent(_) =>
  }

  lemma CreateAddsNoSubmission(db: Db, c: CreateCommand)
    ensures Committed(db, Create(db, c)).submissions == db.submissions && Committed(db, Create(db, c)).reviews == db.reviews
  {
    var b := Committed(db, Create(db, c));
    if b != db { assert b.reviews == db.reviews; }
  }

  lemma UpdateAddsNoSubmission(db: Db, c: UpdateCommand)
    ensures Committed(db, Update(db, c)).submissions == db.submissions && Committed(db, Update(db, c)).reviews == db.reviews
  {
    var b := Committed(db, Update(db, c));
    if b != db { assert b.reviews == db.reviews; }
  }

  lemma AppendAddsNoSubmission(db: Db, c: ReleaseCommand)
    ensures Committed(db, AppendRevision(db, c)).submissions == db.submissions && Committed(db, AppendRevision(db, c)).reviews == db.reviews
  {
    var b := Committed(db, AppendRevision(db, c));
    if b != db { assert b.reviews == db.reviews; }
  }

  lemma WithdrawAddsNoSubmission(db: Db, c: WithdrawCommand)
    ensures Committed(db, Withdraw(db, c)).submissions.Keys == db.submissions.Keys && Committed(db, Withdraw(db, c)).reviews == db.reviews
  {
    var b := Committed(db, Withdraw(db, c));
    if b != db { assert b.reviews == db.reviews; }
  }

  lemma SubmitAddsDraft(db: Db, c: SubmitCommand, s: Uuid)
    requires Inv(db) && Lawful(db.rules) && s !in db.submissions && s in Committed(db, Submit(db, c)).submissions
    ensures var row := Committed(db, Submit(db, c)).submissions[s];
            DraftHad(db, row.draft, row.draftRevision, row.stored)
  {
    var sealed, stored := SubmitShape(db, c);
    assert DraftOk(db, c.draft);
    CopiedOk(db.rules, db.drafts[c.draft].stored, sealed, stored);
  }

  lemma ReviewAddsNoSubmission(db: Db, c: ReviewCommand)
    requires Inv(db) && ReviewStep(db, c).Ok? && LookupIdempotency(db, Operation.ReviewSubmission, c.evidence) == Ok(None)
    ensures ReviewStep(db, c).value.0.submissions.Keys == db.submissions.Keys
  {
    if c.decision.Approve? {
      var b, review, version, number, name, content := ApproveShape(db, c);
    } else {
      var b, review := RejectShape(db, c);
    }
  }

  ghost predicate DraftNeverDiffers(db: Db, d: Uuid, r: nat, content: Manifest.Canonical) {
    d in db.drafts && db.drafts[d].revision == r ==> db.drafts[d].stored.content == content
  }

  /** A published version carries the content its draft had at the submitted revision: some moment of
      the run shows that draft revision with that content, and no moment shows it with another,
      whatever edits came before or after. */
  lemma PublishedContentIsDraftContent(rules: Rules, events: seq<Event>, v: Uuid) returns (i: nat)
    requires Lawful(rules) && v in Reached(rules, events).versions
    ensures Reached(rules, events).versions[v].submission in Reached(rules, events).submissions
    ensures var version := Reached(rules, events).versions[v];
            var row := Reached(rules, events).submissions[version.submission];
            && i <= |events| && DraftHad(Reached(rules, events[..i]), row.draft, row.draftRevision, row.stored)
            && row.stored.content == version.content
            && (forall j :: 0 <= j <= |events| ==>
                  DraftNeverDiffers(Reached(rules, events[..j]), row.draft, row.draftRevision, version.content))
  {
    var db := Reached(rules, events);
    ReachableInv(rules, events);
    RulesStay(rules, events);
    assert VersionOk(db, v);
    var row := db.submissions[db.versions[v].submission];
    i := SubmissionOrigin(rules, events, db.versions[v].submission);
    forall j | 0 <= j <= |events|
      ensures DraftNeverDiffers(Reached(rules, events[..j]), row.draft, row.draftRevision, row.stored.content)
    {
      if i <= j { PrefixExtends(rules, events, i, j); } else { PrefixExtends(rules, events, j, i); }
    }
  }

  // ---------- the release chain ----------

  ghost predicate IsRevision(db: Db, r: Uuid, k: int, x: Uuid) {
    x in db.revisions && db.revisions[x].release == r && db.revisions[x].number == k
  }

  lemma {:induction false} RevisionBelow(db: Db, x: Uuid, k: nat) returns (y: Uuid)
    requires ReleasesInv(db) && x in db.revisions && 1 <= k <= db.revisions[x].number
    ensures IsRevision(db, db.revisions[x].release, k, y)
    decreases db.revisions[x].number
  {
    if k == db.revisions[x].number {
      y := x;
    } else {
      assert RevisionOk(db, x);
      assert Link(db, x);
      y := RevisionBelow(db, db.revisions[x].previous, k);
    }
  }

  ghost predicate HasRevision(db: Db, r: Uuid, k: int) {
    exists x :: IsRevision(db, r, k, x)
  }

  ghost predicate TargetsEarlier(db: Db, r: Uuid, k: int, t: Uuid) {
    t in db.revisions && db.revisions[t].release == r && 1 <= db.revisions[t].number < k - 1
  }

  ghost predicate NamesApprovedVersion(db: Db, definition: Uuid, v: Uuid) {
    && v in db.versions && db.versions[v].definition == definition
    && db.versions[v].submission in db.submissions
    && db.submissions[db.versions[v].submission].status.Approved?
  }

  ghost predicate InChain(db: Db, r: Uuid, k: int, x: Uuid)
    requires r in db.releases && IsRevision(db, r, k, x)
  {
    var v := db.revisions[x];
    && (if k == 1 then v.previous == NIL else IsRevision(db, r, k - 1, v.previous))
    && (v.action.InitialRelease? <==> k == 1)
    && (v.action.Rollback? ==> TargetsEarlier(db, r, k, v.target))
    && NamesApprovedVersion(db, db.releases[r].definition, v.version)
  }

  ghost predicate Chain(db: Db, r: Uuid)
    requires r in db.releases
  {
    && (forall k :: HasRevision(db, r, k) <==> 1 <= k <= db.releases[r].head)
    && (forall k, x, y :: IsRevision(db, r, k, x) && IsRevision(db, r, k, y) ==> x == y)
    && IsRevision(db, r, db.releases[r].head, db.releases[r].current)
    && (forall k, x {:trigger InChain(db, r, k, x)} :: IsRevision(db, r, k, x) ==> InChain(db, r, k, x))
  }

  /** A release's revisions are numbered 1..head without gaps or repeats, the current pointer is
      revision `head`, each previous pointer is one below, each rollback target lies strictly before
      the predecessor, and each names a version of the release's own definition that an approved
      submission published. */
  lemma ReleaseChain(rules: Rules, events: seq<Event>, r: Uuid)
    requires r in Reached(rules, events).releases
    ensures Chain(Reached(rules, events), r)
  {
    var db := Reached(rules, events);
    ReachableInv(rules, events);
    assert ReleaseOk(db, r);
    forall k, x | IsRevision(db, r, k, x) ensures 1 <= k <= db.releases[r].head && InChain(db, r, k, x) {
      assert RevisionOk(db, x);
      assert Link(db, x);
      assert VersionOk(db, db.revisions[x].version);
      if db.revisions[x].action.Rollback? { assert RevisionOk(db, db.revisions[x].target); }
    }
    forall k | 1 <= k <= db.releases[r].head ensures HasRevision(db, r, k) {
      var y := RevisionBelow(db, db.releases[r].current, k);
    }
  }

  /** A written revision, with its audience, is never changed by anything that follows. */
  lemma HistoryIsImmutable(rules: Rules, events: seq<Event>, i: nat, j: nat, x: Uuid)
    requires i <= j <= |events| && x in Reached(rules, events[..i]).revisions
    ensures var a, b := Reached(rules, events[..i]), Reached(rules, events[..j]);
            && x in b.revisions && b.revisions[x] == a.revisions[x]
            && AudienceOf(b.audience, x) == AudienceOf(a.audience, x)
  {
    PrefixExtends(rules, events, i, j);
    var a, b := Reached(rules, events[..i]), Reached(rules, events[..j]);
    assert AudienceSet(a.audience, x) == AudienceSet(b.audience, x);
  }

  // ---------- what the head's state and settings mean ----------

  predicate SetsState(action: Action) {
    action.InitialRelease? || action.Activate? || action.Pause? || action.Resume?
  }

  function StateSetBy(action: Action): ReleaseState
    requires SetsState(action)
  {
    if action.Activate? || action.Resume? then Active else Paused
  }

  /** `s` is the last revision up to `x` whose action sets the state. */
  ghost predicate LatestSetter(db: Db, s: Uuid, x: Uuid)
    requires x in db.revisions
  {
    && s in db.revisions && db.revisions[s].release == db.revisions[x].release
    && db.revisions[s].number <= db.revisions[x].number && SetsState(db.revisions[s].action)
    && forall y :: (y in db.revisions && db.revisions[y].release == db.revisions[x].release
                    && db.revisions[s].number < db.revisions[y].number <= db.revisions[x].number)
                   ==> !SetsState(db.revisions[y].action)
  }

  lemma {:induction false} StateFollowsSetter(db: Db, x: Uuid) returns (s: Uuid)
    requires ReleasesInv(db) && x in db.revisions
    ensures LatestSetter(db, s, x)
    ensures db.revisions[x].state == StateSetBy(db.revisions[s].action)
    decreases db.revisions[x].number
  {
    assert RevisionOk(db, x);
    assert Link(db, x);
    if SetsState(db.revisions[x].action) {
      s := x;
    } else {
      s := StateFollowsSetter(db, db.revisions[x].previous);
    }
  }

  /** The state of every revision, the head included, is the one set by the latest initial,
      activate, pause or resume revision; rollout updates and rollbacks never change it. */
  lemma HeadStateIsLatestSetting(rules: Rules, events: seq<Event>, x: Uuid)
    requires x in Reached(rules, events).revisions
    ensures var db := Reached(rules, events);
            && (exists s :: LatestSetter(db, s, x))
            && (forall s :: LatestSetter(db, s, x) ==> db.revisions[x].state == StateSetBy(db.revisions[s].action))
  {
    var db := Reached(rules, events);
    ReachableInv(rules, events);
    var s := StateFollowsSetter(db, x);
    forall t | LatestSetter(db, t, x) ensures t == s {
      assert db.revisions[s].number == db.revisions[t].number;
    }
  }

  predicate Introduces(action: Action) {
    action.InitialRelease? || action.Activate? || action.RolloutUpdate?
  }

  lemma {:induction false} PayloadOrigin(db: Db, x: Uuid) returns (o: Uuid)
    requires ReleasesInv(db) && x in db.revisions
    ensures o in db.revisions && Introduces(db.revisions[o].action) && SamePayload(db, x, o)
    ensures o == x || Earlier(db.revisions, o, x)
    ensures o == x <==> Introduces(db.revisions[x].action)
    decreases db.revisions[x].number
  {
    assert RevisionOk(db, x);
    assert Link(db, x);
    match db.revisions[x].action
    case InitialRelease => o := x;
    case Activate => o := x;
    case RolloutUpdate => o := x;
    case Pause => o := PayloadOrigin(db, db.revisions[x].previous);
    case Resume => o := PayloadOrigin(db, db.revisions[x].previous);
    case Rollback => o := PayloadOrigin(db, db.revisions[x].target);
  }

  /** A pause, resume or rollback never invents settings: its version, rollout settings and audience
      are those of an earlier initial, activate or rollout-update revision of the same release. */
  lemma SettingsComeFromHistory(rules: Rules, events: seq<Event>, x: Uuid)
    requires x in Reached(rules, events).revisions && !Introduces(Reached(rules, events).revisions[x].action)
    ensures var db := Reached(rules, events);
            exists o :: Earlier(db.revisions, o, x) && Introduces(db.revisions[o].action) && SamePayload(db, x, o)
  {
    ReachableInv(rules, events);
    var o := PayloadOrigin(Reached(rules, events), x);
  }

  // ---------- optimistic concurrency and replay ----------

  /** The command commits a new revision, as opposed to failing or being replayed. */
  ghost predicate FreshAppend(db: Db, c: ReleaseCommand) {
    AppendRevision(db, c).Ok? && LookupIdempotency(db, ReleaseOperation(c.action), c.evidence) == Ok(None)
  }

  lemma FreshAppendAdvances(db: Db, c: ReleaseCommand)
    requires ReleasesInv(db) && FreshAppend(db, c)
    ensures c.release in db.releases && db.releases[c.release].head == c.expectedHead
    ensures var b := Apply(db, ReleaseEvent(c));
            c.release in b.releases && b.releases[c.release].head == c.expectedHead + 1
  {
    var b, next, audience := AppendShape(db, c);
    AppendedHead(db, b, c, next, audience);
  }

  /** Of all commands that expect the same head of the same release, one commits at most. */
  lemma AtMostOneWinner(rules: Rules, events: seq<Event>, i: nat, j: nat, first: ReleaseCommand, second: ReleaseCommand)
    requires i < j <= |events| && events[i] == ReleaseEvent(first)
    requires first.release == second.release && first.expectedHead == second.expectedHead
    requires FreshAppend(Reached(rules, events[..i]), first)
    ensures !FreshAppend(Reached(rules, events[..j]), second)
  {
    ReachableInv(rules, events[..i]);
    ReachableInv(rules, events[..j]);
    FreshAppendAdvances(Reached(rules, events[..i]), first);
    assert events[..i + 1][..i] == events[..i];
    PrefixExtends(rules, events, i + 1, j);
    var b := Reached(rules, events[..j]);
    if FreshAppend(b, second) { FreshAppendAdvances(b, second); }
  }

  /** The view a fresh append returns is what loading its revision right after the commit shows. */
  lemma AppendReturnsStoredView(db: Db, c: ReleaseCommand)
    requires Inv(db) && FreshAppend(db, c)
    ensures var b := AppendRevision(db, c).value.0;
            LoadReleaseAtRevision(b, c.release, c.revision) == Ok(AppendRevision(db, c).value.1)
  {
    var b, next, audience := AppendShape(db, c);
    AppendedView(db, b, c, next, audience);
  }

  lemma AppendedView(db: Db, b: Db, c: ReleaseCommand, next: Revision, audience: seq<Uuid>)
    requires Inv(db) && Appends(db, b, c, next, audience)
    ensures LoadReleaseAtRevision(b, c.release, c.revision) ==
            Ok(LoadRelease(db, c.release).value
               .(current := c.revision, head := next.number, revision := RevisionView(c.revision, next, audience),
                 updatedAt := c.at))
  {
    AppendedRevisionOk(db, b, c, next, audience);
    AppendedHead(db, b, c, next, audience);
    AppendedAudience(db, b, c, next, audience);
    AudienceIsAscending(db, c);
    AscendingOfMembers(audience);
    assert AudienceOf(b.audience, c.revision) == Ascending(AudienceSet(b.audience, c.revision));
  }

  lemma AudienceIsAscending(db: Db, c: ReleaseCommand)
    requires ValidRelease(c) && LoadRelease(db, c.release).Ok?
    requires BuildRevision(db, LoadRelease(db, c.release).value, c).Ok?
    ensures StrictlyAscending(BuildRevision(db, LoadRelease(db, c.release).value, c).value.1)
  {
    AscendingSorted(AudienceSet(db.audience, db.releases[c.release].current));
    AscendingSorted(AudienceSet(db.audience, c.target));
  }

  lemma StoredViewPersists(a: Db, b: Db, r: Uuid, x: Uuid)
    requires Inv(a) && Inv(b) && Extends(a, b) && LoadReleaseAtRevision(a, r, x).Ok?
    ensures r in b.releases
    ensures LoadReleaseAtRevision(b, r, x)
            == Ok(LoadReleaseAtRevision(a, r, x).value.(updatedAt := b.releases[r].updatedAt))
  {
    assert RevisionOk(b, x);
    assert AudienceSet(a.audience, x) == AudienceSet(b.audience, x);
  }

  /** Retrying a committed command after any further events changes nothing and returns the view it
      first returned, except for the update time and the replay mark; the same key with another
      request conflicts. */
  lemma RetryReturnsHistory(rules: Rules, events: seq<Event>, c: ReleaseCommand, more: seq<Event>, retry: ReleaseCommand)
    requires FreshAppend(Reached(rules, events), c) && ValidRelease(retry)
    requires retry.action == c.action && retry.evidence.key == c.evidence.key
    ensures var later := Run(AppendRevision(Reached(rules, events), c).value.0, more);
            && (retry.evidence.request != c.evidence.request ==>
                  AppendRevision(later, retry) == Err(IdempotencyConflict))
            && (retry.evidence.request == c.evidence.request && retry.release == c.release ==>
                  && c.release in later.releases
                  && AppendRevision(later, retry) ==
                     Ok((later, AppendRevision(Reached(rules, events), c).value.1
                                .(updatedAt := later.releases[c.release].updatedAt, replayed := true))))
  {
    var db := Reached(rules, events);
    ReachableInv(rules, events);
    var b := AppendRevision(db, c).value.0;
    var later := Run(b, more);
    AppendInv(db, c);
    RunExtends(b, more);
    RunKeepsInv(b, more);
    AppendReturnsStoredView(db, c);
    StoredViewPersists(b, later, c.release, c.revision);
    AppendRemembers(db, c);
  }

  lemma AppendRemembers(db: Db, c: ReleaseCommand)
    requires FreshAppend(db, c)
    ensures var b := AppendRevision(db, c).value.0;
            && (ReleaseOperation(c.action), c.evidence.key) in b.idempotency
            && b.idempotency[(ReleaseOperation(c.action), c.evidence.key)] ==
               IdempotencyRow(c.evidence.request, NO_RESPONSE.(release := c.release, revision := c.revision))
            && c.revision != NIL
  {
  }

  lemma {:induction false} RunKeepsInv(db: Db, events: seq<Event>)
    requires Inv(db)
    ensures Inv(Run(db, events))
  {
    if events != [] {
      RunKeepsInv(db, events[..|events| - 1]);
      StepInv(Run(db, events[..|events| - 1]), events[|events| - 1]);
    }
  }

  /** A retried review or withdrawal returns the submission exactly as its first call left it. */
  lemma RetriedReviewReturnsSameSubmission(rules: Rules, events: seq<Event>, c: ReviewCommand, more: seq<Event>)
    requires ReviewStep(Reached(rules, events), c).Ok?
    requires LookupIdempotency(Reached(rules, events), Operation.ReviewSubmission, c.evidence) == Ok(None)
    ensures var first := ReviewStep(Reached(rules, events), c).value;
            var later := Run(first.0, more);
            ReviewStep(later, c) == Ok((later, first.1.(replayed := true)))
  {
    var db := Reached(rules, events);
    ReachableInv(rules, events);
    ReviewInv(db, c);
    var first := ReviewStep(db, c).value;
    RunExtends(first.0, more);
    RunKeepsInv(first.0, more);
    ReviewOutcome(db, c);
    TerminalLoadPersists(first.0, Run(first.0, more), c.submission);
  }

  lemma ReviewOutcome(db: Db, c: ReviewCommand)
    requires ReviewStep(db, c).Ok?
    requires LookupIdempotency(db, Operation.ReviewSubmission, c.evidence) == Ok(None)
    ensures var b := ReviewStep(db, c).value.0;
            && ValidReview(c)
            && c.submission in b.submissions && !b.submissions[c.submission].status.Pending?
            && LoadSubmission(b, c.submission) == Ok(ReviewStep(db, c).value.1)
            && (Operation.ReviewSubmission, c.evidence.key) in b.idempotency
            && b.idempotency[(Operation.ReviewSubmission, c.evidence.key)].request == c.evidence.request
            && b.idempotency[(Operation.ReviewSubmission, c.evidence.key)].response.submission == c.submission
  {
    var row, sealed, db1, db2, version, db3 := ReviewStages(db, c);
  }

  lemma TerminalLoadPersists(a: Db, b: Db, s: Uuid)
    requires Inv(a) && Inv(b) && Extends(a, b) && s in a.submissions && !a.submissions[s].status.Pending?
    ensures LoadSubmission(b, s) == LoadSubmission(a, s)
  {
    assert SubmissionOk(a, s) && SubmissionOk(b, s);
  }

  lemma RetriedWithdrawalReturnsSameSubmission(rules: Rules, events: seq<Event>, c: WithdrawCommand, more: seq<Event>)
    requires Withdraw(Reached(rules, events), c).Ok?
    requires LookupIdempotency(Reached(rules, events), WithdrawSubmission, c.evidence) == Ok(None)
    ensures var first := Withdraw(Reached(rules, events), c).value;
            var later := Run(first.0, more);
            Withdraw(later, c) == Ok((later, first.1.(replayed := true)))
  {
    var db := Reached(rules, events);
    ReachableInv(rules, events);
    WithdrawInv(db, c);
    var first := Withdraw(db, c).value;
    WithdrawalOutcome(db, c);
    RunExtends(first.0, more);
    RunKeepsInv(first.0, more);
    TerminalLoadPersists(first.0, Run(first.0, more), c.submission);
    WithdrawalReplays(Run(first.0, more), c, first.1);
  }

  ghost predicate Remembers(b: Db, c: WithdrawCommand) {
    && c.wellFormed && c.submission != NIL && c.expectedRevision > 0
    && (WithdrawSubmission, c.evidence.key) in b.idempotency
    && b.idempotency[(WithdrawSubmission, c.evidence.key)].request == c.evidence.request
    && b.idempotency[(WithdrawSubmission, c.evidence.key)].response.submission == c.submission
  }

  lemma WithdrawalOutcome(db: Db, c: WithdrawCommand)
    requires Withdraw(db, c).Ok? && LookupIdempotency(db, WithdrawSubmission, c.evidence) == Ok(None)
    ensures var (b, view) := Withdraw(db, c).value;
            && Remembers(b, c) && LoadSubmission(b, c.submission) == Ok(view)
            && c.submission in b.submissions && !b.submissions[c.submission].status.Pending?
  {
  }

  lemma WithdrawalReplays(later: Db, c: WithdrawCommand, view: SubmissionView)
    requires Remembers(later, c) && LoadSubmission(later, c.submission) == Ok(view)
    ensures Withdraw(later, c) == Ok((later, view.(replayed := true)))
  {
  }
}
