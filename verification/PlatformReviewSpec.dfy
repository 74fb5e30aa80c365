/** What a review of the official pipeline asks of the rows it finds, and what approving and rejecting leave, in the
    submission, the versions and the releases. */
module PlatformReviewSpec {
  import opened Common
  import opened SubmissionPackage
  import Manifest
  import opened PlatformState
  import opened PlatformSteps
  import opened PlatformInvariants
  import opened PlatformIntegrity
  import opened PlatformReleaseSpec
  import opened PlatformSubmissionSpec

  // ---------- initial releases ----------

  ghost predicate Taken(releases: map<Uuid, Release>, definition: Uuid, channel: Channel) {
    exists r :: r in releases && releases[r].definition == definition && releases[r].channel == channel
  }

  /** Release `r`, or revision `x`, is among those to be made. */
  ghost predicate ToOpen(db: Db, definition: Uuid, initial: seq<PlatformState.InitialRelease>, i: nat) {
    i < |initial| && !Taken(db.releases, definition, initial[i].channel)
  }

  ghost predicate OpensRelease(db: Db, definition: Uuid, initial: seq<PlatformState.InitialRelease>, r: Uuid) {
    exists i: nat :: ToOpen(db, definition, initial, i) && initial[i].release == r
  }

  ghost predicate OpensRevision(db: Db, definition: Uuid, initial: seq<PlatformState.InitialRelease>, x: Uuid) {
    exists i: nat :: ToOpen(db, definition, initial, i) && initial[i].revision == x
  }

  /** The releases that are to be made have identifiers of their own. */
  ghost predicate Free(db: Db, definition: Uuid, initial: seq<PlatformState.InitialRelease>) {
    && (forall i: nat :: ToOpen(db, definition, initial, i) ==>
          initial[i].release !in db.releases && initial[i].revision !in db.revisions)
    && (forall i: nat, j: nat :: i < j && ToOpen(db, definition, initial, i) && ToOpen(db, definition, initial, j) ==>
          initial[i].release != initial[j].release && initial[i].revision != initial[j].revision)
  }

  /** A paused release at revision 1 of the version, rolled out to nobody. */
  ghost predicate Opened(b: Db, definition: Uuid, version: Uuid, minimum: string, i: PlatformState.InitialRelease,
                         key: string, actor: Uuid, at: Time)
  {
    && i.release in b.releases && b.releases[i.release] == Release(definition, i.channel, i.revision, 1, at, at)
    && i.revision in b.revisions
    && b.revisions[i.revision] == Revision(i.release, 1, version, Paused, Rollout(0, minimum, key), Action.InitialRelease, NIL, NIL,
                                           actor, "initial_release", "", at)
  }

  /** Every channel asked for that had no release has one now, and every other row is as it was. */
  ghost predicate OpenedAs(db: Db, b: Db, definition: Uuid, version: Uuid, minimum: string,
                           initial: seq<PlatformState.InitialRelease>, key: string, actor: Uuid, at: Time)
  {
    && b == db.(releases := b.releases, revisions := b.revisions)
    && Grows(db.releases, b.releases) && Grows(db.revisions, b.revisions)
    && (forall i: nat :: ToOpen(db, definition, initial, i) ==> Opened(b, definition, version, minimum, initial[i], key, actor, at))
    && (forall r :: r in b.releases ==> r in db.releases || OpensRelease(db, definition, initial, r))
    && (forall x :: x in b.revisions ==> x in db.revisions || OpensRevision(db, definition, initial, x))
  }

  ghost predicate OtherChannels(initial: seq<PlatformState.InitialRelease>) {
    forall i, j :: 0 <= i < j < |initial| ==> initial[i].channel != initial[j].channel
  }

  lemma StillTaken(db: Db, b: Db, definition: Uuid, version: Uuid, minimum: string,
                   initial: seq<PlatformState.InitialRelease>, key: string, actor: Uuid, at: Time)
    requires initial != [] && OtherChannels(initial)
    requires OpenedAs(db, b, definition, version, minimum, initial[..|initial| - 1], key, actor, at)
    ensures Taken(b.releases, definition, initial[|initial| - 1].channel) <==> Taken(db.releases, definition, initial[|initial| - 1].channel)
  {
    var channel := initial[|initial| - 1].channel;
    var front := initial[..|initial| - 1];
    forall r | r in b.releases && r !in db.releases ensures b.releases[r].channel != channel {
      var i: nat :| ToOpen(db, definition, front, i) && front[i].release == r;
      assert Opened(b, definition, version, minimum, front[i], key, actor, at);
      assert initial[i].channel != channel;
    }
    if r :| r in db.releases && db.releases[r].definition == definition && db.releases[r].channel == channel {
      assert b.releases[r] == db.releases[r];
    }
  }

  lemma FrontOpens(db: Db, definition: Uuid, initial: seq<PlatformState.InitialRelease>, i: nat)
    requires i + 1 < |initial|
    ensures ToOpen(db, definition, initial[..|initial| - 1], i) <==> ToOpen(db, definition, initial, i)
    ensures initial[..|initial| - 1][i] == initial[i]
  {
  }

  lemma FrontFree(db: Db, definition: Uuid, initial: seq<PlatformState.InitialRelease>)
    requires Free(db, definition, initial) && initial != []
    ensures Free(db, definition, initial[..|initial| - 1])
  {
    var front := initial[..|initial| - 1];
    forall i: nat | ToOpen(db, definition, front, i)
      ensures ToOpen(db, definition, initial, i) && front[i] == initial[i]
    {
      FrontOpens(db, definition, initial, i);
    }
  }

  /** The last one can be made exactly when its identifiers are free beside those before it. */
  ghost predicate LastFits(db: Db, definition: Uuid, initial: seq<PlatformState.InitialRelease>)
    requires initial != []
  {
    var (front, last) := (initial[..|initial| - 1], initial[|initial| - 1]);
    Taken(db.releases, definition, last.channel)
    || (last.release !in db.releases && last.revision !in db.revisions
        && !OpensRelease(db, definition, front, last.release) && !OpensRevision(db, definition, front, last.revision))
  }

  lemma FreeAtLast(db: Db, definition: Uuid, initial: seq<PlatformState.InitialRelease>)
    requires initial != [] && Free(db, definition, initial[..|initial| - 1])
    ensures Free(db, definition, initial) <==> LastFits(db, definition, initial)
  {
    var n := |initial| - 1;
    var front := initial[..n];
    forall i: nat | i < n ensures ToOpen(db, definition, front, i) <==> ToOpen(db, definition, initial, i) { FrontOpens(db, definition, initial, i); }
    if Free(db, definition, initial) && !Taken(db.releases, definition, initial[n].channel) {
      assert ToOpen(db, definition, initial, n);
      forall i: nat | ToOpen(db, definition, front, i)
        ensures front[i].release != initial[n].release && front[i].revision != initial[n].revision
      {
        assert ToOpen(db, definition, initial, i) && initial[i] == front[i];
      }
    }
    if LastFits(db, definition, initial) {
      forall i: nat, j: nat | i < j && ToOpen(db, definition, initial, i) && ToOpen(db, definition, initial, j)
        ensures initial[i].release != initial[j].release && initial[i].revision != initial[j].revision
      {
        assert ToOpen(db, definition, front, i) && front[i] == initial[i];
        if j < n { assert ToOpen(db, definition, front, j) && front[j] == initial[j]; }
      }
      forall i: nat | ToOpen(db, definition, initial, i)
        ensures initial[i].release !in db.releases && initial[i].revision !in db.revisions
      {
        if i < n { assert ToOpen(db, definition, front, i) && front[i] == initial[i]; }
      }
    }
  }

  lemma OneDoes(b: Db, definition: Uuid, version: Uuid, minimum: string, i: PlatformState.InitialRelease,
                key: string, actor: Uuid, at: Time)
    ensures var r := InsertInitial(b, definition, version, minimum, i, key, actor, at);
            && (r.Ok? <==> Taken(b.releases, definition, i.channel) || (i.release !in b.releases && i.revision !in b.revisions))
            && (Taken(b.releases, definition, i.channel) ==> r == Ok(b))
            && (r.Ok? && !Taken(b.releases, definition, i.channel) ==>
                  && Opened(r.value, definition, version, minimum, i, key, actor, at)
                  && r.value == b.(releases := b.releases[i.release := r.value.releases[i.release]],
                                   revisions := b.revisions[i.revision := r.value.revisions[i.revision]]))
  {
    assert ChannelTaken(b, definition, i.channel) <==> Taken(b.releases, definition, i.channel);
  }

  lemma MidHolds(db: Db, mid: Db, definition: Uuid, version: Uuid, minimum: string,
                 initial: seq<PlatformState.InitialRelease>, key: string, actor: Uuid, at: Time)
    requires OpenedAs(db, mid, definition, version, minimum, initial, key, actor, at)
    ensures forall r :: r in mid.releases <==> r in db.releases || OpensRelease(db, definition, initial, r)
    ensures forall x :: x in mid.revisions <==> x in db.revisions || OpensRevision(db, definition, initial, x)
  {
    forall i: nat | ToOpen(db, definition, initial, i)
      ensures initial[i].release in mid.releases && initial[i].revision in mid.revisions
    {
      assert Opened(mid, definition, version, minimum, initial[i], key, actor, at);
    }
  }

  lemma OpensOne(db: Db, mid: Db, definition: Uuid, version: Uuid, minimum: string,
                 initial: seq<PlatformState.InitialRelease>, key: string, actor: Uuid, at: Time)
    requires initial != [] && OtherChannels(initial)
    requires OpenedAs(db, mid, definition, version, minimum, initial[..|initial| - 1], key, actor, at)
    requires Free(db, definition, initial[..|initial| - 1])
    ensures InsertInitial(mid, definition, version, minimum, initial[|initial| - 1], key, actor, at).Ok? <==> Free(db, definition, initial)
  {
    StillTaken(db, mid, definition, version, minimum, initial, key, actor, at);
    MidHolds(db, mid, definition, version, minimum, initial[..|initial| - 1], key, actor, at);
    OneDoes(mid, definition, version, minimum, initial[|initial| - 1], key, actor, at);
    FreeAtLast(db, definition, initial);
  }

  lemma MoreOpens(db: Db, definition: Uuid, initial: seq<PlatformState.InitialRelease>, r: Uuid, x: Uuid)
    requires initial != []
    ensures OpensRelease(db, definition, initial[..|initial| - 1], r) ==> OpensRelease(db, definition, initial, r)
    ensures OpensRevision(db, definition, initial[..|initial| - 1], x) ==> OpensRevision(db, definition, initial, x)
  {
    var front := initial[..|initial| - 1];
    if i: nat :| ToOpen(db, definition, front, i) && front[i].release == r {
      assert ToOpen(db, definition, initial, i) && initial[i].release == r;
    }
    if i: nat :| ToOpen(db, definition, front, i) && front[i].revision == x {
      assert ToOpen(db, definition, initial, i) && initial[i].revision == x;
    }
  }

  ghost predicate LastMade(mid: Db, b: Db, definition: Uuid, version: Uuid, minimum: string, i: PlatformState.InitialRelease,
                           key: string, actor: Uuid, at: Time)
  {
    if Taken(mid.releases, definition, i.channel) then b == mid
    else
      && i.release !in mid.releases && i.revision !in mid.revisions && Opened(b, definition, version, minimum, i, key, actor, at)
      && b == mid.(releases := mid.releases[i.release := b.releases[i.release]],
                   revisions := mid.revisions[i.revision := b.revisions[i.revision]])
  }

  lemma OpenedStays(mid: Db, b: Db, definition: Uuid, version: Uuid, minimum: string, last: PlatformState.InitialRelease,
                    key: string, actor: Uuid, at: Time, i: PlatformState.InitialRelease)
    requires LastMade(mid, b, definition, version, minimum, last, key, actor, at)
    requires Opened(mid, definition, version, minimum, i, key, actor, at)
    ensures Opened(b, definition, version, minimum, i, key, actor, at)
  {
  }

  lemma AllOpened(db: Db, mid: Db, b: Db, definition: Uuid, version: Uuid, minimum: string,
                  initial: seq<PlatformState.InitialRelease>, key: string, actor: Uuid, at: Time, i: nat)
    requires initial != [] && ToOpen(db, definition, initial, i)
    requires OpenedAs(db, mid, definition, version, minimum, initial[..|initial| - 1], key, actor, at)
    requires Taken(mid.releases, definition, initial[|initial| - 1].channel) <==> Taken(db.releases, definition, initial[|initial| - 1].channel)
    requires LastMade(mid, b, definition, version, minimum, initial[|initial| - 1], key, actor, at)
    ensures Opened(b, definition, version, minimum, initial[i], key, actor, at)
  {
    if i < |initial| - 1 {
      FrontOpens(db, definition, initial, i);
      OpenedStays(mid, b, definition, version, minimum, initial[|initial| - 1], key, actor, at, initial[i]);
    }
  }

  lemma LastOpens(db: Db, definition: Uuid, initial: seq<PlatformState.InitialRelease>)
    requires initial != [] && !Taken(db.releases, definition, initial[|initial| - 1].channel)
    ensures OpensRelease(db, definition, initial, initial[|initial| - 1].release)
    ensures OpensRevision(db, definition, initial, initial[|initial| - 1].revision)
  {
    assert ToOpen(db, definition, initial, |initial| - 1);
  }

  lemma OpensLast(db: Db, mid: Db, b: Db, definition: Uuid, version: Uuid, minimum: string,
                  initial: seq<PlatformState.InitialRelease>, key: string, actor: Uuid, at: Time)
    requires initial != [] && OtherChannels(initial)
    requires OpenedAs(db, mid, definition, version, minimum, initial[..|initial| - 1], key, actor, at)
    requires LastMade(mid, b, definition, version, minimum, initial[|initial| - 1], key, actor, at)
    ensures OpenedAs(db, b, definition, version, minimum, initial, key, actor, at)
  {
    var last := initial[|initial| - 1];
    StillTaken(db, mid, definition, version, minimum, initial, key, actor, at);
    if !Taken(db.releases, definition, last.channel) { LastOpens(db, definition, initial); }
    forall i: nat | ToOpen(db, definition, initial, i) ensures Opened(b, definition, version, minimum, initial[i], key, actor, at) {
      AllOpened(db, mid, b, definition, version, minimum, initial, key, actor, at, i);
    }
    forall r | r in b.releases ensures r in db.releases || OpensRelease(db, definition, initial, r) {
      MoreOpens(db, definition, initial, r, r);
    }
    forall x | x in b.revisions ensures x in db.revisions || OpensRevision(db, definition, initial, x) {
      MoreOpens(db, definition, initial, x, x);
    }
  }

  /** The initial releases are made exactly when their identifiers are free. */
  lemma {:induction false} InitialsDo(db: Db, definition: Uuid, version: Uuid, minimum: string,
                                      initial: seq<PlatformState.InitialRelease>, key: string, actor: Uuid, at: Time)
    requires OtherChannels(initial)
    ensures var r := InsertInitials(db, definition, version, minimum, initial, key, actor, at);
            && (r.Ok? <==> Free(db, definition, initial))
            && (r.Ok? ==> OpenedAs(db, r.value, definition, version, minimum, initial, key, actor, at))
  {
    if initial != [] {
      var front := initial[..|initial| - 1];
      InitialsDo(db, definition, version, minimum, front, key, actor, at);
      var mid := InsertInitials(db, definition, version, minimum, front, key, actor, at);
      if Free(db, definition, initial) { FrontFree(db, definition, initial); }
      if mid.Ok? {
        OpensOne(db, mid.value, definition, version, minimum, initial, key, actor, at);
        if Free(db, definition, initial) {
          OneDoes(mid.value, definition, version, minimum, initial[|initial| - 1], key, actor, at);
          OpensLast(db, mid.value, InsertInitial(mid.value, definition, version, minimum, initial[|initial| - 1], key, actor, at).value,
                    definition, version, minimum, initial, key, actor, at);
        }
      }
    }
  }

  // ---------- reviewing ----------

  /** One or two channels, each once, all of them allowed, with identifiers of their own. */
  ghost predicate Channels(initial: seq<PlatformState.InitialRelease>, allowed: set<Channel>) {
    && (|initial| == 1 || |initial| == 2) && OtherChannels(initial)
    && forall i :: 0 <= i < |initial| ==>
         && initial[i].channel in allowed && initial[i].release != NIL && initial[i].revision != NIL
         && initial[i].release != initial[i].revision
  }

  /** A review fills in what its decision needs and nothing else. */
  ghost predicate Reviewing(c: ReviewCommand) {
    && c.wellFormed && c.review != NIL && c.submission != NIL && c.expectedRevision >= 1
    && (c.decision.Approve? ==> c.reason == "" && c.note == "" && Channels(c.initial, {Internal, Stable}))
    && (c.decision.Reject? ==> |c.initial| == 0 && c.rolloutKey == "")
  }

  lemma ReviewingIsValid(c: ReviewCommand)
    ensures ValidReview(c) <==> Reviewing(c)
  {
  }

  /** Somebody else's pending submission, on an active platform with a policy, that the scan finds nothing in. */
  ghost predicate MayReview(db: Db, c: ReviewCommand) {
    && db.around.platform == Enabled && db.around.permitted.Some? && c.submission in db.submissions
    && var row := db.submissions[c.submission];
    && row.status == Pending && row.revision == c.expectedRevision && row.submitter != c.actor
    && db.rules.scan(PackageOf(row.stored).files) && c.at >= row.submittedAt
    && (forall s :: s in db.reviews ==> db.reviews[s].id != c.review)
  }

  /** Approving also asks for permitted channels, a base that is still the head, and a version built under the next
      number from exactly the stored content, with free identifiers. */
  ghost predicate MayPublish(db: Db, c: ReviewCommand)
    requires MayReview(db, c)
  {
    var row := db.submissions[c.submission];
    && Channels(c.initial, db.around.permitted.value)
    && Targets(db, row.stored.definition, row.stored.kind, row.stored.base)
    && c.built.Ok? && c.built.value.id != NIL && c.built.value.id !in db.versions
    && c.built.value.number == NextNumber(db, row.stored.definition) && c.built.value.content == row.stored.content
    && Free(db, row.stored.definition, c.initial)
  }

  ghost predicate ReviewedAs(db: Db, b: Db, c: ReviewCommand)
    requires c.submission in db.submissions
  {
    && ClosedAs(db, b, c.submission, if c.decision.Approve? then Approved else Rejected, c.at)
    && b.reviews == db.reviews[c.submission :=
         Review(c.review, c.actor, c.decision, if c.decision.Approve? then "approved" else c.reason, c.note,
                db.submissions[c.submission].stored.digests.content, c.at)]
  }

  ghost predicate PublishedAs(db: Db, b: Db, c: ReviewCommand)
    requires c.submission in db.submissions && c.built.Ok? && db.submissions[c.submission].stored.definition in db.definitions
  {
    var (row, material) := (db.submissions[c.submission], c.built.value);
    var definition := row.stored.definition;
    && b.versions == db.versions[material.id := Version(definition, NextNumber(db, definition), row.stored.content, c.submission)]
    && b.definitions == db.definitions[definition := Definition(row.stored.name, material.id)]
    && OpenedAs(db, db.(releases := b.releases, revisions := b.revisions), definition, material.id, material.minimumVersion,
                c.initial, c.rolloutKey, c.actor, c.at)
    && b == db.(submissions := b.submissions, reviews := b.reviews, versions := b.versions, definitions := b.definitions,
                releases := b.releases, revisions := b.revisions, idempotency := b.idempotency)
  }

  lemma ReviewableIff(db: Db, c: ReviewCommand)
    requires Inv(db) && Lawful(db.rules) && Reviewing(c)
    ensures Reviewable(db, c).Ok? && c.submission in db.submissions && c.at >= db.submissions[c.submission].submittedAt
            && !ReviewIdTaken(db, c.review) <==>
            MayReview(db, c) && (c.decision.Approve? ==> Channels(c.initial, db.around.permitted.value))
    ensures Reviewable(db, c).Ok? ==>
              var st := db.submissions[c.submission].stored;
              Reviewable(db, c).value == Sealed(PackageOf(st), st.digests)
  {
    ReviewablePasses(db, c);
    if c.submission in db.submissions {
      SubmissionLoads(db, c.submission);
      assert SubmissionOk(db, c.submission);
      DraftLoads(db, db.submissions[c.submission].draft);
    }
  }

  lemma PublishDoes(db: Db, c: ReviewCommand, number: nat)
    requires Inv(db) && Lawful(db.rules) && c.submission in db.submissions && OtherChannels(c.initial)
    requires var st := db.submissions[c.submission].stored; st.definition in db.definitions && number == NextNumber(db, st.definition)
    ensures var row := db.submissions[c.submission];
            var st := row.stored;
            var db1 := db.(reviews := db.reviews[c.submission := ReviewRow(c, row)]);
            var r := Publish(db1, c.submission, row, Sealed(PackageOf(st), st.digests), number, c);
            && (r.Ok? <==> && c.built.Ok? && c.built.value.id != NIL && c.built.value.id !in db.versions
                           && c.built.value.number == number && c.built.value.content == st.content && Free(db, st.definition, c.initial))
            && (r.Ok? ==> PublishedRows(db, r.value.0, c, number) && r.value.1 == c.built.value.id
                          && r.value.0.reviews == db1.reviews && r.value.0.submissions == db.submissions)
  {
    var row := db.submissions[c.submission];
    var st := row.stored;
    SubmissionLoads(db, c.submission);
    if c.built.Ok? {
      var material := c.built.value;
      var db1 := db.(reviews := db.reviews[c.submission := ReviewRow(c, row)]);
      var mid := db1.(versions := db1.versions[material.id := Version(st.definition, number, material.content, c.submission)],
                      definitions := db1.definitions[st.definition := Definition(PackageOf(st).name, material.id)]);
      InitialsDo(mid, st.definition, material.id, material.minimumVersion, c.initial, c.rolloutKey, c.actor, c.at);
      FreeAlike(db, mid, st.definition, c.initial);
    }
  }

  ghost predicate PublishedRows(db: Db, b: Db, c: ReviewCommand, number: nat)
    requires c.submission in db.submissions && c.built.Ok?
  {
    var (row, material) := (db.submissions[c.submission], c.built.value);
    var definition := row.stored.definition;
    && b.versions == db.versions[material.id := Version(definition, number, row.stored.content, c.submission)]
    && b.definitions == db.definitions[definition := Definition(row.stored.name, material.id)]
    && OpenedAs(db, db.(releases := b.releases, revisions := b.revisions), definition, material.id, material.minimumVersion,
                c.initial, c.rolloutKey, c.actor, c.at)
    && b == db.(reviews := b.reviews, versions := b.versions, definitions := b.definitions, releases := b.releases, revisions := b.revisions)
  }

  lemma FreeAlike(a: Db, b: Db, definition: Uuid, initial: seq<PlatformState.InitialRelease>)
    requires a.releases == b.releases && a.revisions == b.revisions
    ensures Free(a, definition, initial) <==> Free(b, definition, initial)
  {
    forall i: nat ensures ToOpen(a, definition, initial, i) <==> ToOpen(b, definition, initial, i) {}
  }

  lemma Closes(db: Db, db2: Db, c: ReviewCommand, status: SubmissionStatus)
    requires c.submission in db.submissions && db.submissions[c.submission].status.Pending?
    requires db.submissions[c.submission].revision == c.expectedRevision && db2.submissions == db.submissions
    ensures var row := db.submissions[c.submission];
            Transition(db2, c.submission, c.expectedRevision, status, c.at) ==
            if c.at >= row.submittedAt then Ok(db2.(submissions := db.submissions[c.submission := Terminal(row, status, c.at)]))
            else Err(ServiceUnavailable)
  {
  }

  lemma ClosedLoads(db: Db, b: Db, c: ReviewCommand, status: SubmissionStatus)
    requires Inv(db) && c.submission in db.submissions && db.submissions[c.submission].status.Pending?
    requires status == if c.decision.Approve? then Approved else Rejected
    requires b.rules == db.rules && b.submissions == db.submissions[c.submission := Terminal(db.submissions[c.submission], status, c.at)]
    requires b.reviews == db.reviews[c.submission := ReviewRow(c, db.submissions[c.submission])]
    ensures LoadSubmission(b, c.submission).Ok? && ReviewedAs(db, b, c)
  {
    assert SubmissionOk(db, c.submission);
  }

  /** The last lines of a review: the submission closes, and loads. */
  lemma ClosesAndLoads(db: Db, c: ReviewCommand, db2: Db, response: Response)
    requires Inv(db) && c.submission in db.submissions && db.submissions[c.submission].status.Pending?
    requires db.submissions[c.submission].revision == c.expectedRevision
    requires db2.submissions == db.submissions && db2.rules == db.rules
    requires db2.reviews == db.reviews[c.submission := ReviewRow(c, db.submissions[c.submission])]
    ensures var status := if c.decision.Approve? then Approved else Rejected;
            var moved := Transition(db2, c.submission, c.expectedRevision, status, c.at);
            && (moved.Ok? <==> c.at >= db.submissions[c.submission].submittedAt)
            && (moved.Ok? ==>
                  var b := Remember(moved.value, Operation.ReviewSubmission, c.evidence, response);
                  && LoadSubmission(b, c.submission).Ok? && ReviewedAs(db, b, c)
                  && b == db2.(submissions := b.submissions, idempotency := b.idempotency))
  {
    var status := if c.decision.Approve? then Approved else Rejected;
    Closes(db, db2, c, status);
    var moved := Transition(db2, c.submission, c.expectedRevision, status, c.at);
    if moved.Ok? { ClosedLoads(db, Remember(moved.value, Operation.ReviewSubmission, c.evidence, response), c, status); }
  }

  lemma NotYetReviewed(db: Db, s: Uuid)
    requires Inv(db) && s in db.submissions && db.submissions[s].status.Pending?
    ensures s !in db.reviews
  {
    assert SubmissionOk(db, s);
  }

  /** A rejection is accepted exactly where a review may be made, and closes the submission. */
  lemma RejectDoes(db: Db, c: ReviewCommand)
    requires Inv(db) && Lawful(db.rules) && NewKey(db, Operation.ReviewSubmission, c.evidence) && c.decision.Reject?
    ensures ReviewStep(db, c).Ok? <==> Reviewing(c) && MayReview(db, c)
    ensures ReviewStep(db, c).Ok? ==>
              var b := ReviewStep(db, c).value.0;
              c.submission in db.submissions && ReviewedAs(db, b, c)
              && b == db.(submissions := b.submissions, reviews := b.reviews, idempotency := b.idempotency)
  {
    ReviewingIsValid(c);
    if Reviewing(c) {
      ReviewableIff(db, c);
      if Reviewable(db, c).Ok? {
        var row := db.submissions[c.submission];
        NotYetReviewed(db, c.submission);
        ClosesAndLoads(db, c, db.(reviews := db.reviews[c.submission := ReviewRow(c, row)]),
                       NO_RESPONSE.(definition := row.stored.definition, draft := row.draft, submission := c.submission, version := NIL));
      }
    }
  }

  lemma ApprovePast(db: Db, c: ReviewCommand)
    requires Inv(db) && Lawful(db.rules) && NewKey(db, Operation.ReviewSubmission, c.evidence) && c.decision.Approve? && Reviewing(c)
    requires MayReview(db, c) && Channels(c.initial, db.around.permitted.value)
    requires var st := db.submissions[c.submission].stored; Targets(db, st.definition, st.kind, st.base)
    ensures ReviewStep(db, c).Ok? <==> MayPublish(db, c)
    ensures ReviewStep(db, c).Ok? ==> ReviewedAs(db, ReviewStep(db, c).value.0, c) && PublishedAs(db, ReviewStep(db, c).value.0, c)
  {
    var row := db.submissions[c.submission];
    var number := NextNumber(db, row.stored.definition);
    ReviewingIsValid(c);
    ReviewableIff(db, c);
    NotYetReviewed(db, c.submission);
    LocksIff(db, row.stored.definition, row.stored.kind, row.stored.base);
    PublishDoes(db, c, number);
    var db1 := db.(reviews := db.reviews[c.submission := ReviewRow(c, row)]);
    var published := Publish(db1, c.submission, row, Sealed(PackageOf(row.stored), row.stored.digests), number, c);
    if published.Ok? {
      ClosesAndLoads(db, c, published.value.0,
                     NO_RESPONSE.(definition := row.stored.definition, draft := row.draft, submission := c.submission,
                                  version := published.value.1));
    }
  }

  lemma ApproveOnly(db: Db, c: ReviewCommand)
    requires Inv(db) && Lawful(db.rules) && NewKey(db, Operation.ReviewSubmission, c.evidence) && c.decision.Approve?
    requires ReviewStep(db, c).Ok?
    ensures Reviewing(c) && MayReview(db, c) && Channels(c.initial, db.around.permitted.value)
    ensures var st := db.submissions[c.submission].stored; Targets(db, st.definition, st.kind, st.base)
  {
    ReviewingIsValid(c);
    ReviewableIff(db, c);
    var row, sealed, db1, db2, version, db3 := ReviewStages(db, c);
    LocksIff(db, row.stored.definition, row.stored.kind, row.stored.base);
    assert db2.submissions[c.submission].submittedAt == row.submittedAt by {
      PublishExtends(db1, c.submission, row, sealed, LockPublicationTarget(db, row.stored.definition, row.stored.kind, row.stored.base).value, c);
    }
    assert !ReviewIdTaken(db, c.review);
  }

  /** An approval is accepted exactly where a review may be made and published; it then closes the submission, writes
      the version built from its content under the next number, makes it the head, and opens the channels asked for. */
  lemma ApproveDoes(db: Db, c: ReviewCommand)
    requires Inv(db) && Lawful(db.rules) && NewKey(db, Operation.ReviewSubmission, c.evidence) && c.decision.Approve?
    ensures ReviewStep(db, c).Ok? <==> Reviewing(c) && MayReview(db, c) && MayPublish(db, c)
    ensures ReviewStep(db, c).Ok? ==> ReviewedAs(db, ReviewStep(db, c).value.0, c) && PublishedAs(db, ReviewStep(db, c).value.0, c)
  {
    if ReviewStep(db, c).Ok? { ApproveOnly(db, c); }
    if Reviewing(c) && MayReview(db, c) && Channels(c.initial, db.around.permitted.value)
       && Targets(db, db.submissions[c.submission].stored.definition, db.submissions[c.submission].stored.kind,
                  db.submissions[c.submission].stored.base)
    {
      ApprovePast(db, c);
    }
  }

  /** Reviewing one's own submission, where anybody else might, is refused as that. */
  lemma OwnReviewIsRefused(db: Db, c: ReviewCommand, other: Uuid)
    requires Inv(db) && NewKey(db, Operation.ReviewSubmission, c.evidence) && Reviewing(c) && MayReview(db, c.(actor := other))
    requires db.submissions[c.submission].submitter == c.actor
    ensures ReviewStep(db, c) == Err(SubmissionSelfReview)
  {
    ReviewingIsValid(c);
    SubmissionLoads(db, c.submission);
  }
}
