/** What every run of the organization pipeline keeps, and its main results. */
module OrganizationProofs {
  import opened Common
  import opened Bytes
  import opened SubmissionPackage
  import opened OrganizationSteps
  import opened VersionTree

  // ---------- invariant ----------

  ghost predicate DefinitionOk(db: Db, d: Uuid)
    requires d in db.definitions
  {
    var row := db.definitions[d];
    && row.latest != NIL && row.latest in db.versions && db.versions[row.latest].definition == d
  }

  ghost predicate VersionOk(db: Db, v: Uuid)
    requires v in db.versions
  {
    var row := db.versions[v];
    && v != NIL && row.definition in db.definitions
    && row.organization == db.definitions[row.definition].organization
    && var latest := db.definitions[row.definition].latest;
    && latest in db.versions && 1 <= row.number <= db.versions[latest].number
    && row.submission in db.submissions
    && var s := db.submissions[row.submission];
    && s.status.Approved? && s.stored.definition == row.definition && s.organization == row.organization
    && s.stored.content == row.content
    && if s.stored.kind.Initial? then row.number == 1
       else && s.stored.base in db.versions && db.versions[s.stored.base].definition == row.definition
            && db.versions[s.stored.base].number + 1 == row.number
  }

  ghost predicate DistinctVersions(versions: map<Uuid, Version>) {
    forall v, w :: v in versions && w in versions && v != w ==>
      && versions[v].submission != versions[w].submission
      && (versions[v].definition == versions[w].definition ==> versions[v].number != versions[w].number)
  }

  ghost predicate SubmissionOk(db: Db, s: Uuid)
    requires s in db.submissions
  {
    var row := db.submissions[s];
    && ValidState(row, PublishedVersions(db, s)) && row.revision <= 2
    && Intact(db.rules, row.stored)
    && (s in db.reviews <==> row.status.Approved? || row.status.Rejected?)
    && (s in db.reviews ==> (db.reviews[s].decision.Approve? <==> row.status.Approved?))
    && (s in db.reviews ==> db.reviews[s].content == row.stored.digests.content)
  }

  /** Idempotency rows of withdrawals and reviews point at terminal submissions of their organization. */
  ghost predicate IdempotencyOk(db: Db, k: (Uuid, Operation, Digest))
    requires k in db.idempotency
  {
    var s := db.idempotency[k].submission;
    && s in db.submissions && db.submissions[s].organization == k.0
    && (!k.1.SubmitAgent? ==> !db.submissions[s].status.Pending?)
  }

  ghost predicate Inv(db: Db) {
    && (forall d {:trigger DefinitionOk(db, d)} :: d in db.definitions ==> DefinitionOk(db, d))
    && (forall v {:trigger VersionOk(db, v)} :: v in db.versions ==> VersionOk(db, v))
    && DistinctVersions(db.versions)
    && (forall s {:trigger SubmissionOk(db, s)} :: s in db.submissions ==> SubmissionOk(db, s))
    && (forall s :: s in db.reviews ==> s in db.submissions)
    && (forall k {:trigger IdempotencyOk(db, k)} :: k in db.idempotency ==> IdempotencyOk(db, k))
  }

  // ---------- what a later state keeps ----------

  ghost predicate SubmissionAdvances(a: Submission, b: Submission) {
    && b == a.(status := b.status, revision := b.revision, terminalAt := b.terminalAt)
    && (a == b || (a.status.Pending? && !b.status.Pending? && b.revision == a.revision + 1))
  }

  ghost predicate Extends(a: Db, b: Db) {
    && b.rules == a.rules && a.definitions.Keys <= b.definitions.Keys
    && Grows(a.versions, b.versions)
    && Grows(a.reviews, b.reviews)
    && (forall s :: s in a.submissions ==> s in b.submissions && SubmissionAdvances(a.submissions[s], b.submissions[s]))
    && Grows(a.idempotency, b.idempotency)
  }

  lemma ExtendsTransitive(a: Db, b: Db, c: Db)
    requires Extends(a, b) && Extends(b, c)
    ensures Extends(a, c)
  {
  }

  // ---------- steps that publish nothing ----------

  /** A change of one submission row, with or without its review, that publishes nothing. */
  lemma UnpublishedInv(db: Db, b: Db, s: Uuid)
    requires Inv(db) && Extends(db, b) && s in b.submissions
    requires b == db.(submissions := b.submissions, reviews := b.reviews, idempotency := b.idempotency)
    requires b.submissions.Keys == db.submissions.Keys + {s} && b.reviews.Keys <= db.reviews.Keys + {s}
    requires forall t :: t in db.submissions && t != s ==> b.submissions[t] == db.submissions[t]
    requires s !in db.submissions || db.submissions[s].status.Pending?
    requires !b.submissions[s].status.Approved?
    requires ValidState(b.submissions[s], {}) && b.submissions[s].revision <= 2
    requires s in b.reviews <==> b.submissions[s].status.Rejected?
    requires s in b.reviews ==> b.reviews[s].decision.Reject? && b.reviews[s].content == b.submissions[s].stored.digests.content
    requires Intact(db.rules, b.submissions[s].stored)
    requires forall k :: k in b.idempotency && k !in db.idempotency ==> IdempotencyOk(b, k)
    ensures Inv(b)
  {
    VersionsKept(db, b);
    forall v | v in b.versions ensures b.versions[v].submission != s { assert VersionOk(db, v); }
    assert PublishedVersions(b, s) == {};
    forall t | t in b.submissions ensures SubmissionOk(b, t) { if t != s { SubmissionKept(db, b, t); } }
    forall k | k in b.idempotency ensures IdempotencyOk(b, k) {
      if k in db.idempotency { assert IdempotencyOk(db, k); }
    }
  }

  /** Definitions and versions that are the same stand on submissions that were only moved on. */
  lemma VersionsKept(db: Db, b: Db)
    requires Inv(db) && Extends(db, b) && b.versions == db.versions && b.definitions == db.definitions
    ensures forall v {:trigger VersionOk(b, v)} :: v in b.versions ==> VersionOk(b, v)
    ensures forall d {:trigger DefinitionOk(b, d)} :: d in b.definitions ==> DefinitionOk(b, d)
  {
    forall v | v in b.versions ensures VersionOk(b, v) { assert VersionOk(db, v); }
    forall d | d in b.definitions ensures DefinitionOk(b, d) { assert DefinitionOk(db, d); }
  }

  lemma SubmissionKept(db: Db, b: Db, s: Uuid)
    requires Inv(db) && s in db.submissions && s in b.submissions && b.submissions[s] == db.submissions[s]
    requires b.rules == db.rules && b.versions == db.versions
    requires s in b.reviews <==> s in db.reviews
    requires s in b.reviews ==> b.reviews[s] == db.reviews[s]
    ensures SubmissionOk(b, s)
  {
    assert SubmissionOk(db, s);
    assert PublishedVersions(b, s) == PublishedVersions(db, s);
  }

  lemma SubmitShape(db: Db, c: SubmitCommand)
    requires Submit(db, c).Ok? && Lookup(db, c.organization, SubmitAgent, c.evidence) == Ok(None)
    ensures SelfCanonical(db.rules, c.canonical) && Columns(db.rules, c.canonical).Ok?
    ensures var (b, row) := (Submit(db, c).value.0, SubmittedRow(c, Columns(db.rules, c.canonical).value));
            && c.submission !in db.submissions && Load(b, c.organization, c.submission).Ok?
            && (c.organization, SubmitAgent, c.evidence.key) !in db.idempotency
            && b == db.(submissions := db.submissions[c.submission := row],
                        idempotency := db.idempotency[(c.organization, SubmitAgent, c.evidence.key) :=
                                                      IdempotencyRow(c.evidence.request, c.submission)])
  {
  }

  lemma SubmitInv(db: Db, c: SubmitCommand)
    requires Inv(db)
    ensures Inv(Committed(db, Submit(db, c))) && Extends(db, Committed(db, Submit(db, c)))
  {
    if Submit(db, c).Ok? && Lookup(db, c.organization, SubmitAgent, c.evidence) == Ok(None) {
      SubmitShape(db, c);
      SelfCanonicalIsIntact(db.rules, c.canonical);
      SubmittedInv(db, Submit(db, c).value.0, c.submission, (c.organization, SubmitAgent, c.evidence.key), c.evidence.request);
    }
  }

  lemma SubmittedInv(db: Db, b: Db, s: Uuid, k: (Uuid, Operation, Digest), request: Digest)
    requires Inv(db) && s !in db.submissions && s in b.submissions && k !in db.idempotency
    requires b == db.(submissions := db.submissions[s := b.submissions[s]],
                      idempotency := db.idempotency[k := IdempotencyRow(request, s)])
    requires b.submissions[s].organization == k.0 && b.submissions[s].status.Pending? && k.1.SubmitAgent?
    requires Intact(db.rules, b.submissions[s].stored) && Load(b, k.0, s).Ok?
    ensures Inv(b) && Extends(db, b)
  {
    forall v | v in b.versions ensures b.versions[v].submission != s { assert VersionOk(db, v); }
    assert PublishedVersions(b, s) == {};
    assert s !in db.reviews;
    UnpublishedInv(db, b, s);
  }

  /** A pending submission moved to a terminal status without being published, under an idempotency row. */
  ghost predicate Closes(db: Db, b: Db, s: Uuid, status: Status, at: Time, k: (Uuid, Operation, Digest), request: Digest) {
    && s in db.submissions && db.submissions[s].status.Pending? && db.submissions[s].organization == k.0
    && k !in db.idempotency
    && b == db.(submissions := db.submissions[s := Terminal(db.submissions[s], status, at)], reviews := b.reviews,
                idempotency := db.idempotency[k := IdempotencyRow(request, s)])
  }

  lemma ClosesInv(db: Db, b: Db, s: Uuid, status: Status, at: Time, k: (Uuid, Operation, Digest), request: Digest)
    requires Inv(db) && Closes(db, b, s, status, at, k, request) && !status.Pending? && !status.Approved?
    requires if status.Rejected? then s !in db.reviews && s in b.reviews && b.reviews == db.reviews[s := b.reviews[s]]
                                      && b.reviews[s].decision.Reject? && b.reviews[s].content == db.submissions[s].stored.digests.content
             else b.reviews == db.reviews
    ensures Inv(b) && Extends(db, b)
  {
    assert SubmissionOk(db, s);
    UnpublishedInv(db, b, s);
  }

  lemma WithdrawShape(db: Db, c: WithdrawCommand)
    requires Withdraw(db, c).Ok? && Lookup(db, c.organization, WithdrawAgent, c.evidence) == Ok(None)
    ensures var b := Withdraw(db, c).value.0;
            && Closes(db, b, c.submission, Withdrawn, c.at, (c.organization, WithdrawAgent, c.evidence.key), c.evidence.request)
            && b.reviews == db.reviews
  {
  }

  lemma WithdrawInv(db: Db, c: WithdrawCommand)
    requires Inv(db)
    ensures Inv(Committed(db, Withdraw(db, c))) && Extends(db, Committed(db, Withdraw(db, c)))
  {
    if Withdraw(db, c).Ok? && Lookup(db, c.organization, WithdrawAgent, c.evidence) == Ok(None) {
      WithdrawShape(db, c);
      ClosesInv(db, Withdraw(db, c).value.0, c.submission, Withdrawn, c.at,
                (c.organization, WithdrawAgent, c.evidence.key), c.evidence.request);
    }
  }

  lemma RejectShape(db: Db, c: ReviewCommand)
    requires RejectStep(db, c).Ok? && Lookup(db, c.organization, ReviewAgent, c.evidence) == Ok(None)
    ensures var b := RejectStep(db, c).value.0;
            && Closes(db, b, c.submission, Rejected, c.at, (c.organization, ReviewAgent, c.evidence.key), c.evidence.request)
            && c.submission !in db.reviews && c.submission in b.reviews
            && b.reviews == db.reviews[c.submission := b.reviews[c.submission]] && b.reviews[c.submission].decision.Reject?
            && b.reviews[c.submission].content == db.submissions[c.submission].stored.digests.content
  {
  }

  lemma RejectInv(db: Db, c: ReviewCommand)
    requires Inv(db)
    ensures Inv(Committed(db, RejectStep(db, c))) && Extends(db, Committed(db, RejectStep(db, c)))
  {
    if RejectStep(db, c).Ok? && Lookup(db, c.organization, ReviewAgent, c.evidence) == Ok(None) {
      RejectShape(db, c);
      ClosesInv(db, RejectStep(db, c).value.0, c.submission, Rejected, c.at,
                (c.organization, ReviewAgent, c.evidence.key), c.evidence.request);
    }
  }

  // ---------- approval ----------

  /** The command commits now, as opposed to failing or being replayed. */
  ghost predicate FreshApproval(db: Db, c: ReviewCommand) {
    ApproveStep(db, c).Ok? && Lookup(db, c.organization, ReviewAgent, c.evidence) == Ok(None)
  }

  /** What a superseding approval writes: the submission's status and the idempotency row, nothing else. */
  ghost predicate Supersedes(db: Db, b: Db, c: ReviewCommand) {
    && c.submission in db.submissions && db.submissions[c.submission].status.Pending?
    && b == db.(submissions := db.submissions[c.submission := Terminal(db.submissions[c.submission], Superseded, c.at)],
                idempotency := b.idempotency)
    && b.idempotency == db.idempotency[(c.organization, ReviewAgent, c.evidence.key) :=
                                       IdempotencyRow(c.evidence.request, c.submission)]
  }

  ghost predicate Publishes(db: Db, b: Db, c: ReviewCommand, version: Uuid, number: nat, name: seq<Byte>) {
    && c.submission in db.submissions && db.submissions[c.submission].status.Pending?
    && version != NIL && version !in db.versions && c.submission !in db.reviews
    && var row := db.submissions[c.submission];
    && row.organization == c.organization && b.rules == db.rules
    && PlanApproval(db, c.organization, row) == Ok(PublishAs(number))
    && b.versions == db.versions[version :=
         Version(row.organization, row.stored.definition, number, row.stored.content, c.submission)]
    && b.definitions == db.definitions[row.stored.definition := Definition(row.organization, name, version)]
    && b.submissions == db.submissions[c.submission := Terminal(row, Approved, c.at)]
    && b.reviews == db.reviews[c.submission :=
         Review(c.review, c.actor, Approve, "", "", row.stored.digests.content, c.at)]
    && b.idempotency == db.idempotency[(c.organization, ReviewAgent, c.evidence.key) :=
                                       IdempotencyRow(c.evidence.request, c.submission)]
  }

  lemma ApprovalShape(db: Db, c: ReviewCommand) returns (version: Uuid, number: nat, name: seq<Byte>)
    requires FreshApproval(db, c) && Inv(db)
    ensures ValidReview(c)
    ensures (c.organization, ReviewAgent, c.evidence.key) !in db.idempotency
    ensures c.submission in db.submissions && db.submissions[c.submission].organization == c.organization
    ensures PlanApproval(db, c.organization, db.submissions[c.submission]).Ok?
    ensures var b := ApproveStep(db, c).value.0;
            && Load(b, c.organization, c.submission).Ok?
            && var view := Load(b, c.organization, c.submission).value;
               if PlanApproval(db, c.organization, db.submissions[c.submission]).value.Stale?
               then Supersedes(db, b, c) && ApproveStep(db, c).value.1 == SupersededError(view)
               else Publishes(db, b, c, version, number, name) && ApproveStep(db, c).value.1 == Answered(view)
  {
    var row := db.submissions[c.submission];
    assert SubmissionOk(db, c.submission);
    IntactReloads(db.rules, row.stored);
    var plan := PlanApproval(db, c.organization, row).value;
    version, number, name := NIL, 0, [];
    if plan.PublishAs? {
      version, number := c.built.value.id, plan.number;
      name := if row.stored.kind.Initial? then row.stored.name else db.definitions[row.stored.definition].displayName;
    }
  }

  lemma SupersedesInv(db: Db, b: Db, c: ReviewCommand)
    requires Inv(db) && Supersedes(db, b, c) && db.submissions[c.submission].organization == c.organization
    requires (c.organization, ReviewAgent, c.evidence.key) !in db.idempotency
    ensures Inv(b) && Extends(db, b)
  {
    assert SubmissionOk(db, c.submission);
    UnpublishedInv(db, b, c.submission);
  }

  lemma NextNumberIsFresh(db: Db, b: Db, c: ReviewCommand, version: Uuid, number: nat, name: seq<Byte>, v: Uuid)
    requires Inv(db) && Publishes(db, b, c, version, number, name) && v in db.versions
    ensures db.versions[v].submission != c.submission
    ensures db.versions[v].definition == db.submissions[c.submission].stored.definition ==> db.versions[v].number < number
  {
    assert VersionOk(db, v);
  }

  lemma PublishedVersionOk(db: Db, b: Db, c: ReviewCommand, version: Uuid, number: nat, name: seq<Byte>, v: Uuid)
    requires Inv(db) && Publishes(db, b, c, version, number, name) && v in b.versions
    ensures VersionOk(b, v)
  {
    var row := db.submissions[c.submission];
    if !row.stored.kind.Initial? { assert DefinitionOk(db, row.stored.definition); }
    if v != version {
      assert VersionOk(db, v);
      NextNumberIsFresh(db, b, c, version, number, name, v);
    }
  }

  lemma PublishedSubmissionOk(db: Db, b: Db, c: ReviewCommand, version: Uuid, number: nat, name: seq<Byte>, s: Uuid)
    requires Inv(db) && Publishes(db, b, c, version, number, name) && s in b.submissions
    ensures SubmissionOk(b, s)
  {
    assert SubmissionOk(db, s);
    if s == c.submission {
      assert version in PublishedVersions(b, s);
    } else {
      assert PublishedVersions(b, s) == PublishedVersions(db, s);
    }
  }

  lemma PublishedDistinct(db: Db, b: Db, c: ReviewCommand, version: Uuid, number: nat, name: seq<Byte>)
    requires Inv(db) && Publishes(db, b, c, version, number, name)
    ensures DistinctVersions(b.versions)
  {
    forall v | v in db.versions
      ensures db.versions[v].submission != c.submission
      ensures db.versions[v].definition == db.submissions[c.submission].stored.definition ==> db.versions[v].number < number
    {
      NextNumberIsFresh(db, b, c, version, number, name, v);
    }
  }

  lemma PublishesExtends(db: Db, b: Db, c: ReviewCommand, version: Uuid, number: nat, name: seq<Byte>)
    requires Publishes(db, b, c, version, number, name)
    requires (c.organization, ReviewAgent, c.evidence.key) !in db.idempotency
    ensures Extends(db, b)
  {
  }

  lemma PublishesIdempotency(db: Db, b: Db, c: ReviewCommand, version: Uuid, number: nat, name: seq<Byte>,
                             k: (Uuid, Operation, Digest))
    requires Inv(db) && Publishes(db, b, c, version, number, name) && k in b.idempotency
    ensures IdempotencyOk(b, k)
  {
    if k in db.idempotency { assert IdempotencyOk(db, k); }
  }

  lemma PublishesDefinitionOk(db: Db, b: Db, c: ReviewCommand, version: Uuid, number: nat, name: seq<Byte>, d: Uuid)
    requires Inv(db) && Publishes(db, b, c, version, number, name) && d in b.definitions
    ensures DefinitionOk(b, d)
  {
    if d != db.submissions[c.submission].stored.definition { assert DefinitionOk(db, d); }
  }

  lemma PublishesInv(db: Db, b: Db, c: ReviewCommand, version: Uuid, number: nat, name: seq<Byte>)
    requires Inv(db) && Publishes(db, b, c, version, number, name)
    requires (c.organization, ReviewAgent, c.evidence.key) !in db.idempotency
    ensures Inv(b)
  {
    forall v | v in b.versions ensures VersionOk(b, v) { PublishedVersionOk(db, b, c, version, number, name, v); }
    forall d | d in b.definitions ensures DefinitionOk(b, d) { PublishesDefinitionOk(db, b, c, version, number, name, d); }
    PublishedDistinct(db, b, c, version, number, name);
    forall s | s in b.submissions ensures SubmissionOk(b, s) {
      PublishedSubmissionOk(db, b, c, version, number, name, s);
    }
    forall k | k in b.idempotency ensures IdempotencyOk(b, k) {
      PublishesIdempotency(db, b, c, version, number, name, k);
    }
  }

  lemma ApproveInv(db: Db, c: ReviewCommand)
    requires Inv(db)
    ensures Inv(Committed(db, ApproveStep(db, c))) && Extends(db, Committed(db, ApproveStep(db, c)))
  {
    if FreshApproval(db, c) {
      var version, number, name := ApprovalShape(db, c);
      var b := ApproveStep(db, c).value.0;
      if PlanApproval(db, c.organization, db.submissions[c.submission]).value.Stale? {
        SupersedesInv(db, b, c);
      } else {
        PublishesInv(db, b, c, version, number, name);
        PublishesExtends(db, b, c, version, number, name);
      }
    }
  }

  // ---------- runs ----------

  lemma StepInv(db: Db, e: Event)
    requires Inv(db)
    ensures Inv(Apply(db, e)) && Extends(db, Apply(db, e))
  {
    match e
    case SubmitEvent(c) => SubmitInv(db, c);
    case WithdrawEvent(c) => WithdrawInv(db, c);
    case ReviewEvent(c) => if c.decision.Approve? { ApproveInv(db, c); } else { RejectInv(db, c); }
    case SurroundingsEvent(around) => SurroundingsInv(db, around);
  }

  lemma SurroundingsInv(db: Db, around: Surroundings)
    requires Inv(db)
    ensures Inv(db.(around := around)) && Extends(db, db.(around := around))
  {
    var b := db.(around := around);
    VersionsKept(db, b);
    forall s | s in b.submissions ensures SubmissionOk(b, s) { SubmissionKept(db, b, s); }
    forall k | k in b.idempotency ensures IdempotencyOk(b, k) { assert IdempotencyOk(db, k); }
  }

  /** Every run keeps the invariant and only ever adds to, or moves on, what it started from. */
  lemma {:induction false} RunInv(db: Db, events: seq<Event>)
    requires Inv(db)
    ensures Inv(Run(db, events)) && Extends(db, Run(db, events))
  {
    if events != [] {
      var last := |events| - 1;
      RunInv(db, events[..last]);
      StepInv(Run(db, events[..last]), events[last]);
      ExtendsTransitive(db, Run(db, events[..last]), Run(db, events));
    }
  }

  /** The state a run reaches from the empty database under these content rules. */
  ghost function Reached(rules: Rules, events: seq<Event>): Db { Run(Empty(rules), events) }

  lemma ReachableInv(rules: Rules, events: seq<Event>)
    ensures Inv(Reached(rules, events)) && Reached(rules, events).rules == rules
  {
    RunInv(Empty(rules), events);
  }

  // ---------- main results ----------

  ghost function NodeOf(db: Db, row: Version): Node {
    if row.submission in db.submissions
    then var st := db.submissions[row.submission].stored; Node(row.definition, row.number, st.kind.Initial?, st.base)
    else Node(row.definition, row.number, false, NIL)
  }

  ghost function TreeOf(db: Db): Tree { map v | v in db.versions :: NodeOf(db, db.versions[v]) }

  /** Version `v` was published by an approved submission of its definition and organization, with its content. */
  ghost predicate Backed(db: Db, d: Uuid, v: Uuid)
    requires d in db.definitions && v in db.versions
  {
    && db.versions[v].submission in db.submissions
    && var s := db.submissions[db.versions[v].submission];
    && s.status.Approved? && s.stored.definition == d && s.organization == db.definitions[d].organization
    && s.stored.content == db.versions[v].content && !s.stored.kind.UnknownKind?
  }

  lemma TreeIsOk(db: Db)
    requires Inv(db)
    ensures TreeOk(TreeOf(db))
  {
    var t := TreeOf(db);
    forall v | v in t ensures NodeOk(t, v) { assert VersionOk(db, v); }
  }

  /** An organization definition has versions 1..n without gaps or repeats, its head is version n,
      version 1 was published by an `initial` submission of the same organization and version k+1 by
      a submission based on exactly version k. */
  lemma VersionLineage(rules: Rules, events: seq<Event>, d: Uuid)
    requires d in Reached(rules, events).definitions
    ensures Reached(rules, events).definitions[d].latest in Reached(rules, events).versions
    ensures var db := Reached(rules, events);
            var n := db.versions[db.definitions[d].latest].number;
            && n >= 1 && IsVersion(TreeOf(db), d, n, db.definitions[d].latest) && Numbered(TreeOf(db), d, n)
            && (forall v :: v in db.versions && db.versions[v].definition == d ==> Backed(db, d, v))
  {
    var db := Reached(rules, events);
    ReachableInv(rules, events);
    TreeIsOk(db);
    assert DefinitionOk(db, d);
    var latest := db.definitions[d].latest;
    assert VersionOk(db, latest);
    forall v | v in db.versions && db.versions[v].definition == d
      ensures Backed(db, d, v) && db.versions[v].number <= db.versions[latest].number
    {
      assert VersionOk(db, v);
      assert SubmissionOk(db, db.versions[v].submission);
    }
    NumberedToHead(TreeOf(db), d, db.versions[latest].number, latest);
  }

  /** Once terminal, a submission loads the same in every later state. */
  lemma TerminalLoadPersists(a: Db, b: Db, organization: Uuid, s: Uuid)
    requires Inv(a) && Inv(b) && Extends(a, b) && s in a.submissions && !a.submissions[s].status.Pending?
    ensures Load(b, organization, s) == Load(a, organization, s)
  {
    assert SubmissionOk(a, s) && SubmissionOk(b, s);
    if a.submissions[s].status.Approved? {
      OnePublished(a, s);
      OnePublished(b, s);
      var v :| v in PublishedVersions(a, s);
      assert v in PublishedVersions(b, s);
    }
  }

  lemma OnePublished(db: Db, s: Uuid)
    requires Inv(db) && s in db.submissions && db.submissions[s].status.Approved?
    ensures exists v :: PublishedVersions(db, s) == {v}
  {
    assert SubmissionOk(db, s);
    var v :| v in PublishedVersions(db, s);
    forall w | w in PublishedVersions(db, s) ensures w == v {}
    assert PublishedVersions(db, s) == {v};
  }

  /** The answer to a retry: the first answer, marked as replayed. */
  function Replay(answer: Answer): Answer {
    match answer
    case Answered(view) => Answered(view.(replayed := true))
    case SupersededError(view) => SupersededError(view.(replayed := true))
  }

  /** Retrying an approval, whether it published or was superseded, gives the first answer again after
      any further events, and changes nothing, as long as the reviewer still has access. */
  lemma RetriedApproval(rules: Rules, events: seq<Event>, c: ReviewCommand, more: seq<Event>)
    requires FreshApproval(Reached(rules, events), c)
    requires RequireAccess(Run(ApproveStep(Reached(rules, events), c).value.0, more), c.organization, c.actor) == Pass
    ensures var first := ApproveStep(Reached(rules, events), c).value;
            var later := Run(first.0, more);
            ApproveStep(later, c) == Ok((later, Replay(first.1)))
  {
    var db := Reached(rules, events);
    ReachableInv(rules, events);
    ApproveInv(db, c);
    var first := ApproveStep(db, c).value;
    ApprovalOutcome(db, c);
    RunInv(first.0, more);
    ApprovalLater(first.0, c, first.1, Run(first.0, more));
  }

  /** What a fresh approval left behind for its retries. */
  ghost predicate ApprovalLeft(b: Db, c: ReviewCommand, answer: Answer) {
    && ValidReview(c) && Lookup(b, c.organization, ReviewAgent, c.evidence) == Ok(Some(c.submission))
    && c.submission in b.submissions && !b.submissions[c.submission].status.Pending?
    && Load(b, c.organization, c.submission) == Ok(answer.view)
    && (answer.SupersededError? <==> answer.view.row.status.Superseded?)
  }

  lemma ApprovalOutcome(db: Db, c: ReviewCommand)
    requires FreshApproval(db, c) && Inv(db)
    ensures ApprovalLeft(ApproveStep(db, c).value.0, c, ApproveStep(db, c).value.1)
  {
    var version, number, name := ApprovalShape(db, c);
  }

  lemma ApprovalLater(b: Db, c: ReviewCommand, answer: Answer, later: Db)
    requires Inv(b) && Inv(later) && Extends(b, later) && ApprovalLeft(b, c, answer)
    requires RequireAccess(later, c.organization, c.actor) == Pass
    ensures ApproveStep(later, c) == Ok((later, Replay(answer)))
  {
    TerminalLoadPersists(b, later, c.organization, c.submission);
    ApprovalReplays(later, c, answer);
  }

  lemma ApprovalReplays(later: Db, c: ReviewCommand, first: Answer)
    requires ValidReview(c) && RequireAccess(later, c.organization, c.actor) == Pass
    requires Lookup(later, c.organization, ReviewAgent, c.evidence) == Ok(Some(c.submission))
    requires Load(later, c.organization, c.submission) == Ok(first.view)
    requires first.SupersededError? <==> first.view.row.status.Superseded?
    ensures ApproveStep(later, c) == Ok((later, Replay(first)))
  {
  }

  lemma RetriedRejection(rules: Rules, events: seq<Event>, c: ReviewCommand, more: seq<Event>)
    requires RejectStep(Reached(rules, events), c).Ok?
    requires Lookup(Reached(rules, events), c.organization, ReviewAgent, c.evidence) == Ok(None)
    requires RequireAccess(Run(RejectStep(Reached(rules, events), c).value.0, more), c.organization, c.actor) == Pass
    ensures var first := RejectStep(Reached(rules, events), c).value;
            var later := Run(first.0, more);
            RejectStep(later, c) == Ok((later, Replay(first.1)))
  {
    var db := Reached(rules, events);
    ReachableInv(rules, events);
    RejectInv(db, c);
    var first := RejectStep(db, c).value;
    RejectionOutcome(db, c);
    RunInv(first.0, more);
    TerminalLoadPersists(first.0, Run(first.0, more), c.organization, c.submission);
    RejectionReplays(Run(first.0, more), c, first.1);
  }

  lemma RejectionOutcome(db: Db, c: ReviewCommand)
    requires RejectStep(db, c).Ok? && Lookup(db, c.organization, ReviewAgent, c.evidence) == Ok(None)
    ensures var (b, answer) := RejectStep(db, c).value;
            && ValidReview(c) && Lookup(b, c.organization, ReviewAgent, c.evidence) == Ok(Some(c.submission))
            && c.submission in b.submissions && !b.submissions[c.submission].status.Pending?
            && answer.Answered? && Load(b, c.organization, c.submission) == Ok(answer.view)
  {
  }

  lemma RejectionReplays(later: Db, c: ReviewCommand, first: Answer)
    requires ValidReview(c) && RequireAccess(later, c.organization, c.actor) == Pass
    requires Lookup(later, c.organization, ReviewAgent, c.evidence) == Ok(Some(c.submission))
    requires first.Answered? && Load(later, c.organization, c.submission) == Ok(first.view)
    ensures RejectStep(later, c) == Ok((later, Replay(first)))
  {
  }

  lemma RetriedWithdrawal(rules: Rules, events: seq<Event>, c: WithdrawCommand, more: seq<Event>)
    requires Withdraw(Reached(rules, events), c).Ok?
    requires Lookup(Reached(rules, events), c.organization, WithdrawAgent, c.evidence) == Ok(None)
    requires RequireAccess(Run(Withdraw(Reached(rules, events), c).value.0, more), c.organization, c.actor) == Pass
    ensures var first := Withdraw(Reached(rules, events), c).value;
            var later := Run(first.0, more);
            Withdraw(later, c) == Ok((later, Replay(first.1)))
  {
    var db := Reached(rules, events);
    ReachableInv(rules, events);
    WithdrawInv(db, c);
    var first := Withdraw(db, c).value;
    WithdrawalOutcome(db, c);
    RunInv(first.0, more);
    TerminalLoadPersists(first.0, Run(first.0, more), c.organization, c.submission);
    WithdrawalReplays(Run(first.0, more), c, first.1);
  }

  ghost predicate ValidWithdrawal(c: WithdrawCommand) {
    c.wellFormed && c.organization != NIL && c.submission != NIL && c.expectedRevision > 0
  }

  lemma WithdrawalOutcome(db: Db, c: WithdrawCommand)
    requires Withdraw(db, c).Ok? && Lookup(db, c.organization, WithdrawAgent, c.evidence) == Ok(None)
    ensures var (b, answer) := Withdraw(db, c).value;
            && ValidWithdrawal(c) && Lookup(b, c.organization, WithdrawAgent, c.evidence) == Ok(Some(c.submission))
            && c.submission in b.submissions && !b.submissions[c.submission].status.Pending?
            && answer.Answered? && Load(b, c.organization, c.submission) == Ok(answer.view)
  {
  }

  lemma WithdrawalReplays(later: Db, c: WithdrawCommand, first: Answer)
    requires ValidWithdrawal(c) && RequireAccess(later, c.organization, c.actor) == Pass
    requires Lookup(later, c.organization, WithdrawAgent, c.evidence) == Ok(Some(c.submission))
    requires first.Answered? && Load(later, c.organization, c.submission) == Ok(first.view)
    ensures Withdraw(later, c) == Ok((later, Replay(first)))
  {
  }
}
