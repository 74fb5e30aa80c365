/** The integrity checks of the organization pipeline never reject a row that submitting wrote: whatever happens
    in between, loading it gives back the content that was submitted. */
module OrganizationIntegrity {
  import opened Common
  import opened SubmissionPackage
  import opened OrganizationSteps
  import opened OrganizationProofs
  import opened OrganizationSpec
  import opened Manifest
  import opened ManifestProofs

  /** In every reachable state every stored submission loads, as exactly the package it was stored with, and passes
      the second check an approval makes. */
  lemma StoredRowsAlwaysLoad(rules: Rules, events: seq<Event>, s: Uuid)
    requires s in Reached(rules, events).submissions
    ensures var (db, row) := (Reached(rules, events), Reached(rules, events).submissions[s]);
            && Load(db, row.organization, s).Ok?
            && Load(db, row.organization, s).value.package == PackageOf(row.stored)
            && Recanonicalize(rules, PackageOf(row.stored), row.stored.digests) == Ok(Sealed(PackageOf(row.stored), row.stored.digests))
  {
    ReachableInv(rules, events);
    var db := Reached(rules, events);
    assert SubmissionOk(db, s);
    IntactReloads(rules, db.submissions[s].stored);
  }

  /** So no approval in any run is refused for the content of its row, unless the version builder says so. */
  lemma ApprovalNeverFailsIntegrity(rules: Rules, events: seq<Event>, c: ReviewCommand)
    requires ApproveStep(Reached(rules, events), c) == Err(InvalidAgentContent)
    ensures c.built == Err(InvalidAgentContent)
  {
    var db := Reached(rules, events);
    ReachableInv(rules, events);
    if c.submission in db.submissions {
      assert SubmissionOk(db, c.submission);
      IntactReloads(rules, db.submissions[c.submission].stored);
    }
  }

  /** A retry whose first call is on record is answered from the stored row and never fails. */
  lemma ReplaysNeverFail(rules: Rules, events: seq<Event>, organization: Uuid, operation: Operation, evidence: Evidence)
    requires Lookup(Reached(rules, events), organization, operation, evidence).Ok?
    requires Lookup(Reached(rules, events), organization, operation, evidence).value.Some?
    ensures var db := Reached(rules, events);
            Load(db, organization, Lookup(db, organization, operation, evidence).value.value).Ok?
  {
    var db := Reached(rules, events);
    ReachableInv(rules, events);
    var s := Lookup(db, organization, operation, evidence).value.value;
    assert IdempotencyOk(db, (organization, operation, evidence.key));
    StoredRowsAlwaysLoad(rules, events, s);
  }

  // ---------- from a submitted package to a loaded one ----------

  /** Of a package that canonicalizes at all, the submit step refuses the content exactly when a submitted path, once
      normalized, fails the guard on raw paths, or when the scan finds something. */
  lemma SubmitAcceptsIff(u: Library, events: seq<Event>, p: Package, c: SubmitCommand)
    requires LawfulText(u) && Canonicalize(OrganizationRules(u), p) == Ok(c.canonical)
    requires c.wellFormed && c.submission != NIL && c.organization != NIL
    ensures ValidSubmit(Reached(OrganizationRules(u), events), c) <==>
            PathsPass(u, p.files) && u.scan(c.canonical.package.files)
  {
    ReachableInv(OrganizationRules(u), events);
    StorableIff(u, OrganizationRules(u), p);
  }

  lemma HeaderIsHeaded(u: Library, p: Package)
    requires u.trim(p.name) == p.name && OrganizationHeader(u, p)
    ensures Headed(p)
  {
  }

  /** The content a package canonicalizes to is the content its row holds. */
  ghost predicate HoldsContent(db: Db, s: Uuid, package: Package, content: Canonical) {
    s in db.submissions && db.submissions[s].stored.content == content && PackageOf(db.submissions[s].stored) == package
  }

  lemma ContentOfSealed(u: Library, p: Package, s: Sealed)
    requires LawfulText(u) && Canonicalize(OrganizationRules(u), p) == Ok(s) && PathsPass(u, p.files)
    ensures CanonicalizeVersion(u, p.manifest, p.files).Ok? && SelfCanonical(OrganizationRules(u), s) && Headed(s.package)
    ensures OrganizationRules(u).version(s.package.manifest, s.package.files) == Ok(CanonicalizeVersion(u, p.manifest, p.files).value)
  {
    StorableIff(u, OrganizationRules(u), p);
    CanonicalAgainIff(u, p.manifest, p.files);
    VersionOfRules(u, OrganizationRules(u), p.manifest, p.files);
    var c := CanonicalizeVersion(u, p.manifest, p.files).value;
    VersionOfRules(u, OrganizationRules(u), Decoded(c).0, Decoded(c).1);
    HeaderIsHeaded(u, s.package);
  }

  lemma SubmittedHolds(db: Db, c: SubmitCommand, content: Canonical)
    requires Inv(db) && NewKey(db, c.organization, SubmitAgent, c.evidence) && MaySubmit(db, c)
    requires db.rules.version(c.canonical.package.manifest, c.canonical.package.files) == Ok(content)
    ensures Submit(db, c).Ok? && HoldsContent(Submit(db, c).value.0, c.submission, c.canonical.package, content)
    ensures Submit(db, c).value.0.submissions[c.submission].organization == c.organization
  {
    SubmitDoes(db, c);
    SubmitShape(db, c);
  }

  /** Canonicalize a package whose normalized paths pass the guard and submit it where the other guards allow it: the
      submission commits, and after any further events it loads with the very content the package canonicalized to. */
  lemma SubmittedContentIsKept(u: Library, events: seq<Event>, p: Package, c: SubmitCommand, more: seq<Event>)
    requires LawfulText(u) && Canonicalize(OrganizationRules(u), p) == Ok(c.canonical)
    requires PathsPass(u, p.files) && u.scan(c.canonical.package.files)
    requires NewKey(Reached(OrganizationRules(u), events), c.organization, SubmitAgent, c.evidence)
    requires MayTake(Reached(OrganizationRules(u), events), c)
    ensures Submit(Reached(OrganizationRules(u), events), c).Ok? && CanonicalizeVersion(u, p.manifest, p.files).Ok?
    ensures var later := Run(Submit(Reached(OrganizationRules(u), events), c).value.0, more);
            && HoldsContent(later, c.submission, c.canonical.package, CanonicalizeVersion(u, p.manifest, p.files).value)
            && Load(later, c.organization, c.submission).Ok?
            && Load(later, c.organization, c.submission).value.package == c.canonical.package
  {
    var db := Reached(OrganizationRules(u), events);
    ReachableInv(OrganizationRules(u), events);
    ContentOfSealed(u, p, c.canonical);
    SubmittedHolds(db, c, CanonicalizeVersion(u, p.manifest, p.files).value);
    SubmitInv(db, c);
    ContentStays(Submit(db, c).value.0, c, CanonicalizeVersion(u, p.manifest, p.files).value, more);
  }

  lemma ContentStays(b: Db, c: SubmitCommand, content: Canonical, more: seq<Event>)
    requires Inv(b) && HoldsContent(b, c.submission, c.canonical.package, content)
    requires b.submissions[c.submission].organization == c.organization
    ensures HoldsContent(Run(b, more), c.submission, c.canonical.package, content)
    ensures Load(Run(b, more), c.organization, c.submission).Ok?
    ensures Load(Run(b, more), c.organization, c.submission).value.package == c.canonical.package
  {
    RunInv(b, more);
    RowLoads(Run(b, more), c.submission);
  }
}
