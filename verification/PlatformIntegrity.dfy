/** The integrity checks of the official pipeline, made on every load, submission and review: what was
    written always passes them. */
module PlatformIntegrity {
  import opened Common
  import opened SubmissionPackage
  import Manifest
  import ManifestProofs
  import opened PlatformState
  import opened PlatformSteps
  import opened PlatformInvariants
  import opened PlatformProofs
  import opened PlatformTheorems

  /** In every reachable state each stored draft and submission loads, and under lawful rules as the package written. */
  lemma StoredRowsAlwaysLoad(rules: Rules, events: seq<Event>, id: Uuid)
    ensures var db := Reached(rules, events);
            && (id in db.drafts ==>
                  LoadDraft(db, id).Ok? && (Lawful(rules) ==> LoadDraft(db, id).value.package == PackageOf(db.drafts[id].stored)))
            && (id in db.submissions ==>
                  LoadSubmission(db, id).Ok?
                  && (Lawful(rules) ==> LoadSubmission(db, id).value.package == PackageOf(db.submissions[id].stored)))
  {
    var db := Reached(rules, events);
    ReachableInv(rules, events);
    RulesStay(rules, events);
    if id in db.drafts { DraftLoads(db, id); }
    if id in db.submissions { SubmissionLoads(db, id); }
  }

  lemma DraftLoads(db: Db, d: Uuid)
    requires SubmissionsInv(db) && d in db.drafts
    ensures LoadDraft(db, d).Ok? && LoadDraft(db, d).value.row == db.drafts[d]
    ensures Lawful(db.rules) ==>
              && LoadDraft(db, d).value.package == PackageOf(db.drafts[d].stored)
              && Checked(db.rules, db.drafts[d].stored)
  {
    assert DraftOk(db, d);
    if Lawful(db.rules) { IntactReloads(db.rules, db.drafts[d].stored); }
  }

  lemma SubmissionLoads(db: Db, s: Uuid)
    requires SubmissionsInv(db) && s in db.submissions
    ensures LoadSubmission(db, s).Ok? && LoadSubmission(db, s).value.row == db.submissions[s]
    ensures Lawful(db.rules) ==>
              && LoadSubmission(db, s).value.package == PackageOf(db.submissions[s].stored)
              && Checked(db.rules, db.submissions[s].stored)
  {
    assert SubmissionOk(db, s);
    if s in db.reviews { assert ReviewOk(db, s); }
    if Lawful(db.rules) { IntactReloads(db.rules, db.submissions[s].stored); }
  }

  /** Checked once more, a stored package is still the same and is written in the same columns. */
  ghost predicate Checked(rules: Rules, st: Stored) {
    var sealed := Sealed(PackageOf(st), st.digests);
    Recanonicalize(rules, PackageOf(st), st.digests) == Ok(sealed) && Columns(rules, sealed) == Ok(st)
  }

  /** Submitting a draft never fails on the integrity of what the draft holds. */
  lemma SubmitNeverFailsIntegrity(rules: Rules, events: seq<Event>, c: SubmitCommand)
    requires Lawful(rules)
    ensures Submit(Reached(rules, events), c) != Err(VersionIntegrityFailed)
  {
    var db := Reached(rules, events);
    ReachableInv(rules, events);
    RulesStay(rules, events);
    SubmitPasses(db, c);
  }

  lemma SubmitPasses(db: Db, c: SubmitCommand)
    requires Inv(db) && Lawful(db.rules)
    ensures Submit(db, c) != Err(VersionIntegrityFailed)
  {
    if c.draft in db.drafts { DraftLoads(db, c.draft); }
  }

  /** The version built for an approval is what the submission holds, under the number it gets. */
  ghost predicate BuiltFaithfully(db: Db, c: ReviewCommand) {
    c.submission in db.submissions ==>
      var row := db.submissions[c.submission];
      match c.built
      case Err(e) => e != VersionIntegrityFailed
      case Ok(material) =>
        && material.id != NIL && material.content == row.stored.content
        && LockPublicationTarget(db, row.stored.definition, row.stored.kind, row.stored.base) == Ok(material.number)
  }

  /** A review never fails on the integrity of what the submission holds: only a version built differently can. */
  lemma ReviewNeverFailsIntegrity(rules: Rules, events: seq<Event>, c: ReviewCommand)
    requires Lawful(rules) && (c.decision.Approve? ==> BuiltFaithfully(Reached(rules, events), c))
    ensures ReviewStep(Reached(rules, events), c) != Err(VersionIntegrityFailed)
  {
    var db := Reached(rules, events);
    ReachableInv(rules, events);
    RulesStay(rules, events);
    ReviewPasses(db, c);
  }

  lemma ReviewablePasses(db: Db, c: ReviewCommand)
    requires Inv(db) && Lawful(db.rules)
    ensures Reviewable(db, c) != Err(VersionIntegrityFailed)
    ensures Reviewable(db, c).Ok? ==>
              var st := db.submissions[c.submission].stored;
              Reviewable(db, c).value == Sealed(PackageOf(st), st.digests)
  {
    if c.submission in db.submissions {
      SubmissionLoads(db, c.submission);
      assert SubmissionOk(db, c.submission);
      DraftLoads(db, db.submissions[c.submission].draft);
    }
  }

  lemma {:induction false} InitialsNeverFailIntegrity(db: Db, definition: Uuid, version: Uuid, minimum: string,
                                                      initial: seq<PlatformState.InitialRelease>, key: string, actor: Uuid, at: Time)
    ensures InsertInitials(db, definition, version, minimum, initial, key, actor, at) != Err(VersionIntegrityFailed)
  {
    if initial != [] {
      InitialsNeverFailIntegrity(db, definition, version, minimum, initial[..|initial| - 1], key, actor, at);
    }
  }

  lemma PublishPasses(db: Db, id: Uuid, row: Submission, number: nat, c: ReviewCommand)
    requires row.stored.definition in db.definitions && Checked(db.rules, row.stored)
    requires match c.built
             case Err(e) => e != VersionIntegrityFailed
             case Ok(material) => material.id != NIL && material.content == row.stored.content && material.number == number
    ensures Publish(db, id, row, Sealed(PackageOf(row.stored), row.stored.digests), number, c) != Err(VersionIntegrityFailed)
  {
    var sealed := Sealed(PackageOf(row.stored), row.stored.digests);
    if c.built.Ok? && c.built.value.id !in db.versions {
      var material, definition := c.built.value, row.stored.definition;
      var db1 := db.(versions := db.versions[material.id := Version(definition, number, material.content, id)],
                     definitions := db.definitions[definition := Definition(sealed.package.name, material.id)]);
      InitialsNeverFailIntegrity(db1, definition, material.id, material.minimumVersion, c.initial, c.rolloutKey, c.actor, c.at);
    }
  }

  lemma ReviewPasses(db: Db, c: ReviewCommand)
    requires Inv(db) && Lawful(db.rules) && (c.decision.Approve? ==> BuiltFaithfully(db, c))
    ensures ReviewStep(db, c) != Err(VersionIntegrityFailed)
  {
    ReviewablePasses(db, c);
    if c.decision.Approve? && Reviewable(db, c).Ok? {
      var row := db.submissions[c.submission];
      SubmissionLoads(db, c.submission);
      assert SubmissionOk(db, c.submission);
      var target := LockPublicationTarget(db, row.stored.definition, row.stored.kind, row.stored.base);
      if target.Ok? {
        PublishPasses(db.(reviews := db.reviews[c.submission := ReviewRow(c, row)]), c.submission, row, target.value, c);
      }
    }
  }

  // ---------- targets ----------

  /** An initial package is for a definition without versions, any other is based on the head; neither for an
      archived definition. */
  ghost predicate Targets(db: Db, definition: Uuid, kind: Kind, base: Uuid) {
    && definition in db.definitions && definition !in db.around.archivedDefinitions
    && (|| (kind == Initial && base == NIL && db.definitions[definition].latest == NIL)
        || (kind == Next && base != NIL && db.definitions[definition].latest == base))
  }

  lemma TargetsIff(db: Db, definition: Uuid, kind: Kind, base: Uuid)
    ensures RequireDraftTarget(db, definition, kind, base).Pass? <==> Targets(db, definition, kind, base)
  {
  }

  // ---------- which packages an update takes ----------

  /** Everything an update asks for besides a package that can be stored. */
  ghost predicate MayUpdate(db: Db, c: UpdateCommand) {
    && c.wellFormed && c.draft != NIL && LookupIdempotency(db, UpdateDraft, c.evidence) == Ok(None)
    && c.draft in db.drafts && c.draft !in db.around.archivedDrafts
    && var row := db.drafts[c.draft];
    && row.revision == c.expectedRevision && c.at >= row.createdAt
    && var sealed := Canonicalize(db.rules, Requested(c, row));
    && sealed.Ok? && db.rules.scan(sealed.value.package.files)
    && Targets(db, row.stored.definition, c.package.kind, c.package.base)
  }

  /** An update whose package canonicalizes is taken exactly when every path, once normalized, passes the guard on
      raw paths, and then loads as the canonical package; otherwise it is refused although the package was valid. */
  lemma UpdateAcceptsIff(u: Manifest.Library, events: seq<Event>, c: UpdateCommand)
    requires LawfulText(u) && MayUpdate(Reached(PlatformRules(u), events), c)
    ensures var db := Reached(PlatformRules(u), events);
            var sealed := Canonicalize(db.rules, Requested(c, db.drafts[c.draft])).value;
            if ManifestProofs.PathsPass(u, c.package.files)
            then Update(db, c).Ok? && Update(db, c).value.1.package == sealed.package
            else Update(db, c) == Err(InvalidRepositoryCommand)
  {
    var rules := PlatformRules(u);
    var db := Reached(rules, events);
    ReachableInv(rules, events);
    RulesStay(rules, events);
    var package := Requested(c, db.drafts[c.draft]);
    StorableIff(u, rules, package);
    UpdateOutcome(db, c);
  }

  lemma UpdateOutcome(db: Db, c: UpdateCommand)
    requires Inv(db) && MayUpdate(db, c)
    requires var sealed := Canonicalize(db.rules, Requested(c, db.drafts[c.draft])).value;
             SelfCanonical(db.rules, sealed) <==> Columns(db.rules, sealed).Ok?
    ensures var sealed := Canonicalize(db.rules, Requested(c, db.drafts[c.draft])).value;
            if Columns(db.rules, sealed).Ok?
            then Update(db, c).Ok? && Update(db, c).value.1.package == sealed.package
            else Update(db, c) == Err(InvalidRepositoryCommand)
  {
    DraftLoads(db, c.draft);
    assert DraftOk(db, c.draft);
    TargetsIff(db, db.drafts[c.draft].stored.definition, c.package.kind, c.package.base);
    var sealed := Canonicalize(db.rules, Requested(c, db.drafts[c.draft])).value;
    if Columns(db.rules, sealed).Ok? {
      SelfCanonicalIsIntact(db.rules, sealed);
      IntactReloads(db.rules, Columns(db.rules, sealed).value);
    }
  }
}
