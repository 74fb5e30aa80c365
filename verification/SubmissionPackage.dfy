/** Publication packages as both pipelines handle them: canonicalized before they are stored, and read back
    and canonicalized again whenever a stored row is loaded or published
    (internal/agentcontrol/organization_submission_model.go, internal/agentcontrol/platform_service.go). */
module SubmissionPackage {
  import opened Common
  import opened SemVer
  import opened Manifest
  import opened ManifestProofs

  datatype Kind = Initial | Next | UnknownKind

  datatype Package = Package(
    kind: Kind, definition: Uuid, base: Uuid, name: Text, iconType: Text, icon: Text,
    manifest: Manifest, files: seq<File>)

  /** A canonicalized package with its digests. */
  datatype Sealed = Sealed(package: Package, digests: Digests)

  /** The columns a package is stored in: its header, the canonical content, and the digests. */
  datatype Stored = Stored(
    kind: Kind, definition: Uuid, base: Uuid, name: Text, iconType: Text, icon: Text,
    content: Canonical, digests: Digests)

  /** What a pipeline checks and computes: the header test, and functions of the content. */
  datatype Rules = Rules(
    header: Package -> bool, trim: Text -> Text,
    version: (Manifest, seq<File>) -> Outcome<Canonical, ContentError>,
    digests: Canonical -> Digests, scan: seq<File> -> bool)

  // ---------- the two pipelines' rules ----------

  predicate IconOk(u: Library, p: Package) {
    (p.iconType == [] <==> p.icon == []) && (p.iconType != [] ==> u.icon(p.iconType, p.icon))
  }

  predicate OrganizationHeader(u: Library, p: Package) {
    && p.definition != NIL
    && match p.kind
       case Initial => p.base == NIL && ValidText(u, u.trim(p.name), 1, 100) && IconOk(u, p)
       case Next => p.base != NIL && p.name == [] && p.iconType == [] && p.icon == []
       case UnknownKind => false
  }

  predicate PlatformHeader(u: Library, p: Package) {
    && p.definition != NIL && u.displayName(u.trim(p.name)) && IconOk(u, p)
    && match p.kind
       case Initial => p.base == NIL
       case Next => p.base != NIL
       case UnknownKind => false
  }

  function RulesWith(u: Library, header: Package -> bool): Rules {
    Rules(header, u.trim, (m: Manifest, files: seq<File>) => CanonicalizeVersion(u, m, files), u.digests, u.scan)
  }

  function OrganizationRules(u: Library): Rules { RulesWith(u, (p: Package) => OrganizationHeader(u, p)) }
  function PlatformRules(u: Library): Rules { RulesWith(u, (p: Package) => PlatformHeader(u, p)) }

  // ---------- canonicalizing, storing, reading back ----------

  /** The package with its name trimmed and its content read back from the canonical encodings. */
  function Settled(k: Rules, p: Package, c: Canonical): Package {
    p.(name := k.trim(p.name), manifest := Decoded(c).0, files := Decoded(c).1)
  }

  function Canonicalize(k: Rules, p: Package): Outcome<Sealed, ContentError> {
    if !k.header(p) then Err(InvalidContent) else
    var c :- k.version(p.manifest, p.files);
    Ok(Sealed(Settled(k, p, c), k.digests(c)))
  }

  /** A package that canonicalizes to itself with these digests: what submitting and creating demand. */
  predicate SelfCanonical(k: Rules, s: Sealed) { Canonicalize(k, s.package) == Ok(s) }

  /** The columns written for a sealed package: the encodings of its content, canonicalized once more. */
  function Columns(k: Rules, s: Sealed): Outcome<Stored, ContentError> {
    var p := s.package;
    var c := k.version(p.manifest, p.files);
    if c.Err? then Err(c.error)
    else Ok(Stored(p.kind, p.definition, p.base, p.name, p.iconType, p.icon, c.value, s.digests))
  }

  function PackageOf(st: Stored): Package {
    Package(st.kind, st.definition, st.base, st.name, st.iconType, st.icon, Decoded(st.content).0, Decoded(st.content).1)
  }

  /** The integrity check: a package must canonicalize to the digests on record. */
  function Recanonicalize(k: Rules, p: Package, digests: Digests): Outcome<Sealed, ContentError> {
    var again := Canonicalize(k, p);
    if again.Err? then again
    else if again.value.digests != digests then Err(InvalidContent)
    else again
  }

  /** Reading a stored package: decode its encodings and check them. */
  function Reload(k: Rules, st: Stored): Outcome<Sealed, ContentError> {
    Recanonicalize(k, PackageOf(st), st.digests)
  }

  // ---------- stored packages stay readable ----------

  /** A stored package that reads back as exactly what was written, now and whenever it is checked again. */
  ghost predicate Intact(k: Rules, st: Stored) {
    && k.version(PackageOf(st).manifest, PackageOf(st).files) == Ok(st.content)
    && SelfCanonical(k, Sealed(PackageOf(st), st.digests))
  }

  lemma IntactReloads(k: Rules, st: Stored)
    requires Intact(k, st)
    ensures Reload(k, st) == Ok(Sealed(PackageOf(st), st.digests))
    ensures Recanonicalize(k, PackageOf(st), st.digests) == Ok(Sealed(PackageOf(st), st.digests))
    ensures Columns(k, Sealed(PackageOf(st), st.digests)) == Ok(st)
  {
  }

  /** What is written for a package that canonicalizes to itself reads back as that package. */
  lemma SelfCanonicalIsIntact(k: Rules, s: Sealed)
    requires SelfCanonical(k, s)
    ensures Columns(k, s).Ok? && PackageOf(Columns(k, s).value) == s.package
    ensures Columns(k, s).value.digests == s.digests && Intact(k, Columns(k, s).value)
  {
  }

  /** Rules under which a second canonicalization, if it succeeds, changes nothing. */
  ghost predicate Lawful(k: Rules) {
    && (forall m, files {:trigger SettlesOrFails(k, m, files)} :: SettlesOrFails(k, m, files))
    && (forall p, c {:trigger HeaderSettles(k, p, c)} :: HeaderSettles(k, p, c))
  }

  ghost predicate SettlesOrFails(k: Rules, m: Manifest, files: seq<File>) {
    var first := k.version(m, files);
    first.Ok? ==>
      var again := k.version(Decoded(first.value).0, Decoded(first.value).1);
      again.Ok? ==> again == first
  }

  ghost predicate HeaderSettles(k: Rules, p: Package, c: Canonical) {
    k.header(p) ==> k.header(Settled(k, p, c)) && k.trim(k.trim(p.name)) == k.trim(p.name)
  }

  /** What is written for a freshly canonicalized package is intact, if it can be written at all. */
  lemma CanonicalIsIntact(k: Rules, p: Package)
    requires Lawful(k) && Canonicalize(k, p).Ok? && Columns(k, Canonicalize(k, p).value).Ok?
    ensures SelfCanonical(k, Canonicalize(k, p).value)
  {
    var c := k.version(p.manifest, p.files).value;
    assert SettlesOrFails(k, p.manifest, p.files);
    assert HeaderSettles(k, p, c);
  }

  /** Trimming as it is used here: idempotent, and nothing to trim from the empty text. */
  ghost predicate LawfulText(u: Library) {
    ManifestProofs.Lawful(u) && u.trim([]) == [] && forall s :: u.trim(u.trim(s)) == u.trim(s)
  }

  lemma VersionSettles(u: Library, m: Manifest, files: seq<File>)
    requires ManifestProofs.Lawful(u)
    ensures SettlesOrFails(OrganizationRules(u), m, files) && SettlesOrFails(PlatformRules(u), m, files)
  {
    if CanonicalizeVersion(u, m, files).Ok? { CanonicalAgainIff(u, m, files); }
  }

  lemma HeadersSettle(u: Library, p: Package, c: Canonical)
    requires LawfulText(u)
    ensures HeaderSettles(OrganizationRules(u), p, c) && HeaderSettles(PlatformRules(u), p, c)
  {
  }

  lemma RulesAreLawful(u: Library)
    requires LawfulText(u)
    ensures Lawful(OrganizationRules(u)) && Lawful(PlatformRules(u))
  {
    forall m, files ensures SettlesOrFails(OrganizationRules(u), m, files) && SettlesOrFails(PlatformRules(u), m, files) {
      VersionSettles(u, m, files);
    }
    forall p, c ensures HeaderSettles(OrganizationRules(u), p, c) && HeaderSettles(PlatformRules(u), p, c) {
      HeadersSettle(u, p, c);
    }
  }

  // ---------- which packages can be stored ----------

  /** A package canonicalized once can be stored, and then reads back unchanged, exactly when every submitted path,
      once normalized, passes the guard on raw paths. */
  lemma StorableIff(u: Library, k: Rules, p: Package)
    requires LawfulText(u) && (k == OrganizationRules(u) || k == PlatformRules(u)) && Canonicalize(k, p).Ok?
    ensures SelfCanonical(k, Canonicalize(k, p).value) <==> PathsPass(u, p.files)
    ensures Columns(k, Canonicalize(k, p).value).Ok? <==> PathsPass(u, p.files)
  {
    RulesAreLawful(u);
    CanonicalAgainIff(u, p.manifest, p.files);
    VersionOfRules(u, k, p.manifest, p.files);
    var c := CanonicalizeVersion(u, p.manifest, p.files).value;
    VersionOfRules(u, k, Decoded(c).0, Decoded(c).1);
    if PathsPass(u, p.files) { CanonicalIsIntact(k, p); }
  }

  lemma VersionOfRules(u: Library, k: Rules, m: Manifest, files: seq<File>)
    requires k == OrganizationRules(u) || k == PlatformRules(u)
    ensures k.version(m, files) == CanonicalizeVersion(u, m, files)
  {
  }
}
