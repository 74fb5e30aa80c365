/** Canonical content of an agent version (internal/agentcontrol/manifest.go): what a manifest and its
    bundle must satisfy, and the one canonical value they stand for. */
module Manifest {
  import opened Common
  import opened Bytes
  import opened CanonicalList
  import opened SemVer

  const MAX_ASSET_COUNT := 128
  const MAX_ASSET_BYTES := 256 * 1024
  const MAX_BUNDLE_BYTES := 2 * 1024 * 1024
  const MAX_MANIFEST_BYTES := 256 * 1024
  const MAX_REQUIREMENTS := 32
  const MAX_REQUIREMENT_TOOLS := 128

  datatype AssetKind = Skill | Sop | Knowledge | OtherKind
  datatype MediaType = Markdown | Plain | OtherMedia
  datatype Mode = UserSelect | Allowlist | Fixed | OtherMode

  datatype Asset = Asset(kind: AssetKind, media: MediaType, path: Text, sha256: Text)
  datatype File = File(path: Text, content: Text)
  datatype Requirement = Requirement(name: Text, reason: Text, required: bool, tools: seq<Text>)

  /** Identifiers in their canonical text form. */
  datatype Dependency = Dependency(definition: Text, version: Text)

  /** A manifest as submitted.  `requirements` is absent when the list is nil. */
  datatype Manifest = Manifest(
    schema: int, prompt: Text, assets: seq<Asset>,
    constraintProviders: seq<Text>, constraintModels: seq<Text>,
    mode: Mode, policyProviders: seq<Text>, policyModels: seq<Text>,
    allowed: seq<Text>, denied: seq<Text>,
    requirements: Option<seq<Requirement>>, dependencies: seq<Dependency>,
    minimum: Text, maximum: Text)

  /** The canonical value whose encodings are digested; `mode` and `requirements` exist from their schema on. */
  datatype Canonical = Canonical(
    schema: int, prompt: Text, assets: seq<Asset>, files: seq<File>,
    providers: seq<Text>, models: seq<Text>, mode: Option<Mode>,
    allowed: seq<Text>, denied: seq<Text>,
    requirements: Option<seq<Requirement>>, dependencies: seq<Dependency>,
    minimum: Text, maximum: Option<Text>)

  datatype ContentError = InvalidContent | RuntimeIncompatible

  /** SHA-256 of the encoded manifest, of the encoded bundle, and of both together. */
  datatype Digests = Digests(manifest: Text, bundle: Text, content: Text)

  /** Library functions this code relies on, as they are: Unicode validity, normalization, trimming and
      lower-casing, path.Clean, the hexadecimal SHA-256, icon inspection, the length of the encoded manifest,
      the digests of the encodings, whether the publication scan finds nothing in the files, and whether a trimmed
      text may be a platform display name. */
  datatype Library = Library(
    utf8: Text -> bool, nfc: Text -> Text, trim: Text -> Text, lower: Text -> Text,
    clean: Text -> Text, sha256: Text -> Text, icon: (Text, Text) -> bool, size: Canonical -> nat,
    digests: Canonical -> Digests, scan: seq<File> -> bool, displayName: Text -> bool)

  // ---------- texts ----------

  predicate Contains(s: Text, part: Text) {
    |part| <= |s| && (s[..|part|] == part || (s != [] && Contains(s[1..], part)))
  }

  predicate HasPrefix(s: Text, prefix: Text) { |prefix| <= |s| && s[..|prefix|] == prefix }

  predicate ValidText(u: Library, s: Text, minimum: nat, maximum: nat) {
    u.utf8(s) && minimum <= |s| <= maximum && 0 !in s
  }

  predicate OneLine(s: Text) { '\r' as int !in s && '\n' as int !in s }

  // ---------- paths ----------

  /** What is asked of a path before it is normalized. */
  predicate RawGuard(u: Library, raw: Text) {
    && raw != [] && raw == u.trim(raw) && u.utf8(raw) && 0 !in raw
    && '\\' as int !in raw && !Contains(raw, [58, 47, 47]) && !HasPrefix(raw, [47])
    && !(|raw| >= 2 && raw[1] == ':' as int)
  }

  function Segments(s: Text): (parts: seq<Text>)
    ensures parts != []
  {
    if s == [] then [[]]
    else
      var rest := Segments(s[1..]);
      if s[0] == '/' as int then [[]] + rest else [[s[0]] + rest[0]] + rest[1..]
  }

  predicate Reserved(segment: Text) {
    segment in [Ascii(".env"), Ascii("auth.json"), Ascii("memory.md"), Ascii("user.md"),
                Ascii("credentials"), Ascii("sessions"), Ascii("curator"), Ascii("archives")]
  }

  /** What is asked of a path after it is normalized. */
  predicate CleanPath(u: Library, path: Text) {
    && u.clean(path) == path && path != ['.' as int] && !HasPrefix(path, ['.' as int, '.' as int, '/' as int])
    && forall i :: 0 <= i < |Segments(u.lower(path))| ==> !Reserved(Segments(u.lower(path))[i])
  }

  predicate PathOk(u: Library, raw: Text) { RawGuard(u, raw) && CleanPath(u, u.nfc(raw)) }

  // ---------- string sets ----------

  predicate EntryOk(u: Library, s: Text) {
    ValidText(u, s, 1, 128) && s == u.trim(s) && OneLine(s) && !Contains(s, [58, 47, 47])
  }

  function EntryTest(u: Library): Text -> bool { (s: Text) => EntryOk(u, s) }
  function Same(): Text -> Text { (s: Text) => s }

  function StringSet(u: Library, values: seq<Text>): Option<seq<Text>> {
    Canon(values, EntryTest(u), Same(), Same())
  }

  // ---------- files and assets ----------

  predicate FileOk(u: Library, f: File) { PathOk(u, f.path) && u.utf8(f.content) && |f.content| <= MAX_ASSET_BYTES }

  function FileTest(u: Library): File -> bool { (f: File) => FileOk(u, f) }
  function NormalFile(u: Library): File -> File { (f: File) => File(u.nfc(f.path), f.content) }
  function FileKey(): File -> Text { (f: File) => f.path }

  function TotalBytes(files: seq<File>): nat {
    if files == [] then 0 else TotalBytes(files[..|files| - 1]) + |files[|files| - 1].content|
  }

  function Files(u: Library, files: seq<File>): Option<seq<File>> {
    if TotalBytes(files) > MAX_BUNDLE_BYTES then None
    else Canon(files, FileTest(u), NormalFile(u), FileKey())
  }

  /** The asset names a file of the bundle and carries the digest of its content. */
  predicate AssetOk(u: Library, files: seq<File>, a: Asset) {
    && PathOk(u, a.path) && !a.kind.OtherKind? && !a.media.OtherMedia?
    && exists i :: 0 <= i < |files| && files[i].path == u.nfc(a.path) && a.sha256 == u.sha256(files[i].content)
  }

  function AssetTest(u: Library, files: seq<File>): Asset -> bool { (a: Asset) => AssetOk(u, files, a) }
  function NormalAsset(u: Library): Asset -> Asset { (a: Asset) => a.(path := u.nfc(a.path)) }
  function AssetKey(): Asset -> Text { (a: Asset) => a.path }

  function Assets(u: Library, files: seq<File>, assets: seq<Asset>): Option<seq<Asset>> {
    if |assets| != |files| then None else Canon(assets, AssetTest(u, files), NormalAsset(u), AssetKey())
  }

  // ---------- requirements and dependencies ----------

  predicate RequirementOk(u: Library, allowed: seq<Text>, denied: seq<Text>, r: Requirement) {
    && ValidText(u, r.name, 1, 128) && r.name == u.trim(r.name) && OneLine(r.name) && !Contains(r.name, [58, 47, 47])
    && ValidText(u, r.reason, 1, 300) && r.reason == u.trim(r.reason) && OneLine(r.reason)
    && StringSet(u, r.tools).Some? && 1 <= |r.tools| <= MAX_REQUIREMENT_TOOLS
    && ToolsFit(allowed, denied, r.tools)
  }

  predicate ToolsFit(allowed: seq<Text>, denied: seq<Text>, tools: seq<Text>) {
    forall i :: 0 <= i < |tools| ==> tools[i] in allowed && tools[i] !in denied
  }

  function RequirementTest(u: Library, allowed: seq<Text>, denied: seq<Text>): Requirement -> bool {
    (r: Requirement) => RequirementOk(u, allowed, denied, r)
  }
  function NormalRequirement(): Requirement -> Requirement {
    (r: Requirement) => r.(tools := SortBy(r.tools, Same()))
  }
  function RequirementKey(): Requirement -> Text { (r: Requirement) => r.name }

  function Requirements(u: Library, allowed: seq<Text>, denied: seq<Text>, requirements: seq<Requirement>): Option<seq<Requirement>> {
    if |requirements| > MAX_REQUIREMENTS then None
    else Canon(requirements, RequirementTest(u, allowed, denied), NormalRequirement(), RequirementKey())
  }

  function NilText(): Text { Ascii("00000000-0000-0000-0000-000000000000") }

  predicate DependencyOk(d: Dependency) { d.definition != NilText() && d.version != NilText() }

  function DependencyTest(): Dependency -> bool { (d: Dependency) => DependencyOk(d) }
  function SameDependency(): Dependency -> Dependency { (d: Dependency) => d }
  function DependencyKey(): Dependency -> Text { (d: Dependency) => d.definition + [0] + d.version }

  function Dependencies(dependencies: seq<Dependency>): Option<seq<Dependency>> {
    Canon(dependencies, DependencyTest(), SameDependency(), DependencyKey())
  }

  // ---------- models ----------

  predicate ValidPolicy(mode: Mode, providers: seq<Text>, models: seq<Text>) {
    match mode
    case UserSelect => |providers| == 0 && |models| == 0
    case Allowlist => |providers| > 0 && |models| > 0
    case Fixed => |providers| == 1 && |models| == 1
    case OtherMode => false
  }

  predicate ValidModels(schema: int, mode: Mode, providers: seq<Text>, models: seq<Text>) {
    if schema == 1 then |providers| > 0 && |models| > 0 else ValidPolicy(mode, providers, models)
  }

  function Providers(m: Manifest): seq<Text> { if m.schema == 1 then m.constraintProviders else m.policyProviders }
  function Models(m: Manifest): seq<Text> { if m.schema == 1 then m.constraintModels else m.policyModels }

  predicate Disjoint(a: seq<Text>, b: seq<Text>) { forall i :: 0 <= i < |b| ==> b[i] !in a }

  // ---------- the whole version ----------

  predicate ShapeOk(u: Library, m: Manifest, files: seq<File>) {
    && m.schema in {1, 2, 3} && ValidText(u, m.prompt, 1, MAX_MANIFEST_BYTES)
    && |m.assets| <= MAX_ASSET_COUNT && |files| <= MAX_ASSET_COUNT
    && (if m.schema == 3 then m.requirements.Some? else m.requirements.None? || m.requirements.value == [])
  }

  function RequirementList(m: Manifest): seq<Requirement> { if m.requirements.Some? then m.requirements.value else [] }

  /** The lists of a version, each in canonical form. */
  datatype Lists = Lists(
    files: seq<File>, assets: seq<Asset>, providers: seq<Text>, models: seq<Text>,
    allowed: seq<Text>, denied: seq<Text>, requirements: seq<Requirement>, dependencies: seq<Dependency>)

  function ContentLists(u: Library, m: Manifest, files: seq<File>): Option<(seq<File>, seq<Asset>)> {
    var fs := Files(u, files);
    if fs.None? then None else
    var assets := Assets(u, fs.value, m.assets);
    if assets.None? then None else Some((fs.value, assets.value))
  }

  function ModelLists(u: Library, m: Manifest): Option<(seq<Text>, seq<Text>)> {
    var providers, models := StringSet(u, Providers(m)), StringSet(u, Models(m));
    if providers.None? || models.None? || !ValidModels(m.schema, m.mode, providers.value, models.value) then None
    else Some((providers.value, models.value))
  }

  function ToolLists(u: Library, m: Manifest): Option<(seq<Text>, seq<Text>, seq<Requirement>)> {
    var allowed, denied := StringSet(u, m.allowed), StringSet(u, m.denied);
    if allowed.None? || denied.None? || !Disjoint(allowed.value, denied.value) then None else
    var requirements := Requirements(u, allowed.value, denied.value, RequirementList(m));
    if requirements.None? then None else Some((allowed.value, denied.value, requirements.value))
  }

  function Gather(content: Option<(seq<File>, seq<Asset>)>, models: Option<(seq<Text>, seq<Text>)>,
                  tools: Option<(seq<Text>, seq<Text>, seq<Requirement>)>, dependencies: Option<seq<Dependency>>): Option<Lists> {
    if content.None? || models.None? || tools.None? || dependencies.None? then None
    else Some(Lists(content.value.0, content.value.1, models.value.0, models.value.1,
                    tools.value.0, tools.value.1, tools.value.2, dependencies.value))
  }

  function CanonicalLists(u: Library, m: Manifest, files: seq<File>): Option<Lists> {
    Gather(ContentLists(u, m, files), ModelLists(u, m), ToolLists(u, m), Dependencies(m.dependencies))
  }

  function Assemble(m: Manifest, l: Lists, minimum: Text, maximum: Option<Text>): Canonical {
    Canonical(m.schema, m.prompt, l.assets, l.files, l.providers, l.models,
              if m.schema == 1 then None else Some(m.mode), l.allowed, l.denied,
              if m.schema == 3 then Some(l.requirements) else None, l.dependencies, minimum, maximum)
  }

  /** The verdict once the lists and the runtime range are known. */
  function Conclude(u: Library, m: Manifest, lists: Option<Lists>, range: Option<(Text, Option<Text>)>): Outcome<Canonical, ContentError> {
    if !(lists.Some?) then Err(InvalidContent) else
    :- Need(range.Some?, RuntimeIncompatible);
    var canonical := Assemble(m, lists.value, range.value.0, range.value.1);
    :- Need(u.size(canonical) <= MAX_MANIFEST_BYTES, InvalidContent);
    Ok(canonical)
  }

  function CanonicalizeVersion(u: Library, m: Manifest, files: seq<File>): Outcome<Canonical, ContentError> {
    if !ShapeOk(u, m, files) then Err(InvalidContent)
    else Conclude(u, m, CanonicalLists(u, m, files), RuntimeRange(m.minimum, m.maximum))
  }

  /** Reading the canonical encodings back. */
  function Decoded(c: Canonical): (Manifest, seq<File>) {
    (Manifest(c.schema, c.prompt, c.assets,
              if c.schema == 1 then c.providers else [], if c.schema == 1 then c.models else [],
              if c.mode.Some? then c.mode.value else OtherMode,
              if c.schema == 1 then [] else c.providers, if c.schema == 1 then [] else c.models,
              c.allowed, c.denied, c.requirements, c.dependencies,
              c.minimum, if c.maximum.Some? then c.maximum.value else []),
     c.files)
  }
}
