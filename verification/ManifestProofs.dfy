/** Canonicalization forgets the order of its input and, on paths the guard accepts once normalized,
    is idempotent; accepted content is consistent. */
module ManifestProofs {
  import opened Common
  import opened Bytes
  import opened CanonicalList
  import opened SemVer
  import opened Manifest

  // ---------- order of the input ----------

  ghost predicate SameRequirement(r: Requirement, s: Requirement) {
    s == r.(tools := s.tools) && Permutes(r.tools, s.tools)
  }

  ghost predicate Reordered(a: seq<Requirement>, b: seq<Requirement>) {
    |a| == |b| && forall i :: 0 <= i < |a| ==> SameRequirement(a[i], b[i])
  }

  /** The same requirements in another order, each with its tools in another order. */
  ghost predicate SameRequirements(a: seq<Requirement>, b: seq<Requirement>) {
    exists c :: Permutes(a, c) && Reordered(c, b)
  }

  /** The same manifest with every list in another order. */
  ghost predicate Rearranged(m: Manifest, n: Manifest) {
    && n == m.(assets := n.assets, constraintProviders := n.constraintProviders, constraintModels := n.constraintModels,
               policyProviders := n.policyProviders, policyModels := n.policyModels, allowed := n.allowed, denied := n.denied,
               requirements := n.requirements, dependencies := n.dependencies)
    && Permutes(m.assets, n.assets)
    && Permutes(m.constraintProviders, n.constraintProviders) && Permutes(m.constraintModels, n.constraintModels)
    && Permutes(m.policyProviders, n.policyProviders) && Permutes(m.policyModels, n.policyModels)
    && Permutes(m.allowed, n.allowed) && Permutes(m.denied, n.denied)
    && m.requirements.Some? == n.requirements.Some?
    && (m.requirements.Some? ==> SameRequirements(m.requirements.value, n.requirements.value))
    && Permutes(m.dependencies, n.dependencies)
  }

  lemma PermutesLength<T>(a: seq<T>, b: seq<T>)
    requires Permutes(a, b)
    ensures |a| == |b|
  {
    assert |a| == |multiset(a)| && |b| == |multiset(b)|;
  }

  lemma {:induction false} TotalAppend(a: seq<File>, b: seq<File>)
    ensures TotalBytes(a + b) == TotalBytes(a) + TotalBytes(b)
  {
    if b == [] {
      assert a + b == a;
    } else {
      TotalAppend(a, b[..|b| - 1]);
      assert (a + b)[..|a + b| - 1] == a + b[..|b| - 1];
    }
  }

  lemma TotalWithout(s: seq<File>, k: nat)
    requires k < |s|
    ensures TotalBytes(s) == TotalBytes(s[..k] + s[k + 1..]) + |s[k].content|
  {
    assert s == s[..k] + ([s[k]] + s[k + 1..]);
    TotalAppend(s[..k], [s[k]] + s[k + 1..]);
    TotalAppend([s[k]], s[k + 1..]);
    TotalAppend(s[..k], s[k + 1..]);
    assert [s[k]][..0] == [];
  }

  /** The whole sum does not depend on the order. */
  lemma {:induction false} TotalPermutes(a: seq<File>, b: seq<File>)
    requires Permutes(a, b)
    ensures TotalBytes(a) == TotalBytes(b)
  {
    PermutesLength(a, b);
    if a != [] {
      var k := FindHead(a, b);
      TotalPermutes(a[1..], b[..k] + b[k + 1..]);
      TotalWithout(a, 0);
      assert a[..0] + a[1..] == a[1..];
      TotalWithout(b, k);
    }
  }

  lemma FilesPermute(u: Library, a: seq<File>, b: seq<File>)
    requires Permutes(a, b)
    ensures Files(u, a) == Files(u, b)
  {
    TotalPermutes(a, b);
    CanonPermutes(a, b, FileTest(u), NormalFile(u), FileKey());
  }

  lemma AssetsPermute(u: Library, files: seq<File>, a: seq<Asset>, b: seq<Asset>)
    requires Permutes(a, b)
    ensures Assets(u, files, a) == Assets(u, files, b)
  {
    PermutesLength(a, b);
    CanonPermutes(a, b, AssetTest(u, files), NormalAsset(u), AssetKey());
  }

  lemma StringSetPermutes(u: Library, a: seq<Text>, b: seq<Text>)
    requires Permutes(a, b)
    ensures StringSet(u, a) == StringSet(u, b)
  {
    CanonPermutes(a, b, EntryTest(u), Same(), Same());
  }

  lemma DependenciesPermute(a: seq<Dependency>, b: seq<Dependency>)
    requires Permutes(a, b)
    ensures Dependencies(a) == Dependencies(b)
  {
    CanonPermutes(a, b, DependencyTest(), SameDependency(), DependencyKey());
  }

  lemma MapSame(s: seq<Text>)
    ensures Map(Same(), s) == s
  {
  }

  lemma RequirementAlike(u: Library, allowed: seq<Text>, denied: seq<Text>, r: Requirement, s: Requirement)
    requires SameRequirement(r, s)
    ensures RequirementOk(u, allowed, denied, r) == RequirementOk(u, allowed, denied, s)
    ensures RequirementOk(u, allowed, denied, r) ==> NormalRequirement()(r) == NormalRequirement()(s)
  {
    StringSetPermutes(u, r.tools, s.tools);
    PermutesLength(r.tools, s.tools);
    ToolsAlike(allowed, denied, r.tools, s.tools);
    ToolsAlike(allowed, denied, s.tools, r.tools);
    MapSame(r.tools);
    MapSame(s.tools);
  }

  lemma ToolsAlike(allowed: seq<Text>, denied: seq<Text>, a: seq<Text>, b: seq<Text>)
    requires Permutes(a, b)
    ensures ToolsFit(allowed, denied, a) ==> ToolsFit(allowed, denied, b)
  {
    forall i | 0 <= i < |b| && ToolsFit(allowed, denied, a) ensures b[i] in allowed && b[i] !in denied {
      assert b[i] in multiset(a);
      var k := MemberIndex(a, b[i]);
    }
  }

  lemma TestAlike(u: Library, allowed: seq<Text>, denied: seq<Text>, r: Requirement, s: Requirement)
    requires SameRequirement(r, s)
    ensures var ok := RequirementTest(u, allowed, denied);
            ok(r) == ok(s) && (ok(r) ==> NormalRequirement()(r) == NormalRequirement()(s))
  {
    RequirementAlike(u, allowed, denied, r, s);
  }

  lemma ReorderedAlike(u: Library, allowed: seq<Text>, denied: seq<Text>, a: seq<Requirement>, b: seq<Requirement>)
    requires Reordered(a, b)
    ensures var ok := RequirementTest(u, allowed, denied);
            Canon(a, ok, NormalRequirement(), RequirementKey()) == Canon(b, ok, NormalRequirement(), RequirementKey())
  {
    var ok, conv := RequirementTest(u, allowed, denied), NormalRequirement();
    forall i | 0 <= i < |a| ensures ok(a[i]) == ok(b[i]) && (ok(a[i]) ==> conv(a[i]) == conv(b[i])) {
      TestAlike(u, allowed, denied, a[i], b[i]);
    }
    CanonPointwise(a, b, ok, conv, RequirementKey());
  }

  lemma RequirementsPermute(u: Library, allowed: seq<Text>, denied: seq<Text>, a: seq<Requirement>, b: seq<Requirement>)
    requires SameRequirements(a, b)
    ensures Requirements(u, allowed, denied, a) == Requirements(u, allowed, denied, b)
  {
    var c :| Permutes(a, c) && Reordered(c, b);
    PermutesLength(a, c);
    CanonPermutes(a, c, RequirementTest(u, allowed, denied), NormalRequirement(), RequirementKey());
    ReorderedAlike(u, allowed, denied, c, b);
  }

  lemma RequirementListsAlike(m: Manifest, n: Manifest)
    requires Rearranged(m, n)
    ensures SameRequirements(RequirementList(m), RequirementList(n))
  {
    if m.requirements.None? {
      assert Permutes<Requirement>([], []) && Reordered([], []);
    }
  }

  lemma ContentPermutes(u: Library, m: Manifest, n: Manifest, a: seq<File>, b: seq<File>)
    requires Permutes(m.assets, n.assets) && Permutes(a, b)
    ensures ContentLists(u, m, a) == ContentLists(u, n, b)
  {
    FilesPermute(u, a, b);
    if Files(u, a).Some? { AssetsPermute(u, Files(u, a).value, m.assets, n.assets); }
  }

  lemma ModelsPermute(u: Library, m: Manifest, n: Manifest)
    requires Rearranged(m, n)
    ensures ModelLists(u, m) == ModelLists(u, n)
  {
    StringSetPermutes(u, Providers(m), Providers(n));
    StringSetPermutes(u, Models(m), Models(n));
  }

  lemma ToolsPermute(u: Library, m: Manifest, n: Manifest)
    requires Rearranged(m, n)
    ensures ToolLists(u, m) == ToolLists(u, n)
  {
    StringSetPermutes(u, m.allowed, n.allowed);
    StringSetPermutes(u, m.denied, n.denied);
    RequirementListsAlike(m, n);
    if StringSet(u, m.allowed).Some? && StringSet(u, m.denied).Some? {
      RequirementsPermute(u, StringSet(u, m.allowed).value, StringSet(u, m.denied).value, RequirementList(m), RequirementList(n));
    }
  }

  lemma ListsPermute(u: Library, m: Manifest, n: Manifest, a: seq<File>, b: seq<File>)
    requires Rearranged(m, n) && Permutes(a, b)
    ensures CanonicalLists(u, m, a) == CanonicalLists(u, n, b)
  {
    ContentPermutes(u, m, n, a, b);
    ModelsPermute(u, m, n);
    ToolsPermute(u, m, n);
    DependenciesPermute(m.dependencies, n.dependencies);
  }

  lemma ShapePermutes(u: Library, m: Manifest, n: Manifest, a: seq<File>, b: seq<File>)
    requires Rearranged(m, n) && Permutes(a, b)
    ensures ShapeOk(u, m, a) == ShapeOk(u, n, b)
  {
    PermutesLength(a, b);
    PermutesLength(m.assets, n.assets);
    if m.requirements.Some? {
      var c :| Permutes(m.requirements.value, c) && Reordered(c, n.requirements.value);
      PermutesLength(m.requirements.value, c);
    }
  }

  /** Acceptance, error and canonical value are the same for every order of every list. */
  lemma OrderDoesNotMatter(u: Library, m: Manifest, n: Manifest, a: seq<File>, b: seq<File>)
    requires Rearranged(m, n) && Permutes(a, b)
    ensures CanonicalizeVersion(u, m, a) == CanonicalizeVersion(u, n, b)
  {
    ShapePermutes(u, m, n, a, b);
    ListsPermute(u, m, n, a, b);
    ConcludeAlike(u, m, n, CanonicalLists(u, m, a), RuntimeRange(m.minimum, m.maximum));
  }

  lemma ConcludeAlike(u: Library, m: Manifest, n: Manifest, lists: Option<Lists>, range: Option<(Text, Option<Text>)>)
    requires m.schema == n.schema && m.prompt == n.prompt && m.mode == n.mode
    ensures Conclude(u, m, lists, range) == Conclude(u, n, lists, range)
  {
  }

  // ---------- accepted content ----------

  lemma SubsetOfSameSize<T>(a: set<T>, b: set<T>)
    requires a <= b && |a| == |b|
    ensures a == b
  {
    assert |b - a| == |b| - |a|;
  }

  /** The digest in an asset is that of the file it names. */
  ghost predicate Names(u: Library, files: seq<File>, a: Asset) {
    exists f :: f in files && f.path == a.path && a.sha256 == u.sha256(f.content)
  }

  lemma AssetNamesFile(u: Library, files: seq<File>, assets: seq<Asset>, i: nat)
    requires Assets(u, files, assets).Some? && i < |Assets(u, files, assets).value|
    ensures Names(u, files, Assets(u, files, assets).value[i])
  {
    var k := CanonMember(assets, AssetTest(u, files), NormalAsset(u), AssetKey(), i);
    assert AssetOk(u, files, assets[k]);
    var j :| 0 <= j < |files| && files[j].path == u.nfc(assets[k].path) && assets[k].sha256 == u.sha256(files[j].content);
    assert files[j] in files;
  }

  ghost function FilePaths(files: seq<File>): set<Text> { KeySet(files, FileKey()) }
  ghost function AssetPaths(assets: seq<Asset>): set<Text> { KeySet(assets, AssetKey()) }

  lemma AssetsMatchFiles(u: Library, files: seq<File>, assets: seq<Asset>)
    requires DistinctBy(files, FileKey()) && Assets(u, files, assets).Some?
    ensures AssetPaths(Assets(u, files, assets).value) == FilePaths(files)
    ensures forall i :: 0 <= i < |files| ==> Names(u, files, Assets(u, files, assets).value[i])
  {
    var r := Assets(u, files, assets).value;
    forall i | 0 <= i < |r| ensures Names(u, files, r[i]) && r[i].path in FilePaths(files) {
      AssetNamesFile(u, files, assets, i);
      PathIsThere(u, files, r[i]);
    }
    CanonAscending(assets, AssetTest(u, files), NormalAsset(u), AssetKey());
    AscendingDistinct(r, AssetKey());
    KeyCount(r, AssetKey());
    KeyCount(files, FileKey());
    SubsetOfSameSize(AssetPaths(r), FilePaths(files));
  }

  lemma PathIsThere(u: Library, files: seq<File>, a: Asset)
    requires Names(u, files, a)
    ensures a.path in FilePaths(files)
  {
    var f :| f in files && f.path == a.path;
    var i :| 0 <= i < |files| && files[i] == f;
    assert FileKey()(files[i]) == a.path;
  }

  ghost predicate Consistent(u: Library, l: Lists) {
    && AssetPaths(l.assets) == FilePaths(l.files) && |l.assets| == |l.files|
    && (forall i :: 0 <= i < |l.assets| ==> Names(u, l.files, l.assets[i]))
    && Disjoint(l.allowed, l.denied)
  }

  lemma FilesDistinct(u: Library, files: seq<File>)
    requires Files(u, files).Some?
    ensures DistinctBy(Files(u, files).value, FileKey()) && AscendingBy(Files(u, files).value, FileKey())
  {
    CanonAscending(files, FileTest(u), NormalFile(u), FileKey());
    AscendingDistinct(Files(u, files).value, FileKey());
  }

  lemma ListsConsistent(u: Library, m: Manifest, files: seq<File>)
    requires CanonicalLists(u, m, files).Some?
    ensures Consistent(u, CanonicalLists(u, m, files).value) && TotalBytes(files) <= MAX_BUNDLE_BYTES
  {
    FilesDistinct(u, files);
    AssetsMatchFiles(u, Files(u, files).value, m.assets);
  }

  lemma Concluded(u: Library, m: Manifest, lists: Option<Lists>, range: Option<(Text, Option<Text>)>)
    requires Conclude(u, m, lists, range).Ok?
    ensures lists.Some? && range.Some?
    ensures var c := Conclude(u, m, lists, range).value;
            c == Assemble(m, lists.value, range.value.0, range.value.1) && u.size(c) <= MAX_MANIFEST_BYTES
  {
  }

  /** Accepted content: manifest and bundle name exactly the same paths with matching digests, the files
      together stay within the bundle limit, and no tool is both allowed and denied. */
  lemma AcceptedIsConsistent(u: Library, m: Manifest, files: seq<File>)
    requires CanonicalizeVersion(u, m, files).Ok?
    ensures var c := CanonicalizeVersion(u, m, files).value;
            && AssetPaths(c.assets) == FilePaths(c.files) && |c.assets| == |c.files|
            && (forall i :: 0 <= i < |c.assets| ==> Names(u, c.files, c.assets[i]))
            && Disjoint(c.allowed, c.denied)
            && TotalBytes(files) <= MAX_BUNDLE_BYTES
  {
    Concluded(u, m, CanonicalLists(u, m, files), RuntimeRange(m.minimum, m.maximum));
    ListsConsistent(u, m, files);
  }

  // ---------- nothing is lost ----------

  /** Canonical lists are in strict order and hold exactly the items of their input, paths normalized. */
  ghost predicate ContentComplete(u: Library, m: Manifest, files: seq<File>, fs: seq<File>, assets: seq<Asset>) {
    && AscendingBy(fs, FileKey()) && Permutes(fs, Map(NormalFile(u), files))
    && AscendingBy(assets, AssetKey()) && Permutes(assets, Map(NormalAsset(u), m.assets))
  }

  ghost predicate ModelsComplete(m: Manifest, providers: seq<Text>, models: seq<Text>) {
    && AscendingBy(providers, Same()) && Permutes(providers, Providers(m))
    && AscendingBy(models, Same()) && Permutes(models, Models(m))
  }

  ghost predicate ToolsComplete(m: Manifest, allowed: seq<Text>, denied: seq<Text>, requirements: seq<Requirement>) {
    && AscendingBy(allowed, Same()) && Permutes(allowed, m.allowed)
    && AscendingBy(denied, Same()) && Permutes(denied, m.denied)
    && AscendingBy(requirements, RequirementKey()) && Permutes(requirements, Map(NormalRequirement(), RequirementList(m)))
  }

  ghost predicate Complete(u: Library, m: Manifest, files: seq<File>, l: Lists) {
    && ContentComplete(u, m, files, l.files, l.assets) && ModelsComplete(m, l.providers, l.models)
    && ToolsComplete(m, l.allowed, l.denied, l.requirements)
    && AscendingBy(l.dependencies, DependencyKey()) && Permutes(l.dependencies, m.dependencies)
  }

  lemma ContentListsComplete(u: Library, m: Manifest, files: seq<File>)
    requires ContentLists(u, m, files).Some?
    ensures ContentComplete(u, m, files, ContentLists(u, m, files).value.0, ContentLists(u, m, files).value.1)
  {
    CanonAscending(files, FileTest(u), NormalFile(u), FileKey());
    CanonAscending(m.assets, AssetTest(u, ContentLists(u, m, files).value.0), NormalAsset(u), AssetKey());
  }

  lemma ModelListsComplete(u: Library, m: Manifest)
    requires ModelLists(u, m).Some?
    ensures ModelsComplete(m, ModelLists(u, m).value.0, ModelLists(u, m).value.1)
  {
    StringSetComplete(u, Providers(m));
    StringSetComplete(u, Models(m));
  }

  lemma ToolListsComplete(u: Library, m: Manifest)
    requires ToolLists(u, m).Some?
    ensures ToolsComplete(m, ToolLists(u, m).value.0, ToolLists(u, m).value.1, ToolLists(u, m).value.2)
  {
    var t := ToolLists(u, m).value;
    StringSetComplete(u, m.allowed);
    StringSetComplete(u, m.denied);
    CanonAscending(RequirementList(m), RequirementTest(u, t.0, t.1), NormalRequirement(), RequirementKey());
  }

  lemma StringSetComplete(u: Library, values: seq<Text>)
    requires StringSet(u, values).Some?
    ensures AscendingBy(StringSet(u, values).value, Same()) && Permutes(StringSet(u, values).value, values)
  {
    CanonAscending(values, EntryTest(u), Same(), Same());
    MapSame(values);
  }

  lemma DependenciesComplete(dependencies: seq<Dependency>)
    requires Dependencies(dependencies).Some?
    ensures AscendingBy(Dependencies(dependencies).value, DependencyKey()) && Permutes(Dependencies(dependencies).value, dependencies)
  {
    CanonAscending(dependencies, DependencyTest(), SameDependency(), DependencyKey());
    assert Map(SameDependency(), dependencies) == dependencies;
  }

  lemma ListsComplete(u: Library, m: Manifest, files: seq<File>)
    requires CanonicalLists(u, m, files).Some?
    ensures Complete(u, m, files, CanonicalLists(u, m, files).value)
  {
    ContentListsComplete(u, m, files);
    ModelListsComplete(u, m);
    ToolListsComplete(u, m);
    DependenciesComplete(m.dependencies);
  }

  /** Nothing submitted is lost or invented: every list of the accepted value is strictly ordered and holds exactly
      the submitted items, and prompt, schema and mode are as submitted. */
  lemma AcceptedLosesNothing(u: Library, m: Manifest, files: seq<File>)
    requires CanonicalizeVersion(u, m, files).Ok?
    ensures CanonicalLists(u, m, files).Some?
    ensures var (c, l) := (CanonicalizeVersion(u, m, files).value, CanonicalLists(u, m, files).value);
            && Complete(u, m, files, l)
            && c.files == l.files && c.assets == l.assets && c.providers == l.providers && c.models == l.models
            && c.allowed == l.allowed && c.denied == l.denied && c.dependencies == l.dependencies
            && c.requirements == (if m.schema == 3 then Some(l.requirements) else None)
            && c.schema == m.schema && c.prompt == m.prompt && c.mode == (if m.schema == 1 then None else Some(m.mode))
  {
    Concluded(u, m, CanonicalLists(u, m, files), RuntimeRange(m.minimum, m.maximum));
    ListsComplete(u, m, files);
  }

  // ---------- canonicalizing again ----------

  /** What is used of Unicode normalization: doing it twice is doing it once. */
  ghost predicate Lawful(u: Library) {
    forall s :: u.nfc(u.nfc(s)) == u.nfc(s)
  }

  function Itself<T>(): T -> T { (x: T) => x }

  lemma MapItself<T>(s: seq<T>)
    ensures Map(Itself(), s) == s
  {
  }

  /** A path once normalized is accepted again exactly when it passes the guard on raw paths. */
  lemma PathAgain(u: Library, raw: Text)
    requires Lawful(u) && PathOk(u, raw)
    ensures PathOk(u, u.nfc(raw)) <==> RawGuard(u, u.nfc(raw))
    ensures u.nfc(u.nfc(raw)) == u.nfc(raw)
  {
  }

  /** What a caller can check before submitting: every path, once normalized, passes the guard on raw paths. */
  ghost predicate PathsPass(u: Library, files: seq<File>) {
    forall i :: 0 <= i < |files| ==> RawGuard(u, u.nfc(files[i].path))
  }

  /** Every path of the canonical bundle passes the guard on raw paths. */
  ghost predicate RawPaths(u: Library, files: seq<File>) {
    forall i :: 0 <= i < |files| ==> RawGuard(u, files[i].path)
  }

  lemma NormalTotal(u: Library, files: seq<File>)
    ensures TotalBytes(Map(NormalFile(u), files)) == TotalBytes(files)
    decreases |files|
  {
    if files != [] {
      var n := |files| - 1;
      NormalTotal(u, files[..n]);
      assert Map(NormalFile(u), files)[..n] == Map(NormalFile(u), files[..n]);
    }
  }

  lemma SortedTotal(u: Library, files: seq<File>)
    requires Files(u, files).Some?
    ensures TotalBytes(Files(u, files).value) == TotalBytes(files)
  {
    CanonAscending(files, FileTest(u), NormalFile(u), FileKey());
    NormalTotal(u, files);
    TotalPermutes(Files(u, files).value, Map(NormalFile(u), files));
  }

  lemma FileAgain(u: Library, files: seq<File>, i: nat)
    requires Lawful(u) && Files(u, files).Some? && i < |Files(u, files).value|
    ensures var f := Files(u, files).value[i];
            && (FileOk(u, f) <==> RawGuard(u, f.path))
            && u.nfc(f.path) == f.path && CleanPath(u, f.path)
  {
    var k := CanonMember(files, FileTest(u), NormalFile(u), FileKey(), i);
    assert FileOk(u, files[k]);
    PathAgain(u, files[k].path);
  }

  /** The canonical bundle is canonical again exactly when its paths pass the raw guard. */
  lemma FilesAgain(u: Library, files: seq<File>)
    requires Lawful(u) && Files(u, files).Some?
    ensures var fs := Files(u, files).value;
            Files(u, fs) == if RawPaths(u, fs) then Some(fs) else None
  {
    var fs := Files(u, files).value;
    SortedTotal(u, files);
    if RawPaths(u, fs) {
      FilesDistinct(u, files);
      forall i | 0 <= i < |fs| ensures FileTest(u)(Itself()(fs[i])) && NormalFile(u)(Itself()(fs[i])) == fs[i] {
        FileAgain(u, files, i);
      }
      CanonFixed(fs, Itself(), FileTest(u), NormalFile(u), FileKey());
      MapItself(fs);
    } else {
      var i :| 0 <= i < |fs| && !RawGuard(u, fs[i].path);
      FileAgain(u, files, i);
      assert !FileTest(u)(fs[i]);
    }
  }

  lemma AssetAgain(u: Library, fs: seq<File>, assets: seq<Asset>, i: nat)
    requires Lawful(u) && RawPaths(u, fs) && Assets(u, fs, assets).Some? && i < |Assets(u, fs, assets).value|
    ensures var a := Assets(u, fs, assets).value[i];
            AssetOk(u, fs, a) && u.nfc(a.path) == a.path
  {
    var k := CanonMember(assets, AssetTest(u, fs), NormalAsset(u), AssetKey(), i);
    assert AssetOk(u, fs, assets[k]);
    PathAgain(u, assets[k].path);
  }

  lemma AssetsAgain(u: Library, fs: seq<File>, assets: seq<Asset>)
    requires Lawful(u) && RawPaths(u, fs) && Assets(u, fs, assets).Some?
    ensures Assets(u, fs, Assets(u, fs, assets).value) == Assets(u, fs, assets)
  {
    var r := Assets(u, fs, assets).value;
    CanonAscending(assets, AssetTest(u, fs), NormalAsset(u), AssetKey());
    forall i | 0 <= i < |r| ensures AssetTest(u, fs)(Itself()(r[i])) && NormalAsset(u)(Itself()(r[i])) == r[i] {
      AssetAgain(u, fs, assets, i);
    }
    CanonFixed(r, Itself(), AssetTest(u, fs), NormalAsset(u), AssetKey());
    MapItself(r);
  }

  lemma StringSetAgain(u: Library, values: seq<Text>)
    requires StringSet(u, values).Some?
    ensures StringSet(u, StringSet(u, values).value) == StringSet(u, values)
    ensures AscendingBy(StringSet(u, values).value, Same())
  {
    var r := StringSet(u, values).value;
    CanonAscending(values, EntryTest(u), Same(), Same());
    forall i | 0 <= i < |r| ensures EntryTest(u)(Itself()(r[i])) && Same()(Itself()(r[i])) == r[i] {
      var k := CanonMember(values, EntryTest(u), Same(), Same(), i);
    }
    CanonFixed(r, Itself(), EntryTest(u), Same(), Same());
    MapItself(r);
  }

  lemma DependenciesAgain(dependencies: seq<Dependency>)
    requires Dependencies(dependencies).Some?
    ensures Dependencies(Dependencies(dependencies).value) == Dependencies(dependencies)
  {
    var r := Dependencies(dependencies).value;
    CanonAscending(dependencies, DependencyTest(), SameDependency(), DependencyKey());
    forall i | 0 <= i < |r| ensures DependencyTest()(Itself()(r[i])) && SameDependency()(Itself()(r[i])) == r[i] {
      var k := CanonMember(dependencies, DependencyTest(), SameDependency(), DependencyKey(), i);
    }
    CanonFixed(r, Itself(), DependencyTest(), SameDependency(), DependencyKey());
    MapItself(r);
  }

  lemma RequirementAgain(u: Library, allowed: seq<Text>, denied: seq<Text>, r: Requirement)
    requires RequirementOk(u, allowed, denied, r)
    ensures var s := NormalRequirement()(r);
            RequirementOk(u, allowed, denied, s) && NormalRequirement()(s) == s
  {
    var s := NormalRequirement()(r);
    assert SameRequirement(r, s);
    RequirementAlike(u, allowed, denied, r, s);
  }

  lemma RequirementsAgain(u: Library, allowed: seq<Text>, denied: seq<Text>, requirements: seq<Requirement>)
    requires Requirements(u, allowed, denied, requirements).Some?
    ensures Requirements(u, allowed, denied, Requirements(u, allowed, denied, requirements).value)
            == Requirements(u, allowed, denied, requirements)
  {
    var ok, conv := RequirementTest(u, allowed, denied), NormalRequirement();
    var r := Requirements(u, allowed, denied, requirements).value;
    CanonAscending(requirements, ok, conv, RequirementKey());
    forall i | 0 <= i < |r| ensures ok(Itself()(r[i])) && conv(Itself()(r[i])) == r[i] {
      var k := CanonMember(requirements, ok, conv, RequirementKey(), i);
      RequirementAgain(u, allowed, denied, requirements[k]);
    }
    CanonFixed(r, Itself(), ok, conv, RequirementKey());
    MapItself(r);
    MapLength(requirements, ok, conv);
  }

  lemma MapLength(requirements: seq<Requirement>, ok: Requirement -> bool, conv: Requirement -> Requirement)
    requires Canon(requirements, ok, conv, RequirementKey()).Some?
    ensures |Canon(requirements, ok, conv, RequirementKey()).value| == |requirements|
  {
  }

  lemma ContentAgain(u: Library, m: Manifest, files: seq<File>, n: Manifest)
    requires Lawful(u) && ContentLists(u, m, files).Some? && n.assets == ContentLists(u, m, files).value.1
    ensures var l := ContentLists(u, m, files);
            && ContentLists(u, n, l.value.0) == (if RawPaths(u, l.value.0) then l else None)
            && |l.value.0| == |files| && |l.value.1| == |m.assets|
  {
    var fs := ContentLists(u, m, files).value.0;
    FilesAgain(u, files);
    if RawPaths(u, fs) { AssetsAgain(u, fs, m.assets); }
  }

  lemma ModelsAgain(u: Library, m: Manifest, n: Manifest)
    requires ModelLists(u, m).Some? && n.schema == m.schema && (m.schema != 1 ==> n.mode == m.mode)
    requires Providers(n) == ModelLists(u, m).value.0 && Models(n) == ModelLists(u, m).value.1
    ensures ModelLists(u, n) == ModelLists(u, m)
  {
    StringSetAgain(u, Providers(m));
    StringSetAgain(u, Models(m));
  }

  lemma ToolsAgain(u: Library, m: Manifest, n: Manifest)
    requires ToolLists(u, m).Some?
    requires n.allowed == ToolLists(u, m).value.0 && n.denied == ToolLists(u, m).value.1
    requires RequirementList(n) == ToolLists(u, m).value.2
    ensures ToolLists(u, n) == ToolLists(u, m)
  {
    StringSetAgain(u, m.allowed);
    StringSetAgain(u, m.denied);
    RequirementsAgain(u, n.allowed, n.denied, RequirementList(m));
  }

  /** `n` holds the canonical lists `l` of `m`. */
  ghost predicate Holds(m: Manifest, l: Lists, n: Manifest) {
    && n.schema == m.schema && n.prompt == m.prompt && n.assets == l.assets
    && Providers(n) == l.providers && Models(n) == l.models
    && (m.schema != 1 ==> n.mode == m.mode) && n.allowed == l.allowed && n.denied == l.denied
    && RequirementList(n) == l.requirements && n.dependencies == l.dependencies
    && (n.requirements.Some? <==> m.schema == 3)
  }

  /** Canonical lists are canonical again exactly when the bundle's paths pass the raw guard. */
  lemma ListsAgain(u: Library, m: Manifest, files: seq<File>, n: Manifest)
    requires Lawful(u) && CanonicalLists(u, m, files).Some? && Holds(m, CanonicalLists(u, m, files).value, n)
    ensures var l := CanonicalLists(u, m, files);
            && CanonicalLists(u, n, l.value.files) == (if RawPaths(u, l.value.files) then l else None)
            && |l.value.files| == |files| && |l.value.assets| == |m.assets|
  {
    ContentAgain(u, m, files, n);
    ModelsAgain(u, m, n);
    ToolsAgain(u, m, n);
    DependenciesAgain(m.dependencies);
  }

  lemma DecodedHolds(m: Manifest, l: Lists, minimum: Text, maximum: Option<Text>)
    requires m.schema in {1, 2, 3} && (m.schema != 3 ==> l.requirements == [])
    ensures var (n, files) := Decoded(Assemble(m, l, minimum, maximum));
            && Holds(m, l, n) && files == l.files
            && n.minimum == minimum && n.maximum == (if maximum.Some? then maximum.value else [])
  {
  }

  lemma NoRequirements(u: Library, m: Manifest, files: seq<File>)
    requires CanonicalLists(u, m, files).Some? && RequirementList(m) == []
    ensures CanonicalLists(u, m, files).value.requirements == []
  {
  }

  lemma ShapeAgain(u: Library, m: Manifest, files: seq<File>, n: Manifest, l: Lists)
    requires ShapeOk(u, m, files) && Holds(m, l, n) && |l.files| == |files| && |l.assets| == |m.assets|
    ensures ShapeOk(u, n, l.files)
  {
  }

  lemma AgainConcludes(u: Library, m: Manifest, n: Manifest, l: Lists, range: (Text, Option<Text>))
    requires Holds(m, l, n) && (m.schema != 3 ==> l.requirements == [])
    requires u.size(Assemble(m, l, range.0, range.1)) <= MAX_MANIFEST_BYTES
    ensures Conclude(u, n, Some(l), Some(range)) == Ok(Assemble(m, l, range.0, range.1))
    ensures Conclude(u, n, None, Some(range)) == Err(InvalidContent)
  {
    assert Assemble(n, l, range.0, range.1) == Assemble(m, l, range.0, range.1);
  }

  /** The second round, from the lists and the range of the first. */
  lemma SecondRound(u: Library, m: Manifest, files: seq<File>, l: Lists, range: (Text, Option<Text>), c: Canonical)
    requires Lawful(u) && ShapeOk(u, m, files) && CanonicalLists(u, m, files) == Some(l)
    requires c == Assemble(m, l, range.0, range.1) && u.size(c) <= MAX_MANIFEST_BYTES
    requires RuntimeRange(range.0, if range.1.Some? then range.1.value else []) == Some(range)
    ensures CanonicalizeVersion(u, Decoded(c).0, Decoded(c).1) == if RawPaths(u, l.files) then Ok(c) else Err(InvalidContent)
  {
    if m.schema != 3 { NoRequirements(u, m, files); }
    DecodedHolds(m, l, range.0, range.1);
    var n := Decoded(c).0;
    ListsAgain(u, m, files, n);
    ShapeAgain(u, m, files, n, l);
    AgainConcludes(u, m, n, l, range);
  }

  /** The canonical bundle's paths pass exactly when the submitted ones do once normalized. */
  lemma PathsCarryOver(u: Library, files: seq<File>)
    requires Files(u, files).Some?
    ensures RawPaths(u, Files(u, files).value) <==> PathsPass(u, files)
  {
    var fs := Files(u, files).value;
    forall i | 0 <= i < |fs| && PathsPass(u, files) ensures RawGuard(u, fs[i].path) {
      var k := CanonMember(files, FileTest(u), NormalFile(u), FileKey(), i);
    }
    forall k | 0 <= k < |files| && RawPaths(u, fs) ensures RawGuard(u, u.nfc(files[k].path)) {
      var i := CanonCovers(files, FileTest(u), NormalFile(u), FileKey(), k);
    }
  }

  /** Decoding the canonical value and canonicalizing it again gives the same value exactly when every
      submitted path, once normalized, passes the guard on raw paths, and is refused otherwise. */
  lemma CanonicalAgainIff(u: Library, m: Manifest, files: seq<File>)
    requires Lawful(u) && CanonicalizeVersion(u, m, files).Ok?
    ensures var c := CanonicalizeVersion(u, m, files).value;
            CanonicalizeVersion(u, Decoded(c).0, Decoded(c).1) == if PathsPass(u, files) then Ok(c) else Err(InvalidContent)
  {
    var lists, range := CanonicalLists(u, m, files), RuntimeRange(m.minimum, m.maximum);
    Concluded(u, m, lists, range);
    RangeIdempotent(m.minimum, m.maximum);
    SecondRound(u, m, files, lists.value, range.value, CanonicalizeVersion(u, m, files).value);
    FilesOfLists(u, m, files);
    PathsCarryOver(u, files);
  }

  lemma FilesOfLists(u: Library, m: Manifest, files: seq<File>)
    requires CanonicalLists(u, m, files).Some?
    ensures Files(u, files) == Some(CanonicalLists(u, m, files).value.files)
  {
  }

  /** On paths already normalized the condition always holds. */
  lemma NormalizedPathsPass(u: Library, m: Manifest, files: seq<File>)
    requires CanonicalizeVersion(u, m, files).Ok?
    requires forall i :: 0 <= i < |files| ==> u.nfc(files[i].path) == files[i].path
    ensures PathsPass(u, files)
  {
    Concluded(u, m, CanonicalLists(u, m, files), RuntimeRange(m.minimum, m.maximum));
    FilesOfLists(u, m, files);
    FilesPassed(u, files);
  }

  lemma FilesPassed(u: Library, files: seq<File>)
    requires Files(u, files).Some?
    ensures forall i :: 0 <= i < |files| ==> FileOk(u, files[i])
  {
    forall i | 0 <= i < |files| ensures FileOk(u, files[i]) { assert FileTest(u)(files[i]); }
  }

  // ---------- the path that is accepted once only ----------

  /** U+212A, the Kelvin sign, then a colon and an "x"; its normal form is "K:x". */
  const KELVIN: Text := [0xE2, 0x84, 0xAA, 58, 120]
  const DRIVE: Text := [75, 58, 120]

  lemma ShortIsFree(t: Text)
    requires |t| <= 3
    ensures !Reserved(t)
  {
    assert |Ascii(".env")| == 4 && |Ascii("auth.json")| == 9 && |Ascii("memory.md")| == 9 && |Ascii("user.md")| == 7;
    assert |Ascii("credentials")| == 11 && |Ascii("sessions")| == 8 && |Ascii("curator")| == 7 && |Ascii("archives")| == 8;
  }

  lemma KelvinPassesRaw(u: Library)
    requires u.utf8(KELVIN) && u.trim(KELVIN) == KELVIN
    ensures RawGuard(u, KELVIN)
  {
    NoSlashNoScheme(KELVIN);
    assert KELVIN[..1][0] != 47;
  }

  lemma DriveIsClean(u: Library)
    requires u.clean(DRIVE) == DRIVE && u.lower(DRIVE) == [107, 58, 120]
    ensures CleanPath(u, DRIVE)
  {
    var s: Text := [107, 58, 120];
    NoSlashOneSegment(s);
    ShortIsFree(s);
    assert Segments(u.lower(DRIVE)) == [s];
    assert DRIVE[..3][0] != '.' as int;
  }

  /** A path beginning with the Kelvin sign passes the drive-letter test before normalization and fails it after. */
  lemma KelvinPathAcceptedOnce(u: Library)
    requires u.nfc(KELVIN) == DRIVE && u.utf8(KELVIN) && u.trim(KELVIN) == KELVIN
    requires u.clean(DRIVE) == DRIVE && u.lower(DRIVE) == [107, 58, 120]
    ensures PathOk(u, KELVIN) && !PathOk(u, u.nfc(KELVIN))
  {
    KelvinPassesRaw(u);
    DriveIsClean(u);
  }

  lemma {:induction false} NoSlashOneSegment(s: Text)
    requires '/' as int !in s
    ensures Segments(s) == [s]
  {
    if s != [] {
      NoSlashOneSegment(s[1..]);
      assert s == [s[0]] + s[1..];
    }
  }

  lemma {:induction false} NoSlashNoScheme(s: Text)
    requires 47 !in s
    ensures !Contains(s, [58, 47, 47])
  {
    if |s| >= 3 {
      assert s[..3][1] != 47;
      NoSlashNoScheme(s[1..]);
    }
  }

  // ---------- a whole version that is accepted once only ----------

  /** One file under that path, named by one asset; everything else as small as it may be. */
  ghost function KelvinFile(): File { File(KELVIN, [104]) }

  ghost function KelvinManifest(u: Library): Manifest {
    Manifest(2, [112], [Asset(Knowledge, Plain, KELVIN, u.sha256([104]))], [], [], UserSelect, [], [], [], [], None, [],
             Render(Version(1, 0, 0, [])), [])
  }

  ghost function KelvinLists(u: Library): Lists {
    Lists([File(DRIVE, [104])], [Asset(Knowledge, Plain, DRIVE, u.sha256([104]))], [], [], [], [], [], [])
  }

  /** The facts about this path and two one-letter texts, and that the encoded manifest is not oversized. */
  ghost predicate KelvinFacts(u: Library) {
    && u.nfc(KELVIN) == DRIVE && u.utf8(KELVIN) && u.trim(KELVIN) == KELVIN
    && u.clean(DRIVE) == DRIVE && u.lower(DRIVE) == [107, 58, 120]
    && u.utf8([104]) && u.utf8([112])
    && u.size(Assemble(KelvinManifest(u), KelvinLists(u), Render(Version(1, 0, 0, [])), None)) <= MAX_MANIFEST_BYTES
  }

  lemma CanonOne<S, T>(item: S, ok: S -> bool, conv: S -> T, key: T -> seq<Byte>)
    requires ok(item)
    ensures Canon([item], ok, conv, key) == Some([conv(item)])
  {
    assert Map(conv, [item]) == [conv(item)];
    assert SortBy([conv(item)], key) == Insert(conv(item), SortBy([], key), key);
  }

  lemma CanonNone<S, T>(ok: S -> bool, conv: S -> T, key: T -> seq<Byte>)
    ensures Canon([], ok, conv, key) == Some([])
  {
    assert Map(conv, []) == [];
  }

  lemma KelvinContent(u: Library)
    requires KelvinFacts(u)
    ensures ContentLists(u, KelvinManifest(u), [KelvinFile()]) == Some((KelvinLists(u).files, KelvinLists(u).assets))
  {
    KelvinPathAcceptedOnce(u);
    var file, files := KelvinFile(), KelvinLists(u).files;
    assert [file][..0] == [];
    assert FileTest(u)(file);
    CanonOne(file, FileTest(u), NormalFile(u), FileKey());
    var asset := KelvinManifest(u).assets[0];
    assert files[0].path == u.nfc(asset.path) && asset.sha256 == u.sha256(files[0].content);
    assert AssetTest(u, files)(asset);
    CanonOne(asset, AssetTest(u, files), NormalAsset(u), AssetKey());
  }

  lemma KelvinRest(u: Library)
    ensures ModelLists(u, KelvinManifest(u)) == Some(([], []))
    ensures ToolLists(u, KelvinManifest(u)) == Some(([], [], []))
    ensures Dependencies([]) == Some([])
  {
    CanonNone(EntryTest(u), Same(), Same());
    CanonNone(RequirementTest(u, [], []), NormalRequirement(), RequirementKey());
    CanonNone(DependencyTest(), SameDependency(), DependencyKey());
  }

  lemma KelvinListsHold(u: Library)
    requires KelvinFacts(u)
    ensures CanonicalLists(u, KelvinManifest(u), [KelvinFile()]) == Some(KelvinLists(u))
  {
    KelvinContent(u);
    KelvinRest(u);
  }

  lemma KelvinShape(u: Library)
    requires u.utf8([112])
    ensures ShapeOk(u, KelvinManifest(u), [KelvinFile()])
  {
  }

  lemma KelvinRange(u: Library)
    ensures RuntimeRange(KelvinManifest(u).minimum, KelvinManifest(u).maximum) == Some((Render(Version(1, 0, 0, [])), None))
  {
    ParseOfRender(Version(1, 0, 0, []));
  }

  lemma ConcludeFits(u: Library, m: Manifest, l: Lists, minimum: Text)
    requires u.size(Assemble(m, l, minimum, None)) <= MAX_MANIFEST_BYTES
    ensures Conclude(u, m, Some(l), Some((minimum, None))) == Ok(Assemble(m, l, minimum, None))
  {
  }

  lemma KelvinAccepted(u: Library)
    requires KelvinFacts(u)
    ensures CanonicalizeVersion(u, KelvinManifest(u), [KelvinFile()])
            == Ok(Assemble(KelvinManifest(u), KelvinLists(u), Render(Version(1, 0, 0, [])), None))
  {
    KelvinListsHold(u);
    KelvinShape(u);
    KelvinRange(u);
    ConcludeFits(u, KelvinManifest(u), KelvinLists(u), Render(Version(1, 0, 0, [])));
  }

  lemma KelvinFails(u: Library)
    requires KelvinFacts(u)
    ensures !PathsPass(u, [KelvinFile()])
  {
    KelvinPathAcceptedOnce(u);
    assert !RawGuard(u, u.nfc([KelvinFile()][0].path));
  }

  /** A manifest and a bundle that are accepted once, and refused once read back from their canonical form. */
  lemma KelvinVersionAcceptedOnce(u: Library)
    requires Lawful(u) && KelvinFacts(u)
    ensures CanonicalizeVersion(u, KelvinManifest(u), [KelvinFile()]).Ok?
    ensures var c := CanonicalizeVersion(u, KelvinManifest(u), [KelvinFile()]).value;
            CanonicalizeVersion(u, Decoded(c).0, Decoded(c).1) == Err(InvalidContent)
  {
    KelvinAccepted(u);
    KelvinFails(u);
    CanonicalAgainIff(u, KelvinManifest(u), [KelvinFile()]);
  }
}
