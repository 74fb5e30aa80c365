/** Canonicalization as the program runs it: one pass over each list with the keys seen so far, an early
    exit on the first bad item, and a sort at the end. */
module ManifestLoops {
  import opened Common
  import opened Bytes
  import opened CanonicalList
  import opened SemVer
  import opened Manifest
  import opened ManifestProofs

  /** What a pass knows after its first `n` items. */
  ghost predicate Passed<S(!new), T(!new)>(items: seq<S>, n: nat, ok: S -> bool, conv: S -> T, key: T -> seq<Byte>,
                                           seen: set<seq<Byte>>, done: seq<T>) {
    && n <= |items| && All(items[..n], ok) && done == Map(conv, items[..n])
    && DistinctBy(done, key) && seen == KeySet(done, key)
  }

  lemma PassStarts<S(!new), T(!new)>(items: seq<S>, ok: S -> bool, conv: S -> T, key: T -> seq<Byte>)
    ensures Passed(items, 0, ok, conv, key, {}, [])
  {
  }

  lemma PassStep<S(!new), T(!new)>(items: seq<S>, n: nat, ok: S -> bool, conv: S -> T, key: T -> seq<Byte>,
                                   seen: set<seq<Byte>>, done: seq<T>)
    requires Passed(items, n, ok, conv, key, seen, done) && n < |items| && ok(items[n]) && key(conv(items[n])) !in seen
    ensures Passed(items, n + 1, ok, conv, key, seen + {key(conv(items[n]))}, done + [conv(items[n])])
  {
    var more := done + [conv(items[n])];
    assert items[..n + 1] == items[..n] + [items[n]];
    assert more == Map(conv, items[..n + 1]);
    assert more[..|more| - 1] == done;
    KeySetSnoc(more, key);
    forall i, j | 0 <= i < j < |more| ensures key(more[i]) != key(more[j]) {
      if j == n { assert key(done[i]) in KeySet(done, key); }
    }
  }

  lemma PassBad<S(!new), T(!new)>(items: seq<S>, n: nat, ok: S -> bool, conv: S -> T, key: T -> seq<Byte>)
    requires n < |items| && !ok(items[n])
    ensures Canon(items, ok, conv, key) == None
  {
  }

  lemma PassDuplicate<S(!new), T(!new)>(items: seq<S>, n: nat, ok: S -> bool, conv: S -> T, key: T -> seq<Byte>,
                                        seen: set<seq<Byte>>, done: seq<T>)
    requires Passed(items, n, ok, conv, key, seen, done) && n < |items| && key(conv(items[n])) in seen
    ensures Canon(items, ok, conv, key) == None
  {
    var i :| 0 <= i < |done| && key(done[i]) == key(conv(items[n]));
    var all := Map(conv, items);
    assert all[i] == conv(items[..n][i]) == done[i] && all[n] == conv(items[n]);
    assert key(all[i]) == key(all[n]);
  }

  lemma PassEnds<S(!new), T(!new)>(items: seq<S>, ok: S -> bool, conv: S -> T, key: T -> seq<Byte>,
                                   seen: set<seq<Byte>>, done: seq<T>)
    requires Passed(items, |items|, ok, conv, key, seen, done)
    ensures Canon(items, ok, conv, key) == Some(SortBy(done, key)) && |seen| == |items|
  {
    assert items[..|items|] == items;
    KeyCount(done, key);
  }

  method CanonicalStringSet(u: Library, values: seq<Text>) returns (r: Option<seq<Text>>)
    ensures r == StringSet(u, values)
  {
    var seen: set<Text> := {};
    ghost var done: seq<Text> := [];
    PassStarts(values, EntryTest(u), Same(), Same());
    for n := 0 to |values|
      invariant Passed(values, n, EntryTest(u), Same(), Same(), seen, done)
    {
      var value := values[n];
      if !EntryOk(u, value) {
        PassBad(values, n, EntryTest(u), Same(), Same());
        return None;
      }
      if value in seen {
        PassDuplicate(values, n, EntryTest(u), Same(), Same(), seen, done);
        return None;
      }
      PassStep(values, n, EntryTest(u), Same(), Same(), seen, done);
      seen, done := seen + {value}, done + [value];
    }
    PassEnds(values, EntryTest(u), Same(), Same(), seen, done);
    assert done == values[..|values|] == values;
    return Some(SortBy(values, Same()));
  }

  lemma {:induction false} TotalGrows(files: seq<File>, n: nat)
    requires n <= |files|
    ensures TotalBytes(files[..n]) <= TotalBytes(files)
  {
    if n == |files| {
      assert files[..n] == files;
    } else {
      var front := files[..|files| - 1];
      TotalGrows(front, n);
      assert front[..n] == files[..n];
    }
  }

  /** The running total trips exactly when the whole sum is too large. */
  method CanonicalFiles(u: Library, files: seq<File>) returns (r: Option<seq<File>>)
    ensures r == Files(u, files)
  {
    var done: seq<File> := [];
    var seen: set<Text> := {};
    var total := 0;
    PassStarts(files, FileTest(u), NormalFile(u), FileKey());
    for n := 0 to |files|
      invariant Passed(files, n, FileTest(u), NormalFile(u), FileKey(), seen, done)
      invariant total == TotalBytes(files[..n]) <= MAX_BUNDLE_BYTES
    {
      var file := files[n];
      if !FileOk(u, file) {
        PassBad(files, n, FileTest(u), NormalFile(u), FileKey());
        return None;
      }
      var path := u.nfc(file.path);
      if path in seen {
        PassDuplicate(files, n, FileTest(u), NormalFile(u), FileKey(), seen, done);
        return None;
      }
      total := total + |file.content|;
      assert files[..n + 1][..n] == files[..n];
      if total > MAX_BUNDLE_BYTES {
        TotalGrows(files, n + 1);
        return None;
      }
      PassStep(files, n, FileTest(u), NormalFile(u), FileKey(), seen, done);
      seen, done := seen + {path}, done + [File(path, file.content)];
    }
    assert files[..|files|] == files;
    PassEnds(files, FileTest(u), NormalFile(u), FileKey(), seen, done);
    return Some(SortBy(done, FileKey()));
  }

  /** The content stored under each path of a canonical bundle. */
  ghost predicate Indexes(contents: map<Text, Text>, files: seq<File>) {
    && contents.Keys == KeySet(files, FileKey())
    && forall i :: 0 <= i < |files| ==> files[i].path in contents && contents[files[i].path] == files[i].content
  }

  lemma IndexStep(files: seq<File>, n: nat, contents: map<Text, Text>)
    requires n < |files| && DistinctBy(files, FileKey()) && Indexes(contents, files[..n])
    ensures Indexes(contents[files[n].path := files[n].content], files[..n + 1])
  {
    var more, after := files[..n + 1], contents[files[n].path := files[n].content];
    assert more[..n] == files[..n];
    KeySetSnoc(more, FileKey());
    forall i | 0 <= i < n + 1 ensures more[i].path in after && after[more[i].path] == more[i].content {
      if i < n {
        assert FileKey()(files[i]) != FileKey()(files[n]);
        assert files[..n][i] == more[i];
      }
    }
  }

  method IndexFiles(files: seq<File>) returns (contents: map<Text, Text>)
    requires DistinctBy(files, FileKey())
    ensures Indexes(contents, files)
  {
    contents := map[];
    for n := 0 to |files|
      invariant Indexes(contents, files[..n])
    {
      IndexStep(files, n, contents);
      contents := contents[files[n].path := files[n].content];
    }
    assert files[..|files|] == files;
  }

  /** Looking a digest up in the index is what the asset test asks for. */
  lemma LookupIsTest(u: Library, files: seq<File>, contents: map<Text, Text>, a: Asset)
    requires Indexes(contents, files)
    ensures AssetOk(u, files, a) <==>
            && PathOk(u, a.path) && !a.kind.OtherKind? && !a.media.OtherMedia?
            && u.nfc(a.path) in contents && a.sha256 == u.sha256(contents[u.nfc(a.path)])
  {
    if u.nfc(a.path) in contents {
      var i :| 0 <= i < |files| && FileKey()(files[i]) == u.nfc(a.path);
      assert files[i].path == u.nfc(a.path);
    }
  }

  method CanonicalAssets(u: Library, files: seq<File>, assets: seq<Asset>) returns (r: Option<seq<Asset>>)
    requires DistinctBy(files, FileKey())
    ensures r == Assets(u, files, assets)
  {
    var contents := IndexFiles(files);
    var done: seq<Asset> := [];
    var seen: set<Text> := {};
    PassStarts(assets, AssetTest(u, files), NormalAsset(u), AssetKey());
    for n := 0 to |assets|
      invariant Passed(assets, n, AssetTest(u, files), NormalAsset(u), AssetKey(), seen, done)
    {
      var asset := assets[n];
      LookupIsTest(u, files, contents, asset);
      var path := u.nfc(asset.path);
      if !PathOk(u, asset.path) || asset.kind.OtherKind? || asset.media.OtherMedia? {
        PassBad(assets, n, AssetTest(u, files), NormalAsset(u), AssetKey());
        return None;
      }
      if path in seen {
        PassDuplicate(assets, n, AssetTest(u, files), NormalAsset(u), AssetKey(), seen, done);
        return None;
      }
      if path !in contents || asset.sha256 != u.sha256(contents[path]) {
        PassBad(assets, n, AssetTest(u, files), NormalAsset(u), AssetKey());
        return None;
      }
      PassStep(assets, n, AssetTest(u, files), NormalAsset(u), AssetKey(), seen, done);
      seen, done := seen + {path}, done + [asset.(path := path)];
    }
    PassEnds(assets, AssetTest(u, files), NormalAsset(u), AssetKey(), seen, done);
    KeyCount(files, FileKey());
    if |seen| != |contents.Keys| { return None; }
    return Some(SortBy(done, AssetKey()));
  }

  method CanonicalRequirements(u: Library, requirements: seq<Requirement>, allowed: seq<Text>, denied: seq<Text>)
    returns (r: Option<seq<Requirement>>)
    ensures r == Requirements(u, allowed, denied, requirements)
  {
    if |requirements| > MAX_REQUIREMENTS { return None; }
    var done: seq<Requirement> := [];
    var seen: set<Text> := {};
    PassStarts(requirements, RequirementTest(u, allowed, denied), NormalRequirement(), RequirementKey());
    for n := 0 to |requirements|
      invariant Passed(requirements, n, RequirementTest(u, allowed, denied), NormalRequirement(), RequirementKey(), seen, done)
    {
      var requirement := requirements[n];
      if !RequirementOk(u, allowed, denied, requirement) {
        PassBad(requirements, n, RequirementTest(u, allowed, denied), NormalRequirement(), RequirementKey());
        return None;
      }
      if requirement.name in seen {
        PassDuplicate(requirements, n, RequirementTest(u, allowed, denied), NormalRequirement(), RequirementKey(), seen, done);
        return None;
      }
      PassStep(requirements, n, RequirementTest(u, allowed, denied), NormalRequirement(), RequirementKey(), seen, done);
      seen, done := seen + {requirement.name}, done + [requirement.(tools := SortBy(requirement.tools, Same()))];
    }
    PassEnds(requirements, RequirementTest(u, allowed, denied), NormalRequirement(), RequirementKey(), seen, done);
    return Some(SortBy(done, RequirementKey()));
  }

  method CanonicalDependencies(dependencies: seq<Dependency>) returns (r: Option<seq<Dependency>>)
    ensures r == Dependencies(dependencies)
  {
    var done: seq<Dependency> := [];
    var seen: set<Text> := {};
    PassStarts(dependencies, DependencyTest(), SameDependency(), DependencyKey());
    for n := 0 to |dependencies|
      invariant Passed(dependencies, n, DependencyTest(), SameDependency(), DependencyKey(), seen, done)
    {
      var dependency := dependencies[n];
      if !DependencyOk(dependency) {
        PassBad(dependencies, n, DependencyTest(), SameDependency(), DependencyKey());
        return None;
      }
      var key := dependency.definition + [0] + dependency.version;
      if key in seen {
        PassDuplicate(dependencies, n, DependencyTest(), SameDependency(), DependencyKey(), seen, done);
        return None;
      }
      PassStep(dependencies, n, DependencyTest(), SameDependency(), DependencyKey(), seen, done);
      seen, done := seen + {key}, done + [dependency];
    }
    PassEnds(dependencies, DependencyTest(), SameDependency(), DependencyKey(), seen, done);
    return Some(SortBy(done, DependencyKey()));
  }

  /** The whole canonicalization, step by step. */
  method Canonicalize(u: Library, m: Manifest, files: seq<File>) returns (r: Outcome<Canonical, ContentError>)
    ensures r == CanonicalizeVersion(u, m, files)
  {
    if !ShapeOk(u, m, files) { return Err(InvalidContent); }
    var canonicalFiles := CanonicalFiles(u, files);
    if canonicalFiles.None? { return Err(InvalidContent); }
    FilesDistinct(u, files);
    var assets := CanonicalAssets(u, canonicalFiles.value, m.assets);
    if assets.None? { return Err(InvalidContent); }
    ghost var content := ContentLists(u, m, files);
    assert content == Some((canonicalFiles.value, assets.value));
    var models := CanonicalModels(u, m);
    if models.None? { return Err(InvalidContent); }
    var tools := CanonicalTools(u, m);
    if tools.None? { return Err(InvalidContent); }
    var dependencies := CanonicalDependencies(m.dependencies);
    if dependencies.None? { return Err(InvalidContent); }
    var lists := Lists(canonicalFiles.value, assets.value, models.value.0, models.value.1,
                       tools.value.0, tools.value.1, tools.value.2, dependencies.value);
    r := Conclude(u, m, Some(lists), RuntimeRange(m.minimum, m.maximum));
  }

  method CanonicalModels(u: Library, m: Manifest) returns (r: Option<(seq<Text>, seq<Text>)>)
    ensures r == ModelLists(u, m)
  {
    var providers := CanonicalStringSet(u, Providers(m));
    if providers.None? { return None; }
    var models := CanonicalStringSet(u, Models(m));
    if models.None? || !ValidModels(m.schema, m.mode, providers.value, models.value) { return None; }
    return Some((providers.value, models.value));
  }

  method NoneAllowed(allowed: seq<Text>, denied: seq<Text>) returns (disjoint: bool)
    ensures disjoint == Disjoint(allowed, denied)
  {
    for n := 0 to |denied|
      invariant forall i :: 0 <= i < n ==> denied[i] !in allowed
    {
      if denied[n] in allowed { return false; }
    }
    return true;
  }

  method CanonicalTools(u: Library, m: Manifest) returns (r: Option<(seq<Text>, seq<Text>, seq<Requirement>)>)
    ensures r == ToolLists(u, m)
  {
    var allowed := CanonicalStringSet(u, m.allowed);
    if allowed.None? { return None; }
    var denied := CanonicalStringSet(u, m.denied);
    if denied.None? { return None; }
    var disjoint := NoneAllowed(allowed.value, denied.value);
    if !disjoint { return None; }
    var requirements := CanonicalRequirements(u, RequirementList(m), allowed.value, denied.value);
    if requirements.None? { return None; }
    return Some((allowed.value, denied.value, requirements.value));
  }
}
