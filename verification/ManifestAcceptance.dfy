/** What acceptance of a manifest and its bundle means, said of the submitted lists: an account of the rules that
    shares none of the tests the canonicalization makes, and is proved to decide exactly as it does. */
module ManifestAcceptance {
  import opened Common
  import opened Bytes
  import opened CanonicalList
  import opened SemVer
  import opened Manifest
  import opened ManifestProofs

  // ---------- texts ----------

  ghost predicate OccursAt(part: Text, s: Text, i: nat) { i + |part| <= |s| && s[i..i + |part|] == part }

  ghost predicate Occurs(part: Text, s: Text) { exists i: nat :: OccursAt(part, s, i) }

  lemma {:induction false} ContainsIsOccurs(s: Text, part: Text)
    ensures Contains(s, part) <==> Occurs(part, s)
  {
    if |part| <= |s| {
      if s[..|part|] == part {
        assert OccursAt(part, s, 0);
      } else if s != [] {
        ContainsIsOccurs(s[1..], part);
        if i: nat :| OccursAt(part, s[1..], i) { OccursShifts(part, s, i); }
        if i: nat :| OccursAt(part, s, i) {
          assert i > 0 by { assert s[0..|part|] == s[..|part|]; }
          OccursShifts(part, s, i - 1);
        }
      }
    }
  }

  lemma OccursShifts(part: Text, s: Text, i: nat)
    requires s != []
    ensures OccursAt(part, s[1..], i) <==> OccursAt(part, s, i + 1)
  {
    var t := s[1..];
    if i + |part| <= |t| {
      var x, y := t[i..i + |part|], s[i + 1..i + 1 + |part|];
      assert forall k :: 0 <= k < |part| ==> x[k] == y[k];
    }
  }

  /** A name of a tool, model, provider or requirement. */
  ghost predicate Label(u: Library, s: Text) {
    && u.utf8(s) && 1 <= |s| <= 128 && u.trim(s) == s
    && (forall i :: 0 <= i < |s| ==> s[i] != 0 && s[i] != 10 && s[i] != 13)
    && !Occurs([58, 47, 47], s)
  }

  lemma LabelIsEntry(u: Library, s: Text)
    ensures EntryOk(u, s) <==> Label(u, s)
  {
    ContainsIsOccurs(s, [58, 47, 47]);
  }

  ghost predicate Labels(u: Library, values: seq<Text>) {
    && (forall i :: 0 <= i < |values| ==> Label(u, values[i]))
    && (forall i, j :: 0 <= i < j < |values| ==> values[i] != values[j])
  }

  lemma LabelsAreStringSet(u: Library, values: seq<Text>)
    ensures StringSet(u, values).Some? <==> Labels(u, values)
  {
    MapSame(values);
    forall i | 0 <= i < |values| ensures EntryTest(u)(values[i]) <==> Label(u, values[i]) { LabelIsEntry(u, values[i]); }
  }

  // ---------- paths ----------

  /** A stretch of a path between slashes. */
  ghost predicate Piece(s: Text, i: nat, j: nat) {
    && i <= j <= |s| && (i == 0 || s[i - 1] == 47) && (j == |s| || s[j] == 47)
    && forall k :: i <= k < j ==> s[k] != 47
  }

  ghost predicate HasPiece(s: Text, x: Text) { exists i: nat, j: nat :: Piece(s, i, j) && s[i..j] == x }

  /** Where the first slash is. */
  ghost function Cut(s: Text): (n: nat)
    ensures n <= |s| && (forall k :: 0 <= k < n ==> s[k] != 47) && (n < |s| ==> s[n] == 47)
  {
    if s == [] || s[0] == 47 then 0
    else 1 + Cut(s[1..])
  }

  lemma {:induction false} SegmentsAtCut(s: Text)
    ensures Segments(s)[0] == s[..Cut(s)]
    ensures Segments(s)[1..] == if Cut(s) < |s| then Segments(s[Cut(s) + 1..]) else []
  {
    if s != [] {
      SegmentsAtCut(s[1..]);
      if s[0] != 47 {
        var n := Cut(s[1..]);
        assert s[..1 + n] == [s[0]] + s[1..][..n];
        if n < |s[1..]| { assert s[1..][n + 1..] == s[1 + n + 1..]; }
      }
    }
  }

  lemma PieceShifts(s: Text, n: nat, i: nat, j: nat)
    requires n < |s| && s[n] == 47 && i <= j <= |s| - n - 1
    ensures Piece(s[n + 1..], i, j) <==> Piece(s, i + n + 1, j + n + 1)
    ensures s[n + 1..][i..j] == s[i + n + 1..j + n + 1]
  {
    var t := s[n + 1..];
    assert forall k :: i <= k < j ==> t[k] == s[k + n + 1];
    assert (forall k :: i <= k < j ==> t[k] != 47) <==> (forall k :: i + n + 1 <= k < j + n + 1 ==> s[k] != 47) by {
      forall k | i + n + 1 <= k < j + n + 1 ensures s[k] == t[k - n - 1] {}
    }
  }

  lemma PieceFromCut(s: Text, i: nat, j: nat)
    requires Piece(s, i, j)
    ensures if i == 0 then j == Cut(s) else i > Cut(s)
  {
  }

  lemma PieceIsHad(s: Text, i: nat, j: nat, x: Text)
    requires Piece(s, i, j) && s[i..j] == x
    ensures HasPiece(s, x)
  {
  }

  lemma PieceAfter(s: Text, t: Text, n: nat, i: nat, j: nat, x: Text)
    requires n < i && Piece(s, i, j) && s[n] == 47 && t == s[n + 1..] && x == s[i..j]
    ensures HasPiece(t, x)
  {
    assert forall k :: 0 <= k < |t| ==> t[k] == s[k + n + 1];
    PieceIsHad(t, i - n - 1, j - n - 1, x);
  }

  lemma LaterPiece(s: Text, i: nat, j: nat)
    requires Piece(s, i, j) && i > 0
    ensures Cut(s) < |s| && HasPiece(s[Cut(s) + 1..], s[i..j])
  {
    PieceFromCut(s, i, j);
    PieceAfter(s, s[Cut(s) + 1..], Cut(s), i, j, s[i..j]);
  }

  lemma PieceThere(s: Text, x: Text)
    requires HasPiece(s, x)
    ensures x == s[..Cut(s)] || (Cut(s) < |s| && HasPiece(s[Cut(s) + 1..], x))
  {
    var i: nat, j: nat :| Piece(s, i, j) && s[i..j] == x;
    if i == 0 { PieceFromCut(s, i, j); } else { LaterPiece(s, i, j); }
  }

  lemma PieceBack(s: Text, x: Text)
    requires x == s[..Cut(s)] || (Cut(s) < |s| && HasPiece(s[Cut(s) + 1..], x))
    ensures HasPiece(s, x)
  {
    var n := Cut(s);
    if x == s[..n] {
      assert Piece(s, 0, n) && s[0..n] == x;
    } else {
      var i: nat, j: nat :| Piece(s[n + 1..], i, j) && s[n + 1..][i..j] == x;
      PieceShifts(s, n, i, j);
    }
  }

  lemma {:induction false} SegmentsArePieces(s: Text, x: Text)
    ensures x in Segments(s) <==> HasPiece(s, x)
    decreases |s|
  {
    SegmentsAtCut(s);
    if HasPiece(s, x) { PieceThere(s, x); }
    assert Segments(s) == [Segments(s)[0]] + Segments(s)[1..];
    if Cut(s) < |s| { SegmentsArePieces(s[Cut(s) + 1..], x); }
    if x in Segments(s) { PieceBack(s, x); }
  }

  ghost predicate Sensitive(x: Text) {
    || x == Ascii(".env") || x == Ascii("auth.json") || x == Ascii("memory.md") || x == Ascii("user.md")
    || x == Ascii("credentials") || x == Ascii("sessions") || x == Ascii("curator") || x == Ascii("archives")
  }

  /** A relative, clean path without a scheme, drive or sensitive part. */
  ghost predicate GoodPath(u: Library, p: Text) {
    && 1 <= |p| && u.trim(p) == p && u.utf8(p) && p[0] != 47 && (|p| > 1 ==> p[1] != 58)
    && (forall i :: 0 <= i < |p| ==> p[i] != 0 && p[i] != 92) && !Occurs([58, 47, 47], p)
    && var n := u.nfc(p);
    && u.clean(n) == n && n != [46] && !(|n| >= 3 && n[..3] == [46, 46, 47])
    && forall x :: Sensitive(x) ==> !HasPiece(u.lower(n), x)
  }

  lemma PathIsGood(u: Library, p: Text)
    ensures PathOk(u, p) <==> GoodPath(u, p)
  {
    ContainsIsOccurs(p, [58, 47, 47]);
    assert |p| >= 1 ==> p[..1] == [p[0]];
    var l := u.lower(u.nfc(p));
    forall x ensures x in Segments(l) <==> HasPiece(l, x) { SegmentsArePieces(l, x); }
    assert forall i :: 0 <= i < |Segments(l)| ==> Segments(l)[i] in Segments(l);
  }

  // ---------- files and assets ----------

  ghost function Sum(files: seq<File>): nat { if files == [] then 0 else |files[0].content| + Sum(files[1..]) }

  lemma {:induction false} SumIsTotal(files: seq<File>)
    ensures Sum(files) == TotalBytes(files)
  {
    if files != [] {
      SumIsTotal(files[1..]);
      TotalAppend([files[0]], files[1..]);
      assert files == [files[0]] + files[1..];
      assert TotalBytes([files[0]]) == |files[0].content| by { assert [files[0]][..0] == []; }
    }
  }

  /** A list is canonicalized exactly when every item passes and no two get the same key. */
  lemma CanonIff<S, T>(items: seq<S>, ok: S -> bool, conv: S -> T, key: T -> seq<Byte>, keys: seq<seq<Byte>>)
    requires |keys| == |items| && forall i :: 0 <= i < |items| ==> keys[i] == key(conv(items[i]))
    ensures Canon(items, ok, conv, key).Some? <==>
            (forall i :: 0 <= i < |items| ==> ok(items[i])) && (forall i, j :: 0 <= i < j < |keys| ==> keys[i] != keys[j])
  {
    var made := Map(conv, items);
    assert forall i :: 0 <= i < |items| ==> key(made[i]) == keys[i];
  }

  ghost predicate GoodFile(u: Library, f: File) { GoodPath(u, f.path) && u.utf8(f.content) && |f.content| <= 262_144 }

  ghost predicate GoodFiles(u: Library, files: seq<File>) {
    && (forall i :: 0 <= i < |files| ==> GoodFile(u, files[i]))
    && (forall i, j :: 0 <= i < j < |files| ==> u.nfc(files[i].path) != u.nfc(files[j].path))
    && Sum(files) <= 2_097_152
  }

  lemma FileIsGood(u: Library, f: File)
    ensures FileTest(u)(f) <==> GoodFile(u, f)
  {
    PathIsGood(u, f.path);
  }

  lemma FilesAreGood(u: Library, files: seq<File>)
    ensures Files(u, files).Some? <==> GoodFiles(u, files)
  {
    SumIsTotal(files);
    forall i | 0 <= i < |files| ensures FileTest(u)(files[i]) <==> GoodFile(u, files[i]) { FileIsGood(u, files[i]); }
    var paths := seq(|files|, i requires 0 <= i < |files| => u.nfc(files[i].path));
    CanonIff(files, FileTest(u), NormalFile(u), FileKey(), paths);
    assert forall i :: 0 <= i < |files| ==> paths[i] == u.nfc(files[i].path);
  }

  /** A known kind and media type, and the digest of the file of that path. */
  ghost predicate GoodAsset(u: Library, files: seq<File>, a: Asset) {
    && GoodPath(u, a.path)
    && (a.kind == Skill || a.kind == Sop || a.kind == Knowledge) && (a.media == Markdown || a.media == Plain)
    && exists j :: 0 <= j < |files| && u.nfc(files[j].path) == u.nfc(a.path) && a.sha256 == u.sha256(files[j].content)
  }

  ghost predicate GoodAssets(u: Library, assets: seq<Asset>, files: seq<File>) {
    && |assets| == |files| && (forall i :: 0 <= i < |assets| ==> GoodAsset(u, files, assets[i]))
    && (forall i, j :: 0 <= i < j < |assets| ==> u.nfc(assets[i].path) != u.nfc(assets[j].path))
  }

  lemma AssetIsGood(u: Library, files: seq<File>, a: Asset)
    requires Files(u, files).Some?
    ensures AssetOk(u, Files(u, files).value, a) <==> GoodAsset(u, files, a)
  {
    PathIsGood(u, a.path);
    var fs := Files(u, files).value;
    if AssetOk(u, fs, a) {
      var i :| 0 <= i < |fs| && fs[i].path == u.nfc(a.path) && a.sha256 == u.sha256(fs[i].content);
      var k := CanonMember(files, FileTest(u), NormalFile(u), FileKey(), i);
      assert u.nfc(files[k].path) == u.nfc(a.path);
    }
    if GoodAsset(u, files, a) {
      var j :| 0 <= j < |files| && u.nfc(files[j].path) == u.nfc(a.path) && a.sha256 == u.sha256(files[j].content);
      var i := CanonCovers(files, FileTest(u), NormalFile(u), FileKey(), j);
      assert fs[i].path == u.nfc(a.path);
    }
  }

  lemma AsManyFiles(u: Library, files: seq<File>)
    requires Files(u, files).Some?
    ensures |Files(u, files).value| == |files|
  {
    var fs := Files(u, files).value;
    CanonAscending(files, FileTest(u), NormalFile(u), FileKey());
    assert |fs| == |multiset(fs)| == |multiset(Map(NormalFile(u), files))| == |files|;
  }

  lemma AssetsAreGood(u: Library, assets: seq<Asset>, files: seq<File>)
    requires Files(u, files).Some?
    ensures Assets(u, Files(u, files).value, assets).Some? <==> GoodAssets(u, assets, files)
  {
    var fs := Files(u, files).value;
    AsManyFiles(u, files);
    forall i | 0 <= i < |assets| ensures AssetTest(u, fs)(assets[i]) <==> GoodAsset(u, files, assets[i]) {
      AssetIsGood(u, files, assets[i]);
    }
    var paths := seq(|assets|, i requires 0 <= i < |assets| => u.nfc(assets[i].path));
    CanonIff(assets, AssetTest(u, fs), NormalAsset(u), AssetKey(), paths);
    assert forall i :: 0 <= i < |assets| ==> paths[i] == u.nfc(assets[i].path);
  }

  // ---------- models ----------

  /** Schema 1 names providers and models; later ones as many as the selection mode calls for. */
  ghost predicate GoodModels(u: Library, m: Manifest) {
    var providers := if m.schema == 1 then m.constraintProviders else m.policyProviders;
    var models := if m.schema == 1 then m.constraintModels else m.policyModels;
    && Labels(u, providers) && Labels(u, models)
    && (m.schema == 1 ==> |providers| >= 1 && |models| >= 1)
    && (m.schema != 1 ==>
          || (m.mode == UserSelect && |providers| == |models| == 0)
          || (m.mode == Allowlist && |providers| >= 1 && |models| >= 1)
          || (m.mode == Fixed && |providers| == |models| == 1))
  }

  lemma StringSetLength(u: Library, values: seq<Text>)
    requires StringSet(u, values).Some?
    ensures |StringSet(u, values).value| == |values|
    ensures forall x :: x in StringSet(u, values).value <==> x in values
  {
    StringSetComplete(u, values);
    var r := StringSet(u, values).value;
    PermutesLength(r, values);
    forall x ensures x in r <==> x in values { assert x in multiset(r) <==> x in multiset(values); }
  }

  lemma ModelsAreGood(u: Library, m: Manifest)
    ensures ModelLists(u, m).Some? <==> GoodModels(u, m)
  {
    LabelsAreStringSet(u, Providers(m));
    LabelsAreStringSet(u, Models(m));
    if Labels(u, Providers(m)) && Labels(u, Models(m)) {
      StringSetLength(u, Providers(m));
      StringSetLength(u, Models(m));
    }
  }

  // ---------- tools and requirements ----------

  ghost predicate GoodRequirement(u: Library, allowed: seq<Text>, denied: seq<Text>, r: Requirement) {
    && Label(u, r.name)
    && u.utf8(r.reason) && 1 <= |r.reason| <= 300 && u.trim(r.reason) == r.reason
    && (forall i :: 0 <= i < |r.reason| ==> r.reason[i] != 0 && r.reason[i] != 10 && r.reason[i] != 13)
    && Labels(u, r.tools) && 1 <= |r.tools| <= 128
    && forall t :: t in r.tools ==> t in allowed && t !in denied
  }

  ghost predicate GoodRequirements(u: Library, m: Manifest, rs: seq<Requirement>) {
    && |rs| <= 32 && (forall i :: 0 <= i < |rs| ==> GoodRequirement(u, m.allowed, m.denied, rs[i]))
    && (forall i, j :: 0 <= i < j < |rs| ==> rs[i].name != rs[j].name)
  }

  ghost predicate GoodTools(u: Library, m: Manifest) {
    && Labels(u, m.allowed) && Labels(u, m.denied) && (forall t :: t in m.allowed ==> t !in m.denied)
    && (m.requirements.Some? ==> GoodRequirements(u, m, m.requirements.value))
  }

  lemma RequirementIsGood(u: Library, m: Manifest, r: Requirement)
    requires StringSet(u, m.allowed).Some? && StringSet(u, m.denied).Some?
    ensures RequirementOk(u, StringSet(u, m.allowed).value, StringSet(u, m.denied).value, r) <==>
            GoodRequirement(u, m.allowed, m.denied, r)
  {
    LabelIsEntry(u, r.name);
    LabelsAreStringSet(u, r.tools);
    StringSetLength(u, m.allowed);
    StringSetLength(u, m.denied);
  }

  lemma DisjointOnEither(u: Library, m: Manifest)
    requires StringSet(u, m.allowed).Some? && StringSet(u, m.denied).Some?
    ensures Disjoint(StringSet(u, m.allowed).value, StringSet(u, m.denied).value) <==> forall t :: t in m.allowed ==> t !in m.denied
  {
    StringSetLength(u, m.allowed);
    StringSetLength(u, m.denied);
    var a, d := StringSet(u, m.allowed).value, StringSet(u, m.denied).value;
    assert Disjoint(a, d) <==> forall t :: t in d ==> t !in a;
  }

  lemma NamesAreKeys(rs: seq<Requirement>)
    ensures DistinctBy(Map(NormalRequirement(), rs), RequirementKey()) <==> forall i, j :: 0 <= i < j < |rs| ==> rs[i].name != rs[j].name
  {
    var named := Map(NormalRequirement(), rs);
    assert forall i :: 0 <= i < |rs| ==> RequirementKey()(named[i]) == rs[i].name;
  }

  lemma EachIsGood(u: Library, m: Manifest, rs: seq<Requirement>)
    requires StringSet(u, m.allowed).Some? && StringSet(u, m.denied).Some?
    ensures All(rs, RequirementTest(u, StringSet(u, m.allowed).value, StringSet(u, m.denied).value)) <==>
            forall i :: 0 <= i < |rs| ==> GoodRequirement(u, m.allowed, m.denied, rs[i])
  {
    forall i | 0 <= i < |rs|
      ensures RequirementTest(u, StringSet(u, m.allowed).value, StringSet(u, m.denied).value)(rs[i]) <==>
              GoodRequirement(u, m.allowed, m.denied, rs[i])
    {
      RequirementIsGood(u, m, rs[i]);
    }
  }

  lemma RequirementsAreGood(u: Library, m: Manifest, rs: seq<Requirement>)
    requires StringSet(u, m.allowed).Some? && StringSet(u, m.denied).Some?
    ensures Requirements(u, StringSet(u, m.allowed).value, StringSet(u, m.denied).value, rs).Some? <==> GoodRequirements(u, m, rs)
  {
    EachIsGood(u, m, rs);
    NamesAreKeys(rs);
  }

  lemma ToolsAreGood(u: Library, m: Manifest)
    ensures ToolLists(u, m).Some? <==> GoodTools(u, m)
  {
    LabelsAreStringSet(u, m.allowed);
    LabelsAreStringSet(u, m.denied);
    if Labels(u, m.allowed) && Labels(u, m.denied) {
      DisjointOnEither(u, m);
      RequirementsAreGood(u, m, RequirementList(m));
    }
  }

  // ---------- dependencies ----------

  const NIL_TEXT := "00000000-0000-0000-0000-000000000000"

  ghost predicate GoodDependencies(ds: seq<Dependency>) {
    && (forall i :: 0 <= i < |ds| ==> ds[i].definition != Ascii(NIL_TEXT) && ds[i].version != Ascii(NIL_TEXT))
    && (forall i, j :: 0 <= i < j < |ds| ==> ds[i].definition + [0] + ds[i].version != ds[j].definition + [0] + ds[j].version)
  }

  lemma DependenciesAreGood(ds: seq<Dependency>)
    ensures Dependencies(ds).Some? <==> GoodDependencies(ds)
  {
    assert Map(SameDependency(), ds) == ds;
    assert forall i :: 0 <= i < |ds| ==> (DependencyTest()(ds[i]) <==> DependencyOk(ds[i]));
  }

  // ---------- the whole version ----------

  /** A manifest and bundle that only the runtime range and the size of the encoding can still refuse. */
  ghost predicate Acceptable(u: Library, m: Manifest, files: seq<File>) {
    && 1 <= m.schema <= 3 && u.utf8(m.prompt) && 1 <= |m.prompt| <= 262_144 && 0 !in m.prompt
    && |m.assets| <= 128 && |files| <= 128
    && (m.schema == 3 ==> m.requirements.Some?)
    && (m.schema != 3 && m.requirements.Some? ==> m.requirements.value == [])
    && GoodFiles(u, files) && GoodAssets(u, m.assets, files) && GoodModels(u, m) && GoodTools(u, m)
    && GoodDependencies(m.dependencies)
  }

  lemma ListsAreAcceptable(u: Library, m: Manifest, files: seq<File>)
    ensures ShapeOk(u, m, files) && CanonicalLists(u, m, files).Some? <==> Acceptable(u, m, files)
  {
    FilesAreGood(u, files);
    if Files(u, files).Some? { AssetsAreGood(u, m.assets, files); }
    ModelsAreGood(u, m);
    ToolsAreGood(u, m);
    DependenciesAreGood(m.dependencies);
  }

  /** The lists of `c` are those submitted, in strict order: paths normalized, the tools of a requirement ordered. */
  ghost predicate HoldsContent(u: Library, m: Manifest, files: seq<File>, c: Canonical) {
    && AscendingBy(c.files, FileKey()) && AscendingBy(c.assets, AssetKey())
    && (exists p :: Permutes(c.files, p) && |p| == |files|
                    && forall i :: 0 <= i < |p| ==> p[i] == File(u.nfc(files[i].path), files[i].content))
    && (exists p :: Permutes(c.assets, p) && |p| == |m.assets|
                    && forall i :: 0 <= i < |p| ==> p[i] == m.assets[i].(path := u.nfc(m.assets[i].path)))
  }

  ghost predicate HoldsNames(m: Manifest, c: Canonical) {
    && AscendingBy(c.providers, Same()) && Permutes(c.providers, if m.schema == 1 then m.constraintProviders else m.policyProviders)
    && AscendingBy(c.models, Same()) && Permutes(c.models, if m.schema == 1 then m.constraintModels else m.policyModels)
    && AscendingBy(c.allowed, Same()) && Permutes(c.allowed, m.allowed)
    && AscendingBy(c.denied, Same()) && Permutes(c.denied, m.denied)
    && AscendingBy(c.dependencies, DependencyKey()) && Permutes(c.dependencies, m.dependencies)
  }

  ghost predicate HoldsRequirements(m: Manifest, c: Canonical) {
    && (c.requirements.Some? <==> m.schema == 3)
    && (m.schema == 3 ==>
          && m.requirements.Some? && AscendingBy(c.requirements.value, RequirementKey())
          && exists p :: Permutes(c.requirements.value, p) && |p| == |m.requirements.value|
                         && forall i :: 0 <= i < |p| ==> OrderedTools(m.requirements.value[i], p[i]))
  }

  ghost predicate OrderedTools(r: Requirement, s: Requirement) {
    s == r.(tools := s.tools) && Permutes(s.tools, r.tools) && AscendingBy(s.tools, Same())
  }

  /** The one canonical value a manifest and bundle stand for. */
  ghost predicate StandsFor(u: Library, m: Manifest, files: seq<File>, c: Canonical) {
    && c.schema == m.schema && c.prompt == m.prompt && c.mode == (if m.schema == 1 then None else Some(m.mode))
    && HoldsContent(u, m, files, c) && HoldsNames(m, c) && HoldsRequirements(m, c)
  }

  lemma ContentStands(u: Library, m: Manifest, files: seq<File>, l: Lists, c: Canonical)
    requires Complete(u, m, files, l) && c.files == l.files && c.assets == l.assets
    ensures HoldsContent(u, m, files, c)
  {
    var fs, assets := Map(NormalFile(u), files), Map(NormalAsset(u), m.assets);
    assert forall i :: 0 <= i < |fs| ==> fs[i] == File(u.nfc(files[i].path), files[i].content);
    assert forall i :: 0 <= i < |assets| ==> assets[i] == m.assets[i].(path := u.nfc(m.assets[i].path));
  }

  lemma RequirementsStand(u: Library, m: Manifest, files: seq<File>, l: Lists, c: Canonical)
    requires Complete(u, m, files, l) && Acceptable(u, m, files) && m.schema == 3 && c.requirements == Some(l.requirements)
    ensures HoldsRequirements(m, c)
  {
    var rs := m.requirements.value;
    var p := Map(NormalRequirement(), rs);
    forall i | 0 <= i < |p| ensures OrderedTools(rs[i], p[i]) {
      assert GoodRequirement(u, m.allowed, m.denied, rs[i]);
      LabelsAreStringSet(u, rs[i].tools);
      StringSetComplete(u, rs[i].tools);
      MapSame(rs[i].tools);
    }
  }

  lemma AssembledStands(u: Library, m: Manifest, files: seq<File>, minimum: Text, maximum: Option<Text>)
    requires Acceptable(u, m, files) && CanonicalLists(u, m, files).Some?
    ensures StandsFor(u, m, files, Assemble(m, CanonicalLists(u, m, files).value, minimum, maximum))
  {
    var l := CanonicalLists(u, m, files).value;
    var c := Assemble(m, l, minimum, maximum);
    ListsComplete(u, m, files);
    ContentStands(u, m, files, l, c);
    if m.schema == 3 { RequirementsStand(u, m, files, l, c); }
  }

  /** What canonicalization answers for every manifest and bundle. */
  ghost predicate Answers(u: Library, m: Manifest, files: seq<File>, c: Canonical, answer: Outcome<Canonical, ContentError>) {
    && StandsFor(u, m, files, c) && RuntimeRange(m.minimum, m.maximum) == Some((c.minimum, c.maximum))
    && answer == if u.size(c) <= 262_144 then Ok(c) else Err(InvalidContent)
  }

  /** A manifest and bundle that are not acceptable are invalid; acceptable ones are refused as incompatible exactly
      for their runtime range, and otherwise stand for one canonical value, refused only for its size. */
  lemma AcceptedIff(u: Library, m: Manifest, files: seq<File>)
    ensures !Acceptable(u, m, files) ==> CanonicalizeVersion(u, m, files) == Err(InvalidContent)
    ensures Acceptable(u, m, files) && RuntimeRange(m.minimum, m.maximum).None? ==>
              CanonicalizeVersion(u, m, files) == Err(RuntimeIncompatible)
    ensures Acceptable(u, m, files) && RuntimeRange(m.minimum, m.maximum).Some? ==>
              exists c :: Answers(u, m, files, c, CanonicalizeVersion(u, m, files))
  {
    ListsAreAcceptable(u, m, files);
    var range := RuntimeRange(m.minimum, m.maximum);
    if Acceptable(u, m, files) && range.Some? {
      var c := Assemble(m, CanonicalLists(u, m, files).value, range.value.0, range.value.1);
      AssembledStands(u, m, files, range.value.0, range.value.1);
      assert Answers(u, m, files, c, CanonicalizeVersion(u, m, files));
    }
  }

  ghost predicate Fits(c: Canonical, r: Requirement) {
    1 <= |r.tools| <= 128 && forall t :: t in r.tools ==> t in c.allowed && t !in c.denied
  }

  /** In accepted content every tool a requirement names is allowed and not denied, requirements have distinct names
      and 1 to 128 tools each. */
  lemma AcceptedRequirementsFit(u: Library, m: Manifest, files: seq<File>)
    requires CanonicalizeVersion(u, m, files).Ok? && m.schema == 3
    ensures var c := CanonicalizeVersion(u, m, files).value;
            && c.requirements.Some? && |c.requirements.value| <= 32
            && (forall i, j :: 0 <= i < j < |c.requirements.value| ==> c.requirements.value[i].name != c.requirements.value[j].name)
            && (forall i :: 0 <= i < |c.requirements.value| ==> Fits(c, c.requirements.value[i]))
  {
    AcceptedIff(u, m, files);
    var c :| Answers(u, m, files, c, CanonicalizeVersion(u, m, files));
    DistinctNames(c.requirements.value);
    RequirementsInside(u, m, files, c);
  }

  lemma DistinctNames(rs: seq<Requirement>)
    requires AscendingBy(rs, RequirementKey())
    ensures forall i, j :: 0 <= i < j < |rs| ==> rs[i].name != rs[j].name
  {
    AscendingDistinct(rs, RequirementKey());
    assert forall i :: 0 <= i < |rs| ==> RequirementKey()(rs[i]) == rs[i].name;
  }

  lemma RequirementsInside(u: Library, m: Manifest, files: seq<File>, c: Canonical)
    requires Acceptable(u, m, files) && StandsFor(u, m, files, c) && m.schema == 3
    ensures |c.requirements.value| <= 32
    ensures forall i :: 0 <= i < |c.requirements.value| ==> Fits(c, c.requirements.value[i])
  {
    var rs := m.requirements.value;
    var p: seq<Requirement> :| Permutes(c.requirements.value, p) && |p| == |rs| && forall i :: 0 <= i < |p| ==> OrderedTools(rs[i], p[i]);
    PermutesLength(c.requirements.value, p);
    forall i | 0 <= i < |c.requirements.value| ensures Fits(c, c.requirements.value[i]) {
      assert c.requirements.value[i] in multiset(p);
      var k := MemberIndex(p, c.requirements.value[i]);
      assert OrderedTools(rs[k], p[k]) && GoodRequirement(u, m.allowed, m.denied, rs[k]);
      PermutesLength(p[k].tools, rs[k].tools);
      ToolsInside(rs[k].tools, p[k].tools, m.allowed, c.allowed, m.denied, c.denied);
    }
  }

  lemma ToolsInside(tools: seq<Text>, ordered: seq<Text>, allowed: seq<Text>, c: seq<Text>, denied: seq<Text>, d: seq<Text>)
    requires Permutes(ordered, tools) && Permutes(c, allowed) && Permutes(d, denied)
    requires forall t :: t in tools ==> t in allowed && t !in denied
    ensures forall t :: t in ordered ==> t in c && t !in d
  {
    forall t | t in ordered ensures t in c && t !in d {
      assert t in multiset(ordered) && t in tools;
      assert t in multiset(c) <==> t in multiset(allowed);
      assert t in multiset(d) <==> t in multiset(denied);
    }
  }
}
