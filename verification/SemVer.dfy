/** Runtime versions: parsing, and the precedence order of section 11 of Semantic Versioning 2.0.0
    (internal/agentcontrol/manifest.go). */
module SemVer {
  import opened Common
  import opened Bytes

  type Text = seq<Byte>

  const DOT: Byte := '.' as int
  const DASH: Byte := '-' as int
  const PLUS: Byte := '+' as int
  const ZERO: Byte := '0' as int
  const PREFIX: Byte := 'v' as int

  /** strconv.ParseUint's largest 64-bit result, also what it returns on overflow. */
  const MAX_UINT64: nat := 0xFFFF_FFFF_FFFF_FFFF

  datatype Version = Version(major: nat, minor: nat, patch: nat, prerelease: seq<Text>)

  // ---------- characters and numbers ----------

  predicate IsDigit(c: Byte) { '0' as int <= c <= '9' as int }

  predicate IsWordChar(c: Byte) {
    IsDigit(c) || 'A' as int <= c <= 'Z' as int || 'a' as int <= c <= 'z' as int || c == DASH
  }

  predicate AllDigits(s: Text) { forall i :: 0 <= i < |s| ==> IsDigit(s[i]) }

  function Decimal(s: Text): nat
    requires AllDigits(s)
  {
    if s == [] then 0 else 10 * Decimal(s[..|s| - 1]) + (s[|s| - 1] - ZERO)
  }

  /** What an identifier's number compares as: values past 64 bits saturate. */
  function Saturated(s: Text): nat
    requires AllDigits(s)
  {
    if Decimal(s) > MAX_UINT64 then MAX_UINT64 else Decimal(s)
  }

  predicate PlainNumber(s: Text) { s != [] && AllDigits(s) && (|s| == 1 || s[0] != ZERO) }

  // ---------- parsing ----------

  /** The length of the longest prefix of digits, or of identifier characters and dots. */
  function DigitRun(s: Text): (n: nat)
    ensures n <= |s| && AllDigits(s[..n])
    ensures n < |s| ==> !IsDigit(s[n])
  {
    if s == [] || !IsDigit(s[0]) then 0 else 1 + DigitRun(s[1..])
  }

  predicate IsTagChar(c: Byte) { IsWordChar(c) || c == DOT }

  function TagRun(s: Text): (n: nat)
    ensures n <= |s| && forall i :: 0 <= i < n ==> IsTagChar(s[i])
    ensures n < |s| ==> !IsTagChar(s[n])
  {
    if s == [] || !IsTagChar(s[0]) then 0 else 1 + TagRun(s[1..])
  }

  /** strings.Split(s, "."). */
  function Split(s: Text): (parts: seq<Text>)
    ensures parts != []
  {
    if s == [] then [[]]
    else
      var rest := Split(s[1..]);
      if s[0] == DOT then [[]] + rest else [[s[0]] + rest[0]] + rest[1..]
  }

  predicate ValidIdentifier(id: Text, rejectLeadingZero: bool) {
    && id != [] && (forall i :: 0 <= i < |id| ==> IsWordChar(id[i]))
    && !(rejectLeadingZero && |id| > 1 && id[0] == ZERO && AllDigits(id))
  }

  predicate ValidIdentifiers(raw: Text, rejectLeadingZero: bool) {
    raw == [] || forall i :: 0 <= i < |Split(raw)| ==> ValidIdentifier(Split(raw)[i], rejectLeadingZero)
  }

  /** A plain 64-bit number at the front, and what follows it. */
  function Number(s: Text): Option<(nat, Text)> {
    var n := DigitRun(s);
    if !PlainNumber(s[..n]) || Decimal(s[..n]) > MAX_UINT64 then None else Some((Decimal(s[..n]), s[n..]))
  }

  /** The separator `c`, then a plain number. */
  function NumberAfter(c: Byte, s: Text): Option<(nat, Text)> {
    if s == [] || s[0] != c then None else Number(s[1..])
  }

  /** The pre-release and build tags that end a version: absent, or not empty. */
  function Tags(s: Text): Option<(Text, Text)> {
    if s == [] then Some(([], []))
    else if s[0] == DASH then
      var n := TagRun(s[1..]);
      var rest := s[1 + n..];
      if n == 0 then None
      else if rest == [] then Some((s[1..1 + n], []))
      else if rest[0] == PLUS && |rest| > 1 && TagRun(rest[1..]) == |rest| - 1 then Some((s[1..1 + n], rest[1..]))
      else None
    else if s[0] == PLUS && |s| > 1 && TagRun(s[1..]) == |s| - 1 then Some(([], s[1..]))
    else None
  }

  function ParseBody(s: Text): Option<Version> {
    var major := Number(s);
    if major.None? then None else
    var minor := NumberAfter(DOT, major.value.1);
    if minor.None? then None else
    var patch := NumberAfter(DOT, minor.value.1);
    if patch.None? then None else
    var tags := Tags(patch.value.1);
    if tags.None? || !ValidIdentifiers(tags.value.0, true) || !ValidIdentifiers(tags.value.1, false) then None
    else Some(Version(major.value.0, minor.value.0, patch.value.0,
                      if tags.value.0 == [] then [] else Split(tags.value.0)))
  }

  function Body(raw: Text): Text { if raw != [] && raw[0] == PREFIX then raw[1..] else raw }

  /** The normalized text, always with its `v`, and the version it denotes. */
  function Parse(raw: Text): Option<(Text, Version)> {
    var version := ParseBody(Body(raw));
    if version.None? then None
    else Some((if raw != [] && raw[0] == PREFIX then raw else [PREFIX] + raw, version.value))
  }

  // ---------- comparison ----------

  function Sign(a: int, b: int): int { if a < b then -1 else if a > b then 1 else 0 }

  function CompareIdentifier(a: Text, b: Text): int {
    if AllDigits(a) && AllDigits(b) then Sign(Saturated(a), Saturated(b))
    else if AllDigits(a) then -1
    else if AllDigits(b) then 1
    else if Less(a, b) then -1
    else if Less(b, a) then 1
    else 0
  }

  function ComparePrerelease(a: seq<Text>, b: seq<Text>): int {
    if a == [] || b == [] then Sign(|a|, |b|)
    else if CompareIdentifier(a[0], b[0]) != 0 then CompareIdentifier(a[0], b[0])
    else ComparePrerelease(a[1..], b[1..])
  }

  function Compare(l: Version, r: Version): int {
    if l.major != r.major then Sign(l.major, r.major)
    else if l.minor != r.minor then Sign(l.minor, r.minor)
    else if l.patch != r.patch then Sign(l.patch, r.patch)
    else if l.prerelease == [] || r.prerelease == [] then Sign(|r.prerelease|, |l.prerelease|)
    else ComparePrerelease(l.prerelease, r.prerelease)
  }

  lemma SkipEqual(a: seq<Text>, b: seq<Text>, n: nat)
    requires n <= |a| && n <= |b|
    requires forall i :: 0 <= i < n ==> CompareIdentifier(a[i], b[i]) == 0
    ensures ComparePrerelease(a, b) == ComparePrerelease(a[n..], b[n..])
    decreases n
  {
    if n > 0 {
      assert CompareIdentifier(a[0], b[0]) == 0;
      SkipEqual(a[1..], b[1..], n - 1);
      assert a[1..][n - 1..] == a[n..] && b[1..][n - 1..] == b[n..];
    } else {
      assert a[0..] == a && b[0..] == b;
    }
  }

  /** The comparison as the program runs it. */
  method CompareSemanticVersion(l: Version, r: Version) returns (sign: int)
    ensures sign == Compare(l, r)
  {
    var pairs := [(l.major, r.major), (l.minor, r.minor), (l.patch, r.patch)];
    for i := 0 to 3
      invariant forall k :: 0 <= k < i ==> pairs[k].0 == pairs[k].1
    {
      assert (i > 0 ==> pairs[0].0 == pairs[0].1) && (i > 1 ==> pairs[1].0 == pairs[1].1);
      if pairs[i].0 < pairs[i].1 { CoreDiffers(l, r, i); return -1; }
      if pairs[i].0 > pairs[i].1 { CoreDiffers(l, r, i); return 1; }
    }
    assert pairs[0].0 == pairs[0].1 && pairs[1].0 == pairs[1].1 && pairs[2].0 == pairs[2].1;
    var a, b := l.prerelease, r.prerelease;
    if |a| == 0 && |b| == 0 { return 0; }
    if |a| == 0 { return 1; }
    if |b| == 0 { return -1; }
    var index := 0;
    while index < |a| && index < |b|
      invariant index <= |a| && index <= |b|
      invariant forall k :: 0 <= k < index ==> CompareIdentifier(a[k], b[k]) == 0
    {
      var step := CompareIdentifier(a[index], b[index]);
      if step != 0 {
        SkipEqual(a, b, index);
        return step;
      }
      index := index + 1;
    }
    SkipEqual(a, b, index);
    if |a| < |b| { return -1; }
    if |a| > |b| { return 1; }
    return 0;
  }

  lemma CoreDiffers(l: Version, r: Version, i: nat)
    requires i < 3
    requires i > 0 ==> l.major == r.major
    requires i > 1 ==> l.minor == r.minor
    ensures var p := [(l.major, r.major), (l.minor, r.minor), (l.patch, r.patch)][i];
            p.0 != p.1 ==> Compare(l, r) == Sign(p.0, p.1)
  {
  }

  // ---------- a total preorder ----------

  lemma IdentifierAntisymmetric(a: Text, b: Text)
    ensures CompareIdentifier(b, a) == -CompareIdentifier(a, b)
    ensures -1 <= CompareIdentifier(a, b) <= 1
  {
    LessTotal(a, b);
  }

  lemma IdentifierTransitive(a: Text, b: Text, c: Text)
    requires CompareIdentifier(a, b) <= 0 && CompareIdentifier(b, c) <= 0
    ensures CompareIdentifier(a, c) <= 0
    ensures CompareIdentifier(a, b) < 0 || CompareIdentifier(b, c) < 0 ==> CompareIdentifier(a, c) < 0
  {
    LessTotal(a, b);
    LessTotal(b, c);
    LessTotal(a, c);
    if Less(a, b) && Less(b, c) { LessTransitive(a, b, c); }
  }

  lemma {:induction false} PrereleaseAntisymmetric(a: seq<Text>, b: seq<Text>)
    ensures ComparePrerelease(b, a) == -ComparePrerelease(a, b)
    ensures -1 <= ComparePrerelease(a, b) <= 1
  {
    if a != [] && b != [] {
      IdentifierAntisymmetric(a[0], b[0]);
      PrereleaseAntisymmetric(a[1..], b[1..]);
    }
  }

  lemma {:induction false} PrereleaseTransitive(a: seq<Text>, b: seq<Text>, c: seq<Text>)
    requires ComparePrerelease(a, b) <= 0 && ComparePrerelease(b, c) <= 0
    ensures ComparePrerelease(a, c) <= 0
  {
    if a != [] && b != [] && c != [] {
      IdentifierAntisymmetric(a[0], b[0]);
      IdentifierAntisymmetric(b[0], c[0]);
      IdentifierTransitive(a[0], b[0], c[0]);
      if CompareIdentifier(a[0], b[0]) == 0 && CompareIdentifier(b[0], c[0]) == 0 {
        IdentifierAntisymmetric(a[0], c[0]);
        IdentifierTransitive(c[0], b[0], a[0]);
        PrereleaseTransitive(a[1..], b[1..], c[1..]);
      }
    }
  }

  /** Reversing the operands reverses the sign; in particular a version equals itself. */
  lemma CompareAntisymmetric(l: Version, r: Version)
    ensures Compare(r, l) == -Compare(l, r)
    ensures Compare(l, l) == 0
    ensures -1 <= Compare(l, r) <= 1
  {
    PrereleaseAntisymmetric(l.prerelease, r.prerelease);
    PrereleaseAntisymmetric(l.prerelease, l.prerelease);
  }

  lemma CompareTransitive(a: Version, b: Version, c: Version)
    requires Compare(a, b) <= 0 && Compare(b, c) <= 0
    ensures Compare(a, c) <= 0
  {
    if a.prerelease != [] && b.prerelease != [] && c.prerelease != []
       && ComparePrerelease(a.prerelease, b.prerelease) <= 0 && ComparePrerelease(b.prerelease, c.prerelease) <= 0 {
      PrereleaseTransitive(a.prerelease, b.prerelease, c.prerelease);
    }
  }

  // ---------- section 11 ----------

  /** 11.4: numeric identifiers compare numerically, others by their bytes, and numeric ones are lower. */
  ghost predicate IdentifierPrecedes(a: Text, b: Text) {
    if AllDigits(a) && AllDigits(b) then Decimal(a) < Decimal(b)
    else AllDigits(a) || (!AllDigits(b) && Less(a, b))
  }

  ghost predicate SameIdentifier(a: Text, b: Text) {
    !IdentifierPrecedes(a, b) && !IdentifierPrecedes(b, a)
  }

  /** 11.4: the first difference decides; with none, the longer list is higher. */
  ghost predicate DecidedAt(a: seq<Text>, b: seq<Text>, i: nat) {
    && i <= |a| && i < |b| && (forall k :: 0 <= k < i ==> SameIdentifier(a[k], b[k]))
    && (i == |a| || IdentifierPrecedes(a[i], b[i]))
  }

  ghost predicate PrereleasePrecedes(a: seq<Text>, b: seq<Text>) {
    exists i :: DecidedAt(a, b, i)
  }

  /** 11.2 and 11.3: major, minor and patch in turn; a pre-release is lower than its release. */
  ghost predicate Precedes(l: Version, r: Version) {
    || l.major < r.major
    || (l.major == r.major && l.minor < r.minor)
    || (l.major == r.major && l.minor == r.minor && l.patch < r.patch)
    || (l.major == r.major && l.minor == r.minor && l.patch == r.patch && l.prerelease != []
        && (r.prerelease == [] || PrereleasePrecedes(l.prerelease, r.prerelease)))
  }

  ghost predicate Agrees(l: Version, r: Version) {
    (Compare(l, r) < 0 <==> Precedes(l, r)) && (Compare(l, r) > 0 <==> Precedes(r, l))
  }

  /** What parsing yields: 64-bit numbers, proper identifiers without leading zeros. */
  ghost predicate WellFormed(v: Version) {
    && v.major <= MAX_UINT64 && v.minor <= MAX_UINT64 && v.patch <= MAX_UINT64
    && forall i :: 0 <= i < |v.prerelease| ==> ValidIdentifier(v.prerelease[i], true)
  }

  /** No numeric identifier reaches the largest 64-bit number. */
  ghost predicate Exact(v: Version) {
    forall i :: 0 <= i < |v.prerelease| && AllDigits(v.prerelease[i]) ==> Decimal(v.prerelease[i]) < MAX_UINT64
  }

  ghost predicate ExactId(a: Text) { AllDigits(a) ==> Decimal(a) < MAX_UINT64 }

  lemma IdentifierAgrees(a: Text, b: Text)
    requires ExactId(a) || ExactId(b)
    ensures CompareIdentifier(a, b) < 0 <==> IdentifierPrecedes(a, b)
    ensures CompareIdentifier(a, b) > 0 <==> IdentifierPrecedes(b, a)
  {
    LessTotal(a, b);
  }

  lemma {:induction false} PrereleaseAgrees(a: seq<Text>, b: seq<Text>)
    requires (forall i :: 0 <= i < |a| ==> ExactId(a[i])) || (forall i :: 0 <= i < |b| ==> ExactId(b[i]))
    ensures ComparePrerelease(a, b) < 0 <==> PrereleasePrecedes(a, b)
  {
    if a == [] || b == [] {
      if |b| > 0 { assert DecidedAt(a, b, 0); }
    } else {
      IdentifierAgrees(a[0], b[0]);
      PrereleaseAgrees(a[1..], b[1..]);
      IdentifierAntisymmetric(a[0], b[0]);
      PrecedesStep(a, b);
    }
  }

  lemma PrecedesStep(a: seq<Text>, b: seq<Text>)
    requires a != [] && b != []
    ensures PrereleasePrecedes(a, b) <==>
            IdentifierPrecedes(a[0], b[0]) || (SameIdentifier(a[0], b[0]) && PrereleasePrecedes(a[1..], b[1..]))
  {
    if IdentifierPrecedes(a[0], b[0]) { assert DecidedAt(a, b, 0); }
    if SameIdentifier(a[0], b[0]) && PrereleasePrecedes(a[1..], b[1..]) {
      var i :| DecidedAt(a[1..], b[1..], i);
      LaterDecision(a, b, i);
    }
    if PrereleasePrecedes(a, b) && !IdentifierPrecedes(a[0], b[0]) {
      var i :| DecidedAt(a, b, i);
      EarlierDecision(a, b, i);
    }
  }

  lemma LaterDecision(a: seq<Text>, b: seq<Text>, i: nat)
    requires a != [] && b != [] && SameIdentifier(a[0], b[0]) && DecidedAt(a[1..], b[1..], i)
    ensures DecidedAt(a, b, i + 1)
  {
    forall k | 0 <= k < i + 1 ensures SameIdentifier(a[k], b[k]) {
      if k > 0 { assert a[1..][k - 1] == a[k] && b[1..][k - 1] == b[k]; }
    }
  }

  lemma EarlierDecision(a: seq<Text>, b: seq<Text>, i: nat)
    requires a != [] && b != [] && !IdentifierPrecedes(a[0], b[0]) && DecidedAt(a, b, i)
    ensures SameIdentifier(a[0], b[0]) && i > 0 && DecidedAt(a[1..], b[1..], i - 1)
  {
    forall k | 0 <= k < i - 1 ensures SameIdentifier(a[1..][k], b[1..][k]) {
      assert a[1..][k] == a[k + 1] && b[1..][k] == b[k + 1];
    }
  }

  lemma ExactAgrees(l: Version, r: Version)
    requires Exact(l)
    ensures Agrees(l, r)
  {
    forall i | 0 <= i < |l.prerelease| ensures ExactId(l.prerelease[i]) {}
    PrereleaseAgrees(l.prerelease, r.prerelease);
    PrereleaseAgrees(r.prerelease, l.prerelease);
    PrereleaseAntisymmetric(l.prerelease, r.prerelease);
  }

  /** The same version with a zero appended to one identifier: ten times the number. */
  ghost function Tenfold(v: Version, i: nat): Version
    requires i < |v.prerelease|
  {
    v.(prerelease := v.prerelease[i := v.prerelease[i] + [ZERO]])
  }

  lemma TenfoldIdentifier(a: Text)
    requires ValidIdentifier(a, true) && AllDigits(a) && Decimal(a) >= MAX_UINT64
    ensures ValidIdentifier(a + [ZERO], true) && AllDigits(a + [ZERO]) && Decimal(a + [ZERO]) == 10 * Decimal(a)
    ensures CompareIdentifier(a, a + [ZERO]) == 0 && IdentifierPrecedes(a, a + [ZERO])
  {
    var b := a + [ZERO];
    assert b[..|b| - 1] == a;
    OneDigit(a);
  }

  lemma OneDigit(a: Text)
    ensures |a| == 1 && AllDigits(a) ==> Decimal(a) <= 9
  {
  }

  lemma SaturatedDisagrees(l: Version, i: nat)
    requires WellFormed(l) && i < |l.prerelease| && AllDigits(l.prerelease[i]) && Decimal(l.prerelease[i]) >= MAX_UINT64
    ensures WellFormed(Tenfold(l, i)) && Compare(l, Tenfold(l, i)) == 0 && Precedes(l, Tenfold(l, i))
  {
    var a, b := l.prerelease, Tenfold(l, i).prerelease;
    TenfoldIdentifier(a[i]);
    forall k | 0 <= k < |a| ensures CompareIdentifier(a[k], b[k]) == 0 {
      if k != i { LessTotal(a[k], a[k]); }
    }
    SkipEqual(a, b, |a|);
    forall k | 0 <= k < i ensures SameIdentifier(a[k], b[k]) { LessTotal(a[k], a[k]); }
    assert DecidedAt(a, b, i);
  }

  /** The comparison of a version is section 11's for every other version exactly when no numeric
      pre-release identifier of it reaches 2^64 - 1. */
  lemma AgreesIffExact(l: Version)
    requires WellFormed(l)
    ensures (forall r :: WellFormed(r) ==> Agrees(l, r)) <==> Exact(l)
  {
    if Exact(l) {
      forall r | WellFormed(r) ensures Agrees(l, r) { ExactAgrees(l, r); }
    } else {
      var i :| 0 <= i < |l.prerelease| && AllDigits(l.prerelease[i]) && Decimal(l.prerelease[i]) >= MAX_UINT64;
      SaturatedDisagrees(l, i);
      assert !Agrees(l, Tenfold(l, i));
    }
  }

  lemma DecimalNext(s: Text, k: nat, v: nat)
    requires AllDigits(s) && k < |s| && Decimal(s[..k]) == v
    ensures Decimal(s[..k + 1]) == 10 * v + (s[k] - ZERO)
  {
    assert s[..k + 1][..k] == s[..k];
  }

  lemma LargestDigits(s: Text)
    requires s == Ascii("18446744073709551615")
    ensures s == [49, 56, 52, 52, 54, 55, 52, 52, 48, 55, 51, 55, 48, 57, 53, 53, 49, 54, 49, 53]
  {
  }

  lemma LargestFront(s: Text)
    requires |s| == 20 && AllDigits(s) && s[..10] == [49, 56, 52, 52, 54, 55, 52, 52, 48, 55]
    ensures Decimal(s[..10]) == 1844674407
  {
    forall k | 0 <= k < 10 ensures s[k] == s[..10][k] {}
    DecimalNext(s, 0, 0); DecimalNext(s, 1, 1);
    DecimalNext(s, 2, 18); DecimalNext(s, 3, 184);
    DecimalNext(s, 4, 1844); DecimalNext(s, 5, 18446);
    DecimalNext(s, 6, 184467); DecimalNext(s, 7, 1844674);
    DecimalNext(s, 8, 18446744); DecimalNext(s, 9, 184467440);
  }

  lemma LargestBack(s: Text)
    requires |s| == 20 && AllDigits(s) && s[10..] == [51, 55, 48, 57, 53, 53, 49, 54, 49, 53]
    requires Decimal(s[..10]) == 1844674407
    ensures Decimal(s) == MAX_UINT64
  {
    forall k | 10 <= k < 20 ensures s[k] == s[10..][k - 10] {}
    DecimalNext(s, 10, 1844674407); DecimalNext(s, 11, 18446744073);
    DecimalNext(s, 12, 184467440737); DecimalNext(s, 13, 1844674407370);
    DecimalNext(s, 14, 18446744073709); DecimalNext(s, 15, 184467440737095);
    DecimalNext(s, 16, 1844674407370955); DecimalNext(s, 17, 18446744073709551);
    DecimalNext(s, 18, 184467440737095516); DecimalNext(s, 19, 1844674407370955161);
    assert s[..20] == s;
  }

  lemma LargestDecimal(s: Text)
    requires s == Ascii("18446744073709551615")
    ensures AllDigits(s) && Decimal(s) == MAX_UINT64
  {
    LargestDigits(s);
    LargestFront(s);
    LargestBack(s);
  }

  /** 1.0.0-18446744073709551615 comes before 1.0.0-184467440737095516150 and compares equal to it. */
  lemma SaturationExample(l: Version, r: Version)
    requires l == Version(1, 0, 0, [Ascii("18446744073709551615")])
    requires r == Version(1, 0, 0, [Ascii("184467440737095516150")])
    ensures WellFormed(l) && WellFormed(r) && Compare(l, r) == 0 && Precedes(l, r) && !Agrees(l, r)
  {
    LargestDecimal(l.prerelease[0]);
    assert l.prerelease[0] + [ZERO] == r.prerelease[0];
    assert Tenfold(l, 0).prerelease == r.prerelease;
    SaturatedDisagrees(l, 0);
  }

  // ---------- parsing and rendering ----------

  /** Parsing yields well-formed versions only. */
  lemma ParsedIsWellFormed(raw: Text)
    ensures Parse(raw).Some? ==> WellFormed(Parse(raw).value.1)
  {
  }

  /** Normalizing again changes nothing, and normalizing keeps the version, so also its precedence. */
  lemma NormalizationIdempotent(raw: Text)
    requires Parse(raw).Some?
    ensures Parse(Parse(raw).value.0) == Parse(raw)
    ensures Parse(raw).value.0[0] == PREFIX
  {
    assert Body(Parse(raw).value.0) == Body(raw);
  }

  function ToDecimal(n: nat): (s: Text)
    ensures s != []
  {
    if n < 10 then [ZERO + n] else ToDecimal(n / 10) + [ZERO + n % 10]
  }

  lemma {:induction false} DecimalOfToDecimal(n: nat)
    ensures PlainNumber(ToDecimal(n)) && Decimal(ToDecimal(n)) == n
    ensures n > 0 ==> ToDecimal(n)[0] != ZERO
  {
    var s := ToDecimal(n);
    if n >= 10 {
      DecimalOfToDecimal(n / 10);
      assert s[..|s| - 1] == ToDecimal(n / 10);
    } else {
      assert s[..0] == [];
    }
  }

  function Join(parts: seq<Text>): Text
    requires parts != []
  {
    if |parts| == 1 then parts[0] else parts[0] + [DOT] + Join(parts[1..])
  }

  /** The shortest text of a version, without build metadata. */
  function Render(v: Version): Text {
    [PREFIX] + ToDecimal(v.major) + [DOT] + ToDecimal(v.minor) + [DOT] + ToDecimal(v.patch)
    + if v.prerelease == [] then [] else [DASH] + Join(v.prerelease)
  }

  lemma {:induction false} DigitRunOf(digits: Text, rest: Text)
    requires AllDigits(digits) && (rest != [] ==> !IsDigit(rest[0]))
    ensures DigitRun(digits + rest) == |digits|
  {
    if digits == [] {
      assert digits + rest == rest;
    } else {
      assert (digits + rest)[1..] == digits[1..] + rest;
      DigitRunOf(digits[1..], rest);
    }
  }

  lemma NumberOf(n: nat, rest: Text)
    requires n <= MAX_UINT64 && (rest != [] ==> !IsDigit(rest[0]))
    ensures Number(ToDecimal(n) + rest) == Some((n, rest))
  {
    var s := ToDecimal(n);
    DecimalOfToDecimal(n);
    DigitRunOf(s, rest);
    assert (s + rest)[..|s|] == s && (s + rest)[|s|..] == rest;
  }

  lemma NumberAfterOf(n: nat, rest: Text)
    requires n <= MAX_UINT64 && (rest != [] ==> !IsDigit(rest[0]))
    ensures NumberAfter(DOT, [DOT] + (ToDecimal(n) + rest)) == Some((n, rest))
  {
    NumberOf(n, rest);
    assert ([DOT] + (ToDecimal(n) + rest))[1..] == ToDecimal(n) + rest;
  }

  ghost predicate DotFree(s: Text) { forall i :: 0 <= i < |s| ==> s[i] != DOT }

  lemma {:induction false} SplitDotFree(s: Text)
    requires DotFree(s)
    ensures Split(s) == [s]
  {
    if s != [] {
      SplitDotFree(s[1..]);
      assert s == [s[0]] + s[1..];
    }
  }

  lemma {:induction false} SplitAtDot(s: Text, rest: Text)
    requires DotFree(s)
    ensures Split(s + [DOT] + rest) == [s] + Split(rest)
  {
    var all := s + [DOT] + rest;
    if s == [] {
      assert all[1..] == rest;
    } else {
      assert all[1..] == s[1..] + [DOT] + rest;
      SplitAtDot(s[1..], rest);
      assert s == [s[0]] + s[1..];
      assert Split(all[1..])[0] == s[1..] && Split(all[1..])[1..] == Split(rest);
    }
  }

  lemma {:induction false} SplitOfJoin(parts: seq<Text>)
    requires parts != [] && forall i :: 0 <= i < |parts| ==> DotFree(parts[i])
    ensures Split(Join(parts)) == parts
  {
    if |parts| == 1 {
      SplitDotFree(parts[0]);
    } else {
      SplitOfJoin(parts[1..]);
      SplitAtDot(parts[0], Join(parts[1..]));
      assert parts == [parts[0]] + parts[1..];
    }
  }

  ghost predicate TagText(s: Text) { forall i :: 0 <= i < |s| ==> IsTagChar(s[i]) }

  lemma {:induction false} TagRunOf(s: Text)
    requires TagText(s)
    ensures TagRun(s) == |s|
  {
    if s != [] { TagRunOf(s[1..]); }
  }

  lemma {:induction false} JoinIsTag(parts: seq<Text>)
    requires parts != [] && forall i :: 0 <= i < |parts| ==> ValidIdentifier(parts[i], true)
    ensures Join(parts) != [] && TagText(Join(parts))
  {
    if |parts| > 1 {
      JoinIsTag(parts[1..]);
      var rest := Join(parts[1..]);
      var all := parts[0] + [DOT] + rest;
      forall i | 0 <= i < |all| ensures IsTagChar(all[i]) {
        if i > |parts[0]| { assert all[i] == rest[i - |parts[0]| - 1]; }
      }
    }
  }

  lemma TagsOf(parts: seq<Text>)
    requires parts != [] && forall i :: 0 <= i < |parts| ==> ValidIdentifier(parts[i], true)
    ensures Tags([DASH] + Join(parts)) == Some((Join(parts), []))
    ensures Split(Join(parts)) == parts && Join(parts) != []
  {
    JoinIsTag(parts);
    TagsOfText(Join(parts));
    forall i | 0 <= i < |parts| ensures DotFree(parts[i]) { assert ValidIdentifier(parts[i], true); }
    SplitOfJoin(parts);
  }

  lemma TagsOfText(t: Text)
    requires t != [] && TagText(t)
    ensures Tags([DASH] + t) == Some((t, []))
  {
    TagRunOf(t);
    var s := [DASH] + t;
    assert s[1..] == t && s[1..1 + |t|] == t && s[1 + |t|..] == [];
  }

  ghost function TagOf(v: Version): Text { if v.prerelease == [] then [] else [DASH] + Join(v.prerelease) }

  lemma BodyOfRender(v: Version)
    ensures Body(Render(v)) == ToDecimal(v.major) + ([DOT] + (ToDecimal(v.minor) + ([DOT] + (ToDecimal(v.patch) + TagOf(v)))))
  {
  }

  /** Every well-formed version has a text that parses to it. */
  lemma ParseOfRender(v: Version)
    requires WellFormed(v)
    ensures Parse(Render(v)) == Some((Render(v), v))
  {
    BodyOfRender(v);
    var afterPatch := TagOf(v);
    var afterMinor := [DOT] + (ToDecimal(v.patch) + afterPatch);
    var afterMajor := [DOT] + (ToDecimal(v.minor) + afterMinor);
    NumberOf(v.major, afterMajor);
    NumberAfterOf(v.minor, afterMinor);
    NumberAfterOf(v.patch, afterPatch);
    if v.prerelease != [] { TagsOf(v.prerelease); }
  }

  // ---------- runtime ranges ----------

  /** The runtime range of a manifest: accepted with its normalized bounds, an empty maximum meaning none. */
  function RuntimeRange(minimum: Text, maximum: Text): Option<(Text, Option<Text>)> {
    var low := Parse(minimum);
    if low.None? then None
    else if maximum == [] then Some((low.value.0, None))
    else
      var high := Parse(maximum);
      if high.None? || Compare(high.value.1, low.value.1) <= 0 then None
      else Some((low.value.0, Some(high.value.0)))
  }

  ghost predicate InRange(v: Version, minimum: Text, maximum: Text) {
    && Parse(minimum).Some? && Compare(Parse(minimum).value.1, v) <= 0
    && (maximum == [] || (Parse(maximum).Some? && Compare(v, Parse(maximum).value.1) < 0))
  }

  /** A range is accepted exactly when its bounds parse and some well-formed version lies in it. */
  lemma AcceptedRangesAreNonEmpty(minimum: Text, maximum: Text)
    ensures RuntimeRange(minimum, maximum).Some? <==> exists v :: WellFormed(v) && InRange(v, minimum, maximum)
  {
    if RuntimeRange(minimum, maximum).Some? {
      var low := Parse(minimum).value.1;
      ParsedIsWellFormed(minimum);
      CompareAntisymmetric(low, low);
      if maximum != [] { CompareAntisymmetric(low, Parse(maximum).value.1); }
      assert InRange(low, minimum, maximum);
    }
    if v :| WellFormed(v) && InRange(v, minimum, maximum) {
      if maximum != [] { BoundsOrdered(Parse(minimum).value.1, v, Parse(maximum).value.1); }
    }
  }

  lemma BoundsOrdered(low: Version, v: Version, high: Version)
    requires Compare(low, v) <= 0 && Compare(v, high) < 0
    ensures Compare(high, low) > 0
  {
    CompareAntisymmetric(low, high);
    CompareAntisymmetric(v, high);
    if Compare(high, low) <= 0 { CompareTransitive(high, low, v); }
  }

  /** A stored range is accepted again as it is. */
  lemma RangeIdempotent(minimum: Text, maximum: Text)
    requires RuntimeRange(minimum, maximum).Some?
    ensures var range := RuntimeRange(minimum, maximum).value;
            RuntimeRange(range.0, if range.1.Some? then range.1.value else []) == Some(range)
  {
    NormalizationIdempotent(minimum);
    if maximum != [] { NormalizationIdempotent(maximum); }
  }
}
