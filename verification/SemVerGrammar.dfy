/** Which texts are versions: the grammar of Semantic Versioning 2.0.0 with an optional `v` in front and numbers of at
    most 64 bits.  Parsing accepts exactly these, and reads them as they are spelled. */
module SemVerGrammar {
  import opened Common
  import opened Bytes
  import opened SemVer

  // ---------- the grammar ----------

  ghost predicate Digit(c: Byte) { 48 <= c <= 57 }

  ghost predicate Letter(c: Byte) { 65 <= c <= 90 || 97 <= c <= 122 || c == 45 }

  /** A number of at most 64 bits without leading zeros. */
  ghost predicate Numeral(s: Text) {
    && |s| >= 1 && (forall i :: 0 <= i < |s| ==> Digit(s[i])) && (|s| > 1 ==> s[0] != 48)
    && AllDigits(s) && Decimal(s) <= 0xFFFF_FFFF_FFFF_FFFF
  }

  ghost predicate Identifier(s: Text) { |s| >= 1 && forall i :: 0 <= i < |s| ==> Digit(s[i]) || Letter(s[i]) }

  ghost predicate LeadingZero(s: Text) { |s| > 1 && s[0] == 48 && forall i :: 0 <= i < |s| ==> Digit(s[i]) }

  ghost predicate PreRelease(parts: seq<Text>) { forall i :: 0 <= i < |parts| ==> Identifier(parts[i]) && !LeadingZero(parts[i]) }

  ghost predicate Build(parts: seq<Text>) { forall i :: 0 <= i < |parts| ==> Identifier(parts[i]) }

  ghost function Marked(mark: Byte, parts: seq<Text>): Text { if parts == [] then [] else [mark] + Join(parts) }

  datatype Spelling = Spelling(major: Text, minor: Text, patch: Text, pre: seq<Text>, build: seq<Text>)

  ghost predicate Proper(w: Spelling) {
    Numeral(w.major) && Numeral(w.minor) && Numeral(w.patch) && PreRelease(w.pre) && Build(w.build)
  }

  ghost function TagsOfSpelling(w: Spelling): Text { Marked(45, w.pre) + Marked(43, w.build) }

  ghost function Spelled(w: Spelling): Text {
    w.major + ([46] + (w.minor + ([46] + (w.patch + TagsOfSpelling(w)))))
  }

  /** `raw` is the spelling, perhaps with a `v` in front. */
  ghost predicate Spells(raw: Text, w: Spelling) { Proper(w) && (raw == Spelled(w) || raw == [118] + Spelled(w)) }

  // ---------- splitting and joining ----------

  lemma {:induction false} JoinOfSplit(s: Text)
    ensures Join(Split(s)) == s
  {
    if s != [] {
      JoinOfSplit(s[1..]);
      var rest := Split(s[1..]);
      if s[0] == DOT {
        assert ([[]] + rest)[1..] == rest;
        assert Join([[]] + rest) == [] + [DOT] + Join(rest);
      } else {
        JoinHead(s[0], rest);
      }
    }
  }

  lemma JoinHead(c: Byte, parts: seq<Text>)
    requires parts != []
    ensures Join([[c] + parts[0]] + parts[1..]) == [c] + Join(parts)
  {
    var more := [[c] + parts[0]] + parts[1..];
    assert more[1..] == parts[1..];
    if |parts| == 1 { assert more == [[c] + parts[0]]; }
  }

  // ---------- identifiers ----------

  lemma IdentifierIsValid(s: Text)
    ensures ValidIdentifier(s, true) <==> Identifier(s) && !LeadingZero(s)
    ensures ValidIdentifier(s, false) <==> Identifier(s)
  {
  }

  lemma PartsAreValid(parts: seq<Text>)
    ensures PreRelease(parts) <==> forall i :: 0 <= i < |parts| ==> ValidIdentifier(parts[i], true)
    ensures Build(parts) <==> forall i :: 0 <= i < |parts| ==> ValidIdentifier(parts[i], false)
  {
    forall i | 0 <= i < |parts|
      ensures ValidIdentifier(parts[i], true) <==> Identifier(parts[i]) && !LeadingZero(parts[i])
      ensures ValidIdentifier(parts[i], false) <==> Identifier(parts[i])
    {
      IdentifierIsValid(parts[i]);
    }
  }

  lemma {:induction false} JoinedIsTag(parts: seq<Text>)
    requires parts != [] && Build(parts)
    ensures Join(parts) != [] && TagText(Join(parts))
  {
    assert Identifier(parts[0]);
    if |parts| > 1 {
      JoinedIsTag(parts[1..]);
      var rest := Join(parts[1..]);
      var all := parts[0] + [DOT] + rest;
      forall i | 0 <= i < |all| ensures IsTagChar(all[i]) {
        if i > |parts[0]| { assert all[i] == rest[i - |parts[0]| - 1]; }
      }
    }
  }

  lemma SplitOfJoined(parts: seq<Text>)
    requires parts != [] && Build(parts)
    ensures Split(Join(parts)) == parts
  {
    forall i | 0 <= i < |parts| ensures DotFree(parts[i]) { assert Identifier(parts[i]); }
    SplitOfJoin(parts);
  }

  // ---------- what is spelled parses ----------

  lemma NumeralReads(s: Text, rest: Text)
    requires Numeral(s) && (rest != [] ==> !IsDigit(rest[0]))
    ensures Number(s + rest) == Some((Decimal(s), rest))
    ensures NumberAfter(DOT, [46] + (s + rest)) == Some((Decimal(s), rest))
  {
    DigitRunOf(s, rest);
    assert (s + rest)[..|s|] == s && (s + rest)[|s|..] == rest;
    assert ([46] + (s + rest))[1..] == s + rest;
  }

  lemma {:induction false} TagRunStops(s: Text, rest: Text)
    requires TagText(s) && (rest != [] ==> !IsTagChar(rest[0]))
    ensures TagRun(s + rest) == |s|
  {
    if s == [] {
      assert s + rest == rest;
    } else {
      assert (s + rest)[1..] == s[1..] + rest;
      TagRunStops(s[1..], rest);
    }
  }

  lemma BuildReads(t: Text)
    requires t != [] && TagText(t)
    ensures Tags([43] + t) == Some(([], t))
  {
    TagRunOf(t);
    assert ([43] + t)[1..] == t;
  }

  lemma BothRead(p: Text, t: Text)
    requires p != [] && TagText(p) && t != [] && TagText(t)
    ensures Tags([45] + p + ([43] + t)) == Some((p, t))
  {
    var s := [45] + p + ([43] + t);
    assert s[1..] == p + ([43] + t);
    TagRunStops(p, [43] + t);
    TagRunOf(t);
    assert s[1 + |p|..] == [43] + t && s[1..1 + |p|] == p && ([43] + t)[1..] == t;
  }

  ghost function Joined(parts: seq<Text>): Text { if parts == [] then [] else Join(parts) }

  lemma TagsRead(w: Spelling)
    requires PreRelease(w.pre) && Build(w.build)
    ensures Tags(TagsOfSpelling(w)) == Some((Joined(w.pre), Joined(w.build)))
  {
    if w.pre != [] { JoinedIsTag(w.pre); }
    if w.build != [] { JoinedIsTag(w.build); }
    if w.pre == [] && w.build != [] {
      BuildReads(Join(w.build));
      assert TagsOfSpelling(w) == [43] + Join(w.build);
    } else if w.pre != [] && w.build == [] {
      TagsOfText(Join(w.pre));
      assert TagsOfSpelling(w) == [45] + Join(w.pre);
    } else if w.pre != [] {
      BothRead(Join(w.pre), Join(w.build));
    }
  }

  lemma IdentifiersRead(w: Spelling)
    requires PreRelease(w.pre) && Build(w.build)
    ensures ValidIdentifiers(Joined(w.pre), true) && ValidIdentifiers(Joined(w.build), false)
    ensures Joined(w.pre) == [] <==> w.pre == []
    ensures w.pre != [] ==> Split(Joined(w.pre)) == w.pre
  {
    PartsAreValid(w.pre);
    PartsAreValid(w.build);
    if w.pre != [] { JoinedIsTag(w.pre); SplitOfJoined(w.pre); }
    if w.build != [] { JoinedIsTag(w.build); SplitOfJoined(w.build); }
  }

  ghost function Meaning(w: Spelling): Version
    requires Proper(w)
  {
    Version(Decimal(w.major), Decimal(w.minor), Decimal(w.patch), w.pre)
  }

  lemma SpelledParses(w: Spelling)
    requires Proper(w)
    ensures ParseBody(Spelled(w)) == Some(Meaning(w))
  {
    var tags := TagsOfSpelling(w);
    var third := [46] + (w.patch + tags);
    var second := [46] + (w.minor + third);
    NumeralReads(w.major, second);
    NumeralReads(w.minor, third);
    NumeralReads(w.patch, tags);
    TagsRead(w);
    IdentifiersRead(w);
  }

  // ---------- what parses is spelled ----------

  lemma NumberSpells(s: Text) returns (digits: Text, rest: Text)
    requires Number(s).Some?
    ensures Numeral(digits) && s == digits + rest && Number(s).value == (Decimal(digits), rest)
  {
    var n := DigitRun(s);
    digits, rest := s[..n], s[n..];
  }

  lemma NextSpells(s: Text) returns (digits: Text, rest: Text)
    requires NumberAfter(DOT, s).Some?
    ensures Numeral(digits) && s == [46] + (digits + rest) && NumberAfter(DOT, s).value == (Decimal(digits), rest)
  {
    digits, rest := NumberSpells(s[1..]);
    assert s == [46] + s[1..];
  }

  lemma TagsSpell(s: Text)
    requires Tags(s).Some?
    ensures var (p, t) := Tags(s).value;
            s == (if p == [] then [] else [45] + p) + (if t == [] then [] else [43] + t)
  {
    if s != [] && s[0] == DASH {
      var n := TagRun(s[1..]);
      assert s == [45] + s[1..1 + n] + s[1 + n..];
      var rest := s[1 + n..];
      if rest != [] { assert rest == [43] + rest[1..]; }
    } else if s != [] {
      assert s == [43] + s[1..];
    }
  }

  ghost function PartsOf(t: Text): seq<Text> { if t == [] then [] else Split(t) }

  lemma PartsSpell(t: Text)
    requires ValidIdentifiers(t, true) || ValidIdentifiers(t, false)
    ensures ValidIdentifiers(t, true) ==> PreRelease(PartsOf(t))
    ensures ValidIdentifiers(t, false) ==> Build(PartsOf(t))
    ensures forall mark: Byte :: Marked(mark, PartsOf(t)) == if t == [] then [] else [mark] + t
  {
    PartsAreValid(PartsOf(t));
    JoinOfSplit(t);
  }

  lemma TailSpells(s: Text) returns (pre: seq<Text>, build: seq<Text>)
    requires Tags(s).Some? && ValidIdentifiers(Tags(s).value.0, true) && ValidIdentifiers(Tags(s).value.1, false)
    ensures PreRelease(pre) && Build(build) && s == Marked(45, pre) + Marked(43, build)
  {
    var tags := Tags(s).value;
    TagsSpell(s);
    PartsSpell(tags.0);
    PartsSpell(tags.1);
    pre, build := PartsOf(tags.0), PartsOf(tags.1);
  }

  lemma BodySpells(s: Text) returns (w: Spelling)
    requires ParseBody(s).Some?
    ensures Proper(w) && s == Spelled(w)
  {
    var major, afterMajor := NumberSpells(s);
    var minor, afterMinor := NextSpells(afterMajor);
    var patch, afterPatch := NextSpells(afterMinor);
    var pre, build := TailSpells(afterPatch);
    w := Spelling(major, minor, patch, pre, build);
  }

  lemma ParseSpells(raw: Text) returns (w: Spelling)
    requires Parse(raw).Some?
    ensures Spells(raw, w)
  {
    w := BodySpells(Body(raw));
    Prefixed(raw);
  }

  lemma Prefixed(raw: Text)
    ensures raw == Body(raw) || raw == [118] + Body(raw)
  {
  }

  lemma SpellingParses(raw: Text, w: Spelling)
    requires Spells(raw, w)
    ensures Parse(raw) == Some(([118] + Spelled(w), Meaning(w)))
  {
    SpelledParses(w);
    PrefixRead(raw, w);
  }

  /** A text parses exactly when it is spelled by the grammar, and then as it is spelled, build metadata aside. */
  lemma ParsesIff(raw: Text)
    ensures Parse(raw).Some? <==> exists w :: Spells(raw, w)
    ensures forall w :: Spells(raw, w) ==> Parse(raw) == Some(([118] + Spelled(w), Meaning(w)))
  {
    forall w | Spells(raw, w) ensures Parse(raw) == Some(([118] + Spelled(w), Meaning(w))) { SpellingParses(raw, w); }
    if Parse(raw).Some? { var w := ParseSpells(raw); }
  }

  lemma PrefixRead(raw: Text, w: Spelling)
    requires Spells(raw, w)
    ensures Body(raw) == Spelled(w)
  {
    assert Spelled(w)[0] == w.major[0];
    if raw != Spelled(w) { assert raw[1..] == Spelled(w); }
  }
}
