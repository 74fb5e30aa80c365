/** Byte strings: big-endian numbers, the order Go compares strings by, and sorting by a
    byte-string key. */
module Bytes {

  type Byte = b: int | 0 <= b < 256

  /** The bytes of an ASCII text. */
  function Ascii(s: string): (r: seq<Byte>)
    ensures |r| == |s|
  {
    seq(|s|, i requires 0 <= i < |s| => if s[i] < 128 as char then s[i] as int else 63)
  }

  // ---------- big-endian numbers ----------

  function Pow256(width: nat): (r: nat)
    ensures r > 0
  {
    if width == 0 then 1 else 256 * Pow256(width - 1)
  }

  /** The low `width` bytes of `n`, most significant first (binary.BigEndian.PutUintN). */
  function Be(n: nat, width: nat): (r: seq<Byte>)
    ensures |r| == width
  {
    if width == 0 then [] else Be(n / 256, width - 1) + [n % 256]
  }

  function FromBe(b: seq<Byte>): nat {
    if b == [] then 0 else 256 * FromBe(b[..|b| - 1]) + b[|b| - 1]
  }

  /** Reading back gives the number when it fits the width. */
  lemma {:induction false} FromBeOfBe(n: nat, width: nat)
    requires n < Pow256(width)
    ensures FromBe(Be(n, width)) == n
  {
    if width > 0 {
      FromBeOfBe(n / 256, width - 1);
      assert Be(n, width)[..width - 1] == Be(n / 256, width - 1);
    }
  }

  lemma {:induction false} BeOfFromBe(b: seq<Byte>)
    ensures FromBe(b) < Pow256(|b|)
    ensures Be(FromBe(b), |b|) == b
  {
    if b != [] {
      var front := b[..|b| - 1];
      BeOfFromBe(front);
      assert FromBe(b) / 256 == FromBe(front) && FromBe(b) % 256 == b[|b| - 1];
      assert b == front + [b[|b| - 1]];
    }
  }

  // ---------- lexicographic order ----------

  predicate Less(a: seq<Byte>, b: seq<Byte>) {
    b != [] && (a == [] || a[0] < b[0] || (a[0] == b[0] && Less(a[1..], b[1..])))
  }

  lemma {:induction false} LessTotal(a: seq<Byte>, b: seq<Byte>)
    ensures !(Less(a, b) && Less(b, a))
    ensures Less(a, b) || Less(b, a) || a == b
    ensures !Less(a, a)
  {
    if a != [] && b != [] {
      LessTotal(a[1..], b[1..]);
      assert a == [a[0]] + a[1..] && b == [b[0]] + b[1..];
    } else if a != [] {
      LessTotal(a[1..], []);
    }
  }

  lemma {:induction false} LessTransitive(a: seq<Byte>, b: seq<Byte>, c: seq<Byte>)
    requires Less(a, b) && Less(b, c)
    ensures Less(a, c)
  {
    if a != [] && a[0] == b[0] == c[0] {
      LessTransitive(a[1..], b[1..], c[1..]);
    }
  }

  // ---------- sorting by a key ----------

  ghost predicate AscendingBy<T(!new)>(s: seq<T>, key: T -> seq<Byte>) {
    forall i, j :: 0 <= i < j < |s| ==> Less(key(s[i]), key(s[j]))
  }

  predicate DistinctBy<T>(s: seq<T>, key: T -> seq<Byte>) {
    forall i, j :: 0 <= i < j < |s| ==> key(s[i]) != key(s[j])
  }

  function Insert<T>(x: T, s: seq<T>, key: T -> seq<Byte>): (r: seq<T>)
    ensures multiset(r) == multiset(s) + multiset{x}
    ensures |r| == |s| + 1
  {
    if s == [] then [x]
    else if Less(key(x), key(s[0])) then [x] + s
    else
      assert s == [s[0]] + s[1..];
      [s[0]] + Insert(x, s[1..], key)
  }

  /** A sorted permutation (sort.Strings, sort.Slice). */
  function SortBy<T>(s: seq<T>, key: T -> seq<Byte>): (r: seq<T>)
    ensures multiset(r) == multiset(s)
    ensures |r| == |s|
  {
    if s == [] then []
    else
      assert s == [s[0]] + s[1..];
      Insert(s[0], SortBy(s[1..], key), key)
  }

  lemma MemberIndex<T>(s: seq<T>, x: T) returns (i: nat)
    requires x in multiset(s)
    ensures i < |s| && s[i] == x
  {
    i :| 0 <= i < |s| && s[i] == x;
  }

  lemma AscendingCons<T(!new)>(x: T, s: seq<T>, key: T -> seq<Byte>)
    requires AscendingBy(s, key) && forall j :: 0 <= j < |s| ==> Less(key(x), key(s[j]))
    ensures AscendingBy([x] + s, key)
  {
  }

  lemma BelowAll<T(!new)>(x: T, s: seq<T>, key: T -> seq<Byte>)
    requires AscendingBy(s, key) && s != [] && Less(key(x), key(s[0]))
    ensures forall j :: 0 <= j < |s| ==> Less(key(x), key(s[j]))
  {
    forall j | 0 <= j < |s| ensures Less(key(x), key(s[j])) {
      if j > 0 { LessTransitive(key(x), key(s[0]), key(s[j])); }
    }
  }

  lemma {:induction false} InsertAscending<T(!new)>(x: T, s: seq<T>, key: T -> seq<Byte>)
    requires AscendingBy(s, key)
    requires forall i :: 0 <= i < |s| ==> key(s[i]) != key(x)
    ensures AscendingBy(Insert(x, s, key), key)
  {
    if s != [] {
      LessTotal(key(x), key(s[0]));
      if Less(key(x), key(s[0])) {
        BelowAll(x, s, key);
        AscendingCons(x, s, key);
      } else {
        InsertAscending(x, s[1..], key);
        var rest := Insert(x, s[1..], key);
        forall j | 0 <= j < |rest| ensures Less(key(s[0]), key(rest[j])) {
          assert rest[j] in multiset(rest);
          if rest[j] != x { var i := MemberIndex(s[1..], rest[j]); }
        }
        AscendingCons(s[0], rest, key);
      }
    }
  }

  lemma {:induction false} SortByAscending<T(!new)>(s: seq<T>, key: T -> seq<Byte>)
    requires DistinctBy(s, key)
    ensures AscendingBy(SortBy(s, key), key)
  {
    if s != [] {
      SortByAscending(s[1..], key);
      var rest := SortBy(s[1..], key);
      forall i | 0 <= i < |rest| ensures key(rest[i]) != key(s[0]) {
        assert rest[i] in multiset(rest);
        var k := MemberIndex(s[1..], rest[i]);
      }
      InsertAscending(s[0], rest, key);
    }
  }

  lemma HeadIsLeast<T(!new)>(s: seq<T>, x: T, key: T -> seq<Byte>)
    requires AscendingBy(s, key) && x in multiset(s)
    ensures x == s[0] || Less(key(s[0]), key(x))
  {
    var i := MemberIndex(s, x);
  }

  lemma SameHead<T(!new)>(a: seq<T>, b: seq<T>, key: T -> seq<Byte>)
    requires AscendingBy(a, key) && AscendingBy(b, key) && multiset(a) == multiset(b) && a != [] && b != []
    ensures a[0] == b[0]
  {
    assert a[0] in multiset(a) && b[0] in multiset(b);
    HeadIsLeast(b, a[0], key);
    HeadIsLeast(a, b[0], key);
    LessTotal(key(a[0]), key(b[0]));
  }

  lemma SameTails<T>(a: seq<T>, b: seq<T>)
    requires multiset(a) == multiset(b) && a != [] && b != [] && a[0] == b[0]
    ensures multiset(a[1..]) == multiset(b[1..])
  {
    assert a == [a[0]] + a[1..] && b == [b[0]] + b[1..];
    assert multiset(a[1..]) == multiset(a) - multiset{a[0]};
    assert multiset(b[1..]) == multiset(b) - multiset{b[0]};
  }

  /** A strictly ascending list is the only one of its members. */
  lemma {:induction false} AscendingUnique<T(!new)>(a: seq<T>, b: seq<T>, key: T -> seq<Byte>)
    requires AscendingBy(a, key) && AscendingBy(b, key) && multiset(a) == multiset(b)
    ensures a == b
  {
    assert |a| == |multiset(a)| && |b| == |multiset(b)|;
    if a != [] {
      SameHead(a, b, key);
      SameTails(a, b);
      AscendingUnique(a[1..], b[1..], key);
      assert a == [a[0]] + a[1..] && b == [b[0]] + b[1..];
    }
  }

  lemma OnceInDistinct<T(!new)>(s: seq<T>, m: nat, key: T -> seq<Byte>)
    requires DistinctBy(s, key) && m < |s|
    ensures multiset(s)[s[m]] == 1
  {
    assert s == s[..m] + [s[m]] + s[m + 1..];
    assert s[m] !in s[..m] && s[m] !in s[m + 1..];
  }

  lemma TwiceAtTwoIndices<T>(s: seq<T>, i: nat, j: nat)
    requires i < j < |s| && s[i] == s[j]
    ensures multiset(s)[s[i]] >= 2
  {
    assert s == s[..i] + [s[i]] + s[i + 1..j] + [s[j]] + s[j + 1..];
  }

  lemma DistinctOfPermutation<T(!new)>(a: seq<T>, b: seq<T>, key: T -> seq<Byte>)
    requires DistinctBy(a, key) && multiset(a) == multiset(b)
    ensures DistinctBy(b, key)
  {
    forall i, j | 0 <= i < j < |b| ensures key(b[i]) != key(b[j]) {
      assert b[i] in multiset(a) && b[j] in multiset(a);
      var m := MemberIndex(a, b[i]);
      var n := MemberIndex(a, b[j]);
      OnceInDistinct(a, m, key);
      if b[i] == b[j] { TwiceAtTwoIndices(b, i, j); }
    }
  }

  /** Sorting by distinct keys forgets the order of its input. */
  lemma SortByPermutation<T(!new)>(a: seq<T>, b: seq<T>, key: T -> seq<Byte>)
    requires DistinctBy(a, key) && multiset(a) == multiset(b)
    ensures SortBy(a, key) == SortBy(b, key)
  {
    DistinctOfPermutation(a, b, key);
    SortByAscending(a, key);
    SortByAscending(b, key);
    AscendingUnique(SortBy(a, key), SortBy(b, key), key);
  }

  /** A list already in order is left alone. */
  lemma SortByIdempotent<T(!new)>(s: seq<T>, key: T -> seq<Byte>)
    requires AscendingBy(s, key)
    ensures SortBy(s, key) == s
  {
    forall i, j | 0 <= i < j < |s| ensures key(s[i]) != key(s[j]) {
      LessTotal(key(s[i]), key(s[j]));
    }
    SortByAscending(s, key);
    AscendingUnique(SortBy(s, key), s, key);
  }
}
