/** Canonical lists: every item acceptable, no two with the same key, sorted by key.  The order the
    items came in leaves no trace, and a canonical list is its own canonical form. */
module CanonicalList {
  import opened Common
  import opened Bytes

  function Map<S, T>(f: S -> T, s: seq<S>): (r: seq<T>)
    ensures |r| == |s| && forall i :: 0 <= i < |s| ==> r[i] == f(s[i])
  {
    seq(|s|, i requires 0 <= i < |s| => f(s[i]))
  }

  predicate All<S>(s: seq<S>, ok: S -> bool) {
    forall i :: 0 <= i < |s| ==> ok(s[i])
  }

  function Canon<S, T>(items: seq<S>, ok: S -> bool, conv: S -> T, key: T -> seq<Byte>): Option<seq<T>> {
    if All(items, ok) && DistinctBy(Map(conv, items), key) then Some(SortBy(Map(conv, items), key)) else None
  }

  // ---------- permutations ----------

  ghost predicate Permutes<T>(a: seq<T>, b: seq<T>) { multiset(a) == multiset(b) }

  lemma AllOfPermutation<S>(a: seq<S>, b: seq<S>, ok: S -> bool)
    requires Permutes(a, b)
    ensures All(a, ok) ==> All(b, ok)
  {
    if All(a, ok) {
      forall i | 0 <= i < |b| ensures ok(b[i]) {
        assert b[i] in multiset(a);
        var k := MemberIndex(a, b[i]);
      }
    }
  }

  lemma Without<T>(s: seq<T>, k: nat)
    requires k < |s|
    ensures multiset(s[..k] + s[k + 1..]) == multiset(s) - multiset{s[k]}
  {
    assert s == s[..k] + [s[k]] + s[k + 1..];
  }

  /** Taking an item out of a list takes its image out of the mapped list. */
  lemma MapWithout<S, T>(f: S -> T, s: seq<S>, k: nat)
    requires k < |s|
    ensures multiset(Map(f, s)) == multiset(Map(f, s[..k] + s[k + 1..])) + multiset{f(s[k])}
  {
    assert Map(f, s[..k] + s[k + 1..]) == Map(f, s)[..k] + Map(f, s)[k + 1..];
    Without(Map(f, s), k);
    assert Map(f, s)[k] in multiset(Map(f, s));
  }

  lemma MapHead<S, T>(f: S -> T, s: seq<S>)
    requires s != []
    ensures multiset(Map(f, s)) == multiset(Map(f, s[1..])) + multiset{f(s[0])}
  {
    assert Map(f, s) == [f(s[0])] + Map(f, s[1..]);
  }

  /** Where the first item of one list stands in the other, and that the rest still agree. */
  lemma FindHead<T>(a: seq<T>, b: seq<T>) returns (k: nat)
    requires Permutes(a, b) && a != []
    ensures k < |b| && b[k] == a[0] && Permutes(a[1..], b[..k] + b[k + 1..])
  {
    assert a[0] in multiset(b);
    k := MemberIndex(b, a[0]);
    Without(b, k);
    assert a == [a[0]] + a[1..];
    assert multiset(a[1..]) == multiset(a) - multiset{a[0]};
  }

  lemma {:induction false} MapPermutes<S, T>(f: S -> T, a: seq<S>, b: seq<S>)
    requires Permutes(a, b)
    ensures Permutes(Map(f, a), Map(f, b))
  {
    assert |a| == |multiset(a)| && |b| == |multiset(b)|;
    if a != [] {
      var k := FindHead(a, b);
      MapPermutes(f, a[1..], b[..k] + b[k + 1..]);
      MapHead(f, a);
      MapWithout(f, b, k);
    }
  }

  /** The canonical form, accepted or not, is the same for every order of the items. */
  lemma CanonPermutes<S(!new), T(!new)>(a: seq<S>, b: seq<S>, ok: S -> bool, conv: S -> T, key: T -> seq<Byte>)
    requires Permutes(a, b)
    ensures Canon(a, ok, conv, key) == Canon(b, ok, conv, key)
  {
    AllOfPermutation(a, b, ok);
    AllOfPermutation(b, a, ok);
    MapPermutes(conv, a, b);
    var x, y := Map(conv, a), Map(conv, b);
    if DistinctBy(x, key) {
      DistinctOfPermutation(x, y, key);
      SortByPermutation(x, y, key);
    } else if DistinctBy(y, key) {
      DistinctOfPermutation(y, x, key);
    }
  }

  /** Items that are accepted alike and convert alike have the same canonical form. */
  lemma CanonPointwise<S, T>(a: seq<S>, b: seq<S>, ok: S -> bool, conv: S -> T, key: T -> seq<Byte>)
    requires |a| == |b| && forall i :: 0 <= i < |a| ==> ok(a[i]) == ok(b[i]) && (ok(a[i]) ==> conv(a[i]) == conv(b[i]))
    ensures Canon(a, ok, conv, key) == Canon(b, ok, conv, key)
  {
    assert All(a, ok) == All(b, ok);
    if All(a, ok) { assert Map(conv, a) == Map(conv, b); }
  }

  // ---------- idempotence ----------

  lemma CanonAscending<S(!new), T(!new)>(items: seq<S>, ok: S -> bool, conv: S -> T, key: T -> seq<Byte>)
    requires Canon(items, ok, conv, key).Some?
    ensures AscendingBy(Canon(items, ok, conv, key).value, key)
    ensures multiset(Canon(items, ok, conv, key).value) == multiset(Map(conv, items))
  {
    assert DistinctBy(Map(conv, items), key);
    SortByAscending(Map(conv, items), key);
  }

  lemma AscendingDistinct<T(!new)>(s: seq<T>, key: T -> seq<Byte>)
    requires AscendingBy(s, key)
    ensures DistinctBy(s, key)
  {
    forall i, j | 0 <= i < j < |s| ensures key(s[i]) != key(s[j]) { LessTotal(key(s[i]), key(s[j])); }
  }

  /** An ascending list whose members convert back to themselves is accepted as it is. */
  lemma CanonFixed<S(!new), T(!new)>(r: seq<T>, back: T -> S, ok: S -> bool, conv: S -> T, key: T -> seq<Byte>)
    requires AscendingBy(r, key)
    requires forall i :: 0 <= i < |r| ==> ok(back(r[i])) && conv(back(r[i])) == r[i]
    ensures Canon(Map(back, r), ok, conv, key) == Some(r)
  {
    assert Map(conv, Map(back, r)) == r;
    AscendingDistinct(r, key);
    SortByIdempotent(r, key);
  }

  /** Every member of a canonical list comes from an accepted item. */
  lemma CanonMember<S(!new), T(!new)>(items: seq<S>, ok: S -> bool, conv: S -> T, key: T -> seq<Byte>, i: nat) returns (k: nat)
    requires Canon(items, ok, conv, key).Some? && i < |Canon(items, ok, conv, key).value|
    ensures k < |items| && ok(items[k]) && conv(items[k]) == Canon(items, ok, conv, key).value[i]
  {
    var r := Canon(items, ok, conv, key).value;
    assert r[i] in multiset(r) && multiset(r) == multiset(Map(conv, items));
    k := MemberIndex(Map(conv, items), r[i]);
  }

  /** Every item is found in the canonical list. */
  lemma CanonCovers<S(!new), T(!new)>(items: seq<S>, ok: S -> bool, conv: S -> T, key: T -> seq<Byte>, k: nat) returns (i: nat)
    requires Canon(items, ok, conv, key).Some? && k < |items|
    ensures i < |Canon(items, ok, conv, key).value| && Canon(items, ok, conv, key).value[i] == conv(items[k])
  {
    var r := Canon(items, ok, conv, key).value;
    assert Map(conv, items)[k] in multiset(Map(conv, items)) && multiset(r) == multiset(Map(conv, items));
    i := MemberIndex(r, conv(items[k]));
  }

  // ---------- keys ----------

  ghost function KeySet<T(!new)>(s: seq<T>, key: T -> seq<Byte>): set<seq<Byte>> {
    set i | 0 <= i < |s| :: key(s[i])
  }

  lemma KeySetSnoc<T(!new)>(s: seq<T>, key: T -> seq<Byte>)
    requires s != []
    ensures KeySet(s, key) == KeySet(s[..|s| - 1], key) + {key(s[|s| - 1])}
  {
    var front := s[..|s| - 1];
    forall k | k in KeySet(s, key) ensures k in KeySet(front, key) + {key(s[|s| - 1])} {
      var i :| 0 <= i < |s| && key(s[i]) == k;
      if i < |s| - 1 { assert key(front[i]) == k; }
    }
    forall k | k in KeySet(front, key) ensures k in KeySet(s, key) {
      var i :| 0 <= i < |front| && key(front[i]) == k;
      assert key(s[i]) == k;
    }
  }

  /** A list with distinct keys has as many keys as items. */
  lemma {:induction false} KeyCount<T(!new)>(s: seq<T>, key: T -> seq<Byte>)
    requires DistinctBy(s, key)
    ensures |KeySet(s, key)| == |s|
  {
    if s == [] {
      assert KeySet(s, key) == {};
    } else {
      var front := s[..|s| - 1];
      KeyCount(front, key);
      KeySetSnoc(s, key);
      assert key(s[|s| - 1]) !in KeySet(front, key);
    }
  }
}
