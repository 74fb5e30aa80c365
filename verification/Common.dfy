/** Types shared by the state machines: identifiers, time, optional values and
    the outcome of a database transaction. */
module Common {

  /** A UUID, ordered as its sixteen bytes read as one big-endian number. */
  type Uuid = nat
  const NIL: Uuid := 0

  /** A clock reading, in nanoseconds since the Unix epoch. */
  type Time = int

  /** Go's zero time, the first instant of year 1. */
  const ZERO_TIME: Time := -62_135_596_800_000_000_000

  datatype Option<+T> = None | Some(value: T)

  /** What a transaction answers: a value, or the error it was abandoned with. */
  datatype Outcome<+T, +E> = Ok(value: T) | Err(error: E) {
    predicate IsFailure() { Err? }
    function PropagateFailure<U>(): Outcome<U, E>
      requires Err?
    {
      Err(error)
    }
    function Extract(): T
      requires Ok?
    {
      value
    }
  }

  /** A guard inside a transaction. */
  datatype Check<+E> = Pass | Fail(error: E) {
    predicate IsFailure() { Fail? }
    function PropagateFailure<U>(): Outcome<U, E>
      requires Fail?
    {
      Err(error)
    }
  }

  function Need<E>(condition: bool, error: E): Check<E> {
    if condition then Pass else Fail(error)
  }

  /** Rows are added, never changed or removed. */
  ghost predicate Grows<K, V>(m: map<K, V>, n: map<K, V>) {
    forall k :: k in m ==> k in n && n[k] == m[k]
  }

  // ---------- what the steps of a run add up to ----------

  /** The union of the sets from `i` up to `j`. */
  ghost function Gather(sets: seq<set<Uuid>>, i: nat, j: nat): set<Uuid>
    requires i <= j <= |sets|
  {
    if i == j then {} else Gather(sets, i, j - 1) + sets[j - 1]
  }

  lemma {:induction false} GatherGrows(sets: seq<set<Uuid>>, i: nat, k: nat, j: nat)
    requires i <= k <= j <= |sets|
    ensures Gather(sets, i, k) <= Gather(sets, i, j)
    decreases j
  {
    if k < j { GatherGrows(sets, i, k, j - 1); }
  }

  lemma {:induction false} GatherFirst(sets: seq<set<Uuid>>, i: nat, j: nat)
    requires i < j <= |sets|
    ensures Gather(sets, i, j) == sets[i] + Gather(sets, i + 1, j)
    decreases j
  {
    if j > i + 1 { GatherFirst(sets, i, j - 1); } else { assert Gather(sets, i, i) == {}; }
  }

  lemma {:induction false} GatheredAt(sets: seq<set<Uuid>>, i: nat, j: nat, x: Uuid) returns (k: nat)
    requires i <= j <= |sets| && x in Gather(sets, i, j)
    ensures i <= k < j && x in sets[k]
    decreases j
  {
    if x in sets[j - 1] { k := j - 1; } else { k := GatheredAt(sets, i, j - 1, x); }
  }

  // ---------- identifiers in ascending order (ORDER BY id) ----------

  predicate StrictlyAscending(ids: seq<Uuid>) {
    forall i, j :: 0 <= i < j < |ids| ==> ids[i] < ids[j]
  }

  lemma {:induction false} LeastExists(ids: set<Uuid>)
    requires ids != {}
    ensures exists m :: m in ids && forall x :: x in ids ==> m <= x
  {
    var y :| y in ids;
    var smaller := set x | x in ids && x < y;
    if smaller == {} {
      forall x | x in ids ensures y <= x {
        assert x < y ==> x in smaller;
      }
    } else {
      assert y !in smaller;
      LeastExists(smaller);
      var m :| m in smaller && forall x :: x in smaller ==> m <= x;
      forall x | x in ids ensures m <= x {
        assert x < y ==> x in smaller;
      }
    }
  }

  function Least(ids: set<Uuid>): (m: Uuid)
    requires ids != {}
    ensures m in ids && forall x :: x in ids ==> m <= x
  {
    LeastExists(ids);
    var m :| m in ids && forall x :: x in ids ==> m <= x;
    m
  }

  /** The members of a set, in ascending order. */
  function Ascending(ids: set<Uuid>): seq<Uuid> {
    if ids == {} then [] else [Least(ids)] + Ascending(ids - {Least(ids)})
  }

  function Members(ids: seq<Uuid>): (r: set<Uuid>)
    ensures forall x :: x in r <==> x in ids
  {
    set x | x in ids
  }

  lemma {:induction false} AscendingMembers(ids: set<Uuid>)
    ensures Members(Ascending(ids)) == ids
  {
    if ids != {} {
      AscendingMembers(ids - {Least(ids)});
      assert forall x :: x in Ascending(ids) <==> x == Least(ids) || x in Ascending(ids - {Least(ids)});
    }
  }

  lemma {:induction false} AscendingSorted(ids: set<Uuid>)
    ensures StrictlyAscending(Ascending(ids))
  {
    if ids != {} {
      var rest := ids - {Least(ids)};
      AscendingSorted(rest);
      AscendingMembers(rest);
      assert forall j :: 0 <= j < |Ascending(rest)| ==> Ascending(rest)[j] in Members(Ascending(rest));
    }
  }

  /** An ascending list is rebuilt exactly from its set of members. */
  lemma {:induction false} AscendingOfMembers(ids: seq<Uuid>)
    requires StrictlyAscending(ids)
    ensures Ascending(Members(ids)) == ids
  {
    if ids != [] {
      var rest := ids[1..];
      AscendingOfMembers(rest);
      MembersOfCons(ids);
      assert ids == [ids[0]] + rest;
    }
  }

  lemma MembersOfCons(ids: seq<Uuid>)
    requires ids != [] && StrictlyAscending(ids)
    ensures ids[0] in Members(ids) && Least(Members(ids)) == ids[0]
    ensures Members(ids) - {ids[0]} == Members(ids[1..])
  {
    assert ids[0] in Members(ids);
    forall x | x in ids ensures ids[0] <= x {}
    forall x | x in Members(ids) - {ids[0]} ensures x in ids[1..] {
      var i :| 0 <= i < |ids| && ids[i] == x;
      assert ids[1..][i - 1] == x;
    }
    forall x | x in ids[1..] ensures x in ids && x != ids[0] {
      var i :| 0 <= i < |ids[1..]| && ids[1..][i] == x;
      assert ids[i + 1] == x;
    }
  }
}
