/** Version numbers of a definition: version 1 starts it, every other one stands on the version below, so the
    numbers run from 1 to the head without gap or repeat.  Both publication pipelines number this way. */
module VersionTree {
  import opened Common

  /** What numbering sees of a version: whether its submission was an initial one, and if not the base it named. */
  datatype Node = Node(definition: Uuid, number: nat, initial: bool, base: Uuid)

  type Tree = map<Uuid, Node>

  ghost predicate IsVersion(t: Tree, d: Uuid, k: int, v: Uuid) {
    v in t && t[v].definition == d && t[v].number == k
  }

  ghost predicate HasVersion(t: Tree, d: Uuid, k: int) {
    exists v :: IsVersion(t, d, k, v)
  }

  ghost predicate Descends(t: Tree, d: Uuid, k: int, v: Uuid)
    requires IsVersion(t, d, k, v)
  {
    if k == 1 then t[v].initial else !t[v].initial && IsVersion(t, d, k - 1, t[v].base)
  }

  ghost predicate NodeOk(t: Tree, v: Uuid)
    requires v in t
  {
    && t[v].number >= 1
    && if t[v].initial then t[v].number == 1
       else t[v].base in t && t[t[v].base].definition == t[v].definition && t[t[v].base].number + 1 == t[v].number
  }

  ghost predicate TreeOk(t: Tree) {
    && (forall v {:trigger NodeOk(t, v)} :: v in t ==> NodeOk(t, v))
    && (forall v, w :: v in t && w in t && v != w && t[v].definition == t[w].definition ==> t[v].number != t[w].number)
  }

  /** Versions 1..n, each once, each on the one below. */
  ghost predicate Numbered(t: Tree, d: Uuid, n: int) {
    && (forall k :: HasVersion(t, d, k) <==> 1 <= k <= n)
    && (forall k, v, w :: IsVersion(t, d, k, v) && IsVersion(t, d, k, w) ==> v == w)
    && (forall k, v {:trigger Descends(t, d, k, v)} :: IsVersion(t, d, k, v) ==> Descends(t, d, k, v))
  }

  lemma {:induction false} VersionBelow(t: Tree, v: Uuid, k: nat) returns (w: Uuid)
    requires TreeOk(t) && v in t && 1 <= k <= t[v].number
    ensures IsVersion(t, t[v].definition, k, w)
    decreases t[v].number
  {
    if k == t[v].number {
      w := v;
    } else {
      assert NodeOk(t, v);
      w := VersionBelow(t, t[v].base, k);
    }
  }

  /** `n` is the number of the head, or 0 where there is none. */
  lemma NumberedToHead(t: Tree, d: Uuid, n: nat, head: Uuid)
    requires TreeOk(t) && forall v :: v in t && t[v].definition == d ==> t[v].number <= n
    requires n > 0 ==> IsVersion(t, d, n, head)
    ensures Numbered(t, d, n)
  {
    forall k, v | IsVersion(t, d, k, v) ensures 1 <= k <= n && Descends(t, d, k, v) {
      assert NodeOk(t, v);
      if !t[v].initial { assert NodeOk(t, t[v].base); }
    }
    forall k | 1 <= k <= n ensures HasVersion(t, d, k) {
      var w := VersionBelow(t, head, k);
    }
  }
}
