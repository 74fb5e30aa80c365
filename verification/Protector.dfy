/** The administrative protector: a key ring and the message framing every digest is taken over
    (internal/admin/protector.go). */
module Protector {
  import opened Common
  import opened Bytes

  type KeyId = seq<Byte>

  /** HMAC-SHA-256 under one key, as a function of the message. */
  type Mac = seq<Byte> -> seq<Byte>

  datatype Key = Key(material: seq<Byte>, mac: Mac)

  datatype Ring = Ring(active: KeyId, keys: map<KeyId, Key>, order: seq<KeyId>)

  /** All that is known of a digest is its length. */
  ghost predicate Sized(key: Key) {
    forall m :: |key.mac(m)| == 32
  }

  ghost predicate SizedRing(ring: Ring) {
    forall id {:trigger Sized(ring.keys[id])} :: id in ring.keys ==> Sized(ring.keys[id])
  }

  datatype RingError = InvalidKeyRing | ActiveKeyUnavailable

  // ---------- the key ring ----------

  predicate Alphanumeric(c: Byte) {
    'A' as int <= c <= 'Z' as int || 'a' as int <= c <= 'z' as int || '0' as int <= c <= '9' as int
  }

  predicate ValidKeyId(id: KeyId) {
    && 1 <= |id| <= 64 && Alphanumeric(id[0])
    && forall i :: 1 <= i < |id| ==> Alphanumeric(id[i]) || id[i] in {'.' as int, '_' as int, '-' as int}
  }

  function Self(id: KeyId): seq<Byte> { id }

  /** The active key first, every other key once, in ascending order. */
  ghost predicate IsOrder(order: seq<KeyId>, active: KeyId, ids: set<KeyId>) {
    && order != [] && order[0] == active
    && AscendingBy(order[1..], Self)
    && active !in order[1..]
    && (forall id :: id in order <==> id in ids)
  }

  ghost predicate ValidRing(r: Ring) {
    && IsOrder(r.order, r.active, r.keys.Keys)
    && UsableKeys(r.keys)
  }

  /** The order is a function of the key set and the active key. */
  lemma OrderUnique(a: seq<KeyId>, b: seq<KeyId>, active: KeyId, ids: set<KeyId>)
    requires IsOrder(a, active, ids) && IsOrder(b, active, ids)
    ensures a == b
  {
    forall id ensures id in a[1..] <==> id in b[1..] {
      assert a == [active] + a[1..] && b == [active] + b[1..];
      assert id in a <==> id in b;
    }
    SameMembersSameOrder(a[1..], b[1..]);
    assert a == [active] + a[1..] && b == [active] + b[1..];
  }

  lemma SameMembersSameOrder(a: seq<KeyId>, b: seq<KeyId>)
    requires AscendingBy(a, Self) && AscendingBy(b, Self)
    requires forall id :: id in a <==> id in b
    ensures a == b
  {
    AscendingOnce(a);
    AscendingOnce(b);
    forall id ensures multiset(a)[id] == multiset(b)[id] {
      assert id in a <==> id in multiset(a);
      assert id in b <==> id in multiset(b);
    }
    assert multiset(a) == multiset(b);
    AscendingUnique(a, b, Self);
  }

  lemma AscendingOnce(s: seq<KeyId>)
    requires AscendingBy(s, Self)
    ensures forall id :: id in s ==> multiset(s)[id] == 1
    ensures DistinctBy(s, Self)
  {
    forall i, j | 0 <= i < j < |s| ensures Self(s[i]) != Self(s[j]) { LessTotal(s[i], s[j]); }
    forall id | id in s ensures multiset(s)[id] == 1 {
      var m :| 0 <= m < |s| && s[m] == id;
      OnceInDistinct(s, m, Self);
    }
  }

  predicate UsableKey(id: KeyId, key: Key) {
    ValidKeyId(id) && |key.material| == 32
  }

  ghost predicate UsableKeys(keys: map<KeyId, Key>) {
    forall id {:trigger UsableKey(id, keys[id])} :: id in keys ==> UsableKey(id, keys[id])
  }

  /** The keys other than the active one, in the order the map happens to be walked; none if a key is unusable. */
  method CollectKeys(active: KeyId, keys: map<KeyId, Key>) returns (r: Option<seq<KeyId>>)
    ensures r.Some? <==> UsableKeys(keys)
    ensures r.Some? ==> DistinctBy(r.value, Self)
    ensures r.Some? ==> forall id :: id in r.value <==> id in keys && id != active
  {
    var todo := keys.Keys;
    var ordered: seq<KeyId> := [];
    while todo != {}
      invariant todo <= keys.Keys
      invariant forall id {:trigger UsableKey(id, keys[id])} :: id in keys && id !in todo ==> UsableKey(id, keys[id])
      invariant forall id :: id in ordered <==> id in keys && id !in todo && id != active
      invariant DistinctBy(ordered, Self)
      decreases todo
    {
      var id :| id in todo;
      if !UsableKey(id, keys[id]) { return None; }
      if id != active { ordered := ordered + [id]; }
      todo := todo - {id};
    }
    return Some(ordered);
  }

  /** Whatever order the map is walked in, the same ring or the same error comes out. */
  method NewProtector(active: KeyId, keys: map<KeyId, Key>) returns (r: Outcome<Ring, RingError>)
    ensures r.Ok? <==> ValidKeyId(active) && UsableKeys(keys) && active in keys
    ensures r.Ok? ==> ValidRing(r.value) && r.value.active == active && r.value.keys == keys
    ensures r == Err(ActiveKeyUnavailable) <==> ValidKeyId(active) && keys.Keys != {} && UsableKeys(keys) && active !in keys
  {
    if !ValidKeyId(active) || keys.Keys == {} { return Err(InvalidKeyRing); }
    var others := CollectKeys(active, keys);
    if others.None? { return Err(InvalidKeyRing); }
    if active !in keys { return Err(ActiveKeyUnavailable); }
    SortedIsOrder(active, others.value, keys.Keys);
    return Ok(Ring(active, keys, [active] + SortBy(others.value, Self)));
  }

  lemma SortedIsOrder(active: KeyId, others: seq<KeyId>, ids: set<KeyId>)
    requires DistinctBy(others, Self) && active in ids
    requires forall id :: id in others <==> id in ids && id != active
    ensures IsOrder([active] + SortBy(others, Self), active, ids)
  {
    SortByAscending(others, Self);
    var sorted := SortBy(others, Self);
    forall id ensures id in sorted <==> id in others { SortedMembers(others, sorted, id); }
    assert ([active] + sorted)[1..] == sorted;
    forall id ensures id in [active] + sorted <==> id in ids { assert id in sorted <==> id in others; }
  }

  lemma SortedMembers(a: seq<KeyId>, b: seq<KeyId>, id: KeyId)
    requires multiset(a) == multiset(b)
    ensures id in a <==> id in b
  {
    assert id in a <==> id in multiset(a);
    assert id in b <==> id in multiset(b);
  }

  /** The key that is active in one ring is held unchanged by the other. */
  ghost predicate Keeps(a: Ring, b: Ring) {
    a.active in a.keys && a.active in b.keys && b.keys[a.active] == a.keys[a.active]
  }

  // ---------- framing ----------

  function IdempotencyDomain(): seq<Byte> { Ascii("aera-cloud.admin.idempotency.v1") }
  function RequestDomain(): seq<Byte> { Ascii("aera-cloud.admin.request.v1") }
  function CursorDomain(): seq<Byte> { Ascii("aera-cloud.admin.cursor.v1") }

  const FIELD_LIMIT: nat := 0x1_0000_0000

  function Fields(fields: seq<seq<Byte>>): seq<Byte> {
    if fields == [] then [] else Be(|fields[0]|, 4) + fields[0] + Fields(fields[1..])
  }

  /** What protectedDigest feeds its MAC. */
  function Message(domain: seq<Byte>, fields: seq<seq<Byte>>): seq<Byte> {
    domain + [0] + Fields(fields)
  }

  lemma {:induction false} FieldsAppend(fields: seq<seq<Byte>>, last: seq<Byte>)
    ensures Fields(fields + [last]) == Fields(fields) + Be(|last|, 4) + last
  {
    if fields == [] {
      assert ([last])[1..] == [];
    } else {
      FieldsAppend(fields[1..], last);
      assert (fields + [last])[1..] == fields[1..] + [last];
    }
  }

  lemma MessageStep(domain: seq<Byte>, fields: seq<seq<Byte>>, i: nat)
    requires i < |fields|
    ensures Message(domain, fields[..i + 1]) == Message(domain, fields[..i]) + Be(|fields[i]|, 4) + fields[i]
  {
    assert fields[..i + 1] == fields[..i] + [fields[i]];
    FieldsAppend(fields[..i], fields[i]);
  }

  method ProtectedDigest(mac: Mac, domain: seq<Byte>, fields: seq<seq<Byte>>) returns (sum: seq<Byte>)
    ensures sum == mac(Message(domain, fields))
  {
    var written := domain + [0];
    for i := 0 to |fields|
      invariant written == Message(domain, fields[..i])
    {
      MessageStep(domain, fields, i);
      written := written + Be(|fields[i]|, 4);
      written := written + fields[i];
    }
    assert fields[..|fields|] == fields;
    sum := mac(written);
  }

  ghost predicate FieldsBelow(fields: seq<seq<Byte>>, bound: nat) {
    forall i :: 0 <= i < |fields| ==> |fields[i]| < bound
  }

  lemma {:induction false} FieldsInjective(a: seq<seq<Byte>>, b: seq<seq<Byte>>)
    requires FieldsBelow(a, FIELD_LIMIT) && FieldsBelow(b, FIELD_LIMIT)
    requires Fields(a) == Fields(b)
    ensures a == b
  {
    if a != [] { FieldsNonEmpty(a); }
    if b != [] { FieldsNonEmpty(b); }
    if a != [] && b != [] {
      LengthPrefix(a, b);
      var n := 4 + |a[0]|;
      assert a[0] == Fields(a)[4..n] == Fields(b)[4..n] == b[0];
      assert Fields(a[1..]) == Fields(a)[n..] == Fields(b)[n..] == Fields(b[1..]);
      FieldsInjective(a[1..], b[1..]);
      assert a == [a[0]] + a[1..] && b == [b[0]] + b[1..];
    }
  }

  lemma FieldsNonEmpty(fields: seq<seq<Byte>>)
    requires fields != []
    ensures |Fields(fields)| >= 4
  {
  }

  lemma LengthPrefix(a: seq<seq<Byte>>, b: seq<seq<Byte>>)
    requires FieldsBelow(a, FIELD_LIMIT) && FieldsBelow(b, FIELD_LIMIT)
    requires a != [] && b != [] && Fields(a) == Fields(b)
    ensures |a[0]| == |b[0]|
  {
    assert Be(|a[0]|, 4) == Fields(a)[..4] == Fields(b)[..4] == Be(|b[0]|, 4);
    PowFour();
    FromBeOfBe(|a[0]|, 4);
    FromBeOfBe(|b[0]|, 4);
  }

  lemma PowFour()
    ensures Pow256(4) == FIELD_LIMIT && Pow256(8) == 0x1_0000_0000_0000_0000
  {
    assert Pow256(1) == 256 && Pow256(2) == 65536;
    assert Pow256(4) == 256 * Pow256(3) && Pow256(3) == 256 * Pow256(2);
    assert Pow256(6) == 256 * Pow256(5) && Pow256(5) == 256 * Pow256(4);
    assert Pow256(8) == 256 * Pow256(7) && Pow256(7) == 256 * Pow256(6);
  }

  lemma FirstNul(domain: seq<Byte>, fields: seq<seq<Byte>>)
    requires 0 !in domain
    ensures |domain| < |Message(domain, fields)| && Message(domain, fields)[|domain|] == 0
    ensures forall i :: 0 <= i < |domain| ==> Message(domain, fields)[i] != 0
  {
    forall i | 0 <= i < |domain| ensures Message(domain, fields)[i] != 0 {
      assert Message(domain, fields)[i] == domain[i] && domain[i] in domain;
    }
  }

  /** The framing is injective: a message gives back its domain and its fields. */
  lemma MessageInjective(d: seq<Byte>, a: seq<seq<Byte>>, e: seq<Byte>, b: seq<seq<Byte>>)
    requires 0 !in d && 0 !in e
    requires FieldsBelow(a, FIELD_LIMIT) && FieldsBelow(b, FIELD_LIMIT)
    requires Message(d, a) == Message(e, b)
    ensures d == e && a == b
  {
    var m := Message(d, a);
    FirstNul(d, a);
    FirstNul(e, b);
    assert d == m[..|d|] == e;
    assert Fields(a) == m[|d| + 1..] == Fields(b);
    FieldsInjective(a, b);
  }

  // ---------- where the framing stops being injective ----------

  function Zeros(n: nat): (r: seq<Byte>)
    ensures |r| == n && forall i :: 0 <= i < n ==> r[i] == 0
  {
    seq(n, _ => 0)
  }

  function Empties(n: nat): (r: seq<seq<Byte>>)
    ensures |r| == n && forall i :: 0 <= i < n ==> r[i] == []
  {
    seq(n, _ => [])
  }

  lemma BeZero(n: nat)
    requires n % FIELD_LIMIT == 0
    ensures Be(n, 4) == [0, 0, 0, 0]
  {
    var q := n / FIELD_LIMIT;
    assert n == 256 * (256 * (256 * (256 * q)));
    assert Be(n, 4) == Be(n / 256, 3) + [0];
    assert Be(n / 256, 3) == Be(n / 256 / 256, 2) + [0];
    assert Be(n / 256 / 256, 2) == Be(n / 256 / 256 / 256, 1) + [0];
    assert Be(n / 256 / 256 / 256, 1) == Be(q, 0) + [0];
  }

  lemma {:induction false} EmptiesFrame(n: nat)
    ensures Fields(Empties(n)) == Zeros(4 * n)
  {
    if n > 0 {
      EmptiesFrame(n - 1);
      BeZero(0);
      assert Empties(n)[1..] == Empties(n - 1);
      assert Zeros(4 * n) == [0, 0, 0, 0] + [] + Zeros(4 * (n - 1));
    }
  }

  /** One field of 2^32 zero bytes frames like 2^30 + 1 empty fields. */
  lemma LongFieldCollides(domain: seq<Byte>)
    ensures Message(domain, [Zeros(FIELD_LIMIT)]) == Message(domain, Empties(0x4000_0001))
    ensures [Zeros(FIELD_LIMIT)] != Empties(0x4000_0001)
  {
    var long := Zeros(FIELD_LIMIT);
    BeZero(FIELD_LIMIT);
    EmptiesFrame(0x4000_0001);
    assert Fields([long]) == Be(|long|, 4) + long + Fields([]);
    assert Zeros(4 * 0x4000_0001) == [0, 0, 0, 0] + Zeros(FIELD_LIMIT) + [];
  }

  ghost predicate InjectiveBelow(bound: nat) {
    forall d: seq<Byte>, a, e: seq<Byte>, b ::
      0 !in d && 0 !in e && FieldsBelow(a, bound) && FieldsBelow(b, bound) && Message(d, a) == Message(e, b) ==>
        d == e && a == b
  }

  /** Framing of fields shorter than `bound` is injective exactly up to the four-byte length. */
  lemma FramingInjectiveIff(bound: nat)
    ensures InjectiveBelow(bound) <==> bound <= FIELD_LIMIT
  {
    if bound <= FIELD_LIMIT {
      forall d: seq<Byte>, a, e: seq<Byte>, b |
        0 !in d && 0 !in e && FieldsBelow(a, bound) && FieldsBelow(b, bound) && Message(d, a) == Message(e, b)
        ensures d == e && a == b
      {
        MessageInjective(d, a, e, b);
      }
    } else {
      var a, b := [Zeros(FIELD_LIMIT)], Empties(0x4000_0001);
      LongFieldCollides([]);
      assert FieldsBelow(a, bound) && FieldsBelow(b, bound);
      assert Message([], a) == Message([], b) && a != b;
    }
  }

  // ---------- commands ----------

  datatype Action = RevokeDevice | RevokeSession | RevokeAllSessions | DisableUser | EnableUser | ForcePasswordReset

  function ActionCode(a: Action): seq<Byte> {
    match a
    case RevokeDevice => Ascii("revoke_device")
    case RevokeSession => Ascii("revoke_session")
    case RevokeAllSessions => Ascii("revoke_all_sessions")
    case DisableUser => Ascii("disable_user")
    case EnableUser => Ascii("enable_user")
    case ForcePasswordReset => Ascii("force_password_reset")
  }

  /** `textsClean` stands for the UTF-8, trimming, control-character and pattern checks on the texts. */
  datatype Command = Command(
    operation: Uuid, actor: Uuid, approval: Option<Uuid>,
    requestId: seq<Byte>, reason: seq<Byte>, ticket: seq<Byte>, note: seq<Byte>,
    expected: int, textsClean: bool)

  const ID_LIMIT: nat := Pow256(16)

  predicate IsId(id: Uuid) { id < ID_LIMIT }

  /** The Go types: 16-byte identifiers, a 64-bit revision. */
  predicate WellTyped(target: Uuid, c: Command) {
    && IsId(target) && IsId(c.operation) && IsId(c.actor) && (c.approval.Some? ==> IsId(c.approval.value))
    && -0x8000_0000_0000_0000 <= c.expected < 0x8000_0000_0000_0000
  }

  /** A text of at most `maximum` characters takes at most four bytes for each. */
  predicate TextFits(text: seq<Byte>, maximum: nat, optional: bool) {
    |text| <= 4 * maximum && (text == [] ==> optional)
  }

  predicate ValidCommand(action: Action, target: Uuid, c: Command) {
    && target != NIL && c.operation != NIL && c.actor != NIL && c.expected >= 1
    && c.approval != Some(NIL)
    && (action.DisableUser? || action.EnableUser? ==> c.approval.Some?)
    && c.textsClean
    && TextFits(c.requestId, 128, false) && |c.reason| <= 64
    && TextFits(c.ticket, 128, true) && TextFits(c.note, 500, true)
  }

  function Approval(c: Command): seq<Byte> {
    if c.approval.Some? then Be(c.approval.value, 16) else []
  }

  /** Two's complement on eight bytes. */
  function Word64(n: int): nat { n % 0x1_0000_0000_0000_0000 }

  function RequestFields(action: Action, target: Uuid, c: Command): seq<seq<Byte>> {
    [ActionCode(action), Be(target, 16), Be(c.operation, 16), Be(c.actor, 16), Approval(c),
     c.requestId, c.reason, c.ticket, c.note, Be(Word64(c.expected), 8)]
  }

  function RequestMessage(action: Action, target: Uuid, c: Command): seq<Byte> {
    Message(RequestDomain(), RequestFields(action, target, c))
  }

  function IdempotencyMessage(operation: Uuid): seq<Byte> {
    Message(IdempotencyDomain(), [Be(operation, 16)])
  }

  function RequestFingerprint(ring: Ring, keyId: KeyId, action: Action, target: Uuid, c: Command): (r: Option<seq<Byte>>)
    ensures r.Some? <==> keyId in ring.keys
  {
    if keyId in ring.keys then Some(ring.keys[keyId].mac(RequestMessage(action, target, c))) else None
  }

  lemma BeInjective(m: nat, n: nat, width: nat)
    requires m < Pow256(width) && n < Pow256(width) && Be(m, width) == Be(n, width)
    ensures m == n
  {
    FromBeOfBe(m, width);
    FromBeOfBe(n, width);
  }

  lemma ActionCodeInjective(a: Action, b: Action)
    requires ActionCode(a) == ActionCode(b)
    ensures a == b
  {
    assert |ActionCode(RevokeDevice)| == 13 && |ActionCode(RevokeSession)| == 14 && |ActionCode(RevokeAllSessions)| == 19;
    assert |ActionCode(DisableUser)| == 12 && |ActionCode(EnableUser)| == 11 && |ActionCode(ForcePasswordReset)| == 20;
  }

  ghost predicate ShortTexts(c: Command) {
    |c.requestId| < FIELD_LIMIT && |c.reason| < FIELD_LIMIT && |c.ticket| < FIELD_LIMIT && |c.note| < FIELD_LIMIT
  }

  /** The framed request determines every part of it, and whether there was an approval. */
  lemma RequestMessageInjective(a: Action, t: Uuid, c: Command, b: Action, u: Uuid, d: Command)
    requires WellTyped(t, c) && WellTyped(u, d) && ShortTexts(c) && ShortTexts(d)
    requires RequestMessage(a, t, c) == RequestMessage(b, u, d)
    ensures a == b && t == u && c == d.(textsClean := c.textsClean)
  {
    DomainsNulFree();
    RequestFieldsBelow(a, t, c);
    RequestFieldsBelow(b, u, d);
    MessageInjective(RequestDomain(), RequestFields(a, t, c), RequestDomain(), RequestFields(b, u, d));
    RequestFieldsInjective(a, t, c, b, u, d);
  }

  lemma RequestFieldsBelow(a: Action, t: Uuid, c: Command)
    requires ShortTexts(c)
    ensures FieldsBelow(RequestFields(a, t, c), FIELD_LIMIT)
  {
  }

  lemma RequestFieldsInjective(a: Action, t: Uuid, c: Command, b: Action, u: Uuid, d: Command)
    requires WellTyped(t, c) && WellTyped(u, d)
    requires RequestFields(a, t, c) == RequestFields(b, u, d)
    ensures a == b && t == u && c == d.(textsClean := c.textsClean)
  {
    FieldsEqual(RequestFields(a, t, c), RequestFields(b, u, d));
    ActionCodeInjective(a, b);
    IdInjective(t, u);
    IdInjective(c.operation, d.operation);
    IdInjective(c.actor, d.actor);
    ApprovalInjective(c, d);
    RevisionInjective(c.expected, d.expected);
  }

  lemma IdInjective(m: Uuid, n: Uuid)
    requires IsId(m) && IsId(n) && Be(m, 16) == Be(n, 16)
    ensures m == n
  {
    BeInjective(m, n, 16);
  }

  lemma ApprovalInjective(c: Command, d: Command)
    requires Approval(c) == Approval(d)
    requires (c.approval.Some? ==> IsId(c.approval.value)) && (d.approval.Some? ==> IsId(d.approval.value))
    ensures c.approval == d.approval
  {
    if c.approval.Some? && d.approval.Some? { IdInjective(c.approval.value, d.approval.value); }
  }

  lemma RevisionInjective(m: int, n: int)
    requires -0x8000_0000_0000_0000 <= m < 0x8000_0000_0000_0000
    requires -0x8000_0000_0000_0000 <= n < 0x8000_0000_0000_0000
    requires Be(Word64(m), 8) == Be(Word64(n), 8)
    ensures m == n
  {
    PowFour();
    BeInjective(Word64(m), Word64(n), 8);
  }

  lemma FieldsEqual(f: seq<seq<Byte>>, g: seq<seq<Byte>>)
    requires f == g && |f| == 10
    ensures f[0] == g[0] && f[1] == g[1] && f[2] == g[2] && f[3] == g[3] && f[4] == g[4]
    ensures f[5] == g[5] && f[6] == g[6] && f[7] == g[7] && f[8] == g[8] && f[9] == g[9]
  {
  }

  lemma DomainsNulFree()
    ensures 0 !in RequestDomain() && 0 !in IdempotencyDomain() && 0 !in CursorDomain()
  {
    assert forall i :: 0 <= i < |"aera-cloud.admin.request.v1"| ==> "aera-cloud.admin.request.v1"[i] > 0 as char;
    assert forall i :: 0 <= i < |"aera-cloud.admin.idempotency.v1"| ==> "aera-cloud.admin.idempotency.v1"[i] > 0 as char;
    assert forall i :: 0 <= i < |"aera-cloud.admin.cursor.v1"| ==> "aera-cloud.admin.cursor.v1"[i] > 0 as char;
  }

  /** A key tells two different messages apart. */
  ghost predicate Separates(mac: Mac, m: seq<Byte>, n: seq<Byte>) {
    m != n ==> mac(m) != mac(n)
  }

  /** Under one key that does not collide on the two messages, equal fingerprints mean the same
      action, target and command. */
  lemma SameFingerprintSameRequest(ring: Ring, keyId: KeyId, a: Action, t: Uuid, c: Command, b: Action, u: Uuid, d: Command)
    requires WellTyped(t, c) && WellTyped(u, d) && ValidCommand(a, t, c) && ValidCommand(b, u, d)
    requires keyId in ring.keys
    requires Separates(ring.keys[keyId].mac, RequestMessage(a, t, c), RequestMessage(b, u, d))
    ensures RequestFingerprint(ring, keyId, a, t, c) == RequestFingerprint(ring, keyId, b, u, d)
            <==> a == b && t == u && c == d
  {
    if RequestFingerprint(ring, keyId, a, t, c) == RequestFingerprint(ring, keyId, b, u, d) {
      RequestMessageInjective(a, t, c, b, u, d);
    }
  }
}
