/** Page cursors: a sealed position in unpadded URL-safe base64 (internal/admin/protector.go). */
module Cursor {
  import opened Common
  import opened Bytes
  import opened Protector

  // ---------- base64, URL alphabet, no padding ----------

  function Symbol(v: int): Byte
    requires 0 <= v < 64
  {
    if v < 26 then 'A' as int + v
    else if v < 52 then 'a' as int + v - 26
    else if v < 62 then '0' as int + v - 52
    else if v == 62 then '-' as int
    else '_' as int
  }

  /** The value of a symbol, or -1 for a byte outside the alphabet. */
  function Value(c: Byte): (v: int)
    ensures -1 <= v < 64
    ensures v >= 0 ==> Symbol(v) == c
  {
    if 'A' as int <= c <= 'Z' as int then c - 'A' as int
    else if 'a' as int <= c <= 'z' as int then c - 'a' as int + 26
    else if '0' as int <= c <= '9' as int then c - '0' as int + 52
    else if c == '-' as int then 62
    else if c == '_' as int then 63
    else -1
  }

  lemma ValueOfSymbol(v: int)
    requires 0 <= v < 64
    ensures Value(Symbol(v)) == v
  {
  }

  function Encode64(b: seq<Byte>): (r: seq<Byte>) {
    if |b| == 0 then []
    else if |b| == 1 then [Symbol(b[0] / 4), Symbol(b[0] % 4 * 16)]
    else if |b| == 2 then [Symbol(b[0] / 4), Symbol(b[0] % 4 * 16 + b[1] / 16), Symbol(b[1] % 16 * 4)]
    else [Symbol(b[0] / 4), Symbol(b[0] % 4 * 16 + b[1] / 16), Symbol(b[1] % 16 * 4 + b[2] / 64), Symbol(b[2] % 64)]
         + Encode64(b[3..])
  }

  function First(v: int, w: int): Byte
    requires 0 <= v < 64 && 0 <= w < 64
  {
    v * 4 + w / 16
  }

  function Second(v: int, w: int): Byte
    requires 0 <= v < 64 && 0 <= w < 64
  {
    v % 16 * 16 + w / 4
  }

  function Third(v: int, w: int): Byte
    requires 0 <= v < 64 && 0 <= w < 64
  {
    v % 4 * 64 + w
  }

  /** A lenient decoder: left-over bits in the last symbol are dropped. */
  function Decode64(t: seq<Byte>): Option<seq<Byte>> {
    if |t| == 0 then Some([])
    else if |t| == 1 || Value(t[0]) < 0 || Value(t[1]) < 0 then None
    else if |t| == 2 then Some([First(Value(t[0]), Value(t[1]))])
    else if Value(t[2]) < 0 then None
    else if |t| == 3 then Some([First(Value(t[0]), Value(t[1])), Second(Value(t[1]), Value(t[2]))])
    else if Value(t[3]) < 0 then None
    else
      var rest := Decode64(t[4..]);
      if rest.None? then None
      else Some([First(Value(t[0]), Value(t[1])), Second(Value(t[1]), Value(t[2])), Third(Value(t[2]), Value(t[3]))]
                + rest.value)
  }

  ghost predicate InAlphabet(t: seq<Byte>) {
    forall i :: 0 <= i < |t| ==> Value(t[i]) >= 0
  }

  lemma TripleRoundTrip(a: Byte, b: Byte, c: Byte)
    ensures First(a / 4, a % 4 * 16 + b / 16) == a
    ensures First(a / 4, a % 4 * 16) == a
    ensures Second(a % 4 * 16 + b / 16, b % 16 * 4 + c / 64) == b
    ensures Second(a % 4 * 16 + b / 16, b % 16 * 4) == b
    ensures Third(b % 16 * 4 + c / 64, c % 64) == c
  {
  }

  lemma SingleRoundTrip(a: Byte)
    ensures Decode64(Encode64([a])) == Some([a]) && InAlphabet(Encode64([a]))
  {
    TripleRoundTrip(a, 0, 0);
    ValueOfSymbol(a / 4);
    ValueOfSymbol(a % 4 * 16);
  }

  lemma PairRoundTrip(a: Byte, b: Byte)
    ensures Decode64(Encode64([a, b])) == Some([a, b]) && InAlphabet(Encode64([a, b]))
  {
    TripleRoundTrip(a, b, 0);
    ValueOfSymbol(a / 4);
    ValueOfSymbol(a % 4 * 16 + b / 16);
    ValueOfSymbol(b % 16 * 4);
    var t := Encode64([a, b]);
    assert t == [Symbol(a / 4), Symbol(a % 4 * 16 + b / 16), Symbol(b % 16 * 4)];
    assert Decode64(t) == Some([First(Value(t[0]), Value(t[1])), Second(Value(t[1]), Value(t[2]))]);
  }

  lemma {:induction false} DecodeOfEncode(b: seq<Byte>)
    ensures Decode64(Encode64(b)) == Some(b)
  {
    if |b| == 1 {
      SingleRoundTrip(b[0]);
      assert b == [b[0]];
    } else if |b| == 2 {
      PairRoundTrip(b[0], b[1]);
      assert b == [b[0], b[1]];
    } else if |b| >= 3 {
      DecodeOfEncode(b[3..]);
      GroupRoundTrip(b);
      assert b == [b[0], b[1], b[2]] + b[3..];
    }
  }

  lemma GroupRoundTrip(b: seq<Byte>)
    requires |b| >= 3
    ensures var t := Encode64(b);
            && |t| >= 4 && t[4..] == Encode64(b[3..])
            && Value(t[0]) >= 0 && Value(t[1]) >= 0 && Value(t[2]) >= 0 && Value(t[3]) >= 0
            && First(Value(t[0]), Value(t[1])) == b[0]
            && Second(Value(t[1]), Value(t[2])) == b[1]
            && Third(Value(t[2]), Value(t[3])) == b[2]
  {
    TripleRoundTrip(b[0], b[1], b[2]);
    ValueOfSymbol(b[0] / 4);
    ValueOfSymbol(b[0] % 4 * 16 + b[1] / 16);
    ValueOfSymbol(b[1] % 16 * 4 + b[2] / 64);
    ValueOfSymbol(b[2] % 64);
  }

  lemma {:induction false} EncodeShape(b: seq<Byte>)
    ensures |Encode64(b)| == (4 * |b| + 2) / 3
    ensures InAlphabet(Encode64(b))
  {
    if |b| == 1 {
      SingleRoundTrip(b[0]);
      assert b == [b[0]];
    } else if |b| == 2 {
      PairRoundTrip(b[0], b[1]);
      assert b == [b[0], b[1]];
    } else if |b| >= 3 {
      EncodeShape(b[3..]);
      GroupRoundTrip(b);
      var t := Encode64(b);
      forall i | 0 <= i < |t| ensures Value(t[i]) >= 0 {
        if i >= 4 { assert t[i] == Encode64(b[3..])[i - 4]; }
      }
    }
  }

  // ---------- positions ----------

  /** A place in a listing: nanoseconds since the Unix epoch, and the row's identifier. */
  datatype Position = Position(time: Time, id: Uuid)

  const CURSOR_VERSION: Byte := 1
  const MAC_SIZE := 32

  datatype CursorError = InvalidCursor

  predicate ValidResource(r: seq<Byte>) {
    && 1 <= |r| <= 128 && 'a' as int <= r[0] <= 'z' as int
    && forall i :: 1 <= i < |r| ==>
      || 'a' as int <= r[i] <= 'z' as int || '0' as int <= r[i] <= '9' as int
      || r[i] in {'_' as int, '.' as int, '/' as int, ':' as int, '-' as int}
  }

  predicate ValidToken(t: seq<Byte>) {
    1 <= |t| <= 512 && forall i :: 0 <= i < |t| ==> Value(t[i]) >= 0
  }

  /** What 64 bits of nanoseconds read back as. */
  function Signed64(w: nat): int {
    if w < 0x8000_0000_0000_0000 then w else w - 0x1_0000_0000_0000_0000
  }

  function Wrapped(t: Time): Time { Signed64(Word64(t)) }

  predicate Representable(t: Time) {
    -0x8000_0000_0000_0000 <= t < 0x8000_0000_0000_0000
  }

  lemma WrappedIff(t: Time)
    ensures Wrapped(t) == t <==> Representable(t)
    ensures Representable(Wrapped(t)) && Word64(Wrapped(t)) == Word64(t)
  {
  }

  function Payload(keyId: KeyId, p: Position): (r: seq<Byte>)
    requires |keyId| < 256
    ensures |r| == 26 + |keyId|
  {
    [CURSOR_VERSION, |keyId|] + keyId + Be(Word64(p.time), 8) + Be(p.id, 16)
  }

  /** Payload and seal, before base64. */
  function Sealed(keyId: KeyId, key: Key, resource: seq<Byte>, p: Position): (r: seq<Byte>)
    requires |keyId| < 256
    ensures Sized(key) ==> |r| == 58 + |keyId|
  {
    var payload := Payload(keyId, p);
    payload + key.mac(Message(CursorDomain(), [resource, payload]))
  }

  function EncodeCursor(ring: Ring, resource: seq<Byte>, p: Position): Outcome<seq<Byte>, CursorError>
    requires ValidRing(ring)
  {
    if !ValidResource(resource) || p.time == ZERO_TIME || p.id == NIL then Err(InvalidCursor)
    else
      assert UsableKey(ring.active, ring.keys[ring.active]);
      var token := Encode64(Sealed(ring.active, ring.keys[ring.active], resource, p));
      if ValidToken(token) then Ok(token) else Err(InvalidCursor)
  }

  function DecodeCursor(ring: Ring, resource: seq<Byte>, token: seq<Byte>): Outcome<Position, CursorError> {
    if !(ValidResource(resource) && ValidToken(token)) then Err(InvalidCursor) else
    var decoded := Decode64(token);
    :- Need(decoded.Some? && Encode64(decoded.value) == token && |decoded.value| >= 59, InvalidCursor);
    OpenSealed(ring, resource, decoded.value)
  }

  function OpenSealed(ring: Ring, resource: seq<Byte>, d: seq<Byte>): Outcome<Position, CursorError>
    requires |d| >= 59
  {
    if !(d[0] == CURSOR_VERSION) then Err(InvalidCursor) else
    var keyLength: int := d[1];
    var payloadLength := 2 + keyLength + 8 + 16;
    :- Need(keyLength >= 1 && payloadLength + MAC_SIZE == |d|, InvalidCursor);
    var keyId := d[2..2 + keyLength];
    :- Need(keyId in ring.keys, InvalidCursor);
    var expected := ring.keys[keyId].mac(Message(CursorDomain(), [resource, d[..payloadLength]]));
    :- Need(d[payloadLength..] == expected, InvalidCursor);
    var id := FromBe(d[payloadLength - 16..payloadLength]);
    :- Need(id != NIL, InvalidCursor);
    Ok(Position(Signed64(FromBe(d[2 + keyLength..payloadLength - 16])), id))
  }

  method BuildCursor(ring: Ring, resource: seq<Byte>, p: Position) returns (r: Outcome<seq<Byte>, CursorError>)
    requires ValidRing(ring)
    ensures r == EncodeCursor(ring, resource, p)
  {
    if !ValidResource(resource) || p.time == ZERO_TIME || p.id == NIL { return Err(InvalidCursor); }
    var keyId := ring.active;
    assert UsableKey(keyId, ring.keys[keyId]);
    var payload: seq<Byte> := [CURSOR_VERSION, |keyId|];
    payload := payload + keyId;
    payload := payload + Be(Word64(p.time), 8);
    payload := payload + Be(p.id, 16);
    var mac := ProtectedDigest(ring.keys[keyId].mac, CursorDomain(), [resource, payload]);
    var encoded := Encode64(payload + mac);
    if !ValidToken(encoded) { return Err(InvalidCursor); }
    return Ok(encoded);
  }

  // ---------- round trip ----------

  /** A position with a real time and identifier always gets a cursor: 512 characters suffice. */
  lemma EncodeAlwaysFits(ring: Ring, resource: seq<Byte>, p: Position)
    requires ValidRing(ring) && SizedRing(ring)
    ensures EncodeCursor(ring, resource, p).Ok? <==> ValidResource(resource) && p.time != ZERO_TIME && p.id != NIL
    ensures EncodeCursor(ring, resource, p).Ok? ==>
              EncodeCursor(ring, resource, p).value == Encode64(Sealed(ring.active, ring.keys[ring.active], resource, p))
  {
    assert UsableKey(ring.active, ring.keys[ring.active]) && Sized(ring.keys[ring.active]);
    EncodeShape(Sealed(ring.active, ring.keys[ring.active], resource, p));
  }

  lemma PayloadParts(keyId: KeyId, p: Position)
    requires |keyId| < 256
    ensures var r := Payload(keyId, p);
            && r[0] == CURSOR_VERSION && r[1] == |keyId| && r[2..2 + |keyId|] == keyId
            && r[2 + |keyId|..10 + |keyId|] == Be(Word64(p.time), 8)
            && r[10 + |keyId|..26 + |keyId|] == Be(p.id, 16)
  {
  }

  lemma SealedParts(keyId: KeyId, key: Key, resource: seq<Byte>, p: Position)
    requires |keyId| < 256 && Sized(key)
    ensures var d := Sealed(keyId, key, resource, p);
            var n := 26 + |keyId|;
            && d[0] == CURSOR_VERSION && d[1] == |keyId| && d[2..2 + |keyId|] == keyId
            && d[..n] == Payload(keyId, p)
            && d[n..] == key.mac(Message(CursorDomain(), [resource, Payload(keyId, p)]))
            && d[2 + |keyId|..n - 16] == Be(Word64(p.time), 8)
            && d[n - 16..n] == Be(p.id, 16)
  {
    PayloadParts(keyId, p);
    var d := Sealed(keyId, key, resource, p);
    var payload := Payload(keyId, p);
    assert d[2..2 + |keyId|] == payload[2..2 + |keyId|];
    assert d[2 + |keyId|..10 + |keyId|] == payload[2 + |keyId|..10 + |keyId|];
    assert d[10 + |keyId|..26 + |keyId|] == payload[10 + |keyId|..26 + |keyId|];
  }

  lemma ReadBack(p: Position)
    requires IsId(p.id)
    ensures Signed64(FromBe(Be(Word64(p.time), 8))) == Wrapped(p.time)
    ensures FromBe(Be(p.id, 16)) == p.id
  {
    PowFour();
    FromBeOfBe(Word64(p.time), 8);
    FromBeOfBe(p.id, 16);
  }

  lemma OpenParts(ring: Ring, keyId: KeyId, resource: seq<Byte>, d: seq<Byte>, payload: seq<Byte>, time: seq<Byte>, id: seq<Byte>)
    requires keyId in ring.keys && 1 <= |keyId| < 256 && |d| == 58 + |keyId|
    requires d[0] == CURSOR_VERSION && d[1] == |keyId| && d[2..2 + |keyId|] == keyId
    requires d[..26 + |keyId|] == payload
    requires d[26 + |keyId|..] == ring.keys[keyId].mac(Message(CursorDomain(), [resource, payload]))
    requires d[2 + |keyId|..10 + |keyId|] == time && d[10 + |keyId|..26 + |keyId|] == id && FromBe(id) != NIL
    ensures OpenSealed(ring, resource, d) == Ok(Position(Signed64(FromBe(time)), FromBe(id)))
  {
  }

  lemma OpenOfSealed(ring: Ring, keyId: KeyId, resource: seq<Byte>, p: Position)
    requires keyId in ring.keys && Sized(ring.keys[keyId]) && 1 <= |keyId| < 256 && p.id != NIL && IsId(p.id)
    ensures OpenSealed(ring, resource, Sealed(keyId, ring.keys[keyId], resource, p)) == Ok(Position(Wrapped(p.time), p.id))
  {
    SealedParts(keyId, ring.keys[keyId], resource, p);
    ReadBack(p);
    OpenParts(ring, keyId, resource, Sealed(keyId, ring.keys[keyId], resource, p), Payload(keyId, p),
              Be(Word64(p.time), 8), Be(p.id, 16));
  }

  /** A cursor opens again under any later ring that still holds its key; the position comes back
      exactly when its time fits 64 bits of nanoseconds. */
  lemma CursorRoundTrip(sealer: Ring, opener: Ring, resource: seq<Byte>, p: Position)
    requires ValidRing(sealer) && SizedRing(sealer) && IsId(p.id)
    requires sealer.active in opener.keys && opener.keys[sealer.active] == sealer.keys[sealer.active]
    requires EncodeCursor(sealer, resource, p).Ok?
    ensures var back := DecodeCursor(opener, resource, EncodeCursor(sealer, resource, p).value);
            && back == Ok(Position(Wrapped(p.time), p.id))
            && (back == Ok(p) <==> Representable(p.time))
  {
    EncodeAlwaysFits(sealer, resource, p);
    assert UsableKey(sealer.active, sealer.keys[sealer.active]) && Sized(sealer.keys[sealer.active]);
    var d := Sealed(sealer.active, sealer.keys[sealer.active], resource, p);
    DecodeOfEncode(d);
    OpenOfSealed(opener, sealer.active, resource, p);
    WrappedIff(p.time);
  }

  lemma ComesBackAs(ring: Ring, resource: seq<Byte>, p: Position, back: Time)
    requires ValidRing(ring) && SizedRing(ring) && ValidResource(resource) && IsId(p.id) && p.id != NIL
    requires p.time != ZERO_TIME && Wrapped(p.time) == back
    ensures EncodeCursor(ring, resource, p).Ok?
    ensures DecodeCursor(ring, resource, EncodeCursor(ring, resource, p).value) == Ok(Position(back, p.id))
  {
    EncodeAlwaysFits(ring, resource, p);
    CursorRoundTrip(ring, ring, resource, p);
  }

  /** The first instant past 64 bits of nanoseconds is issued as a cursor and comes back as the earliest one. */
  lemma LateCursorComesBackEarly(ring: Ring, resource: seq<Byte>, late: Position)
    requires ValidRing(ring) && SizedRing(ring) && ValidResource(resource) && late == Position(0x8000_0000_0000_0000, 1)
    ensures EncodeCursor(ring, resource, late).Ok?
    ensures DecodeCursor(ring, resource, EncodeCursor(ring, resource, late).value) == Ok(Position(-0x8000_0000_0000_0000, 1))
  {
    ComesBackAs(ring, resource, late, -0x8000_0000_0000_0000);
  }

  // ---------- only issued cursors open ----------

  lemma OpenedIsSealed(ring: Ring, resource: seq<Byte>, d: seq<Byte>) returns (keyId: KeyId)
    requires |d| >= 59 && OpenSealed(ring, resource, d).Ok?
    ensures var p := OpenSealed(ring, resource, d).value;
            && keyId in ring.keys && 1 <= |keyId| < 256 && d == Sealed(keyId, ring.keys[keyId], resource, p)
            && Representable(p.time) && p.id != NIL && IsId(p.id)
  {
    var k: int := d[1];
    var n := 26 + k;
    keyId := d[2..2 + k];
    var time, id := d[2 + k..n - 16], d[n - 16..n];
    var p := OpenSealed(ring, resource, d).value;
    BeOfFromBe(time);
    BeOfFromBe(id);
    PowFour();
    WrappedIff(Signed64(FromBe(time)));
    assert Word64(p.time) == FromBe(time);
    assert d[..n] == [CURSOR_VERSION, k] + keyId + time + id;
    assert d[..n] == Payload(keyId, p);
    assert d == d[..n] + d[n..];
  }

  ghost predicate Issued(ring: Ring, keyId: KeyId, resource: seq<Byte>, p: Position, token: seq<Byte>) {
    keyId in ring.keys && 1 <= |keyId| < 256 && token == Encode64(Sealed(keyId, ring.keys[keyId], resource, p))
  }

  /** A token is accepted, and read as `p`, exactly when a key of the ring would issue it for `p`. */
  lemma DecodeAcceptsIssued(ring: Ring, resource: seq<Byte>, token: seq<Byte>, p: Position)
    requires ValidRing(ring) && SizedRing(ring) && ValidResource(resource) && ValidToken(token)
    ensures DecodeCursor(ring, resource, token) == Ok(p) <==>
            Representable(p.time) && p.id != NIL && IsId(p.id) && exists keyId :: Issued(ring, keyId, resource, p, token)
  {
    if DecodeCursor(ring, resource, token) == Ok(p) {
      var keyId := OpenedIsSealed(ring, resource, Decode64(token).value);
      assert Issued(ring, keyId, resource, p, token);
    } else if Representable(p.time) && p.id != NIL && IsId(p.id) && exists keyId :: Issued(ring, keyId, resource, p, token) {
      var keyId :| Issued(ring, keyId, resource, p, token);
      assert Sized(ring.keys[keyId]);
      DecodeOfEncode(Sealed(keyId, ring.keys[keyId], resource, p));
      OpenOfSealed(ring, keyId, resource, p);
      WrappedIff(p.time);
    }
  }
}
