/** Keyset paging of the administrative listings: newest first, one sealed cursor per page
    (internal/admin/control_service.go, internal/admin/control_repository.go). */
module Paging {
  import opened Common
  import opened Bytes
  import opened Protector
  import opened Cursor

  // ---------- the listing order ----------

  /** The row comparison (created_at, id) < ($3, $4). */
  predicate Before(p: Position, q: Position) {
    p.time < q.time || (p.time == q.time && p.id < q.id)
  }

  ghost predicate NewestFirst(s: seq<Position>) {
    forall i, j :: 0 <= i < j < |s| ==> Before(s[j], s[i])
  }

  ghost predicate IsNewest(rows: set<Position>, p: Position) {
    p in rows && forall q :: q in rows && q != p ==> Before(q, p)
  }

  lemma {:induction false} NewestExists(rows: set<Position>)
    requires rows != {}
    ensures exists p :: IsNewest(rows, p)
  {
    var p :| p in rows;
    var rest := rows - {p};
    if rest == {} {
      assert rows == {p};
      assert IsNewest(rows, p);
    } else {
      NewestExists(rest);
      var m :| IsNewest(rest, m);
      var top := if Before(m, p) then p else m;
      forall q | q in rows && q != top ensures Before(q, top) {
        assert q == p || q in rest;
      }
      assert IsNewest(rows, top);
    }
  }

  function Newest(rows: set<Position>): (p: Position)
    requires rows != {}
    ensures IsNewest(rows, p)
  {
    NewestExists(rows);
    var p :| p in rows && forall q :: q in rows && q != p ==> Before(q, p);
    p
  }

  /** ORDER BY created_at DESC, id DESC. */
  function Listing(rows: set<Position>): seq<Position> {
    if rows == {} then [] else [Newest(rows)] + Listing(rows - {Newest(rows)})
  }

  /** The listing holds every row, each once, newest first. */
  lemma {:induction false} ListingOf(rows: set<Position>)
    ensures NewestFirst(Listing(rows))
    ensures forall p :: p in Listing(rows) <==> p in rows
    ensures |Listing(rows)| == |rows|
  {
    if rows != {} {
      var rest := rows - {Newest(rows)};
      ListingOf(rest);
      forall j | 0 <= j < |Listing(rest)| ensures Before(Listing(rest)[j], Newest(rows)) {
        assert Listing(rest)[j] in Listing(rest);
      }
    }
  }

  /** A newest-first list is the listing of its rows. */
  lemma {:induction false} ListingUnique(s: seq<Position>, rows: set<Position>)
    requires NewestFirst(s) && forall p :: p in s <==> p in rows
    ensures s == Listing(rows)
  {
    if s == [] {
      assert rows == {};
    } else {
      assert s[0] in s;
      var top := Newest(rows);
      assert top in s && s[0] in rows;
      var i :| 0 <= i < |s| && s[i] == top;
      assert i == 0;
      var rest := rows - {top};
      forall p ensures p in s[1..] <==> p in rest {
        assert s == [s[0]] + s[1..];
        if p in s[1..] {
          var k :| 0 <= k < |s[1..]| && s[1..][k] == p;
          assert s[k + 1] == p && Before(p, s[0]);
        }
      }
      ListingUnique(s[1..], rest);
      assert s == [s[0]] + s[1..];
    }
  }

  // ---------- one page ----------

  const DEFAULT_LIMIT := 50
  const MAXIMUM_LIMIT := 100

  datatype Request = Request(cursor: seq<Byte>, limit: int)

  /** A page; an empty `next` says there is no further one. */
  datatype Page = Page(items: seq<Position>, next: seq<Byte>)

  datatype PageError = InvalidCommand | InvalidPageCursor | Unavailable

  function PageLimit(limit: int): int { if limit == 0 then DEFAULT_LIMIT else limit }

  /** The protector as a listing of one resource uses it. */
  datatype Codec = Codec(encode: Position -> Outcome<seq<Byte>, CursorError>,
                         decode: seq<Byte> -> Outcome<Position, CursorError>)

  function CodecOf(ring: Ring, resource: seq<Byte>): Codec
    requires ValidRing(ring)
  {
    Codec((p: Position) => EncodeCursor(ring, resource, p), (token: seq<Byte>) => DecodeCursor(ring, resource, token))
  }

  function DecodePageRequest(codec: Codec, request: Request): Outcome<(int, Option<Position>), PageError> {
    var limit := PageLimit(request.limit);
    :- Need(1 <= limit <= MAXIMUM_LIMIT, InvalidCommand);
    if request.cursor == [] then Ok((limit, None))
    else
      var after := codec.decode(request.cursor);
      if after.Err? then Err(InvalidPageCursor) else Ok((limit, Some(after.value)))
  }

  function Selected(rows: set<Position>, after: Option<Position>): set<Position> {
    set p | p in rows && (after.None? || Before(p, after.value))
  }

  /** The repository query: at most `count` rows after the position. */
  function Query(rows: set<Position>, after: Option<Position>, count: nat): seq<Position> {
    var all := Listing(Selected(rows, after));
    if |all| <= count then all else all[..count]
  }

  /** One row beyond the limit was asked for; it is dropped and a position points past the page. */
  function RetainPage(items: seq<Position>, limit: nat): (seq<Position>, Option<Position>)
    requires limit >= 1
  {
    if |items| <= limit then (items, None) else (items[..limit], Some(items[limit - 1]))
  }

  function ListPage(codec: Codec, rows: set<Position>, request: Request): Outcome<Page, PageError> {
    var query :- DecodePageRequest(codec, request);
    :- Need(query.1.None? || (query.1.value.time != ZERO_TIME && query.1.value.id != NIL), InvalidCommand);
    ToPage(codec, RetainPage(Query(rows, query.1, query.0 + 1), query.0))
  }

  function ToPage(codec: Codec, data: (seq<Position>, Option<Position>)): Outcome<Page, PageError> {
    if data.1.None? then Ok(Page(data.0, []))
    else
      var cursor := codec.encode(data.1.value);
      if cursor.Err? then Err(Unavailable) else Ok(Page(data.0, cursor.value))
  }

  // ---------- walking the pages ----------

  /** One request of a walk: the protector in force and the limit asked for. */
  datatype Visit = Visit(codec: Codec, limit: int)

  datatype Walked = Walked(items: seq<Position>, cursor: seq<Byte>, done: bool)

  function Walk(rows: set<Position>, visits: seq<Visit>): Outcome<Walked, PageError> {
    if visits == [] then Ok(Walked([], [], false))
    else
      var last := visits[|visits| - 1];
      var sofar :- Walk(rows, visits[..|visits| - 1]);
      if sofar.done then Ok(sofar)
      else
        var page :- ListPage(last.codec, rows, Request(sofar.cursor, last.limit));
        Ok(Walked(sofar.items + page.items, page.next, page.next == []))
  }

  /** Rows a cursor can hold: 16-byte identifiers, times within 64 bits of nanoseconds. */
  ghost predicate Sealable(rows: set<Position>) {
    forall p :: p in rows ==> Representable(p.time) && p.id != NIL && IsId(p.id)
  }

  lemma IndexOf(all: seq<Position>, p: Position) returns (k: nat)
    requires p in all
    ensures k < |all| && all[k] == p
  {
    k :| 0 <= k < |all| && all[k] == p;
  }

  lemma InRest(all: seq<Position>, m: nat, p: Position)
    requires NewestFirst(all) && 1 <= m <= |all|
    ensures p in all[m..] <==> p in all && Before(p, all[m - 1])
  {
    if p in all {
      var k := IndexOf(all, p);
      if k >= m { assert all[m..][k - m] == p; }
    }
    if p in all[m..] {
      var k := IndexOf(all[m..], p);
      assert all[m + k] == p;
    }
  }

  /** What is left after the first `m` rows of a listing. */
  lemma SelectedIsRest(rows: set<Position>, m: nat)
    requires 1 <= m <= |Listing(rows)|
    ensures Listing(Selected(rows, Some(Listing(rows)[m - 1]))) == Listing(rows)[m..]
  {
    ListingOf(rows);
    var all := Listing(rows);
    var rest := Selected(rows, Some(all[m - 1]));
    forall p ensures p in all[m..] <==> p in rest { InRest(all, m, p); }
    ListingUnique(all[m..], rest);
  }

  /** The rows a page from position `m` shows, and the position it ends on if more follow. */
  ghost function PageAt(all: seq<Position>, m: nat, limit: nat): (seq<Position>, Option<Position>)
    requires m <= |all| && limit >= 1
  {
    if |all| - m <= limit then (all[m..], None) else (all[m..m + limit], Some(all[m + limit - 1]))
  }

  lemma RetainRest(all: seq<Position>, m: nat, limit: nat)
    requires m <= |all| && limit >= 1
    ensures var rest := all[m..];
            RetainPage(if |rest| <= limit + 1 then rest else rest[..limit + 1], limit) == PageAt(all, m, limit)
  {
    var rest := all[m..];
    if |rest| > limit {
      assert rest[..limit] == all[m..m + limit] && rest[limit - 1] == all[m + limit - 1];
      if |rest| > limit + 1 { assert rest[..limit + 1][..limit] == rest[..limit]; }
    }
  }

  lemma PageFrom(rows: set<Position>, m: nat, after: Option<Position>, limit: nat)
    requires m <= |Listing(rows)| && limit >= 1
    requires after == if m == 0 then None else Some(Listing(rows)[m - 1])
    ensures RetainPage(Query(rows, after, limit + 1), limit) == PageAt(Listing(rows), m, limit)
  {
    var all := Listing(rows);
    if m == 0 {
      assert Selected(rows, None) == rows;
      assert all[0..] == all;
    } else {
      SelectedIsRest(rows, m);
    }
    RetainRest(all, m, limit);
  }

  /** The cursor a walk of `all` holds after its first `m` rows. */
  ghost predicate CursorAt(codec: Codec, all: seq<Position>, m: nat, cursor: seq<Byte>) {
    1 <= m <= |all| && codec.encode(all[m - 1]) == Ok(cursor)
  }

  /** What a page handed out from position `m` must be. */
  ghost predicate Advances(codec: Codec, all: seq<Position>, m: nat, page: Page) {
    var n := m + |page.items|;
    && n <= |all| && page.items == all[m..n]
    && (page.next == [] ==> n == |all|)
    && (page.next != [] ==> n > m && CursorAt(codec, all, n, page.next))
  }

  ghost predicate EncodesAll(codec: Codec, all: seq<Position>) {
    forall i :: 0 <= i < |all| ==> codec.encode(all[i]).Ok? && codec.encode(all[i]).value != []
  }

  /** Cursors of `sealer` open under `opener`. */
  ghost predicate ReadsAll(sealer: Codec, opener: Codec, all: seq<Position>) {
    forall i :: 0 <= i < |all| && sealer.encode(all[i]).Ok? ==> opener.decode(sealer.encode(all[i]).value) == Ok(all[i])
  }

  lemma ToPageAdvances(codec: Codec, all: seq<Position>, m: nat, limit: nat)
    requires EncodesAll(codec, all) && m <= |all| && limit >= 1
    ensures var r := ToPage(codec, PageAt(all, m, limit));
            r.Ok? && Advances(codec, all, m, r.value)
  {
    if |all| - m > limit { assert |all[m..m + limit]| == limit; }
  }

  /** The request that continues a walk of `all` from position `m`. */
  ghost predicate Continues(codec: Codec, all: seq<Position>, m: nat, request: Request) {
    && 0 <= request.limit <= MAXIMUM_LIMIT && m <= |all|
    && if m == 0 then request.cursor == []
       else request.cursor != [] && codec.decode(request.cursor) == Ok(all[m - 1])
            && all[m - 1].time != ZERO_TIME && all[m - 1].id != NIL
  }

  /** One more page moves the walk forward by at least a row, or finishes it. */
  lemma PageAdvances(codec: Codec, rows: set<Position>, all: seq<Position>, m: nat, request: Request)
    requires all == Listing(rows) && EncodesAll(codec, all) && Continues(codec, all, m, request)
    ensures var r := ListPage(codec, rows, request);
            r.Ok? && Advances(codec, all, m, r.value)
  {
    var limit := PageLimit(request.limit);
    PageFrom(rows, m, if m == 0 then None else Some(all[m - 1]), limit);
    ToPageAdvances(codec, all, m, limit);
  }

  /** How far a walk of `all` has come after these visits. */
  ghost predicate OnTrack(all: seq<Position>, visits: seq<Visit>, w: Walked) {
    && |w.items| <= |all| && w.items == all[..|w.items|]
    && (w.done ==> w.items == all)
    && (!w.done ==> |w.items| >= |visits|)
    && (!w.done && visits != [] ==> CursorAt(visits[|visits| - 1].codec, all, |w.items|, w.cursor))
    && (visits == [] ==> w.cursor == [] && w.items == [])
  }

  ghost predicate WalkableList(all: seq<Position>, visits: seq<Visit>) {
    && (forall i :: 0 <= i < |all| ==> all[i].time != ZERO_TIME && all[i].id != NIL)
    && (forall i :: 0 <= i < |visits| ==> 0 <= visits[i].limit <= MAXIMUM_LIMIT && EncodesAll(visits[i].codec, all))
    && (forall i :: 0 < i < |visits| ==> ReadsAll(visits[i - 1].codec, visits[i].codec, all))
  }

  lemma TrackContinues(all: seq<Position>, visits: seq<Visit>, sofar: Walked)
    requires WalkableList(all, visits) && visits != [] && !sofar.done
    requires OnTrack(all, visits[..|visits| - 1], sofar)
    ensures var last := visits[|visits| - 1];
            Continues(last.codec, all, |sofar.items|, Request(sofar.cursor, last.limit))
  {
    var n := |visits| - 1;
    if n > 0 {
      assert CursorAt(visits[n - 1].codec, all, |sofar.items|, sofar.cursor);
      assert EncodesAll(visits[n - 1].codec, all) && ReadsAll(visits[n - 1].codec, visits[n].codec, all);
    }
  }

  lemma TrackAdvances(all: seq<Position>, visits: seq<Visit>, sofar: Walked, page: Page)
    requires visits != [] && !sofar.done && OnTrack(all, visits[..|visits| - 1], sofar)
    requires Advances(visits[|visits| - 1].codec, all, |sofar.items|, page)
    ensures OnTrack(all, visits, Walked(sofar.items + page.items, page.next, page.next == []))
  {
    var m := |sofar.items|;
    var joined := sofar.items + page.items;
    assert joined == all[..m] + all[m..|joined|] == all[..|joined|];
  }

  lemma {:induction false} WalkFollowsListing(rows: set<Position>, all: seq<Position>, visits: seq<Visit>)
    requires all == Listing(rows) && WalkableList(all, visits)
    ensures Walk(rows, visits).Ok? && OnTrack(all, visits, Walk(rows, visits).value)
  {
    if visits != [] {
      var last := visits[|visits| - 1];
      WalkFollowsListing(rows, all, visits[..|visits| - 1]);
      var sofar := Walk(rows, visits[..|visits| - 1]).value;
      if !sofar.done {
        var request := Request(sofar.cursor, last.limit);
        TrackContinues(all, visits, sofar);
        PageAdvances(last.codec, rows, all, |sofar.items|, request);
        TrackAdvances(all, visits, sofar, ListPage(last.codec, rows, request).value);
      }
    }
  }

  // ---------- walks under rotating key rings ----------

  ghost predicate ValidRings(rings: seq<Ring>) {
    forall i :: 0 <= i < |rings| ==> ValidRing(rings[i]) && SizedRing(rings[i])
  }

  /** Each ring still holds, unchanged, the key that was active before it. */
  ghost predicate KeysKept(rings: seq<Ring>) {
    forall i :: 0 < i < |rings| ==> Keeps(rings[i - 1], rings[i])
  }

  /** Each visit uses the protector built from the ring in force. */
  ghost predicate Under(visits: seq<Visit>, rings: seq<Ring>, resource: seq<Byte>)
    requires ValidRings(rings)
  {
    && |visits| == |rings|
    && forall i :: 0 <= i < |visits| ==> visits[i].codec == CodecOf(rings[i], resource)
  }

  ghost predicate SealableList(all: seq<Position>) {
    forall i :: 0 <= i < |all| ==> Representable(all[i].time) && all[i].id != NIL && IsId(all[i].id)
  }

  lemma RingEncodes(ring: Ring, resource: seq<Byte>, all: seq<Position>)
    requires ValidRing(ring) && SizedRing(ring) && ValidResource(resource) && SealableList(all)
    ensures EncodesAll(CodecOf(ring, resource), all)
  {
    forall i | 0 <= i < |all|
      ensures EncodeCursor(ring, resource, all[i]).Ok? && EncodeCursor(ring, resource, all[i]).value != []
    {
      EncodeAlwaysFits(ring, resource, all[i]);
    }
  }

  lemma RingReads(sealer: Ring, opener: Ring, resource: seq<Byte>, all: seq<Position>)
    requires ValidRing(sealer) && SizedRing(sealer) && ValidRing(opener) && Keeps(sealer, opener) && SealableList(all)
    ensures ReadsAll(CodecOf(sealer, resource), CodecOf(opener, resource), all)
  {
    forall i | 0 <= i < |all| && EncodeCursor(sealer, resource, all[i]).Ok?
      ensures DecodeCursor(opener, resource, EncodeCursor(sealer, resource, all[i]).value) == Ok(all[i])
    {
      CursorRoundTrip(sealer, opener, resource, all[i]);
    }
  }

  lemma RingsWalkable(all: seq<Position>, visits: seq<Visit>, rings: seq<Ring>, resource: seq<Byte>)
    requires ValidResource(resource) && ValidRings(rings) && KeysKept(rings) && Under(visits, rings, resource) && SealableList(all)
    requires forall i :: 0 <= i < |visits| ==> 0 <= visits[i].limit <= MAXIMUM_LIMIT
    ensures WalkableList(all, visits)
  {
    forall i | 0 <= i < |visits| ensures EncodesAll(visits[i].codec, all) { RingEncodes(rings[i], resource, all); }
    forall i | 0 < i < |visits| ensures ReadsAll(visits[i - 1].codec, visits[i].codec, all) {
      RingReads(rings[i - 1], rings[i], resource, all);
    }
  }

  /** Rows newest first, none twice, none foreign; all of them when the walk is over; over within
      one request more than there are rows. */
  ghost predicate Complete(rows: set<Position>, requests: nat, w: Walked) {
    && NewestFirst(w.items)
    && (forall p :: p in w.items ==> p in rows)
    && (w.done ==> |w.items| == |rows| && forall p :: p in rows ==> p in w.items)
    && (requests > |rows| ==> w.done)
  }

  lemma TrackComplete(rows: set<Position>, visits: seq<Visit>, w: Walked)
    requires OnTrack(Listing(rows), visits, w)
    ensures Complete(rows, |visits|, w)
  {
    ListingOf(rows);
    assert forall p :: p in w.items ==> p in Listing(rows);
  }

  lemma ListingSealable(rows: set<Position>)
    requires Sealable(rows)
    ensures SealableList(Listing(rows))
  {
    ListingOf(rows);
    assert forall i :: 0 <= i < |Listing(rows)| ==> Listing(rows)[i] in Listing(rows);
  }

  /** Walking by returned cursors, with any limits and any rings that keep the last sealing key,
      never fails, shows the rows newest first without gap or repetition, has shown them all when it
      ends, and ends within one request more than there are rows. */
  lemma WalkVisitsEveryRowOnce(rows: set<Position>, visits: seq<Visit>, rings: seq<Ring>, resource: seq<Byte>)
    requires ValidResource(resource) && Sealable(rows) && ValidRings(rings) && KeysKept(rings) && Under(visits, rings, resource)
    requires forall i :: 0 <= i < |visits| ==> 0 <= visits[i].limit <= MAXIMUM_LIMIT
    ensures Walk(rows, visits).Ok? && Complete(rows, |visits|, Walk(rows, visits).value)
  {
    ListingSealable(rows);
    RingsWalkable(Listing(rows), visits, rings, resource);
    WalkFollowsListing(rows, Listing(rows), visits);
    TrackComplete(rows, visits, Walk(rows, visits).value);
  }
}
