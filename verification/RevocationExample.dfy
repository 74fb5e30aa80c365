/** One run in which a session revoked by logging out has its reason replaced by a replay, and a device that was
    revoked is authorized again. */
module RevocationExample {
  import opened Common
  import opened Bytes
  import opened Protector
  import opened AccountState
  import opened AccountSteps
  import opened AccessSteps
  import opened AccountRuns
  import opened AccountProofs

  const KEY: KeyId := [1]
  const DIGEST: seq<Byte> := [0, 0, 0, 0, 0, 0, 0, 0]
  const LOGIN: Login := [97]
  const LOOKUP := LookupRing(KEY, map[KEY := (kind: Kind, login: Login) => DIGEST], [KEY])

  // user 1 with identity 2, device 3 of installation 4, sessions 6 and 8 of family 7
  const REGISTER := RegisterRecord(true, 1, 2, Claims(NIL, Registration, Email, LOGIN), KEY, DIGEST, [120], 1)
  const AUTHORIZE := AuthorizeRecord(3, 1, 4, [5], false)
  const SIGN_IN := CreateRecord(6, 1, 3, 4, 7, 1, 100)
  const REFRESH := RotateRecord(6, 8, 2, 100, 2)
  const REPLAY := RotateRecord(6, 9, 4, 100, 4)
  const REVOKE := RevokeDeviceRecord(1, 3, 5)

  const EVENTS: seq<Event> := [
    RegisterEvent(REGISTER), AuthorizeEvent(AUTHORIZE), CreateEvent(SIGN_IN), RotateEvent(REFRESH), LogoutEvent(8, 3),
    RotateEvent(REPLAY), RevokeDeviceEvent(REVOKE), AuthorizeEvent(AUTHORIZE)]

  lemma LookupIsValid()
    ensures ValidLookup(LOOKUP)
  {
    assert LOOKUP.order[1..] == [];
  }

  // ---------- step by step ----------

  ghost predicate SignedUp(db: Db) {
    && 1 in db.users && db.users[1].status.Active? && 1 in db.spaces && db.spaces[1] && db.deviceLimit == 1
  }

  lemma Registers(db: Db)
    requires db.lookup == LOOKUP && ValidLookup(db.lookup) && db.users == map[] && db.identities == map[]
    requires db.credentials == map[] && db.spaces == map[] && db.deviceLimit == 1
    ensures Register(db, REGISTER).Ok?
    ensures var b := Register(db, REGISTER).value;
            SignedUp(b) && b.devices == db.devices && b.sessions == db.sessions && b.issued == db.issued
  {
    var candidates := Candidates(db.lookup, Email, LOGIN);
    assert Candidate(KEY, DIGEST) in candidates;
    assert forall c :: c in candidates ==> c == Candidate(KEY, DIGEST);
    StableIsDigest(candidates);
    assert !IdentityExists(db, Email, LOGIN);
  }

  lemma {:induction false} StableIsDigest(candidates: seq<Candidate>)
    requires candidates != [] && forall c :: c in candidates ==> c == Candidate(KEY, DIGEST)
    ensures StableCandidate(candidates) == Candidate(KEY, DIGEST)
  {
    assert candidates[0] in candidates && candidates[|candidates| - 1] in candidates;
    if |candidates| > 1 {
      var front := candidates[..|candidates| - 1];
      forall c | c in front ensures c == Candidate(KEY, DIGEST) { assert c in candidates; }
      StableIsDigest(front);
    }
  }

  ghost predicate OnDevice(db: Db, status: DeviceStatus) {
    && SignedUp(db) && db.devices.Keys == {3} && db.devices[3].status == status
    && db.devices[3].user == 1 && db.devices[3].installation == 4 && db.devices[3].publicKey == [5]
  }

  ghost predicate Ready(db: Db) { OnDevice(db, DeviceActive) && db.sessions == map[] && db.issued == {3} }

  lemma Authorizes(db: Db)
    requires SignedUp(db) && db.devices == map[] && db.sessions == map[] && db.issued == {}
    ensures Ready(Access(db, AuthorizeEvent(AUTHORIZE)))
  {
    assert Installed(db.devices, 4) == {};
    assert ActiveDevicesOf(db.devices, 1) == {};
    assert Authorize(db, AUTHORIZE).Ok?;
  }

  /** One open session. */
  ghost predicate OneSession(db: Db) {
    && OnDevice(db, DeviceActive) && db.sessions == map[6 := Session(1, 3, 7, 100, None, None, None)] && 8 !in db.issued
  }

  lemma SignsIn(db: Db)
    requires Ready(db)
    ensures OneSession(Access(db, CreateEvent(SIGN_IN)))
  {
    assert CreateSession(db, SIGN_IN).Ok?;
  }

  /** Session 6 was replaced by 8. */
  ghost predicate TwoSessions(db: Db, revokedAt: Option<Time>, reason: Option<Reason>) {
    && OnDevice(db, DeviceActive) && db.sessions.Keys == {6, 8} && db.sessions[6].replacedAt.Some?
    && db.sessions[6].user == 1 && db.sessions[6].device == 3 && db.sessions[6].family == db.sessions[8].family == 7
    && db.sessions[8].revokedAt == revokedAt && db.sessions[8].reason == reason
  }

  lemma IsRefreshed(db: Db)
    requires OneSession(db)
    ensures TwoSessions(Access(db, RotateEvent(REFRESH)), None, None)
  {
    assert Refresh(db, REFRESH).error.None?;
  }

  lemma LogsOut(db: Db)
    requires TwoSessions(db, None, None)
    ensures TwoSessions(Access(db, LogoutEvent(8, 3)), Some(3), Some(ByLogout))
  {
    assert Logout(db, 8, 3).Ok?;
  }

  lemma IsReplayed(db: Db)
    requires TwoSessions(db, Some(3), Some(ByLogout))
    ensures TwoSessions(Access(db, RotateEvent(REPLAY)), Some(3), Some(ByReplay))
  {
    assert Replays(db, REPLAY);
  }

  lemma IsRevoked(db: Db)
    requires OnDevice(db, DeviceActive)
    ensures OnDevice(Access(db, RevokeDeviceEvent(REVOKE)), DeviceRevoked)
  {
    assert RevokeOwnDevice(db, REVOKE).Ok?;
  }

  lemma Returns(db: Db)
    requires OnDevice(db, DeviceRevoked)
    ensures OnDevice(Access(db, AuthorizeEvent(AUTHORIZE)), DeviceActive)
  {
    assert 3 in Installed(db.devices, 4);
    assert Installed(db.devices, 4) == {3};
    assert ActiveDevicesOf(db.devices, 1) == {};
    assert Authorize(db, AUTHORIZE).Ok?;
  }

  // ---------- the run ----------

  /** What event `i` does, if it is one on devices or sessions. */
  lemma AccessAt(trace: seq<Db>, events: seq<Event>, i: nat, e: Event)
    requires IsRun(trace, events) && i < |events| && events[i] == e && IsAccess(e)
    ensures trace[i + 1] == Access(trace[i], e)
  {
    RunApply(trace, events, i);
  }

  lemma RegisterAt(trace: seq<Db>, events: seq<Event>, r: RegisterRecord)
    requires IsRun(trace, events) && |events| > 0 && events[0] == RegisterEvent(r)
    ensures ValidLookup(trace[0].lookup) && trace[1] == Committed(trace[0], Register(trace[0], r))
  {
    RunApply(trace, events, 0);
  }

  lemma Registered(trace: seq<Db>, events: seq<Event>)
    requires IsRun(trace, events) && |events| > 0 && events[0] == RegisterEvent(REGISTER)
    requires trace[0].lookup == LOOKUP && trace[0].deviceLimit == 1
    ensures SignedUp(trace[1]) && trace[1].devices == map[] && trace[1].sessions == map[] && trace[1].issued == {}
  {
    RegisterAt(trace, events, REGISTER);
    Registers(trace[0]);
  }

  ghost predicate AreEvents(events: seq<Event>) {
    && |events| == 8 && events[0] == RegisterEvent(REGISTER) && events[1] == AuthorizeEvent(AUTHORIZE)
    && events[2] == CreateEvent(SIGN_IN) && events[3] == RotateEvent(REFRESH) && events[4] == LogoutEvent(8, 3)
    && events[5] == RotateEvent(REPLAY) && events[6] == RevokeDeviceEvent(REVOKE) && events[7] == AuthorizeEvent(AUTHORIZE)
  }

  lemma RunOfEvents(trace: seq<Db>, events: seq<Event>)
    requires IsRun(trace, events) && AreEvents(events) && trace[0].lookup == LOOKUP && trace[0].deviceLimit == 1
    ensures TwoSessions(trace[5], Some(3), Some(ByLogout)) && TwoSessions(trace[6], Some(3), Some(ByReplay))
    ensures OnDevice(trace[7], DeviceRevoked) && OnDevice(trace[8], DeviceActive)
  {
    Registered(trace, events);
    AccessAt(trace, events, 1, AuthorizeEvent(AUTHORIZE));
    Authorizes(trace[1]);
    AccessAt(trace, events, 2, CreateEvent(SIGN_IN));
    SignsIn(trace[2]);
    AccessAt(trace, events, 3, RotateEvent(REFRESH));
    IsRefreshed(trace[3]);
    AccessAt(trace, events, 4, LogoutEvent(8, 3));
    LogsOut(trace[4]);
    AccessAt(trace, events, 5, RotateEvent(REPLAY));
    IsReplayed(trace[5]);
    AccessAt(trace, events, 6, RevokeDeviceEvent(REVOKE));
    IsRevoked(trace[6]);
    AccessAt(trace, events, 7, AuthorizeEvent(AUTHORIZE));
    Returns(trace[7]);
  }

  /** Session 8 is revoked at time 3 by logging out, and one event later for a replay; device 3 is revoked, and one event
      later active again. */
  lemma RevocationsDoNotAllStand(protector: Ring) returns (trace: seq<Db>)
    requires ValidRing(protector)
    ensures IsRun(trace, EVENTS)
    ensures 8 in trace[5].sessions && trace[5].sessions[8].revokedAt == Some(3) && trace[5].sessions[8].reason == Some(ByLogout)
    ensures 8 in trace[6].sessions && trace[6].sessions[8].revokedAt == Some(3) && trace[6].sessions[8].reason == Some(ByReplay)
    ensures 3 in trace[7].devices && trace[7].devices[3].status.DeviceRevoked?
    ensures 3 in trace[8].devices && trace[8].devices[3].status.DeviceActive?
  {
    LookupIsValid();
    trace := RunExists(Fresh(LOOKUP, protector, 1), EVENTS);
    RunOfEvents(trace, EVENTS);
  }
}
