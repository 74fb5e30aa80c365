/** What authorizing and revoking devices, signing in, refreshing and logging out ask of the rows they find, and what
    they leave. */
module AccessSpec {
  import opened Common
  import opened AccountState
  import opened AccessSteps
  import opened AccountRuns
  import opened AccountInvariants
  import opened AccountProofs
  import opened AccessTheorems
  import opened AccountEffects
  import opened SessionTheorems

  // ---------- installations and keys are told apart ----------

  /** No two devices share an installation or a key. */
  ghost predicate Apart(devices: map<Uuid, Device>) {
    forall d, e :: d in devices && e in devices && d != e ==>
      devices[d].installation != devices[e].installation && devices[d].publicKey != devices[e].publicKey
  }

  /** Every device was there before, on the same installation with the same key. */
  ghost predicate NoneNew(a: map<Uuid, Device>, b: map<Uuid, Device>) {
    forall d :: d in b ==> d in a && b[d].installation == a[d].installation && b[d].publicKey == a[d].publicKey
  }

  lemma NoneNewApart(a: map<Uuid, Device>, b: map<Uuid, Device>)
    requires Apart(a) && NoneNew(a, b)
    ensures Apart(b)
  {
    forall d, e | d in b && e in b && d != e
      ensures b[d].installation != b[e].installation && b[d].publicKey != b[e].publicKey
    {
      assert d in a && e in a;
    }
  }

  lemma NoIdsNoneNew(a: Db, b: Db, again: set<Uuid>, replayed: set<Uuid>)
    requires RowInv(b) && RowsAdvance(a, b, again, replayed) && b.issued == a.issued
    ensures NoneNew(a.devices, b.devices)
  {
  }

  lemma AuthorizeApart(db: Db, r: AuthorizeRecord)
    requires Apart(db.devices) && Authorize(db, r).Ok?
    ensures Apart(Authorize(db, r).value.devices)
  {
    var known := Installed(db.devices, r.installation);
    if known != {} {
      assert Least(known) in known;
      NoneNewApart(db.devices, Authorize(db, r).value.devices);
    } else {
      forall d | d in db.devices ensures db.devices[d].installation != r.installation { assert d !in known; }
    }
  }

  lemma RevokedApart(db: Db, r: RevokeDeviceRecord)
    requires Apart(db.devices) && RevokeOwnDevice(db, r).Ok?
    ensures Apart(RevokeOwnDevice(db, r).value.devices)
  {
    NoneNewApart(db.devices, RevokeOwnDevice(db, r).value.devices);
  }

  lemma SelfRevokedApart(db: Db, r: SelfRevokeRecord)
    requires Apart(db.devices) && SelfRevoke(db, r).Ok?
    ensures Apart(SelfRevoke(db, r).value.devices)
  {
    NoneNewApart(db.devices, SelfRevoke(db, r).value.devices);
  }

  lemma SessionStepsKeepDevices(db: Db, e: Event)
    requires IsAccess(e) && !e.AuthorizeEvent? && !e.RevokeDeviceEvent? && !e.SelfRevokeEvent?
    ensures Access(db, e).devices == db.devices
  {
  }

  lemma AccessApart(db: Db, e: Event)
    requires IsAccess(e) && Apart(db.devices)
    ensures Apart(Access(db, e).devices)
  {
    match e
    case AuthorizeEvent(r) => if Authorize(db, r).Ok? { AuthorizeApart(db, r); }
    case RevokeDeviceEvent(r) => if RevokeOwnDevice(db, r).Ok? { RevokedApart(db, r); }
    case SelfRevokeEvent(r) => if SelfRevoke(db, r).Ok? { SelfRevokedApart(db, r); }
    case _ => SessionStepsKeepDevices(db, e);
  }

  lemma AccountStepAddsNone(db: Db, e: Event)
    requires Inv(db) && (IsSelfService(e) || IsOperator(e) || e.ExecuteEvent?)
    ensures NoneNew(db.devices, Apply(db, e).devices)
  {
    StepKept(db, e);
    StepKeepsIds(db, e);
    NoIdsNoneNew(db, Apply(db, e), AgainBy(db, e), ReplayedBy(db, e));
  }

  lemma OtherStepAddsNone(db: Db, e: Event)
    requires Inv(db) && !IsAccess(e)
    ensures NoneNew(db.devices, Apply(db, e).devices)
  {
    if IsSelfService(e) || IsOperator(e) || e.ExecuteEvent? { AccountStepAddsNone(db, e); } else { AroundIsLocal(db, e); }
  }

  lemma StepApart(db: Db, e: Event)
    requires Inv(db) && Apart(db.devices)
    ensures Apart(Apply(db, e).devices)
  {
    if IsAccess(e) {
      AccessApart(db, e);
    } else {
      OtherStepAddsNone(db, e);
      NoneNewApart(db.devices, Apply(db, e).devices);
    }
  }

  lemma NextApart(trace: seq<Db>, events: seq<Event>, i: nat)
    requires IsRun(trace, events) && i < |events| && Apart(trace[i].devices)
    ensures Apart(trace[i + 1].devices)
  {
    RunInv(trace, events, i);
    assert StepAt(trace, events, i);
    StepApart(trace[i], events[i]);
  }

  /** In every reachable state an installation, and a key, belong to one device. */
  lemma {:induction false} DevicesStayApart(trace: seq<Db>, events: seq<Event>, i: nat)
    requires IsRun(trace, events) && i <= |events|
    ensures Apart(trace[i].devices)
  {
    if i > 0 {
      DevicesStayApart(trace, events, i - 1);
      NextApart(trace, events, i - 1);
    }
  }

  // ---------- devices ----------

  ghost predicate ActiveUser(db: Db, u: Uuid) { u in db.users && db.users[u].status == Active }

  ghost predicate Room(db: Db, u: Uuid) {
    |set d | d in db.devices && db.devices[d].user == u && db.devices[d].status == DeviceActive| < db.deviceLimit
  }

  ghost predicate Known(db: Db, r: AuthorizeRecord, d: Uuid) {
    d in db.devices && db.devices[d].installation == r.installation
  }

  /** A known installation, with its key, of the same user or one who let go of it. */
  ghost predicate MayReturn(db: Db, r: AuthorizeRecord, d: Uuid) {
    && Known(db, r, d) && db.devices[d].publicKey == r.publicKey
    && (db.devices[d].user == r.user || (db.devices[d].status == DeviceRevoked && !r.backupBound))
    && (db.devices[d].status == DeviceActive || Room(db, r.user))
  }

  ghost predicate ReturnedAs(db: Db, b: Db, r: AuthorizeRecord, d: Uuid) {
    && d in db.devices
    && b == db.(devices := db.devices[d := Device(r.user, r.installation, r.publicKey, DeviceActive, None)])
  }

  /** An authorization of a known installation brings its device back, exactly where the row allows it. */
  lemma ReturnDoes(db: Db, r: AuthorizeRecord, d: Uuid)
    requires Apart(db.devices) && Known(db, r, d)
    ensures Authorize(db, r).Ok? <==> ActiveUser(db, r.user) && MayReturn(db, r, d)
    ensures Authorize(db, r).Ok? ==> ReturnedAs(db, Authorize(db, r).value, r, d)
  {
    var known := Installed(db.devices, r.installation);
    assert d in known && Least(known) in known;
    assert Least(known) == d;
    assert ActiveDevicesOf(db.devices, r.user)
        == set x | x in db.devices && db.devices[x].user == r.user && db.devices[x].status == DeviceActive;
  }

  ghost predicate MayAdd(db: Db, r: AuthorizeRecord) {
    && ActiveUser(db, r.user) && Room(db, r.user) && r.device !in db.issued
    && forall d :: d in db.devices ==> db.devices[d].publicKey != r.publicKey
  }

  /** An authorization of a new installation adds a device, exactly where there is room and the key is new. */
  lemma AddDoes(db: Db, r: AuthorizeRecord)
    requires forall d :: !Known(db, r, d)
    ensures Authorize(db, r).Ok? <==> MayAdd(db, r)
    ensures Authorize(db, r).Ok? ==>
              Authorize(db, r).value
              == db.(devices := db.devices[r.device := Device(r.user, r.installation, r.publicKey, DeviceActive, None)],
                     issued := db.issued + {r.device})
  {
    forall d | d in Installed(db.devices, r.installation) ensures false { assert Known(db, r, d); }
    assert ActiveDevicesOf(db.devices, r.user)
        == set x | x in db.devices && db.devices[x].user == r.user && db.devices[x].status == DeviceActive;
  }

  ghost predicate OwnsDevice(db: Db, u: Uuid, d: Uuid) { d in db.devices && db.devices[d].user == u }

  /** Devices, sessions and entitlements aside. */
  ghost predicate OnlyCut(a: Db, b: Db, cut: Cut) {
    CutDown(a, b, cut) && b == a.(devices := b.devices, sessions := b.sessions, entitlements := b.entitlements)
  }

  /** An active user may revoke an own device that is not revoked yet, with all its sessions and entitlements. */
  lemma RevokeDeviceDoes(db: Db, r: RevokeDeviceRecord)
    requires Inv(db)
    ensures RevokeOwnDevice(db, r).Ok? <==>
              ActiveUser(db, r.user) && OwnsDevice(db, r.user, r.device) && db.devices[r.device].status != DeviceRevoked
    ensures RevokeOwnDevice(db, r).Ok? ==>
              OnlyCut(db, RevokeOwnDevice(db, r).value, DeviceOnly(db, r.user, r.device, r.at, ByDeviceRevocation))
  {
    if RevokeOwnDevice(db, r).Ok? { OwnDeviceEnds(db, RevokeOwnDevice(db, r).value, r.user, r.device, r.at); }
  }

  /** An active device may revoke itself, once per nonce. */
  lemma SelfRevokeDoes(db: Db, r: SelfRevokeRecord)
    requires Inv(db)
    ensures SelfRevoke(db, r).Ok? <==>
              && r.user != NIL && r.device != NIL && r.installation != NIL && r.at != ZERO_TIME && !r.replayed
              && OwnsDevice(db, r.user, r.device) && db.devices[r.device].installation == r.installation
              && db.devices[r.device].status == DeviceActive
    ensures SelfRevoke(db, r).Ok? ==>
              OnlyCut(db, SelfRevoke(db, r).value, DeviceOnly(db, r.user, r.device, r.at, BySelfRevocation))
  {
    if SelfRevoke(db, r).Ok? { OwnDeviceEnds(db, SelfRevoke(db, r).value, r.user, r.device, r.at); }
  }

  // ---------- sessions ----------

  ghost predicate MayCreate(db: Db, r: CreateRecord) {
    && r.session != NIL && r.family != NIL && r.user != NIL && r.device != NIL && r.installation != NIL && r.expiresAt > r.issuedAt
    && r.session !in db.issued && r.family !in db.issued && ActiveUser(db, r.user)
    && OwnsDevice(db, r.user, r.device) && db.devices[r.device].status == DeviceActive
    && db.devices[r.device].installation == r.installation
  }

  /** A session is opened exactly for an active user on an active device of that user; the space follows. */
  lemma CreateDoes(db: Db, r: CreateRecord)
    requires Inv(db)
    ensures CreateSession(db, r).Ok? <==> MayCreate(db, r)
    ensures CreateSession(db, r).Ok? ==>
              CreateSession(db, r).value
              == db.(sessions := db.sessions[r.session := Session(r.user, r.device, r.family, r.expiresAt, None, None, None)],
                     issued := db.issued + {r.session, r.family})
  {
    if r.user in db.users { assert UserOk(db.users, db.spaces, db.credentials, r.user); }
  }

  /** Every session of the family ends here, if it had not ended before. */
  ghost predicate FamilyEnded(a: map<Uuid, Session>, b: map<Uuid, Session>, family: Uuid, at: Time, reason: Reason) {
    && b.Keys == a.Keys
    && forall s :: s in a ==>
         b[s] == if a[s].family == family && a[s].revokedAt.None? then a[s].(revokedAt := Some(at), reason := Some(reason)) else a[s]
  }

  /** The same, but a replay is the reason from now on, whatever the reason was. */
  ghost predicate FamilyReplayed(a: map<Uuid, Session>, b: map<Uuid, Session>, family: Uuid, at: Time) {
    && b.Keys == a.Keys
    && forall s :: s in a ==>
         if a[s].family != family then b[s] == a[s]
         else b[s] == a[s].(revokedAt := if a[s].revokedAt.None? then Some(at) else a[s].revokedAt, reason := Some(ByReplay))
  }

  lemma EndsFamily(db: Db, family: Uuid, at: Time, reason: Reason)
    requires Inv(db)
    ensures FamilyEnded(db.sessions, RevokeSessions(db.sessions, Family(db.sessions, family), at, reason), family, at, reason)
  {
  }

  /** Logging out ends the family of the session whose token is presented. */
  lemma LogoutDoes(db: Db, s: Uuid, at: Time)
    requires Inv(db)
    ensures Logout(db, s, at).Ok? <==> s in db.sessions
    ensures Logout(db, s, at).Ok? ==>
              var b := Logout(db, s, at).value;
              b == db.(sessions := b.sessions) && FamilyEnded(db.sessions, b.sessions, db.sessions[s].family, at, ByLogout)
  {
    if s in db.sessions { EndsFamily(db, db.sessions[s].family, at, ByLogout); }
  }

  /** The sweep takes exactly the expired sessions. */
  lemma SweepDoes(db: Db, now: Time)
    ensures var b := SweepSessions(db, now);
            && b == db.(sessions := b.sessions)
            && forall s :: (s in b.sessions <==> s in db.sessions && db.sessions[s].expiresAt > now)
                           && (s in b.sessions ==> b.sessions[s] == db.sessions[s])
  {
  }

  /** A presented token that leads somewhere. */
  ghost predicate Presented(db: Db, r: RotateRecord) {
    r.successor != NIL && r.expiresAt > r.issuedAt && r.source in db.sessions
  }

  /** What a refresh leaves: a replay marks the family; a session that is revoked or expired ends it; an open one is
      replaced by its successor, with the same user, device and family. */
  ghost predicate RefreshedAs(db: Db, b: Db, r: RotateRecord)
    requires r.source in db.sessions
  {
    var row := db.sessions[r.source];
    && b == db.(sessions := b.sessions, issued := b.issued)
    && if row.replacedAt.Some? then b.issued == db.issued && FamilyReplayed(db.sessions, b.sessions, row.family, r.at)
       else if row.revokedAt.Some? || row.expiresAt <= r.at
       then b.issued == db.issued && FamilyEnded(db.sessions, b.sessions, row.family, r.at, ByInvalidSession)
       else if r.successor in db.issued then b == db
       else && b.issued == db.issued + {r.successor}
            && b.sessions == db.sessions[r.source := row.(replacedAt := Some(r.at))]
                                        [r.successor := Session(row.user, row.device, row.family, r.expiresAt, None, None, None)]
  }

  lemma EveryRotation(db: Db, r: RotateRecord)
    requires Inv(db) && AccessInv(db) && Presented(db, r) && Joined(db, db.sessions[r.source])
    ensures RefreshedAs(db, Rotate(db, r).0, r)
  {
    var row := db.sessions[r.source];
    EndsFamily(db, row.family, r.at, ByInvalidSession);
    if Live(db, r.source) { assert LiveOk(db, r.source); }
  }

  /** In every reachable state a refresh leaves exactly that; a session whose device or space went is left as it is,
      and so is everything when the request itself is malformed. */
  lemma RefreshDoes(trace: seq<Db>, events: seq<Event>, r: RotateRecord)
    requires IsRun(trace, events)
    ensures var db := trace[|events|];
            if Presented(db, r) && Joined(db, db.sessions[r.source]) then RefreshedAs(db, Rotate(db, r).0, r)
            else Rotate(db, r) == (db, Some(SessionEnded))
  {
    var db := trace[|events|];
    RunInv(trace, events, |events|);
    RunAccess(trace, events, |events|);
    if Presented(db, r) && Joined(db, db.sessions[r.source]) { EveryRotation(db, r); }
  }
}
