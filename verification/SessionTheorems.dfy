/** Session families: a refresh replaces the family's one open session, and a replayed token ends them all. */
module SessionTheorems {
  import opened Common
  import opened AccountState
  import opened AccessSteps
  import opened AccountRuns
  import opened AccountInvariants
  import opened AccountProofs
  import opened AccessTheorems

  // ---------- where sessions come from ----------

  /** The event signs in as session `s`. */
  ghost predicate SignsIn(db: Db, e: Event, s: Uuid) {
    e.CreateEvent? && CreateSession(db, e.create).Ok? && s == e.create.session
  }

  /** The event replaces an open session by session `s`. */
  ghost predicate Succeeds(db: Db, e: Event, s: Uuid) {
    && e.RotateEvent? && Live(db, e.rotate.source) && db.sessions[e.rotate.source].replacedAt.None?
    && s == e.rotate.successor
  }

  ghost predicate SessionsFrom(a: Db, b: Db, e: Event) {
    forall s :: s in b.sessions && s !in a.sessions ==> SignsIn(a, e, s) || Succeeds(a, e, s)
  }

  /** A step that gives out no identifier adds no session. */
  lemma NoIdsNoSessions(a: Db, b: Db, again: set<Uuid>, replayed: set<Uuid>)
    requires RowInv(b) && RowsAdvance(a, b, again, replayed) && b.issued == a.issued
    ensures b.sessions.Keys <= a.sessions.Keys
  {
  }

  lemma StepKeepsIds(db: Db, e: Event)
    requires Inv(db) && (IsSelfService(e) || IsOperator(e) || e.ExecuteEvent?)
    ensures Apply(db, e).issued == db.issued
  {
    if IsSelfService(e) { SelfServiceKeepsRings(db, e); }
    else if IsOperator(e) { OperatorKeepsRings(db, e); }
    else { ExecuteKeepsRings(db, e.call); }
  }

  lemma RotateAdds(db: Db, b: Db, r: RotateRecord)
    requires Rotated(db, b, r)
    ensures SessionsFrom(db, b, RotateEvent(r))
  {
  }

  lemma AccessAdds(db: Db, e: Event)
    requires IsAccess(e)
    ensures SessionsFrom(db, Access(db, e), e)
  {
    match e
    case RotateEvent(r) => RotateShape(db, r); RotateAdds(db, Rotate(db, r).0, r);
    case CreateEvent(r) =>
    case AuthorizeEvent(r) => AuthorizeKeepsSessions(db, r);
    case RevokeDeviceEvent(r) =>
    case SelfRevokeEvent(r) =>
    case LogoutEvent(s, at) =>
    case EndFamilyEvent(family, at) =>
    case ExpireEvent(now) =>
  }

  lemma AuthorizeKeepsSessions(db: Db, r: AuthorizeRecord)
    ensures Committed(db, Authorize(db, r)).sessions == db.sessions
  {
  }

  lemma AccountStepAdds(db: Db, e: Event)
    requires Inv(db) && (IsSelfService(e) || IsOperator(e) || e.ExecuteEvent?)
    ensures Apply(db, e).sessions.Keys <= db.sessions.Keys
  {
    StepKept(db, e);
    StepKeepsIds(db, e);
    NoIdsNoSessions(db, Apply(db, e), AgainBy(db, e), ReplayedBy(db, e));
  }

  lemma StepAdds(db: Db, e: Event)
    requires Inv(db)
    ensures SessionsFrom(db, Apply(db, e), e)
  {
    if IsAccess(e) { AccessAdds(db, e); }
    else if IsSelfService(e) || IsOperator(e) || e.ExecuteEvent? { AccountStepAdds(db, e); }
    else { AroundIsLocal(db, e); }
  }

  // ---------- one open session per family ----------

  /** Neither revoked nor replaced. */
  ghost predicate Open(db: Db, s: Uuid) { Live(db, s) && db.sessions[s].replacedAt.None? }

  ghost predicate OneOpen(db: Db) {
    forall s, t :: Open(db, s) && Open(db, t) && db.sessions[s].family == db.sessions[t].family ==> s == t
  }

  /** A family that was given out and has no live session. */
  ghost predicate Ended(db: Db, f: Uuid) {
    f in db.issued && forall s :: Live(db, s) ==> db.sessions[s].family != f
  }

  /** What was live, or open, before. */
  ghost predicate WasLive(a: Db, b: Db, s: Uuid) {
    Live(a, s) && Live(b, s) && a.sessions[s].family == b.sessions[s].family && (Open(b, s) ==> Open(a, s))
  }

  lemma OldWasLive(a: Db, b: Db, again: set<Uuid>, replayed: set<Uuid>, s: Uuid)
    requires SessionRows(a.sessions, a.issued) && RowsAdvance(a, b, again, replayed) && s in a.sessions && Live(b, s)
    ensures WasLive(a, b, s)
  {
  }

  /** A live session was live before, or is the first of a family, or took the place of the family's open one. */
  ghost predicate ComesFrom(a: Db, b: Db, s: Uuid) {
    || WasLive(a, b, s)
    || (NoOther(a, b, s) && b.sessions[s].family !in a.issued)
    || (NoOther(a, b, s) && exists t :: Open(a, t) && a.sessions[t].family == b.sessions[s].family && !Open(b, t))
  }

  ghost predicate AllComeFrom(a: Db, b: Db) {
    forall s {:trigger Live(b, s)} :: Live(b, s) ==> ComesFrom(a, b, s)
  }

  /** Session `s` is new, and the only one. */
  ghost predicate NoOther(a: Db, b: Db, s: Uuid) {
    s in b.sessions && s !in a.sessions && forall t :: t in b.sessions && t != s ==> t in a.sessions
  }

  lemma CreateComesFrom(db: Db, r: CreateRecord)
    requires SessionRows(db.sessions, db.issued) && CreateSession(db, r).Ok?
    ensures ComesFrom(db, CreateSession(db, r).value, r.session)
  {
  }

  lemma RotateComesFrom(db: Db, b: Db, r: RotateRecord)
    requires Inv(db) && Rotated(db, b, r) && r.successor in b.sessions && r.successor !in db.sessions
    ensures ComesFrom(db, b, r.successor)
  {
    assert Open(db, r.source) && !Open(b, r.source);
  }

  lemma AddedComesFrom(db: Db, e: Event, s: Uuid)
    requires Inv(db) && s in Apply(db, e).sessions && s !in db.sessions
    ensures ComesFrom(db, Apply(db, e), s)
  {
    StepAdds(db, e);
    if e.CreateEvent? {
      CreateComesFrom(db, e.create);
    } else {
      RotateShape(db, e.rotate);
      RotateComesFrom(db, Rotate(db, e.rotate).0, e.rotate);
    }
  }

  lemma StepComesFrom(db: Db, e: Event)
    requires Inv(db)
    ensures AllComeFrom(db, Apply(db, e))
  {
    StepKept(db, e);
    forall s | Live(Apply(db, e), s) ensures ComesFrom(db, Apply(db, e), s) {
      if s in db.sessions {
        OldWasLive(db, Apply(db, e), AgainBy(db, e), ReplayedBy(db, e), s);
      } else {
        AddedComesFrom(db, e, s);
      }
    }
  }

  lemma OneOpenNext(a: Db, b: Db)
    requires SessionRows(a.sessions, a.issued) && OneOpen(a)
    requires AllComeFrom(a, b)
    ensures OneOpen(b)
  {
    forall s, t | Open(b, s) && Open(b, t) && b.sessions[s].family == b.sessions[t].family ensures s == t {
      assert ComesFrom(a, b, s) && ComesFrom(a, b, t);
    }
  }

  lemma EndedNext(a: Db, b: Db, f: Uuid)
    requires Ended(a, f) && a.issued <= b.issued
    requires AllComeFrom(a, b)
    ensures Ended(b, f)
  {
    forall s | Live(b, s) ensures b.sessions[s].family != f { assert ComesFrom(a, b, s); }
  }

  lemma NextComesFrom(trace: seq<Db>, events: seq<Event>, i: nat)
    requires IsRun(trace, events) && i < |events|
    ensures AllComeFrom(trace[i], trace[i + 1])
    ensures SessionRows(trace[i].sessions, trace[i].issued) && trace[i].issued <= trace[i + 1].issued
  {
    RunInv(trace, events, i);
    NextExtends(trace, events, i);
    RunApply(trace, events, i);
    StepComesFrom(trace[i], events[i]);
  }

  /** In every reachable state a session family has at most one session that is neither revoked nor replaced. */
  lemma {:induction false} OneOpenPerFamily(trace: seq<Db>, events: seq<Event>, i: nat)
    requires IsRun(trace, events) && i <= |events|
    ensures OneOpen(trace[i])
  {
    if i > 0 {
      OneOpenPerFamily(trace, events, i - 1);
      NextComesFrom(trace, events, i - 1);
      OneOpenNext(trace[i - 1], trace[i]);
    }
  }

  lemma {:induction false} EndedStays(trace: seq<Db>, events: seq<Event>, i: nat, j: nat, f: Uuid)
    requires IsRun(trace, events) && i <= j <= |events| && Ended(trace[i], f)
    ensures Ended(trace[j], f)
    decreases j
  {
    if i < j {
      EndedStays(trace, events, i, j - 1, f);
      NextComesFrom(trace, events, j - 1);
      EndedNext(trace[j - 1], trace[j], f);
    }
  }

  // ---------- replays ----------

  ghost predicate ReplaysAt(trace: seq<Db>, events: seq<Event>, i: nat) {
    i < |events| && i < |trace| && events[i].RotateEvent? && Replays(trace[i], events[i].rotate)
  }

  lemma ReplayStep(db: Db, r: RotateRecord)
    requires SessionRows(db.sessions, db.issued) && Replays(db, r)
    ensures Ended(Rotate(db, r).0, db.sessions[r.source].family)
  {
  }

  lemma RotateApplies(db: Db, e: Event)
    requires RingsOk(db) && e.RotateEvent?
    ensures Apply(db, e) == Access(db, e) == Rotate(db, e.rotate).0
  {
  }

  lemma ReplayedAtNext(trace: seq<Db>, events: seq<Event>, i: nat)
    requires IsRun(trace, events) && ReplaysAt(trace, events, i)
    ensures Ended(trace[i + 1], trace[i].sessions[events[i].rotate.source].family)
  {
    RunInv(trace, events, i);
    RunApply(trace, events, i);
    RotateApplies(trace[i], events[i]);
    ReplayStep(trace[i], events[i].rotate);
  }

  /** After a replay no session of the family is live in any later state, one signed in or refreshed later included,
      and those that were there carry the replay as their reason. */
  lemma ReplayEndsFamily(trace: seq<Db>, events: seq<Event>, i: nat, j: nat, s: Uuid)
    requires IsRun(trace, events) && ReplaysAt(trace, events, i) && i < j <= |events| && s in trace[j].sessions
    requires trace[j].sessions[s].family == trace[i].sessions[events[i].rotate.source].family
    ensures trace[j].sessions[s].revokedAt.Some?
    ensures s in trace[i].sessions ==> trace[j].sessions[s].reason == Some(ByReplay)
  {
    var f := trace[i].sessions[events[i].rotate.source].family;
    ReplayedAtNext(trace, events, i);
    EndedStays(trace, events, i + 1, j, f);
    assert !Live(trace[j], s);
    if s in trace[i].sessions {
      RunSession(trace, events, i, j, s);
      GatherFirst(ReplaySteps(trace, events), i, j);
    }
  }
}
