/** Administratively disabled users, over every run: who they are, and that nothing lets them in until they are enabled. */
module DisabledTheorems {
  import opened Common
  import opened Bytes
  import opened Protector
  import opened AccountState
  import opened AccountSteps
  import opened AdminSteps
  import opened AccessSteps
  import opened AccountShapes
  import opened AccountRuns
  import opened AccountInvariants
  import opened AccountProofs
  import opened OperationTheorems
  import opened LifecycleSpec

  /** The operator's command or a control call disabled the user. */
  ghost predicate Disables(db: Db, e: Event, u: Uuid) {
    || (e.DisableEvent? && e.disable.target == u && DisableAccount(db, e.disable).Ok?)
    || (e.ExecuteEvent? && e.call.action.DisableUser? && e.call.target == u && TookEffect(db, e.call))
  }

  ghost predicate Enables(db: Db, e: Event, u: Uuid) {
    || (e.EnableEvent? && e.enable.target == u && EnableAccount(db, e.enable).Ok?)
    || (e.ExecuteEvent? && e.call.action.EnableUser? && e.call.target == u && TookEffect(db, e.call))
  }

  ghost predicate Marked(users: map<Uuid, User>, u: Uuid) { u in users && users[u].adminDisabled }

  // ---------- one step ----------

  ghost predicate SameMarks(a: map<Uuid, User>, b: map<Uuid, User>) { forall u :: Marked(b, u) <==> Marked(a, u) }

  lemma NewUserUnmarked(a: map<Uuid, User>, u: Uuid, row: User)
    requires !Marked(a, u) && !row.adminDisabled
    ensures SameMarks(a, a[u := row])
  {
  }

  lemma PasswordKeepsMarks(a: Db, b: Db, user: Uuid, password: seq<Byte>)
    requires PasswordSet(a, b, user, password)
    ensures SameMarks(a.users, b.users)
  {
  }

  lemma DeletionKeepsMarks(db: Db, e: Event)
    requires Inv(db) && (e.RequestEvent? || e.RecoverEvent? || e.FinalizeEvent?) && SelfService(db, e).Ok?
    ensures SameMarks(db.users, SelfService(db, e).value.users)
  {
    match e
    case RequestEvent(r) => RequestShape(db, r);
    case RecoverEvent(r) => RecoverShape(db, r);
    case FinalizeEvent(r) =>
      FinalizeShape(db, r);
      assert UserOk(db.users, db.spaces, db.credentials, r.user);
  }

  lemma SelfServiceKeepsMarks(db: Db, e: Event)
    requires Inv(db) && IsSelfService(e)
    ensures SameMarks(db.users, Committed(db, SelfService(db, e)).users)
  {
    if SelfService(db, e).Ok? {
      var b := SelfService(db, e).value;
      match e
      case RegisterEvent(r) => RegisterShape(db, r); NewUserUnmarked(db.users, r.user, NEW_USER);
      case LoginEvent(r) => LoginShape(db, r);
      case ResetEvent(r) => ResetShape(db, r); PasswordKeepsMarks(db, b, FindUser(db, r.claims).value, r.password);
      case BindEvent(r) => BindShape(db, r);
      case RemoveEvent(r) => RemoveShape(db, r);
      case ChangeEvent(r) => ChangeShape(db, r); PasswordKeepsMarks(db, b, r.user, r.password);
      case _ => DeletionKeepsMarks(db, e);
    }
  }

  /** Marked from now on, unmarked from now on, or as before. */
  ghost predicate MarkMoves(db: Db, e: Event, b: Db, u: Uuid) {
    Marked(b.users, u) <==> Disables(db, e, u) || (Marked(db.users, u) && !Enables(db, e, u))
  }

  lemma ActedMark(db: Db, e: Event, b: Db, action: Action, target: Uuid, secret: seq<Byte>, u: Uuid)
    requires RowsAs(db, b, action, target, secret)
    requires Disables(db, e, u) <==> action.DisableUser? && u == target
    requires Enables(db, e, u) <==> action.EnableUser? && u == target
    ensures MarkMoves(db, e, b, u)
  {
  }

  lemma OperatorMark(db: Db, e: Event, u: Uuid)
    requires Inv(db) && IsOperator(e)
    ensures MarkMoves(db, e, Committed(db, Operator(db, e)), u)
  {
    if Operator(db, e).Ok? {
      var b := Operator(db, e).value;
      match e
      case DisableEvent(m) => DisableDoes(db, m); ActedMark(db, e, b, DisableUser, m.target, [], u);
      case EnableEvent(m) => EnableDoes(db, m); ActedMark(db, e, b, EnableUser, m.target, [], u);
      case RevokeEvent(m) => RevokeDoes(db, m); ActedMark(db, e, b, RevokeSession, db.sessions[m.target].user, [], u);
    }
  }

  lemma ExecuteMark(db: Db, x: Call, u: Uuid)
    requires Inv(db)
    ensures MarkMoves(db, ExecuteEvent(x), Execute(db, x).0, u)
  {
    EffectIffSucceeded(db, x);
    if TookEffect(db, x) {
      ExecuteLeaves(db, x);
      var target := ResolveUser(db, x.action, x.target).value;
      var b :| SameButRecord(b, Execute(db, x).0) && LifecycleSpec.ActedAs(db, b, x, target);
      ActedMark(db, ExecuteEvent(x), b, x.action, target, x.secret, u);
    }
  }

  /** A step leaves a user marked exactly if it disabled the user, or found the mark and did not enable the user. */
  lemma MarkStep(db: Db, e: Event, u: Uuid)
    requires Inv(db)
    ensures MarkMoves(db, e, Apply(db, e), u)
  {
    if IsSelfService(e) { SelfServiceKeepsMarks(db, e); }
    else if IsOperator(e) { OperatorMark(db, e, u); }
    else if IsAccess(e) { AccessIsLocal(db, e); }
    else if e.ExecuteEvent? { ExecuteMark(db, e.call, u); }
    else { AroundIsLocal(db, e); }
  }

  // ---------- every run ----------

  /** Event `i` disabled the user, and none before `j` enabled the user again. */
  ghost predicate DisabledSince(trace: seq<Db>, events: seq<Event>, i: nat, j: nat, u: Uuid)
    requires |trace| == |events| + 1 && j <= |events|
  {
    i < j && Disables(trace[i], events[i], u) && forall k :: i < k < j ==> !Enables(trace[k], events[k], u)
  }

  lemma MarkAt(trace: seq<Db>, events: seq<Event>, j: nat, u: Uuid)
    requires IsRun(trace, events) && j < |events|
    ensures MarkMoves(trace[j], events[j], trace[j + 1], u)
  {
    RunInv(trace, events, j);
    assert StepAt(trace, events, j);
    MarkStep(trace[j], events[j], u);
  }

  lemma {:induction false} MarkedSince(trace: seq<Db>, events: seq<Event>, j: nat, u: Uuid)
    requires IsRun(trace, events) && j <= |events|
    ensures Marked(trace[j].users, u) <==> exists i: nat :: DisabledSince(trace, events, i, j, u)
  {
    if j > 0 {
      MarkedSince(trace, events, j - 1, u);
      MarkAt(trace, events, j - 1, u);
      SinceStep(trace, events, j - 1, j, u);
    }
  }

  lemma SinceStep(trace: seq<Db>, events: seq<Event>, j: nat, next: nat, u: Uuid)
    requires |trace| == |events| + 1 && j < |events| && next == j + 1
    ensures (exists i: nat :: DisabledSince(trace, events, i, next, u)) <==>
              || Disables(trace[j], events[j], u)
              || (!Enables(trace[j], events[j], u) && exists i: nat :: DisabledSince(trace, events, i, j, u))
  {
    if i: nat :| DisabledSince(trace, events, i, next, u) && i < j { assert DisabledSince(trace, events, i, j, u); }
    if Disables(trace[j], events[j], u) { assert DisabledSince(trace, events, j, next, u); }
    if i: nat :| DisabledSince(trace, events, i, j, u) && !Enables(trace[j], events[j], u) {
      assert DisabledSince(trace, events, i, next, u);
    }
  }

  /** Disabled, marked, and with the personal space shut. */
  ghost predicate ShutOut(db: Db, u: Uuid) {
    && u in db.users && db.users[u].status == Disabled && db.users[u].adminDisabled
    && u in db.spaces && !db.spaces[u]
  }

  /** A user is shut out exactly from the moment an operator or a control call disabled the user until the user is
      enabled, whatever else happens in between. */
  lemma ShutOutIff(trace: seq<Db>, events: seq<Event>, j: nat, u: Uuid)
    requires IsRun(trace, events) && j <= |events|
    ensures ShutOut(trace[j], u) <==> exists i: nat :: DisabledSince(trace, events, i, j, u)
  {
    MarkedSince(trace, events, j, u);
    RunInv(trace, events, j);
    var db := trace[j];
    if Marked(db.users, u) { assert UserOk(db.users, db.spaces, db.credentials, u); }
  }

  /** No way in: neither by receipt, by password reset or change, on a device, by a new session, by refreshing an old
      one, nor with one that is still there. */
  ghost predicate AdmittedNowhere(db: Db, u: Uuid)
    requires ValidLookup(db.lookup)
  {
    && (forall r: LoginRecord :: r.user == u ==> ConsumeLoginReceipt(db, r).Err?)
    && (forall r: ResetRecord :: FindUser(db, r.claims) == Some(u) ==> ResetPassword(db, r).Err?)
    && (forall r: ChangeRecord :: r.user == u ==> ChangePassword(db, r).Err?)
    && (forall r: AuthorizeRecord :: r.user == u ==> Authorize(db, r).Err?)
    && (forall r: CreateRecord :: r.user == u ==> CreateSession(db, r).Err?)
    && (forall r: RotateRecord :: r.source in db.sessions && db.sessions[r.source].user == u ==> Rotate(db, r).1.Some?)
    && (forall s, d, now :: !AccessActive(db, s, u, d, now))
  }

  lemma ShutOutMeansOut(db: Db, u: Uuid)
    requires ValidLookup(db.lookup) && ShutOut(db, u)
    ensures AdmittedNowhere(db, u)
  {
  }

  /** From the moment a user is disabled until the user is enabled nothing admits the user. */
  lemma DisabledUntilEnabled(trace: seq<Db>, events: seq<Event>, i: nat, j: nat, u: Uuid)
    requires IsRun(trace, events) && j <= |events| && DisabledSince(trace, events, i, j, u)
    ensures ShutOut(trace[j], u) && ValidLookup(trace[j].lookup) && AdmittedNowhere(trace[j], u)
  {
    ShutOutIff(trace, events, j, u);
    RunInv(trace, events, j);
    ShutOutMeansOut(trace[j], u);
  }

  ghost predicate LetIn(db: Db, u: Uuid) {
    && u in db.users && db.users[u].status == Active && !db.users[u].adminDisabled
    && u in db.spaces && db.spaces[u]
  }

  lemma EnabledRows(db: Db, b: Db, u: Uuid, secret: seq<Byte>)
    requires RowsAs(db, b, EnableUser, u, secret)
    ensures LetIn(b, u)
  {
  }

  lemma EnablingCall(db: Db, x: Call)
    requires Inv(db) && x.action.EnableUser? && TookEffect(db, x)
    ensures LetIn(Execute(db, x).0, x.target)
  {
    ExecuteLeaves(db, x);
    var b :| SameButRecord(b, Execute(db, x).0) && LifecycleSpec.ActedAs(db, b, x, x.target);
    EnabledRows(db, b, x.target, x.secret);
  }

  /** Enabling ends that: the user is active, unmarked and has the space back. */
  lemma EnabledIsActive(trace: seq<Db>, events: seq<Event>, i: nat, u: Uuid)
    requires IsRun(trace, events) && i < |events| && Enables(trace[i], events[i], u)
    ensures LetIn(trace[i + 1], u)
  {
    RunInv(trace, events, i);
    assert StepAt(trace, events, i);
    var db, e := trace[i], events[i];
    if e.EnableEvent? {
      EnableDoes(db, e.enable);
      EnabledRows(db, trace[i + 1], u, []);
    } else {
      EnablingCall(db, e.call);
    }
  }
}
