/** Administrative operations run exactly once, whatever is retried and however the keys rotate. */
module OperationTheorems {
  import opened Common
  import opened Protector
  import opened AccountState
  import opened AdminSteps
  import opened AccountShapes
  import opened AccountRuns
  import opened AccountInvariants
  import opened AccountProofs

  /** The call found no stored operation and committed one. */
  ghost predicate Ran(db: Db, x: Call) {
    ValidRing(db.protector) && FindOperation(db, x.command.operation).None? && Execute(db, x).1.Replied?
  }

  /** The call ran and its action took effect. */
  ghost predicate TookEffect(db: Db, x: Call) {
    Ran(db, x) && Execute(db, x).1.denial.None?
  }

  // ---------- what one call does ----------

  /** The outcome of a call whose sealed form is `row`. */
  ghost predicate RanAs(db: Db, x: Call, row: StoredOperation, b: Db, answer: Answer)
    requires ValidRing(db.protector)
  {
    var applied := ApplyAction(db, x);
    if applied.Denied? then Recorded(db, b, x, row, answer, db, 0, Some(applied.denial))
    else applied.Mutated? && Recorded(db, b, x, row, answer, applied.db, applied.after, None)
  }

  lemma RanShape(db: Db, x: Call)
    requires Ran(db, x)
    ensures RanAs(db, x, ExecutingRow(db, x), Execute(db, x).0, Execute(db, x).1)
  {
    ExecuteShape(db, x);
    RanIsRecorded(db, x, ExecutingRow(db, x), Execute(db, x).0, Execute(db, x).1);
  }

  lemma RanIsRecorded(db: Db, x: Call, row: StoredOperation, b: Db, answer: Answer)
    requires ValidRing(db.protector) && Outcomes(db, x, row, b, answer)
    requires FindOperation(db, x.command.operation).None? && answer.Replied?
    ensures RanAs(db, x, row, b, answer)
  {
  }

  lemma NotRanIsQuiet(db: Db, x: Call)
    requires ValidRing(db.protector) && !Ran(db, x)
    ensures Execute(db, x).0 == db
  {
    ExecuteShape(db, x);
    QuietOutcome(db, x, ExecutingRow(db, x), Execute(db, x).0, Execute(db, x).1);
  }

  lemma QuietOutcome(db: Db, x: Call, row: StoredOperation, b: Db, answer: Answer)
    requires ValidRing(db.protector) && Outcomes(db, x, row, b, answer)
    requires FindOperation(db, x.command.operation).Some? || answer.Refused?
    ensures b == db
  {
  }

  /** Only what the table of operations and the audit trail hold may differ. */
  ghost predicate OnlyRecorded(a: Db, b: Db) {
    b == a.(operations := b.operations, audit := b.audit)
  }

  /** The one user a successful call changes, and by how much. */
  ghost predicate MovesOneRevision(a: Db, b: Db, x: Call, answer: Answer) {
    && answer.Replied?
    && exists u :: AdminMovesTo(a, b, u, answer.operation.revision) && a.users[u].revision == x.command.expected
  }

  ghost predicate AdminMovesTo(a: Db, b: Db, u: Uuid, revision: int) {
    && u in a.users && u in b.users && b.users == a.users[u := b.users[u]]
    && b.users[u].revision == a.users[u].revision + 1 == revision
  }

  lemma RanMoves(db: Db, x: Call, row: StoredOperation, b: Db, answer: Answer)
    requires ValidRing(db.protector) && RanAs(db, x, row, b, answer)
    ensures answer.denial.Some? ==> OnlyRecorded(db, b)
    ensures answer.denial.None? ==> MovesOneRevision(db, b, x, answer) && b.users != db.users
  {
    var applied := ApplyAction(db, x);
    if applied.Mutated? {
      ApplyShape(db, x);
      assert AdminMovesTo(db, b, applied.user, answer.operation.revision);
      assert b.users[applied.user] != db.users[applied.user];
    }
  }

  /** User state changes exactly when the call ran and succeeded, and then by one revision past the
      expected one; every other call leaves all but its own record alone. */
  lemma EffectIffSucceeded(db: Db, x: Call)
    requires Inv(db)
    ensures Execute(db, x).0.users != db.users <==> TookEffect(db, x)
    ensures !TookEffect(db, x) ==> OnlyRecorded(db, Execute(db, x).0)
    ensures TookEffect(db, x) ==> MovesOneRevision(db, Execute(db, x).0, x, Execute(db, x).1)
                                  && Execute(db, x).1.operation.revision == x.command.expected + 1
  {
    if Ran(db, x) {
      RanShape(db, x);
      RanMoves(db, x, ExecutingRow(db, x), Execute(db, x).0, Execute(db, x).1);
    } else {
      NotRanIsQuiet(db, x);
    }
  }

  // ---------- stored operations ----------

  /** In every reachable state each operation is closed, valid, has exactly one audit event saying the same,
      and a successful one ended one revision past the one it expected. */
  lemma OperationsSettled(trace: seq<Db>, events: seq<Event>, id: Uuid)
    requires IsRun(trace, events) && id in trace[|events|].operations
    ensures var db := trace[|events|];
            var row := db.operations[id];
            && row.operation.id == id && !row.operation.status.Executing? && ValidOperation(row.operation)
            && (row.operation.status.Succeeded? ==> row.operation.revision == row.expected + 1)
            && AuditedOnce(db.audit, id, row)
  {
    var db := trace[|events|];
    RunInv(trace, events, |events|);
    assert OperationOk(db.operations, db.audit, id);
  }

  /** The row a call leaves. */
  ghost predicate LeftRow(b: Db, x: Call, row: StoredOperation, answer: Answer) {
    && x.command.operation in b.operations && answer.Replied?
    && b.operations[x.command.operation].keyId == row.keyId && b.operations[x.command.operation].fingerprint == row.fingerprint
    && b.operations[x.command.operation].operation == answer.operation
    && ReplayResult(answer.operation) == answer
  }

  lemma RanLeavesRow(db: Db, x: Call, row: StoredOperation, b: Db, answer: Answer)
    requires Inv(db) && RanAs(db, x, row, b, answer)
    requires row.operation.id == x.command.operation
    ensures LeftRow(b, x, row, answer)
  {
    var applied := ApplyAction(db, x);
    if applied.Denied? { DenialCodes(db, x); } else { ApplyShape(db, x); }
  }

  /** The same request again: only the clock and the drawn secret may differ. */
  ghost predicate SameRequest(x: Call, y: Call) {
    x.action == y.action && x.target == y.target && x.command == y.command && y.subjectOk
  }

  lemma RanCommand(db: Db, x: Call)
    requires Ran(db, x)
    ensures ValidCommand(x.action, x.target, x.command) && x.subjectOk
  {
  }

  /** Replaying against the row a call left. */
  lemma ReplayAgainst(db: Db, x: Call, row: StoredOperation, y: Call, answer: Answer)
    requires ValidRing(db.protector) && LeftRow(db, x, row, answer) && SameRequest(x, y)
    requires ValidCommand(x.action, x.target, x.command)
    requires RequestFingerprint(db.protector, row.keyId, y.action, y.target, y.command) == Some(row.fingerprint)
    requires |row.fingerprint| == 32
    ensures Execute(db, y) == (db, answer)
  {
  }

  lemma SealStillMatches(a: Db, b: Db, x: Call)
    requires ValidRing(a.protector) && ValidRing(b.protector) && Keeps(a.protector, b.protector)
    ensures var row := ExecutingRow(a, x);
            RequestFingerprint(b.protector, row.keyId, x.action, x.target, x.command) == Some(row.fingerprint)
  {
  }

  lemma RanRow(db: Db, x: Call)
    requires Inv(db) && Ran(db, x)
    ensures LeftRow(Execute(db, x).0, x, ExecutingRow(db, x), Execute(db, x).1)
    ensures |ExecutingRow(db, x).fingerprint| == 32
  {
    RanShape(db, x);
    RowOfCall(db, x);
    RanLeavesRow(db, x, ExecutingRow(db, x), Execute(db, x).0, Execute(db, x).1);
  }

  lemma RowStays(a: Db, b: Db, again: set<Uuid>, replayed: set<Uuid>, x: Call, row: StoredOperation, answer: Answer)
    requires Extends(a, b, again, replayed) && LeftRow(a, x, row, answer)
    ensures LeftRow(b, x, row, answer)
  {
  }

  lemma RunCall(trace: seq<Db>, events: seq<Event>, i: nat, x: Call)
    requires IsRun(trace, events) && i < |events| && events[i] == ExecuteEvent(x)
    ensures RingsOk(trace[i]) && trace[i + 1] == Execute(trace[i], x).0
  {
    RunApply(trace, events, i);
  }

  /** After any number of later events, retrying a call that ran changes nothing and gives the same operation
      and the same error, as long as the key it was sealed under is still in the ring. */
  lemma RetryGivesSameAnswer(trace: seq<Db>, events: seq<Event>, i: nat, j: nat, x: Call, y: Call)
    requires IsRun(trace, events) && i < j <= |events| && events[i] == ExecuteEvent(x) && Ran(trace[i], x)
    requires SameRequest(x, y) && Keeps(trace[i].protector, trace[j].protector)
    ensures ValidRing(trace[j].protector)
    ensures Execute(trace[j], y) == (trace[j], Execute(trace[i], x).1)
  {
    RunInv(trace, events, i);
    RunInv(trace, events, j);
    RunCall(trace, events, i, x);
    RanRow(trace[i], x);
    RanCommand(trace[i], x);
    RunExtends(trace, events, i + 1, j);
    var row := ExecutingRow(trace[i], x);
    var answer := Execute(trace[i], x).1;
    RowStays(trace[i + 1], trace[j], Again(trace, events, i + 1, j), Replayed(trace, events, i + 1, j), x, row, answer);
    SealStillMatches(trace[i], trace[j], x);
    ReplayAgainst(trace[j], x, row, y, answer);
  }

  /** An operation identifier runs at most once in a run. */
  lemma RunsAtMostOnce(trace: seq<Db>, events: seq<Event>, i: nat, j: nat, x: Call, y: Call)
    requires IsRun(trace, events) && i < |events| && j < |events|
    requires events[i] == ExecuteEvent(x) && events[j] == ExecuteEvent(y) && x.command.operation == y.command.operation
    requires Ran(trace[i], x) && Ran(trace[j], y)
    ensures i == j
  {
    if i < j { RanStaysFound(trace, events, i, j, x); }
    if j < i { RanStaysFound(trace, events, j, i, y); }
  }

  lemma RanStaysFound(trace: seq<Db>, events: seq<Event>, i: nat, j: nat, x: Call)
    requires IsRun(trace, events) && i < j <= |events| && events[i] == ExecuteEvent(x) && Ran(trace[i], x)
    ensures x.command.operation in trace[j].operations
  {
    RunInv(trace, events, i);
    RunCall(trace, events, i, x);
    RanRow(trace[i], x);
    RunExtends(trace, events, i + 1, j);
  }

  /** The same operation identifier with a different request is refused and changes nothing, unless the sealing
      key gives two different requests the same digest. */
  lemma ReusedIdentifierConflicts(trace: seq<Db>, events: seq<Event>, i: nat, j: nat, x: Call, y: Call)
    requires IsRun(trace, events) && i < j <= |events| && events[i] == ExecuteEvent(x) && Ran(trace[i], x)
    requires y.command.operation == x.command.operation && y.subjectOk && ValidCommand(y.action, y.target, y.command)
    requires (x.action, x.target, x.command) != (y.action, y.target, y.command)
    requires WellTyped(x.target, x.command) && WellTyped(y.target, y.command)
    requires ValidRing(trace[j].protector) && Keeps(trace[i].protector, trace[j].protector)
    requires SizedRing(trace[j].protector)
    requires Separates(trace[j].protector.keys[trace[i].protector.active].mac,
                       RequestMessage(x.action, x.target, x.command), RequestMessage(y.action, y.target, y.command))
    ensures Execute(trace[j], y) == (trace[j], Refused(IdempotencyKeyReused))
  {
    RunInv(trace, events, i);
    RunCall(trace, events, i, x);
    RanRow(trace[i], x);
    RanCommand(trace[i], x);
    RunExtends(trace, events, i + 1, j);
    var row := ExecutingRow(trace[i], x);
    RowStays(trace[i + 1], trace[j], Again(trace, events, i + 1, j), Replayed(trace, events, i + 1, j), x, row, Execute(trace[i], x).1);
    SealStillMatches(trace[i], trace[j], x);
    SameFingerprintSameRequest(trace[j].protector, row.keyId, x.action, x.target, x.command, y.action, y.target, y.command);
    assert Sized(trace[j].protector.keys[row.keyId]);
    ConflictAgainst(trace[j], y, row);
  }

  lemma ConflictAgainst(db: Db, y: Call, row: StoredOperation)
    requires ValidRing(db.protector) && y.subjectOk && ValidCommand(y.action, y.target, y.command)
    requires y.command.operation in db.operations
    requires db.operations[y.command.operation].keyId == row.keyId && db.operations[y.command.operation].fingerprint == row.fingerprint
    requires row.keyId in db.protector.keys && Sized(db.protector.keys[row.keyId])
    requires RequestFingerprint(db.protector, row.keyId, y.action, y.target, y.command) != Some(row.fingerprint)
    ensures Execute(db, y) == (db, Refused(IdempotencyKeyReused))
  {
  }

  // ---------- results per user ----------

  ghost predicate ActedOn(db: Db, x: Call, u: Uuid) {
    TookEffect(db, x) && ApplyAction(db, x).Mutated? && ApplyAction(db, x).user == u
  }

  lemma ActedRevisions(db: Db, x: Call, u: Uuid)
    requires Inv(db) && ActedOn(db, x, u)
    ensures u in db.users && u in Execute(db, x).0.users
    ensures db.users[u].revision < Execute(db, x).1.operation.revision == Execute(db, x).0.users[u].revision
  {
    RanShape(db, x);
    ActedAs(db, x, u, ExecutingRow(db, x), Execute(db, x).0, Execute(db, x).1);
  }

  lemma ActedAs(db: Db, x: Call, u: Uuid, row: StoredOperation, b: Db, answer: Answer)
    requires ValidRing(db.protector) && RanAs(db, x, row, b, answer) && ApplyAction(db, x).Mutated? && ApplyAction(db, x).user == u
    ensures u in db.users && u in b.users && db.users[u].revision < answer.operation.revision == b.users[u].revision
  {
    ApplyShape(db, x);
  }

  /** The revisions successful operations report for one user strictly increase along a run. */
  lemma ResultsIncrease(trace: seq<Db>, events: seq<Event>, i: nat, j: nat, x: Call, y: Call, u: Uuid)
    requires IsRun(trace, events) && i < j < |events|
    requires events[i] == ExecuteEvent(x) && events[j] == ExecuteEvent(y)
    requires ActedOn(trace[i], x, u) && ActedOn(trace[j], y, u)
    ensures Execute(trace[i], x).1.operation.revision < Execute(trace[j], y).1.operation.revision
  {
    RunInv(trace, events, i);
    RunInv(trace, events, j);
    RunCall(trace, events, i, x);
    ActedRevisions(trace[i], x, u);
    ActedRevisions(trace[j], y, u);
    RunExtends(trace, events, i + 1, j);
  }
}
