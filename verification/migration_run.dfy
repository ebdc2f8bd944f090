/** One execution of a migration operation, as a function of the ledger on disk, the answers of
    the target and the outcome of every save. */
module MigrationRun {
  import opened Results
  import opened AtomicFile
  import opened Migration

  /** What the target answers. */
  datatype Reply = Done | Failed(code: Code) | Unrecognized

  /** The outcome recorded for a write that was not applied. */
  function WriteFailure(r: Reply): (code: Option<Code>)
    ensures code == None <==> r == Done
  {
    match r
    case Done => None
    case Failed(c) =>
      if c in {SourceAuthRequired, RateLimited, SourceUnavailable, PolicyDenied, Conflict, InvalidRef, Degraded}
      then Some(c) else Some(Degraded)
    case Unrecognized => Some(Degraded)
  }

  /** The outcome recorded for a value that was not confirmed. */
  function VerifyFailure(r: Reply): (code: Option<Code>)
    ensures code == None <==> r == Done
  {
    match r
    case Done => None
    case Failed(c) =>
      if c in {SourceAuthRequired, RateLimited, SourceUnavailable, PolicyDenied, Degraded, VerificationFailed}
      then Some(c) else Some(VerificationFailed)
    case Unrecognized => Some(VerificationFailed)
  }

  /** What meets one item: how the plan assessed it, whether its source value can be read
      (`None`), the answers it would get, and the fate of the save after its write and of its
      last save. */
  datatype Script = Script(planned: Code, source: Option<Code>, write: Reply, verify: Reply,
                           afterWrite: SaveResult, atEnd: SaveResult)

  datatype Status = Status(ref: Ref, code: Code, verified: bool, attempts: nat, denied: bool)

  function Planned(ref: Ref, s: Script): Status {
    Status(ref, s.planned, false, 0, s.planned != DryRunReady)
  }

  function StatusOf(ref: Ref, item: Item): Status {
    Status(ref, item.code, item.verified, item.attempts, false)
  }

  /** One item's turn: what reached the disk, what is reported, the calls made, and whether the
      execution goes on. */
  datatype Turn = Turn(record: Option<Item>, status: Status, calls: seq<Call>, ok: bool)

  function Published(item: Item, save: SaveResult, otherwise: Option<Item>): Option<Item> {
    if WasPublished(save) then Some(item) else otherwise
  }

  function VerifyTurn(id: OperationId, plan: Header, ref: Ref, item: Item, kept: Option<Item>, s: Script): Turn {
    var failure := VerifyFailure(s.verify);
    var call := VerifyCall(id, plan, ref, ItemDigest(id, plan.target, ref), failure == None);
    var next := item.(verificationAttempts := item.verificationAttempts + 1,
                      verified := failure == None,
                      code := if failure == None then Migrated else failure.value);
    Turn(Published(next, s.atEnd, kept), StatusOf(ref, next), [call], s.atEnd == Saved)
  }

  function TakeTurn(id: OperationId, plan: Header, ref: Ref, item: Item, s: Script): Turn {
    if s.planned != DryRunReady then
      Turn(None, Planned(ref, s), [], true)
    else if item.verified then
      Turn(None, StatusOf(ref, item), [], true)
    else if s.source.Some? then
      var next := item.(code := s.source.value);
      Turn(Published(next, s.atEnd, None), StatusOf(ref, next), [], s.atEnd == Saved)
    else if item.writeApplied then
      VerifyTurn(id, plan, ref, item, None, s)
    else
      var failure := WriteFailure(s.write);
      var call := WriteCall(id, plan, ref, ItemDigest(id, plan.target, ref), failure == None);
      var tried := item.(attempts := item.attempts + 1);
      if failure.Some? then
        var next := tried.(code := failure.value);
        Turn(Published(next, s.atEnd, None), StatusOf(ref, next), [call], s.atEnd == Saved)
      else
        var next := tried.(writeApplied := true, code := VerificationPending);
        if s.afterWrite != Saved then
          Turn(Published(next, s.afterWrite, None), Planned(ref, s), [call], false)
        else
          var rest := VerifyTurn(id, plan, ref, next, Some(next), s);
          rest.(calls := [call] + rest.calls)
  }

  // ---------- what each answer is recorded as ----------

  /** A write that was not applied: the target's code where it is one of six, and otherwise
      degraded, reported and recorded with one more attempt; the value counts as not written. */
  lemma RefusedWriteIsRecorded(id: OperationId, plan: Header, ref: Ref, item: Item, s: Script)
    requires s.planned == DryRunReady && s.source.None? && !item.verified && !item.writeApplied && s.write != Done
    ensures var turn := TakeTurn(id, plan, ref, item, s);
            var code := if s.write.Failed?
                          && s.write.code in {RateLimited, SourceAuthRequired, SourceUnavailable, PolicyDenied, Conflict, InvalidRef}
                        then s.write.code else Degraded;
            && turn.status == Status(ref, code, false, item.attempts + 1, false)
            && turn.record == (if s.atEnd == NotPublished then None else Some(item.(code := code, attempts := item.attempts + 1)))
            && turn.calls == [WriteCall(id, plan, ref, ItemDigest(id, plan.target, ref), false)]
            && turn.ok == (s.atEnd == Saved)
  {}

  /** A write that was applied but could not be recorded with success: no verification is tried. */
  lemma UnsavedWriteStops(id: OperationId, plan: Header, ref: Ref, item: Item, s: Script)
    requires s.planned == DryRunReady && s.source.None? && !item.verified && !item.writeApplied
    requires s.write == Done && s.afterWrite != Saved
    ensures var turn := TakeTurn(id, plan, ref, item, s);
            && turn.status == Status(ref, DryRunReady, false, 0, false) && !turn.ok
            && turn.record == (if s.afterWrite == NotPublished then None
                               else Some(item.(code := VerificationPending, writeApplied := true, attempts := item.attempts + 1)))
            && turn.calls == [WriteCall(id, plan, ref, ItemDigest(id, plan.target, ref), true)]
  {}

  /** A verification, of an earlier write or of this one: migrated if confirmed, the target's code
      where it is one of five, and otherwise a failed verification. */
  lemma VerificationIsRecorded(id: OperationId, plan: Header, ref: Ref, item: Item, s: Script)
    requires s.planned == DryRunReady && s.source.None? && !item.verified
    requires item.writeApplied || (s.write == Done && s.afterWrite == Saved)
    ensures var turn := TakeTurn(id, plan, ref, item, s);
            var code := if s.verify == Done then Migrated
                        else if s.verify.Failed?
                               && s.verify.code in {RateLimited, SourceAuthRequired, SourceUnavailable, PolicyDenied, Degraded}
                        then s.verify.code else VerificationFailed;
            var attempts := if item.writeApplied then item.attempts else item.attempts + 1;
            && turn.status == Status(ref, code, s.verify == Done, attempts, false)
            && (s.atEnd != NotPublished ==>
                  turn.record == Some(Item(code, true, s.verify == Done, attempts, item.verificationAttempts + 1)))
            && turn.calls[|turn.calls| - 1] == VerifyCall(id, plan, ref, ItemDigest(id, plan.target, ref), s.verify == Done)
            && |turn.calls| == (if item.writeApplied then 1 else 2)
            && turn.ok == (s.atEnd == Saved)
  {}

  /** No call is made for an item that is not ready, is verified, or has no readable source. */
  lemma NoCallWithoutNeed(id: OperationId, plan: Header, ref: Ref, item: Item, s: Script)
    requires s.planned != DryRunReady || item.verified || s.source.Some?
    ensures var turn := TakeTurn(id, plan, ref, item, s);
            && turn.calls == []
            && (s.planned != DryRunReady ==> turn.record == None && turn.status == Status(ref, s.planned, false, 0, true))
            && (s.planned == DryRunReady && item.verified ==>
                  turn.record == None && turn.status == Status(ref, item.code, true, item.attempts, false))
            && (s.planned == DryRunReady && !item.verified ==>
                  turn.status.code == s.source.value && !turn.status.verified && !turn.status.denied)
  {}

  function Entry(o: Operation, ref: Ref): Item {
    if ref in o.items then o.items[ref] else NEW_ITEM
  }

  function Updated(o: Operation, ref: Ref, record: Option<Item>): Operation {
    if record.None? then o else o.(items := o.items[ref := record.value])
  }

  /** All items in turn, up to the first save that fails. */
  datatype Batch = Batch(operation: Operation, statuses: seq<Status>, calls: seq<Call>, ok: bool)

  function PlannedAll(refs: seq<Ref>, scripts: seq<Script>): seq<Status>
    requires |refs| == |scripts|
  {
    seq(|refs|, i requires 0 <= i < |refs| => Planned(refs[i], scripts[i]))
  }

  function TakeTurns(id: OperationId, o: Operation, refs: seq<Ref>, scripts: seq<Script>): (b: Batch)
    requires |refs| == |scripts|
    ensures |b.statuses| == |refs| && b.operation.header == o.header && b.operation.progress == o.progress
    decreases |refs|
  {
    if refs == [] then
      Batch(o, [], [], true)
    else
      var turn := TakeTurn(id, o.header, refs[0], Entry(o, refs[0]), scripts[0]);
      var next := Updated(o, refs[0], turn.record);
      if !turn.ok then
        Batch(next, [turn.status] + PlannedAll(refs[1..], scripts[1..]), turn.calls, false)
      else
        var rest := TakeTurns(id, next, refs[1..], scripts[1..]);
        Batch(rest.operation, [turn.status] + rest.statuses, turn.calls + rest.calls, rest.ok)
  }

  predicate AllMigrated(statuses: seq<Status>) {
    forall i :: 0 <= i < |statuses| ==> statuses[i].code == Migrated && statuses[i].verified
  }

  datatype Outcome = PlanConflict | Unsaved | Finished(applied: bool)

  datatype Execution = Execution(ledger: Ledger, statuses: seq<Status>, calls: seq<Call>, outcome: Outcome)

  function ConflictAll(statuses: seq<Status>): seq<Status> {
    seq(|statuses|, i requires 0 <= i < |statuses| => statuses[i].(code := Conflict, denied := true))
  }

  /** `create` and `final` are the saves of the new operation and of its final outcome. */
  function Execute(ledger: Ledger, plan: Plan, scripts: seq<Script>, create: SaveResult, final: SaveResult): (x: Execution)
    requires |scripts| == |plan.refs|
    ensures |x.statuses| == |plan.refs|
  {
    var planned := PlannedAll(plan.refs, scripts);
    if plan.operation in ledger && ledger[plan.operation].header.fingerprint != FingerprintOf(plan) then
      Execution(ledger, ConflictAll(planned), [], PlanConflict)
    else
      var created := Operation(HeaderOf(plan), map[], InProgress);
      if plan.operation !in ledger && create != Saved then
        Execution(if WasPublished(create) then ledger[plan.operation := created] else ledger, planned, [], Unsaved)
      else
        var o := if plan.operation in ledger then ledger[plan.operation] else created;
        var b := TakeTurns(plan.operation, o, plan.refs, scripts);
        if b.ok then Concluded(ledger, plan.operation, b, final)
        else Execution(ledger[plan.operation := b.operation], b.statuses, b.calls, Unsaved)
  }

  /** The overall outcome is saved only if it differs from the one on record. */
  function Concluded(ledger: Ledger, id: OperationId, b: Batch, final: SaveResult): Execution {
    var progress := if AllMigrated(b.statuses) then Applied else PartialFailure;
    if b.operation.progress == progress || WasPublished(final) then
      Execution(ledger[id := b.operation.(progress := progress)], b.statuses, b.calls,
                if b.operation.progress == progress || final == Saved then Finished(progress == Applied) else Unsaved)
    else
      Execution(ledger[id := b.operation], b.statuses, b.calls, Unsaved)
  }

  // ---------- what an execution achieves ----------

  lemma {:induction false} TurnsKeepTidy(id: OperationId, o: Operation, refs: seq<Ref>, scripts: seq<Script>)
    requires |refs| == |scripts| && Tidy(o)
    ensures Tidy(TakeTurns(id, o, refs, scripts).operation)
    decreases |refs|
  {
    hide WriteFailure, VerifyFailure;
    if refs != [] {
      var turn := TakeTurn(id, o.header, refs[0], Entry(o, refs[0]), scripts[0]);
      var next := Updated(o, refs[0], turn.record);
      assert Tidy(next);
      TurnsKeepTidy(id, next, refs[1..], scripts[1..]);
    }
  }

  /** What one turn does to the record of an item: writes and verifications are never undone. */
  lemma TurnGrows(id: OperationId, o: Operation, ref: Ref, s: Script, other: Ref)
    ensures var next := Updated(o, ref, TakeTurn(id, o.header, ref, Entry(o, ref), s).record);
            && (Entry(o, other).verified ==> Entry(next, other) == Entry(o, other))
            && (Entry(o, other).writeApplied ==> Entry(next, other).writeApplied)
  {
    hide WriteFailure, VerifyFailure;
  }

  lemma {:induction false} TurnsGrow(id: OperationId, o: Operation, refs: seq<Ref>, scripts: seq<Script>, other: Ref)
    requires |refs| == |scripts|
    ensures var next := TakeTurns(id, o, refs, scripts).operation;
            && (Entry(o, other).verified ==> Entry(next, other) == Entry(o, other))
            && (Entry(o, other).writeApplied ==> Entry(next, other).writeApplied)
    decreases |refs|
  {
    hide TakeTurn;
    if refs != [] {
      var turn := TakeTurn(id, o.header, refs[0], Entry(o, refs[0]), scripts[0]);
      TurnGrows(id, o, refs[0], scripts[0], other);
      TurnsGrow(id, Updated(o, refs[0], turn.record), refs[1..], scripts[1..], other);
    }
  }

  lemma ConcludedShape(ledger: Ledger, id: OperationId, b: Batch, final: SaveResult)
    ensures var x := Concluded(ledger, id, b, final);
            id in x.ledger && x.ledger == ledger[id := b.operation.(progress := x.ledger[id].progress)] && x.statuses == b.statuses
  {
    hide AllMigrated;
  }

  /** What an execution may leave: the ledger as it was, or a new record of its own operation. */
  lemma ExecuteShape(ledger: Ledger, plan: Plan, scripts: seq<Script>, create: SaveResult, final: SaveResult)
    requires |scripts| == |plan.refs|
    ensures var x := Execute(ledger, plan, scripts, create, final);
            x.ledger == ledger || exists p :: x.ledger == ledger[plan.operation := Left(ledger, plan, scripts, create, p)]
  {
    hide TakeTurns, AllMigrated, FingerprintOf, Concluded;
    var x := Execute(ledger, plan, scripts, create, final);
    var o := if plan.operation in ledger then ledger[plan.operation] else Operation(HeaderOf(plan), map[], InProgress);
    ConcludedShape(ledger, plan.operation, TakeTurns(plan.operation, o, plan.refs, scripts), final);
    if x.ledger != ledger {
      assert x.ledger == ledger[plan.operation := Left(ledger, plan, scripts, create, x.ledger[plan.operation].progress)];
    }
  }

  function Left(ledger: Ledger, plan: Plan, scripts: seq<Script>, create: SaveResult, p: Progress): Operation
    requires |scripts| == |plan.refs|
  {
    if plan.operation in ledger then TakeTurns(plan.operation, ledger[plan.operation], plan.refs, scripts).operation.(progress := p)
    else if create == Saved then
      TakeTurns(plan.operation, Operation(HeaderOf(plan), map[], InProgress), plan.refs, scripts).operation.(progress := p)
    else Operation(HeaderOf(plan), map[], p)
  }

  /** No execution, however it ends, undoes a record or touches another operation's. */
  lemma ExecuteGrows(ledger: Ledger, plan: Plan, scripts: seq<Script>, create: SaveResult, final: SaveResult,
                     operation: OperationId, ref: Ref)
    requires |scripts| == |plan.refs|
    ensures var x := Execute(ledger, plan, scripts, create, final);
            && (Written(ledger, operation, ref) ==> Written(x.ledger, operation, ref))
            && (Verified(ledger, operation, ref) ==> Verified(x.ledger, operation, ref))
            && (operation != plan.operation ==> (operation in x.ledger <==> operation in ledger)
                                                && (operation in ledger ==> x.ledger[operation] == ledger[operation]))
  {
    hide Execute, TakeTurns;
    ExecuteShape(ledger, plan, scripts, create, final);
    if plan.operation in ledger {
      TurnsGrow(plan.operation, ledger[plan.operation], plan.refs, scripts, ref);
    }
  }

  /** Every execution, whatever the answers and however the saves end, leaves every record tidy. */
  lemma ExecuteKeepsTidy(ledger: Ledger, plan: Plan, scripts: seq<Script>, create: SaveResult, final: SaveResult)
    requires |scripts| == |plan.refs| && AllTidy(ledger)
    ensures AllTidy(Execute(ledger, plan, scripts, create, final).ledger)
  {
    hide Execute, TakeTurns;
    ExecuteShape(ledger, plan, scripts, create, final);
    var o := if plan.operation in ledger then ledger[plan.operation] else Operation(HeaderOf(plan), map[], InProgress);
    TurnsKeepTidy(plan.operation, o, plan.refs, scripts);
  }

  /** Plans on record are never changed, and a new record carries the plan that made it. */
  lemma ExecuteKeepsPlans(ledger: Ledger, plan: Plan, scripts: seq<Script>, create: SaveResult, final: SaveResult, id: OperationId)
    requires |scripts| == |plan.refs|
    ensures var x := Execute(ledger, plan, scripts, create, final);
            && (id in ledger ==> id in x.ledger && x.ledger[id].header == ledger[id].header)
            && (id in x.ledger && id !in ledger ==> id == plan.operation && x.ledger[id].header == HeaderOf(plan))
  {
    hide Execute, TakeTurns;
    ExecuteShape(ledger, plan, scripts, create, final);
  }

  /** In every reachable ledger, reported as migrated and on record as verified are the same, for an
      item whose last save was published or not needed. */
  lemma MigratedIsOnRecordIff(ledger: Ledger, id: OperationId, ref: Ref, s: Script)
    requires Reachable(ledger) && id in ledger
    ensures var o := ledger[id];
            var turn := TakeTurn(id, o.header, ref, Entry(o, ref), s);
            var reported := turn.status.code == Migrated && turn.status.verified;
            && (reported ==> (Entry(Updated(o, ref, turn.record), ref).verified <==> Entry(o, ref).verified || WasPublished(s.atEnd)))
            && (Entry(Updated(o, ref, turn.record), ref).verified && s.planned == DryRunReady ==> reported)
  {
    ReachableIsTidy(ledger);
    assert Tidy(ledger[id]);
    hide WriteFailure, VerifyFailure, Reachable;
  }

  /** A lost last save leaves an item reported as migrated that is not on record as verified. */
  lemma MigratedButNotOnRecord(id: OperationId, plan: Header, ref: Ref)
    ensures var o := Operation(plan, map[], InProgress);
            var turn := TakeTurn(id, plan, ref, NEW_ITEM, Script(DryRunReady, None, Done, Done, Saved, NotPublished));
            && turn.status == Status(ref, Migrated, true, 1, false)
            && Updated(o, ref, turn.record).items[ref] == Item(VerificationPending, true, false, 1, 0)
  {}

  /** When every save worked, a migrated report of all items is a record of all items. */
  lemma {:induction false} BatchIsOnRecord(id: OperationId, o: Operation, refs: seq<Ref>, scripts: seq<Script>, i: nat)
    requires |refs| == |scripts| && Tidy(o) && i < |refs|
    requires TakeTurns(id, o, refs, scripts).ok
    ensures var b := TakeTurns(id, o, refs, scripts);
            var reported := b.statuses[i].code == Migrated && b.statuses[i].verified;
            reported ==> Entry(b.operation, refs[i]).verified
    decreases |refs|
  {
    hide TakeTurn, Tidy;
    var turn := TakeTurn(id, o.header, refs[0], Entry(o, refs[0]), scripts[0]);
    var next := Updated(o, refs[0], turn.record);
    if i == 0 {
      TurnSaved(id, o, refs[0], scripts[0]);
      TurnsGrow(id, next, refs[1..], scripts[1..], refs[0]);
    } else {
      assert Tidy(next) by {
        assert TakeTurns(id, o, refs[..1], scripts[..1]).operation == next by {
          assert refs[..1][0] == refs[0] && scripts[..1][0] == scripts[0];
          assert refs[..1][1..] == [] && scripts[..1][1..] == [];
        }
        TurnsKeepTidy(id, o, refs[..1], scripts[..1]);
      }
      BatchIsOnRecord(id, next, refs[1..], scripts[1..], i - 1);
      assert refs[1..][i - 1] == refs[i];
    }
  }

  lemma TurnSaved(id: OperationId, o: Operation, ref: Ref, s: Script)
    requires Tidy(o)
    ensures var turn := TakeTurn(id, o.header, ref, Entry(o, ref), s);
            turn.ok && turn.status.code == Migrated && turn.status.verified ==> Entry(Updated(o, ref, turn.record), ref).verified
  {
    hide WriteFailure, VerifyFailure;
  }

  lemma AppliedOnTidyRecord(ledger: Ledger, plan: Plan, scripts: seq<Script>, create: SaveResult, final: SaveResult)
    requires |scripts| == |plan.refs|
    requires AllTidy(ledger)
    ensures var x := Execute(ledger, plan, scripts, create, final);
            x.outcome == Finished(true) ==>
              && plan.operation in x.ledger && x.ledger[plan.operation].header.fingerprint == FingerprintOf(plan)
              && x.ledger[plan.operation].progress == Applied
              && forall ref :: ref in plan.refs ==> Written(x.ledger, plan.operation, ref) && Verified(x.ledger, plan.operation, ref)
  {
    hide TakeTurns;
    var x := Execute(ledger, plan, scripts, create, final);
    if x.outcome == Finished(true) {
      var o := if plan.operation in ledger then ledger[plan.operation] else Operation(HeaderOf(plan), map[], InProgress);
      var b := TakeTurns(plan.operation, o, plan.refs, scripts);
      TurnsKeepTidy(plan.operation, o, plan.refs, scripts);
      forall ref | ref in plan.refs
        ensures Written(x.ledger, plan.operation, ref) && Verified(x.ledger, plan.operation, ref)
      {
        var i :| 0 <= i < |plan.refs| && plan.refs[i] == ref;
        BatchIsOnRecord(plan.operation, o, plan.refs, scripts, i);
      }
    }
  }

  /** "Applied" is on record: from whatever earlier executions left, every ref of the plan is then
      written and verified, under this plan. */
  lemma AppliedIsOnRecord(ledger: Ledger, plan: Plan, scripts: seq<Script>, create: SaveResult, final: SaveResult)
    requires |scripts| == |plan.refs| && Reachable(ledger)
    ensures var x := Execute(ledger, plan, scripts, create, final);
            x.outcome == Finished(true) ==>
              && plan.operation in x.ledger && x.ledger[plan.operation].header.fingerprint == FingerprintOf(plan)
              && x.ledger[plan.operation].progress == Applied
              && forall ref :: ref in plan.refs ==> Written(x.ledger, plan.operation, ref) && Verified(x.ledger, plan.operation, ref)
  {
    ReachableIsTidy(ledger);
    hide Execute, Reachable, AllTidy;
    AppliedOnTidyRecord(ledger, plan, scripts, create, final);
  }

  /** Nothing stands in the way of an item. */
  predicate Favourable(s: Script) {
    s == Script(DryRunReady, None, Done, Done, Saved, Saved)
  }

  lemma {:induction false} FavourableTurns(id: OperationId, o: Operation, refs: seq<Ref>, scripts: seq<Script>)
    requires |refs| == |scripts| && Tidy(o)
    requires forall i :: 0 <= i < |scripts| ==> Favourable(scripts[i])
    ensures TakeTurns(id, o, refs, scripts).ok && AllMigrated(TakeTurns(id, o, refs, scripts).statuses)
    decreases |refs|
  {
    hide WriteFailure, VerifyFailure;
    if refs != [] {
      assert Favourable(scripts[0]);
      var turn := TakeTurn(id, o.header, refs[0], Entry(o, refs[0]), scripts[0]);
      var next := Updated(o, refs[0], turn.record);
      assert turn.ok && turn.status.code == Migrated && turn.status.verified;
      assert Tidy(next);
      FavourableTurns(id, next, refs[1..], scripts[1..]);
    }
  }

  lemma ResumeOnTidyRecord(ledger: Ledger, plan: Plan, scripts: seq<Script>)
    requires |scripts| == |plan.refs| && AllTidy(ledger)
    requires forall i :: 0 <= i < |scripts| ==> Favourable(scripts[i])
    ensures Execute(ledger, plan, scripts, Saved, Saved).outcome == Finished(true) <==>
            plan.operation !in ledger || ledger[plan.operation].header.fingerprint == FingerprintOf(plan)
  {
    hide TakeTurns, AllMigrated;
    var o := if plan.operation in ledger then ledger[plan.operation] else Operation(HeaderOf(plan), map[], InProgress);
    assert Tidy(o);
    FavourableTurns(plan.operation, o, plan.refs, scripts);
  }

  /** Whatever earlier executions and crashes left on record, an execution that meets no obstacle
      completes the operation, unless its plan was changed. */
  lemma ResumeCompletesIff(ledger: Ledger, plan: Plan, scripts: seq<Script>)
    requires |scripts| == |plan.refs| && Reachable(ledger)
    requires forall i :: 0 <= i < |scripts| ==> Favourable(scripts[i])
    ensures Execute(ledger, plan, scripts, Saved, Saved).outcome == Finished(true) <==>
            plan.operation !in ledger || ledger[plan.operation].header.fingerprint == FingerprintOf(plan)
  {
    ReachableIsTidy(ledger);
    hide Execute, Reachable, AllTidy, Favourable;
    ResumeOnTidyRecord(ledger, plan, scripts);
  }

  /** An execution that finishes has its outcome on record, "applied" exactly when every item was
      migrated and verified; and it finishes exactly when the plan stood and every save that was
      needed worked. */
  lemma OutcomeIsOnRecord(ledger: Ledger, plan: Plan, scripts: seq<Script>, create: SaveResult, final: SaveResult)
    requires |scripts| == |plan.refs|
    ensures var x := Execute(ledger, plan, scripts, create, final);
            && (x.outcome.Finished? ==>
                  && plan.operation in x.ledger
                  && x.ledger[plan.operation].progress == (if x.outcome.applied then Applied else PartialFailure)
                  && (x.outcome.applied <==> forall i :: 0 <= i < |x.statuses| ==> x.statuses[i].code == Migrated && x.statuses[i].verified))
            && (x.outcome == PlanConflict <==>
                plan.operation in ledger && ledger[plan.operation].header.fingerprint != FingerprintOf(plan))
            && (x.outcome == Unsaved ==>
                  || (plan.operation !in ledger && create != Saved)
                  || final != Saved
                  || exists i :: 0 <= i < |scripts| && (scripts[i].afterWrite != Saved || scripts[i].atEnd != Saved))
  {
    hide TakeTurns, FingerprintOf;
    if !(plan.operation in ledger && ledger[plan.operation].header.fingerprint != FingerprintOf(plan)) {
      var o := if plan.operation in ledger then ledger[plan.operation] else Operation(HeaderOf(plan), map[], InProgress);
      SavedTurns(plan.operation, o, plan.refs, scripts);
    }
  }

  lemma {:induction false} SavedTurns(id: OperationId, o: Operation, refs: seq<Ref>, scripts: seq<Script>)
    requires |refs| == |scripts|
    ensures TakeTurns(id, o, refs, scripts).ok || exists i :: 0 <= i < |scripts| && (scripts[i].afterWrite != Saved || scripts[i].atEnd != Saved)
    decreases |refs|
  {
    hide WriteFailure, VerifyFailure;
    if refs != [] {
      var turn := TakeTurn(id, o.header, refs[0], Entry(o, refs[0]), scripts[0]);
      if turn.ok {
        var next := Updated(o, refs[0], turn.record);
        SavedTurns(id, next, refs[1..], scripts[1..]);
        if !TakeTurns(id, next, refs[1..], scripts[1..]).ok {
          var i :| 0 <= i < |scripts[1..]| && (scripts[1..][i].afterWrite != Saved || scripts[1..][i].atEnd != Saved);
          assert scripts[i + 1] == scripts[1..][i];
        }
      }
    }
  }

  // ---------- changed plans ----------

  /** An operation that plan `p` put on record, asked for with plan `q`: without line breaks it is a
      conflict, which makes no call and saves nothing, exactly when the plan was changed. */
  lemma ChangedPlanIff(ledger: Ledger, p: Plan, q: Plan, scripts: seq<Script>, create: SaveResult, final: SaveResult)
    requires q.operation in ledger && ledger[q.operation].header == HeaderOf(p) && Plain(p) && Plain(q)
    requires |scripts| == |q.refs|
    ensures var x := Execute(ledger, q, scripts, create, final);
            && (x.outcome == PlanConflict <==> !SamePlan(p, q))
            && (!SamePlan(p, q) ==> x.ledger == ledger && x.calls == [])
  {
    FingerprintTellsPlans(p, q);
    hide FingerprintOf, SamePlan, Plain, TakeTurns;
  }

  /** With a line break it is not: an operation that was put on record for one invalid ref, without a
      call, writes and verifies two other refs. */
  lemma LineBreakHidesAChange(operation: OperationId, source: string, target: string, invalid: Script, ready: seq<Script>)
    requires invalid.planned == InvalidRef
    requires |ready| == 2 && Favourable(ready[0]) && Favourable(ready[1])
    ensures var one := Plan(operation, source, target, ["svc/a\nsvc/b"]);
            var two := Plan(operation, source, target, ["svc/a", "svc/b"]);
            var x := Execute(map[], one, [invalid], Saved, Saved);
            var y := Execute(x.ledger, two, ready, Saved, Saved);
            && !SamePlan(one, two) && operation in x.ledger && x.calls == [] && y.outcome == Finished(true)
            && Written(y.ledger, operation, "svc/a") && Written(y.ledger, operation, "svc/b")
  {
    FingerprintsCollide(operation, source, target);
    hide FingerprintOf, SamePlan;
    var one := Plan(operation, source, target, ["svc/a\nsvc/b"]);
    var two := Plan(operation, source, target, ["svc/a", "svc/b"]);
    var x := Execute(map[], one, [invalid], Saved, Saved);
    InvalidMakesNoCall(operation, Operation(HeaderOf(one), map[], InProgress), one.refs, [invalid]);
    ConcludedShape(map[], operation, TakeTurns(operation, Operation(HeaderOf(one), map[], InProgress), one.refs, [invalid]), Saved);
    ExecuteKeepsTidy(map[], one, [invalid], Saved, Saved);
    ExecuteKeepsPlans(map[], one, [invalid], Saved, Saved, operation);
    hide TakeTurns;
    assert forall i :: 0 <= i < 2 ==> Favourable(ready[i]);
    hide Execute;
    ResumeOnTidyRecord(x.ledger, two, ready);
    AppliedOnTidyRecord(x.ledger, two, ready, Saved, Saved);
    assert "svc/a" in two.refs && "svc/b" in two.refs;
  }

  lemma InvalidMakesNoCall(id: OperationId, o: Operation, refs: seq<Ref>, scripts: seq<Script>)
    requires |refs| == |scripts| == 1 && scripts[0].planned != DryRunReady
    ensures TakeTurns(id, o, refs, scripts).calls == [] && TakeTurns(id, o, refs, scripts).ok
  {}
}
