/** The broker's migration service: the ledger on disk, and the trail of what it did to the
    outside. */
module MigrationService {
  import opened Results
  import opened AtomicFile
  import opened Migration
  import opened MigrationRun

  class Service {
    var ledger: Ledger
    ghost var trail: seq<World>

    ghost predicate Valid()
      reads this
    {
      && |trail| > 0 && IsTrail(trail) && trail[0] == World(map[], [])
      && trail[|trail| - 1].disk == ledger
    }

    ghost function Calls(): seq<Call>
      requires |trail| > 0
      reads this`trail
    {
      trail[|trail| - 1].calls
    }

    constructor ()
      ensures Valid() && ledger == map[]
    {
      ledger := map[];
      trail := [World(map[], [])];
    }

    /** A restart after a crash at any point of any execution: only what is on disk is known. */
    constructor Restarted(disk: Ledger, ghost history: seq<World>, ghost k: nat)
      requires k < |history| && IsTrail(history) && history[0] == World(map[], []) && history[k].disk == disk
      ensures Valid() && ledger == disk && trail == history[..k + 1]
    {
      hide Effect;
      ledger := disk;
      trail := history[..k + 1];
    }

    /** A call to the target, of which only the trail keeps a note. */
    ghost method Call(c: Call)
      requires Valid() && CallAllowed(ledger, c)
      modifies this`trail
      ensures Valid() && old(trail) <= trail && Calls() == old(Calls()) + [c]
    {
      hide CallAllowed, RecordAllowed;
      var w := trail[|trail| - 1];
      var w' := World(ledger, w.calls + [c]);
      assert w'.calls[..|w.calls|] == w.calls;
      Extend(trail, w');
      trail := trail + [w'];
    }

    method Persist(id: OperationId, o: Operation, save: SaveResult) returns (ok: bool)
      requires Valid() && RecordAllowed(World(ledger, Calls()), id, o)
      modifies this`ledger, this`trail
      ensures Valid() && old(trail) <= trail && Calls() == old(Calls())
      ensures ledger == if WasPublished(save) then old(ledger)[id := o] else old(ledger)
      ensures ok == (save == Saved)
    {
      hide CallAllowed, RecordAllowed;
      if save != NotPublished {
        ghost var w' := World(ledger[id := o], Calls());
        assert trail[|trail| - 1] == World(ledger, Calls());
        assert Effect(trail[|trail| - 1], w');
        Extend(trail, w');
        trail := trail + [w'];
        ledger := ledger[id := o];
      }
      return save == Saved;
    }

    /** The second half of an item's turn, once its write is on record. */
    method VerifyItem(id: OperationId, operation: Operation, ref: Ref, s: Script)
      returns (next: Operation, status: Status, ok: bool)
      requires Valid() && id in ledger && ledger[id] == operation
      requires Entry(operation, ref).writeApplied && !Entry(operation, ref).verified
      modifies this`ledger, this`trail
      ensures Valid() && old(trail) <= trail
      ensures var turn := VerifyTurn(id, operation.header, ref, Entry(operation, ref), None, s);
              && status == turn.status && ok == turn.ok
              && Calls() == old(Calls()) + turn.calls
              && ledger == old(ledger)[id := Updated(operation, ref, turn.record)]
              && (ok ==> next == ledger[id])
    {
      hide IsTrail, Effect, RecordAllowed, VerifyFailure;
      var item := Entry(operation, ref);
      var failure := VerifyFailure(s.verify);
      Call(VerifyCall(id, operation.header, ref, ItemDigest(id, operation.header.target, ref), failure == None));
      item := item.(verificationAttempts := item.verificationAttempts + 1);
      if failure == None {
        item := item.(verified := true, code := Migrated);
      } else {
        item := item.(code := failure.value);
      }
      next := operation.(items := operation.items[ref := item]);
      VerifiedRecord(World(ledger, Calls()), id, operation, ref, item);
      ok := Persist(id, next, s.atEnd);
      return next, StatusOf(ref, item), ok;
    }

    /** One item's turn: skip it, record that its source is gone, or write it if no write is on
        record, record that, verify it and record that. */
    method MigrateItem(id: OperationId, operation: Operation, ref: Ref, s: Script)
      returns (next: Operation, status: Status, ok: bool)
      requires Valid() && id in ledger && ledger[id] == operation
      modifies this`ledger, this`trail
      ensures Valid() && old(trail) <= trail
      ensures var turn := TakeTurn(id, operation.header, ref, Entry(operation, ref), s);
              && status == turn.status && ok == turn.ok
              && Calls() == old(Calls()) + turn.calls
              && ledger == old(ledger)[id := Updated(operation, ref, turn.record)]
              && (ok ==> next == ledger[id])
    {
      hide IsTrail, Effect, RecordAllowed, WriteFailure, VerifyFailure;
      next, status := operation, Planned(ref, s);
      if status.code != DryRunReady {
        return next, status, true;
      }
      var item := Entry(operation, ref);
      if item.verified {
        return next, StatusOf(ref, item), true;
      }
      if s.source.Some? {
        item := item.(code := s.source.value);
        next := next.(items := next.items[ref := item]);
        ItemRecord(World(ledger, Calls()), id, operation, ref, item);
        ok := Persist(id, next, s.atEnd);
        return next, StatusOf(ref, item), ok;
      }
      ghost var key := ItemDigest(id, operation.header.target, ref);
      if !item.writeApplied {
        var failure := WriteFailure(s.write);
        Call(WriteCall(id, operation.header, ref, key, failure == None));
        item := item.(attempts := item.attempts + 1);
        if failure.Some? {
          item := item.(code := failure.value);
          next := next.(items := next.items[ref := item]);
          ItemRecord(World(ledger, Calls()), id, operation, ref, item);
          ok := Persist(id, next, s.atEnd);
          return next, StatusOf(ref, item), ok;
        }
        item := item.(writeApplied := true, code := VerificationPending);
        next := next.(items := next.items[ref := item]);
        WrittenRecord(World(ledger, Calls()), id, operation, ref, item);
        ok := Persist(id, next, s.afterWrite);
        if !ok {
          return next, status, false;
        }
      }
      UpdatedTwice(operation, ref, item, VerifyTurn(id, operation.header, ref, item, None, s).record);
      next, status, ok := VerifyItem(id, next, ref, s);
      return next, status, ok;
    }

    /** Run or resume a migration operation: a changed plan runs nothing, and every save that fails
        ends the execution. */
    method ExecuteMigration(plan: Plan, scripts: seq<Script>, create: SaveResult, final: SaveResult)
      returns (statuses: seq<Status>, outcome: Outcome)
      requires Valid() && |scripts| == |plan.refs|
      modifies this`ledger, this`trail
      ensures Valid() && old(trail) <= trail
      ensures var x := Execute(old(ledger), plan, scripts, create, final);
              && ledger == x.ledger && Calls() == old(Calls()) + x.calls
              && statuses == x.statuses && outcome == x.outcome
      ensures outcome == Finished(true) ==>
                forall ref :: ref in plan.refs ==> Written(ledger, plan.operation, ref) && Verified(ledger, plan.operation, ref)
      ensures create == final == Saved && (forall i :: 0 <= i < |scripts| ==> Favourable(scripts[i])) ==>
                (outcome == Finished(true) <==>
                 plan.operation !in old(ledger) || old(ledger)[plan.operation].header.fingerprint == FingerprintOf(plan))
      ensures forall p :: plan.operation in old(ledger) && old(ledger)[plan.operation].header == HeaderOf(p) && Plain(p) && Plain(plan) ==>
                (outcome == PlanConflict <==> !SamePlan(p, plan))
                && (!SamePlan(p, plan) ==> ledger == old(ledger) && Calls() == old(Calls()))
    {
      hide IsTrail, Execute, Written, Verified, Favourable, Plain, SamePlan, FingerprintOf;
      Means(trail, ledger, plan, scripts, create, final);
      statuses, outcome := Perform(plan, scripts, create, final);
    }

    method Perform(plan: Plan, scripts: seq<Script>, create: SaveResult, final: SaveResult)
      returns (statuses: seq<Status>, outcome: Outcome)
      requires Valid() && |scripts| == |plan.refs|
      modifies this`ledger, this`trail
      ensures Valid() && old(trail) <= trail
      ensures var x := Execute(old(ledger), plan, scripts, create, final);
              && ledger == x.ledger && Calls() == old(Calls()) + x.calls
              && statuses == x.statuses && outcome == x.outcome
    {
      hide IsTrail, Effect, RecordAllowed, TakeTurns, Concluded, PlannedAll, ConflictAll, FingerprintOf;
      var id := plan.operation;
      statuses := PlannedAll(plan.refs, scripts);
      if id in ledger && ledger[id].header.fingerprint != FingerprintOf(plan) {
        return ConflictAll(statuses), PlanConflict;
      }
      var operation := if id in ledger then ledger[id] else Operation(HeaderOf(plan), map[], InProgress);
      if id !in ledger {
        SameItemsRecord(World(ledger, Calls()), id, operation);
        var ok := Persist(id, operation, create);
        if !ok {
          return statuses, Unsaved;
        }
      }
      assert ledger == old(ledger)[id := operation];
      var ok;
      ghost var b := TakeTurns(id, operation, plan.refs, scripts);
      operation, statuses, ok := MigrateItems(id, operation, plan.refs, scripts);
      if !ok {
        return statuses, Unsaved;
      }
      assert b == Batch(operation, statuses, b.calls, true);
      outcome := Conclude(id, operation, statuses, final, old(ledger), b.calls);
    }

    /** Save the overall outcome, if it is not the one on record. */
    method Conclude(id: OperationId, operation: Operation, statuses: seq<Status>, final: SaveResult,
                    ghost before: Ledger, ghost calls: seq<Call>)
      returns (outcome: Outcome)
      requires Valid() && ledger == before[id := operation]
      modifies this`ledger, this`trail
      ensures Valid() && old(trail) <= trail && Calls() == old(Calls())
      ensures Execution(ledger, statuses, calls, outcome) == Concluded(before, id, Batch(operation, statuses, calls, true), final)
    {
      hide IsTrail, Effect, RecordAllowed, AllMigrated;
      var progress := if AllMigrated(statuses) then Applied else PartialFailure;
      if operation.progress != progress {
        SameItemsRecord(World(ledger, Calls()), id, operation.(progress := progress));
        var ok := Persist(id, operation.(progress := progress), final);
        if !ok {
          return Unsaved;
        }
      }
      return Finished(progress == Applied);
    }

    /** The item loop: it fills in the planned statuses, and leaves the rest as planned when a save
        fails. */
    method MigrateItems(id: OperationId, operation: Operation, refs: seq<Ref>, scripts: seq<Script>)
      returns (current: Operation, statuses: seq<Status>, ok: bool)
      requires Valid() && |scripts| == |refs| && id in ledger && ledger[id] == operation
      modifies this`ledger, this`trail
      ensures Valid() && old(trail) <= trail
      ensures var b := TakeTurns(id, operation, refs, scripts);
              && ledger == old(ledger)[id := b.operation] && Calls() == old(Calls()) + b.calls
              && statuses == b.statuses && ok == b.ok && (ok ==> current == b.operation)
    {
      hide IsTrail, Effect, TakeTurn, TakeTurns, PlannedAll, After;
      current, statuses := operation, PlannedAll(refs, scripts);
      ghost var made: seq<Call> := [];
      PlannedFrom(refs, scripts, 0);
      assert refs[0..] == refs && scripts[0..] == scripts;
      Starts(id, operation, refs, scripts);
      for i := 0 to |refs|
        invariant Valid() && old(trail) <= trail
        invariant ledger == old(ledger)[id := current]
        invariant Calls() == old(Calls()) + made
        invariant |statuses| == |refs| && statuses[i..] == PlannedAll(refs[i..], scripts[i..])
        invariant TakeTurns(id, operation, refs, scripts) ==
                  After(statuses[..i], made, TakeTurns(id, current, refs[i..], scripts[i..]))
      {
        Unfold(id, current, refs, scripts, i, statuses[..i], made);
        PlannedFrom(refs, scripts, i);
        ghost var turn := TakeTurn(id, current.header, refs[i], Entry(current, refs[i]), scripts[i]);
        ghost var next := Updated(current, refs[i], turn.record);
        var status;
        current, status, ok := MigrateItem(id, current, refs[i], scripts[i]);
        assert ledger == old(ledger)[id := next];
        made := made + turn.calls;
        ghost var before := statuses;
        statuses := statuses[i := status];
        assert statuses[..i] == before[..i] && statuses[i..] == [status] + before[i..][1..];
        if !ok {
          assert statuses == statuses[..i] + statuses[i..];
          return current, statuses, false;
        }
        assert statuses[..i + 1] == statuses[..i] + [status];
        assert statuses[i + 1..] == before[i..][1..];
      }
      assert refs[|refs|..] == [] && scripts[|refs|..] == [];
      NoTurns(id, current, statuses, made);
      assert statuses[..|refs|] == statuses;
      ok := true;
    }
  }

  /** What an execution from the end of a trail means for the record. */
  lemma Means(trail: seq<World>, ledger: Ledger, plan: Plan, scripts: seq<Script>, create: SaveResult, final: SaveResult)
    requires EndsIn(trail, ledger) && |scripts| == |plan.refs|
    ensures var x := Execute(ledger, plan, scripts, create, final);
            x.outcome == Finished(true) ==>
              forall ref :: ref in plan.refs ==> Written(x.ledger, plan.operation, ref) && Verified(x.ledger, plan.operation, ref)
    ensures (forall i :: 0 <= i < |scripts| ==> Favourable(scripts[i])) && create == final == Saved ==>
              (Execute(ledger, plan, scripts, create, final).outcome == Finished(true) <==>
               plan.operation !in ledger || ledger[plan.operation].header.fingerprint == FingerprintOf(plan))
    ensures forall p :: plan.operation in ledger && ledger[plan.operation].header == HeaderOf(p) && Plain(p) && Plain(plan) ==>
              var x := Execute(ledger, plan, scripts, create, final);
              (x.outcome == PlanConflict <==> !SamePlan(p, plan)) && (!SamePlan(p, plan) ==> x.ledger == ledger && x.calls == [])
  {
    hide Execute, EndsIn, Favourable, Plain, SamePlan, FingerprintOf;
    forall p | plan.operation in ledger && ledger[plan.operation].header == HeaderOf(p) && Plain(p) && Plain(plan)
      ensures var x := Execute(ledger, plan, scripts, create, final);
              (x.outcome == PlanConflict <==> !SamePlan(p, plan)) && (!SamePlan(p, plan) ==> x.ledger == ledger && x.calls == [])
    {
      ChangedPlanIff(ledger, p, plan, scripts, create, final);
    }
    assert Reachable(ledger);
    AppliedIsOnRecord(ledger, plan, scripts, create, final);
    if forall i :: 0 <= i < |scripts| ==> Favourable(scripts[i]) {
      ResumeCompletesIff(ledger, plan, scripts);
    }
  }

  // ---------- the item loop ----------

  function After(statuses: seq<Status>, calls: seq<Call>, b: Batch): Batch {
    b.(statuses := statuses + b.statuses, calls := calls + b.calls)
  }

  lemma Starts(id: OperationId, o: Operation, refs: seq<Ref>, scripts: seq<Script>)
    requires |refs| == |scripts|
    ensures var b := TakeTurns(id, o, refs, scripts); b == After([], [], b)
  {
    hide TakeTurns;
  }

  lemma NoTurns(id: OperationId, o: Operation, done: seq<Status>, made: seq<Call>)
    ensures After(done, made, TakeTurns(id, o, [], [])) == Batch(o, done, made, true)
  {}

  lemma PlannedFrom(refs: seq<Ref>, scripts: seq<Script>, i: nat)
    requires |refs| == |scripts|
    ensures |PlannedAll(refs, scripts)| == |refs|
    ensures i < |refs| ==> PlannedAll(refs[i..], scripts[i..])[1..] == PlannedAll(refs[i + 1..], scripts[i + 1..])
  {}

  lemma Unfold(id: OperationId, o: Operation, refs: seq<Ref>, scripts: seq<Script>, i: nat, done: seq<Status>, made: seq<Call>)
    requires |refs| == |scripts| && i < |refs|
    ensures var turn := TakeTurn(id, o.header, refs[i], Entry(o, refs[i]), scripts[i]);
            var next := Updated(o, refs[i], turn.record);
            After(done, made, TakeTurns(id, o, refs[i..], scripts[i..])) ==
            if !turn.ok then Batch(next, done + ([turn.status] + PlannedAll(refs[i + 1..], scripts[i + 1..])), made + turn.calls, false)
            else After(done + [turn.status], made + turn.calls, TakeTurns(id, next, refs[i + 1..], scripts[i + 1..]))
  {
    hide TakeTurn, PlannedAll;
    assert refs[i..][1..] == refs[i + 1..] && scripts[i..][1..] == scripts[i + 1..];
    var turn := TakeTurn(id, o.header, refs[i], Entry(o, refs[i]), scripts[i]);
    if turn.ok {
      var rest := TakeTurns(id, Updated(o, refs[i], turn.record), refs[i + 1..], scripts[i + 1..]);
      assert done + ([turn.status] + rest.statuses) == done + [turn.status] + rest.statuses;
      assert made + (turn.calls + rest.calls) == made + turn.calls + rest.calls;
    }
  }

  lemma UpdatedTwice(o: Operation, ref: Ref, item: Item, record: Option<Item>)
    ensures Updated(Updated(o, ref, Some(item)), ref, record) == Updated(o, ref, if record.None? then Some(item) else record)
  {
    if record.Some? {
      assert o.items[ref := item][ref := record.value] == o.items[ref := record.value];
    }
  }

  // ---------- records that the calls bear out ----------

  /** A record that claims no more about an item than the one on disk. */
  lemma ItemRecord(w: World, id: OperationId, o: Operation, ref: Ref, item: Item)
    requires id in w.disk && w.disk[id] == o && !Entry(o, ref).verified
    requires item.writeApplied == Entry(o, ref).writeApplied && !item.verified
    ensures RecordAllowed(w, id, o.(items := o.items[ref := item]))
  {}

  /** A record of the write that was just applied. */
  lemma WrittenRecord(w: World, id: OperationId, o: Operation, ref: Ref, item: Item)
    requires id in w.disk && w.disk[id] == o && !Entry(o, ref).verified && !item.verified
    requires |w.calls| > 0
    requires var c := w.calls[|w.calls| - 1]; c.WriteCall? && c.operation == id && c.ref == ref && c.applied
    ensures item.writeApplied ==> RecordAllowed(w, id, o.(items := o.items[ref := item]))
  {}

  /** A record of the verification that was just tried. */
  lemma VerifiedRecord(w: World, id: OperationId, o: Operation, ref: Ref, item: Item)
    requires id in w.disk && w.disk[id] == o && Entry(o, ref).writeApplied && item.writeApplied && !Entry(o, ref).verified
    requires |w.calls| > 0
    requires var c := w.calls[|w.calls| - 1]; c.VerifyCall? && c.operation == id && c.ref == ref && c.confirmed == item.verified
    requires item.verified ==> item.code == Migrated
    ensures RecordAllowed(w, id, o.(items := o.items[ref := item]))
  {}

  /** A new operation, or one whose items are those on disk. */
  lemma SameItemsRecord(w: World, id: OperationId, o: Operation)
    requires if id in w.disk then o.header == w.disk[id].header && o.items == w.disk[id].items else o.items == map[]
    ensures RecordAllowed(w, id, o)
  {}

  lemma Extend(trail: seq<World>, w: World)
    requires |trail| > 0 && IsTrail(trail) && Effect(trail[|trail| - 1], w)
    ensures IsTrail(trail + [w])
  {
    hide Effect;
    forall i | 0 <= i < |trail + [w]| - 1
      ensures Effect((trail + [w])[i], (trail + [w])[i + 1])
    {
      if i < |trail| - 1 {
        assert Effect(trail[i], trail[i + 1]);
      }
    }
  }
}
