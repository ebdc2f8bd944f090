/** A bulk campaign migrates its items one at a time, each as an operation of its own, and stops
    calling the target once it pushes back. */
module CampaignRun {
  import opened Results
  import opened AtomicFile
  import opened Migration
  import opened MigrationRun

  /** `supported` joins the provider action and the capability of the planned item. */
  datatype CampaignItem = CampaignItem(ref: Ref, supported: bool, denied: bool, code: Code,
                                       applied: bool, verified: bool, attempts: nat)

  /** All items of a campaign go to one target. */
  datatype Campaign = Campaign(id: string, target: string, items: seq<CampaignItem>, requiresRevalidation: bool)

  predicate Completed(e: CampaignItem) {
    e.applied && e.verified
  }

  predicate Retryable(e: CampaignItem) {
    e.supported && !e.denied && RetryCode(e.code)
  }

  predicate RetryCode(code: Code) {
    code in {DryRunReady, RateLimited, SourceAuthRequired, SourceUnavailable, VerificationFailed, Degraded,
             Conflict, InvalidRef, PolicyDenied, Unsupported, Skipped, AuditUnavailable}
  }

  /** An item that an apply would work on. */
  predicate Due(e: CampaignItem) {
    !Completed(e) && Retryable(e)
  }

  predicate PushesBack(code: Code) {
    code in {RateLimited, SourceAuthRequired, SourceUnavailable, Degraded, AuditUnavailable}
  }

  /** The operation of an item depends only on the campaign, its target and the ref. */
  function OperationOf(id: string, target: string, ref: Ref): OperationId {
    ForItem(id, target, ref)
  }

  function PlanOf(id: string, target: string, ref: Ref): Plan {
    Plan(OperationOf(id, target, ref), "local", target, [ref])
  }

  /** How the checks before the execution end: the item may run, or it is refused with an item
      result, or refused without one. */
  datatype Gate = Open | RefusedItem(code: Code) | RefusedBare(code: Code)

  /** What meets one campaign item; `audited` says that the closing audit record was written and
      `campaignSave` is the save of the campaign after the item. */
  datatype ItemScript = ItemScript(gate: Gate, script: Script, create: SaveResult, final: SaveResult,
                                   audited: bool, campaignSave: SaveResult)

  /** The answer is a result for the item, or only an outcome. */
  datatype Report = Report(ledger: Ledger, calls: seq<Call>, answer: Result<Status, Code>)

  /** The apply of one operation: its checks, the execution and the closing audit record. */
  function ApplyOperation(ledger: Ledger, id: string, target: string, ref: Ref, s: ItemScript): Report {
    var x := Execute(ledger, PlanOf(id, target, ref), [s.script], s.create, s.final);
    var report := match s.gate
      case Open => Report(x.ledger, x.calls, Ok(x.statuses[0]))
      case RefusedItem(code) => Report(ledger, [], Ok(Status(ref, code, false, 0, true)))
      case RefusedBare(code) => Report(ledger, [], Err(code));
    if s.audited then report
    else if report.answer.Ok? then report.(answer := Ok(report.answer.value.(code := AuditUnavailable, denied := true)))
    else report.(answer := Err(AuditUnavailable))
  }

  function ItemAfter(e: CampaignItem, answer: Result<Status, Code>): (after: CampaignItem)
    ensures after.ref == e.ref && after.supported == e.supported
  {
    match answer
    case Ok(status) =>
      e.(code := status.code, applied := status.code == Migrated && status.verified, verified := status.verified,
         attempts := status.attempts, denied := status.denied)
    case Err(code) =>
      e.(code := code, applied := false, verified := false)
  }

  /** One item's place in a pass: left alone, deferred, or applied and saved with the campaign. */
  datatype Visit = Visit(ledger: Ledger, calls: seq<Call>, item: CampaignItem, pressure: bool, ok: bool)

  function VisitOf(ledger: Ledger, id: string, target: string, item: CampaignItem, s: ItemScript, pressure: bool): (v: Visit)
    ensures v.item.ref == item.ref && v.item.supported == item.supported
  {
    hide ApplyOperation;
    if !Due(item) then
      Visit(ledger, [], item, pressure, true)
    else if pressure then
      Visit(ledger, [], item.(code := Skipped, applied := false), true, true)
    else
      var r := ApplyOperation(ledger, id, target, item.ref, s);
      var e := ItemAfter(item, r.answer);
      Visit(r.ledger, r.calls, e, PushesBack(e.code), s.campaignSave == Saved)
  }

  /** One pass over the items. A failed campaign save ends it. */
  datatype Pass = Pass(ledger: Ledger, calls: seq<Call>, items: seq<CampaignItem>, pressure: bool, ok: bool)

  function RunPass(ledger: Ledger, id: string, target: string, items: seq<CampaignItem>, scripts: seq<ItemScript>,
                   pressure: bool): (p: Pass)
    requires |items| == |scripts|
    ensures |p.items| == |items|
    decreases |items|
  {
    if items == [] then
      Pass(ledger, [], [], pressure, true)
    else
      var v := VisitOf(ledger, id, target, items[0], scripts[0], pressure);
      if !v.ok then
        Pass(v.ledger, v.calls, [v.item] + items[1..], v.pressure, false)
      else
        VisitThen(v, RunPass(v.ledger, id, target, items[1..], scripts[1..], v.pressure))
  }

  function VisitThen(v: Visit, rest: Pass): Pass {
    Pass(rest.ledger, v.calls + rest.calls, [v.item] + rest.items, rest.pressure, rest.ok)
  }

  // ---------- what a pass keeps ----------

  lemma VisitPushedBack(ledger: Ledger, id: string, target: string, item: CampaignItem, s: ItemScript, pressure: bool)
    ensures var v := VisitOf(ledger, id, target, item, s, pressure);
            && (Due(item) && PushesBack(v.item.code) ==> v.pressure)
            && (!Due(item) ==> v == Visit(ledger, [], item, pressure, true))
            && (pressure ==> v.pressure && v.ledger == ledger && v.calls == [] && v.ok)
            && (pressure && Due(item) ==> v.item == item.(code := Skipped, applied := false) && Due(v.item))
  {
    hide ApplyOperation, ItemAfter;
  }

  /** Items keep their place, their ref and so their operation. */
  lemma {:induction false} PassKeepsRefs(ledger: Ledger, id: string, target: string, items: seq<CampaignItem>,
                                         scripts: seq<ItemScript>, pressure: bool, i: nat)
    requires |items| == |scripts| && i < |items|
    ensures var e := RunPass(ledger, id, target, items, scripts, pressure).items[i];
            && e.ref == items[i].ref && e.supported == items[i].supported
            && (!Due(items[i]) ==> e == items[i])
    decreases |items|
  {
    hide VisitOf, Due;
    var v := VisitOf(ledger, id, target, items[0], scripts[0], pressure);
    if i > 0 {
      PassKeepsRefs(v.ledger, id, target, items[1..], scripts[1..], v.pressure, i - 1);
    } else {
      VisitPushedBack(ledger, id, target, items[0], scripts[0], pressure);
    }
  }

  /** Under pressure nothing is called and nothing recorded: due items are deferred, and stay due. */
  lemma {:induction false} PressureDefers(ledger: Ledger, id: string, target: string, items: seq<CampaignItem>,
                                          scripts: seq<ItemScript>)
    requires |items| == |scripts|
    ensures var p := RunPass(ledger, id, target, items, scripts, true);
            && p.ledger == ledger && p.calls == [] && p.ok
            && forall i :: 0 <= i < |items| && Due(items[i]) ==>
                             p.items[i] == items[i].(code := Skipped, applied := false) && Due(p.items[i])
    decreases |items|
  {
    hide VisitOf, Due;
    if items != [] {
      VisitPushedBack(ledger, id, target, items[0], scripts[0], true);
      PressureDefers(ledger, id, target, items[1..], scripts[1..]);
    }
  }

  /** A pass, item by item: the visit of the item in the ledger and under the pressure that the
      items before it left, or nothing if the pass ended before it. */
  lemma {:induction false} PassAt(ledger: Ledger, id: string, target: string, items: seq<CampaignItem>,
                                  scripts: seq<ItemScript>, pressure: bool, i: nat)
    requires |items| == |scripts| && i < |items|
    ensures var q := RunPass(ledger, id, target, items[..i], scripts[..i], pressure);
            RunPass(ledger, id, target, items, scripts, pressure).items[i] ==
            if q.ok then VisitOf(q.ledger, id, target, items[i], scripts[i], q.pressure).item else items[i]
    decreases |items|
  {
    hide VisitOf;
    if i > 0 {
      var v := VisitOf(ledger, id, target, items[0], scripts[0], pressure);
      assert items[..i][1..] == items[1..][..i - 1] && scripts[..i][1..] == scripts[1..][..i - 1];
      PassAt(v.ledger, id, target, items[1..], scripts[1..], v.pressure, i - 1);
    }
  }

  /** One more item extends a pass by its visit. */
  lemma {:induction false} PassExtends(ledger: Ledger, id: string, target: string, items: seq<CampaignItem>,
                                       scripts: seq<ItemScript>, pressure: bool, i: nat)
    requires |items| == |scripts| && i < |items|
    requires RunPass(ledger, id, target, items[..i], scripts[..i], pressure).ok
    ensures var q := RunPass(ledger, id, target, items[..i], scripts[..i], pressure);
            var v := VisitOf(q.ledger, id, target, items[i], scripts[i], q.pressure);
            var p := RunPass(ledger, id, target, items[..i + 1], scripts[..i + 1], pressure);
            p.ledger == v.ledger && p.pressure == v.pressure && p.ok == v.ok
    decreases |items|
  {
    hide VisitOf;
    var v := VisitOf(ledger, id, target, items[0], scripts[0], pressure);
    assert items[..i + 1][1..] == items[1..][..i] && scripts[..i + 1][1..] == scripts[1..][..i];
    if i > 0 {
      assert items[..i][1..] == items[1..][..i - 1] && scripts[..i][1..] == scripts[1..][..i - 1];
      PassExtends(v.ledger, id, target, items[1..], scripts[1..], v.pressure, i - 1);
    }
  }

  /** A pass whose first items went well goes on with the others from there. */
  lemma {:induction false} PassSplits(ledger: Ledger, id: string, target: string, items: seq<CampaignItem>,
                                      scripts: seq<ItemScript>, pressure: bool, k: nat)
    requires |items| == |scripts| && k <= |items|
    ensures var p := RunPass(ledger, id, target, items, scripts, pressure);
            var q := RunPass(ledger, id, target, items[..k], scripts[..k], pressure);
            var r := RunPass(q.ledger, id, target, items[k..], scripts[k..], q.pressure);
            && (p.ok ==> q.ok)
            && (q.ok ==> p == Pass(r.ledger, q.calls + r.calls, q.items + r.items, r.pressure, r.ok))
    decreases |items|
  {
    if k == 0 {
      hide VisitOf;
      assert items[..0] == [] && items[0..] == items && scripts[0..] == scripts;
      var p := RunPass(ledger, id, target, items, scripts, pressure);
      assert [] + p.calls == p.calls && [] + p.items == p.items;
    } else {
      hide RunPass, VisitOf, VisitThen;
      var v := VisitOf(ledger, id, target, items[0], scripts[0], pressure);
      assert items[..k][1..] == items[1..][..k - 1] && scripts[..k][1..] == scripts[1..][..k - 1];
      assert items[1..][k - 1..] == items[k..] && scripts[1..][k - 1..] == scripts[k..];
      PassUnfolds(ledger, id, target, items, scripts, pressure);
      PassUnfolds(ledger, id, target, items[..k], scripts[..k], pressure);
      PassSplits(v.ledger, id, target, items[1..], scripts[1..], v.pressure, k - 1);
      var q := RunPass(v.ledger, id, target, items[1..][..k - 1], scripts[1..][..k - 1], v.pressure);
      var r := RunPass(q.ledger, id, target, items[k..], scripts[k..], q.pressure);
      AfterJoins(v, q, r);
    }
  }

  lemma PassUnfolds(ledger: Ledger, id: string, target: string, items: seq<CampaignItem>, scripts: seq<ItemScript>, pressure: bool)
    requires |items| == |scripts| && items != []
    ensures var v := VisitOf(ledger, id, target, items[0], scripts[0], pressure);
            var p := RunPass(ledger, id, target, items, scripts, pressure);
            && (v.ok ==> p == VisitThen(v, RunPass(v.ledger, id, target, items[1..], scripts[1..], v.pressure)))
            && (!v.ok ==> !p.ok)
  {
    hide VisitOf, VisitThen;
  }

  lemma AfterJoins(v: Visit, q: Pass, r: Pass)
    ensures VisitThen(v, Pass(r.ledger, q.calls + r.calls, q.items + r.items, r.pressure, r.ok)) ==
            Pass(r.ledger, VisitThen(v, q).calls + r.calls, VisitThen(v, q).items + r.items, r.pressure, r.ok)
    ensures VisitThen(v, q).ledger == q.ledger && VisitThen(v, q).pressure == q.pressure && VisitThen(v, q).ok == q.ok
    ensures forall p :: VisitThen(v, p).ok == p.ok
  {
    assert v.calls + (q.calls + r.calls) == (v.calls + q.calls) + r.calls;
    assert [v.item] + (q.items + r.items) == ([v.item] + q.items) + r.items;
  }

  /** Once the target pushed back on item `i`, the rest of the pass makes no call and leaves no
      record: the pass over the first items is the whole of it, and later due items are deferred. */
  lemma PushBackEndsThePass(ledger: Ledger, id: string, target: string, items: seq<CampaignItem>,
                            scripts: seq<ItemScript>, pressure: bool, i: nat)
    requires |items| == |scripts| && i < |items|
    requires RunPass(ledger, id, target, items, scripts, pressure).ok
    requires Due(items[i])
    requires PushesBack(RunPass(ledger, id, target, items, scripts, pressure).items[i].code)
    ensures var p := RunPass(ledger, id, target, items, scripts, pressure);
            var q := RunPass(ledger, id, target, items[..i + 1], scripts[..i + 1], pressure);
            && p.ledger == q.ledger && p.calls == q.calls
            && forall j :: i < j < |items| && Due(items[j]) ==> p.items[j].code == Skipped && Due(p.items[j])
  {
    hide VisitOf, Due, PushesBack, RunPass;
    PassSplits(ledger, id, target, items, scripts, pressure, i);
    PassAt(ledger, id, target, items, scripts, pressure, i);
    PassExtends(ledger, id, target, items, scripts, pressure, i);
    var before := RunPass(ledger, id, target, items[..i], scripts[..i], pressure);
    VisitPushedBack(before.ledger, id, target, items[i], scripts[i], before.pressure);
    PassSplits(ledger, id, target, items, scripts, pressure, i + 1);
    var q := RunPass(ledger, id, target, items[..i + 1], scripts[..i + 1], pressure);
    assert q.pressure;
    PressureDefers(q.ledger, id, target, items[i + 1..], scripts[i + 1..]);
    forall j | i < j < |items| && Due(items[j])
      ensures var e := RunPass(ledger, id, target, items, scripts, pressure).items[j]; e.code == Skipped && Due(e)
    {
      assert items[j] == items[i + 1..][j - i - 1];
    }
  }

  // ---------- what a pass achieves ----------

  lemma ApplyGrows(ledger: Ledger, id: string, target: string, ref: Ref, s: ItemScript, operation: OperationId, other: Ref)
    ensures Verified(ledger, operation, other) ==> Verified(ApplyOperation(ledger, id, target, ref, s).ledger, operation, other)
    ensures Written(ledger, operation, other) ==> Written(ApplyOperation(ledger, id, target, ref, s).ledger, operation, other)
  {
    hide Execute, Verified, Written;
    ExecuteGrows(ledger, PlanOf(id, target, ref), [s.script], s.create, s.final, operation, other);
  }

  lemma {:induction false} PassGrows(ledger: Ledger, id: string, target: string, items: seq<CampaignItem>,
                                     scripts: seq<ItemScript>, pressure: bool, operation: OperationId, ref: Ref)
    requires |items| == |scripts|
    ensures var p := RunPass(ledger, id, target, items, scripts, pressure);
            && (Verified(ledger, operation, ref) ==> Verified(p.ledger, operation, ref))
            && (Written(ledger, operation, ref) ==> Written(p.ledger, operation, ref))
    decreases |items|
  {
    hide ApplyOperation, Due, ItemAfter, PushesBack, Verified, Written;
    if items != [] {
      var v := VisitOf(ledger, id, target, items[0], scripts[0], pressure);
      ApplyGrows(ledger, id, target, items[0].ref, scripts[0], operation, ref);
      PassGrows(v.ledger, id, target, items[1..], scripts[1..], v.pressure, operation, ref);
    }
  }

  lemma ApplyKeepsTidy(ledger: Ledger, id: string, target: string, ref: Ref, s: ItemScript)
    requires AllTidy(ledger)
    ensures AllTidy(ApplyOperation(ledger, id, target, ref, s).ledger)
  {
    hide Execute, AllTidy;
    ExecuteKeepsTidy(ledger, PlanOf(id, target, ref), [s.script], s.create, s.final);
  }

  lemma {:induction false} PassKeepsTidy(ledger: Ledger, id: string, target: string, items: seq<CampaignItem>,
                                         scripts: seq<ItemScript>, pressure: bool)
    requires |items| == |scripts| && AllTidy(ledger)
    ensures AllTidy(RunPass(ledger, id, target, items, scripts, pressure).ledger)
    decreases |items|
  {
    hide ApplyOperation, Due, ItemAfter, PushesBack, AllTidy;
    if items != [] {
      var v := VisitOf(ledger, id, target, items[0], scripts[0], pressure);
      ApplyKeepsTidy(ledger, id, target, items[0].ref, scripts[0]);
      PassKeepsTidy(v.ledger, id, target, items[1..], scripts[1..], v.pressure);
    }
  }

  /** The item is not on record under another plan. */
  predicate PlanStands(ledger: Ledger, id: string, target: string, ref: Ref) {
    var o := OperationOf(id, target, ref);
    o in ledger ==> ledger[o].header.fingerprint == FingerprintOf(PlanOf(id, target, ref))
  }

  /** No apply of any item changes whether any item's plan stands. */
  lemma ApplyKeepsPlans(ledger: Ledger, id: string, target: string, ref: Ref, s: ItemScript,
                        otherId: string, otherTarget: string, other: Ref)
    ensures PlanStands(ApplyOperation(ledger, id, target, ref, s).ledger, otherId, otherTarget, other) <==>
            PlanStands(ledger, otherId, otherTarget, other)
  {
    hide Execute;
    ExecuteKeepsPlans(ledger, PlanOf(id, target, ref), [s.script], s.create, s.final, OperationOf(otherId, otherTarget, other));
  }

  lemma {:induction false} PassKeepsPlans(ledger: Ledger, id: string, target: string, items: seq<CampaignItem>,
                                          scripts: seq<ItemScript>, pressure: bool, otherId: string, otherTarget: string, other: Ref)
    requires |items| == |scripts|
    ensures PlanStands(RunPass(ledger, id, target, items, scripts, pressure).ledger, otherId, otherTarget, other) <==>
            PlanStands(ledger, otherId, otherTarget, other)
    decreases |items|
  {
    hide ApplyOperation, Due, ItemAfter, PushesBack, PlanStands;
    if items != [] {
      var v := VisitOf(ledger, id, target, items[0], scripts[0], pressure);
      ApplyKeepsPlans(ledger, id, target, items[0].ref, scripts[0], otherId, otherTarget, other);
      PassKeepsPlans(v.ledger, id, target, items[1..], scripts[1..], v.pressure, otherId, otherTarget, other);
    }
  }

  predicate Unhindered(s: ItemScript) {
    s == ItemScript(Open, Script(DryRunReady, None, Done, Done, Saved, Saved), Saved, Saved, true, Saved)
  }

  /** An unhindered item ends migrated, verified and on record exactly when its plan stands. */
  lemma UnhinderedItem(ledger: Ledger, id: string, target: string, e: CampaignItem, s: ItemScript)
    requires AllTidy(ledger) && Unhindered(s)
    ensures var r := ApplyOperation(ledger, id, target, e.ref, s);
            && (Completed(ItemAfter(e, r.answer)) <==> PlanStands(ledger, id, target, e.ref))
            && !PushesBack(ItemAfter(e, r.answer).code)
            && (PlanStands(ledger, id, target, e.ref) ==> Verified(r.ledger, OperationOf(id, target, e.ref), e.ref))
  {
    hide TakeTurns, Concluded;
    var plan := PlanOf(id, target, e.ref);
    assert Favourable(s.script);
    AppliedOnTidyRecord(ledger, plan, [s.script], Saved, Saved);
    ResumeOnTidyRecord(ledger, plan, [s.script]);
    var o := if plan.operation in ledger then ledger[plan.operation] else Operation(HeaderOf(plan), map[], InProgress);
    assert Tidy(o);
    FavourableTurns(plan.operation, o, plan.refs, [s.script]);
    ConcludedShape(ledger, plan.operation, TakeTurns(plan.operation, o, plan.refs, [s.script]), Saved);
    assert e.ref in plan.refs;
  }

  lemma {:induction false} UnhinderedOnTidyRecord(ledger: Ledger, id: string, target: string, items: seq<CampaignItem>,
                                                  scripts: seq<ItemScript>, i: nat)
    requires |items| == |scripts| && i < |items| && AllTidy(ledger)
    requires forall k :: 0 <= k < |scripts| ==> Unhindered(scripts[k])
    ensures var p := RunPass(ledger, id, target, items, scripts, false);
            var stands := PlanStands(ledger, id, target, items[i].ref);
            Due(items[i]) ==> (Completed(p.items[i]) <==> stands)
                              && (stands ==> Verified(p.ledger, OperationOf(id, target, items[i].ref), items[i].ref))
    decreases |items|
  {
    hide ApplyOperation, Due, AllTidy, Verified, ItemAfter, PlanStands;
    assert Unhindered(scripts[0]);
    var v := VisitOf(ledger, id, target, items[0], scripts[0], false);
    UnhinderedItem(ledger, id, target, items[0], scripts[0]);
    if i == 0 {
      PassGrows(v.ledger, id, target, items[1..], scripts[1..], false, OperationOf(id, target, items[0].ref), items[0].ref);
    } else {
      ApplyKeepsTidy(ledger, id, target, items[0].ref, scripts[0]);
      ApplyKeepsPlans(ledger, id, target, items[0].ref, scripts[0], id, target, items[i].ref);
      UnhinderedOnTidyRecord(v.ledger, id, target, items[1..], scripts[1..], i - 1);
    }
  }

  /** From whatever earlier executions, passes and crashes left, a pass that meets no obstacle
      finishes exactly those due items that are not on record under another plan, and has them on
      record as verified. */
  lemma UnhinderedPassIff(ledger: Ledger, id: string, target: string, items: seq<CampaignItem>, scripts: seq<ItemScript>, i: nat)
    requires |items| == |scripts| && i < |items| && Reachable(ledger)
    requires forall k :: 0 <= k < |scripts| ==> Unhindered(scripts[k])
    ensures var p := RunPass(ledger, id, target, items, scripts, false);
            var stands := PlanStands(ledger, id, target, items[i].ref);
            Due(items[i]) ==> (Completed(p.items[i]) <==> stands)
                              && (stands ==> Verified(p.ledger, OperationOf(id, target, items[i].ref), items[i].ref))
  {
    ReachableIsTidy(ledger);
    hide RunPass, Reachable, AllTidy, Unhindered, Due, Verified, PlanStands;
    UnhinderedOnTidyRecord(ledger, id, target, items, scripts, i);
  }

  // ---------- runs of direct operations and campaign passes ----------

  datatype Act =
    | Operate(plan: Plan, answers: seq<Script>, create: SaveResult, final: SaveResult)
    | ApplyPass(id: string, target: string, items: seq<CampaignItem>, scripts: seq<ItemScript>)

  /** Direct operations have IDs of their own. */
  predicate ProperAct(a: Act) {
    match a
    case Operate(plan, answers, _, _) => |answers| == |plan.refs| && plan.operation.Direct?
    case ApplyPass(_, _, items, scripts) => |items| == |scripts|
  }

  function RunActs(acts: seq<Act>): Ledger
    requires forall i :: 0 <= i < |acts| ==> ProperAct(acts[i])
  {
    if acts == [] then map[]
    else
      var before, last := RunActs(acts[..|acts| - 1]), acts[|acts| - 1];
      assert ProperAct(last);
      match last
      case Operate(plan, answers, create, final) => Execute(before, plan, answers, create, final).ledger
      case ApplyPass(id, target, items, scripts) => RunPass(before, id, target, items, scripts, false).ledger
  }

  /** In every such run, with any answers and any failing saves, the records are tidy and no
      campaign item meets another plan. */
  lemma {:induction false} EveryRunStands(acts: seq<Act>, id: string, target: string, ref: Ref)
    requires forall i :: 0 <= i < |acts| ==> ProperAct(acts[i])
    ensures AllTidy(RunActs(acts)) && PlanStands(RunActs(acts), id, target, ref)
  {
    hide AllTidy, Execute, RunPass;
    if acts == [] {
      NothingStands(id, target, ref);
    } else {
      var n := |acts| - 1;
      EveryRunStands(acts[..n], id, target, ref);
      var before := RunActs(acts[..n]);
      assert ProperAct(acts[n]);
      match acts[n] {
        case Operate(plan, answers, create, final) =>
          ExecuteKeepsTidy(before, plan, answers, create, final);
          ExecuteKeepsPlans(before, plan, answers, create, final, OperationOf(id, target, ref));
        case ApplyPass(id', target', items, scripts) =>
          PassKeepsTidy(before, id', target', items, scripts, false);
          PassKeepsPlans(before, id', target', items, scripts, false, id, target, ref);
      }
    }
  }

  lemma NothingStands(id: string, target: string, ref: Ref)
    ensures AllTidy(map[]) && PlanStands(map[], id, target, ref)
  {}

  /** After any such run, an unhindered pass finishes every due item. */
  lemma UnhinderedPassAfterAnyRun(acts: seq<Act>, id: string, target: string, items: seq<CampaignItem>,
                                  scripts: seq<ItemScript>, i: nat)
    requires forall k :: 0 <= k < |acts| ==> ProperAct(acts[k])
    requires |items| == |scripts| && i < |items| && Due(items[i])
    requires forall k :: 0 <= k < |scripts| ==> Unhindered(scripts[k])
    ensures var p := RunPass(RunActs(acts), id, target, items, scripts, false);
            Completed(p.items[i]) && Verified(p.ledger, OperationOf(id, target, items[i].ref), items[i].ref)
  {
    hide RunPass, RunActs, AllTidy, Unhindered, Due, Verified, PlanStands, ProperAct;
    EveryRunStands(acts, id, target, items[i].ref);
    UnhinderedOnTidyRecord(RunActs(acts), id, target, items, scripts, i);
  }

  /** A direct operation keeps the plan that put it on record, through any run. */
  lemma {:induction false} PlanOnRecord(acts: seq<Act>, i: nat)
    requires forall k :: 0 <= k < |acts| ==> ProperAct(acts[k])
    requires i < |acts| && acts[i].Operate?
    requires var id := acts[i].plan.operation; id !in RunActs(acts[..i]) && id in RunActs(acts[..i + 1])
    ensures var id := acts[i].plan.operation;
            id in RunActs(acts) && RunActs(acts)[id].header == HeaderOf(acts[i].plan)
    decreases |acts|
  {
    hide Execute, RunPass, FingerprintOf;
    var n := |acts| - 1;
    var id, before, last := acts[i].plan.operation, RunActs(acts[..n]), acts[n];
    assert ProperAct(last) && ProperAct(acts[i]);
    if i == n {
      assert acts[..i + 1] == acts;
      ExecuteKeepsPlans(before, last.plan, last.answers, last.create, last.final, id);
    } else {
      assert acts[..n][..i] == acts[..i] && acts[..n][..i + 1] == acts[..i + 1];
      PlanOnRecord(acts[..n], i);
      match last {
        case Operate(plan, answers, create, final) =>
          ExecuteKeepsPlans(before, plan, answers, create, final, id);
        case ApplyPass(id', target', items, scripts) =>
          PassKeepsRecords(before, id', target', items, scripts, false, id);
      }
    }
  }

  /** A pass touches no direct operation. */
  lemma {:induction false} PassKeepsRecords(ledger: Ledger, id: string, target: string, items: seq<CampaignItem>,
                                            scripts: seq<ItemScript>, pressure: bool, operation: OperationId)
    requires |items| == |scripts| && operation in ledger
    ensures var p := RunPass(ledger, id, target, items, scripts, pressure);
            operation in p.ledger && p.ledger[operation].header == ledger[operation].header
    decreases |items|
  {
    hide ApplyOperation, Due, ItemAfter, PushesBack;
    if items != [] {
      var v := VisitOf(ledger, id, target, items[0], scripts[0], pressure);
      ApplyKeepsRecords(ledger, id, target, items[0].ref, scripts[0], operation);
      PassKeepsRecords(v.ledger, id, target, items[1..], scripts[1..], v.pressure, operation);
    }
  }

  lemma ApplyKeepsRecords(ledger: Ledger, id: string, target: string, ref: Ref, s: ItemScript, operation: OperationId)
    requires operation in ledger
    ensures var r := ApplyOperation(ledger, id, target, ref, s);
            operation in r.ledger && r.ledger[operation].header == ledger[operation].header
  {
    hide Execute;
    ExecuteKeepsPlans(ledger, PlanOf(id, target, ref), [s.script], s.create, s.final, operation);
  }

  /** After any run, an operation that plan `p` put on record and that is asked for with plan `q`, both
      without line breaks: a changed plan makes no call and saves nothing, and an unchanged one that
      meets no obstacle completes. */
  lemma ChangedPlanRunsNothing(acts: seq<Act>, i: nat, q: Plan, scripts: seq<Script>, create: SaveResult, final: SaveResult)
    requires forall k :: 0 <= k < |acts| ==> ProperAct(acts[k])
    requires i < |acts| && acts[i].Operate? && q.operation == acts[i].plan.operation && |scripts| == |q.refs|
    requires q.operation !in RunActs(acts[..i]) && q.operation in RunActs(acts[..i + 1])
    requires Plain(acts[i].plan) && Plain(q)
    ensures var ledger := RunActs(acts);
            var x := Execute(ledger, q, scripts, create, final);
            && (x.outcome == PlanConflict <==> !SamePlan(acts[i].plan, q))
            && (!SamePlan(acts[i].plan, q) ==> x.ledger == ledger && x.calls == [])
            && (create == final == Saved && (forall k :: 0 <= k < |scripts| ==> Favourable(scripts[k])) ==>
                (x.outcome == Finished(true) <==> SamePlan(acts[i].plan, q)))
  {
    PlanOnRecord(acts, i);
    EveryRunStands(acts, "", "", "");
    var ledger := RunActs(acts);
    hide RunActs, Execute, FingerprintOf, Plain, SamePlan, Favourable, AllTidy;
    ChangedPlanIff(ledger, acts[i].plan, q, scripts, create, final);
    FingerprintTellsPlans(acts[i].plan, q);
    if forall k :: 0 <= k < |scripts| ==> Favourable(scripts[k]) {
      ResumeOnTidyRecord(ledger, q, scripts);
    }
  }

  // ---------- which items a pass leaves in play ----------

  /** The item will be due at the next apply if it does not complete now: it was refused without
      an item result and with an outcome that is retried, or it ran under its own plan, was still
      ready, had a readable source or a source outcome that is retried, and was audited. */
  predicate StaysInPlay(ledger: Ledger, id: string, target: string, ref: Ref, s: ItemScript) {
    match s.gate
    case RefusedItem(_) => false
    case RefusedBare(code) => !s.audited || RetryCode(code)
    case Open =>
      && s.audited && PlanStands(ledger, id, target, ref) && s.script.planned == DryRunReady
      && (s.script.source.None? || RetryCode(s.script.source.value) || Verified(ledger, OperationOf(id, target, ref), ref)
          || (OperationOf(id, target, ref) !in ledger && s.create != Saved))
  }

  predicate StatusInPlay(st: Status) {
    (!st.denied && RetryCode(st.code)) || (st.code == Migrated && st.verified)
  }

  lemma TurnInPlay(id: OperationId, o: Operation, ref: Ref, s: Script)
    requires Tidy(o)
    ensures StatusInPlay(TakeTurn(id, o.header, ref, Entry(o, ref), s).status) <==>
            s.planned == DryRunReady && (s.source.None? || RetryCode(s.source.value) || Entry(o, ref).verified)
  {}

  lemma ExecutionInPlay(ledger: Ledger, id: string, target: string, ref: Ref, s: ItemScript)
    requires AllTidy(ledger)
    ensures StatusInPlay(Execute(ledger, PlanOf(id, target, ref), [s.script], s.create, s.final).statuses[0]) <==>
            && PlanStands(ledger, id, target, ref) && s.script.planned == DryRunReady
            && (s.script.source.None? || RetryCode(s.script.source.value) || Verified(ledger, OperationOf(id, target, ref), ref)
                || (OperationOf(id, target, ref) !in ledger && s.create != Saved))
  {
    hide FingerprintOf;
    var plan := PlanOf(id, target, ref);
    var o := if plan.operation in ledger then ledger[plan.operation] else Operation(HeaderOf(plan), map[], InProgress);
    assert Tidy(o);
    TurnInPlay(plan.operation, o, ref, s.script);
    SingleTurn(plan.operation, o, ref, s.script);
    ConcludedShape(ledger, plan.operation, TakeTurns(plan.operation, o, plan.refs, [s.script]), s.final);
    hide TakeTurn, TakeTurns, Concluded;
  }

  /** A due item that is visited ends due or completed exactly when it stays in play; all others are
      left behind until the campaign is revalidated. */
  lemma VisitLeavesInPlayIff(ledger: Ledger, id: string, target: string, e: CampaignItem, s: ItemScript, pressure: bool)
    requires AllTidy(ledger) && Due(e)
    ensures var after := VisitOf(ledger, id, target, e, s, pressure).item;
            Due(after) || Completed(after) <==> pressure || StaysInPlay(ledger, id, target, e.ref, s)
  {
    ExecutionInPlay(ledger, id, target, e.ref, s);
    hide Execute, PlanStands, Verified, AllTidy;
  }

  /** Which due items are due again or complete after a pass, from any reachable ledger: those that
      the pass did not get to, those it deferred, and those that stay in play. */
  lemma PassLeavesInPlayIff(ledger: Ledger, id: string, target: string, items: seq<CampaignItem>, scripts: seq<ItemScript>, i: nat)
    requires |items| == |scripts| && i < |items| && Reachable(ledger) && Due(items[i])
    ensures var e := RunPass(ledger, id, target, items, scripts, false).items[i];
            var q := RunPass(ledger, id, target, items[..i], scripts[..i], false);
            Due(e) || Completed(e) <==> !q.ok || q.pressure || StaysInPlay(q.ledger, id, target, items[i].ref, scripts[i])
  {
    hide RunPass, VisitOf, AllTidy, Reachable, StaysInPlay, Due;
    ReachableIsTidy(ledger);
    PassKeepsTidy(ledger, id, target, items[..i], scripts[..i], false);
    PassAt(ledger, id, target, items, scripts, false, i);
    var q := RunPass(ledger, id, target, items[..i], scripts[..i], false);
    VisitLeavesInPlayIff(q.ledger, id, target, items[i], scripts[i], q.pressure);
  }

  /** A target that is not ready for a moment, or a locked broker, takes a due item out of play. */
  lemma RefusalLeavesBehind(ledger: Ledger, id: string, target: string, e: CampaignItem, s: Script)
    requires Due(e)
    ensures forall gate :: gate in {RefusedItem(SourceUnavailable), RefusedBare(Locked)} ==>
              var after := VisitOf(ledger, id, target, e, ItemScript(gate, s, Saved, Saved, true, Saved), false).item;
              !Due(after) && !Completed(after)
  {
    hide Execute;
  }

  /** A migration that succeeded but whose closing audit record failed is out of play too, while the
      ledger has it as verified. */
  lemma AuditFailureLeavesBehind(id: string, target: string, e: CampaignItem)
    requires Due(e)
    ensures var s := ItemScript(Open, Script(DryRunReady, None, Done, Done, Saved, Saved), Saved, Saved, false, Saved);
            var v := VisitOf(map[], id, target, e, s, false);
            !Due(v.item) && !Completed(v.item) && Verified(v.ledger, OperationOf(id, target, e.ref), e.ref)
  {
    var s := ItemScript(Open, Script(DryRunReady, None, Done, Done, Saved, Saved), Saved, Saved, false, Saved);
    NothingStands(id, target, e.ref);
    UnhinderedItem(map[], id, target, e, s.(audited := true));
    hide Execute, Verified;
  }

  // ---------- completed items and the record ----------

  lemma TurnOnRecord(id: OperationId, o: Operation, ref: Ref, s: Script)
    requires Tidy(o)
    ensures var turn := TakeTurn(id, o.header, ref, Entry(o, ref), s);
            turn.status.code == Migrated && turn.status.verified ==>
              (Entry(Updated(o, ref, turn.record), ref).verified <==> Entry(o, ref).verified || WasPublished(s.atEnd))
  {
    hide WriteFailure, VerifyFailure;
  }

  lemma SingleTurn(id: OperationId, o: Operation, ref: Ref, s: Script)
    ensures var turn := TakeTurn(id, o.header, ref, Entry(o, ref), s);
            TakeTurns(id, o, [ref], [s]) == Batch(Updated(o, ref, turn.record), [turn.status], turn.calls, turn.ok)
  {
    hide TakeTurn;
    var turn := TakeTurn(id, o.header, ref, Entry(o, ref), s);
    assert [ref][1..] == [] && [s][1..] == [];
    assert PlannedAll([], []) == [];
    assert TakeTurns(id, Updated(o, ref, turn.record), [], []) == Batch(Updated(o, ref, turn.record), [], [], true);
  }

  /** An item that a visit completes is on record as verified exactly when it was before, or the last
      save of its migration was published. */
  lemma CompletedIsOnRecordIff(ledger: Ledger, id: string, target: string, e: CampaignItem, s: ItemScript)
    requires AllTidy(ledger) && Due(e)
    ensures var v := VisitOf(ledger, id, target, e, s, false);
            var o := OperationOf(id, target, e.ref);
            Completed(v.item) ==> (Verified(v.ledger, o, e.ref) <==> Verified(ledger, o, e.ref) || WasPublished(s.script.atEnd))
  {
    hide FingerprintOf;
    var plan := PlanOf(id, target, e.ref);
    var o := if plan.operation in ledger then ledger[plan.operation] else Operation(HeaderOf(plan), map[], InProgress);
    assert Tidy(o);
    TurnOnRecord(plan.operation, o, e.ref, s.script);
    SingleTurn(plan.operation, o, e.ref, s.script);
    ConcludedShape(ledger, plan.operation, TakeTurns(plan.operation, o, plan.refs, [s.script]), s.final);
    hide TakeTurn, TakeTurns, Concluded;
  }

  /** The same for every item that a pass completes, between the ledgers before and after its visit. */
  lemma PassCompletedIsOnRecordIff(ledger: Ledger, id: string, target: string, items: seq<CampaignItem>, scripts: seq<ItemScript>, i: nat)
    requires |items| == |scripts| && i < |items| && Reachable(ledger) && Due(items[i])
    requires RunPass(ledger, id, target, items[..i], scripts[..i], false).ok
    requires Completed(RunPass(ledger, id, target, items, scripts, false).items[i])
    ensures var before := RunPass(ledger, id, target, items[..i], scripts[..i], false).ledger;
            var after := RunPass(ledger, id, target, items[..i + 1], scripts[..i + 1], false).ledger;
            var o := OperationOf(id, target, items[i].ref);
            Verified(after, o, items[i].ref) <==> Verified(before, o, items[i].ref) || WasPublished(scripts[i].script.atEnd)
  {
    hide RunPass, VisitOf, AllTidy, Reachable, Due, Verified;
    ReachableIsTidy(ledger);
    PassKeepsTidy(ledger, id, target, items[..i], scripts[..i], false);
    PassAt(ledger, id, target, items, scripts, false, i);
    PassExtends(ledger, id, target, items, scripts, false, i);
    var q := RunPass(ledger, id, target, items[..i], scripts[..i], false);
    DeferredIsNotCompleted(q.ledger, id, target, items[i], scripts[i]);
    CompletedIsOnRecordIff(q.ledger, id, target, items[i], scripts[i]);
  }

  lemma DeferredIsNotCompleted(ledger: Ledger, id: string, target: string, e: CampaignItem, s: ItemScript)
    requires Due(e)
    ensures !Completed(VisitOf(ledger, id, target, e, s, true).item)
  {}

  /** A lost last save: the campaign keeps the item as completed although the ledger has only its
      write, and no later pass visits it again. */
  lemma CompletedButNotOnRecord(id: string, target: string, e: CampaignItem, next: ItemScript, pressure: bool)
    requires Due(e)
    ensures var s := ItemScript(Open, Script(DryRunReady, None, Done, Done, Saved, NotPublished), Saved, Saved, true, Saved);
            var p := RunPass(map[], id, target, [e], [s], false);
            var again := RunPass(p.ledger, id, target, p.items, [next], pressure);
            && p.ok && Completed(p.items[0]) && !Due(p.items[0])
            && Written(p.ledger, OperationOf(id, target, e.ref), e.ref) && !Verified(p.ledger, OperationOf(id, target, e.ref), e.ref)
            && again.items == p.items && again.ledger == p.ledger && again.calls == []
  {
    hide FingerprintOf, Due;
    var s := ItemScript(Open, Script(DryRunReady, None, Done, Done, Saved, NotPublished), Saved, Saved, true, Saved);
    var plan := PlanOf(id, target, e.ref);
    var o := Operation(HeaderOf(plan), map[], InProgress);
    SingleTurn(plan.operation, o, e.ref, s.script);
    LostSave(plan.operation, HeaderOf(plan), e.ref);
    hide TakeTurn, TakeTurns;
    var v := VisitOf(map[], id, target, e, s, false);
    assert v.item == e.(code := Migrated, applied := true, verified := true, attempts := 1, denied := false);
    SinglePass(map[], id, target, e, s, false);
    SinglePass(v.ledger, id, target, v.item, next, pressure);
    CompletedIsNotDue(v.item);
    VisitPushedBack(v.ledger, id, target, v.item, next, pressure);
    hide VisitOf, RunPass;
  }

  lemma CompletedIsNotDue(e: CampaignItem)
    requires Completed(e)
    ensures !Due(e)
  {}

  lemma LostSave(id: OperationId, plan: Header, ref: Ref)
    ensures TakeTurn(id, plan, ref, NEW_ITEM, Script(DryRunReady, None, Done, Done, Saved, NotPublished)) ==
            Turn(Some(Item(VerificationPending, true, false, 1, 0)), Status(ref, Migrated, true, 1, false),
                 [WriteCall(id, plan, ref, ItemDigest(id, plan.target, ref), true),
                  VerifyCall(id, plan, ref, ItemDigest(id, plan.target, ref), true)], false)
  {}

  lemma SinglePass(ledger: Ledger, id: string, target: string, e: CampaignItem, s: ItemScript, pressure: bool)
    ensures var v := VisitOf(ledger, id, target, e, s, pressure);
            RunPass(ledger, id, target, [e], [s], pressure) == Pass(v.ledger, v.calls, [v.item], v.pressure, v.ok)
  {
    hide VisitOf;
    assert [e][1..] == [] && [s][1..] == [];
    var v := VisitOf(ledger, id, target, e, s, pressure);
    assert RunPass(v.ledger, id, target, [], [], v.pressure) == Pass(v.ledger, [], [], v.pressure, true);
  }

  // ---------- backpressure, told by the answers of the target ----------

  /** The item's turn ended with an answer that asks for a pause: the closing audit failed, the item
      was refused for such a reason, its write was answered by anything but applied, a policy, a
      conflict or an invalid ref, or its verification by one of four codes. */
  predicate AsksForPause(ledger: Ledger, id: string, target: string, ref: Ref, s: ItemScript) {
    var o := OperationOf(id, target, ref);
    var pausing := {RateLimited, SourceAuthRequired, SourceUnavailable, Degraded, AuditUnavailable};
    !s.audited ||
    match s.gate
    case RefusedItem(code) => code in pausing
    case RefusedBare(code) => code in pausing
    case Open =>
      PlanStands(ledger, id, target, ref) &&
      if s.script.planned != DryRunReady then s.script.planned in pausing
      else if (o !in ledger && s.create != Saved) || Verified(ledger, o, ref) then false
      else if s.script.source.Some? then s.script.source.value in pausing
      else if !Written(ledger, o, ref) && s.script.write != Done then
        s.script.write.Unrecognized? || s.script.write.code !in {PolicyDenied, Conflict, InvalidRef}
      else if !Written(ledger, o, ref) && s.script.afterWrite != Saved then false
      else s.script.verify.Failed? && s.script.verify.code in {RateLimited, SourceAuthRequired, SourceUnavailable, Degraded}
  }

  lemma ExecutionPauses(ledger: Ledger, id: string, target: string, ref: Ref, s: ItemScript)
    requires AllTidy(ledger) && s.gate == Open && s.audited
    ensures PushesBack(Execute(ledger, PlanOf(id, target, ref), [s.script], s.create, s.final).statuses[0].code) <==>
            AsksForPause(ledger, id, target, ref, s)
  {
    hide FingerprintOf;
    var plan := PlanOf(id, target, ref);
    var o := if plan.operation in ledger then ledger[plan.operation] else Operation(HeaderOf(plan), map[], InProgress);
    assert Tidy(o);
    SingleTurn(plan.operation, o, ref, s.script);
    ConcludedShape(ledger, plan.operation, TakeTurns(plan.operation, o, plan.refs, [s.script]), s.final);
    TurnPauses(plan.operation, o, ref, s.script);
    hide TakeTurn, TakeTurns, Concluded, PushesBack;
    assert !PushesBack(Conflict) && !PushesBack(DryRunReady) by {
      CodesThatPause();
    }
    if s.script.planned != DryRunReady {
      CodesThatPause();
    }
  }

  lemma CodesThatPause()
    ensures forall c :: PushesBack(c) <==> c in {RateLimited, SourceAuthRequired, SourceUnavailable, Degraded, AuditUnavailable}
  {}

  lemma TurnPauses(id: OperationId, o: Operation, ref: Ref, s: Script)
    requires Tidy(o)
    ensures var item := Entry(o, ref);
            PushesBack(TakeTurn(id, o.header, ref, item, s).status.code) <==>
            if s.planned != DryRunReady then s.planned in {RateLimited, SourceAuthRequired, SourceUnavailable, Degraded, AuditUnavailable}
            else if item.verified then false
            else if s.source.Some? then s.source.value in {RateLimited, SourceAuthRequired, SourceUnavailable, Degraded, AuditUnavailable}
            else if !item.writeApplied && s.write != Done then
              s.write.Unrecognized? || s.write.code !in {PolicyDenied, Conflict, InvalidRef}
            else if !item.writeApplied && s.afterWrite != Saved then false
            else s.verify.Failed? && s.verify.code in {RateLimited, SourceAuthRequired, SourceUnavailable, Degraded}
  {}

  /** A visit leaves pressure exactly when its answer asks for a pause. */
  lemma VisitPausesIff(ledger: Ledger, id: string, target: string, e: CampaignItem, s: ItemScript)
    requires AllTidy(ledger) && Due(e)
    ensures VisitOf(ledger, id, target, e, s, false).pressure <==> AsksForPause(ledger, id, target, e.ref, s)
  {
    if s.gate == Open && s.audited {
      ExecutionPauses(ledger, id, target, e.ref, s);
      hide AsksForPause;
    }
    hide Execute, PlanStands, Verified, Written, AllTidy;
  }

  /** An item that was visited without pressure and saved with the campaign decides by its answer: if
      it asks for a pause, the calls and the ledger of the whole pass are those up to the item and
      every later due item is skipped; if not, the next due item is visited without pressure. */
  lemma AnswerDecidesThePass(ledger: Ledger, id: string, target: string, items: seq<CampaignItem>, scripts: seq<ItemScript>, i: nat)
    requires |items| == |scripts| && i < |items| && Reachable(ledger) && Due(items[i]) && scripts[i].campaignSave == Saved
    requires var q := RunPass(ledger, id, target, items[..i], scripts[..i], false); q.ok && !q.pressure
    ensures var q := RunPass(ledger, id, target, items[..i], scripts[..i], false);
            var upTo := RunPass(ledger, id, target, items[..i + 1], scripts[..i + 1], false);
            var p := RunPass(ledger, id, target, items, scripts, false);
            var pauses := AsksForPause(q.ledger, id, target, items[i].ref, scripts[i]);
            && (pauses ==>
                  && p.ok && p.ledger == upTo.ledger && p.calls == upTo.calls
                  && forall j :: i < j < |items| && Due(items[j]) ==> p.items[j] == items[j].(code := Skipped, applied := false))
            && (!pauses ==> forall j :: i < j < |items| && (forall k :: i < k < j ==> !Due(items[k])) ==>
                  p.items[j] == VisitOf(upTo.ledger, id, target, items[j], scripts[j], false).item)
  {
    hide VisitOf, Due, AsksForPause, RunPass, Reachable, AllTidy;
    ReachableIsTidy(ledger);
    PassKeepsTidy(ledger, id, target, items[..i], scripts[..i], false);
    var q := RunPass(ledger, id, target, items[..i], scripts[..i], false);
    PassExtends(ledger, id, target, items, scripts, false, i);
    VisitPausesIff(q.ledger, id, target, items[i], scripts[i]);
    VisitIsSaved(q.ledger, id, target, items[i], scripts[i]);
    PassSplits(ledger, id, target, items, scripts, false, i + 1);
    var upTo := RunPass(ledger, id, target, items[..i + 1], scripts[..i + 1], false);
    if AsksForPause(q.ledger, id, target, items[i].ref, scripts[i]) {
      PressureDefers(upTo.ledger, id, target, items[i + 1..], scripts[i + 1..]);
      forall j | i < j < |items| && Due(items[j])
        ensures RunPass(ledger, id, target, items, scripts, false).items[j] == items[j].(code := Skipped, applied := false)
      {
        assert items[j] == items[i + 1..][j - i - 1];
      }
    } else {
      forall j | i < j < |items| && (forall k :: i < k < j ==> !Due(items[k]))
        ensures RunPass(ledger, id, target, items, scripts, false).items[j] ==
                VisitOf(upTo.ledger, id, target, items[j], scripts[j], false).item
      {
        QuietItems(ledger, id, target, items, scripts, false, i + 1, j);
        PassAt(ledger, id, target, items, scripts, false, j);
      }
    }
  }

  /** Items that are not due leave a pass as it was. */
  lemma {:induction false} QuietItems(ledger: Ledger, id: string, target: string, items: seq<CampaignItem>,
                                      scripts: seq<ItemScript>, pressure: bool, i: nat, j: nat)
    requires |items| == |scripts| && i <= j <= |items| && forall k :: i <= k < j ==> !Due(items[k])
    requires RunPass(ledger, id, target, items[..i], scripts[..i], pressure).ok
    ensures var q := RunPass(ledger, id, target, items[..i], scripts[..i], pressure);
            var p := RunPass(ledger, id, target, items[..j], scripts[..j], pressure);
            p.ok && p.ledger == q.ledger && p.pressure == q.pressure
    decreases j
  {
    hide VisitOf, Due, RunPass;
    if i < j {
      QuietItems(ledger, id, target, items, scripts, pressure, i, j - 1);
      var q := RunPass(ledger, id, target, items[..j - 1], scripts[..j - 1], pressure);
      PassExtends(ledger, id, target, items, scripts, pressure, j - 1);
      VisitPushedBack(q.ledger, id, target, items[j - 1], scripts[j - 1], q.pressure);
    }
  }

  lemma VisitIsSaved(ledger: Ledger, id: string, target: string, e: CampaignItem, s: ItemScript)
    requires Due(e)
    ensures VisitOf(ledger, id, target, e, s, false).ok == (s.campaignSave == Saved)
  {}

  /** Outcomes that are retried: all but these five. */
  lemma RetriedOutcomes(code: Code)
    ensures RetryCode(code) <==> code !in {Migrated, VerificationPending, MissingRef, StalePlan, Locked}
  {}

  /** What a refused or unaudited item says afterwards. */
  lemma RefusalIsReported(ledger: Ledger, id: string, target: string, e: CampaignItem, s: ItemScript)
    requires Due(e) && (s.gate != Open || !s.audited)
    ensures var v := VisitOf(ledger, id, target, e, s, false);
            && !v.item.applied && (v.item.code == AuditUnavailable <==> !s.audited || s.gate == RefusedItem(AuditUnavailable) || s.gate == RefusedBare(AuditUnavailable))
            && (s.audited ==> v.item.code == s.gate.code)
            && (v.item.denied <==> !s.gate.RefusedBare?)
            && (s.gate != Open ==> v.ledger == ledger && v.calls == [] && !v.item.verified)
  {
    hide Execute;
  }
}
