/** Campaigns on disk: planned, revalidated and applied, each item as an operation of its own. */
module CampaignService {
  import opened Results
  import opened AtomicFile
  import opened Migration
  import opened MigrationRun
  import opened CampaignRun
  import MigrationService

  /** How the plan of a campaign assesses one ref. */
  datatype Assessment = Assessment(supported: bool, denied: bool, code: Code)

  function PlannedItems(refs: seq<Ref>, plan: seq<Assessment>): (items: seq<CampaignItem>)
    requires |refs| == |plan|
    ensures |items| == |refs|
    ensures forall i :: 0 <= i < |items| ==>
              && items[i].ref == refs[i] && items[i].code == plan[i].code
              && items[i].supported == plan[i].supported && items[i].denied == plan[i].denied
              && !items[i].applied && !items[i].verified && items[i].attempts == 0
  {
    seq(|refs|, i requires 0 <= i < |refs| => CampaignItem(refs[i], plan[i].supported, plan[i].denied, plan[i].code, false, false, 0))
  }

  function RefsOf(items: seq<CampaignItem>): (refs: seq<Ref>)
    ensures |refs| == |items| && forall i :: 0 <= i < |items| ==> refs[i] == items[i].ref
  {
    seq(|items|, i requires 0 <= i < |items| => items[i].ref)
  }

  /** The same operations: campaign, target and refs. */
  predicate SameOperations(c: Campaign, c': Campaign) {
    c.id == c'.id && c.target == c'.target && RefsOf(c.items) == RefsOf(c'.items)
  }

  datatype ApplyResult = Denied | Stale | CampaignUnsaved | CampaignSaved

  class Campaigns {
    const service: MigrationService.Service
    var stored: map<string, Campaign>

    constructor (service: MigrationService.Service)
      ensures this.service == service && stored == map[]
    {
      this.service := service;
      stored := map[];
    }

    method Save(token: string, c: Campaign, save: SaveResult) returns (ok: bool)
      modifies this
      ensures stored == if WasPublished(save) then old(stored)[token := c] else old(stored)
      ensures ok == (save == Saved)
    {
      if save != NotPublished {
        stored := stored[token := c];
      }
      return save == Saved;
    }

    /** A new plan, kept only if some item can be applied; it must be revalidated before that. */
    method Create(token: string, id: string, target: string, refs: seq<Ref>, plan: seq<Assessment>, audited: bool, save: SaveResult)
      returns (ok: bool)
      requires |refs| == |plan|
      modifies this
      ensures stored == if (exists i :: 0 <= i < |plan| && plan[i].code == DryRunReady) && audited && save != NotPublished
                        then old(stored)[token := Campaign(id, target, PlannedItems(refs, plan), true)] else old(stored)
      ensures ok <==> (exists i :: 0 <= i < |plan| && plan[i].code == DryRunReady) && audited && save == Saved
    {
      var keep := exists i :: 0 <= i < |plan| && plan[i].code == DryRunReady;
      if !keep || !audited {
        return false;
      }
      ok := Save(token, Campaign(id, target, PlannedItems(refs, plan), true), save);
    }

    /** A fresh assessment of the refs of a stored plan: the items forget what was applied, but
        their operations stay the same. */
    method Revalidate(token: string, conflicting: bool, plan: seq<Assessment>, audited: bool, save: SaveResult)
      returns (ok: bool)
      requires token in stored ==> |plan| == |stored[token].items|
      modifies this
      ensures ok <==> token in old(stored) && !conflicting && (exists i :: 0 <= i < |plan| && plan[i].code == DryRunReady)
                      && audited && save == Saved
      ensures stored == if token in old(stored) && !conflicting && (exists i :: 0 <= i < |plan| && plan[i].code == DryRunReady)
                           && audited && save != NotPublished
                        then var c := old(stored)[token];
                             old(stored)[token := Campaign(c.id, c.target, PlannedItems(RefsOf(c.items), plan), false)]
                        else old(stored)
      ensures token in old(stored) ==> token in stored && SameOperations(old(stored)[token], stored[token])
      ensures ok ==> !stored[token].requiresRevalidation && forall i :: 0 <= i < |stored[token].items| ==> !Completed(stored[token].items[i])
    {
      if token !in stored || conflicting {
        return false;
      }
      var c := stored[token];
      var keep := exists i :: 0 <= i < |plan| && plan[i].code == DryRunReady;
      if !keep || !audited {
        return false;
      }
      ok := Save(token, Campaign(c.id, c.target, PlannedItems(RefsOf(c.items), plan), false), save);
      assert WasPublished(save) ==> RefsOf(stored[token].items) == RefsOf(c.items);
    }

    /** One item: its operation is applied and the answer is copied into the item. */
    method ApplyItem(id: string, target: string, item: CampaignItem, s: ItemScript) returns (after: CampaignItem)
      requires service.Valid()
      modifies service`ledger, service`trail
      ensures service.Valid() && old(service.trail) <= service.trail
      ensures var r := ApplyOperation(old(service.ledger), id, target, item.ref, s);
              && service.ledger == r.ledger && service.Calls() == old(service.Calls()) + r.calls
              && after == ItemAfter(item, r.answer)
    {
      hide IsTrail, Execute;
      var answer: Result<Status, Code>;
      match s.gate {
        case RefusedBare(code) => answer := Err(code);
        case RefusedItem(code) => answer := Ok(Status(item.ref, code, false, 0, true));
        case Open =>
          var statuses, _ := service.ExecuteMigration(PlanOf(id, target, item.ref), [s.script], s.create, s.final);
          answer := Ok(statuses[0]);
      }
      if !s.audited {
        answer := if answer.Ok? then Ok(answer.value.(code := AuditUnavailable, denied := true)) else Err(AuditUnavailable);
      }
      return ItemAfter(item, answer);
    }

    /** Apply a stored plan. Completed items and items that cannot be retried are left alone; once
        the target pushes back, the due items that remain are deferred without a call. */
    method Apply(token: string, confirmed: bool, current: bool, authorized: bool, scripts: seq<ItemScript>, final: SaveResult)
      returns (r: ApplyResult, items: seq<CampaignItem>)
      requires service.Valid()
      requires token in stored ==> |scripts| == |stored[token].items|
      modifies this, service`ledger, service`trail
      ensures service.Valid() && old(service.trail) <= service.trail
      ensures r in {Denied, Stale} <==> !confirmed || !authorized || !current || token !in old(stored) || old(stored)[token].requiresRevalidation
      ensures r == Stale <==>
              confirmed && (token !in old(stored) || old(stored)[token].requiresRevalidation || !current)
      ensures r in {Denied, Stale} ==> stored == old(stored) && service.ledger == old(service.ledger) && service.Calls() == old(service.Calls())
      ensures r !in {Denied, Stale} ==>
                var c := old(stored)[token];
                var pass := RunPass(old(service.ledger), c.id, c.target, c.items, scripts, false);
                && service.ledger == pass.ledger && service.Calls() == old(service.Calls()) + pass.calls && items == pass.items
                && token in stored && stored == old(stored)[token := stored[token]] && SameOperations(c, stored[token])
                && (r == CampaignSaved <==> pass.ok && final == Saved)
                && (r == CampaignSaved ==> stored[token].items == pass.items)
      ensures r !in {Denied, Stale} && (forall i :: 0 <= i < |scripts| ==> Unhindered(scripts[i])) ==>
                var c := old(stored)[token];
                |items| == |c.items| && forall i :: 0 <= i < |items| && Due(c.items[i]) ==>
                  (Completed(items[i]) <==> PlanStands(old(service.ledger), c.id, c.target, c.items[i].ref))
    {
      if token in stored && |scripts| == |stored[token].items| {
        Finishes(service.trail, service.ledger, stored[token], scripts);
      }
      hide RunPass, Due, Completed, PlanStands, Unhindered, IsTrail;
      items := [];
      if !confirmed {
        return Denied, items;
      }
      if token !in stored || stored[token].requiresRevalidation || !current {
        return Stale, items;
      }
      if !authorized {
        return Denied, items;
      }
      var c := stored[token];
      var ok;
      items, ok := ApplyItems(token, c, scripts);
      if !ok {
        return CampaignUnsaved, items;
      }
      ok := Save(token, c.(items := items), final);
      return if ok then CampaignSaved else CampaignUnsaved, items;
    }

    method ApplyItems(token: string, c: Campaign, scripts: seq<ItemScript>) returns (items: seq<CampaignItem>, ok: bool)
      requires service.Valid() && |scripts| == |c.items| && token in stored && stored[token] == c
      modifies this, service`ledger, service`trail
      ensures service.Valid() && old(service.trail) <= service.trail
      ensures var pass := RunPass(old(service.ledger), c.id, c.target, c.items, scripts, false);
              && service.ledger == pass.ledger && service.Calls() == old(service.Calls()) + pass.calls
              && items == pass.items && ok == pass.ok
      ensures Kept(old(stored), stored, token, c)
      ensures |items| == |c.items| && SameOperations(c, c.(items := items))
    {
      hide IsTrail, RunPass, VisitOf, SameOperations, After, Kept;
      items := c.items;
      var backpressure := false;
      ghost var made: seq<Call> := [];
      assert c.items[0..] == c.items && scripts[0..] == scripts;
      NothingReplaced(c);
      Starts(service.ledger, c, scripts);
      KeptAtFirst(stored, token, c);
      for i := 0 to |c.items|
        invariant service.Valid() && old(service.trail) <= service.trail
        invariant |items| == |c.items| && items[i..] == c.items[i..] && SameOperations(c, c.(items := items))
        invariant Kept(old(stored), stored, token, c)
        invariant service.Calls() == old(service.Calls()) + made
        invariant RunPass(old(service.ledger), c.id, c.target, c.items, scripts, false) ==
                  After(items[..i], made, RunPass(service.ledger, c.id, c.target, c.items[i..], scripts[i..], backpressure))
      {
        Unfold(service.ledger, c.id, c.target, c.items, scripts, backpressure, i, items[..i], made);
        assert items[i] == items[i..][0] == c.items[i];
        ghost var v := VisitOf(service.ledger, c.id, c.target, items[i], scripts[i], backpressure);
        ItemReplaced(c, items, i, v.item);
        KeptSaved(old(stored), stored, token, c, c.(items := items[i := v.item]));
        items, backpressure, ok := VisitItem(token, c, items, i, scripts[i], backpressure);
        made := made + v.calls;
        if !ok {
          assert items == items[..i] + ([v.item] + c.items[i + 1..]);
          return items, false;
        }
      }
      assert c.items[|items|..] == [] && scripts[|items|..] == [];
      NoItems(service.ledger, c.id, c.target, backpressure, items, made);
      assert items[..|items|] == items;
      ok := true;
    }

    /** One round of the loop. */
    method VisitItem(token: string, c: Campaign, items: seq<CampaignItem>, i: nat, s: ItemScript, backpressure: bool)
      returns (next: seq<CampaignItem>, pressure: bool, ok: bool)
      requires service.Valid() && i < |items|
      modifies this, service`ledger, service`trail
      ensures service.Valid() && old(service.trail) <= service.trail
      ensures var v := VisitOf(old(service.ledger), c.id, c.target, items[i], s, backpressure);
              && service.ledger == v.ledger && service.Calls() == old(service.Calls()) + v.calls
              && next == items[i := v.item] && pressure == v.pressure && ok == v.ok
      ensures stored == old(stored) || stored == old(stored)[token := c.(items := next)]
    {
      hide IsTrail, ApplyOperation, Due, ItemAfter, PushesBack;
      next, pressure, ok := items, backpressure, true;
      if Completed(items[i]) || !Retryable(items[i]) {
        Unneeded(items[i]);
        return;
      }
      Needed(items[i]);
      if backpressure {
        next := next[i := next[i].(code := Skipped, applied := false)];
        return;
      }
      var item := ApplyItem(c.id, c.target, items[i], s);
      next := next[i := item];
      ok := Save(token, c.(items := next), s.campaignSave);
      pressure := PushesBack(item.code);
    }
  }

  /** What an unhindered pass from the end of a trail finishes. */
  lemma Finishes(trail: seq<World>, ledger: Ledger, c: Campaign, scripts: seq<ItemScript>)
    requires EndsIn(trail, ledger) && |scripts| == |c.items|
    ensures (forall i :: 0 <= i < |scripts| ==> Unhindered(scripts[i])) ==>
              var p := RunPass(ledger, c.id, c.target, c.items, scripts, false);
              forall i :: 0 <= i < |c.items| && Due(c.items[i]) ==>
                (Completed(p.items[i]) <==> PlanStands(ledger, c.id, c.target, c.items[i].ref))
  {
    hide RunPass, EndsIn, Unhindered, Due, Completed, PlanStands;
    assert Reachable(ledger);
    if forall i :: 0 <= i < |scripts| ==> Unhindered(scripts[i]) {
      forall i | 0 <= i < |c.items| && Due(c.items[i])
        ensures Completed(RunPass(ledger, c.id, c.target, c.items, scripts, false).items[i]) <==>
                PlanStands(ledger, c.id, c.target, c.items[i].ref)
      {
        UnhinderedPassIff(ledger, c.id, c.target, c.items, scripts, i);
      }
    }
  }

  lemma Unneeded(e: CampaignItem)
    requires Completed(e) || !Retryable(e)
    ensures !Due(e)
  {}

  lemma Needed(e: CampaignItem)
    requires !Completed(e) && Retryable(e)
    ensures Due(e)
  {}

  // ---------- the item loop ----------

  function After(items: seq<CampaignItem>, calls: seq<Call>, p: Pass): Pass {
    p.(items := items + p.items, calls := calls + p.calls)
  }

  lemma NothingReplaced(c: Campaign)
    ensures SameOperations(c, c.(items := c.items)) && SameOperations(c, c)
  {}

  lemma ItemReplaced(c: Campaign, items: seq<CampaignItem>, i: nat, e: CampaignItem)
    requires SameOperations(c, c.(items := items)) && i < |items| == |c.items| && items[i..] == c.items[i..] && e.ref == items[i].ref
    ensures var next := items[i := e];
            && SameOperations(c, c.(items := next))
            && next[..i] == items[..i] && next[..i + 1] == items[..i] + [e] && next[i + 1..] == c.items[i + 1..]
  {
    assert items[i + 1..] == items[i..][1..] && c.items[i + 1..] == c.items[i..][1..];
    assert RefsOf(items[i := e]) == RefsOf(items);
  }

  lemma Starts(ledger: Ledger, c: Campaign, scripts: seq<ItemScript>)
    requires |scripts| == |c.items|
    ensures var p := RunPass(ledger, c.id, c.target, c.items, scripts, false); p == After([], [], p)
  {
    hide RunPass;
  }

  lemma NoItems(ledger: Ledger, id: string, target: string, pressure: bool, done: seq<CampaignItem>, made: seq<Call>)
    ensures After(done, made, RunPass(ledger, id, target, [], [], pressure)) == Pass(ledger, made, done, pressure, true)
  {}

  lemma Unfold(ledger: Ledger, id: string, target: string, items: seq<CampaignItem>, scripts: seq<ItemScript>,
               pressure: bool, i: nat, done: seq<CampaignItem>, made: seq<Call>)
    requires |items| == |scripts| && i < |items|
    ensures var v := VisitOf(ledger, id, target, items[i], scripts[i], pressure);
            After(done, made, RunPass(ledger, id, target, items[i..], scripts[i..], pressure)) ==
            if !v.ok then Pass(v.ledger, made + v.calls, done + ([v.item] + items[i + 1..]), v.pressure, false)
            else After(done + [v.item], made + v.calls, RunPass(v.ledger, id, target, items[i + 1..], scripts[i + 1..], v.pressure))
  {
    hide VisitOf;
    assert items[i..][1..] == items[i + 1..] && scripts[i..][1..] == scripts[i + 1..];
    var v := VisitOf(ledger, id, target, items[i], scripts[i], pressure);
    if v.ok {
      var rest := RunPass(v.ledger, id, target, items[i + 1..], scripts[i + 1..], v.pressure);
      assert done + ([v.item] + rest.items) == done + [v.item] + rest.items;
      assert made + (v.calls + rest.calls) == made + v.calls + rest.calls;
    }
  }

  /** Only the campaign under this token changed, and its operations are the same. */
  ghost predicate Kept(before: map<string, Campaign>, now: map<string, Campaign>, token: string, c: Campaign) {
    token in now && now == before[token := now[token]] && SameOperations(c, now[token])
  }

  lemma KeptAtFirst(stored: map<string, Campaign>, token: string, c: Campaign)
    requires token in stored && stored[token] == c
    ensures Kept(stored, stored, token, c)
  {}

  lemma KeptSaved(before: map<string, Campaign>, now: map<string, Campaign>, token: string, c: Campaign, next: Campaign)
    requires Kept(before, now, token, c) && SameOperations(c, next)
    ensures Kept(before, now[token := next], token, c)
  {}
}
