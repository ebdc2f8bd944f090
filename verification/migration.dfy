/** Migration of secrets to another provider. Each item is written to the target, recorded,
    verified and recorded again, so that an operation can be resumed after any failure. */
module Migration {
  import opened Text

  type Ref = string

  /** An operation started directly, or one item of a campaign. */
  datatype OperationId = Direct(id: string) | ForItem(campaign: string, target: string, ref: Ref)

  /** The plan fingerprint is a digest of a text; see `PlanText`. */
  datatype Fingerprint = TextDigest(text: string)

  datatype IdempotencyKey = ItemDigest(operation: OperationId, target: string, ref: Ref)

  datatype Code =
    | DryRunReady | Migrated | VerificationPending | VerificationFailed | RateLimited | SourceAuthRequired
    | SourceUnavailable | PolicyDenied | Conflict | InvalidRef | MissingRef | Unsupported | Degraded
    | AuditUnavailable | Skipped | StalePlan | Locked

  datatype Item = Item(code: Code, writeApplied: bool, verified: bool, attempts: nat, verificationAttempts: nat)

  const NEW_ITEM := Item(DryRunReady, false, false, 0, 0)

  datatype Progress = InProgress | Applied | PartialFailure

  /** What a record keeps of the plan that made it. */
  datatype Header = Header(fingerprint: Fingerprint, source: string, target: string)

  datatype Operation = Operation(header: Header, items: map<Ref, Item>, progress: Progress)

  type Ledger = map<OperationId, Operation>

  /** A verified item was written and is reported as migrated. */
  predicate ItemTidy(item: Item) {
    item.verified ==> item.writeApplied && item.code == Migrated
  }

  predicate Tidy(o: Operation) {
    forall ref :: ref in o.items ==> ItemTidy(o.items[ref])
  }

  predicate AllTidy(ledger: Ledger) {
    forall id :: id in ledger ==> Tidy(ledger[id])
  }

  datatype Plan = Plan(operation: OperationId, source: string, target: string, refs: seq<Ref>)

  // ---------- what a fingerprint tells ----------

  predicate Blank(s: string) {
    forall i :: 0 <= i < |s| ==> s[i] in " \t\n\r" || s[i] as int in {11, 12}
  }

  function SourceOf(p: Plan): string {
    if Blank(p.source) then "local" else p.source
  }

  /** Source, target and the sorted refs, one a line. */
  function PlanText(p: Plan): string {
    SourceOf(p) + "\n" + (p.target + "\n" + Join(Sorted(p.refs)))
  }

  function FingerprintOf(p: Plan): Fingerprint {
    TextDigest(PlanText(p))
  }

  function HeaderOf(p: Plan): Header {
    Header(FingerprintOf(p), SourceOf(p), p.target)
  }

  /** The same source, target and refs, whatever the order of the refs. */
  predicate SamePlan(p: Plan, q: Plan) {
    SourceOf(p) == SourceOf(q) && p.target == q.target && multiset(p.refs) == multiset(q.refs)
  }

  /** No line breaks, and no empty ref. */
  predicate Plain(p: Plan) {
    OneLine(SourceOf(p)) && OneLine(p.target) && Lines(p.refs)
  }

  lemma SortedLines(refs: seq<Ref>)
    requires Lines(refs)
    ensures Lines(Sorted(refs))
  {
    forall i | 0 <= i < |Sorted(refs)|
      ensures Sorted(refs)[i] != "" && OneLine(Sorted(refs)[i])
    {
      assert Sorted(refs)[i] in multiset(refs);
    }
  }

  /** Without line breaks, equal fingerprints mean equal plans. */
  lemma FingerprintTellsPlans(p: Plan, q: Plan)
    requires Plain(p) && Plain(q)
    ensures FingerprintOf(p) == FingerprintOf(q) <==> SamePlan(p, q)
  {
    hide OneLine, Lines, Sorted;
    SortedIff(p.refs, q.refs);
    SortedLines(p.refs);
    SortedLines(q.refs);
    if PlanText(p) == PlanText(q) {
      var x, y := Join(Sorted(p.refs)), Join(Sorted(q.refs));
      assert SourceOf(p) + "\n" + (p.target + "\n" + x) == SourceOf(q) + "\n" + (q.target + "\n" + y);
      FirstLine(SourceOf(p), p.target + "\n" + x, SourceOf(q), q.target + "\n" + y);
      FirstLine(p.target, x, q.target, y);
      JoinIsInjective(Sorted(p.refs), Sorted(q.refs));
    }
  }

  /** A source that is left out is the local one. */
  lemma BlankIsLocal(p: Plan)
    ensures FingerprintOf(p.(source := "")) == FingerprintOf(p.(source := "local")) == FingerprintOf(p.(source := " \t"))
    ensures HeaderOf(p.(source := "")).source == "local"
  {
    hide Sorted, Join;
    assert "local"[0] == 'l' && !Blank("local");
  }

  /** One ref with a line break passes for two refs. */
  lemma FingerprintsCollide(operation: OperationId, source: string, target: string)
    ensures var one := Plan(operation, source, target, ["svc/a\nsvc/b"]);
            var two := Plan(operation, source, target, ["svc/a", "svc/b"]);
            FingerprintOf(one) == FingerprintOf(two) && !SamePlan(one, two)
  {
    var one, two := ["svc/a\nsvc/b"], ["svc/a", "svc/b"];
    TwoInOrder();
    hide Sorted;
    assert two[1..] == ["svc/b"];
    assert Join(two) == "svc/a" + "\n" + "svc/b" == Join(one);
    assert |multiset(one)| != |multiset(two)|;
  }

  lemma TwoInOrder()
    ensures Sorted(["svc/a\nsvc/b"]) == ["svc/a\nsvc/b"] && Sorted(["svc/a", "svc/b"]) == ["svc/a", "svc/b"]
  {
    LexLessAfter("svc/", "a", "b");
    LexTotal("svc/" + "a", "svc/" + "b");
    assert "svc/" + "a" == "svc/a" && "svc/" + "b" == "svc/b";
    hide LexLess;
    var one, two := ["svc/a\nsvc/b"], ["svc/a", "svc/b"];
    assert one[1..] == [] && two[1..] == ["svc/b"] && ["svc/b"][1..] == [];
    assert Sorted([]) == [] && Sorted(["svc/b"]) == ["svc/b"];
  }

  lemma {:induction false} LexLessAfter(prefix: string, a: string, b: string)
    requires LexLess(a, b)
    ensures LexLess(prefix + a, prefix + b)
  {
    if prefix != "" {
      LexLessAfter(prefix[1..], a, b);
      assert (prefix + a)[1..] == prefix[1..] + a && (prefix + b)[1..] == prefix[1..] + b;
    } else {
      assert prefix + a == a && prefix + b == b;
    }
  }

  /** The text behind an idempotency key tells operation, target and ref apart, whatever the text
      of the operation ID: a target and a ref that reach a call have no line breaks. */
  lemma KeysTellItems(id: string, target: string, ref: Ref, id': string, target': string, ref': Ref)
    requires OneLine(target) && OneLine(ref) && OneLine(target') && OneLine(ref')
    requires (id + "\n" + target) + "\n" + ref == (id' + "\n" + target') + "\n" + ref'
    ensures id == id' && target == target' && ref == ref'
  {
    LastLine(id + "\n" + target, ref, id' + "\n" + target', ref');
    LastLine(id, target, id', target');
  }

  // ---------- calls to the target and what is on record ----------

  datatype Call =
    | WriteCall(operation: OperationId, plan: Header, ref: Ref, key: IdempotencyKey, applied: bool)
    | VerifyCall(operation: OperationId, plan: Header, ref: Ref, key: IdempotencyKey, confirmed: bool)

  /** The ledger on disk and every call made to the target so far. */
  datatype World = World(disk: Ledger, calls: seq<Call>)

  function ItemOf(disk: Ledger, operation: OperationId, ref: Ref): Item {
    if operation in disk && ref in disk[operation].items then disk[operation].items[ref] else NEW_ITEM
  }

  predicate Written(disk: Ledger, operation: OperationId, ref: Ref) {
    ItemOf(disk, operation, ref).writeApplied
  }

  predicate Verified(disk: Ledger, operation: OperationId, ref: Ref) {
    ItemOf(disk, operation, ref).verified
  }

  /** A call is made only under the recorded plan, with its own idempotency key; a write only
      while none is on record, a verification only after one is and before it succeeded. */
  predicate CallAllowed(disk: Ledger, c: Call) {
    && c.operation in disk && disk[c.operation].header == c.plan
    && c.key == ItemDigest(c.operation, c.plan.target, c.ref)
    && !Verified(disk, c.operation, c.ref)
    && (Written(disk, c.operation, c.ref) <==> c.VerifyCall?)
  }

  /** The record of an operation may only grow, and says only what the calls bear out. */
  ghost predicate RecordAllowed(w: World, operation: OperationId, o: Operation) {
    && (operation in w.disk ==> o.header == w.disk[operation].header)
    && (forall ref :: Written(w.disk, operation, ref) ==> ref in o.items && o.items[ref].writeApplied)
    && (forall ref :: Verified(w.disk, operation, ref) ==> ref in o.items && o.items[ref].verified)
    && (forall ref :: ref in o.items ==> BornOut(w, operation, o, ref))
  }

  ghost predicate BornOut(w: World, operation: OperationId, o: Operation, ref: Ref)
    requires ref in o.items
  {
    && (ItemTidy(o.items[ref]) || o.items[ref] == ItemOf(w.disk, operation, ref))
    && (o.items[ref].writeApplied ==>
          Written(w.disk, operation, ref) || exists c :: c in w.calls && c.WriteCall? && c.operation == operation && c.ref == ref && c.applied)
    && (o.items[ref].verified ==>
          Verified(w.disk, operation, ref) || exists c :: c in w.calls && c.VerifyCall? && c.operation == operation && c.ref == ref && c.confirmed)
  }

  /** One effect on the outside: a call, or a save of one operation's record. */
  ghost predicate Effect(w: World, w': World) {
    || (w'.disk == w.disk && |w'.calls| == |w.calls| + 1 && w'.calls[..|w.calls|] == w.calls && CallAllowed(w.disk, w'.calls[|w.calls|]))
    || (w'.calls == w.calls && exists operation, o :: w'.disk == w.disk[operation := o] && RecordAllowed(w, operation, o))
  }

  /** Worlds in the order in which they came about; a crash may come after any of them. */
  ghost predicate IsTrail(trail: seq<World>) {
    forall i {:trigger trail[i]} :: 0 <= i < |trail| - 1 ==> Effect(trail[i], trail[i + 1])
  }

  // ---------- what every trail keeps ----------

  ghost predicate ItemTruthful(w: World, operation: OperationId, ref: Ref) {
    && ItemTidy(ItemOf(w.disk, operation, ref))
    && (Written(w.disk, operation, ref) ==>
          exists c :: c in w.calls && c.WriteCall? && c.operation == operation && c.ref == ref && c.applied)
    && (Verified(w.disk, operation, ref) ==>
          exists c :: c in w.calls && c.VerifyCall? && c.operation == operation && c.ref == ref && c.confirmed)
  }

  lemma EffectGrows(w: World, w': World, operation: OperationId, ref: Ref)
    requires Effect(w, w')
    ensures Written(w.disk, operation, ref) ==> Written(w'.disk, operation, ref)
    ensures Verified(w.disk, operation, ref) ==> Verified(w'.disk, operation, ref)
    ensures operation in w.disk ==> operation in w'.disk && w'.disk[operation].header == w.disk[operation].header
    ensures w.calls <= w'.calls
  {
    hide BornOut, CallAllowed;
  }

  lemma EffectKeepsTruth(w: World, w': World, operation: OperationId, ref: Ref)
    requires Effect(w, w') && ItemTruthful(w, operation, ref)
    ensures ItemTruthful(w', operation, ref)
  {
    hide CallAllowed;
    assert forall c :: c in w.calls ==> c in w'.calls by {
      EffectGrows(w, w', operation, ref);
    }
    if w'.calls == w.calls && w'.disk != w.disk {
      var changed, o :| w'.disk == w.disk[changed := o] && RecordAllowed(w, changed, o);
      if changed == operation && ref in o.items {
        assert BornOut(w, operation, o, ref);
      }
    }
  }

  lemma {:induction false} TrailGrows(trail: seq<World>, i: nat, j: nat, operation: OperationId, ref: Ref)
    requires IsTrail(trail) && i <= j < |trail|
    ensures Written(trail[i].disk, operation, ref) ==> Written(trail[j].disk, operation, ref)
    ensures Verified(trail[i].disk, operation, ref) ==> Verified(trail[j].disk, operation, ref)
    ensures operation in trail[i].disk ==>
              operation in trail[j].disk && trail[j].disk[operation].header == trail[i].disk[operation].header
    ensures trail[i].calls <= trail[j].calls
    decreases j
  {
    hide Effect, Written, Verified;
    if i < j {
      TrailGrows(trail, i, j - 1, operation, ref);
      assert Effect(trail[j - 1], trail[j - 1 + 1]);
      EffectGrows(trail[j - 1], trail[j], operation, ref);
    }
  }

  lemma {:induction false} TrailIsTruthful(trail: seq<World>, i: nat, operation: OperationId, ref: Ref)
    requires IsTrail(trail) && i < |trail| && ItemTruthful(trail[0], operation, ref)
    ensures ItemTruthful(trail[i], operation, ref)
    decreases i
  {
    hide Effect, ItemTruthful;
    if i > 0 {
      TrailIsTruthful(trail, i - 1, operation, ref);
      assert Effect(trail[i - 1], trail[i - 1 + 1]);
      EffectKeepsTruth(trail[i - 1], trail[i], operation, ref);
    }
  }

  /** The world in which a later call was made. */
  lemma {:induction false} CallWasMadeAt(trail: seq<World>, i: nat, j: nat, n: nat) returns (k: nat)
    requires IsTrail(trail) && i <= j < |trail|
    requires |trail[i].calls| <= n < |trail[j].calls|
    ensures i <= k < j && CallAllowed(trail[k].disk, trail[j].calls[n])
    decreases j
  {
    hide CallAllowed, RecordAllowed;
    assert i < j;
    assert Effect(trail[j - 1], trail[j - 1 + 1]);
    if n < |trail[j - 1].calls| {
      k := CallWasMadeAt(trail, i, j - 1, n);
      assert trail[j].calls[n] == trail[j - 1].calls[n];
    } else {
      k := j - 1;
    }
  }

  /** Once an item is on record as written, its target is never written again; once it is on
      record as verified, no call is made for it at all. */
  lemma RecordedIsFinal(trail: seq<World>, i: nat, j: nat, n: nat)
    requires IsTrail(trail) && i <= j < |trail|
    requires |trail[i].calls| <= n < |trail[j].calls|
    ensures var c := trail[j].calls[n];
            && (c.WriteCall? ==> !Written(trail[i].disk, c.operation, c.ref))
            && !Verified(trail[i].disk, c.operation, c.ref)
  {
    var c := trail[j].calls[n];
    var k := CallWasMadeAt(trail, i, j, n);
    TrailGrows(trail, i, k, c.operation, c.ref);
    hide IsTrail, Effect, Written, Verified;
  }

  /** An operation on record runs under no other plan: later calls carry its fingerprint, and
      all of an item's calls carry one idempotency key. */
  lemma PlanIsFixed(trail: seq<World>, i: nat, j: nat, n: nat)
    requires IsTrail(trail) && i <= j < |trail|
    requires |trail[i].calls| <= n < |trail[j].calls|
    ensures var c := trail[j].calls[n];
            c.operation in trail[i].disk ==>
              c.plan == trail[i].disk[c.operation].header && c.key == ItemDigest(c.operation, c.plan.target, c.ref)
  {
    var c := trail[j].calls[n];
    var k := CallWasMadeAt(trail, i, j, n);
    TrailGrows(trail, i, k, c.operation, c.ref);
    hide IsTrail, Effect, Written, Verified;
  }

  /** Verified implies written, at every point. */
  lemma VerifiedImpliesWritten(trail: seq<World>, i: nat, operation: OperationId, ref: Ref)
    requires IsTrail(trail) && i < |trail| && trail[0].disk == map[]
    ensures Verified(trail[i].disk, operation, ref) ==> Written(trail[i].disk, operation, ref)
    ensures Written(trail[i].disk, operation, ref) ==>
              exists c :: c in trail[i].calls && c.WriteCall? && c.operation == operation && c.ref == ref && c.applied
  {
    TrailIsTruthful(trail, i, operation, ref);
    hide IsTrail, Written, Verified;
  }

  /** A ledger that can be on disk: the last of some trail that began with nothing. */
  ghost predicate Reachable(ledger: Ledger) {
    exists trail :: EndsIn(trail, ledger)
  }

  ghost predicate EndsIn(trail: seq<World>, ledger: Ledger) {
    |trail| > 0 && IsTrail(trail) && trail[0] == World(map[], []) && trail[|trail| - 1].disk == ledger
  }

  /** Every ledger that any executions, crashes and restarts can leave is tidy. */
  lemma ReachableIsTidy(ledger: Ledger)
    requires Reachable(ledger)
    ensures AllTidy(ledger)
  {
    var trail :| EndsIn(trail, ledger);
    forall id, ref | id in ledger && ref in ledger[id].items
      ensures ItemTidy(ledger[id].items[ref])
    {
      TrailIsTruthful(trail, |trail| - 1, id, ref);
    }
    hide IsTrail;
  }
}
