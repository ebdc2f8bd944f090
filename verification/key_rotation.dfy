/** Managed master-key rotation with a pending key wrapper, and the recovery that completes or
    discards an interrupted one. The process may crash between any two disk writes, and other
    store operations may run between any two steps. */
module KeyRotation {
  import opened Results
  import opened Vault
  import opened AtomicFile
  import opened VersionOrder
  import LS = LocalStore

  /** The files: the store, the key wrapper, and the wrapper a rotation in progress leaves. */
  datatype Disk = Disk(store: Store, wrapper: Option<Key>, pending: Option<Key>)

  /** How a change to a wrapper file ends: refused, done but reported as failed, or done. */
  datatype IO = Fails | FailsAfter | Works

  datatype Error = Locked | InvalidWrapper | Access | Conflict | Audit | EntropyUnavailable | Undecryptable | Degraded

  // ---------- recovery ----------

  datatype Recovery = Recovery(disk: Disk, key: Result<Key, Error>)

  /** Start-up recovery: the wrapper wins if it matches the store, and the pending wrapper is
      promoted only if it does. */
  function Recover(d: Disk, io: IO): Recovery {
    var id := d.store.keyId;
    if id == NoKeyId then Recovery(d, if d.wrapper.Some? then Ok(d.wrapper.value) else Err(Locked))
    else if d.wrapper.Some? && IdOf(d.wrapper.value) == id then
      if d.pending.None? then Recovery(d, Ok(d.wrapper.value))
      else
        var cleaned := if io == Fails then d else d.(pending := None);
        Recovery(cleaned, if io == Works then Ok(d.wrapper.value) else Err(Access))
    else if d.pending.None? then Recovery(d, Err(if d.wrapper.Some? then InvalidWrapper else Locked))
    else if IdOf(d.pending.value) != id then Recovery(d, Err(InvalidWrapper))
    else
      var promoted := if io == Fails then d else d.(wrapper := d.pending, pending := None);
      Recovery(promoted, if io == Works then Ok(d.pending.value) else Err(Access))
  }

  // ---------- the protocol as a step system ----------

  datatype Phase =
    | Down                                                              // no process
    | Running(key: Key)                                                 // no rotation in progress
    | Checked(key: Key, operation: string, expected: KeyId)             // recovered and authorised
    | Prepared(key: Key, operation: string, expected: KeyId, newKey: Key) // pending wrapper written
    | Aborting(key: Key)                                                // store not published
    | Published(key: Key)                                               // store published, wrapper to promote

  /** `rotated` lists the operations whose rotation reached the disk, in order. */
  datatype Machine = Machine(disk: Disk, phase: Phase, rotated: seq<string>)

  datatype Event =
    | Crash
    | Start(io: IO)
    | Request(operation: string, expected: KeyId, authorized: bool, io: IO)
    | WritePending(newKey: Key, io: IO)
    | Publish(save: SaveResult, now: int)
    | DiscardPending(io: IO)
    | Promote(io: IO)
    | Other(op: LS.Op, published: bool)

  /** A rotation starts by recovering, and then checks receipts and the expected key. */
  function Requested(m: Machine, e: Event): Machine
    requires m.phase.Running? && e.Request?
  {
    var r := Recover(m.disk, e.io);
    var m' := m.(disk := r.disk);
    if r.key.Err? then m'
    else if e.operation in r.disk.store.receipts || e.expected != IdOf(r.key.value) || !e.authorized then
      m'.(phase := Running(r.key.value))
    else m'.(phase := Checked(r.key.value, e.operation, e.expected))
  }

  function RotatedStore(m: Machine, now: int): Store
    requires m.phase.Prepared?
  {
    var p, s := m.phase, Rekeyed(m.phase.key, m.phase.newKey, m.disk.store, now);
    s.(receipts := s.receipts[p.operation := Receipt(true, p.expected, IdOf(p.key), IdOf(p.newKey))])
  }

  /** Re-encrypt everything and publish: nothing reaches the disk if any payload does not open. */
  function PublishedStore(m: Machine, e: Event): Machine
    requires m.phase.Prepared? && e.Publish?
  {
    var p := m.phase;
    if !Readable(p.key, m.disk.store) || e.save == NotPublished then m.(phase := Aborting(p.key))
    else
      m.(disk := m.disk.(store := RotatedStore(m, e.now)),
         rotated := m.rotated + [p.operation],
         phase := if e.save == Saved then Published(p.newKey) else Running(p.newKey))
  }

  ghost function Step(m: Machine, e: Event): Machine {
    match e
    case Crash => m.(phase := Down)
    case Start(io) =>
      if !m.phase.Down? then m
      else var r := Recover(m.disk, io);
           m.(disk := r.disk, phase := if r.key.Ok? then Running(r.key.value) else Down)
    case Request(_, _, _, _) => if m.phase.Running? then Requested(m, e) else m
    case WritePending(newKey, io) =>
      if !m.phase.Checked? then m
      else if io == Fails then m.(phase := Running(m.phase.key))
      else m.(disk := m.disk.(pending := Some(newKey)),
              phase := if io == Works then Prepared(m.phase.key, m.phase.operation, m.phase.expected, newKey)
                       else Running(m.phase.key))
    case Publish(_, _) => if m.phase.Prepared? then PublishedStore(m, e) else m
    case DiscardPending(io) =>
      if !m.phase.Aborting? then m
      else m.(disk := if io == Fails then m.disk else m.disk.(pending := None), phase := Running(m.phase.key))
    case Promote(io) =>
      if !m.phase.Published? then m
      else m.(disk := if io == Fails then m.disk else m.disk.(wrapper := m.disk.pending, pending := None),
              phase := Running(m.phase.key))
    case Other(op, published) =>
      if m.phase.Down? || op.RotateKey? then m
      else m.(disk := m.disk.(store := LS.Step(LS.State(m.disk.store, m.phase.key), op, published).store))
  }

  // ---------- the invariant ----------

  /** The key the store names opens all of it, and one of the two wrappers holds that key. */
  ghost predicate Recoverable(d: Disk) {
    && d.store.keyId.IdOf?
    && LS.Sound(LS.State(d.store, d.store.keyId.key))
    && (d.wrapper == Some(d.store.keyId.key) || d.pending == Some(d.store.keyId.key))
  }

  ghost predicate PhaseOk(m: Machine)
    requires m.disk.store.keyId.IdOf?
  {
    var key := m.disk.store.keyId.key;
    match m.phase
    case Down => true
    case Running(k) => k == key
    case Checked(k, operation, _) => k == key && m.disk.wrapper == Some(key) && operation !in m.disk.store.receipts
    case Prepared(k, operation, _, newKey) =>
      k == key && m.disk.wrapper == Some(key) && m.disk.pending == Some(newKey) && operation !in m.disk.store.receipts
    case Aborting(k) => k == key && m.disk.wrapper == Some(key)
    case Published(k) => k == key && m.disk.pending == Some(key)
  }

  ghost predicate OnceEach(m: Machine) {
    && (forall i :: 0 <= i < |m.rotated| ==> m.rotated[i] in m.disk.store.receipts)
    && (forall i, j :: 0 <= i < j < |m.rotated| ==> m.rotated[i] != m.rotated[j])
  }

  ghost predicate Inv(m: Machine) {
    Recoverable(m.disk) && PhaseOk(m) && OnceEach(m)
  }

  /** Recovery of a recoverable disk changes no store, leaves the disk recoverable, and unless
      a file operation fails returns the key of the store from the live wrapper. */
  lemma RecoverWorks(d: Disk, io: IO)
    requires Recoverable(d)
    ensures var r := Recover(d, io);
            && r.disk.store == d.store && Recoverable(r.disk)
            && (io == Works ==> r.key.Ok?)
            && (r.key.Ok? ==> IdOf(r.key.value) == d.store.keyId && Readable(r.key.value, d.store)
                              && r.disk.wrapper == Some(r.key.value) && r.disk.pending == None)
  {
    LS.SoundIsReadable(LS.State(d.store, d.store.keyId.key));
    hide LS.Sound, Readable;
  }

  /** Recovery of any disk, recoverable or not: it succeeds exactly when a wrapper holds the key that
      the store names and no file operation was needed or all worked; a store that names no key takes
      whatever the wrapper holds. The key it returns is that of the store, and a pending wrapper is
      promoted only if the live one does not match. */
  lemma RecoverIff(d: Disk, io: IO)
    ensures var r := Recover(d, io);
            && r.disk.store == d.store
            && (d.store.keyId.IdOf? ==>
                  (r.key.Ok? <==>
                   || (d.wrapper == Some(d.store.keyId.key) && (d.pending == None || io == Works))
                   || (d.pending == Some(d.store.keyId.key) && io == Works)))
            && (d.store.keyId.IdOf? && r.key.Ok? ==>
                  r.key.value == d.store.keyId.key && r.disk.wrapper == Some(r.key.value) && r.disk.pending == None)
            && (d.store.keyId == NoKeyId ==> r.disk == d && r.key == if d.wrapper.Some? then Ok(d.wrapper.value) else Err(Locked))
  {}

  lemma OtherKeepsReceipts(s: LS.State, op: LS.Op, published: bool)
    requires !op.RotateKey?
    ensures var s' := LS.Step(s, op, published);
            s'.store.receipts == s.store.receipts && s'.key == s.key
            && (s.store.keyId.IdOf? ==> s'.store.keyId == s.store.keyId)
  {
    hide LS.KV.Write, LS.KV.Mutate, LS.RL.Apply, Filed;
  }

  lemma PublishKeepsInv(m: Machine, e: Event)
    requires Inv(m) && m.phase.Prepared? && e.Publish?
    ensures Inv(PublishedStore(m, e))
  {
    hide LS.EntryOk, LS.LedgerOk;
    var p := m.phase;
    LS.RekeyKeepsSound(LS.State(m.disk.store, p.key), LS.RotateKey(p.newKey, e.now));
    hide Rekeyed, Readable;
    var s, rotated := Rekeyed(p.key, p.newKey, m.disk.store, e.now), RotatedStore(m, e.now);
    RekeyedFields(p.key, p.newKey, m.disk.store, e.now);
    assert LS.Sound(LS.State(rotated, p.newKey));
  }

  lemma RekeyedFields(oldKey: Key, newKey: Key, s: Store, now: int)
    ensures Rekeyed(oldKey, newKey, s, now).keyId == IdOf(newKey)
    ensures Rekeyed(oldKey, newKey, s, now).receipts == s.receipts
  {
    hide RekeyEntry, RekeyLedger, Touch;
  }

  predicate Proper(e: Event) {
    e.Other? ==> LS.Proper(e.op)
  }

  lemma StepKeepsInv(m: Machine, e: Event)
    requires Inv(m) && Proper(e)
    ensures Inv(Step(m, e))
  {
    hide LS.Sound, LS.Proper, Readable, LS.Step, Rekeyed;
    match e {
      case Crash =>
      case Start(io) =>
        RecoverWorks(m.disk, io);
        hide Recover;
      case Request(_, _, _, io) =>
        RecoverWorks(m.disk, io);
        hide Recover;
      case WritePending(newKey, io) =>
      case Publish(_, _) =>
        if m.phase.Prepared? {
          PublishKeepsInv(m, e);
        }
        hide PublishedStore;
      case DiscardPending(io) =>
      case Promote(io) =>
      case Other(op, published) =>
        if !m.phase.Down? && !op.RotateKey? {
          var s := LS.State(m.disk.store, m.phase.key);
          LS.StepKeepsSound(s, op, published);
          OtherKeepsReceipts(s, op, published);
        }
    }
  }

  /** The protocol's own steps never change what the store says. */
  lemma StepPreservesMeaning(m: Machine, e: Event)
    requires Inv(m) && Proper(e) && !e.Other?
    ensures var m' := Step(m, e);
            m'.disk.store.keyId.IdOf?
            && View(m'.disk.store.keyId.key, m'.disk.store) == View(m.disk.store.keyId.key, m.disk.store)
  {
    hide LS.Sound, Readable, View;
    match e {
      case Start(io) =>
        RecoverWorks(m.disk, io);
        hide Recover;
      case Request(_, _, _, io) =>
        RecoverWorks(m.disk, io);
        hide Recover;
      case Publish(save, now) =>
        if m.phase.Prepared? && Readable(m.phase.key, m.disk.store) {
          RekeyPreservesMeaning(m.phase.key, m.phase.newKey, m.disk.store, now);
          RekeyedFields(m.phase.key, m.phase.newKey, m.disk.store, now);
          hide Rekeyed;
          ReceiptsDoNotMatter(m.phase.newKey, Rekeyed(m.phase.key, m.phase.newKey, m.disk.store, now), RotatedStore(m, now));
        }
      case _ =>
    }
  }

  lemma ReceiptsDoNotMatter(key: Key, s: Store, s': Store)
    requires s' == s.(receipts := s'.receipts)
    ensures View(key, s') == View(key, s)
  {
    hide ViewEntry, ViewLedger, ViewTombstone;
  }

  // ---------- runs ----------

  ghost function Run(m: Machine, events: seq<Event>): Machine {
    if events == [] then m else Step(Run(m, events[..|events| - 1]), events[|events| - 1])
  }

  predicate AllProper(events: seq<Event>) {
    forall i :: 0 <= i < |events| ==> Proper(events[i])
  }

  lemma {:induction false} EveryRunKeepsInv(m: Machine, events: seq<Event>)
    requires Inv(m) && AllProper(events)
    ensures Inv(Run(m, events))
  {
    hide Inv, Step, Proper;
    if events != [] {
      var n := |events| - 1;
      EveryRunKeepsInv(m, events[..n]);
      StepKeepsInv(Run(m, events[..n]), events[n]);
    }
  }

  /** Start from any recoverable disk with no process, let any number of rotations, crashes,
      recoveries, file errors and store operations happen, then crash once more: start-up
      recovery returns a key that opens every stored payload, from a wrapper that now holds
      it, and no operation has rotated the store twice. */
  lemma CrashAnywhereThenRecover(d: Disk, events: seq<Event>)
    requires Recoverable(d) && AllProper(events)
    ensures var m := Run(Machine(d, Down, []), events);
            var r := Recover(m.disk, Works);
            && r.key.Ok?
            && r.disk.store == m.disk.store && Readable(r.key.value, r.disk.store)
            && r.disk.wrapper == Some(r.key.value) && r.disk.pending == None
            && (m.phase != Down ==> m.phase.key == r.key.value)
            && (forall i, j :: 0 <= i < j < |m.rotated| ==> m.rotated[i] != m.rotated[j])
  {
    var m0 := Machine(d, Down, []);
    EveryRunKeepsInv(m0, events);
    var m := Run(m0, events);
    RecoverWorks(m.disk, Works);
    hide Run, Recover, LS.Sound, Readable;
  }

  /** Rotations and recoveries alone never change what the store says, wherever they stop. */
  lemma {:induction false} RunPreservesMeaning(m: Machine, events: seq<Event>)
    requires Inv(m) && AllProper(events) && forall i :: 0 <= i < |events| ==> !events[i].Other?
    ensures var m' := Run(m, events);
            m'.disk.store.keyId.IdOf?
            && View(m'.disk.store.keyId.key, m'.disk.store) == View(m.disk.store.keyId.key, m.disk.store)
  {
    hide Step, Proper, View, LS.Sound;
    if events != [] {
      var n := |events| - 1;
      RunPreservesMeaning(m, events[..n]);
      EveryRunKeepsInv(m, events[..n]);
      StepPreservesMeaning(Run(m, events[..n]), events[n]);
    }
  }

  /** Events of the protocol itself. */
  predicate AllProtocol(events: seq<Event>) {
    forall i :: 0 <= i < |events| ==> !events[i].Other?
  }

  lemma RunNext(m: Machine, events: seq<Event>, e: Event)
    ensures Run(m, events + [e]) == Step(Run(m, events), e)
    ensures AllProtocol(events) && !e.Other? ==> AllProtocol(events + [e])
    ensures AllProtocol([]) && Run(m, []) == m
  {
    hide Step;
    assert (events + [e])[..|events|] == events;
  }

  // ---------- the broker process ----------

  datatype Outcome = Applied | AlreadyApplied | Refused(error: Error)

  class ManagedBroker {
    var store: Store
    var wrapper: Option<Key>
    var pending: Option<Key>
    var masterKey: Key
    ghost var rotated: seq<string>

    ghost function Files(): Disk
      reads this
    {
      Disk(store, wrapper, pending)
    }

    /** The process at rest, as a state of the step system. */
    ghost function AtRest(): Machine
      reads this
    {
      Machine(Files(), Running(masterKey), rotated)
    }

    constructor (store: Store, key: Key)
      requires store.keyId == IdOf(key) && LS.Sound(LS.State(store, key))
      ensures Inv(AtRest()) && this.store == store
    {
      this.store, wrapper, pending, masterKey, rotated := store, Some(key), None, key, [];
    }

    method RecoverKey(io: IO) returns (r: Result<Key, Error>)
      modifies this`wrapper, this`pending
      ensures Recovery(Files(), r) == Recover(old(Files()), io)
    {
      if store.keyId == NoKeyId {
        return if wrapper.Some? then Ok(wrapper.value) else Err(Locked);
      }
      if wrapper.Some? && IdOf(wrapper.value) == store.keyId {
        if pending.Some? {
          if io == Fails {
            return Err(Access);
          }
          pending := None;
          if io == FailsAfter {
            return Err(Access);
          }
        }
        return Ok(wrapper.value);
      }
      if pending.None? {
        return Err(if wrapper.Some? then InvalidWrapper else Locked);
      }
      var key := pending.value;
      if IdOf(key) != store.keyId {
        return Err(InvalidWrapper);
      }
      if io == Fails {
        return Err(Access);
      }
      wrapper, pending := pending, None;
      return if io == FailsAfter then Err(Access) else Ok(key);
    }

    /** Stage every payload under the new key, publish once, and move the live key with the
        published store. */
    method RotateAndSave(newKey: Key, operation: string, receipt: Receipt, save: SaveResult, now: int)
      returns (r: SaveResult, readable: bool)
      modifies this`store, this`masterKey
      ensures readable <==> Readable(old(masterKey), old(store))
      ensures WasPublished(r) <==> Readable(old(masterKey), old(store)) && WasPublished(save)
      ensures !WasPublished(r) ==> store == old(store) && masterKey == old(masterKey)
      ensures WasPublished(r) ==>
                && r == save && masterKey == newKey
                && var staged := Rekeyed(old(masterKey), newKey, old(store), now);
                   store == staged.(receipts := staged.receipts[operation := receipt])
    {
      hide Readable, Rekeyed;
      var staged := RekeyStore(masterKey, newKey, store, now);
      if staged.None? {
        return NotPublished, false;
      }
      var next := staged.value.(receipts := staged.value.receipts[operation := receipt]);
      if save == NotPublished {
        return NotPublished, true;
      }
      store := next;
      masterKey := newKey;
      return save, true;
    }

    /** The whole managed rotation. Every return leaves the process at a state that the step
        system reaches from where it was; `events` is the path. */
    method RotateManaged(operation: string, expected: KeyId, authorized: bool, drawn: Option<Key>, save: SaveResult, now: int,
                         recoverIO: IO, pendingIO: IO, discardIO: IO, promoteIO: IO, retryAudited: bool, closingAudited: bool)
      returns (outcome: Outcome, ghost events: seq<Event>)
      requires Inv(AtRest())
      modifies this
      ensures Inv(AtRest()) && AllProper(events) && AtRest() == Run(old(AtRest()), events)
      ensures View(masterKey, store) == View(old(masterKey), old(store))
      ensures outcome == Applied ==>
                && rotated == old(rotated) + [operation]
                && drawn == wrapper == Some(masterKey) && pending == None && operation in store.receipts
      ensures outcome != Applied && rotated != old(rotated) ==> rotated == old(rotated) + [operation] && drawn == Some(masterKey)
      ensures outcome == Refused(Audit) && rotated != old(rotated) ==> wrapper == Some(masterKey) && pending == None && !closingAudited
      ensures outcome != Refused(Undecryptable)
      ensures outcome == AlreadyApplied ==> retryAudited && operation in store.receipts && store.receipts[operation].rotation
      ensures operation in old(store).receipts ==> store == old(store) && rotated == old(rotated)
      ensures operation !in old(store).receipts && expected != old(store).keyId ==>
                outcome == Refused(Conflict) && store == old(store) && rotated == old(rotated)
      ensures var recovers := recoverIO == Works || old(pending) == None;
              var known := operation in old(store).receipts;
              && (outcome == Applied <==>
                  && recovers && !known && expected == old(store).keyId && authorized && drawn.Some?
                  && pendingIO == Works && save == Saved && promoteIO == Works && closingAudited)
              && (outcome == AlreadyApplied <==>
                  && recovers && known && retryAudited
                  && old(store).receipts[operation].rotation && old(store).receipts[operation].expectedKeyId == expected)
              && (rotated != old(rotated) <==>
                  && recovers && !known && expected == old(store).keyId && authorized && drawn.Some?
                  && pendingIO == Works && WasPublished(save))
      ensures (recoverIO == Works || old(pending) == None) && operation !in old(store).receipts && expected == old(store).keyId ==>
                && (!authorized ==> outcome == Refused(Audit))
                && (authorized && drawn == None ==> outcome == Refused(EntropyUnavailable))
      ensures rotated != old(rotated) ==>
                && store.receipts == old(store).receipts[operation := Receipt(true, expected, old(store).keyId, store.keyId)]
                && drawn.Some? && store.keyId == IdOf(drawn.value)
    {
      hide LS.Sound, Readable, View, Inv, AllProtocol, AllProper, Run;
      ghost var start := AtRest();
      outcome, events := Rotate(operation, expected, authorized, drawn, save, now, recoverIO, pendingIO, discardIO, promoteIO,
                                retryAudited, closingAudited);
      Arrived(start, events);
    }

    /** The rotation itself, as a path of the step system. */
    method Rotate(operation: string, expected: KeyId, authorized: bool, drawn: Option<Key>, save: SaveResult, now: int,
                         recoverIO: IO, pendingIO: IO, discardIO: IO, promoteIO: IO, retryAudited: bool, closingAudited: bool)
      returns (outcome: Outcome, ghost events: seq<Event>)
      requires Inv(AtRest())
      modifies this
      ensures RunIs(old(AtRest()), events, AtRest())
      ensures outcome == Applied ==>
                && rotated == old(rotated) + [operation]
                && drawn == wrapper == Some(masterKey) && pending == None && operation in store.receipts
      ensures outcome != Applied && rotated != old(rotated) ==> rotated == old(rotated) + [operation] && drawn == Some(masterKey)
      ensures outcome == Refused(Audit) && rotated != old(rotated) ==> wrapper == Some(masterKey) && pending == None && !closingAudited
      ensures outcome != Refused(Undecryptable)
      ensures outcome == AlreadyApplied ==> retryAudited && operation in store.receipts && store.receipts[operation].rotation
      ensures operation in old(store).receipts ==> store == old(store) && rotated == old(rotated)
      ensures operation !in old(store).receipts && expected != old(store).keyId ==>
                outcome == Refused(Conflict) && store == old(store) && rotated == old(rotated)
      ensures var recovers := recoverIO == Works || old(pending) == None;
              var known := operation in old(store).receipts;
              && (outcome == Applied <==>
                  && recovers && !known && expected == old(store).keyId && authorized && drawn.Some?
                  && pendingIO == Works && save == Saved && promoteIO == Works && closingAudited)
              && (outcome == AlreadyApplied <==>
                  && recovers && known && retryAudited
                  && old(store).receipts[operation].rotation && old(store).receipts[operation].expectedKeyId == expected)
              && (rotated != old(rotated) <==>
                  && recovers && !known && expected == old(store).keyId && authorized && drawn.Some?
                  && pendingIO == Works && WasPublished(save))
      ensures (recoverIO == Works || old(pending) == None) && operation !in old(store).receipts && expected == old(store).keyId ==>
                && (!authorized ==> outcome == Refused(Audit))
                && (authorized && drawn == None ==> outcome == Refused(EntropyUnavailable))
      ensures rotated != old(rotated) ==>
                && store.receipts == old(store).receipts[operation := Receipt(true, expected, old(store).keyId, store.keyId)]
                && drawn.Some? && store.keyId == IdOf(drawn.value)
    {
      Answers(AtRest(), recoverIO);
      hide LS.Sound, Readable, Rekeyed, View, Step, Inv, Recover, Recoverable, AllProtocol, AllProper, Run, PhaseOk, OnceEach, Requested, RunIs;
      ghost var start := AtRest();
      events := [Request(operation, expected, authorized, recoverIO)];
      RequestPath(start, events[0]);
      var recovered := RecoverKey(recoverIO);
      if recovered.Err? {
        return Refused(Conflict), events;
      }
      masterKey := recovered.value;
      if operation in store.receipts {
        var receipt := store.receipts[operation];
        if !receipt.rotation || receipt.expectedKeyId != expected {
          return Refused(Conflict), events;
        }
        return if retryAudited then AlreadyApplied else Refused(Audit), events;
      }
      if expected != IdOf(masterKey) {
        return Refused(Conflict), events;
      }
      if !authorized {
        return Refused(Audit), events;
      }
      ghost var m1 := Machine(Files(), Checked(masterKey, operation, expected), rotated);
      if drawn.None? {
        events := GiveUp(start, events, m1);
        return Refused(EntropyUnavailable), events;
      }
      outcome, events := Commit(start, events, operation, expected, drawn.value, save, now, pendingIO, discardIO, promoteIO, closingAudited);
    }

    /** The second half of a rotation: pending wrapper, re-encrypted store, promotion, closing audit. */
    method Commit(ghost start: Machine, ghost path: seq<Event>, operation: string, expected: KeyId, newKey: Key, save: SaveResult,
                  now: int, pendingIO: IO, discardIO: IO, promoteIO: IO, closingAudited: bool)
      returns (outcome: Outcome, ghost longer: seq<Event>)
      requires Inv(start) && RunIs(start, path, Machine(Files(), Checked(masterKey, operation, expected), rotated))
      modifies this
      ensures RunIs(start, longer, AtRest())
      ensures outcome == Applied <==> pendingIO == Works && save == Saved && promoteIO == Works && closingAudited
      ensures rotated != old(rotated) <==> pendingIO == Works && WasPublished(save)
      ensures rotated == old(rotated) ==> store == old(store) && masterKey == old(masterKey)
      ensures rotated != old(rotated) ==>
                && rotated == old(rotated) + [operation] && masterKey == newKey && store.keyId == IdOf(newKey)
                && store.receipts == old(store).receipts[operation := Receipt(true, expected, IdOf(old(masterKey)), IdOf(newKey))]
      ensures outcome in {Applied, Refused(Audit)} ==> wrapper == Some(newKey) && pending == None
      ensures outcome == Refused(Audit) ==> rotated != old(rotated) && !closingAudited
      ensures outcome !in {AlreadyApplied, Refused(Undecryptable)}
    {
      hide LS.Sound, Readable, Rekeyed, View, Step, Inv, Recover, Recoverable, AllProtocol, AllProper, Run, PhaseOk, OnceEach;
      longer := path;
      ghost var m1 := Machine(Files(), Checked(masterKey, operation, expected), rotated);
      ghost var e2 := WritePending(newKey, pendingIO);
      assert RunIs(start, longer + [e2], Step(m1, e2)) by {
        RunNext(start, longer, e2);
      }
      longer := longer + [e2];
      WritePendingStep(m1, e2);
      if pendingIO == Fails {
        return Refused(Access), longer;
      }
      pending := Some(newKey);
      if pendingIO == FailsAfter {
        return Refused(Access), longer;
      }
      ghost var m2 := Machine(Files(), Prepared(masterKey, operation, expected, newKey), rotated);
      StillReadable(start, longer, m2);
      ghost var e3 := Publish(save, now);
      assert RunIs(start, longer + [e3], Step(m2, e3)) by {
        RunNext(start, longer, e3);
      }
      longer := longer + [e3];
      PublishStep(m2, e3);
      RekeyedFields(masterKey, newKey, store, now);
      var saved, readable := RotateAndSave(newKey, operation, Receipt(true, expected, IdOf(masterKey), IdOf(newKey)), save, now);
      if saved == NotPublished {
        ghost var m3 := Machine(Files(), Aborting(masterKey), rotated);
        ghost var e4 := DiscardPending(discardIO);
        assert RunIs(start, longer + [e4], Step(m3, e4)) by {
          RunNext(start, longer, e4);
        }
        longer := longer + [e4];
        DiscardStep(m3, e4);
        if discardIO != Fails {
          pending := None;
        }
        return Refused(if readable then Degraded else Undecryptable), longer;
      }
      rotated := rotated + [operation];
      if saved == PublishedWithError {
        return Refused(Degraded), longer;
      }
      ghost var m3 := Machine(Files(), Published(masterKey), rotated);
      ghost var e4 := Promote(promoteIO);
      assert RunIs(start, longer + [e4], Step(m3, e4)) by {
        RunNext(start, longer, e4);
      }
      longer := longer + [e4];
      PromoteStep(m3, e4);
      if promoteIO != Fails {
        wrapper, pending := pending, None;
      }
      if promoteIO != Works {
        return Refused(Conflict), longer;
      }
      return if closingAudited then Applied else Refused(Audit), longer;
    }
  }

  ghost predicate RunIs(m: Machine, events: seq<Event>, m': Machine) {
    Run(m, events) == m' && AllProtocol(events)
  }

  /** Where a path of protocol events leads, all that was promised holds. */
  lemma Arrived(m: Machine, events: seq<Event>)
    requires Inv(m) && AllProtocol(events)
    ensures AllProper(events)
    ensures Inv(Run(m, events)) && m.disk.store.keyId.IdOf? && Run(m, events).disk.store.keyId.IdOf?
    ensures View(Run(m, events).disk.store.keyId.key, Run(m, events).disk.store) == View(m.disk.store.keyId.key, m.disk.store)
    ensures Run(m, events).phase.Running? ==> Run(m, events).phase.key == Run(m, events).disk.store.keyId.key
    ensures m.phase.Running? ==> m.phase.key == m.disk.store.keyId.key
  {
    EveryRunKeepsInv(m, events);
    RunPreservesMeaning(m, events);
    hide Run, View, LS.Sound;
  }

  /** What recovery answers to a broker at rest. */
  lemma Answers(m: Machine, io: IO)
    requires Inv(m) && m.phase.Running?
    ensures var r := Recover(m.disk, io);
            && (r.key.Ok? <==> io == Works || m.disk.pending == None)
            && (r.key.Ok? ==> IdOf(r.key.value) == m.disk.store.keyId)
            && m.disk.store.keyId == IdOf(m.phase.key)
  {
    RecoverIff(m.disk, io);
    hide LS.Sound, Recover;
  }

  /** Wherever the protocol is, its key opens the store. */
  lemma StillReadable(start: Machine, events: seq<Event>, m: Machine)
    requires Inv(start) && RunIs(start, events, m) && !m.phase.Down?
    ensures Readable(m.phase.key, m.disk.store)
  {
    Arrived(start, events);
    LS.SoundIsReadable(LS.State(m.disk.store, m.disk.store.keyId.key));
    hide Run, LS.Sound, Readable;
  }

  /** A rotation that ends before its pending wrapper is written. */
  lemma GiveUp(start: Machine, events: seq<Event>, m: Machine) returns (longer: seq<Event>)
    requires RunIs(start, events, m) && m.phase.Checked?
    ensures RunIs(start, longer, m.(phase := Running(m.phase.key)))
  {
    hide Run, AllProtocol;
    longer := events + [WritePending("", Fails)];
    RunNext(start, events, WritePending("", Fails));
  }

  /** Where a request leads. */
  lemma RequestPath(m: Machine, e: Event)
    requires m.phase.Running? && e.Request?
    ensures var r := Recover(m.disk, e.io);
            && (r.key.Err? ==> RunIs(m, [e], m.(disk := r.disk)))
            && (r.key.Ok? ==>
                  var accepted := e.operation !in r.disk.store.receipts && e.expected == IdOf(r.key.value) && e.authorized;
                  var phase := if accepted then Checked(r.key.value, e.operation, e.expected) else Running(r.key.value);
                  RunIs(m, [e], Machine(r.disk, phase, m.rotated)))
  {
    hide Recover, LS.Step;
    RunNext(m, [], e);
    assert [] + [e] == [e];
  }

  // One equation of `Step` for each event of a rotation.

  lemma WritePendingStep(m: Machine, e: Event)
    requires m.phase.Checked? && e.WritePending?
    ensures Step(m, e) ==
            if e.io == Fails then m.(phase := Running(m.phase.key))
            else m.(disk := m.disk.(pending := Some(e.newKey)),
                    phase := if e.io == Works then Prepared(m.phase.key, m.phase.operation, m.phase.expected, e.newKey)
                             else Running(m.phase.key))
  {}

  lemma PublishStep(m: Machine, e: Event)
    requires m.phase.Prepared? && e.Publish?
    ensures Step(m, e) == PublishedStore(m, e)
  {}

  lemma DiscardStep(m: Machine, e: Event)
    requires m.phase.Aborting? && e.DiscardPending?
    ensures Step(m, e) == m.(disk := if e.io == Fails then m.disk else m.disk.(pending := None), phase := Running(m.phase.key))
  {}

  lemma PromoteStep(m: Machine, e: Event)
    requires m.phase.Published? && e.Promote?
    ensures Step(m, e) == m.(disk := if e.io == Fails then m.disk else m.disk.(wrapper := m.disk.pending, pending := None),
                             phase := Running(m.phase.key))
  {}
}
