/** All operations on the shared store: plain writes, KV writes and deletions, version
    rotation, decommission and restore, and master-key rotation. */
module LocalStore {
  import opened Results
  import opened Vault
  import opened VersionOrder
  import KV = KVStore
  import RL = RotationLedger

  /** The store on disk and the master key in memory. */
  datatype State = State(store: Store, key: Key)

  datatype Op =
    | PlainWrite(ref: Ref, plain: string, version: string, now: int)
    | KVWrite(ref: Ref, edit: KV.Edit, cas: Option<int>, version: string, now: int)
    | KVMutate(ref: Ref, versions: seq<int>, undelete: bool, now: int)
    | Rotation(ref: Ref, request: RL.Request, audited: bool, now: int)
    | Decommission(ref: Ref, operation: string, expected: string, planValid: bool, audited: bool)
    | Restore(ref: Ref, operation: string, expected: string, audited: bool)
    | RotateKey(newKey: Key, now: int)

  function Lookup<V>(m: map<Ref, V>, ref: Ref): Option<V> {
    if ref in m then Some(m[ref]) else None
  }

  // ---------- what each operation would save ----------

  /** A plain write replaces the entry, KV history and all. */
  function PlainWritten(s: State, op: Op): Store
    requires op.PlainWrite?
  {
    var created := if op.ref in s.store.secrets then s.store.secrets[op.ref].metadata.createdAt else op.now;
    s.store.(keyId := if s.store.keyId == NoKeyId then IdOf(s.key) else s.store.keyId,
             secrets := s.store.secrets[op.ref := Entry(Metadata(op.version, created, op.now), Encrypt(s.key, op.plain), None)])
  }

  function KVWritten(s: State, op: Op): Option<Store>
    requires op.KVWrite?
  {
    match KV.Write(s.key, Lookup(s.store.secrets, op.ref), op.edit, op.cas, op.now, op.version)
    case Ok(e) => Some(s.store.(secrets := s.store.secrets[op.ref := e]))
    case Err(_) => None
  }

  function KVMutated(s: State, op: Op): Option<Store>
    requires op.KVMutate?
  {
    if op.ref !in s.store.secrets then None
    else
      match KV.Mutate(s.store.secrets[op.ref], op.versions, op.undelete, op.now)
      case Ok(e) => Some(s.store.(secrets := s.store.secrets[op.ref := e]))
      case Err(_) => None
  }

  function SlotOf(store: Store, ref: Ref): RL.Slot
    requires ref in store.secrets
  {
    RL.Slot(store.secrets[ref], if ref in store.ledgers then store.ledgers[ref] else RL.NO_LEDGER)
  }

  ghost function Rotated(s: State, op: Op): Option<Store>
    requires op.Rotation?
  {
    if op.ref !in s.store.secrets || !Filed(SlotOf(s.store, op.ref).ledger.retained) then None
    else
      var slot := SlotOf(s.store, op.ref);
      var slot' := RL.Apply(slot, s.key, op.request, op.audited, op.now).0;
      if slot' == slot then None
      else Some(s.store.(secrets := s.store.secrets[op.ref := slot'.entry], ledgers := s.store.ledgers[op.ref := slot'.ledger]))
  }

  /** A standing tombstone is never overwritten. */
  function Decommissioned(s: State, op: Op): Option<Store>
    requires op.Decommission?
  {
    if !op.planValid then None
    else if op.ref in s.store.tombstones && s.store.tombstones[op.ref].state == TombstoneState.Decommissioned then None
    else if op.ref !in s.store.secrets then None
    else if s.store.secrets[op.ref].metadata.version != op.expected then None
    else if !op.audited then None
    else
      var entry := s.store.secrets[op.ref];
      var tombstone := Tombstone(TombstoneState.Decommissioned, entry.metadata.version, op.operation, "", entry);
      Some(s.store.(secrets := s.store.secrets - {op.ref}, tombstones := s.store.tombstones[op.ref := tombstone]))
  }

  function RestoredStore(s: State, op: Op): Option<Store>
    requires op.Restore?
  {
    if op.ref !in s.store.tombstones || s.store.tombstones[op.ref].version != op.expected then None
    else if op.ref in s.store.secrets then None
    else if s.store.tombstones[op.ref].state != TombstoneState.Decommissioned then None
    else if !op.audited then None
    else
      var tombstone := s.store.tombstones[op.ref];
      Some(s.store.(secrets := s.store.secrets[op.ref := tombstone.entry],
                    tombstones := s.store.tombstones[op.ref := tombstone.(state := TombstoneState.Restored, restoreId := op.operation)]))
  }

  function KeyRotated(s: State, op: Op): Option<Store>
    requires op.RotateKey?
  {
    if Readable(s.key, s.store) then Some(Rekeyed(s.key, op.newKey, s.store, op.now)) else None
  }

  ghost function Saves(s: State, op: Op): Option<Store> {
    match op
    case PlainWrite(_, _, _, _) => Some(PlainWritten(s, op))
    case KVWrite(_, _, _, _, _) => KVWritten(s, op)
    case KVMutate(_, _, _, _) => KVMutated(s, op)
    case Rotation(_, _, _, _) => Rotated(s, op)
    case Decommission(_, _, _, _, _) => Decommissioned(s, op)
    case Restore(_, _, _, _) => RestoredStore(s, op)
    case RotateKey(_, _) => KeyRotated(s, op)
  }

  /** One operation. Unless the new store is published, nothing changes; the live key moves
      with the store it belongs to, whether or not publishing also reported an error. */
  ghost function Step(s: State, op: Op, published: bool): State {
    match Saves(s, op)
    case None => s
    case Some(store) => if published then State(store, if op.RotateKey? then op.newKey else s.key) else s
  }

  // ---------- what every store keeps ----------

  predicate EntryOk(key: Key, e: Entry) {
    KV.WellFormed(key, e) && e.metadata.version != ""
  }

  predicate LedgerOk(key: Key, l: Ledger) {
    LedgerReadable(key, l) && Filed(l.retained) && RL.InOrder(l)
  }

  /** Everything opens under the live key, which is the one the store names; histories are
      well formed and agree with the payload that resolution reads. */
  predicate Sound(s: State) {
    && (s.store.keyId == NoKeyId || s.store.keyId == IdOf(s.key))
    && (forall ref :: ref in s.store.secrets ==> EntryOk(s.key, s.store.secrets[ref]))
    && (forall ref :: ref in s.store.tombstones ==> EntryOk(s.key, s.store.tombstones[ref].entry))
    && (forall ref :: ref in s.store.ledgers ==> LedgerOk(s.key, s.store.ledgers[ref]))
  }

  /** Version names come from timestamps and operation tokens and are never empty. */
  predicate Proper(op: Op) {
    && (op.PlainWrite? || op.KVWrite? ==> op.version != "")
    && (op.Rotation? && op.request.Stage? ==> op.request.versionId != "")
  }

  lemma SoundIsReadable(s: State)
    requires Sound(s)
    ensures Readable(s.key, s.store)
  {}

  predicate SlotOk(key: Key, slot: RL.Slot) {
    EntryOk(key, slot.entry) && LedgerOk(key, slot.ledger)
  }

  lemma StageKeepsSound(key: Key, slot: RL.Slot, r: RL.Request, audited: bool, now: int)
    requires SlotOk(key, slot) && r.Stage? && r.versionId != ""
    ensures SlotOk(key, RL.StageVersion(slot, key, r, audited, now).0)
  {
    RL.ApplyKeepsInOrder(slot, key, r, audited, now);
    hide EntryOk, RL.InOrder;
  }

  lemma InstalledOk(key: Key, v: StoredVersion, now: int)
    requires Decrypt(key, v.payload).Some? && v.metadata.version != ""
    ensures EntryOk(key, RL.Install(v, now))
  {}

  lemma ActivateKeepsSound(key: Key, slot: RL.Slot, r: RL.Request, audited: bool, now: int)
    requires SlotOk(key, slot) && r.Activate?
    ensures SlotOk(key, RL.ActivateVersion(slot, r, audited, now).0)
  {
    assert Decrypt(key, slot.entry.payload).Some? && slot.entry.metadata.version != "";
    RL.ApplyKeepsInOrder(slot, key, r, audited, now);
    hide EntryOk, Decrypt, RL.PreviousKept;
    if r.versionId in slot.ledger.staged {
      InstalledOk(key, slot.ledger.staged[r.versionId], now);
    }
  }

  lemma RollbackKeepsSound(key: Key, slot: RL.Slot, r: RL.Request, audited: bool, now: int)
    requires SlotOk(key, slot) && r.Rollback?
    ensures SlotOk(key, RL.RollbackVersion(slot, r, audited, now).0)
  {
    assert Decrypt(key, slot.entry.payload).Some? && slot.entry.metadata.version != "";
    RL.ApplyKeepsInOrder(slot, key, r, audited, now);
    hide EntryOk, Decrypt, RL.PreviousKept;
    var versionId := RL.FirstNonEmpty(r.versionId, slot.ledger.previousId);
    if versionId in slot.ledger.retained {
      InstalledOk(key, slot.ledger.retained[versionId], now);
    }
  }

  lemma RetireKeepsSound(key: Key, slot: RL.Slot, r: RL.Request, audited: bool)
    requires SlotOk(key, slot) && r.Retire?
    ensures SlotOk(key, RL.RetireVersion(slot, r, audited).0)
  {
    assert slot.entry.metadata.version != "";
    RL.ApplyKeepsInOrder(slot, key, r, audited, 0);
    hide EntryOk, Decrypt, Trimmed, RL.PreviousAmong, RL.InOrder;
  }

  lemma RotationKeepsSound(s: State, op: Op)
    requires Sound(s) && Proper(op) && op.Rotation? && op.ref in s.store.secrets
    ensures var slot := SlotOf(s.store, op.ref);
            Filed(slot.ledger.retained) && SlotOk(s.key, RL.Apply(slot, s.key, op.request, op.audited, op.now).0)
  {
    hide EntryOk, RL.StageVersion, RL.ActivateVersion, RL.RollbackVersion, RL.RetireVersion;
    var slot := SlotOf(s.store, op.ref);
    assert SlotOk(s.key, slot);
    match op.request {
      case Stage(_, _, _) => StageKeepsSound(s.key, slot, op.request, op.audited, op.now);
      case Activate(_, _) => ActivateKeepsSound(s.key, slot, op.request, op.audited, op.now);
      case Rollback(_, _) => RollbackKeepsSound(s.key, slot, op.request, op.audited, op.now);
      case Retire(_, _) => RetireKeepsSound(s.key, slot, op.request, op.audited);
    }
  }

  lemma RekeyKeepsSound(s: State, op: Op)
    requires Sound(s) && op.RotateKey?
    ensures Sound(State(Rekeyed(s.key, op.newKey, s.store, op.now), op.newKey))
  {
    hide EntryOk, LedgerOk, RekeyEntry, RekeyLedger, Touch;
    forall ref | ref in s.store.secrets
      ensures EntryOk(op.newKey, Touch(RekeyEntry(s.key, op.newKey, s.store.secrets[ref]), op.now))
    {
      RekeyedEntryOk(s.key, op.newKey, s.store.secrets[ref], op.now);
    }
    forall ref | ref in s.store.tombstones
      ensures EntryOk(op.newKey, Touch(RekeyEntry(s.key, op.newKey, s.store.tombstones[ref].entry), op.now))
    {
      RekeyedEntryOk(s.key, op.newKey, s.store.tombstones[ref].entry, op.now);
    }
    forall ref | ref in s.store.ledgers
      ensures LedgerOk(op.newKey, RekeyLedger(s.key, op.newKey, s.store.ledgers[ref]))
    {
      RekeyedLedgerOk(s.key, op.newKey, s.store.ledgers[ref]);
    }
  }

  lemma RekeyedEntryOk(oldKey: Key, newKey: Key, e: Entry, now: int)
    requires EntryOk(oldKey, e)
    ensures EntryOk(newKey, Touch(RekeyEntry(oldKey, newKey, e), now))
  {
    KV.RekeyKeepsWellFormed(oldKey, newKey, e, now);
    hide KV.WellFormed;
  }

  lemma RekeyedLedgerOk(oldKey: Key, newKey: Key, l: Ledger)
    requires LedgerOk(oldKey, l)
    ensures LedgerOk(newKey, RekeyLedger(oldKey, newKey, l))
  {
    RekeyLedgerKeepsView(oldKey, newKey, l);
  }

  lemma StepKeepsSound(s: State, op: Op, published: bool)
    requires Sound(s) && Proper(op)
    ensures Sound(Step(s, op, published))
  {
    hide KV.WellFormed, KV.Write, KV.Mutate, LedgerOk, RL.Apply, Rekeyed, Readable;
    match op {
      case PlainWrite(ref, plain, version, now) =>
        var created := if ref in s.store.secrets then s.store.secrets[ref].metadata.createdAt else now;
        PlainEntryOk(s.key, plain, version, created, now);
      case KVWrite(ref, edit, cas, version, now) =>
        KVWriteOk(s.key, Lookup(s.store.secrets, ref), edit, cas, now, version);
      case KVMutate(ref, versions, undelete, now) =>
        if ref in s.store.secrets {
          KVMutateOk(s.key, s.store.secrets[ref], versions, undelete, now);
        }
      case Rotation(ref, request, audited, now) =>
        if ref in s.store.secrets {
          RotationKeepsSound(s, op);
        }
      case Decommission(_, _, _, _, _) =>
      case Restore(_, _, _, _) =>
      case RotateKey(newKey, now) =>
        RekeyKeepsSound(s, op);
    }
  }

  lemma PlainEntryOk(key: Key, plain: string, version: string, created: int, now: int)
    requires version != ""
    ensures EntryOk(key, Entry(Metadata(version, created, now), Encrypt(key, plain), None))
  {}

  lemma KVWriteOk(key: Key, existing: Option<Entry>, edit: KV.Edit, cas: Option<int>, now: int, version: string)
    requires existing.Some? ==> EntryOk(key, existing.value)
    requires version != ""
    ensures var r := KV.Write(key, existing, edit, cas, now, version); r.Ok? ==> EntryOk(key, r.value)
  {
    KV.WriteKeepsWellFormed(key, existing, edit, cas, now, version);
    hide KV.WellFormed, KV.NewPlaintext, KV.AppendVersion;
  }

  lemma KVMutateOk(key: Key, e: Entry, versions: seq<int>, undelete: bool, now: int)
    requires EntryOk(key, e)
    ensures var r := KV.Mutate(e, versions, undelete, now); r.Ok? ==> EntryOk(key, r.value)
  {
    KV.MutateKeepsWellFormed(key, e, versions, undelete, now);
    hide KV.WellFormed, KV.Marked, KV.Selected;
  }

  // ---------- runs ----------

  datatype Turn = Turn(op: Op, published: bool)

  ghost function Run(s: State, turns: seq<Turn>): State {
    if turns == [] then s
    else
      var n := |turns| - 1;
      Step(Run(s, turns[..n]), turns[n].op, turns[n].published)
  }

  predicate AllProper(turns: seq<Turn>) {
    forall i :: 0 <= i < |turns| ==> Proper(turns[i].op)
  }

  lemma {:induction false} EveryRunIsSound(s: State, turns: seq<Turn>)
    requires Sound(s) && AllProper(turns)
    ensures Sound(Run(s, turns))
  {
    hide Sound, Step, Proper;
    if turns != [] {
      var n := |turns| - 1;
      EveryRunIsSound(s, turns[..n]);
      StepKeepsSound(Run(s, turns[..n]), turns[n].op, turns[n].published);
    }
  }

  /** In every reachable store, whatever version IDs were used and whatever ran in between, the
      previous-version ID of a ledger names a retained version, or is empty exactly when none is
      retained, and every version is filed under its own ID. */
  lemma EveryLedgerIsInOrder(s: State, turns: seq<Turn>, ref: Ref)
    requires Sound(s) && AllProper(turns)
    ensures var t := Run(s, turns);
            ref in t.store.ledgers ==>
              var l := t.store.ledgers[ref];
              && (l.previousId == "" <==> l.retained == map[])
              && (l.previousId != "" ==> l.previousId in l.retained)
              && (forall id :: id in l.retained ==> l.retained[id].metadata.version == id)
              && (forall id :: id in l.staged ==> l.staged[id].metadata.version == id)
  {
    EveryRunIsSound(s, turns);
    hide Run, EntryOk, LedgerReadable;
    var t := Run(s, turns);
    if ref in t.store.ledgers {
      assert LedgerOk(t.key, t.store.ledgers[ref]);
    }
  }

  /** In every reachable store, activating a staged version and rolling back by default restores
      the payload that resolution read before, unless one of two reuses stands in the way. */
  lemma RollbackRestoresIff(s: State, turns: seq<Turn>, ref: Ref, versionId: string, operation: string, t1: int, t2: int)
    requires Sound(s) && AllProper(turns)
    requires var t := Run(s, turns);
             ref in t.store.secrets && versionId in SlotOf(t.store, ref).ledger.staged
    ensures var t := Run(s, turns);
            var l := SlotOf(t.store, ref).ledger;
            var active := t.store.secrets[ref].metadata.version;
            var t' := Step(t, Rotation(ref, RL.Activate(versionId, active), true, t1), true);
            var t'' := Step(t', Rotation(ref, RL.Rollback("", operation), true, t2), true);
            && Resolve(t', ref) == Decrypt(t.key, l.staged[versionId].payload)
            && (ref in t''.store.secrets && t''.store.secrets[ref].payload == t.store.secrets[ref].payload
                && t''.store.secrets[ref].metadata.version == active && t'' != t' <==>
                versionId != active && !(operation == l.rollbackOperation && versionId == l.rollbackVersion))
  {
    EveryRunIsSound(s, turns);
    hide Run, KV.WellFormed, LedgerReadable;
    var t := Run(s, turns);
    assert EntryOk(t.key, t.store.secrets[ref]);
    var slot := SlotOf(t.store, ref);
    assert LedgerOk(t.key, slot.ledger) || slot.ledger == RL.NO_LEDGER;
    RL.RollbackUndoesActivateIff(slot, versionId, operation, t1, t2);
    var activate := Rotation(ref, RL.Activate(versionId, RL.ActiveId(slot)), true, t1);
    var t' := Step(t, activate, true);
    StepKeepsSound(t, activate, true);
    var slot' := RL.ActivateVersion(slot, activate.request, true, t1).0;
    assert slot' != slot by {
      assert versionId in slot.ledger.staged && versionId !in slot'.ledger.staged;
    }
    assert SlotOf(t'.store, ref) == slot';
    assert LedgerOk(t'.key, slot'.ledger);
  }

  function Resolve(s: State, ref: Ref): Option<string> {
    if ref in s.store.secrets then Decrypt(s.key, s.store.secrets[ref].payload) else None
  }

  /** In every reachable store, resolving a ref gives the plaintext of its highest-numbered
      KV version, and the live key is the one the published store names. */
  lemma ResolveAgreesWithKV(s: State, turns: seq<Turn>, ref: Ref)
    requires Sound(s) && AllProper(turns)
    ensures var t := Run(s, turns);
            && (t.store.keyId == NoKeyId || t.store.keyId == IdOf(t.key))
            && Readable(t.key, t.store)
            && (ref in t.store.secrets ==>
                  var e := t.store.secrets[ref];
                  var current := KV.LocalState(e).current;
                  && Resolve(t, ref).Some?
                  && KV.ReadVersion(t.key, e, current).Ok?
                  && KV.ReadVersion(t.key, e, current).value.1 == Resolve(t, ref).value
                  && forall i :: 0 <= i < |KV.LocalState(e).versions| ==> KV.LocalState(e).versions[i].version <= current)
  {
    EveryRunIsSound(s, turns);
    var t := Run(s, turns);
    SoundIsReadable(t);
    hide Run, KV.WellFormed, KV.ReadVersion, KV.LocalState, LedgerOk, Readable;
    if ref in t.store.secrets {
      assert EntryOk(t.key, t.store.secrets[ref]);
      KV.ResolveReadsCurrent(t.key, t.store.secrets[ref]);
    }
  }

  // ---------- tombstones ----------

  predicate Standing(s: State, ref: Ref) {
    ref in s.store.tombstones && s.store.tombstones[ref].state == TombstoneState.Decommissioned
  }

  /** The operation brings this ref back. */
  ghost predicate Restores(s: State, turn: Turn, ref: Ref) {
    turn.op.Restore? && turn.op.ref == ref && turn.published && RestoredStore(s, turn.op).Some?
  }

  /** Only its own restore ends a tombstone; until then it says the same. */
  lemma StepKeepsTombstone(s: State, turn: Turn, ref: Ref)
    requires Sound(s) && Standing(s, ref) && !Restores(s, turn, ref)
    ensures var s' := Step(s, turn.op, turn.published);
            Standing(s', ref) && ViewTombstone(s'.key, s'.store.tombstones[ref]) == ViewTombstone(s.key, s.store.tombstones[ref])
  {
    hide KV.WellFormed, KV.Write, KV.Mutate, LedgerOk, RL.Apply, ViewEntry, RekeyEntry, Touch, RekeyLedger, Readable;
    if turn.op.RotateKey? {
      RekeyedTombstone(s.key, turn.op.newKey, s.store.tombstones[ref], turn.op.now);
    }
  }

  lemma RekeyedTombstone(oldKey: Key, newKey: Key, t: Tombstone, now: int)
    requires EntryOk(oldKey, t.entry)
    ensures ViewTombstone(newKey, t.(entry := Touch(RekeyEntry(oldKey, newKey, t.entry), now))) == ViewTombstone(oldKey, t)
  {
    RekeyEntryKeepsView(oldKey, newKey, t.entry, now);
    hide ViewEntry, RekeyEntry;
  }

  ghost predicate NeverRestored(s: State, turns: seq<Turn>, ref: Ref) {
    forall i :: 0 <= i < |turns| ==> !Restores(Run(s, turns[..i]), turns[i], ref)
  }

  /** Through any run that does not restore it, key rotations included, a decommissioned entry
      is neither dropped nor overwritten, and keeps its version and plaintexts. */
  lemma {:induction false} TombstoneStands(s: State, turns: seq<Turn>, ref: Ref)
    requires Sound(s) && AllProper(turns) && Standing(s, ref) && NeverRestored(s, turns, ref)
    ensures var t := Run(s, turns);
            Standing(t, ref) && ViewTombstone(t.key, t.store.tombstones[ref]) == ViewTombstone(s.key, s.store.tombstones[ref])
  {
    hide Sound, Step, Proper, Restores, ViewTombstone;
    if turns != [] {
      var n := |turns| - 1;
      var init := turns[..n];
      assert forall i :: 0 <= i < n ==> init[..i] == turns[..i] && init[i] == turns[i];
      TombstoneStands(s, init, ref);
      EveryRunIsSound(s, init);
      StepKeepsTombstone(Run(s, init), turns[n], ref);
    }
  }

  /** Restoring never replaces an active secret. */
  lemma RestoreNeverReplaces(s: State, op: Op, published: bool)
    requires op.Restore?
    ensures forall ref :: ref in s.store.secrets ==>
              ref in Step(s, op, published).store.secrets && Step(s, op, published).store.secrets[ref] == s.store.secrets[ref]
  {}

  /** Decommission, anything but a restore, then restore: the entry comes back with the same
      version and plaintexts, KV history included. */
  lemma DecommissionRoundTrip(s: State, down: Op, turns: seq<Turn>, up: Op)
    requires Sound(s) && AllProper(turns)
    requires down.Decommission? && up.Restore? && up.ref == down.ref
    requires Decommissioned(s, down).Some?
    requires NeverRestored(Step(s, down, true), turns, down.ref)
    requires RestoredStore(Run(Step(s, down, true), turns), up).Some?
    ensures var t := Step(Run(Step(s, down, true), turns), up, true);
            down.ref in s.store.secrets && down.ref in t.store.secrets
            && ViewEntry(t.key, t.store.secrets[down.ref]) == ViewEntry(s.key, s.store.secrets[down.ref])
  {
    var ref, s1 := down.ref, Step(s, down, true);
    StepKeepsSound(s, down, true);
    assert Standing(s1, ref) && s1.store.tombstones[ref].entry == s.store.secrets[ref] && s1.key == s.key;
    TombstoneStands(s1, turns, ref);
    hide Run, NeverRestored, ViewEntry, Sound;
  }

  // ---------- what resolution reads after each operation ----------

  /** The operation applies to a rotation ledger of this ref. */
  predicate RotatesRef(s: State, op: Op, ref: Ref) {
    op.Rotation? && op.ref == ref && ref in s.store.secrets && op.audited
  }

  /** The value to which an operation that is carried out sets a ref: the one written or merged, the
      staged one that is activated, the retained one that is rolled back to, the one restored. */
  function SetBy(s: State, op: Op, ref: Ref): Option<string> {
    match op
    case PlainWrite(r, plain, _, _) => if r == ref then Some(plain) else None
    case KVWrite(r, edit, cas, _, _) =>
      var current := if ref in s.store.secrets then KV.LocalState(s.store.secrets[ref]).current else 0;
      if r != ref || (cas.Some? && cas.value != current) then None
      else if edit.Put? then Some(edit.plain)
      else if ref in s.store.secrets && KV.Read(s.key, s.store.secrets[ref], 0).Ok? then
        Some(edit.merge(KV.Read(s.key, s.store.secrets[ref], 0).value))
      else None
    case Rotation(_, request, _, _) =>
      if !RotatesRef(s, op, ref) || ref !in s.store.ledgers then None
      else
        var l, active := s.store.ledgers[ref], s.store.secrets[ref].metadata.version;
        (match request
         case Activate(id, expected) =>
           if expected == active && id in l.staged then Decrypt(s.key, l.staged[id].payload) else None
         case Rollback(id, operation) =>
           var wanted := if id == "" then l.previousId else id;
           if wanted in l.retained && wanted != active && !(operation == l.rollbackOperation && active == l.rollbackVersion)
           then Decrypt(s.key, l.retained[wanted].payload) else None
         case _ => None)
    case Restore(r, _, expected, audited) =>
      if r == ref && audited && ref in s.store.tombstones && ref !in s.store.secrets
         && s.store.tombstones[ref].state == TombstoneState.Decommissioned && s.store.tombstones[ref].version == expected
      then Decrypt(s.key, s.store.tombstones[ref].entry.payload) else None
    case _ => None
  }

  /** The operation takes the ref out of use. */
  predicate RemovedBy(s: State, op: Op, ref: Ref) {
    && op.Decommission? && op.ref == ref && op.planValid && op.audited
    && ref in s.store.secrets && s.store.secrets[ref].metadata.version == op.expected
    && !(ref in s.store.tombstones && s.store.tombstones[ref].state == TombstoneState.Decommissioned)
  }

  lemma KVWriteResolves(s: State, op: Op, ref: Ref)
    requires Sound(s) && op.KVWrite?
    ensures Resolve(Step(s, op, true), ref) == if SetBy(s, op, ref).Some? then SetBy(s, op, ref) else Resolve(s, ref)
  {
    var existing := Lookup(s.store.secrets, op.ref);
    assert existing.Some? ==> EntryOk(s.key, existing.value);
    KV.WriteMeans(s.key, existing, op.edit, op.cas, op.now, op.version);
    hide Sound, KV.Write, KV.WellFormed, KV.Read, KV.LocalState, Decrypt;
  }

  lemma RotationResolves(s: State, op: Op, ref: Ref)
    requires Sound(s) && Proper(op) && op.Rotation?
    ensures Resolve(Step(s, op, true), ref) == if SetBy(s, op, ref).Some? then SetBy(s, op, ref) else Resolve(s, ref)
  {
    if op.ref in s.store.secrets {
      RotationKeepsSound(s, op);
      SlotIsOk(s, op.ref);
      SlotResolves(SlotOf(s.store, op.ref), s.key, op);
      RotatedEntry(s, op);
    } else {
      NoRotation(s, op);
    }
    hide Sound, LedgerOk, EntryOk, RL.Apply, Decrypt, Step;
  }

  lemma NoRotation(s: State, op: Op)
    requires op.Rotation? && op.ref !in s.store.secrets
    ensures Step(s, op, true) == s
  {}

  lemma RotatedEntry(s: State, op: Op)
    requires op.Rotation? && op.ref in s.store.secrets && Filed(SlotOf(s.store, op.ref).ledger.retained)
    ensures var slot' := RL.Apply(SlotOf(s.store, op.ref), s.key, op.request, op.audited, op.now).0;
            var s' := Step(s, op, true);
            s'.key == s.key && s'.store.secrets == s.store.secrets[op.ref := slot'.entry]
  {
    hide RL.Apply, Filed;
  }

  lemma SlotIsOk(s: State, ref: Ref)
    requires Sound(s) && ref in s.store.secrets
    ensures SlotOk(s.key, SlotOf(s.store, ref))
  {
    hide EntryOk;
  }

  /** The plaintext of the active entry after a request, by the request and the ledger. */
  lemma SlotResolves(slot: RL.Slot, key: Key, op: Op)
    requires op.Rotation? && SlotOk(key, slot)
    ensures var slot' := RL.Apply(slot, key, op.request, op.audited, op.now).0;
            var l, active := slot.ledger, slot.entry.metadata.version;
            Decrypt(key, slot'.entry.payload) ==
            match op.request
            case Activate(id, expected) =>
              if op.audited && expected == active && id in l.staged then Decrypt(key, l.staged[id].payload)
              else Decrypt(key, slot.entry.payload)
            case Rollback(id, operation) =>
              var wanted := if id == "" then l.previousId else id;
              if op.audited && wanted in l.retained && wanted != active && !(operation == l.rollbackOperation && active == l.rollbackVersion)
              then Decrypt(key, l.retained[wanted].payload) else Decrypt(key, slot.entry.payload)
            case _ => Decrypt(key, slot.entry.payload)
    ensures LedgerReadable(key, slot.ledger)
  {
    match op.request {
      case Activate(_, _) => RL.ActivateAnswer(slot, op.request, op.audited, op.now);
      case Rollback(_, _) => RL.RollbackAnswer(slot, op.request, op.audited, op.now);
      case _ => EntryStays(slot, key, op.request, op.audited, op.now);
    }
    hide RL.StageVersion, RL.ActivateVersion, RL.RollbackVersion, RL.RetireVersion, KV.WellFormed, Decrypt, Filed;
  }

  /** Staging and retiring leave the active entry alone. */
  lemma EntryStays(slot: RL.Slot, key: Key, r: RL.Request, audited: bool, now: int)
    requires Filed(slot.ledger.retained)
    ensures r.Stage? || r.Retire? ==> RL.Apply(slot, key, r, audited, now).0.entry == slot.entry
  {
    hide RL.PreviousAmong, Trimmed;
  }

  lemma RekeyResolves(s: State, op: Op, ref: Ref)
    requires Sound(s) && op.RotateKey?
    ensures Resolve(Step(s, op, true), ref) == Resolve(s, ref)
  {
    SoundIsReadable(s);
    if ref in s.store.secrets {
      assert EntryOk(s.key, s.store.secrets[ref]);
      RekeyEntryKeepsView(s.key, op.newKey, s.store.secrets[ref], op.now);
    }
    hide Sound, Readable, KV.WellFormed, RekeyEntry, RekeyLedger;
  }

  /** Resolution after one operation: unchanged if nothing was published; otherwise the value that
      the operation set, nothing if it took the ref out of use, and what it was in all other cases. */
  lemma StepResolves(s: State, turn: Turn, ref: Ref)
    requires Sound(s) && Proper(turn.op)
    ensures var after := Resolve(Step(s, turn.op, turn.published), ref);
            after == if !turn.published then Resolve(s, ref)
                     else if SetBy(s, turn.op, ref).Some? then SetBy(s, turn.op, ref)
                     else if RemovedBy(s, turn.op, ref) then None
                     else Resolve(s, ref)
  {
    if turn.published {
      match turn.op {
        case KVWrite(_, _, _, _, _) => KVWriteResolves(s, turn.op, ref);
        case Rotation(_, _, _, _) => RotationResolves(s, turn.op, ref);
        case RotateKey(_, _) => RekeyResolves(s, turn.op, ref);
        case KVMutate(_, _, _, _) => MutateResolves(s, turn.op, ref);
        case PlainWrite(_, _, _, _) => PlainResolves(s, turn.op, ref);
        case _ => MovesResolve(s, turn.op, ref);
      }
    }
    hide Sound, SetBy, Step, Resolve;
    assert !turn.op.Decommission? ==> !RemovedBy(s, turn.op, ref);
  }

  lemma PlainResolves(s: State, op: Op, ref: Ref)
    requires op.PlainWrite?
    ensures Resolve(Step(s, op, true), ref) == if op.ref == ref then Some(op.plain) else Resolve(s, ref)
    ensures SetBy(s, op, ref) == if op.ref == ref then Some(op.plain) else None
  {}

  lemma MutateResolves(s: State, op: Op, ref: Ref)
    requires op.KVMutate?
    ensures Resolve(Step(s, op, true), ref) == Resolve(s, ref) && SetBy(s, op, ref) == None
  {
    hide KV.Marked, KV.Selected;
  }

  lemma MovesResolve(s: State, op: Op, ref: Ref)
    requires Sound(s) && (op.Decommission? || op.Restore?)
    ensures Resolve(Step(s, op, true), ref) ==
            if SetBy(s, op, ref).Some? then SetBy(s, op, ref) else if RemovedBy(s, op, ref) then None else Resolve(s, ref)
  {
    if ref in s.store.tombstones {
      assert EntryOk(s.key, s.store.tombstones[ref].entry);
    }
    hide Sound;
  }

  /** The operation of a turn sets the ref or takes it out of use. */
  ghost predicate Touches(s: State, turn: Turn, ref: Ref) {
    turn.published && (SetBy(s, turn.op, ref).Some? || RemovedBy(s, turn.op, ref))
  }

  /** Over any run, with key rotations and operations on other refs in between, a ref resolves to the
      value that the last published operation on it set. */
  lemma {:induction false} LastSetWins(s: State, turns: seq<Turn>, i: nat, ref: Ref)
    requires Sound(s) && AllProper(turns) && i < |turns|
    requires turns[i].published && SetBy(Run(s, turns[..i]), turns[i].op, ref).Some?
    requires forall j :: i < j < |turns| ==> !Touches(Run(s, turns[..j]), turns[j], ref)
    ensures Resolve(Run(s, turns), ref) == SetBy(Run(s, turns[..i]), turns[i].op, ref)
    decreases |turns|
  {
    hide Sound, Step, Proper, SetBy, RemovedBy, Resolve;
    var n := |turns| - 1;
    var init := turns[..n];
    EveryRunIsSound(s, init);
    StepResolves(Run(s, init), turns[n], ref);
    if i < n {
      assert forall j :: 0 <= j < n ==> init[..j] == turns[..j] && init[j] == turns[j];
      LastSetWins(s, init, i, ref);
      assert !Touches(Run(s, init), turns[n], ref);
    }
  }

  // ---------- staged values ----------

  function StagedValue(s: State, ref: Ref, id: string): Option<string> {
    if ref in s.store.ledgers && id in s.store.ledgers[ref].staged then Decrypt(s.key, s.store.ledgers[ref].staged[id].payload)
    else None
  }

  /** The operation activates this version. */
  predicate Activates(s: State, turn: Turn, ref: Ref, id: string) {
    turn.published && RotatesRef(s, turn.op, ref) && turn.op.request.Activate? && turn.op.request.versionId == id
  }

  lemma RotationKeepsStaged(s: State, op: Op, ref: Ref, id: string)
    requires Sound(s) && Proper(op) && op.Rotation?
    requires StagedValue(s, ref, id).Some? && !Activates(s, Turn(op, true), ref, id)
    ensures StagedValue(Step(s, op, true), ref, id) == StagedValue(s, ref, id)
  {
    if op.ref in s.store.secrets {
      RotationKeepsSound(s, op);
      SlotKeepsStaged(SlotOf(s.store, op.ref), s.key, op.request, op.audited, op.now);
    }
    hide Sound, LedgerOk, KV.WellFormed, RL.Apply, Decrypt;
  }

  lemma SlotKeepsStaged(slot: RL.Slot, key: Key, r: RL.Request, audited: bool, now: int)
    requires Filed(slot.ledger.retained)
    ensures var staged := RL.Apply(slot, key, r, audited, now).0.ledger.staged;
            forall id :: id in slot.ledger.staged && !(r.Activate? && audited && r.versionId == id) ==>
              id in staged && staged[id] == slot.ledger.staged[id]
  {
    match r {
      case Stage(_, _, _) => RL.StageAnswer(slot, key, r, audited, now);
      case Activate(_, _) => RL.ActivateAnswer(slot, r, audited, now);
      case Rollback(_, _) => RL.RollbackAnswer(slot, r, audited, now);
      case Retire(_, _) => RetireKeepsStaged(slot, r, audited);
    }
    hide RL.StageVersion, RL.ActivateVersion, RL.RollbackVersion, RL.RetireVersion, Filed;
  }

  lemma RetireKeepsStaged(slot: RL.Slot, r: RL.Request, audited: bool)
    requires r.Retire? && Filed(slot.ledger.retained)
    ensures RL.RetireVersion(slot, r, audited).0.ledger.staged == slot.ledger.staged
  {
    hide RL.PreviousAmong, Trimmed;
  }

  lemma RekeyKeepsStaged(s: State, op: Op, ref: Ref, id: string)
    requires Sound(s) && op.RotateKey? && StagedValue(s, ref, id).Some?
    ensures StagedValue(Step(s, op, true), ref, id) == StagedValue(s, ref, id)
  {
    SoundIsReadable(s);
    hide Sound, Readable, KV.WellFormed, RekeyEntry;
  }

  /** A staged value stays what it is until it is activated, whatever else runs. */
  lemma StepKeepsStaged(s: State, turn: Turn, ref: Ref, id: string)
    requires Sound(s) && Proper(turn.op) && StagedValue(s, ref, id).Some? && !Activates(s, turn, ref, id)
    ensures StagedValue(Step(s, turn.op, turn.published), ref, id) == StagedValue(s, ref, id)
  {
    if turn.published && turn.op.Rotation? {
      RotationKeepsStaged(s, turn.op, ref, id);
    } else if turn.published && turn.op.RotateKey? {
      RekeyKeepsStaged(s, turn.op, ref, id);
    }
    hide Sound, KV.Write, KV.Mutate, RL.Apply, Rekeyed, Readable;
  }

  /** Staging a version that is not staged yet stages the value that was sent. */
  lemma StageMeans(s: State, op: Op, ref: Ref)
    requires Sound(s) && Proper(op) && RotatesRef(s, op, ref) && op.request.Stage? && StagedValue(s, ref, op.request.versionId) == None
    ensures var active := s.store.secrets[ref].metadata.version;
            op.request.expected in {"", active} ==>
              StagedValue(Step(s, op, true), ref, op.request.versionId) == Some(op.request.plain)
  {
    RotationKeepsSound(s, op);
    if ref in s.store.ledgers {
      assert LedgerOk(s.key, s.store.ledgers[ref]);
    }
    hide Sound, KV.WellFormed;
  }

  lemma {:induction false} RunKeepsStaged(s: State, turns: seq<Turn>, ref: Ref, id: string)
    requires Sound(s) && AllProper(turns) && StagedValue(s, ref, id).Some?
    requires forall j :: 0 <= j < |turns| ==> !Activates(Run(s, turns[..j]), turns[j], ref, id)
    ensures StagedValue(Run(s, turns), ref, id) == StagedValue(s, ref, id)
  {
    hide Sound, Step, Proper, StagedValue, Activates;
    if turns != [] {
      var n := |turns| - 1;
      var init := turns[..n];
      assert forall j :: 0 <= j < n ==> init[..j] == turns[..j] && init[j] == turns[j];
      RunKeepsStaged(s, init, ref, id);
      EveryRunIsSound(s, init);
      StepKeepsStaged(Run(s, init), turns[n], ref, id);
    }
  }

  /** A value that was staged resolves once its version is activated, however much ran in between. */
  lemma StagedThenActivated(s: State, stage: Op, turns: seq<Turn>, ref: Ref, now: int)
    requires Sound(s) && Proper(stage) && AllProper(turns)
    requires RotatesRef(s, stage, ref) && stage.request.Stage? && stage.request.expected == ""
    requires StagedValue(s, ref, stage.request.versionId) == None
    requires var s1 := Step(s, stage, true);
             && ref in Run(s1, turns).store.secrets
             && forall j :: 0 <= j < |turns| ==> !Activates(Run(s1, turns[..j]), turns[j], ref, stage.request.versionId)
    ensures var t := Run(Step(s, stage, true), turns);
            var activate := RL.Activate(stage.request.versionId, t.store.secrets[ref].metadata.version);
            Resolve(Step(t, Rotation(ref, activate, true, now), true), ref) == Some(stage.request.plain)
  {
    StageMeans(s, stage, ref);
    StepKeepsSound(s, stage, true);
    var s1 := Step(s, stage, true);
    hide Step, Sound;
    RunKeepsStaged(s1, turns, ref, stage.request.versionId);
    EveryRunIsSound(s1, turns);
    var t := Run(s1, turns);
    RotationResolves(t, Rotation(ref, RL.Activate(stage.request.versionId, t.store.secrets[ref].metadata.version), true, now), ref);
    hide Run;
  }
}
