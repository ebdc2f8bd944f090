/** The backend that carries out store operations: each loads the store, works on it and
    saves it, under the lock that serialises store changes. */
module LocalBackend {
  import opened Results
  import opened Vault
  import opened VersionOrder
  import opened AtomicFile
  import opened LocalStore
  import KV = KVStore
  import RL = RotationLedger

  datatype Error = KVError(kv: KV.Error) | MissingRef | StalePlan | AuditUnavailable | Degraded

  class Backend {
    var store: Store
    var masterKey: Key

    ghost function Current(): State
      reads this
    {
      State(store, masterKey)
    }

    constructor (key: Key)
      ensures Sound(Current())
    {
      store := Store(NoKeyId, map[], map[], map[], map[]);
      masterKey := key;
    }

    method Save(next: Store, save: SaveResult) returns (r: Result<(), Error>)
      modifies this`store
      ensures store == if WasPublished(save) then next else old(store)
      ensures r == if save == Saved then Ok(()) else Err(Degraded)
    {
      if save != NotPublished {
        store := next;
      }
      return if save == Saved then Ok(()) else Err(Degraded);
    }

    method WriteSecret(ref: Ref, plain: string, version: string, now: int, save: SaveResult) returns (r: Result<(), Error>)
      requires Sound(Current()) && version != ""
      modifies this
      ensures Sound(Current())
      ensures Current() == Step(old(Current()), PlainWrite(ref, plain, version, now), WasPublished(save))
      ensures r.Ok? <==> save == Saved
      ensures save == NotPublished ==> store == old(store)
      ensures save != NotPublished ==>
                && Resolve(Current(), ref) == Some(plain)
                && store.secrets.Keys == old(store).secrets.Keys + {ref}
                && (forall other :: other in old(store).secrets && other != ref ==> store.secrets[other] == old(store).secrets[other])
                && store.secrets[ref].metadata.version == version && store.secrets[ref].metadata.updatedAt == now
                && store.secrets[ref].metadata.createdAt
                   == (if ref in old(store).secrets then old(store).secrets[ref].metadata.createdAt else now)
                && store.secrets[ref].kv == None
                && store.tombstones == old(store).tombstones && store.ledgers == old(store).ledgers
                && store.receipts == old(store).receipts && store.keyId == IdOf(masterKey)
    {
      StepKeepsSound(Current(), PlainWrite(ref, plain, version, now), WasPublished(save));
      hide Sound;
      var keyId := if store.keyId == NoKeyId then IdOf(masterKey) else store.keyId;
      var metadata := Metadata(version, now, now);
      if ref in store.secrets {
        metadata := metadata.(createdAt := store.secrets[ref].metadata.createdAt);
      }
      var payload := Encrypt(masterKey, plain);
      r := Save(store.(keyId := keyId, secrets := store.secrets[ref := Entry(metadata, payload, None)]), save);
    }

    method WriteKVData(ref: Ref, edit: KV.Edit, cas: Option<int>, version: string, now: int, save: SaveResult)
      returns (r: Result<int, Error>)
      requires Sound(Current()) && version != ""
      modifies this
      ensures Sound(Current())
      ensures Current() == Step(old(Current()), KVWrite(ref, edit, cas, version, now), WasPublished(save))
      ensures r.Ok? ==> ref in store.secrets && r.value == KV.LocalState(store.secrets[ref]).current
      ensures var value := SetBy(old(Current()), KVWrite(ref, edit, cas, version, now), ref);
              && (r.Ok? <==> value.Some? && save == Saved)
              && (value.Some? && save != NotPublished ==>
                    ref in store.secrets && Resolve(Current(), ref) == value && KV.Read(masterKey, store.secrets[ref], 0) == Ok(value.value))
              && (edit.Put? && value.Some? ==> value.value == edit.plain)
              && (edit.Put? && cas == None ==> value.Some?)
      ensures forall other :: other != ref ==> Resolve(Current(), other) == Resolve(old(Current()), other)
    {
      KVAnswers(Current(), KVWrite(ref, edit, cas, version, now), WasPublished(save));
      StepKeepsSound(Current(), KVWrite(ref, edit, cas, version, now), WasPublished(save));
      hide Sound, KV.NewPlaintext, KV.AppendVersion, SetBy, Resolve, KV.Read;
      var existing := Lookup(store.secrets, ref);
      var plain := KV.NewPlaintext(masterKey, existing, edit);
      if plain.Err? {
        return Err(KVError(plain.error));
      }
      var payload := Encrypt(masterKey, plain.value);
      var kv := KV.AppendVersion(existing, payload, now, cas);
      if kv.Err? {
        return Err(KVError(kv.error));
      }
      AppendedIsNotEmpty(existing, payload, now, cas);
      var createdAt := if existing.Some? then existing.value.metadata.createdAt else now;
      var entry := Entry(Metadata(version, createdAt, now), payload, Some(kv.value));
      var saved := Save(store.(secrets := store.secrets[ref := entry]), save);
      return if saved.Ok? then Ok(kv.value.current) else Err(Degraded);
    }

    method MutateKV(ref: Ref, versions: seq<int>, undelete: bool, now: int, save: SaveResult) returns (r: Result<(), Error>)
      requires Sound(Current())
      modifies this
      ensures Sound(Current())
      ensures Current() == Step(old(Current()), KVMutate(ref, versions, undelete, now), WasPublished(save))
      ensures r.Ok? <==> ref in old(store).secrets && KV.Mutate(old(store).secrets[ref], versions, undelete, now).Ok? && save == Saved
      ensures forall other :: Resolve(Current(), other) == Resolve(old(Current()), other)
    {
      StepKeepsSound(Current(), KVMutate(ref, versions, undelete, now), WasPublished(save));
      forall other
        ensures Resolve(Step(Current(), KVMutate(ref, versions, undelete, now), WasPublished(save)), other) == Resolve(Current(), other)
      {
        MutateResolves(Current(), KVMutate(ref, versions, undelete, now), other);
      }
      hide Sound, KV.Mutate, Resolve;
      if ref !in store.secrets {
        return Err(KVError(KV.NotFound));
      }
      var entry := KV.MutateVersions(store.secrets[ref], versions, undelete, now);
      if entry.Err? {
        return Err(KVError(entry.error));
      }
      r := Save(store.(secrets := store.secrets[ref := entry.value]), save);
    }

    /** Stage, activate, roll back or retire a version of one ref. */
    method RotateVersion(ref: Ref, request: RL.Request, audited: bool, now: int, save: SaveResult)
      returns (r: Result<RL.Outcome, Error>)
      requires Sound(Current()) && (request.Stage? ==> request.versionId != "")
      modifies this
      ensures Sound(Current())
      ensures Current() == Step(old(Current()), Rotation(ref, request, audited, now), WasPublished(save))
      ensures ref !in old(store).secrets ==> r == Err(MissingRef)
      ensures ref in old(store).secrets && r.Ok? ==>
                && Filed(SlotOf(old(store), ref).ledger.retained)
                && r.value == RL.Apply(SlotOf(old(store), ref), old(masterKey), request, audited, now).1
      ensures forall other :: Resolve(Current(), other) ==
                var value := SetBy(old(Current()), Rotation(ref, request, audited, now), other);
                if value.Some? && save != NotPublished then value else Resolve(old(Current()), other)
    {
      forall other
        ensures Resolve(Step(Current(), Rotation(ref, request, audited, now), WasPublished(save)), other) ==
                var value := SetBy(Current(), Rotation(ref, request, audited, now), other);
                if value.Some? && save != NotPublished then value else Resolve(Current(), other)
      {
        StepResolves(Current(), Turn(Rotation(ref, request, audited, now), WasPublished(save)), other);
      }
      StepKeepsSound(Current(), Rotation(ref, request, audited, now), WasPublished(save));
      if ref !in store.secrets {
        return Err(MissingRef);
      }
      assert Filed(SlotOf(store, ref).ledger.retained) by {
        RotationKeepsSound(Current(), Rotation(ref, request, audited, now));
      }
      hide Sound, Filed, SetBy, Resolve, RL.StageVersion, RL.ActivateVersion, RL.RollbackVersion, RL.RetireVersion;
      var slot := SlotOf(store, ref);
      var slot', outcome := slot, RL.Conflict;
      match request {
        case Stage(_, _, _) =>
          var staged := RL.StageVersion(slot, masterKey, request, audited, now);
          slot', outcome := staged.0, staged.1;
        case Activate(_, _) =>
          var activated := RL.ActivateVersion(slot, request, audited, now);
          slot', outcome := activated.0, activated.1;
        case Rollback(_, _) =>
          var rolledBack := RL.RollbackVersion(slot, request, audited, now);
          slot', outcome := rolledBack.0, rolledBack.1;
        case Retire(_, _) =>
          slot', outcome := RL.RetireLoop(slot, request, audited);
      }
      if slot' == slot {
        return Ok(outcome);
      }
      var next := store.(secrets := store.secrets[ref := slot'.entry], ledgers := store.ledgers[ref := slot'.ledger]);
      var saved := Save(next, save);
      return if saved.Ok? then Ok(outcome) else Err(Degraded);
    }

    method DecommissionSecret(ref: Ref, operation: string, expected: string, planValid: bool, audited: bool, save: SaveResult)
      returns (r: Result<Tombstone, Error>)
      requires Sound(Current())
      modifies this
      ensures Sound(Current())
      ensures Current() == Step(old(Current()), Decommission(ref, operation, expected, planValid, audited), WasPublished(save))
      ensures r.Ok? ==> ref in store.tombstones && r.value == store.tombstones[ref]
      ensures var stands := ref in old(store).tombstones && old(store).tombstones[ref].state == TombstoneState.Decommissioned;
              var ready := planValid && ref in old(store).secrets && old(store).secrets[ref].metadata.version == expected;
              && (r.Ok? <==>
                  if stands then
                    && planValid && audited
                    && old(store).tombstones[ref].decommissionId == operation && old(store).tombstones[ref].version == expected
                  else ready && audited && save == Saved)
              && (r == Err(AuditUnavailable) <==>
                  !audited && if stands then planValid && old(store).tombstones[ref].decommissionId == operation
                                             && old(store).tombstones[ref].version == expected
                              else ready)
              && (r == Err(MissingRef) <==> planValid && !stands && ref !in old(store).secrets)
              && (ref in store.secrets <==> ref in old(store).secrets && !(!stands && ready && audited && save != NotPublished))
              && (!stands && ready && audited && save != NotPublished ==>
                    && store.secrets == old(store).secrets - {ref}
                    && ref in store.tombstones
                    && store.tombstones[ref] == Tombstone(TombstoneState.Decommissioned, expected, operation, "", old(store).secrets[ref]))
    {
      StepKeepsSound(Current(), Decommission(ref, operation, expected, planValid, audited), WasPublished(save));
      hide Sound;
      if !planValid {
        return Err(StalePlan);
      }
      if ref in store.tombstones && store.tombstones[ref].state == TombstoneState.Decommissioned {
        var standing := store.tombstones[ref];
        if standing.decommissionId != operation || standing.version != expected {
          return Err(StalePlan);
        }
        return if audited then Ok(standing) else Err(AuditUnavailable);
      }
      if ref !in store.secrets {
        return Err(MissingRef);
      }
      var entry := store.secrets[ref];
      if entry.metadata.version != expected {
        return Err(StalePlan);
      }
      if !audited {
        return Err(AuditUnavailable);
      }
      var tombstone := Tombstone(TombstoneState.Decommissioned, entry.metadata.version, operation, "", entry);
      var saved := Save(store.(tombstones := store.tombstones[ref := tombstone], secrets := store.secrets - {ref}), save);
      return if saved.Ok? then Ok(tombstone) else Err(Degraded);
    }

    method RestoreSecret(ref: Ref, operation: string, expected: string, audited: bool, save: SaveResult)
      returns (r: Result<Tombstone, Error>)
      requires Sound(Current())
      modifies this
      ensures Sound(Current())
      ensures Current() == Step(old(Current()), Restore(ref, operation, expected, audited), WasPublished(save))
      ensures r.Ok? ==> ref in store.secrets && r.value.state == TombstoneState.Restored
      ensures var named := ref in old(store).tombstones && old(store).tombstones[ref].version == expected;
              var again := named && ref in old(store).secrets && old(store).secrets[ref].metadata.version == expected
                           && old(store).tombstones[ref].state == TombstoneState.Restored && old(store).tombstones[ref].restoreId == operation;
              var ready := named && ref !in old(store).secrets && old(store).tombstones[ref].state == TombstoneState.Decommissioned;
              && (r.Ok? <==> audited && (again || (ready && save == Saved)))
              && (r == Err(AuditUnavailable) <==> !audited && (again || ready))
              && (store != old(store) ==> ready && audited && save != NotPublished)
              && (ready && audited && save != NotPublished ==>
                    && store.secrets == old(store).secrets[ref := old(store).tombstones[ref].entry]
                    && ref in store.tombstones && store.tombstones[ref].state == TombstoneState.Restored
                    && store.tombstones[ref].restoreId == operation)
    {
      StepKeepsSound(Current(), Restore(ref, operation, expected, audited), WasPublished(save));
      hide Sound;
      if ref !in store.tombstones || store.tombstones[ref].version != expected {
        return Err(StalePlan);
      }
      var tombstone := store.tombstones[ref];
      if ref in store.secrets {
        var repeated := tombstone.state == TombstoneState.Restored && tombstone.restoreId == operation
                        && store.secrets[ref].metadata.version == tombstone.version;
        if repeated {
          return if audited then Ok(tombstone) else Err(AuditUnavailable);
        }
        return Err(StalePlan);
      }
      if tombstone.state != TombstoneState.Decommissioned {
        return Err(StalePlan);
      }
      if !audited {
        return Err(AuditUnavailable);
      }
      var restored := tombstone.(state := TombstoneState.Restored, restoreId := operation);
      var saved := Save(store.(secrets := store.secrets[ref := tombstone.entry], tombstones := store.tombstones[ref := restored]), save);
      return if saved.Ok? then Ok(restored) else Err(Degraded);
    }

    /** A key rotation outside the managed protocol. */
    method RotateMasterKey(newKey: Key, now: int, save: SaveResult) returns (r: Result<(), Error>)
      requires Sound(Current())
      modifies this
      ensures Sound(Current())
      ensures Current() == Step(old(Current()), RotateKey(newKey, now), WasPublished(save))
      ensures View(masterKey, store) == View(old(masterKey), old(store))
    {
      StepKeepsSound(Current(), RotateKey(newKey, now), WasPublished(save));
      SoundIsReadable(Current());
      RekeyPreservesMeaning(masterKey, newKey, store, now);
      hide Sound, Rekeyed, Readable, View;
      var staged := RekeyStore(masterKey, newKey, store, now);
      r := Save(staged.value, save);
      if WasPublished(save) {
        masterKey := newKey;
      }
    }
  }

  /** What a KV write answers and leaves, by the value it sets. */
  lemma KVAnswers(s: State, op: Op, published: bool)
    requires Sound(s) && op.KVWrite?
    ensures var value := SetBy(s, op, op.ref);
            var s' := Step(s, op, published);
            && (value.Some? <==> KV.Write(s.key, Lookup(s.store.secrets, op.ref), op.edit, op.cas, op.now, op.version).Ok?)
            && (value.Some? && published ==>
                  op.ref in s'.store.secrets && Resolve(s', op.ref) == value && KV.Read(s'.key, s'.store.secrets[op.ref], 0) == Ok(value.value))
            && (op.edit.Put? && value.Some? ==> value.value == op.edit.plain)
            && (op.edit.Put? && op.cas == None ==> value.Some?)
            && forall other :: other != op.ref ==> Resolve(s', other) == Resolve(s, other)
  {
    var existing := Lookup(s.store.secrets, op.ref);
    assert existing.Some? ==> EntryOk(s.key, existing.value);
    KV.WriteMeans(s.key, existing, op.edit, op.cas, op.now, op.version);
    hide Sound, KV.Write, KV.WellFormed, KV.Read, KV.LocalState, Decrypt;
  }

  lemma AppendedIsNotEmpty(existing: Option<Entry>, payload: Payload, now: int, cas: Option<int>)
    ensures var r := KV.AppendVersion(existing, payload, now, cas); r.Ok? ==> r.value.versions != []
  {}
}
