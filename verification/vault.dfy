/** The local store: secrets with their KV histories, tombstones, rotation ledgers and
    receipts, and the re-encryption of all of it under a new master key.

    Encryption is symbolic: a sealed payload opens under the key that sealed it and under no
    other, and a key ID names one key. */
module Vault {
  import opened Results

  type Key = string
  type Ref = string

  datatype KeyId = NoKeyId | IdOf(key: Key)

  // ---------- payloads ----------

  datatype Payload = Empty | Sealed(key: Key, plain: string) | Garbled(bytes: string)

  function Encrypt(key: Key, plain: string): Payload {
    Sealed(key, plain)
  }

  function Decrypt(key: Key, p: Payload): Option<string> {
    if p.Sealed? && p.key == key then Some(p.plain) else None
  }

  // ---------- the store ----------

  datatype Metadata = Metadata(version: string, createdAt: int, updatedAt: int)

  datatype KVRecord = KVRecord(version: int, createdAt: int, deleted: bool, destroyed: bool, payload: Payload)

  datatype KVState = KVState(current: int, versions: seq<KVRecord>)

  datatype Entry = Entry(metadata: Metadata, payload: Payload, kv: Option<KVState>)

  datatype TombstoneState = Decommissioned | Restored

  datatype Tombstone = Tombstone(state: TombstoneState, version: string, decommissionId: string, restoreId: string, entry: Entry)

  datatype StoredVersion = StoredVersion(
    versionId: string, metadata: Metadata, payload: Payload, stagedAt: Option<int>, retainedAt: Option<int>)

  datatype Ledger = Ledger(
    activeId: string, previousId: string, rollbackOperation: string, rollbackVersion: string,
    staged: map<string, StoredVersion>, retained: map<string, StoredVersion>)

  datatype Receipt = Receipt(rotation: bool, expectedKeyId: KeyId, oldKeyId: KeyId, newKeyId: KeyId)

  datatype Store = Store(
    keyId: KeyId, secrets: map<Ref, Entry>, tombstones: map<Ref, Tombstone>, ledgers: map<Ref, Ledger>,
    receipts: map<string, Receipt>)

  // ---------- every payload in it ----------

  /** A destroyed version may have lost its payload; everything else must open. */
  predicate RecordReadable(key: Key, r: KVRecord) {
    (r.destroyed && r.payload == Empty) || Decrypt(key, r.payload).Some?
  }

  predicate RecordsReadable(key: Key, records: seq<KVRecord>) {
    forall i :: 0 <= i < |records| ==> RecordReadable(key, records[i])
  }

  predicate EntryReadable(key: Key, e: Entry) {
    Decrypt(key, e.payload).Some? && (e.kv.Some? ==> RecordsReadable(key, e.kv.value.versions))
  }

  predicate VersionsReadable(key: Key, m: map<string, StoredVersion>) {
    forall id :: id in m ==> Decrypt(key, m[id].payload).Some?
  }

  predicate LedgerReadable(key: Key, l: Ledger) {
    VersionsReadable(key, l.staged) && VersionsReadable(key, l.retained)
  }

  predicate Readable(key: Key, s: Store) {
    && (forall ref :: ref in s.secrets ==> EntryReadable(key, s.secrets[ref]))
    && (forall ref :: ref in s.tombstones ==> EntryReadable(key, s.tombstones[ref].entry))
    && (forall ref :: ref in s.ledgers ==> LedgerReadable(key, s.ledgers[ref]))
  }

  // ---------- what it says: the same store with plaintexts for payloads ----------

  datatype RecordView = RecordView(version: int, createdAt: int, deleted: bool, destroyed: bool, plain: Option<string>)

  datatype EntryView = EntryView(version: string, createdAt: int, plain: Option<string>, kv: Option<(int, seq<RecordView>)>)

  datatype VersionView = VersionView(
    versionId: string, metadata: Metadata, plain: Option<string>, stagedAt: Option<int>, retainedAt: Option<int>)

  datatype LedgerView = LedgerView(ledger: Ledger, staged: map<string, VersionView>, retained: map<string, VersionView>)

  datatype TombstoneView = TombstoneView(
    state: TombstoneState, version: string, decommissionId: string, restoreId: string, entry: EntryView)

  datatype StoreView = StoreView(
    secrets: map<Ref, EntryView>, tombstones: map<Ref, TombstoneView>, ledgers: map<Ref, LedgerView>)

  function ViewRecord(key: Key, r: KVRecord): RecordView {
    RecordView(r.version, r.createdAt, r.deleted, r.destroyed, Decrypt(key, r.payload))
  }

  function ViewRecords(key: Key, records: seq<KVRecord>): (v: seq<RecordView>)
    ensures |v| == |records| && forall i :: 0 <= i < |v| ==> v[i] == ViewRecord(key, records[i])
  {
    seq(|records|, i requires 0 <= i < |records| => ViewRecord(key, records[i]))
  }

  function ViewEntry(key: Key, e: Entry): EntryView {
    EntryView(e.metadata.version, e.metadata.createdAt, Decrypt(key, e.payload),
              if e.kv.Some? then Some((e.kv.value.current, ViewRecords(key, e.kv.value.versions))) else None)
  }

  function ViewVersion(key: Key, v: StoredVersion): VersionView {
    VersionView(v.versionId, v.metadata, Decrypt(key, v.payload), v.stagedAt, v.retainedAt)
  }

  function ViewVersions(key: Key, m: map<string, StoredVersion>): map<string, VersionView> {
    map id | id in m :: ViewVersion(key, m[id])
  }

  function ViewLedger(key: Key, l: Ledger): LedgerView {
    LedgerView(l.(staged := map[], retained := map[]), ViewVersions(key, l.staged), ViewVersions(key, l.retained))
  }

  function ViewTombstone(key: Key, t: Tombstone): TombstoneView {
    TombstoneView(t.state, t.version, t.decommissionId, t.restoreId, ViewEntry(key, t.entry))
  }

  function View(key: Key, s: Store): StoreView {
    StoreView(map ref | ref in s.secrets :: ViewEntry(key, s.secrets[ref]),
              map ref | ref in s.tombstones :: ViewTombstone(key, s.tombstones[ref]),
              map ref | ref in s.ledgers :: ViewLedger(key, s.ledgers[ref]))
  }

  // ---------- re-encryption ----------

  function RekeyPayload(oldKey: Key, newKey: Key, p: Payload): Payload {
    match Decrypt(oldKey, p)
    case Some(plain) => Encrypt(newKey, plain)
    case None => p
  }

  function RekeyRecord(oldKey: Key, newKey: Key, r: KVRecord): KVRecord {
    if r.destroyed && r.payload == Empty then r else r.(payload := RekeyPayload(oldKey, newKey, r.payload))
  }

  function RekeyRecords(oldKey: Key, newKey: Key, records: seq<KVRecord>): (rs: seq<KVRecord>)
    ensures |rs| == |records| && forall i :: 0 <= i < |rs| ==> rs[i] == RekeyRecord(oldKey, newKey, records[i])
  {
    seq(|records|, i requires 0 <= i < |records| => RekeyRecord(oldKey, newKey, records[i]))
  }

  function RekeyEntry(oldKey: Key, newKey: Key, e: Entry): Entry {
    e.(payload := RekeyPayload(oldKey, newKey, e.payload),
       kv := if e.kv.Some? then Some(e.kv.value.(versions := RekeyRecords(oldKey, newKey, e.kv.value.versions))) else None)
  }

  function RekeyVersions(oldKey: Key, newKey: Key, m: map<string, StoredVersion>): map<string, StoredVersion> {
    map id | id in m :: m[id].(payload := RekeyPayload(oldKey, newKey, m[id].payload))
  }

  function RekeyLedger(oldKey: Key, newKey: Key, l: Ledger): Ledger {
    l.(staged := RekeyVersions(oldKey, newKey, l.staged), retained := RekeyVersions(oldKey, newKey, l.retained))
  }

  function Touch(e: Entry, now: int): Entry {
    e.(metadata := e.metadata.(updatedAt := now))
  }

  /** The whole store under a new key, as a rotation stages it before publishing. */
  function Rekeyed(oldKey: Key, newKey: Key, s: Store, now: int): Store {
    s.(keyId := IdOf(newKey),
       secrets := map ref | ref in s.secrets :: Touch(RekeyEntry(oldKey, newKey, s.secrets[ref]), now),
       tombstones := map ref | ref in s.tombstones ::
                       s.tombstones[ref].(entry := Touch(RekeyEntry(oldKey, newKey, s.tombstones[ref].entry), now)),
       ledgers := map ref | ref in s.ledgers :: RekeyLedger(oldKey, newKey, s.ledgers[ref]))
  }

  // ---------- it preserves meaning ----------

  lemma RekeyRecordsKeepsView(oldKey: Key, newKey: Key, records: seq<KVRecord>)
    requires RecordsReadable(oldKey, records)
    ensures RecordsReadable(newKey, RekeyRecords(oldKey, newKey, records))
    ensures ViewRecords(newKey, RekeyRecords(oldKey, newKey, records)) == ViewRecords(oldKey, records)
  {}

  lemma RekeyEntryKeepsView(oldKey: Key, newKey: Key, e: Entry, now: int)
    requires EntryReadable(oldKey, e)
    ensures EntryReadable(newKey, Touch(RekeyEntry(oldKey, newKey, e), now))
    ensures ViewEntry(newKey, Touch(RekeyEntry(oldKey, newKey, e), now)) == ViewEntry(oldKey, e)
  {
    if e.kv.Some? {
      RekeyRecordsKeepsView(oldKey, newKey, e.kv.value.versions);
    }
  }

  lemma RekeyLedgerKeepsView(oldKey: Key, newKey: Key, l: Ledger)
    requires LedgerReadable(oldKey, l)
    ensures LedgerReadable(newKey, RekeyLedger(oldKey, newKey, l))
    ensures ViewLedger(newKey, RekeyLedger(oldKey, newKey, l)) == ViewLedger(oldKey, l)
  {}

  /** Every payload of secrets, KV histories, tombstones, staged and retained versions opens
      under the new key to the plaintext it had under the old one, and nothing else changes. */
  lemma RekeyPreservesMeaning(oldKey: Key, newKey: Key, s: Store, now: int)
    requires Readable(oldKey, s)
    ensures Readable(newKey, Rekeyed(oldKey, newKey, s, now))
    ensures View(newKey, Rekeyed(oldKey, newKey, s, now)) == View(oldKey, s)
    ensures Rekeyed(oldKey, newKey, s, now).receipts == s.receipts
  {
    hide EntryReadable, LedgerReadable, ViewEntry, ViewLedger, RekeyEntry, RekeyLedger, Touch;
    forall ref | ref in s.secrets
      ensures EntryReadable(newKey, Touch(RekeyEntry(oldKey, newKey, s.secrets[ref]), now))
      ensures ViewEntry(newKey, Touch(RekeyEntry(oldKey, newKey, s.secrets[ref]), now)) == ViewEntry(oldKey, s.secrets[ref])
    {
      RekeyEntryKeepsView(oldKey, newKey, s.secrets[ref], now);
    }
    forall ref | ref in s.tombstones
      ensures EntryReadable(newKey, Touch(RekeyEntry(oldKey, newKey, s.tombstones[ref].entry), now))
      ensures ViewEntry(newKey, Touch(RekeyEntry(oldKey, newKey, s.tombstones[ref].entry), now)) == ViewEntry(oldKey, s.tombstones[ref].entry)
    {
      RekeyEntryKeepsView(oldKey, newKey, s.tombstones[ref].entry, now);
    }
    forall ref | ref in s.ledgers
      ensures LedgerReadable(newKey, RekeyLedger(oldKey, newKey, s.ledgers[ref]))
      ensures ViewLedger(newKey, RekeyLedger(oldKey, newKey, s.ledgers[ref])) == ViewLedger(oldKey, s.ledgers[ref])
    {
      RekeyLedgerKeepsView(oldKey, newKey, s.ledgers[ref]);
    }
  }

  // ---------- the in-place walk ----------

  method RekeyOnePayload(oldKey: Key, newKey: Key, p: Payload) returns (r: Option<Payload>)
    ensures r.Some? <==> Decrypt(oldKey, p).Some?
    ensures r.Some? ==> r.value == RekeyPayload(oldKey, newKey, p)
  {
    match Decrypt(oldKey, p) {
      case Some(plain) => r := Some(Encrypt(newKey, plain));
      case None => r := None;
    }
  }

  /** The entry's own payload, then its KV versions by index. */
  method RekeyOneEntry(oldKey: Key, newKey: Key, e: Entry) returns (r: Option<Entry>)
    ensures r.Some? <==> EntryReadable(oldKey, e)
    ensures r.Some? ==> r.value == RekeyEntry(oldKey, newKey, e)
  {
    var payload := RekeyOnePayload(oldKey, newKey, e.payload);
    if payload.None? {
      return None;
    }
    var entry := e.(payload := payload.value);
    if e.kv.Some? {
      var versions := e.kv.value.versions;
      for i := 0 to |versions|
        invariant |versions| == |e.kv.value.versions|
        invariant forall j :: 0 <= j < i ==> RecordReadable(oldKey, e.kv.value.versions[j])
        invariant forall j :: 0 <= j < i ==> versions[j] == RekeyRecord(oldKey, newKey, e.kv.value.versions[j])
        invariant forall j :: i <= j < |versions| ==> versions[j] == e.kv.value.versions[j]
      {
        if !(versions[i].destroyed && versions[i].payload == Empty) {
          var p := RekeyOnePayload(oldKey, newKey, versions[i].payload);
          if p.None? {
            return None;
          }
          versions := versions[i := versions[i].(payload := p.value)];
        }
      }
      assert versions == RekeyRecords(oldKey, newKey, e.kv.value.versions);
      entry := entry.(kv := Some(e.kv.value.(versions := versions)));
    }
    return Some(entry);
  }

  method RekeyOneVersionMap(oldKey: Key, newKey: Key, m: map<string, StoredVersion>) returns (r: Option<map<string, StoredVersion>>)
    ensures r.Some? <==> VersionsReadable(oldKey, m)
    ensures r.Some? ==> r.value == RekeyVersions(oldKey, newKey, m)
  {
    var out, rest := m, m.Keys;
    while rest != {}
      invariant rest <= m.Keys == out.Keys
      invariant forall id :: id in m && id !in rest ==> Decrypt(oldKey, m[id].payload).Some?
      invariant forall id :: id in m ==>
                  out[id] == if id in rest then m[id] else m[id].(payload := RekeyPayload(oldKey, newKey, m[id].payload))
    {
      var id :| id in rest;
      rest := rest - {id};
      var p := RekeyOnePayload(oldKey, newKey, out[id].payload);
      if p.None? {
        return None;
      }
      out := out[id := out[id].(payload := p.value)];
    }
    return Some(out);
  }

  method RekeySecrets(oldKey: Key, newKey: Key, m: map<Ref, Entry>) returns (r: Option<map<Ref, Entry>>)
    ensures r.Some? <==> forall ref :: ref in m ==> EntryReadable(oldKey, m[ref])
    ensures r.Some? ==> r.value == map ref | ref in m :: RekeyEntry(oldKey, newKey, m[ref])
  {
    hide EntryReadable, RekeyEntry;
    var out, rest := m, m.Keys;
    while rest != {}
      invariant rest <= m.Keys == out.Keys
      invariant forall ref :: ref in m && ref !in rest ==> EntryReadable(oldKey, m[ref])
      invariant forall ref :: ref in m ==> out[ref] == if ref in rest then m[ref] else RekeyEntry(oldKey, newKey, m[ref])
    {
      var ref :| ref in rest;
      rest := rest - {ref};
      var e := RekeyOneEntry(oldKey, newKey, out[ref]);
      if e.None? {
        return None;
      }
      out := out[ref := e.value];
    }
    return Some(out);
  }

  method RekeyTombstones(oldKey: Key, newKey: Key, m: map<Ref, Tombstone>) returns (r: Option<map<Ref, Tombstone>>)
    ensures r.Some? <==> forall ref :: ref in m ==> EntryReadable(oldKey, m[ref].entry)
    ensures r.Some? ==> r.value == map ref | ref in m :: m[ref].(entry := RekeyEntry(oldKey, newKey, m[ref].entry))
  {
    hide EntryReadable, RekeyEntry;
    var out, rest := m, m.Keys;
    while rest != {}
      invariant rest <= m.Keys == out.Keys
      invariant forall ref :: ref in m && ref !in rest ==> EntryReadable(oldKey, m[ref].entry)
      invariant forall ref :: ref in m ==>
                  out[ref] == if ref in rest then m[ref] else m[ref].(entry := RekeyEntry(oldKey, newKey, m[ref].entry))
    {
      var ref :| ref in rest;
      rest := rest - {ref};
      var e := RekeyOneEntry(oldKey, newKey, out[ref].entry);
      if e.None? {
        return None;
      }
      out := out[ref := out[ref].(entry := e.value)];
    }
    return Some(out);
  }

  method RekeyLedgers(oldKey: Key, newKey: Key, m: map<Ref, Ledger>) returns (r: Option<map<Ref, Ledger>>)
    ensures r.Some? <==> forall ref :: ref in m ==> LedgerReadable(oldKey, m[ref])
    ensures r.Some? ==> r.value == map ref | ref in m :: RekeyLedger(oldKey, newKey, m[ref])
  {
    hide VersionsReadable, RekeyVersions;
    var out, rest := m, m.Keys;
    while rest != {}
      invariant rest <= m.Keys == out.Keys
      invariant forall ref :: ref in m && ref !in rest ==> LedgerReadable(oldKey, m[ref])
      invariant forall ref :: ref in m ==> out[ref] == if ref in rest then m[ref] else RekeyLedger(oldKey, newKey, m[ref])
    {
      var ref :| ref in rest;
      rest := rest - {ref};
      var ledger := out[ref];
      var staged := RekeyOneVersionMap(oldKey, newKey, ledger.staged);
      if staged.None? {
        return None;
      }
      var retained := RekeyOneVersionMap(oldKey, newKey, ledger.retained);
      if retained.None? {
        return None;
      }
      out := out[ref := ledger.(staged := staged.value, retained := retained.value)];
    }
    return Some(out);
  }

  /** The whole walk: it fails at the first payload that does not open. */
  method RekeyStore(oldKey: Key, newKey: Key, s: Store, now: int) returns (r: Option<Store>)
    ensures r.Some? <==> Readable(oldKey, s)
    ensures r.Some? ==> r.value == Rekeyed(oldKey, newKey, s, now)
  {
    hide EntryReadable, LedgerReadable, RekeyEntry, RekeyLedger;
    var secrets := RekeySecrets(oldKey, newKey, s.secrets);
    if secrets.None? {
      return None;
    }
    var tombstones := RekeyTombstones(oldKey, newKey, s.tombstones);
    if tombstones.None? {
      return None;
    }
    var ledgers := RekeyLedgers(oldKey, newKey, s.ledgers);
    if ledgers.None? {
      return None;
    }
    var touchedSecrets := map ref | ref in secrets.value :: Touch(secrets.value[ref], now);
    var touchedTombstones := map ref | ref in tombstones.value :: tombstones.value[ref].(entry := Touch(tombstones.value[ref].entry, now));
    return Some(s.(keyId := IdOf(newKey), secrets := touchedSecrets, tombstones := touchedTombstones, ledgers := ledgers.value));
  }
}
