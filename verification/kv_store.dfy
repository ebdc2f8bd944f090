/** Versioned key-value access to one secret: writes with check-and-set, patches, soft
    deletion and a window of the newest ten versions. Values are plaintexts. */
module KVStore {
  import opened Results
  import opened Vault

  const MAX_VERSIONS := 10

  datatype Error = Conflict | Deleted | NotFound | Undecryptable

  /** The history of an entry; one that was never written through KV counts as version 1. */
  function LocalState(e: Entry): KVState {
    if e.kv.Some? && e.kv.value.versions != [] then e.kv.value
    else if e.payload == Empty then KVState(0, [])
    else KVState(1, [KVRecord(1, e.metadata.createdAt, false, false, e.payload)])
  }

  function Find(records: seq<KVRecord>, version: int): Option<KVRecord> {
    if records == [] then None
    else if records[0].version == version then Some(records[0])
    else Find(records[1..], version)
  }

  /** The record of a version and its plaintext; version 0 or less means the current one. */
  function ReadVersion(key: Key, e: Entry, version: int): Result<(KVRecord, string), Error> {
    var state := LocalState(e);
    var wanted := if version <= 0 then state.current else version;
    match Find(state.versions, wanted)
    case Some(record) =>
      (match Decrypt(key, record.payload)
       case Some(plain) => Ok((record, plain))
       case None => Err(Undecryptable))
    case None =>
      if wanted == 1 || (wanted == 0 && state.current <= 1) then
        match Decrypt(key, e.payload)
        case Some(plain) => Ok((KVRecord(1, e.metadata.createdAt, false, false, e.payload), plain))
        case None => Err(Undecryptable)
      else Err(NotFound)
  }

  function Read(key: Key, e: Entry, version: int): Result<string, Error> {
    match ReadVersion(key, e, version)
    case Err(error) => Err(error)
    case Ok((record, plain)) => if record.deleted || record.destroyed then Err(Deleted) else Ok(plain)
  }

  function KeepNewest(records: seq<KVRecord>): seq<KVRecord> {
    if |records| > MAX_VERSIONS then records[|records| - MAX_VERSIONS..] else records
  }

  /** The history after a write. The source also has a branch that seeds version 1 from an
      entry without history; `HistoryIsNeverMissing` shows that it cannot be taken. */
  function AppendVersion(existing: Option<Entry>, payload: Payload, now: int, cas: Option<int>): Result<KVState, Error> {
    match existing
    case None =>
      if cas.Some? && cas.value != 0 then Err(Conflict)
      else Ok(KVState(1, [KVRecord(1, now, false, false, payload)]))
    case Some(e) =>
      var state := LocalState(e);
      if cas.Some? && cas.value != state.current then Err(Conflict)
      else Ok(KVState(state.current + 1,
                      KeepNewest(state.versions + [KVRecord(state.current + 1, now, false, false, payload)])))
  }

  lemma HistoryIsNeverMissing(e: Entry)
    ensures !(LocalState(e).versions == [] && e.payload != Empty)
  {}

  /** A write replaces the value; a patch computes the new value from the current one. */
  datatype Edit = Put(plain: string) | Patch(merge: string -> string)

  function NewPlaintext(key: Key, existing: Option<Entry>, edit: Edit): Result<string, Error> {
    match edit
    case Put(plain) => Ok(plain)
    case Patch(merge) =>
      if existing.None? then Err(NotFound)
      else match Read(key, existing.value, 0)
        case Ok(current) => Ok(merge(current))
        case Err(error) => Err(error)
  }

  function Write(key: Key, existing: Option<Entry>, edit: Edit, cas: Option<int>, now: int, version: string): Result<Entry, Error> {
    match NewPlaintext(key, existing, edit)
    case Err(error) => Err(error)
    case Ok(plain) =>
      var payload := Encrypt(key, plain);
      match AppendVersion(existing, payload, now, cas)
      case Err(error) => Err(error)
      case Ok(kv) =>
        var createdAt := if existing.Some? then existing.value.metadata.createdAt else now;
        Ok(Entry(Metadata(version, createdAt, now), payload, Some(kv)))
  }

  predicate Selected(versions: seq<int>, state: KVState, record: KVRecord) {
    record.version in (if versions == [] then [state.current] else versions)
  }

  function Marked(records: seq<KVRecord>, versions: seq<int>, state: KVState, undelete: bool): (rs: seq<KVRecord>)
    ensures |rs| == |records|
    ensures forall i :: 0 <= i < |rs| ==>
              rs[i] == if Selected(versions, state, records[i]) then records[i].(deleted := !undelete) else records[i]
  {
    seq(|records|, i requires 0 <= i < |records| =>
      if Selected(versions, state, records[i]) then records[i].(deleted := !undelete) else records[i])
  }

  function Mutate(e: Entry, versions: seq<int>, undelete: bool, now: int): Result<Entry, Error> {
    var state := LocalState(e);
    if forall i :: 0 <= i < |state.versions| ==> !Selected(versions, state, state.versions[i]) then Err(NotFound)
    else
      Ok(Entry(e.metadata.(updatedAt := now), e.payload,
               Some(state.(versions := Marked(state.versions, versions, state, undelete)))))
  }

  /** The loop that marks the selected versions and counts them. */
  method MutateVersions(e: Entry, versions: seq<int>, undelete: bool, now: int) returns (r: Result<Entry, Error>)
    ensures r == Mutate(e, versions, undelete, now)
  {
    var state := LocalState(e);
    var selected := if |versions| == 0 then [state.current] else versions;
    var records, found := state.versions, 0;
    for i := 0 to |records|
      invariant |records| == |state.versions|
      invariant forall j :: 0 <= j < i ==> records[j] == Marked(state.versions, versions, state, undelete)[j]
      invariant forall j :: i <= j < |records| ==> records[j] == state.versions[j]
      invariant found > 0 <==> exists j :: 0 <= j < i && Selected(versions, state, state.versions[j])
    {
      if records[i].version in selected {
        found := found + 1;
        if undelete {
          records := records[i := records[i].(deleted := false)];
        } else if !records[i].deleted {
          records := records[i := records[i].(deleted := true)];
        }
      }
    }
    if found == 0 {
      return Err(NotFound);
    }
    assert records == Marked(state.versions, versions, state, undelete);
    return Ok(Entry(e.metadata.(updatedAt := now), e.payload, Some(state.(versions := records))));
  }

  // ---------- the shape of a history ----------

  /** A run of at most ten consecutive versions from 1 up, ending at the current one, whose
      last payload says what the entry's own payload says. */
  predicate WellFormed(key: Key, e: Entry) {
    && EntryReadable(key, e)
    && (e.kv.Some? ==> ShapeOk(e.kv.value) && SameAsLast(key, e))
  }

  predicate ShapeOk(s: KVState) {
    && 1 <= |s.versions| <= MAX_VERSIONS && |s.versions| <= s.current
    && (forall i :: 0 <= i < |s.versions| ==>
          s.versions[i].version == s.current - |s.versions| + 1 + i
          && !s.versions[i].destroyed)
  }

  predicate SameAsLast(key: Key, e: Entry)
    requires e.kv.Some? && e.kv.value.versions != []
  {
    Decrypt(key, e.kv.value.versions[|e.kv.value.versions| - 1].payload) == Decrypt(key, e.payload)
  }

  lemma LocalStateOk(key: Key, e: Entry)
    requires WellFormed(key, e)
    ensures ShapeOk(LocalState(e)) && RecordsReadable(key, LocalState(e).versions)
    ensures var vs := LocalState(e).versions; Decrypt(key, vs[|vs| - 1].payload) == Decrypt(key, e.payload)
  {}

  /** Plain resolution reads what the highest-numbered version reads. */
  lemma ResolveReadsCurrent(key: Key, e: Entry)
    requires WellFormed(key, e)
    ensures Decrypt(key, e.payload).Some?
    ensures ReadVersion(key, e, LocalState(e).current).Ok?
    ensures ReadVersion(key, e, LocalState(e).current).value.1 == Decrypt(key, e.payload).value
    ensures forall i :: 0 <= i < |LocalState(e).versions| ==> LocalState(e).versions[i].version <= LocalState(e).current
  {
    LocalStateOk(key, e);
    var vs := LocalState(e).versions;
    FindInRun(vs, LocalState(e).current, |vs| - 1);
  }

  lemma {:induction false} FindInRun(records: seq<KVRecord>, current: int, k: nat)
    requires k < |records|
    requires forall i :: 0 <= i < |records| ==> records[i].version == current - |records| + 1 + i
    ensures Find(records, records[k].version) == Some(records[k])
    decreases k
  {
    if k > 0 {
      FindInRun(records[1..], current, k - 1);
    }
  }

  lemma {:induction false} FindOutside(records: seq<KVRecord>, version: int)
    requires forall i :: 0 <= i < |records| ==> records[i].version != version
    ensures Find(records, version) == None
  {
    if records != [] {
      FindOutside(records[1..], version);
    }
  }

  /** The window after one more version: the newest ten of what was there and the new one. */
  lemma AppendKeepsShape(key: Key, state: KVState, record: KVRecord)
    requires ShapeOk(state) && RecordsReadable(key, state.versions)
    requires record.version == state.current + 1 && !record.destroyed && Decrypt(key, record.payload).Some?
    ensures var vs := KeepNewest(state.versions + [record]);
            && ShapeOk(KVState(state.current + 1, vs)) && RecordsReadable(key, vs)
            && |vs| == (if |state.versions| < MAX_VERSIONS then |state.versions| + 1 else MAX_VERSIONS)
            && vs[|vs| - 1] == record
            && (forall i :: 0 <= i < |vs| - 1 ==> vs[i] == state.versions[i + (|state.versions| + 1 - |vs|)])
  {
    hide Decrypt;
    var all := state.versions + [record];
    assert forall i :: 0 <= i < |all| ==> RecordReadable(key, all[i]);
  }

  lemma WriteKeepsWellFormed(key: Key, existing: Option<Entry>, edit: Edit, cas: Option<int>, now: int, version: string)
    requires existing.Some? ==> WellFormed(key, existing.value)
    ensures var r := Write(key, existing, edit, cas, now, version); r.Ok? ==> WellFormed(key, r.value)
  {
    hide NewPlaintext, KeepNewest;
    if existing.Some? && NewPlaintext(key, existing, edit).Ok? {
      var state, payload := LocalState(existing.value), Encrypt(key, NewPlaintext(key, existing, edit).value);
      LocalStateOk(key, existing.value);
      AppendKeepsShape(key, state, KVRecord(state.current + 1, now, false, false, payload));
    }
  }

  lemma MutateKeepsWellFormed(key: Key, e: Entry, versions: seq<int>, undelete: bool, now: int)
    requires WellFormed(key, e)
    ensures var r := Mutate(e, versions, undelete, now); r.Ok? ==> WellFormed(key, r.value)
  {
    LocalStateOk(key, e);
    hide Selected;
  }

  lemma RekeyKeepsWellFormed(oldKey: Key, newKey: Key, e: Entry, now: int)
    requires WellFormed(oldKey, e)
    ensures WellFormed(newKey, Touch(RekeyEntry(oldKey, newKey, e), now))
  {
    RekeyEntryKeepsView(oldKey, newKey, e, now);
  }

  // ---------- what a write achieves ----------

  /** A write is accepted exactly when its check-and-set value, if any, is the current version, and a
      patch finds a value to change; then the value sent, or the merge into the value read before,
      is what the entry and the new current version hold. */
  lemma WriteMeans(key: Key, existing: Option<Entry>, edit: Edit, cas: Option<int>, now: int, version: string)
    requires existing.Some? ==> WellFormed(key, existing.value)
    ensures var r := Write(key, existing, edit, cas, now, version);
            var current := if existing.None? then 0 else LocalState(existing.value).current;
            && (r.Ok? <==>
                && (cas == None || cas.value == current)
                && (edit.Patch? ==> existing.Some? && Read(key, existing.value, 0).Ok?))
            && (r.Ok? ==>
                  var e := r.value;
                  var sent := if edit.Put? then edit.plain else edit.merge(Read(key, existing.value, 0).value);
                  && Decrypt(key, e.payload) == Some(sent)
                  && LocalState(e).current == current + 1
                  && Read(key, e, 0) == Read(key, e, current + 1) == Ok(sent)
                  && e.metadata == Metadata(version, if existing.Some? then existing.value.metadata.createdAt else now, now))
            && (r.Err? ==>
                  r.error == if edit.Put? then Conflict
                             else if existing.None? then NotFound
                             else if Read(key, existing.value, 0).Err? then Read(key, existing.value, 0).error
                             else Conflict)
  {
    var r := Write(key, existing, edit, cas, now, version);
    if r.Ok? {
      WriteKeepsWellFormed(key, existing, edit, cas, now, version);
      LastIsRead(key, r.value);
      LastIsAppended(key, existing, edit, cas, now, version);
    }
    hide ReadVersion, WellFormed, KeepNewest;
  }

  /** The newest record of a well-formed entry is what its current version reads. */
  lemma LastIsRead(key: Key, e: Entry)
    requires WellFormed(key, e)
    ensures var state := LocalState(e);
            && state.versions != [] && state.current > 0
            && var last := state.versions[|state.versions| - 1];
               Read(key, e, 0) == Read(key, e, state.current)
               && (Decrypt(key, e.payload).Some? && !last.deleted ==> Read(key, e, 0) == Ok(Decrypt(key, e.payload).value))
  {
    LocalStateOk(key, e);
    var state := LocalState(e);
    FindInRun(state.versions, state.current, |state.versions| - 1);
  }

  lemma LastIsAppended(key: Key, existing: Option<Entry>, edit: Edit, cas: Option<int>, now: int, version: string)
    requires existing.Some? ==> WellFormed(key, existing.value)
    requires Write(key, existing, edit, cas, now, version).Ok?
    ensures var e := Write(key, existing, edit, cas, now, version).value;
            var state := LocalState(e);
            var current := if existing.None? then 0 else LocalState(existing.value).current;
            && state.versions != [] && state.current == current + 1
            && state.versions[|state.versions| - 1] == KVRecord(current + 1, now, false, false, e.payload)
  {
    hide NewPlaintext, WellFormed;
  }

  // ---------- runs of KV operations on one path ----------

  datatype Op =
    | WriteOp(edit: Edit, cas: Option<int>, now: int, version: string)
    | MutateOp(versions: seq<int>, undelete: bool, at: int)
    | RekeyOp(newKey: Key, when: int)

  /** What a write means to store: the value sent, or the merge into the last value stored. */
  function Sent(log: seq<string>, edit: Edit): string {
    match edit
    case Put(plain) => plain
    case Patch(merge) => if log == [] then "" else merge(log[|log| - 1])
  }

  /** The entry, the master key, and what every accepted write meant to store, in order. */
  datatype State = State(entry: Option<Entry>, key: Key, log: seq<string>)

  function Step(s: State, op: Op): State {
    match op
    case WriteOp(edit, cas, now, version) =>
      (match Write(s.key, s.entry, edit, cas, now, version)
       case Ok(e) => s.(entry := Some(e), log := s.log + [Sent(s.log, edit)])
       case Err(_) => s)
    case MutateOp(versions, undelete, at) =>
      if s.entry.None? then s
      else (match Mutate(s.entry.value, versions, undelete, at)
            case Ok(e) => s.(entry := Some(e))
            case Err(_) => s)
    case RekeyOp(newKey, when) =>
      s.(key := newKey, entry := if s.entry.Some? then Some(Touch(RekeyEntry(s.key, newKey, s.entry.value), when)) else None)
  }

  /** An absent path, or an entry that was never written through KV and counts as version 1. */
  predicate Starts(s: State) {
    match s.entry
    case None => s.log == []
    case Some(e) => e.kv.None? && |s.log| == 1 && Decrypt(s.key, e.payload) == Some(s.log[0])
  }

  function Run(start: State, ops: seq<Op>): State {
    if ops == [] then start else Step(Run(start, ops[..|ops| - 1]), ops[|ops| - 1])
  }

  predicate Accepted(s: State, op: Op) {
    op.WriteOp? && Write(s.key, s.entry, op.edit, op.cas, op.now, op.version).Ok?
  }

  /** The current version is the number of accepted writes, counting a plain one before them; the
      kept versions are the newest ones, and each holds the plaintext of the write that made it. */
  ghost predicate Logged(s: State) {
    match s.entry
    case None => s.log == []
    case Some(e) => WellFormed(s.key, e) && HistoryLogged(s.key, LocalState(e), s.log)
  }

  ghost predicate HistoryLogged(key: Key, state: KVState, log: seq<string>) {
    && ShapeOk(state)
    && state.current == |log|
    && |state.versions| == (if |log| < MAX_VERSIONS then |log| else MAX_VERSIONS)
    && forall i :: 0 <= i < |state.versions| ==>
         Decrypt(key, state.versions[i].payload) == Some(log[state.versions[i].version - 1])
  }

  lemma AppendKeepsLogged(key: Key, state: KVState, log: seq<string>, record: KVRecord, plain: string)
    requires HistoryLogged(key, state, log) && RecordsReadable(key, state.versions)
    requires record.version == state.current + 1 && !record.destroyed && Decrypt(key, record.payload) == Some(plain)
    ensures HistoryLogged(key, KVState(state.current + 1, KeepNewest(state.versions + [record])), log + [plain])
  {
    hide KeepNewest, Decrypt;
    AppendKeepsShape(key, state, record);
    var vs := KeepNewest(state.versions + [record]);
    var longer := log + [plain];
    forall i | 0 <= i < |vs|
      ensures Decrypt(key, vs[i].payload) == Some(longer[vs[i].version - 1])
    {
      if i < |vs| - 1 {
        assert vs[i] == state.versions[i + (|state.versions| + 1 - |vs|)];
      }
    }
  }

  lemma SentIsNew(s: State, edit: Edit)
    requires Logged(s)
    ensures var plain := NewPlaintext(s.key, s.entry, edit); plain.Ok? ==> plain.value == Sent(s.log, edit)
  {
    if edit.Patch? && s.entry.Some? {
      ReadsIff(s, 0);
      LogOfEntry(s);
      KeptReadsBack(s, |s.log|);
    }
    hide Logged, ReadVersion;
  }

  lemma WriteKeepsLogged(s: State, edit: Edit, cas: Option<int>, now: int, version: string)
    requires Logged(s)
    ensures Logged(Step(s, WriteOp(edit, cas, now, version)))
  {
    SentIsNew(s, edit);
    WriteKeepsWellFormed(s.key, s.entry, edit, cas, now, version);
    var written := Write(s.key, s.entry, edit, cas, now, version);
    if written.Ok? {
      WrittenHistory(s, edit, cas, now, version);
    }
    hide NewPlaintext, Write, WellFormed, Sent, HistoryLogged, LocalState;
  }

  lemma WrittenHistory(s: State, edit: Edit, cas: Option<int>, now: int, version: string)
    requires Logged(s) && Write(s.key, s.entry, edit, cas, now, version).Ok?
    ensures NewPlaintext(s.key, s.entry, edit).Ok?
    ensures var e := Write(s.key, s.entry, edit, cas, now, version).value;
            HistoryLogged(s.key, LocalState(e), s.log + [NewPlaintext(s.key, s.entry, edit).value])
  {
    hide NewPlaintext, KeepNewest, WellFormed, HistoryLogged;
    var plain := NewPlaintext(s.key, s.entry, edit).value;
    var payload := Encrypt(s.key, plain);
    if s.entry.None? {
      FirstIsLogged(s.key, KVRecord(1, now, false, false, payload), plain);
      assert s.log + [plain] == [plain];
    } else {
      LocalStateOk(s.key, s.entry.value);
      var state := LocalState(s.entry.value);
      AppendKeepsLogged(s.key, state, s.log, KVRecord(state.current + 1, now, false, false, payload), plain);
      NewestIsKept(state, KVRecord(state.current + 1, now, false, false, payload));
    }
  }

  lemma FirstIsLogged(key: Key, record: KVRecord, plain: string)
    requires record.version == 1 && !record.destroyed && Decrypt(key, record.payload) == Some(plain)
    ensures HistoryLogged(key, KVState(1, [record]), [plain])
  {}

  lemma NewestIsKept(state: KVState, record: KVRecord)
    ensures KeepNewest(state.versions + [record]) != []
  {}

  lemma MutateKeepsLogged(s: State, versions: seq<int>, undelete: bool, at: int)
    requires Logged(s)
    ensures Logged(Step(s, MutateOp(versions, undelete, at)))
  {
    if s.entry.Some? {
      MutateKeepsWellFormed(s.key, s.entry.value, versions, undelete, at);
      MarkedIsLogged(s.key, LocalState(s.entry.value), s.log, versions, undelete);
    }
    hide Selected, WellFormed, HistoryLogged, Marked;
  }

  lemma MarkedIsLogged(key: Key, state: KVState, log: seq<string>, versions: seq<int>, undelete: bool)
    requires HistoryLogged(key, state, log)
    ensures HistoryLogged(key, state.(versions := Marked(state.versions, versions, state, undelete)), log)
    ensures log != [] ==> Marked(state.versions, versions, state, undelete) != []
  {
    hide Selected, Decrypt;
  }

  /** Re-encryption keeps the history record by record. */
  lemma RekeyedHistory(oldKey: Key, newKey: Key, e: Entry, when: int)
    requires WellFormed(oldKey, e)
    ensures var s, s' := LocalState(e), LocalState(Touch(RekeyEntry(oldKey, newKey, e), when));
            && s'.current == s.current && |s'.versions| == |s.versions|
            && forall i :: 0 <= i < |s.versions| ==>
                 && s'.versions[i].version == s.versions[i].version
                 && Decrypt(newKey, s'.versions[i].payload) == Decrypt(oldKey, s.versions[i].payload)
  {
    RekeyEntryKeepsView(oldKey, newKey, e, when);
    var e' := Touch(RekeyEntry(oldKey, newKey, e), when);
    if e.kv.Some? {
      var before, after := e.kv.value.versions, e'.kv.value.versions;
      assert |after| == |before| == |ViewRecords(newKey, after)|;
      assert forall i :: 0 <= i < |before| ==> ViewRecord(newKey, after[i]) == ViewRecord(oldKey, before[i]);
    }
    hide RekeyEntry;
  }

  lemma RekeyKeepsLogged(s: State, newKey: Key, when: int)
    requires Logged(s)
    ensures Logged(Step(s, RekeyOp(newKey, when)))
  {
    if s.entry.Some? {
      var e := s.entry.value;
      var e' := Touch(RekeyEntry(s.key, newKey, e), when);
      RekeyKeepsWellFormed(s.key, newKey, e, when);
      RekeyedHistory(s.key, newKey, e, when);
      LocalStateOk(newKey, e');
    }
    hide RekeyEntry, WellFormed, LocalState, Decrypt, Touch;
  }

  lemma StepKeepsLogged(s: State, op: Op)
    requires Logged(s)
    ensures Logged(Step(s, op))
  {
    hide Logged, Step;
    match op {
      case WriteOp(edit, cas, now, version) =>
        WriteKeepsLogged(s, edit, cas, now, version);
      case MutateOp(versions, undelete, at) =>
        MutateKeepsLogged(s, versions, undelete, at);
      case RekeyOp(newKey, when) =>
        RekeyKeepsLogged(s, newKey, when);
    }
  }

  lemma {:induction false} EveryRunIsLogged(start: State, ops: seq<Op>)
    requires Starts(start)
    ensures Logged(Run(start, ops))
  {
    if ops != [] {
      EveryRunIsLogged(start, ops[..|ops| - 1]);
      StepKeepsLogged(Run(start, ops[..|ops| - 1]), ops[|ops| - 1]);
      hide Logged, Step;
    }
  }

  /** Whether a version lies in the window that is kept. */
  predicate Kept(s: State, version: int) {
    |s.log| - MAX_VERSIONS < version <= |s.log| && 1 <= version
  }

  /** The window: the ten newest versions. */
  lemma KeptIff(s: State, version: int)
    requires Logged(s) && s.entry.Some?
    ensures Kept(s, version) <==> 1 <= version <= |s.log| < version + 10
    ensures Kept(s, version) <==> exists i :: 0 <= i < |LocalState(s.entry.value).versions| && LocalState(s.entry.value).versions[i].version == version
  {
    var vs := LocalState(s.entry.value).versions;
    if Kept(s, version) {
      assert vs[version - (|s.log| - |vs| + 1)].version == version;
    }
    hide WellFormed;
  }

  /** A kept version that is not deleted reads back the plaintext of its own write. */
  lemma KeptReadsBack(s: State, version: int)
    requires Logged(s) && s.entry.Some? && Kept(s, version)
    ensures var e := s.entry.value;
            ReadVersion(s.key, e, version).Ok?
            && ReadVersion(s.key, e, version).value.1 == s.log[version - 1]
            && (ReadVersion(s.key, e, version).value.0.deleted || Read(s.key, e, version) == Ok(s.log[version - 1]))
  {
    var vs := LocalState(s.entry.value).versions;
    FindInRun(vs, |s.log|, version - (|s.log| - |vs| + 1));
  }

  /** A version that left the window is reported as not found, unless it is version 1, which
      then reads as the current value. */
  lemma EvictedIsNotFoundIff(s: State, version: int)
    requires Logged(s) && s.entry.Some? && 1 <= version && !Kept(s, version)
    ensures Read(s.key, s.entry.value, version) == Err(NotFound) <==> version != 1
    ensures version == 1 ==> Read(s.key, s.entry.value, version) == Ok(s.log[|s.log| - 1])
  {
    var vs := LocalState(s.entry.value).versions;
    FindOutside(vs, version);
  }

  // ---------- what a deletion hides ----------

  predicate IsDeleted(s: State, version: int)
    requires s.entry.Some?
  {
    Find(LocalState(s.entry.value).versions, version).Some? && Find(LocalState(s.entry.value).versions, version).value.deleted
  }

  /** Nothing can be read exactly when every kept version is deleted and version 1 is still kept:
      once that has left the window, asking for it reads the current value, deleted or not. */
  lemma NothingReadsIff(s: State)
    requires Logged(s) && s.entry.Some?
    ensures (forall version :: Read(s.key, s.entry.value, version).Err?) <==>
            |s.log| <= MAX_VERSIONS && forall version :: Kept(s, version) ==> IsDeleted(s, version)
  {
    hide Logged, IsDeleted, Read;
    LogOfEntry(s);
    assert Kept(s, |s.log|) && (|s.log| <= MAX_VERSIONS ==> Kept(s, 1));
    forall version
      ensures Read(s.key, s.entry.value, version).Err? <==>
              if version <= 0 then IsDeleted(s, |s.log|)
              else if Kept(s, version) then IsDeleted(s, version)
              else version != 1
    {
      ReadsIff(s, version);
    }
    if forall version :: Read(s.key, s.entry.value, version).Err? {
      assert Read(s.key, s.entry.value, 1).Err?;
      forall version | Kept(s, version)
        ensures IsDeleted(s, version)
      {
        assert Read(s.key, s.entry.value, version).Err?;
      }
    }
  }

  lemma LogOfEntry(s: State)
    requires Logged(s) && s.entry.Some?
    ensures |s.log| >= 1
  {}

  lemma ReadsIff(s: State, version: int)
    requires Logged(s) && s.entry.Some?
    ensures Read(s.key, s.entry.value, version).Err? <==>
            if version <= 0 then IsDeleted(s, |s.log|)
            else if Kept(s, version) then IsDeleted(s, version)
            else version != 1
    ensures version <= 0 ==> Read(s.key, s.entry.value, version) == Read(s.key, s.entry.value, |s.log|)
  {
    var state := LocalState(s.entry.value);
    var wanted := if version <= 0 then |s.log| else version;
    if Kept(s, wanted) {
      FindInRun(state.versions, |s.log|, wanted - (|s.log| - |state.versions| + 1));
      KeptReadsBack(s, wanted);
    } else {
      EvictedIsNotFoundIff(s, wanted);
    }
  }

  /** Deleting the current version, as a delete without version numbers does, hides it from every
      read of the current version; but after ten more writes version 1 still reads it. */
  lemma DeleteHidesCurrent(s: State, at: int)
    requires Logged(s) && s.entry.Some?
    ensures var s' := Step(s, MutateOp([], false, at));
            && s'.entry.Some? && s'.log == s.log
            && Read(s'.key, s'.entry.value, 0) == Err(Deleted)
            && Read(s'.key, s'.entry.value, |s.log|) == Err(Deleted)
            && (|s.log| > MAX_VERSIONS ==> Read(s'.key, s'.entry.value, 1) == Ok(s.log[|s.log| - 1]))
  {
    var s' := Step(s, MutateOp([], false, at));
    MutateKeepsLogged(s, [], false, at);
    LogOfEntry(s);
    DeleteMarksCurrent(s, at);
    hide Logged, Read, IsDeleted, Step;
    DeletedReads(s', |s.log|);
    ReadsIff(s', 0);
    if |s.log| > MAX_VERSIONS {
      EvictedIsNotFoundIff(s', 1);
    }
  }

  lemma DeletedReads(s: State, version: int)
    requires Logged(s) && s.entry.Some? && Kept(s, version) && IsDeleted(s, version)
    ensures Read(s.key, s.entry.value, version) == Err(Deleted)
  {
    KeptReadsBack(s, version);
    hide Logged;
  }

  lemma DeleteMarksCurrent(s: State, at: int)
    requires Logged(s) && s.entry.Some?
    ensures var s' := Step(s, MutateOp([], false, at));
            s'.entry.Some? && s'.key == s.key && s'.log == s.log && IsDeleted(s', |s.log|)
  {
    LogOfEntry(s);
    var state := LocalState(s.entry.value);
    var last := |state.versions| - 1;
    assert Selected([], state, state.versions[last]);
    var marked := Marked(state.versions, [], state, false);
    assert marked[last].deleted;
    FindInRun(marked, |s.log|, last);
    hide WellFormed, Decrypt;
  }

  /** What a delete or undelete changes: exactly the kept versions it names, or the current one if it
      names none, become unreadable or read their own writes again; it is refused exactly when it
      names no kept version. */
  lemma MutateReads(s: State, versions: seq<int>, undelete: bool, at: int, version: int)
    requires Logged(s) && s.entry.Some? && Kept(s, version)
    ensures var s' := Step(s, MutateOp(versions, undelete, at));
            var named := version in versions || (versions == [] && version == |s.log|);
            && s'.entry.Some? && s'.log == s.log
            && (named ==> Read(s'.key, s'.entry.value, version) == if undelete then Ok(s.log[version - 1]) else Err(Deleted))
            && (!named ==> Read(s'.key, s'.entry.value, version) == Read(s.key, s.entry.value, version))
            && (named ==> Mutate(s.entry.value, versions, undelete, at).Ok?)
  {
    var s' := Step(s, MutateOp(versions, undelete, at));
    var state := LocalState(s.entry.value);
    var k := version - (|s.log| - |state.versions| + 1);
    assert state.versions[k].version == version;
    FindInRun(state.versions, |s.log|, k);
    KeptReadsBack(s, version);
    MutateKeepsLogged(s, versions, undelete, at);
    MarkedRecord(s, versions, undelete, at, k);
    KeptReadsBack(s', version);
    hide Logged, WellFormed, Mutate;
  }

  lemma MarkedRecord(s: State, versions: seq<int>, undelete: bool, at: int, k: nat)
    requires Logged(s) && s.entry.Some? && k < |LocalState(s.entry.value).versions|
    ensures var state := LocalState(s.entry.value);
            var s' := Step(s, MutateOp(versions, undelete, at));
            var named := state.versions[k].version in versions || (versions == [] && state.versions[k].version == |s.log|);
            && s'.entry.Some? && s'.log == s.log && s'.key == s.key
            && (named ==> Mutate(s.entry.value, versions, undelete, at).Ok?)
            && var state' := LocalState(s'.entry.value);
               Find(state'.versions, state.versions[k].version) ==
               Some(if named then state.versions[k].(deleted := !undelete) else state.versions[k])
  {
    var state := LocalState(s.entry.value);
    var s' := Step(s, MutateOp(versions, undelete, at));
    var state' := LocalState(s'.entry.value);
    MutateKeepsLogged(s, versions, undelete, at);
    assert Selected(versions, state, state.versions[k]) <==>
           state.versions[k].version in versions || (versions == [] && state.versions[k].version == |s.log|);
    FindInRun(state'.versions, |s.log|, k);
    hide WellFormed, Decrypt, EntryReadable;
  }

  lemma MutateRefusedIff(s: State, versions: seq<int>, undelete: bool, at: int)
    requires Logged(s) && s.entry.Some?
    ensures Mutate(s.entry.value, versions, undelete, at).Err? <==>
            versions != [] && forall version :: version in versions ==> !Kept(s, version)
  {
    LogOfEntry(s);
    var state := LocalState(s.entry.value);
    var last := |state.versions| - 1;
    assert state.versions[last].version == |s.log|;
    if versions == [] {
      assert Selected(versions, state, state.versions[last]);
    } else {
      forall version | version in versions && Kept(s, version)
        ensures exists i :: 0 <= i < |state.versions| && Selected(versions, state, state.versions[i])
      {
        var k := version - (|s.log| - |state.versions| + 1);
        assert state.versions[k].version == version && Selected(versions, state, state.versions[k]);
      }
      forall i | 0 <= i < |state.versions| && Selected(versions, state, state.versions[i])
        ensures state.versions[i].version in versions && Kept(s, state.versions[i].version)
      {}
    }
  }

  function Puts(n: nat): seq<Op> {
    if n == 0 then [] else Puts(n - 1) + [WriteOp(Put("secret"), None, 0, "v")]
  }

  lemma RunNext(start: State, ops: seq<Op>, op: Op)
    ensures Run(start, ops + [op]) == Step(Run(start, ops), op)
  {
    hide Step;
    assert (ops + [op])[..|ops|] == ops;
  }

  lemma {:induction false} PutsAreLogged(key: Key, n: nat)
    ensures var s := Run(State(None, key, []), Puts(n));
            |s.log| == n && (s.entry.Some? <==> n > 0) && (n > 0 ==> s.log[n - 1] == "secret")
  {
    hide Step, Logged;
    if n > 0 {
      hide Run;
      var start := State(None, key, []);
      PutsAreLogged(key, n - 1);
      EveryRunIsLogged(start, Puts(n - 1));
      PutIsAccepted(Run(start, Puts(n - 1)));
      RunNext(start, Puts(n - 1), WriteOp(Put("secret"), None, 0, "v"));
    }
  }

  lemma PutIsAccepted(s: State)
    requires Logged(s)
    ensures var s' := Step(s, WriteOp(Put("secret"), None, 0, "v"));
            s'.entry.Some? && s'.log == s.log + ["secret"]
  {
    WriteMeans(s.key, s.entry, Put("secret"), None, 0, "v");
    hide Write, LocalState, Read, WellFormed;
  }

  lemma {:induction false} PutsLength(n: nat)
    ensures |Puts(n)| == n
  {
    if n > 0 {
      PutsLength(n - 1);
    }
  }

  /** Eleven writes and a delete, from an absent path: the deleted secret reads back as version 1. */
  lemma DeletedButReadable(key: Key)
    ensures var s := Run(State(None, key, []), Puts(11) + [MutateOp([], false, 0)]);
            && s.entry.Some?
            && Read(s.key, s.entry.value, 0) == Err(Deleted)
            && Read(s.key, s.entry.value, 1) == Ok("secret")
  {
    var start, ops := State(None, key, []), Puts(11) + [MutateOp([], false, 0)];
    PutsLength(11);
    PutsAreLogged(key, 11);
    EveryRunIsLogged(start, Puts(11));
    assert ops[..11] == Puts(11);
    hide Logged, Puts, Read, Step;
    DeleteHidesCurrent(Run(start, Puts(11)), 0);
  }

  // ---------- check-and-set ----------

  lemma {:induction false} LogGrows(start: State, ops: seq<Op>, n: nat)
    requires n <= |ops|
    ensures |Run(start, ops[..n]).log| <= |Run(start, ops).log|
    decreases |ops|
  {
    if n == |ops| {
      assert ops[..n] == ops;
    } else {
      var m := |ops| - 1;
      LogGrows(start, ops[..m], n);
      assert ops[..m][..n] == ops[..n];
      hide Write, Mutate, NewPlaintext;
    }
  }

  /** Accepted writes that carry a check-and-set value carry strictly growing ones, so each
      value is accepted at most once. */
  lemma CasIsAcceptedOnce(start: State, ops: seq<Op>, i: nat, j: nat)
    requires Starts(start) && i < j < |ops|
    requires Accepted(Run(start, ops[..i]), ops[i]) && Accepted(Run(start, ops[..j]), ops[j])
    requires ops[i].cas.Some? && ops[j].cas.Some?
    ensures ops[i].cas.value < ops[j].cas.value
  {
    var s, t := Run(start, ops[..i]), Run(start, ops[..j]);
    EveryRunIsLogged(start, ops[..i]);
    EveryRunIsLogged(start, ops[..j]);
    CasIsCurrent(s, ops[i]);
    CasIsCurrent(t, ops[j]);
    var after := ops[..i + 1];
    assert after[..i] == ops[..i];
    assert Run(start, after) == Step(s, ops[i]);
    assert ops[..j][..i + 1] == after;
    LogGrows(start, ops[..j], i + 1);
    hide Write, Logged;
  }

  lemma CasIsCurrent(s: State, op: Op)
    requires Logged(s) && Accepted(s, op) && op.cas.Some?
    ensures op.cas.value == |s.log|
    ensures |Step(s, op).log| == |s.log| + 1
  {
    hide NewPlaintext;
  }
}
