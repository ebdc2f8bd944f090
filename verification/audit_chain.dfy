/** The audit log: normalisation of records, the hash chain over them, appending and
    verifying. A digest is a term that holds what was hashed, so it is collision free, is
    never empty or "genesis", and passes scrubbing unchanged, as hex text does. */
module AuditChain {
  import opened Results
  import opened AuditText

  datatype Hash = Text(text: string) | RefDigest(ref: string) | EventDigest(event: AuditEvent)

  /** Fields that normalisation only scrubs. */
  datatype Labels = Labels(requestId: string, sourceId: string, policyId: string, keyId: string, state: string)

  datatype AuditEvent = AuditEvent(
    ts: int, labels: Labels, operation: string, serviceId: string, actorKind: string, ref: string, refHash: Hash,
    providerId: string, outcome: string, reasonCode: string, auditStatus: string,
    previousHash: Hash, eventHash: Hash, chainStatus: string)

  const NO_HASH := Text("")
  const GENESIS := Text("genesis")

  function ScrubHash(h: Hash): Hash {
    if h.Text? then Text(Scrub(h.text)) else h
  }

  function ActorKind(serviceId: string): string {
    if Trim(serviceId) == "" then "system"
    else if Trim(serviceId) == "@operator" then "operator"
    else "service"
  }

  function OrElse(value: string, fallback: string): string {
    if value == "" then fallback else value
  }

  predicate NamesProvider(operation: string) {
    "provider_" <= operation
  }

  function ScrubLabels(l: Labels): Labels {
    Labels(Scrub(l.requestId), Scrub(l.sourceId), Scrub(l.policyId), Scrub(l.keyId), Scrub(l.state))
  }

  function Normalize(e: AuditEvent): AuditEvent {
    var operation, outcome := OrElse(Scrub(e.operation), "unknown"), OrElse(Scrub(e.outcome), "degraded");
    var ref, serviceId, providerId := Scrub(e.ref), Scrub(e.serviceId), Scrub(e.providerId);
    AuditEvent(
      e.ts,
      ScrubLabels(e.labels),
      operation,
      serviceId,
      OrElse(Scrub(e.actorKind), ActorKind(serviceId)),
      ref,
      if ref != "" && e.refHash == NO_HASH then RefDigest(ref) else e.refHash,
      if providerId == "" && NamesProvider(operation) && ref != "" then ref else providerId,
      outcome,
      OrElse(Scrub(e.reasonCode), outcome),
      OrElse(Scrub(e.auditStatus), "audit_recorded"),
      ScrubHash(e.previousHash),
      ScrubHash(e.eventHash),
      Scrub(e.chainStatus))
  }

  // ---------- normalisation settles after two passes ----------

  predicate Stable(s: string) {
    Scrub(s) == s
  }

  predicate StableHash(h: Hash) {
    ScrubHash(h) == h
  }

  /** Records on which normalisation does nothing. */
  predicate Settled(e: AuditEvent) {
    && ScrubLabels(e.labels) == e.labels
    && Stable(e.operation) && Stable(e.ref) && Stable(e.outcome) && Stable(e.serviceId) && Stable(e.providerId)
    && Stable(e.reasonCode) && Stable(e.actorKind) && Stable(e.auditStatus) && Stable(e.chainStatus)
    && StableHash(e.previousHash) && StableHash(e.eventHash)
    && e.operation != "" && e.outcome != "" && e.reasonCode != "" && e.actorKind != "" && e.auditStatus != ""
    && (e.ref != "" ==> e.refHash != NO_HASH)
    && (e.providerId == "" ==> !(NamesProvider(e.operation) && e.ref != ""))
  }

  lemma SettledIsFixed(e: AuditEvent)
    requires Settled(e)
    ensures Normalize(e) == e
  {
    hide Scrub, ScrubLabels, ScrubHash, NamesProvider, ActorKind;
  }

  lemma CleanIsStable(word: string)
    requires Clean(word) && |word| <= FIELD_LIMIT
    ensures Stable(word)
  {
    ScrubKeepsClean(word);
    hide Scrub;
  }

  /** A word without blanks or control characters is stable. */
  lemma PlainWord(word: string)
    requires |word| <= FIELD_LIMIT && forall c <- word :: 'A' <= c <= 'z'
    ensures Stable(word)
  {
    hide Stable;
    assert forall i :: 0 <= i < |word| ==> word[i] in word;
    CleanIsStable(word);
  }

  lemma WordsAreStable()
    ensures Stable("unknown") && Stable("degraded") && Stable("audit_recorded") && Stable("")
    ensures Stable("system") && Stable("operator") && Stable("service")
    ensures Stable("chained") && Stable("genesis")
  {
    hide Stable;
    PlainWord("unknown");
    PlainWord("degraded");
    PlainWord("audit_recorded");
    PlainWord("");
    PlainWord("system");
    PlainWord("operator");
    PlainWord("service");
    PlainWord("chained");
    PlainWord("genesis");
  }

  /** What the second pass makes of one field. */
  lemma SecondPass(s: string)
    ensures Stable(Scrub(Scrub(s)))
  {
    ScrubSettles(s);
    hide Scrub;
  }

  lemma SecondPassOfDefault(s: string, fallback: string)
    requires Stable(fallback)
    ensures Stable(Scrub(OrElse(Scrub(s), fallback)))
  {
    SecondPass(s);
    hide Scrub;
  }

  lemma SecondPassOfLabels(l: Labels)
    ensures ScrubLabels(ScrubLabels(ScrubLabels(l))) == ScrubLabels(ScrubLabels(l))
  {
    ScrubSettles(l.requestId);
    ScrubSettles(l.sourceId);
    ScrubSettles(l.policyId);
    ScrubSettles(l.keyId);
    ScrubSettles(l.state);
    hide Scrub;
  }

  lemma SecondPassOfHash(h: Hash)
    ensures StableHash(ScrubHash(ScrubHash(h)))
  {
    if h.Text? {
      SecondPass(h.text);
    }
    hide Scrub;
  }

  lemma ActorKindIsStable(serviceId: string)
    ensures ActorKind(serviceId) != "" && Stable(ActorKind(serviceId))
  {
    WordsAreStable();
    hide Scrub, Trim;
  }

  lemma NormalizeTwiceSettles(e: AuditEvent)
    ensures Settled(Normalize(Normalize(e)))
    ensures Normalize(Normalize(Normalize(e))) == Normalize(Normalize(e))
  {
    hide Scrub, ScrubLabels, ScrubHash, NamesProvider, ActorKind, Stable, StableHash;
    var n := Normalize(e);
    WordsAreStable();
    ActorKindIsStable(n.serviceId);
    ActorKindIsStable(Scrub(n.serviceId));
    SecondPassOfLabels(e.labels);
    SecondPassOfDefault(e.operation, "unknown");
    SecondPassOfDefault(e.outcome, "degraded");
    SecondPassOfDefault(e.auditStatus, "audit_recorded");
    SecondPassOfDefault(e.actorKind, ActorKind(n.serviceId));
    SecondPass(e.ref);
    SecondPass(e.serviceId);
    SecondPass(e.providerId);
    SecondPass(e.reasonCode);
    SecondPass(e.chainStatus);
    SecondPassOfHash(e.previousHash);
    SecondPassOfHash(e.eventHash);
    SettledIsFixed(Normalize(n));
  }

  // ---------- the chain ----------

  predicate NonBlank(h: Hash) {
    h.Text? ==> Trim(h.text) != ""
  }

  function FirstNonEmpty(h: Hash, fallback: Hash): Hash {
    if NonBlank(h) then h else fallback
  }

  /** What a digest covers: everything but itself and the chain status. */
  function Body(e: AuditEvent): AuditEvent {
    e.(eventHash := NO_HASH, chainStatus := "")
  }

  function HashOf(e: AuditEvent): Hash {
    EventDigest(Body(Normalize(e)))
  }

  function PrepareChained(e: AuditEvent, previousHash: Hash): AuditEvent {
    var linked := e.(previousHash := FirstNonEmpty(previousHash, GENESIS), chainStatus := "chained");
    linked.(eventHash := HashOf(linked))
  }

  datatype Verification = Verification(
    lastHash: Hash, started: bool, verified: nat, failed: nat, unchecked: nat, checked: seq<AuditEvent>)

  const EMPTY_LOG := Verification(NO_HASH, false, 0, 0, 0, [])

  /** The verdict on one normalised record. */
  function Check(v: Verification, e: AuditEvent): Verification {
    if e.eventHash == NO_HASH then
      if v.started || e.previousHash != NO_HASH then
        v.(failed := v.failed + 1, checked := v.checked + [e.(chainStatus := "invalid")])
      else
        v.(unchecked := v.unchecked + 1, checked := v.checked + [e.(chainStatus := "unchecked")])
    else if e.previousHash == FirstNonEmpty(v.lastHash, GENESIS) && e.eventHash == HashOf(e) then
      v.(started := true, lastHash := e.eventHash, verified := v.verified + 1,
         checked := v.checked + [e.(chainStatus := "verified")])
    else
      v.(started := true, lastHash := e.eventHash, failed := v.failed + 1,
         checked := v.checked + [e.(chainStatus := "invalid")])
  }

  function Verify(events: seq<AuditEvent>): Verification {
    if events == [] then EMPTY_LOG else Check(Verify(events[..|events| - 1]), Normalize(events[|events| - 1]))
  }

  /** The verification loop: counters, the running hash and the events slice. */
  method VerifyAuditChain(events: seq<AuditEvent>)
    returns (verified: nat, failed: nat, unchecked: nat, lastHash: Hash, checked: seq<AuditEvent>)
    ensures var v := Verify(events);
            verified == v.verified && failed == v.failed && unchecked == v.unchecked
            && lastHash == v.lastHash && checked == v.checked
  {
    hide Normalize, HashOf, NonBlank;
    verified, failed, unchecked, lastHash, checked := 0, 0, 0, NO_HASH, events;
    var chainStarted := false;
    for i := 0 to |events|
      invariant |checked| == |events| && checked[i..] == events[i..]
      invariant Verification(lastHash, chainStarted, verified, failed, unchecked, checked[..i]) == Verify(events[..i])
    {
      assert events[..i + 1][..i] == events[..i];
      assert checked[i] == checked[i..][0] == events[i..][0];
      var event := Normalize(checked[i]);
      if event.eventHash == NO_HASH {
        if chainStarted || event.previousHash != NO_HASH {
          event := event.(chainStatus := "invalid");
          failed := failed + 1;
        } else {
          event := event.(chainStatus := "unchecked");
          unchecked := unchecked + 1;
        }
      } else {
        chainStarted := true;
        var expectedPrevious := FirstNonEmpty(lastHash, GENESIS);
        var expectedHash := HashOf(event);
        lastHash := event.eventHash;
        if event.previousHash == expectedPrevious && event.eventHash == expectedHash {
          event := event.(chainStatus := "verified");
          verified := verified + 1;
        } else {
          event := event.(chainStatus := "invalid");
          failed := failed + 1;
        }
      }
      ghost var before := checked;
      checked := checked[i := event];
      assert checked[..i + 1] == before[..i] + [event];
    }
    assert events[..|events|] == events && checked[..|events|] == checked;
  }

  /** Reading the file normalises every record once. */
  function ReadEvents(records: seq<AuditEvent>): (events: seq<AuditEvent>)
    ensures |events| == |records|
  {
    hide Normalize;
    if records == [] then []
    else ReadEvents(records[..|records| - 1]) + [Normalize(records[|records| - 1])]
  }

  function VerifyLog(records: seq<AuditEvent>): Verification {
    Verify(ReadEvents(records))
  }

  /** A record as the verifier sees it: once normalised on reading, once more on checking. */
  function Twice(record: AuditEvent): AuditEvent {
    Normalize(Normalize(record))
  }

  lemma VerifyLogStep(records: seq<AuditEvent>, record: AuditEvent)
    ensures VerifyLog(records + [record]) == Check(VerifyLog(records), Twice(record))
  {
    hide Normalize, Check;
    assert (records + [record])[..|records|] == records;
    var events := ReadEvents(records);
    assert ReadEvents(records + [record]) == events + [Normalize(record)];
    assert (events + [Normalize(record)])[..|events|] == events;
  }

  // ---------- appending ----------

  /** The record an append writes, or `None` when the log on disk fails verification. */
  function Append(records: seq<AuditEvent>, event: AuditEvent, chainOn: bool): Option<AuditEvent> {
    var v, e := VerifyLog(records), Normalize(event);
    if v.failed > 0 then None
    else if chainOn || v.verified > 0 then
      var previous := if v.verified > 0 && v.checked != [] then v.checked[|v.checked| - 1].eventHash else NO_HASH;
      Some(PrepareChained(e, previous))
    else Some(e)
  }

  class AuditLog {
    var records: seq<AuditEvent>

    constructor ()
      ensures records == []
    {
      records := [];
    }

    method WriteAuditEvent(event: AuditEvent, chainOn: bool) returns (written: bool)
      modifies this
      ensures written == Append(old(records), event, chainOn).Some?
      ensures records == if written then old(records) + [Append(old(records), event, chainOn).value] else old(records)
      ensures written && Ordinary(event) ==> Says(records[|records| - 1], event)
    {
      if Append(records, event, chainOn).Some? && Ordinary(event) {
        RecordSays(records, event, chainOn);
      }
      hide Ordinary, Says, Append;
      written := AppendRecord(event, chainOn);
    }

    method AppendRecord(event: AuditEvent, chainOn: bool) returns (written: bool)
      modifies this
      ensures written == Append(old(records), event, chainOn).Some?
      ensures records == if written then old(records) + [Append(old(records), event, chainOn).value] else old(records)
    {
      hide Normalize, PrepareChained, Verify;
      var e := Normalize(event);
      var existing := ReadEvents(records);
      var verified, failed, unchecked, lastHash, checked := VerifyAuditChain(existing);
      if failed > 0 {
        return false;
      }
      if chainOn || verified > 0 {
        var previous := NO_HASH;
        if verified > 0 && checked != [] {
          previous := checked[|checked| - 1].eventHash;
        }
        e := PrepareChained(e, previous);
      }
      records := records + [e];
      written := true;
    }
  }

  // ---------- what an ordinary event is recorded as ----------

  predicate Fit(s: string) {
    Clean(s) && |s| <= FIELD_LIMIT
  }

  /** Every text of the event is clean and fits, and its chain fields are empty. */
  predicate Ordinary(e: AuditEvent) {
    && Fit(e.operation) && Fit(e.serviceId) && Fit(e.actorKind) && Fit(e.ref) && Fit(e.providerId)
    && Fit(e.outcome) && Fit(e.reasonCode) && Fit(e.auditStatus)
    && Fit(e.labels.requestId) && Fit(e.labels.sourceId) && Fit(e.labels.policyId) && Fit(e.labels.keyId) && Fit(e.labels.state)
    && e.previousHash == NO_HASH && e.eventHash == NO_HASH
  }

  lemma TrimKeepsFit(s: string)
    requires Fit(s)
    ensures Trim(s) == s
  {
    if s != [] {
      assert !IsSpace(s[0]) && !IsSpace(s[|s| - 1]);
    }
  }

  lemma OrdinaryScrubs(e: AuditEvent)
    requires Ordinary(e)
    ensures Scrub(e.operation) == e.operation && Scrub(e.serviceId) == e.serviceId && Scrub(e.actorKind) == e.actorKind
    ensures Scrub(e.ref) == e.ref && Scrub(e.providerId) == e.providerId && Scrub(e.outcome) == e.outcome
    ensures Scrub(e.reasonCode) == e.reasonCode && Scrub(e.auditStatus) == e.auditStatus && ScrubLabels(e.labels) == e.labels
    ensures Trim(e.serviceId) == e.serviceId
  {
    TrimKeepsFit(e.serviceId);
    hide Scrub, Clean, Trim;
    ScrubKeepsClean(e.operation);
    ScrubKeepsClean(e.serviceId);
    ScrubKeepsClean(e.actorKind);
    ScrubKeepsClean(e.ref);
    ScrubKeepsClean(e.providerId);
    ScrubKeepsClean(e.outcome);
    ScrubKeepsClean(e.reasonCode);
    ScrubKeepsClean(e.auditStatus);
    ScrubKeepsClean(e.labels.requestId);
    ScrubKeepsClean(e.labels.sourceId);
    ScrubKeepsClean(e.labels.policyId);
    ScrubKeepsClean(e.labels.keyId);
    ScrubKeepsClean(e.labels.state);
  }

  /** What a record says of an event, field by field: what the event said, and where it said nothing,
      who acted by the service, a digest of the ref, and the stated words. */
  predicate Says(r: AuditEvent, e: AuditEvent) {
    && r.ts == e.ts && r.labels == e.labels && r.ref == e.ref && r.serviceId == e.serviceId
    && r.operation == (if e.operation == "" then "unknown" else e.operation)
    && r.outcome == (if e.outcome == "" then "degraded" else e.outcome)
    && r.reasonCode == (if e.reasonCode == "" then r.outcome else e.reasonCode)
    && r.auditStatus == (if e.auditStatus == "" then "audit_recorded" else e.auditStatus)
    && (e.actorKind != "" ==> r.actorKind == e.actorKind)
    && (e.actorKind == "" ==>
          && (r.actorKind == "system" <==> e.serviceId == "")
          && (r.actorKind == "operator" <==> e.serviceId == "@operator")
          && (r.actorKind == "service" <==> e.serviceId !in {"", "@operator"}))
    && (e.refHash != NO_HASH || e.ref == "" ==> r.refHash == e.refHash)
    && (e.refHash == NO_HASH && e.ref != "" ==> r.refHash == RefDigest(e.ref))
    && (e.providerId != "" ==> r.providerId == e.providerId)
    && (e.providerId == "" ==> r.providerId == if "provider_" <= r.operation then e.ref else "")
  }

  lemma NormalizeSays(e: AuditEvent)
    requires Ordinary(e)
    ensures Says(Normalize(e), e)
    ensures Normalize(e).previousHash == NO_HASH && Normalize(e).eventHash == NO_HASH
  {
    OrdinaryScrubs(e);
    SettledHash();
    ActorSays(e.serviceId);
    hide Scrub, ScrubLabels, ScrubHash, Trim, ActorKind, Fit;
    var n := Normalize(e);
    assert n.actorKind == if e.actorKind == "" then ActorKind(e.serviceId) else e.actorKind;
  }

  lemma SettledHash()
    ensures ScrubHash(NO_HASH) == NO_HASH
  {
    WordsAreStable();
    hide Scrub;
  }

  lemma ActorSays(serviceId: string)
    requires Trim(serviceId) == serviceId
    ensures ActorKind(serviceId) == "system" <==> serviceId == ""
    ensures ActorKind(serviceId) == "operator" <==> serviceId == "@operator"
    ensures ActorKind(serviceId) == "service" <==> serviceId !in {"", "@operator"}
  {
    hide Trim;
    assert "system"[1] == 'y' && "operator"[1] == 'p' && "service"[1] == 'e';
  }

  /** What the log holds of an ordinary event. */
  lemma RecordSays(records: seq<AuditEvent>, e: AuditEvent, chainOn: bool)
    requires Append(records, e, chainOn).Some? && Ordinary(e)
    ensures var r := Append(records, e, chainOn).value;
            && Says(r, e)
            && (r.chainStatus == "chained" || (r.eventHash == NO_HASH && r.previousHash == NO_HASH))
            && (chainOn ==> r.chainStatus == "chained")
  {
    NormalizeSays(e);
    ChainFieldsDoNotMatter(e, Normalize(e), Append(records, e, chainOn).value);
    hide Normalize, HashOf, VerifyLog, FirstNonEmpty, Ordinary, Says;
  }

  lemma ChainFieldsDoNotMatter(e: AuditEvent, r: AuditEvent, r': AuditEvent)
    ensures r' == r.(previousHash := r'.previousHash, eventHash := r'.eventHash, chainStatus := r'.chainStatus) ==>
              (Says(r', e) <==> Says(r, e))
  {}

  // ---------- every run of appends verifies ----------

  /** No failures; unchecked records first, then verified ones, the last of which is the tip. */
  ghost predicate Intact(v: Verification) {
    && v.failed == 0
    && |v.checked| == v.unchecked + v.verified
    && (forall i :: 0 <= i < v.unchecked ==> v.checked[i].chainStatus == "unchecked")
    && (forall i :: v.unchecked <= i < |v.checked| ==> v.checked[i].chainStatus == "verified")
    && (v.started <==> v.verified > 0)
    && (v.started ==> v.lastHash.EventDigest? && v.checked[|v.checked| - 1].eventHash == v.lastHash)
    && (!v.started ==> v.lastHash == NO_HASH)
  }

  lemma HashIsDigest(e: AuditEvent)
    ensures HashOf(e).EventDigest?
  {
    hide Normalize;
  }

  /** A record is accepted when it carries no link before the chain starts, or the right one. */
  lemma CheckKeepsIntact(v: Verification, e: AuditEvent)
    requires v.failed == 0 ==> Intact(v)
    ensures v.failed <= Check(v, e).failed
    ensures Check(v, e).failed == 0 ==> Intact(Check(v, e)) && |Check(v, e).checked| == |v.checked| + 1
  {
    HashIsDigest(e);
    hide HashOf, FirstNonEmpty;
  }

  /** Callers leave the chain fields to the log. */
  predicate Unlinked(e: AuditEvent) {
    e.previousHash == NO_HASH && e.eventHash == NO_HASH
  }

  predicate LinkedTo(e: AuditEvent, previous: Hash) {
    e.previousHash == FirstNonEmpty(previous, GENESIS) && e.eventHash.EventDigest? && e.eventHash == HashOf(e)
  }

  lemma BlankHash()
    ensures !NonBlank(NO_HASH) && StableHash(NO_HASH) && StableHash(GENESIS)
  {
    WordsAreStable();
    assert !NonBlank(NO_HASH);
    hide Scrub;
  }

  /** Linking a record that was normalised once leaves it one pass away from settling. */
  lemma LinkedSettles(e: AuditEvent, linked: AuditEvent)
    requires linked == Normalize(e).(previousHash := linked.previousHash, eventHash := linked.eventHash, chainStatus := "chained")
    requires StableHash(linked.previousHash) && StableHash(linked.eventHash)
    ensures Settled(Normalize(linked))
    ensures Normalize(linked) == Twice(e).(previousHash := linked.previousHash, eventHash := linked.eventHash,
                                           chainStatus := "chained")
  {
    hide Scrub, ScrubLabels, ActorKind, NamesProvider;
    WordsAreStable();
    NormalizeTwiceSettles(e);
  }

  /** A prepared record reads back as its own digest says. */
  lemma PreparedVerifies(e: AuditEvent, previous: Hash)
    requires StableHash(previous)
    ensures LinkedTo(Twice(PrepareChained(Normalize(e), previous)), previous)
  {
    hide Scrub, Normalize, NamesProvider, NonBlank, Settled;
    BlankHash();
    var n := Normalize(e);
    var linked := n.(previousHash := FirstNonEmpty(previous, GENESIS), eventHash := NO_HASH, chainStatus := "chained");
    var unsealed := n.(previousHash := FirstNonEmpty(previous, GENESIS), chainStatus := "chained");
    var written := PrepareChained(n, previous);
    SealIgnoresOldHash(unsealed, linked);
    LinkedSettles(e, linked);
    LinkedSettles(e, written);
    SettledIsFixed(Normalize(written));
  }

  /** The digest does not depend on the digest the record carried before. */
  lemma SealIgnoresOldHash(a: AuditEvent, b: AuditEvent)
    requires a == b.(eventHash := a.eventHash)
    ensures HashOf(a) == HashOf(b)
  {
    hide Scrub, ScrubLabels, ActorKind, NamesProvider, ScrubHash;
  }

  lemma UnlinkedStaysUnlinked(e: AuditEvent)
    requires Unlinked(e)
    ensures Unlinked(Twice(Normalize(e)))
  {
    hide Scrub, ScrubLabels, ActorKind, NamesProvider;
    BlankHash();
  }

  /** A record as it will be read back from a log whose chain has not started and is switched off.
      It passes if it carries no links, or is a proper first link by itself. */
  ghost predicate Presentable(event: AuditEvent) {
    var e := Twice(Normalize(event));
    Unlinked(e) || LinkedTo(e, NO_HASH)
  }

  /** No append to an intact log is refused, and the log stays intact exactly when the append is
      chained or the event's own hash fields, which an unchained append writes as they are, pass. */
  lemma AppendKeepsIntactIff(records: seq<AuditEvent>, event: AuditEvent, chainOn: bool)
    requires Intact(VerifyLog(records))
    ensures Append(records, event, chainOn).Some?
    ensures var v, v' := VerifyLog(records), VerifyLog(records + [Append(records, event, chainOn).value]);
            && (Intact(v') <==> chainOn || v.verified > 0 || Presentable(event))
            && (!Intact(v') ==> v'.failed > 0)
            && (Intact(v') ==> |v'.checked| == |v.checked| + 1)
            && (Intact(v') && (chainOn || v.verified > 0) ==> v'.verified == v.verified + 1)
            && (Intact(v') && Unlinked(event) && !chainOn && v.verified == 0 ==> v'.verified == 0)
  {
    hide Normalize, HashOf, VerifyLog, PrepareChained, NonBlank, Twice, Scrub, StableHash, Check, LinkedTo;
    var v := VerifyLog(records);
    var record := Append(records, event, chainOn).value;
    VerifyLogStep(records, record);
    CheckKeepsIntact(v, Twice(record));
    CheckAccepts(v, Twice(record));
    BlankHash();
    if v.started {
      DigestIsStable(v.lastHash);
    }
    if chainOn || v.verified > 0 {
      PreparedVerifies(event, v.lastHash);
    } else if Unlinked(event) {
      UnlinkedStaysUnlinked(event);
    }
  }

  lemma DigestIsStable(h: Hash)
    requires h.EventDigest?
    ensures StableHash(h)
  {}

  /** A properly linked record is verified, and a record without links before the chain starts is
      left unchecked. */
  lemma CheckAccepts(v: Verification, e: AuditEvent)
    ensures LinkedTo(e, v.lastHash) ==> Check(v, e).failed == v.failed && Check(v, e).verified == v.verified + 1
    ensures Unlinked(e) && !v.started ==> Check(v, e).failed == v.failed && Check(v, e).verified == v.verified
    ensures !LinkedTo(e, v.lastHash) && !(Unlinked(e) && !v.started) ==> Check(v, e).failed == v.failed + 1
  {
    HashIsDigest(e);
    hide HashOf, FirstNonEmpty;
  }

  datatype Write = Write(event: AuditEvent, chainOn: bool)

  /** The log after a run of appends, each under its own setting of the chain option. */
  function RunWrites(writes: seq<Write>): seq<AuditEvent> {
    if writes == [] then []
    else
      var w, before := writes[|writes| - 1], RunWrites(writes[..|writes| - 1]);
      match Append(before, w.event, w.chainOn)
      case Some(record) => before + [record]
      case None => before
  }

  /** The write is chained, by its own setting or because the chain has started, or its event is
      presentable without. */
  ghost predicate WritesWell(writes: seq<Write>, i: nat)
    requires i < |writes|
  {
    writes[i].chainOn || VerifyLog(RunWrites(writes[..i])).verified > 0 || Presentable(writes[i].event)
  }

  /** A run of appends verifies without failures exactly when every write wrote well; and then the
      log holds one record for each, unchecked ones first and verified ones after them. */
  lemma {:induction false} EveryRunVerifiesIff(writes: seq<Write>)
    ensures var log := VerifyLog(RunWrites(writes));
            && (Intact(log) <==> forall i :: 0 <= i < |writes| ==> WritesWell(writes, i))
            && (Intact(log) ==> |RunWrites(writes)| == |log.checked| == |writes|)
            && (!Intact(log) ==> log.failed > 0)
  {
    hide VerifyLog, Append, Presentable, WritesWell, Intact;
    if writes == [] {
      EmptyIsIntact();
    } else {
      var n := |writes| - 1;
      var init := writes[..n];
      forall i | 0 <= i < n
        ensures WritesWell(init, i) == WritesWell(writes, i)
      {
        SameWrite(writes, n, i);
      }
      EveryRunVerifiesIff(init);
      LastWrite(writes);
      var before := RunWrites(init);
      if Intact(VerifyLog(before)) {
        AppendKeepsIntactIff(before, writes[n].event, writes[n].chainOn);
      } else {
        BrokenStaysBroken(before, writes[n].event, writes[n].chainOn);
      }
    }
  }

  lemma EmptyIsIntact()
    ensures Intact(VerifyLog([])) && VerifyLog([]).checked == []
  {
    EmptyLogIsUnstarted();
  }

  lemma SameWrite(writes: seq<Write>, n: nat, i: nat)
    requires i < n <= |writes|
    ensures WritesWell(writes[..n], i) == WritesWell(writes, i)
  {
    hide VerifyLog, RunWrites, Presentable;
    assert writes[..n][..i] == writes[..i];
  }

  lemma LastWrite(writes: seq<Write>)
    requires writes != []
    ensures var n := |writes| - 1;
            WritesWell(writes, n) <==>
            writes[n].chainOn || VerifyLog(RunWrites(writes[..n])).verified > 0 || Presentable(writes[n].event)
  {
    hide VerifyLog, RunWrites, Presentable;
  }

  lemma BrokenStaysBroken(records: seq<AuditEvent>, event: AuditEvent, chainOn: bool)
    requires VerifyLog(records).failed > 0
    ensures Append(records, event, chainOn) == None
    ensures !Intact(VerifyLog(records))
  {
    hide VerifyLog, Normalize;
  }

  /** Events whose hash fields are empty are always presentable, so every run of them verifies,
      whatever the settings of the chain option. */
  lemma EveryRunVerifies(writes: seq<Write>)
    requires forall i :: 0 <= i < |writes| ==> Unlinked(writes[i].event)
    ensures |RunWrites(writes)| == |writes|
    ensures Intact(VerifyLog(RunWrites(writes)))
    ensures |VerifyLog(RunWrites(writes)).checked| == |writes|
  {
    hide VerifyLog, Append, Intact, Normalize, LinkedTo, Twice;
    forall i | 0 <= i < |writes|
      ensures WritesWell(writes, i)
    {
      UnlinkedStaysUnlinked(writes[i].event);
    }
    EveryRunVerifiesIff(writes);
  }

  /** An event that comes with a hash of its own, appended while the chain is off and has not
      started, leaves a log that fails and accepts no more events. */
  lemma PresetHashBreaksTheLog(event: AuditEvent, later: AuditEvent, chainOn: bool)
    requires event.previousHash == NO_HASH && event.eventHash == GENESIS
    ensures var log := RunWrites([Write(event, false)]);
            VerifyLog(log).failed > 0 && Append(log, later, chainOn) == None
  {
    hide Append, Normalize, Intact, Scrub;
    var writes := [Write(event, false)];
    EveryRunVerifiesIff(writes);
    assert RunWrites([]) == [];
    EmptyLogIsUnstarted();
    assert !WritesWell(writes, 0) by {
      PresetIsKept(event);
      assert writes[..0] == [];
      hide Twice, RunWrites, VerifyLog;
      HashIsDigest(Twice(Normalize(event)));
    }
    BrokenStaysBroken(RunWrites(writes), later, chainOn);
  }

  lemma PresetIsKept(event: AuditEvent)
    requires event.previousHash == NO_HASH && event.eventHash == GENESIS
    ensures Twice(Normalize(event)).eventHash == GENESIS
  {
    hide Scrub, ScrubLabels, ActorKind, NamesProvider;
    BlankHash();
  }

  /** A break is counted once: the record after a broken one verifies if it links to the hash that
      the broken one carries, and only then; and after the chain has started a record without a hash
      is always a break. */
  lemma BreaksAreCounted(v: Verification, broken: AuditEvent, next: AuditEvent)
    requires Check(v, broken).failed == v.failed + 1
    ensures var w := Check(v, broken);
            && (broken.eventHash != NO_HASH && next.eventHash != NO_HASH ==>
                  (Check(w, next).failed == w.failed <==>
                   next.previousHash == FirstNonEmpty(broken.eventHash, GENESIS) && next.eventHash == HashOf(next)))
            && (v.started && next.eventHash == NO_HASH ==> Check(w, next).failed == w.failed + 1)
            && w.verified == v.verified && w.unchecked == v.unchecked
  {
    hide HashOf, FirstNonEmpty;
  }

  // ---------- the tip fixes the whole chain ----------

  lemma {:induction false} VerifyLogShape(records: seq<AuditEvent>)
    ensures VerifyLog(records).failed == 0 ==>
              Intact(VerifyLog(records)) && |VerifyLog(records).checked| == |records|
  {
    hide VerifyLog, Check, Twice;
    if records == [] {
      EmptyLogIsUnstarted();
    } else {
      hide Intact;
      var n := |records| - 1;
      assert records == records[..n] + [records[n]];
      VerifyLogShape(records[..n]);
      VerifyLogStep(records[..n], records[n]);
      CheckKeepsIntact(VerifyLog(records[..n]), Twice(records[n]));
    }
  }

  /** The verified part of an intact log. */
  ghost function ChainedPart(v: Verification): seq<AuditEvent>
    requires Intact(v)
  {
    v.checked[v.unchecked..]
  }

  /** `v` is `u` and one more verified record `e`. */
  ghost predicate ExtendsBy(u: Verification, v: Verification, e: AuditEvent) {
    && Intact(u) && Intact(v)
    && v.checked == u.checked + [e]
    && v.verified == u.verified + 1 && v.unchecked == u.unchecked
    && v.lastHash == e.eventHash == EventDigest(Body(e))
    && e.chainStatus == "verified"
    && e.previousHash == FirstNonEmpty(u.lastHash, GENESIS)
  }

  lemma DigestOfSettled(record: AuditEvent)
    ensures HashOf(Twice(record)) == EventDigest(Body(Twice(record)))
  {
    hide Normalize;
    NormalizeTwiceSettles(record);
  }

  lemma EmptyLogIsUnstarted()
    ensures VerifyLog([]) == EMPTY_LOG
  {}

  lemma LastVerified(records: seq<AuditEvent>) returns (e: AuditEvent)
    requires VerifyLog(records).failed == 0 && VerifyLog(records).verified > 0
    ensures records != [] && ExtendsBy(VerifyLog(records[..|records| - 1]), VerifyLog(records), e)
  {
    hide VerifyLog, HashOf, NonBlank, Twice;
    EmptyLogIsUnstarted();
    var n := |records| - 1;
    var u := VerifyLog(records[..n]);
    assert records == records[..n] + [records[n]];
    VerifyLogShape(records);
    VerifyLogShape(records[..n]);
    VerifyLogStep(records[..n], records[n]);
    CheckKeepsIntact(u, Twice(records[n]));
    DigestOfSettled(records[n]);
    e := Twice(records[n]).(chainStatus := "verified");
  }

  /** Equal digests link equal records to equal predecessors. */
  lemma SameDigest(u: Verification, v: Verification, e: AuditEvent, u': Verification, v': Verification, e': AuditEvent)
    requires ExtendsBy(u, v, e) && ExtendsBy(u', v', e') && v.lastHash == v'.lastHash
    ensures e == e'
    ensures u.lastHash == u'.lastHash && (u.verified > 0 <==> u'.verified > 0)
  {
    BlankHash();
    assert Body(e) == Body(e');
  }

  lemma ChainedPartExtends(u: Verification, v: Verification, e: AuditEvent)
    requires ExtendsBy(u, v, e)
    ensures ChainedPart(v) == ChainedPart(u) + [e]
    ensures u.verified == 0 ==> ChainedPart(u) == []
  {
    hide FirstNonEmpty;
  }

  /** Two verifying logs with the same tip have the same chained records, whatever their
      lengths and whatever unchecked records precede the chain. */
  lemma {:induction false} SameTipSameChain(a: seq<AuditEvent>, b: seq<AuditEvent>)
    requires VerifyLog(a).failed == 0 && VerifyLog(b).failed == 0
    requires VerifyLog(a).verified > 0 && VerifyLog(b).verified > 0
    requires VerifyLog(a).lastHash == VerifyLog(b).lastHash
    ensures Intact(VerifyLog(a)) && Intact(VerifyLog(b))
    ensures ChainedPart(VerifyLog(a)) == ChainedPart(VerifyLog(b))
    decreases |a|
  {
    hide VerifyLog, ChainedPart;
    var e := LastVerified(a);
    var f := LastVerified(b);
    var a', b' := a[..|a| - 1], b[..|b| - 1];
    var v, w, v', w' := VerifyLog(a), VerifyLog(b), VerifyLog(a'), VerifyLog(b');
    SameDigest(v', v, e, w', w, f);
    ChainedPartExtends(v', v, e);
    ChainedPartExtends(w', w, f);
    if v'.verified > 0 {
      SameTipSameChain(a', b');
    }
  }
}
