/** Rotation of one secret through staged, active and retained versions. A slot is the active
    entry of a ref together with its ledger. */
module RotationLedger {
  import opened Results
  import opened Vault
  import opened VersionOrder

  datatype Slot = Slot(entry: Entry, ledger: Ledger)

  const NO_LEDGER := Ledger("", "", "", "", map[], map[])

  datatype Outcome = Staged | Applied | RolledBack | Retired | Conflict | Missing | AuditUnavailable

  datatype Request =
    | Stage(versionId: string, plain: string, expected: string)
    | Activate(versionId: string, expected: string)
    | Rollback(versionId: string, operation: string)
    | Retire(versionId: string, limit: int)

  function ActiveId(s: Slot): string {
    s.entry.metadata.version
  }

  function FirstNonEmpty(a: string, b: string): string {
    if a != "" then a else b
  }

  // ---------- the four operations ----------

  function StageVersion(s: Slot, key: Key, r: Request, audited: bool, now: int): (Slot, Outcome)
    requires r.Stage?
  {
    if r.expected != "" && r.expected != ActiveId(s) then (s, Conflict)
    else if r.versionId in s.ledger.staged then (s, Staged)
    else if !audited then (s, AuditUnavailable)
    else
      var version := StoredVersion(r.versionId, Metadata(r.versionId, now, now), Encrypt(key, r.plain), Some(now), None);
      (s.(ledger := s.ledger.(activeId := FirstNonEmpty(s.ledger.activeId, ActiveId(s)),
                              staged := s.ledger.staged[r.versionId := version])), Staged)
  }

  /** The active entry as a retained version. */
  function RetainActive(s: Slot, now: int): StoredVersion {
    StoredVersion(ActiveId(s), s.entry.metadata, s.entry.payload, None, Some(now))
  }

  /** A stored version as the active entry; it starts without KV history. */
  function Install(v: StoredVersion, now: int): Entry {
    Entry(v.metadata.(updatedAt := now), v.payload, None)
  }

  function ActivateVersion(s: Slot, r: Request, audited: bool, now: int): (Slot, Outcome)
    requires r.Activate?
  {
    if r.expected == "" || r.expected != ActiveId(s) then (s, Conflict)
    else if r.versionId !in s.ledger.staged then (s, Missing)
    else if !audited then (s, AuditUnavailable)
    else
      var version := s.ledger.staged[r.versionId];
      (Slot(Install(version, now),
            s.ledger.(staged := s.ledger.staged - {r.versionId},
                      retained := s.ledger.retained[ActiveId(s) := RetainActive(s, now)],
                      previousId := ActiveId(s),
                      activeId := version.versionId)), Applied)
  }

  function RollbackVersion(s: Slot, r: Request, audited: bool, now: int): (Slot, Outcome)
    requires r.Rollback?
  {
    var versionId := FirstNonEmpty(r.versionId, s.ledger.previousId);
    if r.operation == s.ledger.rollbackOperation && ActiveId(s) == s.ledger.rollbackVersion then (s, Conflict)
    else if versionId == ActiveId(s) then (s, Conflict)
    else if versionId !in s.ledger.retained then (s, Missing)
    else if !audited then (s, AuditUnavailable)
    else
      var version := s.ledger.retained[versionId];
      (Slot(Install(version, now),
            s.ledger.(retained := (s.ledger.retained - {versionId})[ActiveId(s) := RetainActive(s, now)],
                      activeId := version.versionId,
                      previousId := ActiveId(s),
                      rollbackOperation := r.operation,
                      rollbackVersion := version.versionId)), RolledBack)
  }

  ghost function NewestId(m: Versions): (id: string)
    requires Filed(m)
    ensures if m == map[] then id == "" else IsNewest(m, m.Keys, id)
  {
    if m == map[] then ""
    else
      NewestExists(m, m.Keys);
      var id :| IsNewest(m, m.Keys, id);
      id
  }

  lemma {:induction false} NewestExists(m: Versions, ids: set<string>)
    requires Filed(m) && {} != ids <= m.Keys
    ensures exists id :: IsNewest(m, ids, id)
    decreases |ids|
  {
    hide Older;
    var id :| id in ids;
    var rest := ids - {id};
    if rest == {} {
      assert ids == {id};
      assert IsNewest(m, ids, id);
    } else {
      NewestExists(m, rest);
      var last :| IsNewest(m, rest, last);
      OlderTotal(m[id], m[last]);
      if Older(m[last], m[id]) {
        NewestMoves(m, ids, last, id);
      } else {
        assert IsNewest(m, ids, last);
      }
    }
  }

  /** The previous version after some retained ones have gone. */
  ghost function PreviousAmong(previousId: string, before: Versions, kept: Versions): string
    requires Filed(kept)
  {
    if previousId in before && previousId !in kept then NewestId(kept) else previousId
  }

  lemma FiledRestrict(m: Versions, ids: set<string>)
    requires Filed(m)
    ensures Filed(Restrict(m, ids))
  {}

  ghost function RetireVersion(s: Slot, r: Request, audited: bool): (Slot, Outcome)
    requires r.Retire? && Filed(s.ledger.retained)
  {
    var retained := s.ledger.retained;
    var goes := if r.versionId != "" then r.versionId in retained && r.versionId != ActiveId(s)
                else |retained| > EffectiveLimit(r.limit);
    if r.versionId != "" && r.versionId == ActiveId(s) then (s, Conflict)
    else if !goes then (s, Retired)
    else if !audited then (s, AuditUnavailable)
    else
      var kept := Restrict(retained, if r.versionId != "" then retained.Keys - {r.versionId}
                                     else Trimmed(retained, retained.Keys, EffectiveLimit(r.limit)));
      FiledRestrict(retained, if r.versionId != "" then retained.Keys - {r.versionId}
                              else Trimmed(retained, retained.Keys, EffectiveLimit(r.limit)));
      (s.(ledger := s.ledger.(retained := kept, previousId := PreviousAmong(s.ledger.previousId, s.ledger.retained, kept))), Retired)
  }

  ghost function Apply(s: Slot, key: Key, r: Request, audited: bool, now: int): (Slot, Outcome)
    requires Filed(s.ledger.retained)
  {
    match r
    case Stage(_, _, _) => StageVersion(s, key, r, audited, now)
    case Activate(_, _) => ActivateVersion(s, r, audited, now)
    case Rollback(_, _) => RollbackVersion(s, r, audited, now)
    case Retire(_, _) => RetireVersion(s, r, audited)
  }

  /** Retiring with the scans and the trimming loop of the source. */
  method RetireLoop(s: Slot, r: Request, audited: bool) returns (s': Slot, outcome: Outcome)
    requires r.Retire? && Filed(s.ledger.retained)
    ensures (s', outcome) == RetireVersion(s, r, audited)
  {
    hide Older, Trimmed;
    var retained := s.ledger.retained;
    if r.versionId != "" {
      if r.versionId == ActiveId(s) {
        return s, Conflict;
      }
      if r.versionId !in retained {
        return s, Retired;
      }
    } else if |retained| <= EffectiveLimit(r.limit) {
      return s, Retired;
    }
    if !audited {
      return s, AuditUnavailable;
    }
    var kept, previousId := retained, s.ledger.previousId;
    if r.versionId != "" {
      kept := retained - {r.versionId};
      assert kept == Restrict(retained, retained.Keys - {r.versionId});
      if previousId == r.versionId {
        previousId := NewestRetained(kept);
        SameNewest(kept, previousId);
      }
    } else {
      var trimmed, previous', retired := TrimRetained(retained, previousId, r.limit);
      ghost var ids := Trimmed(retained, retained.Keys, EffectiveLimit(r.limit));
      if previousId in retained && previousId !in trimmed {
        NewestInRestriction(retained, ids, previous');
        SameNewest(trimmed, previous');
      }
      kept, previousId := trimmed, previous';
    }
    return s.(ledger := s.ledger.(retained := kept, previousId := previousId)), Retired;
  }

  lemma SameNewest(m: Versions, id: string)
    requires Filed(m) && if m == map[] then id == "" else IsNewest(m, m.Keys, id)
    ensures id == NewestId(m)
  {
    if m != map[] {
      NewestIsUnique(m, m.Keys, id, NewestId(m));
    }
  }

  lemma NewestInRestriction(m: Versions, ids: set<string>, id: string)
    requires ids <= m.Keys && IsNewest(m, ids, id)
    ensures Restrict(m, ids) != map[] && IsNewest(Restrict(m, ids), Restrict(m, ids).Keys, id)
  {
    hide Older;
    assert id in Restrict(m, ids);
  }

  // ---------- when each request is carried out, and what it does ----------

  /** Staging is refused exactly for a stale expected version; a version that is staged already is
      left as it is, and a new one needs its audit record. */
  lemma StageAnswer(s: Slot, key: Key, r: Request, audited: bool, now: int)
    requires r.Stage?
    ensures var (s', outcome) := StageVersion(s, key, r, audited, now);
            && (outcome == Conflict <==> r.expected !in {"", ActiveId(s)})
            && (outcome == AuditUnavailable <==> r.expected in {"", ActiveId(s)} && r.versionId !in s.ledger.staged && !audited)
            && (outcome == Staged <==> r.expected in {"", ActiveId(s)} && (r.versionId in s.ledger.staged || audited))
            && (s' != s ==> outcome == Staged && r.versionId !in s.ledger.staged)
            && (outcome == Staged && r.versionId !in s.ledger.staged ==>
                  && s'.ledger.staged.Keys == s.ledger.staged.Keys + {r.versionId}
                  && s'.ledger.staged[r.versionId].payload == Encrypt(key, r.plain)
                  && s'.ledger.staged[r.versionId].metadata.version == r.versionId)
            && s'.entry == s.entry && s'.ledger.retained == s.ledger.retained && s'.ledger.previousId == s.ledger.previousId
            && (forall id :: id in s.ledger.staged ==> id in s'.ledger.staged && s'.ledger.staged[id] == s.ledger.staged[id])
  {}

  /** Activation needs the active version to be named, the version to be staged, and the audit record;
      then the staged version is active and the one that was active is retained as the previous. */
  lemma ActivateAnswer(s: Slot, r: Request, audited: bool, now: int)
    requires r.Activate?
    ensures var (s', outcome) := ActivateVersion(s, r, audited, now);
            var named := r.expected == ActiveId(s) && ActiveId(s) != "";
            && (outcome == Conflict <==> !named)
            && (outcome == Missing <==> named && r.versionId !in s.ledger.staged)
            && (outcome == AuditUnavailable <==> named && r.versionId in s.ledger.staged && !audited)
            && (outcome == Applied <==> named && r.versionId in s.ledger.staged && audited)
            && (outcome != Applied ==> s' == s)
            && (outcome == Applied ==>
                  var v := s.ledger.staged[r.versionId];
                  && s'.entry == Entry(v.metadata.(updatedAt := now), v.payload, None)
                  && s'.ledger.staged == s.ledger.staged - {r.versionId}
                  && s'.ledger.activeId == v.versionId && s'.ledger.previousId == ActiveId(s)
                  && s'.ledger.retained.Keys == s.ledger.retained.Keys + {ActiveId(s)}
                  && s'.ledger.retained[ActiveId(s)].payload == s.entry.payload
                  && s'.ledger.retained[ActiveId(s)].metadata == s.entry.metadata
                  && s'.ledger.retained[ActiveId(s)].retainedAt == Some(now))
  {}

  /** A rollback goes to the version named, or to the previous one; it is a conflict exactly for the
      active version and for the operation that last rolled back to it. */
  lemma RollbackAnswer(s: Slot, r: Request, audited: bool, now: int)
    requires r.Rollback?
    ensures var (s', outcome) := RollbackVersion(s, r, audited, now);
            var wanted := if r.versionId == "" then s.ledger.previousId else r.versionId;
            var refused := wanted == ActiveId(s) || (r.operation == s.ledger.rollbackOperation && s.ledger.rollbackVersion == ActiveId(s));
            && (outcome == Conflict <==> refused)
            && (outcome == Missing <==> !refused && wanted !in s.ledger.retained)
            && (outcome == AuditUnavailable <==> !refused && wanted in s.ledger.retained && !audited)
            && (outcome == RolledBack <==> !refused && wanted in s.ledger.retained && audited)
            && (outcome != RolledBack ==> s' == s)
            && (outcome == RolledBack ==>
                  var v := s.ledger.retained[wanted];
                  && s'.entry == Entry(v.metadata.(updatedAt := now), v.payload, None)
                  && s'.ledger.staged == s.ledger.staged
                  && s'.ledger.activeId == s'.ledger.rollbackVersion == v.versionId && s'.ledger.rollbackOperation == r.operation
                  && s'.ledger.previousId == ActiveId(s)
                  && s'.ledger.retained.Keys == (s.ledger.retained.Keys - {wanted}) + {ActiveId(s)}
                  && s'.ledger.retained[ActiveId(s)].payload == s.entry.payload
                  && s'.ledger.retained[ActiveId(s)].metadata == s.entry.metadata
                  && s'.ledger.retained[ActiveId(s)].retainedAt == Some(now))
  {}

  /** Retiring by ID removes that version and no other; only the active version cannot be named. */
  lemma RetireAnswer(s: Slot, r: Request, audited: bool)
    requires r.Retire? && r.versionId != "" && Filed(s.ledger.retained)
    ensures var (s', outcome) := RetireVersion(s, r, audited);
            var goes := r.versionId != ActiveId(s) && r.versionId in s.ledger.retained;
            && (outcome == Conflict <==> r.versionId == ActiveId(s))
            && (outcome == AuditUnavailable <==> goes && !audited)
            && (outcome == Retired <==> r.versionId != ActiveId(s) && (audited || r.versionId !in s.ledger.retained))
            && s'.entry == s.entry && s'.ledger.staged == s.ledger.staged
            && (goes && audited ==> s'.ledger.retained == s.ledger.retained - {r.versionId})
            && (!(goes && audited) ==> s' == s)
  {
    hide NewestId, Older;
  }

  // ---------- what every ledger keeps ----------

  predicate FiledByName(m: Versions) {
    forall id :: id in m ==> id != "" && m[id].versionId == id && m[id].metadata.version == id
  }

  /** Versions are filed under their own names, and the previous one is among the retained. No
      request can break this, even if it reuses version IDs. */
  predicate InOrder(l: Ledger) {
    FiledByName(l.staged) && FiledByName(l.retained) && PreviousKept(l)
  }

  /** The previous-version ID names a retained version, or is empty exactly when none is retained. */
  predicate PreviousKept(l: Ledger) {
    && (l.previousId == "" <==> l.retained == map[])
    && (l.previousId != "" ==> l.previousId in l.retained)
  }

  /** Active, staged and retained versions are disjoint and filed under their own names. */
  predicate WellKept(s: Slot) {
    && ActiveId(s) != ""
    && FiledByName(s.ledger.staged)
    && FiledByName(s.ledger.retained) && Filed(s.ledger.retained)
    && ActiveId(s) !in s.ledger.staged && ActiveId(s) !in s.ledger.retained
    && s.ledger.staged.Keys !! s.ledger.retained.Keys
    && s.ledger.rollbackVersion !in s.ledger.staged
    && PreviousKept(s.ledger)
  }

  /** A version ID may be staged again after use; this rules it out. */
  predicate FreshRequest(s: Slot, r: Request) {
    r.Stage? && r.versionId !in s.ledger.staged ==>
      && r.versionId != "" && r.versionId != ActiveId(s)
      && r.versionId !in s.ledger.retained && r.versionId != s.ledger.rollbackVersion
  }

  lemma StageKeepsWellKept(s: Slot, key: Key, r: Request, audited: bool, now: int)
    requires WellKept(s) && r.Stage? && FreshRequest(s, r)
    ensures WellKept(StageVersion(s, key, r, audited, now).0)
  {}

  lemma ActivateKeepsWellKept(s: Slot, r: Request, audited: bool, now: int)
    requires WellKept(s) && r.Activate?
    ensures WellKept(ActivateVersion(s, r, audited, now).0)
  {}

  lemma RollbackKeepsWellKept(s: Slot, r: Request, audited: bool, now: int)
    requires WellKept(s) && r.Rollback?
    ensures WellKept(RollbackVersion(s, r, audited, now).0)
  {
    var s' := RollbackVersion(s, r, audited, now).0;
    assert s' != s ==> ActiveId(s) in s'.ledger.retained;
  }

  lemma NewestIsMember(m: Versions)
    requires Filed(m)
    ensures m == map[] ==> NewestId(m) == ""
    ensures m != map[] ==> NewestId(m) in m
  {}

  /** Whatever part of the retained versions is kept, the previous one is among them. */
  lemma KeepingSomeInOrder(l: Ledger, ids: set<string>)
    requires InOrder(l) && Filed(l.retained)
    ensures var kept := Restrict(l.retained, ids);
            Filed(kept) && InOrder(l.(retained := kept, previousId := PreviousAmong(l.previousId, l.retained, kept)))
  {
    var kept := Restrict(l.retained, ids);
    FiledRestrict(l.retained, ids);
    NewestIsMember(kept);
    hide NewestId, Older;
  }

  /** Every request, with new or reused version IDs, leaves the ledger in order. */
  lemma ApplyKeepsInOrder(s: Slot, key: Key, r: Request, audited: bool, now: int)
    requires ActiveId(s) != "" && InOrder(s.ledger) && Filed(s.ledger.retained) && (r.Stage? ==> r.versionId != "")
    ensures var s' := Apply(s, key, r, audited, now).0;
            ActiveId(s') != "" && InOrder(s'.ledger)
  {
    hide Trimmed, PreviousAmong, Filed;
    if r.Retire? {
      var retained := s.ledger.retained;
      KeepingSomeInOrder(s.ledger, if r.versionId != "" then retained.Keys - {r.versionId}
                                   else Trimmed(retained, retained.Keys, EffectiveLimit(r.limit)));
    } else {
      var s' := Apply(s, key, r, audited, now).0;
      assert s' != s && !r.Stage? ==> ActiveId(s) in s'.ledger.retained;
    }
  }

  /** Whatever part of the retained versions is kept, the slot stays well kept. */
  lemma KeepingSome(s: Slot, ids: set<string>)
    requires WellKept(s)
    ensures var kept := Restrict(s.ledger.retained, ids);
            Filed(kept) && WellKept(s.(ledger := s.ledger.(retained := kept, previousId := PreviousAmong(s.ledger.previousId, s.ledger.retained, kept))))
  {
    var kept := Restrict(s.ledger.retained, ids);
    FiledRestrict(s.ledger.retained, ids);
    NewestIsMember(kept);
    hide NewestId;
  }

  lemma RetireKeepsWellKept(s: Slot, r: Request, audited: bool)
    requires WellKept(s) && r.Retire?
    ensures WellKept(RetireVersion(s, r, audited).0)
  {
    hide Trimmed, PreviousAmong;
    var retained := s.ledger.retained;
    KeepingSome(s, if r.versionId != "" then retained.Keys - {r.versionId}
                   else Trimmed(retained, retained.Keys, EffectiveLimit(r.limit)));
  }

  lemma ApplyKeepsWellKept(s: Slot, key: Key, r: Request, audited: bool, now: int)
    requires WellKept(s) && FreshRequest(s, r)
    ensures WellKept(Apply(s, key, r, audited, now).0)
  {
    hide WellKept, FreshRequest, StageVersion, ActivateVersion, RollbackVersion, RetireVersion;
    match r {
      case Stage(_, _, _) => StageKeepsWellKept(s, key, r, audited, now);
      case Activate(_, _) => ActivateKeepsWellKept(s, r, audited, now);
      case Rollback(_, _) => RollbackKeepsWellKept(s, r, audited, now);
      case Retire(_, _) => RetireKeepsWellKept(s, r, audited);
    }
  }

  // ---------- conservation ----------

  /** The payload a slot holds under a version ID, wherever it is. */
  function Held(s: Slot, id: string): Option<Payload> {
    if id == ActiveId(s) then Some(s.entry.payload)
    else if id in s.ledger.staged then Some(s.ledger.staged[id].payload)
    else if id in s.ledger.retained then Some(s.ledger.retained[id].payload)
    else None
  }

  /** Activation and rollback move versions; none is lost, added or altered. */
  lemma ActivateConserves(s: Slot, r: Request, audited: bool, now: int, id: string)
    requires WellKept(s) && r.Activate?
    ensures Held(ActivateVersion(s, r, audited, now).0, id) == Held(s, id)
  {}

  lemma RollbackConserves(s: Slot, r: Request, audited: bool, now: int, id: string)
    requires WellKept(s) && r.Rollback?
    ensures Held(RollbackVersion(s, r, audited, now).0, id) == Held(s, id)
  {}

  /** Staging adds one version and leaves the active entry and every other version alone. */
  lemma StageAddsOne(s: Slot, key: Key, r: Request, audited: bool, now: int, id: string)
    requires WellKept(s) && FreshRequest(s, r) && r.Stage?
    ensures var s' := StageVersion(s, key, r, audited, now).0;
            s'.entry == s.entry
            && Held(s', id) == if s' != s && id == r.versionId then Some(Encrypt(key, r.plain)) else Held(s, id)
  {}

  /** Retiring removes retained versions and touches nothing else. */
  lemma RetireOnlyDrops(s: Slot, r: Request, audited: bool, id: string)
    requires WellKept(s) && r.Retire?
    ensures var s' := RetireVersion(s, r, audited).0;
            s'.entry == s.entry && s'.ledger.staged == s.ledger.staged
            && (Held(s', id) == Held(s, id) || (id in s.ledger.retained && id !in s'.ledger.retained && Held(s', id) == None))
  {
    hide Trimmed, PreviousAmong;
  }

  /** Retiring by count keeps exactly the newest versions. */
  lemma RetireKeepsNewest(s: Slot, limit: int)
    requires Filed(s.ledger.retained)
    ensures var s' := RetireVersion(s, Retire("", limit), true).0;
            var before, after := s.ledger.retained, s'.ledger.retained;
            && after.Keys <= before.Keys
            && |after| == (var most := if limit < 1 then 1 else limit; if |before| <= most then |before| else most)
            && (forall k, d :: k in after && d in before && d !in after ==> Older(before[d], before[k]))
  {
    var before := s.ledger.retained;
    var ids := Trimmed(before, before.Keys, EffectiveLimit(limit));
    TrimmedKeepsNewest(before, before.Keys, EffectiveLimit(limit));
    hide Trimmed, Older, NewestId;
    assert Restrict(before, ids).Keys == ids;
  }

  /** A default rollback right after an activation puts the earlier version and payload back. */
  lemma RollbackUndoesActivate(s: Slot, versionId: string, operation: string, t1: int, t2: int)
    requires WellKept(s) && versionId in s.ledger.staged
    ensures var (active, o1) := ActivateVersion(s, Activate(versionId, ActiveId(s)), true, t1);
            var (back, o2) := RollbackVersion(active, Rollback("", operation), true, t2);
            && o1 == Applied && o2 == RolledBack
            && ActiveId(active) == versionId && active.entry.payload == s.ledger.staged[versionId].payload
            && ActiveId(back) == ActiveId(s) && back.entry.payload == s.entry.payload
            && back.ledger.previousId == versionId
  {}

  /** Without the freshness premise, exactly two things stop it: the activated ID was the active
      one, or the rollback repeats the operation that last rolled back to that ID. */
  lemma RollbackUndoesActivateIff(s: Slot, versionId: string, operation: string, t1: int, t2: int)
    requires ActiveId(s) != "" && InOrder(s.ledger) && versionId in s.ledger.staged
    ensures var active := ActivateVersion(s, Activate(versionId, ActiveId(s)), true, t1).0;
            var (back, outcome) := RollbackVersion(active, Rollback("", operation), true, t2);
            && (outcome == RolledBack && back.entry.payload == s.entry.payload <==>
                versionId != ActiveId(s) && !(operation == s.ledger.rollbackOperation && versionId == s.ledger.rollbackVersion))
            && (outcome == RolledBack ==> ActiveId(back) == ActiveId(s))
            && (outcome != RolledBack ==> outcome == Conflict && back == active)
  {}

  /** A version staged under the active ID and activated: the earlier payload is out of reach of a
      default rollback. */
  lemma ActiveIdStagedAgain(s: Slot, key: Key, operation: string, t: int)
    requires WellKept(s)
    ensures var (s1, o1) := StageVersion(s, key, Stage(ActiveId(s), "new", ""), true, t);
            var (s2, o2) := ActivateVersion(s1, Activate(ActiveId(s), ActiveId(s)), true, t);
            var (s3, o3) := RollbackVersion(s2, Rollback("", operation), true, t);
            && o1 == Staged && o2 == Applied && o3 == Conflict
            && s3.entry.payload == Encrypt(key, "new")
  {}

  /** One operation rolls back to v0; later v0 is staged and activated again, and a rollback of that
      activation under the same operation is refused, though v0 was not the active version. */
  lemma OperationRollsBackAgain(e: Entry, key: Key, t: int)
    requires e.metadata.version == "v0"
    ensures var s0 := Slot(e, NO_LEDGER);
            var s1 := StageVersion(s0, key, Stage("v1", "one", ""), true, t).0;
            var s2 := ActivateVersion(s1, Activate("v1", "v0"), true, t).0;
            var (s3, o3) := RollbackVersion(s2, Rollback("", "op"), true, t);
            var s4 := StageVersion(s3, key, Stage("v2", "two", ""), true, t).0;
            var s5 := ActivateVersion(s4, Activate("v2", "v0"), true, t).0;
            var s6 := StageVersion(s5, key, Stage("v0", "zero", ""), true, t).0;
            var (s7, o7) := ActivateVersion(s6, Activate("v0", "v2"), true, t);
            var (s8, o8) := RollbackVersion(s7, Rollback("", "op"), true, t);
            && WellKept(s0) && o3 == RolledBack
            && ActiveId(s6) == "v2" && o7 == Applied && ActiveId(s7) == "v0"
            && o8 == Conflict && s8 == s7
  {
    var s0 := Slot(e, NO_LEDGER);
    var s1 := StageVersion(s0, key, Stage("v1", "one", ""), true, t).0;
    var s2 := ActivateVersion(s1, Activate("v1", "v0"), true, t).0;
    var s3 := RollbackVersion(s2, Rollback("", "op"), true, t).0;
    assert ActiveId(s3) == "v0" && s3.ledger.rollbackVersion == "v0" && "v2" !in s3.ledger.staged;
  }

  // ---------- runs ----------

  datatype Turn = Turn(request: Request, audited: bool, now: int)

  /** A trace of slots in which each request acts on the slot before it, and every staged
      version ID is new to that slot. */
  ghost predicate IsRun(trace: seq<Slot>, key: Key, turns: seq<Turn>) {
    && |trace| == |turns| + 1
    && forall i :: 0 <= i < |turns| && Filed(trace[i].ledger.retained) ==>
         && FreshRequest(trace[i], turns[i].request)
         && trace[i + 1] == Apply(trace[i], key, turns[i].request, turns[i].audited, turns[i].now).0
  }

  lemma RunStep(trace: seq<Slot>, key: Key, turns: seq<Turn>, k: nat)
    requires IsRun(trace, key, turns) && k < |turns| == |trace| - 1 && WellKept(trace[k])
    ensures FreshRequest(trace[k], turns[k].request) && Filed(trace[k].ledger.retained)
    ensures trace[k + 1] == Apply(trace[k], key, turns[k].request, turns[k].audited, turns[k].now).0
  {
    hide Apply, FreshRequest;
  }

  /** Every run keeps the ledger in order at every point. */
  lemma {:induction false} EveryRunIsWellKept(trace: seq<Slot>, key: Key, turns: seq<Turn>, i: nat)
    requires IsRun(trace, key, turns) && i < |trace| == |turns| + 1 && WellKept(trace[0])
    ensures WellKept(trace[i])
    decreases i
  {
    hide Apply, FreshRequest, WellKept, IsRun;
    if i > 0 {
      EveryRunIsWellKept(trace, key, turns, i - 1);
      var t := turns[i - 1];
      RunStep(trace, key, turns, i - 1);
      ApplyKeepsWellKept(trace[i - 1], key, t.request, t.audited, t.now);
    }
  }

  /** A retirement between two points of a trace took this version away. */
  ghost predicate RetiredBetween(trace: seq<Slot>, turns: seq<Turn>, i: nat, j: nat, id: string)
    requires i <= j < |trace| == |turns| + 1
  {
    exists k :: i <= k < j && turns[k].request.Retire? && id in trace[k].ledger.retained && Held(trace[k + 1], id) == None
  }

  /** Between any two points of a run, a version keeps its payload unless it was retired. */
  lemma {:induction false} EveryRunConserves(trace: seq<Slot>, key: Key, turns: seq<Turn>, i: nat, j: nat, id: string)
    requires IsRun(trace, key, turns) && i <= j < |trace| == |turns| + 1 && WellKept(trace[0])
    requires Held(trace[i], id).Some?
    ensures Held(trace[j], id) == Held(trace[i], id) || RetiredBetween(trace, turns, i, j, id)
    decreases j
  {
    hide Apply, WellKept, Held, FreshRequest, Filed;
    if i < j {
      var s, t := trace[j - 1], turns[j - 1];
      EveryRunConserves(trace, key, turns, i, j - 1, id);
      EveryRunIsWellKept(trace, key, turns, j - 1);
      RunStep(trace, key, turns, j - 1);
      if Held(s, id) == Held(trace[i], id) {
        ApplyConserves(s, key, t.request, t.audited, t.now, id);
      } else {
        var k :| i <= k < j - 1 && turns[k].request.Retire? && id in trace[k].ledger.retained && Held(trace[k + 1], id) == None;
        assert RetiredBetween(trace, turns, i, j, id);
      }
    }
  }

  lemma ApplyConserves(s: Slot, key: Key, r: Request, audited: bool, now: int, id: string)
    requires WellKept(s) && FreshRequest(s, r) && Held(s, id).Some?
    ensures var s' := Apply(s, key, r, audited, now).0;
            Held(s', id) == Held(s, id) || (r.Retire? && id in s.ledger.retained && Held(s', id) == None)
  {
    match r {
      case Stage(_, _, _) => StageAddsOne(s, key, r, audited, now, id);
      case Activate(_, _) => ActivateConserves(s, r, audited, now, id);
      case Rollback(_, _) => RollbackConserves(s, r, audited, now, id);
      case Retire(_, _) => RetireOnlyDrops(s, r, audited, id);
    }
    hide StageVersion, ActivateVersion, RollbackVersion, RetireVersion;
  }
}
