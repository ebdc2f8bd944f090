/** The age order on stored versions, and sorting and trimming by it. */
module VersionOrder {
  import opened Results
  import opened Vault
  import opened Text

  // ---------- age ----------

  function FirstTime(a: Option<int>, b: Option<int>, c: int): int {
    if a.Some? then a.value else if b.Some? then b.value else c
  }

  /** The time a version is sorted by. */
  function SortTime(v: StoredVersion): int {
    FirstTime(v.retainedAt, v.stagedAt, v.metadata.updatedAt)
  }

  predicate Older(v: StoredVersion, w: StoredVersion) {
    SortTime(v) < SortTime(w) || (SortTime(v) == SortTime(w) && LexLess(v.versionId, w.versionId))
  }

  lemma OlderTotal(v: StoredVersion, w: StoredVersion)
    ensures !Older(v, v) && !(Older(v, w) && Older(w, v))
    ensures v.versionId != w.versionId ==> Older(v, w) || Older(w, v)
  {
    LexTotal(v.versionId, w.versionId);
    LexTotal(w.versionId, v.versionId);
  }

  lemma OlderTransitive(u: StoredVersion, v: StoredVersion, w: StoredVersion)
    requires Older(u, v) && Older(v, w)
    ensures Older(u, w)
  {
    if SortTime(u) == SortTime(v) == SortTime(w) {
      LexTransitive(u.versionId, v.versionId, w.versionId);
    }
  }

  type Versions = map<string, StoredVersion>

  /** Every version sits under its own, nonempty identifier and has a retention time. */
  predicate Filed(m: Versions) {
    forall id :: id in m ==> id != "" && m[id].versionId == id && m[id].retainedAt.Some?
  }

  /** The first of a set of versions in the age order. */
  ghost predicate IsOldest(m: Versions, ids: set<string>, id: string)
    requires ids <= m.Keys
  {
    id in ids && forall other :: other in ids && other != id ==> Older(m[id], m[other])
  }

  ghost predicate IsNewest(m: Versions, ids: set<string>, id: string)
    requires ids <= m.Keys
  {
    id in ids && forall other :: other in ids && other != id ==> Older(m[other], m[id])
  }

  lemma OldestIsUnique(m: Versions, ids: set<string>, a: string, b: string)
    requires ids <= m.Keys && IsOldest(m, ids, a) && IsOldest(m, ids, b)
    ensures a == b
  {
    OlderTotal(m[a], m[b]);
  }

  lemma NewestIsUnique(m: Versions, ids: set<string>, a: string, b: string)
    requires ids <= m.Keys && IsNewest(m, ids, a) && IsNewest(m, ids, b)
    ensures a == b
  {
    OlderTotal(m[a], m[b]);
  }

  /** One pass, in whatever order the keys come. */
  method OldestOf(m: Versions, ids: set<string>) returns (oldest: string)
    requires Filed(m) && {} != ids <= m.Keys
    ensures IsOldest(m, ids, oldest)
  {
    hide Older;
    var rest := ids;
    oldest :| oldest in rest;
    rest := rest - {oldest};
    while rest != {}
      invariant oldest in ids && oldest !in rest && rest <= ids
      invariant IsOldest(m, ids - rest, oldest)
    {
      var id :| id in rest;
      rest := rest - {id};
      OlderTotal(m[id], m[oldest]);
      if Older(m[id], m[oldest]) {
        forall other | other in ids - rest && other != id
          ensures Older(m[id], m[other])
        {
          if other != oldest {
            OlderTransitive(m[id], m[oldest], m[other]);
          }
        }
        oldest := id;
      }
    }
    assert ids - rest == ids;
  }

  /** The scan for the newest retained version. */
  method NewestRetained(m: Versions) returns (newest: string)
    requires Filed(m)
    ensures m == map[] ==> newest == ""
    ensures m != map[] ==> IsNewest(m, m.Keys, newest)
  {
    newest := "";
    var newestAt := 0;
    var rest := m.Keys;
    while rest != {}
      invariant rest <= m.Keys
      invariant newest == "" ==> rest == m.Keys
      invariant newest != "" ==> newest in m && newestAt == SortTime(m[newest]) && IsNewest(m, m.Keys - rest, newest)
    {
      var id :| id in rest;
      rest := rest - {id};
      var at := FirstTime(m[id].retainedAt, Some(m[id].metadata.updatedAt), m[id].metadata.createdAt);
      assert at == SortTime(m[id]);
      if newest != "" {
        OlderTotal(m[newest], m[id]);
      }
      if newest == "" || at > newestAt || (at == newestAt && LexLess(newest, id)) {
        if newest != "" {
          NewestMoves(m, m.Keys - rest, newest, id);
        }
        newest, newestAt := id, at;
      }
    }
    assert m.Keys - rest == m.Keys;
  }

  lemma NewestMoves(m: Versions, ids: set<string>, newest: string, id: string)
    requires ids <= m.Keys && id in ids && newest in ids && newest != id && Older(m[newest], m[id])
    requires IsNewest(m, ids - {id}, newest)
    ensures IsNewest(m, ids, id)
  {
    hide Older;
    forall other | other in ids && other != id
      ensures Older(m[other], m[id])
    {
      if other != newest {
        OlderTransitive(m[other], m[newest], m[id]);
      }
    }
  }

  // ---------- sorting ----------

  /** `order` lists `ids`, oldest first. */
  ghost predicate SortedBy(m: Versions, ids: set<string>, order: seq<string>)
    requires ids <= m.Keys
  {
    if order == [] then ids == {}
    else IsOldest(m, ids, order[0]) && SortedBy(m, ids - {order[0]}, order[1..])
  }

  lemma {:induction false} SortedLength(m: Versions, ids: set<string>, order: seq<string>)
    requires ids <= m.Keys && SortedBy(m, ids, order)
    ensures |order| == |ids|
  {
    if order != [] {
      SortedLength(m, ids - {order[0]}, order[1..]);
    }
  }

  method SortedVersions(m: Versions, ids: set<string>) returns (order: seq<string>)
    requires Filed(m) && ids <= m.Keys
    ensures SortedBy(m, ids, order)
    decreases |ids|
  {
    if ids == {} {
      return [];
    }
    var id := OldestOf(m, ids);
    var rest := SortedVersions(m, ids - {id});
    order := [id] + rest;
    assert order[1..] == rest;
    hide Older;
  }

  // ---------- trimming ----------

  ghost function OldestId(m: Versions, ids: set<string>): (id: string)
    requires Filed(m) && {} != ids <= m.Keys
    ensures IsOldest(m, ids, id)
  {
    OldestExists(m, ids);
    var id :| IsOldest(m, ids, id);
    id
  }

  lemma {:induction false} OldestExists(m: Versions, ids: set<string>)
    requires Filed(m) && {} != ids <= m.Keys
    ensures exists id :: IsOldest(m, ids, id)
    decreases |ids|
  {
    hide Older;
    var id :| id in ids;
    var rest := ids - {id};
    if rest == {} {
      assert ids == {id};
      assert IsOldest(m, ids, id);
    } else {
      OldestExists(m, rest);
      var first :| IsOldest(m, rest, first);
      OlderTotal(m[id], m[first]);
      if Older(m[id], m[first]) {
        forall other | other in ids && other != id
          ensures Older(m[id], m[other])
        {
          if other != first {
            OlderTransitive(m[id], m[first], m[other]);
          }
        }
        assert IsOldest(m, ids, id);
      } else {
        assert IsOldest(m, ids, first);
      }
    }
  }

  /** Dropping the oldest until `limit` are left. */
  ghost function Trimmed(m: Versions, ids: set<string>, limit: nat): (kept: set<string>)
    requires Filed(m) && ids <= m.Keys
    ensures kept <= ids
    decreases |ids|
  {
    if |ids| <= limit then ids else Trimmed(m, ids - {OldestId(m, ids)}, limit)
  }

  function EffectiveLimit(limit: int): nat {
    if limit <= 0 then 1 else limit
  }

  /** What trimming keeps: the newest `limit` versions. */
  lemma {:induction false} TrimmedKeepsNewest(m: Versions, ids: set<string>, limit: nat)
    requires Filed(m) && ids <= m.Keys
    ensures var kept := Trimmed(m, ids, limit);
            && |kept| == (if |ids| <= limit then |ids| else limit)
            && (forall k, d :: k in kept && d in ids - kept ==> Older(m[d], m[k]))
    decreases |ids|
  {
    hide Older;
    if |ids| > limit {
      TrimmedKeepsNewest(m, ids - {OldestId(m, ids)}, limit);
    }
  }

  function Restrict(m: Versions, ids: set<string>): Versions {
    map id | id in m && id in ids :: m[id]
  }

  /** The trimming loop over the sorted versions, keeping `previous` on a retained version. */
  method TrimRetained(m: Versions, previous: string, limit: int) returns (kept: Versions, previous': string, retired: bool)
    requires Filed(m)
    ensures kept == Restrict(m, Trimmed(m, m.Keys, EffectiveLimit(limit)))
    ensures retired <==> |m| > EffectiveLimit(limit)
    ensures previous in m && previous !in kept ==> IsNewest(m, Trimmed(m, m.Keys, EffectiveLimit(limit)), previous')
    ensures !(previous in m && previous !in kept) ==> previous' == previous
  {
    hide Older, SortedBy, Trimmed, IsNewest;
    var bound := EffectiveLimit(limit);
    kept, previous', retired := m, previous, false;
    var versions := SortedVersions(m, m.Keys);
    ghost var ids := m.Keys;
    SortedLength(m, ids, versions);
    while |versions| > bound
      invariant ids <= m.Keys && kept == Restrict(m, ids) && SortedBy(m, ids, versions) && |versions| == |ids|
      invariant Trimmed(m, ids, bound) == Trimmed(m, m.Keys, bound)
      invariant retired <==> |ids| < |m|
      invariant |m| > bound ==> |ids| >= bound
      invariant |m| <= bound ==> ids == m.Keys
      invariant !(previous in m && previous !in ids) ==> previous' == previous
      invariant previous in m && previous !in ids ==> IsNewest(m, ids, previous')
      decreases |versions|
    {
      var id := versions[0];
      TrimStep(m, ids, versions, bound);
      kept := kept - {id};
      assert kept == Restrict(m, ids - {id}) && kept.Keys == ids - {id};
      if previous' == id {
        previous' := NewestRetained(kept);
        NewestOfRestriction(m, ids - {id}, previous');
      } else if previous in m && previous !in ids {
        NewestWithoutOldest(m, ids, id, previous');
      }
      ids := ids - {id};
      versions := versions[1..];
      retired := true;
    }
    TrimDone(m, ids, bound);
  }

  lemma TrimDone(m: Versions, ids: set<string>, bound: nat)
    requires Filed(m) && ids <= m.Keys && |ids| <= bound
    ensures Trimmed(m, ids, bound) == ids
  {}

  /** One turn of the loop. */
  lemma TrimStep(m: Versions, ids: set<string>, order: seq<string>, bound: nat)
    requires Filed(m) && ids <= m.Keys && SortedBy(m, ids, order) && |order| == |ids| > bound
    ensures order[0] in ids
    ensures |ids - {order[0]}| == |ids| - 1 && SortedBy(m, ids - {order[0]}, order[1..])
    ensures Trimmed(m, ids - {order[0]}, bound) == Trimmed(m, ids, bound)
  {
    OldestIsUnique(m, ids, order[0], OldestId(m, ids));
    hide Older;
  }

  lemma NewestWithoutOldest(m: Versions, ids: set<string>, oldest: string, newest: string)
    requires ids <= m.Keys && IsNewest(m, ids, newest) && oldest != newest
    ensures IsNewest(m, ids - {oldest}, newest)
  {
    hide Older;
  }

  lemma NewestOfRestriction(m: Versions, ids: set<string>, id: string)
    requires ids <= m.Keys && IsNewest(Restrict(m, ids), Restrict(m, ids).Keys, id)
    ensures IsNewest(m, ids, id)
  {
    hide Older;
    var r := Restrict(m, ids);
    assert r.Keys == ids;
    forall other | other in ids && other != id
      ensures Older(m[other], m[id])
    {
      assert Older(r[other], r[id]);
    }
  }
}
