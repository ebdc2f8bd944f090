/** Launch identity leases: each signed lease is good for one use. The replay memory keeps
    the identifier of an accepted lease only until the lease expires. */
module LeaseReplay {

  datatype Lease = Lease(issuer: string, jti: string, expiresAt: int)

  /** One check of a lease; `genuine` says that issuer, scope, signature and binding hold. */
  datatype Attempt = Attempt(lease: Lease, genuine: bool, now: int)

  function Key(lease: Lease): string {
    lease.issuer + ":" + lease.jti
  }

  /** The entries whose expiry lies ahead. */
  function Unexpired(seen: map<string, int>, now: int): map<string, int> {
    map key | key in seen && seen[key] > now :: seen[key]
  }

  /** Whether an attempt is accepted against a memory. */
  predicate Accepts(seen: map<string, int>, a: Attempt) {
    a.genuine && a.lease.expiresAt > a.now && !(Key(a.lease) in seen && seen[Key(a.lease)] > a.now)
  }

  /** The memory after an attempt; refusals before the replay check leave it alone. */
  function Remembered(seen: map<string, int>, a: Attempt): map<string, int> {
    if !(a.genuine && a.lease.expiresAt > a.now) then seen
    else if Accepts(seen, a) then Unexpired(seen, a.now)[Key(a.lease) := a.lease.expiresAt]
    else Unexpired(seen, a.now)
  }

  class ReplayMemory {
    var seen: map<string, int>

    constructor ()
      ensures seen == map[]
    {
      seen := map[];
    }

    /** Drops what has expired, refuses a key that is still held, and otherwise holds it. */
    method Remember(lease: Lease, now: int) returns (unused: bool)
      modifies this
      ensures unused == !(Key(lease) in old(seen) && old(seen)[Key(lease)] > now)
      ensures seen == if unused then Unexpired(old(seen), now)[Key(lease) := lease.expiresAt] else Unexpired(old(seen), now)
    {
      var rest := seen.Keys;
      while rest != {}
        invariant rest <= seen.Keys <= old(seen).Keys
        invariant forall key :: key in seen ==> seen[key] == old(seen)[key]
        invariant forall key :: key in old(seen) && key !in rest ==> (key in seen <==> old(seen)[key] > now)
      {
        var key :| key in rest;
        rest := rest - {key};
        if seen[key] <= now {
          seen := seen - {key};
        }
      }
      assert seen == Unexpired(old(seen), now);
      if Key(lease) in seen && seen[Key(lease)] > now {
        return false;
      }
      seen := seen[Key(lease) := lease.expiresAt];
      return true;
    }

    method VerifyLease(a: Attempt) returns (accepted: bool)
      modifies this
      ensures accepted == Accepts(old(seen), a)
      ensures seen == Remembered(old(seen), a)
      ensures accepted ==> a.genuine && a.now < a.lease.expiresAt
      ensures a.genuine && a.now < a.lease.expiresAt && a.lease.issuer + ":" + a.lease.jti !in old(seen) ==> accepted
      ensures !(a.genuine && a.now < a.lease.expiresAt) ==> seen == old(seen)
    {
      if !a.genuine || a.lease.expiresAt <= a.now {
        return false;
      }
      accepted := Remember(a.lease, a.now);
    }
  }

  // ---------- runs ----------

  function MemoryAfter(run: seq<Attempt>): map<string, int> {
    if run == [] then map[] else Remembered(MemoryAfter(run[..|run| - 1]), run[|run| - 1])
  }

  predicate AcceptedAt(run: seq<Attempt>, i: nat)
    requires i < |run|
  {
    Accepts(MemoryAfter(run[..i]), run[i])
  }

  ghost predicate ClockAdvances(run: seq<Attempt>) {
    forall i, j :: 0 <= i < j < |run| ==> run[i].now <= run[j].now
  }

  /** An accepted lease is still held, with its own expiry, as long as it has not expired. */
  lemma {:induction false} AcceptedIsHeld(run: seq<Attempt>, i: nat, now: int)
    requires i < |run| && ClockAdvances(run) && AcceptedAt(run, i)
    requires run[|run| - 1].now <= now < run[i].lease.expiresAt
    ensures var key := Key(run[i].lease);
            key in MemoryAfter(run) && MemoryAfter(run)[key] == run[i].lease.expiresAt
    decreases |run|
  {
    var n := |run| - 1;
    if i < n {
      assert run[..n][..i] == run[..i];
      AcceptedIsHeld(run[..n], i, now);
    }
  }

  /** Two acceptances of one lease identifier are at least one lifetime apart; in particular
      the same signed lease is accepted at most once. */
  lemma AcceptedOnce(run: seq<Attempt>, i: nat, j: nat)
    requires i < j < |run| && ClockAdvances(run)
    requires AcceptedAt(run, i) && AcceptedAt(run, j)
    requires Key(run[i].lease) == Key(run[j].lease)
    ensures run[i].lease.expiresAt <= run[j].now
    ensures run[i].lease != run[j].lease
  {
    if run[j].now < run[i].lease.expiresAt {
      assert run[..j][..i] == run[..i];
      AcceptedIsHeld(run[..j], i, run[j].now);
      assert false;
    }
  }

  /** The memory holds nothing but accepted leases: an attempt refused as a replay has an
      accepted earlier one with the same identifier that has not expired. */
  lemma {:induction false} HeldWasAccepted(run: seq<Attempt>, key: string) returns (i: nat)
    requires key in MemoryAfter(run)
    ensures i < |run| && AcceptedAt(run, i) && Key(run[i].lease) == key
    ensures MemoryAfter(run)[key] == run[i].lease.expiresAt
  {
    var n := |run| - 1;
    var before, a := MemoryAfter(run[..n]), run[n];
    if Accepts(before, a) && Key(a.lease) == key {
      i := n;
    } else {
      i := HeldWasAccepted(run[..n], key);
      assert run[..n][..i] == run[..i];
    }
  }

  /** An attempt is accepted exactly when the lease is genuine, has not expired, and no lease with the
      same issuer and identifier was accepted before that has not expired either. */
  lemma AcceptedIff(run: seq<Attempt>, j: nat)
    requires j < |run| && ClockAdvances(run)
    ensures AcceptedAt(run, j) <==>
            && run[j].genuine && run[j].now < run[j].lease.expiresAt
            && !exists i :: 0 <= i < j && AcceptedAt(run, i) && run[j].now < run[i].lease.expiresAt
                            && run[i].lease.issuer + ":" + run[i].lease.jti == run[j].lease.issuer + ":" + run[j].lease.jti
  {
    var before := run[..j];
    forall i | 0 <= i < j && AcceptedAt(run, i) && run[j].now < run[i].lease.expiresAt
      ensures Key(run[i].lease) in MemoryAfter(before) && MemoryAfter(before)[Key(run[i].lease)] == run[i].lease.expiresAt
    {
      assert before[..i] == run[..i];
      AcceptedIsHeld(before, i, run[j].now);
    }
    var key := Key(run[j].lease);
    if key in MemoryAfter(before) && MemoryAfter(before)[key] > run[j].now {
      var i := HeldWasAccepted(before, key);
      assert before[..i] == run[..i];
      assert AcceptedAt(run, i);
    }
  }
}
