/** Failure counters with a cooldown. Times are nanoseconds; a missing `activeUntil` is Go's
    zero time. */
module Lockout {
  import opened Results

  type Scope = string

  const SECOND := 1_000_000_000
  const THRESHOLD := 3
  const COOLDOWN := 5 * 60 * SECOND

  datatype Entry = Entry(failures: nat, activeUntil: Option<int>, lastFailure: int)

  datatype Decision = Decision(active: bool, retryAfterSeconds: int)

  // ---------- what a history means ----------

  datatype Event = Failure(scope: Scope, at: int) | Success(scope: Scope) | Cleared(scope: Scope)

  /** Failures counted for a scope, and the time of the last one. */
  datatype Count = Count(failures: nat, last: int)

  predicate Locks(c: Count, now: int) {
    c.failures >= THRESHOLD && now < c.last + COOLDOWN
  }

  function NextCount(before: Count, e: Event, scope: Scope): Count {
    if e.scope != scope then before
    else if !e.Failure? then Count(0, 0)
    else if Locks(before, e.at) then before
    else if before.failures >= THRESHOLD then Count(1, e.at)
    else Count(before.failures + 1, e.at)
  }

  /** The count a history leaves. It knows nothing of queries or of dropped entries: a failure
      while locked is not counted, and the first one after a lock has expired starts afresh. */
  function CountOf(h: seq<Event>, scope: Scope): Count {
    if h == [] then Count(0, 0) else NextCount(CountOf(h[..|h| - 1], scope), h[|h| - 1], scope)
  }

  predicate LockedAt(h: seq<Event>, scope: Scope, now: int) {
    Locks(CountOf(h, scope), now)
  }

  lemma CountAfter(h: seq<Event>, e: Event)
    ensures forall scope: Scope :: CountOf(h + [e], scope) == NextCount(CountOf(h, scope), e, scope)
  {
    assert (h + [e])[..|h|] == h;
  }

  /** The positions of the counted failures: distinct attempts on this scope, in order, with
      no success or clearing after the first, the last one at the recorded time. */
  ghost predicate Witnesses(h: seq<Event>, scope: Scope, ps: seq<nat>) {
    && AreFailures(h, scope, ps) && Increasing(ps)
    && (ps != [] ==> OnlyFailures(h, scope, ps[0]) && h[ps[|ps| - 1]].at == CountOf(h, scope).last)
  }

  ghost predicate AreFailures(h: seq<Event>, scope: Scope, ps: seq<nat>) {
    forall i :: 0 <= i < |ps| ==> ps[i] < |h| && h[ps[i]].Failure? && h[ps[i]].scope == scope
  }

  ghost predicate Increasing(ps: seq<nat>) {
    forall i, j :: 0 <= i < j < |ps| ==> ps[i] < ps[j]
  }

  ghost predicate OnlyFailures(h: seq<Event>, scope: Scope, from: nat) {
    forall k :: from <= k < |h| && h[k].scope == scope ==> h[k].Failure?
  }

  lemma FailuresStay(h: seq<Event>, scope: Scope, ps: seq<nat>)
    requires h != [] && AreFailures(h[..|h| - 1], scope, ps)
    ensures AreFailures(h, scope, ps)
    ensures forall i :: 0 <= i < |ps| ==> ps[i] < |h| - 1 && h[ps[i]] == h[..|h| - 1][ps[i]]
  {}

  lemma OnlyFailuresStay(h: seq<Event>, scope: Scope, from: nat)
    requires h != [] && OnlyFailures(h[..|h| - 1], scope, from)
    requires h[|h| - 1].scope == scope ==> h[|h| - 1].Failure?
    ensures OnlyFailures(h, scope, from)
  {
    var before := h[..|h| - 1];
    forall k | from <= k < |h| && h[k].scope == scope
      ensures h[k].Failure?
    {
      if k < |before| {
        assert h[k] == before[k];
      }
    }
  }

  /** An event that leaves the count leaves its witnesses. */
  lemma WitnessesStay(h: seq<Event>, scope: Scope, ps: seq<nat>)
    requires h != [] && Witnesses(h[..|h| - 1], scope, ps)
    requires h[|h| - 1].scope == scope ==> h[|h| - 1].Failure?
    requires CountOf(h, scope) == CountOf(h[..|h| - 1], scope)
    ensures Witnesses(h, scope, ps)
  {
    FailuresStay(h, scope, ps);
    hide CountOf, AreFailures, Increasing, OnlyFailures;
    if ps != [] {
      OnlyFailuresStay(h, scope, ps[0]);
    }
  }

  /** A counted failure joins the witnesses. */
  lemma WitnessJoins(h: seq<Event>, scope: Scope, ps: seq<nat>)
    requires h != [] && (ps == [] || Witnesses(h[..|h| - 1], scope, ps))
    requires h[|h| - 1].scope == scope && h[|h| - 1].Failure? && CountOf(h, scope).last == h[|h| - 1].at
    ensures Witnesses(h, scope, ps + [|h| - 1])
  {
    hide CountOf;
    var n := |h| - 1;
    if ps == [] {
      assert OnlyFailures(h, scope, n);
    } else {
      FailuresStay(h, scope, ps);
      OnlyFailuresStay(h, scope, ps[0]);
      hide OnlyFailures;
      assert (ps + [n])[0] == ps[0];
    }
  }

  lemma {:induction false} CountHasWitnesses(h: seq<Event>, scope: Scope) returns (ps: seq<nat>)
    ensures |ps| == CountOf(h, scope).failures <= THRESHOLD
    ensures Witnesses(h, scope, ps)
  {
    ps := [];
    if h == [] {
      NoWitnesses(h, scope);
      return;
    }
    var n := |h| - 1;
    var e := h[n];
    var before := CountOf(h[..n], scope);
    assert CountOf(h, scope) == NextCount(before, e, scope);
    var qs := CountHasWitnesses(h[..n], scope);
    hide Witnesses, CountOf;
    if e.scope != scope || (e.Failure? && Locks(before, e.at)) {
      WitnessesStay(h, scope, qs);
      ps := qs;
    } else if e.Failure? {
      ps := if before.failures >= THRESHOLD then [] else qs;
      WitnessJoins(h, scope, ps);
      ps := ps + [n];
    } else {
      NoWitnesses(h, scope);
    }
  }

  lemma NoWitnesses(h: seq<Event>, scope: Scope)
    ensures Witnesses(h, scope, [])
  {}

  /** A scope is locked only by THRESHOLD failures of its own with no success or clearing in
      between, the last of them less than the cooldown ago. */
  lemma LockNeedsFailures(h: seq<Event>, scope: Scope, now: int) returns (ps: seq<nat>)
    requires LockedAt(h, scope, now)
    ensures |ps| == THRESHOLD && Witnesses(h, scope, ps) && now < h[ps[|ps| - 1]].at + COOLDOWN
  {
    ps := CountHasWitnesses(h, scope);
  }

  /** The times of the failures of a scope, in order. */
  function FailureTimes(h: seq<Event>, scope: Scope): seq<int> {
    if h == [] then []
    else
      var n := |h| - 1;
      var before := FailureTimes(h[..n], scope);
      if h[n].Failure? && h[n].scope == scope then before + [h[n].at] else before
  }

  /** A count from which the next failure, at this time, is the first of a new row. */
  predicate StartsAfresh(c: Count, at: int) {
    c.failures == 0 || (c.failures >= THRESHOLD && c.last + COOLDOWN <= at)
  }

  /** What a row of failures counts, whatever happens to other scopes in between: the first THRESHOLD
      of them, if the others came while these held the lock. */
  lemma {:induction false} RowCounts(h: seq<Event>, t: seq<Event>, scope: Scope)
    requires forall i :: 0 <= i < |t| && t[i].scope == scope ==> t[i].Failure?
    requires IsRow(CountOf(h, scope), FailureTimes(t, scope))
    ensures CountOf(h + t, scope) == RowCount(CountOf(h, scope), FailureTimes(t, scope))
    decreases |t|
  {
    hide CountOf, NextCount, IsRow, StartsAfresh;
    if t == [] {
      assert h + t == h;
    } else {
      hide RowCount;
      var n := |t| - 1;
      var before, last := t[..n], t[n];
      assert FailureTimes(t, scope) ==
             if last.scope == scope then FailureTimes(before, scope) + [last.at] else FailureTimes(before, scope);
      RowStep(CountOf(h, scope), FailureTimes(before, scope), last, scope);
      RowCounts(h, before, scope);
      assert h + t == (h + before) + [last];
      CountAfter(h + before, last);
    }
  }

  /** A row starts afresh, and what follows its first THRESHOLD failures comes under their lock. */
  predicate IsRow(start: Count, times: seq<int>) {
    && (times != [] ==> StartsAfresh(start, times[0]))
    && (forall i :: THRESHOLD <= i < |times| ==> times[i] < times[THRESHOLD - 1] + COOLDOWN)
  }

  function RowCount(start: Count, times: seq<int>): Count {
    if times == [] then start
    else if |times| <= THRESHOLD then Count(|times|, times[|times| - 1])
    else Count(THRESHOLD, times[THRESHOLD - 1])
  }

  lemma RowStep(start: Count, times: seq<int>, e: Event, scope: Scope)
    requires e.scope == scope ==> e.Failure?
    requires IsRow(start, if e.scope == scope then times + [e.at] else times)
    ensures IsRow(start, times)
    ensures NextCount(RowCount(start, times), e, scope) ==
            RowCount(start, if e.scope == scope then times + [e.at] else times)
  {
    if e.scope == scope {
      var longer := times + [e.at];
      assert forall i :: 0 <= i < |times| ==> times[i] == longer[i];
      assert longer[|times|] == e.at;
    }
  }

  /** In such a row the scope is locked exactly when it has THRESHOLD failures and the cooldown from
      the THRESHOLD-th is not over: the converse of `LockNeedsFailures`. */
  lemma FailuresLock(h: seq<Event>, t: seq<Event>, scope: Scope, now: int)
    requires forall i :: 0 <= i < |t| && t[i].scope == scope ==> t[i].Failure?
    requires FailureTimes(t, scope) != [] && IsRow(CountOf(h, scope), FailureTimes(t, scope))
    ensures var ts := FailureTimes(t, scope);
            LockedAt(h + t, scope, now) <==> |ts| >= THRESHOLD && now < ts[THRESHOLD - 1] + COOLDOWN
  {
    RowCounts(h, t, scope);
    hide CountOf, FailureTimes;
  }

  /** Three failures in a row lock for exactly five minutes from the third; two do not lock. */
  lemma ThreeStrikes(scope: Scope, a: int, b: int, c: int, now: int)
    ensures LockedAt([Failure(scope, a), Failure(scope, b), Failure(scope, c)], scope, now) <==> now < c + 300_000_000_000
    ensures !LockedAt([Failure(scope, a), Failure(scope, b)], scope, now)
  {
    var e1, e2, e3 := Failure(scope, a), Failure(scope, b), Failure(scope, c);
    assert [e1, e2, e3] == [] + [e1] + [e2] + [e3] && [e1, e2] == [] + [e1] + [e2];
    CountAfter([], e1);
    CountAfter([] + [e1], e2);
    CountAfter([] + [e1] + [e2], e3);
    assert CountOf([], scope) == Count(0, 0);
    hide CountOf;
  }

  // ---------- the store ----------

  /** What the map must hold for one scope: the count of the history, or nothing if that
      count is zero or belongs to a lock that is over. */
  predicate Represents(entries: map<Scope, Entry>, c: Count, scope: Scope, clock: int) {
    && (c.failures > 0 ==> c.last <= clock)
    && if scope in entries then
      && 1 <= c.failures <= THRESHOLD
      && entries[scope] == Entry(c.failures, if c.failures == THRESHOLD then Some(c.last + COOLDOWN) else None, c.last)
    else
      c.failures == 0 || (c.failures >= THRESHOLD && c.last + COOLDOWN <= clock)
  }

  lemma ActiveIsLocked(entries: map<Scope, Entry>, h: seq<Event>, scope: Scope, clock: int)
    requires Represents(entries, CountOf(h, scope), scope, clock)
    ensures LockedAt(h, scope, clock) <==>
            scope in entries && entries[scope].activeUntil.Some? && clock < entries[scope].activeUntil.value
  {
    hide CountOf;
  }

  /** Dropping an entry whose lock is over changes nothing for any scope. */
  lemma DropKeepsAll(entries: map<Scope, Entry>, h: seq<Event>, dropped: Scope, clock: int)
    requires forall scope: Scope :: Represents(entries, CountOf(h, scope), scope, clock)
    requires dropped in entries && entries[dropped].activeUntil.Some? && entries[dropped].activeUntil.value <= clock
    ensures forall scope: Scope :: Represents(entries - {dropped}, CountOf(h, scope), scope, clock)
  {
    hide CountOf;
    forall scope: Scope
      ensures Represents(entries - {dropped}, CountOf(h, scope), scope, clock)
    {
      assert Represents(entries, CountOf(h, scope), scope, clock);
    }
  }

  lemma LaterClock(entries: map<Scope, Entry>, h: seq<Event>, clock: int, now: int)
    requires clock <= now && forall scope: Scope :: Represents(entries, CountOf(h, scope), scope, clock)
    ensures forall scope: Scope :: Represents(entries, CountOf(h, scope), scope, now)
  {
    hide CountOf;
    forall scope: Scope
      ensures Represents(entries, CountOf(h, scope), scope, now)
    {
      assert Represents(entries, CountOf(h, scope), scope, clock);
    }
  }

  class LockoutStore {
    var entries: map<Scope, Entry>
    ghost var history: seq<Event>
    ghost var clock: int

    ghost predicate Valid()
      reads this
    {
      forall scope: Scope :: Represents(entries, CountOf(history, scope), scope, clock)
    }

    constructor (ghost start: int)
      ensures Valid() && history == [] && clock == start
    {
      entries, history, clock := map[], [], start;
    }

    /** The number of seconds is rounded down, but never below one: whoever waits that long comes
        less than a second too early, and not too early at all exactly when the time left is a whole
        number of seconds or at most one. */
    method Decide(entry: Entry, now: int) returns (d: Decision)
      ensures d.active <==> entry.activeUntil.Some? && now < entry.activeUntil.value
      ensures d.active ==>
                var left := entry.activeUntil.value - now;
                && 1 <= d.retryAfterSeconds
                && (d.retryAfterSeconds * SECOND <= left || d.retryAfterSeconds == 1)
                && left < (d.retryAfterSeconds + 1) * SECOND
                && (entry.activeUntil.value <= now + d.retryAfterSeconds * SECOND <==> left <= SECOND || left % SECOND == 0)
      ensures !d.active ==> d.retryAfterSeconds == 0
    {
      d := Decision(false, 0);
      if entry.activeUntil.Some? && entry.activeUntil.value > now {
        var left := (entry.activeUntil.value - now) / SECOND;
        d := Decision(true, if left < 1 then 1 else left);
      }
    }

    /** Answers for `scope` at `now`, and drops its entry when its lock is over. */
    method ActiveLocked(scope: Scope, now: int) returns (d: Decision)
      requires Valid() && clock <= now
      modifies this
      ensures Valid() && history == old(history) && clock == now
      ensures d.active <==> LockedAt(history, scope, now)
      ensures d.active ==> 1 <= d.retryAfterSeconds <= COOLDOWN / SECOND
      ensures !d.active ==> scope in entries ==> entries[scope].activeUntil.None?
    {
      assert Represents(entries, CountOf(history, scope), scope, clock);
      clock := now;
      d := Decision(false, 0);
      if scope in entries {
        var entry := entries[scope];
        if entry.activeUntil.Some? && entry.activeUntil.value > now {
          d := Decide(entry, now);
        } else if entry.activeUntil.Some? {
          entries := entries - {scope};
        }
      }
    }

    method Active(scope: Scope, now: int) returns (d: Decision)
      requires Valid() && clock <= now
      modifies this
      ensures Valid() && history == old(history) && clock == now
      ensures d.active <==> LockedAt(history, scope, now)
      ensures d.active ==> 1 <= d.retryAfterSeconds <= COOLDOWN / SECOND
    {
      d := ActiveLocked(scope, now);
    }

    method RecordFailure(scope: Scope, now: int) returns (d: Decision, started: bool)
      requires Valid() && clock <= now
      modifies this
      ensures Valid() && history == old(history) + [Failure(scope, now)] && clock == now
      ensures d.active <==> LockedAt(history, scope, now)
      ensures started <==> !LockedAt(old(history), scope, now) && LockedAt(history, scope, now)
      ensures d.active ==> 1 <= d.retryAfterSeconds <= COOLDOWN / SECOND
      ensures started ==> d.retryAfterSeconds == COOLDOWN / SECOND
    {
      ghost var h := history;
      d := ActiveLocked(scope, now);
      started := false;
      assert Represents(entries, CountOf(h, scope), scope, now);
      CountAfter(h, Failure(scope, now));
      history := h + [Failure(scope, now)];
      if d.active {
        return;
      }
      var entry := if scope in entries then entries[scope] else Entry(0, None, 0);
      // a lock that is over was dropped above, so there is none left to reset here
      assert entry.activeUntil.None?;
      entry := entry.(failures := entry.failures + 1, lastFailure := now);
      if entry.failures >= THRESHOLD {
        entry := entry.(failures := THRESHOLD, activeUntil := Some(now + COOLDOWN));
        started := true;
      }
      entries := entries[scope := entry];
      d := Decide(entry, now);
    }

    method RecordSuccess(scope: Scope)
      requires Valid()
      modifies this
      ensures Valid() && history == old(history) + [Success(scope)] && clock == old(clock)
      ensures CountOf(history, scope).failures == 0
    {
      CountAfter(history, Success(scope));
      history := history + [Success(scope)];
      entries := entries - {scope};
    }

    method Clear(scope: Scope) returns (existed: bool)
      requires Valid()
      modifies this
      ensures Valid() && history == old(history) + [Cleared(scope)] && clock == old(clock)
      ensures LockedAt(old(history), scope, clock) ==> existed
      ensures existed ==> CountOf(old(history), scope).failures > 0
      ensures 0 < CountOf(old(history), scope).failures < THRESHOLD ==> existed
      ensures CountOf(history, scope).failures == 0
    {
      assert Represents(entries, CountOf(history, scope), scope, clock);
      CountAfter(history, Cleared(scope));
      existed := scope in entries;
      history := history + [Cleared(scope)];
      entries := entries - {scope};
    }

    /** Counts the locked scopes and drops the locks that are over. */
    method ActiveCount(now: int) returns (count: nat)
      requires Valid() && clock <= now
      modifies this
      ensures Valid() && history == old(history) && clock == now
      ensures count == |set s | s in old(entries) && LockedAt(history, s, now)|
      ensures forall s: Scope :: LockedAt(history, s, now) ==> s in old(entries)
    {
      hide Represents, CountOf, LockedAt;
      LaterClock(entries, history, clock, now);
      clock := now;
      count := 0;
      forall s: Scope | LockedAt(history, s, now)
        ensures s in entries
      {
        ActiveIsLocked(entries, history, s, now);
      }
      var rest := entries.Keys;
      ghost var counted: set<Scope> := {};
      while rest != {}
        invariant rest <= entries.Keys && rest <= old(entries).Keys
        invariant Valid() && history == old(history) && clock == now
        invariant count == |counted|
        invariant counted == set s | s in old(entries) && s !in rest && LockedAt(history, s, now)
      {
        var scope :| scope in rest;
        ActiveIsLocked(entries, history, scope, now);
        rest := rest - {scope};
        var entry := entries[scope];
        if entry.activeUntil.Some? && entry.activeUntil.value > now {
          counted := counted + {scope};
          count := count + 1;
        } else if entry.activeUntil.Some? {
          DropKeepsAll(entries, history, scope, now);
          entries := entries - {scope};
        }
      }
      assert counted == set s | s in old(entries) && LockedAt(history, s, now);
    }
  }
}
