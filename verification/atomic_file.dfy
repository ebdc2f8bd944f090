/** Publishing a private file: write a temporary file, replace the destination, protect it.
    The result must tell whether the destination changed. */
module AtomicFile {

  datatype SaveResult = NotPublished | PublishedWithError | Saved

  predicate WasPublished(r: SaveResult) {
    r != NotPublished
  }

  const ATTEMPTS := 5

  /** One attempt of the operating system to replace the destination. */
  datatype Attempt = Replaced | TransientDenial | PermanentError

  /** How many attempts a sequence of outcomes costs: up to the first that is not transient. */
  function TransientPrefix(outcomes: seq<Attempt>): nat {
    if outcomes == [] || outcomes[0] != TransientDenial then 0 else 1 + TransientPrefix(outcomes[1..])
  }

  /** The bounded retry: at most five attempts, each wait twice the one before. */
  method ReplaceRetrying(outcomes: seq<Attempt>) returns (replaced: bool, attempts: nat, waited: nat)
    requires |outcomes| >= ATTEMPTS
    ensures 1 <= attempts <= 5
    ensures replaced == (outcomes[attempts - 1] == Replaced)
    ensures forall i :: 0 <= i < attempts - 1 ==> outcomes[i] == TransientDenial
    ensures attempts == 5 || outcomes[attempts - 1] != TransientDenial
    ensures waited == [0, 10, 30, 70, 150][attempts - 1]
  {
    var delay := 10;
    attempts, waited := 1, 0;
    while true
      invariant 1 <= attempts <= ATTEMPTS
      invariant forall i :: 0 <= i < attempts - 1 ==> outcomes[i] == TransientDenial
      invariant (attempts == 1 && delay == 10) || (attempts == 2 && delay == 20) || (attempts == 3 && delay == 40)
                || (attempts == 4 && delay == 80) || (attempts == 5 && delay == 160)
      invariant waited + 10 == delay
      decreases ATTEMPTS - attempts
    {
      var outcome := outcomes[attempts - 1];
      if outcome == Replaced || attempts >= ATTEMPTS || outcome != TransientDenial {
        return outcome == Replaced, attempts, waited;
      }
      waited := waited + delay;
      delay := delay * 2;
      attempts := attempts + 1;
    }
  }

  class Destination {
    var content: string

    constructor (content: string)
      ensures this.content == content
    {
      this.content := content;
    }

    /** `prepared` says that every step up to the replacement worked: the parent directory, the
        temporary file, its protection, the write, the sync and the close. */
    method WriteAtomically(next: string, prepared: bool, outcomes: seq<Attempt>, protectedAfter: bool) returns (r: SaveResult)
      requires |outcomes| >= ATTEMPTS
      modifies this
      ensures content == if WasPublished(r) then next else old(content)
      ensures WasPublished(r) <==> prepared && TransientPrefix(outcomes) < 5 && outcomes[TransientPrefix(outcomes)] == Replaced
      ensures r == Saved <==> WasPublished(r) && protectedAfter
    {
      if !prepared {
        PrefixInRange(outcomes);
        return NotPublished;
      }
      var replaced, attempts, _ := ReplaceRetrying(outcomes);
      PrefixIs(outcomes, attempts - 1);
      if !replaced {
        return NotPublished;
      }
      content := next;
      return if protectedAfter then Saved else PublishedWithError;
    }
  }

  lemma {:induction false} PrefixInRange(outcomes: seq<Attempt>)
    ensures TransientPrefix(outcomes) <= |outcomes|
  {
    if outcomes != [] {
      PrefixInRange(outcomes[1..]);
    }
  }

  /** `n` transient denials, then either something else or no more attempts. */
  lemma {:induction false} PrefixIs(outcomes: seq<Attempt>, n: nat)
    requires n < |outcomes|
    requires forall i :: 0 <= i < n ==> outcomes[i] == TransientDenial
    ensures outcomes[n] != TransientDenial ==> TransientPrefix(outcomes) == n
    ensures outcomes[n] == TransientDenial ==> TransientPrefix(outcomes) > n
  {
    if n > 0 {
      PrefixIs(outcomes[1..], n - 1);
    }
  }
}
