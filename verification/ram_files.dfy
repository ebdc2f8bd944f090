/** The in-memory file grants behind the loopback file server: one grant per owner, found by
    the digest of its token. A digest is a term over the token, so it is collision free. */
module RamFiles {
  import opened Results

  const MAX_FILE_BYTES := 256 * 1024
  const MAX_GRANT_BYTES := 768 * 1024
  const MAX_STORE_BYTES := 64 * 1024 * 1024
  const MAX_GRANTS := 1024
  const MAX_FILES := 128
  const MAX_PATH := 512

  datatype Digest = DigestOf(token: string)

  datatype FileInput = FileInput(path: string, content: string)

  datatype Grant = Grant(owner: string, files: map<string, string>, size: nat)

  datatype Error = InvalidGrant | DuplicateFile | DirectoryConflict | GrantTooLarge | CapabilityUnavailable | Unavailable

  // ---------- paths ----------

  predicate NameChar(c: char) {
    'a' <= c <= 'z' || 'A' <= c <= 'Z' || '0' <= c <= '9' || c == '.' || c == '_' || c == '-'
  }

  function SplitOnSlash(p: string): (parts: seq<string>)
    ensures parts != []
  {
    if p == [] then [[]]
    else
      var rest := SplitOnSlash(p[1..]);
      if p[0] == '/' then [[]] + rest else [[p[0]] + rest[0]] + rest[1..]
  }

  predicate ValidPart(part: string) {
    part != "" && part != "." && part != ".." && forall i :: 0 <= i < |part| ==> NameChar(part[i])
  }

  predicate ValidPath(p: string) {
    && 0 < |p| <= MAX_PATH
    && var parts := SplitOnSlash(p);
       forall i :: 0 <= i < |parts| ==> ValidPart(parts[i])
  }

  /** One path names a directory on the way to the other. */
  predicate Conflict(p: string, q: string) {
    p + "/" <= q || q + "/" <= p
  }

  /** No name is both a file and a directory. */
  ghost predicate PrefixFree(files: map<string, string>) {
    forall p, q :: p in files && q in files ==> !(p + "/" <= q)
  }

  /** The files of a grant: valid names, none both a file and a directory. */
  ghost predicate ServableFiles(files: map<string, string>) {
    PrefixFree(files) && forall p :: p in files ==> ValidPath(p)
  }

  lemma {:induction false} SplitOfSlash(p: string, k: nat)
    requires k < |p| && p[k] == '/'
    ensures |SplitOnSlash(p)| >= 2
    ensures k == |p| - 1 ==> var parts := SplitOnSlash(p); parts[|parts| - 1] == ""
  {
    if k > 0 {
      SplitOfSlash(p[1..], k - 1);
    }
  }

  /** A valid path never ends in a slash, so a request for one with a slash names no file. */
  lemma ValidPathHasNoTrailingSlash(p: string)
    requires ValidPath(p)
    ensures p[|p| - 1] != '/'
  {
    var parts := SplitOnSlash(p);
    assert ValidPart(parts[|parts| - 1]);
    if p[|p| - 1] == '/' {
      SplitOfSlash(p, |p| - 1);
    }
  }

  /** One step of the splitting. */
  lemma SplitStep(c: char, p: string)
    ensures SplitOnSlash([c] + p) ==
            if c == '/' then [""] + SplitOnSlash(p) else [[c] + SplitOnSlash(p)[0]] + SplitOnSlash(p)[1..]
  {
    assert ([c] + p)[1..] == p;
  }

  lemma {:induction false} SplitJoins(a: string, b: string)
    ensures SplitOnSlash(a + "/" + b) == SplitOnSlash(a) + SplitOnSlash(b)
  {
    if a == [] {
      assert a + "/" + b == ['/'] + b;
      SplitStep('/', b);
    } else {
      hide SplitOnSlash;
      var c, rest := a[0], a[1..];
      SplitJoins(rest, b);
      SplitStep(c, rest);
      SplitStep(c, rest + "/" + b);
      assert a == [c] + rest && a + "/" + b == [c] + (rest + "/" + b);
      HeadJoins(c, SplitOnSlash(rest), SplitOnSlash(b));
    }
  }

  lemma HeadJoins(c: char, x: seq<string>, y: seq<string>)
    requires x != []
    ensures [[c] + (x + y)[0]] + (x + y)[1..] == ([[c] + x[0]] + x[1..]) + y
    ensures [""] + (x + y) == ([""] + x) + y
  {
    assert (x + y)[0] == x[0] && (x + y)[1..] == x[1..] + y;
  }

  lemma {:induction false} SplitOfName(p: string)
    requires '/' !in p
    ensures SplitOnSlash(p) == [p]
  {
    if p != [] {
      SplitOfName(p[1..]);
      SplitStep(p[0], p[1..]);
      assert p == [p[0]] + p[1..];
    }
  }

  /** Every part of the path is a name. */
  predicate AllNames(p: string) {
    var parts := SplitOnSlash(p);
    forall i :: 0 <= i < |parts| ==> ValidPart(parts[i])
  }

  /** Which paths are accepted: up to 512 characters; a path with a slash if both sides are made of
      names; and one without if it is a name, which is not empty, not a dot or two, and made of
      letters, digits, dots, underscores and hyphens. So no path climbs or repeats a slash. */
  lemma ValidPathIff(p: string, a: string, b: string)
    ensures ValidPath(p) <==> 0 < |p| <= 512 && AllNames(p)
    ensures AllNames(a + "/" + b) <==> AllNames(a) && AllNames(b)
    ensures '/' !in p ==>
              (AllNames(p) <==>
               && p !in {"", ".", ".."}
               && forall i :: 0 <= i < |p| ==>
                    'a' <= p[i] <= 'z' || 'A' <= p[i] <= 'Z' || '0' <= p[i] <= '9' || p[i] in "._-")
    ensures !AllNames("..") && !AllNames(".") && !AllNames("")
  {
    SplitJoins(a, b);
    if '/' !in p {
      SplitOfName(p);
      assert AllNames(p) <==> ValidPart(p) by {
        assert SplitOnSlash(p)[0] == p;
      }
    }
    SplitOfName("..");
    SplitOfName(".");
    SplitOfName("");
    assert !ValidPart(SplitOnSlash("..")[0]) && !ValidPart(SplitOnSlash(".")[0]) && !ValidPart(SplitOnSlash("")[0]);
    JoinedNames(a, b);
    hide ValidPart, SplitOnSlash;
  }

  lemma JoinedNames(a: string, b: string)
    requires SplitOnSlash(a + "/" + b) == SplitOnSlash(a) + SplitOnSlash(b)
    ensures AllNames(a + "/" + b) <==> AllNames(a) && AllNames(b)
  {
    hide ValidPart, SplitOnSlash;
    var x, y := SplitOnSlash(a), SplitOnSlash(b);
    if AllNames(a + "/" + b) {
      assert forall i :: 0 <= i < |x| ==> (x + y)[i] == x[i];
      assert forall i :: 0 <= i < |y| ==> (x + y)[|x| + i] == y[i];
    }
  }

  // ---------- sums over maps ----------

  ghost function Total(grants: map<Digest, Grant>): nat {
    if grants == map[] then 0 else
    var d :| d in grants;
    grants[d].size + Total(grants - {d})
  }

  lemma {:induction false} TotalRemove(grants: map<Digest, Grant>, d: Digest)
    requires d in grants
    ensures Total(grants) == grants[d].size + Total(grants - {d})
    decreases |grants|
  {
    var e :| e in grants && Total(grants) == grants[e].size + Total(grants - {e});
    if e != d {
      TotalRemove(grants - {e}, d);
      TotalRemove(grants - {d}, e);
      assert grants - {e} - {d} == grants - {d} - {e};
    }
  }

  lemma TotalInsert(grants: map<Digest, Grant>, d: Digest, g: Grant)
    requires d !in grants
    ensures Total(grants[d := g]) == Total(grants) + g.size
  {
    TotalRemove(grants[d := g], d);
    assert grants[d := g] - {d} == grants;
  }

  // ---------- the inputs of a grant ----------

  function Size(inputs: seq<FileInput>): nat {
    if inputs == [] then 0 else Size(inputs[..|inputs| - 1]) + |inputs[|inputs| - 1].content|
  }

  predicate AcceptableInputs(inputs: seq<FileInput>) {
    && (forall i :: 0 <= i < |inputs| ==> ValidPath(inputs[i].path) && |inputs[i].content| <= MAX_FILE_BYTES)
    && (forall i, j :: 0 <= i < j < |inputs| ==>
          inputs[i].path != inputs[j].path && !Conflict(inputs[i].path, inputs[j].path))
    && Size(inputs) <= MAX_GRANT_BYTES
  }

  ghost predicate HoldsExactly(files: map<string, string>, inputs: seq<FileInput>) {
    && (forall i :: 0 <= i < |inputs| ==> inputs[i].path in files && files[inputs[i].path] == inputs[i].content)
    && (forall p :: p in files ==> exists i :: 0 <= i < |inputs| && inputs[i].path == p)
  }

  lemma {:induction false} SizeOfPrefix(inputs: seq<FileInput>, n: nat)
    requires n <= |inputs|
    ensures Size(inputs[..n]) <= Size(inputs)
  {
    if n < |inputs| {
      var m := |inputs| - 1;
      SizeOfPrefix(inputs[..m], n);
      assert inputs[..m][..n] == inputs[..n];
    } else {
      assert inputs[..n] == inputs;
    }
  }

  /** The limits of a grant: 256 KiB a file and 768 KiB in all; one file within them is enough. */
  lemma InputLimits(inputs: seq<FileInput>, f: FileInput)
    ensures AcceptableInputs(inputs) ==>
              Size(inputs) <= 786432 && forall i :: 0 <= i < |inputs| ==> |inputs[i].content| <= 262144
    ensures AcceptableInputs([f]) <==> ValidPath(f.path) && |f.content| <= 262144
  {
    hide ValidPath;
    assert [f][..0] == [] && Size([]) == 0;
    assert Size([f]) == |f.content|;
  }

  /** The next input fits the ones before it. */
  predicate Fits(inputs: seq<FileInput>, f: FileInput) {
    && ValidPath(f.path) && |f.content| <= MAX_FILE_BYTES
    && (forall i :: 0 <= i < |inputs| ==> inputs[i].path != f.path && !Conflict(inputs[i].path, f.path))
    && Size(inputs) + |f.content| <= MAX_GRANT_BYTES
  }

  lemma AcceptableStep(inputs: seq<FileInput>, n: nat)
    requires n < |inputs|
    ensures AcceptableInputs(inputs[..n + 1]) <==> AcceptableInputs(inputs[..n]) && Fits(inputs[..n], inputs[n])
    ensures AcceptableInputs(inputs) ==> AcceptableInputs(inputs[..n + 1])
    ensures Size(inputs[..n + 1]) == Size(inputs[..n]) + |inputs[n].content|
  {
    SizeStep(inputs, n);
    assert inputs[..n + 1] == inputs[..n] + [inputs[n]];
    OneMoreFits(inputs[..n], inputs[n]);
    PrefixAcceptable(inputs, n + 1);
    hide AcceptableInputs, Fits, Size;
  }

  lemma PrefixAcceptable(inputs: seq<FileInput>, n: nat)
    requires n <= |inputs|
    ensures AcceptableInputs(inputs) ==> AcceptableInputs(inputs[..n])
  {
    SizeOfPrefix(inputs, n);
    hide ValidPath, Conflict, Size;
    var part := inputs[..n];
    assert forall i :: 0 <= i < n ==> part[i] == inputs[i];
  }

  lemma SizeStep(inputs: seq<FileInput>, n: nat)
    requires n < |inputs|
    ensures Size(inputs[..n + 1]) == Size(inputs[..n]) + |inputs[n].content|
  {
    assert inputs[..n + 1][..n] == inputs[..n];
  }

  lemma OneMoreFits(before: seq<FileInput>, f: FileInput)
    ensures AcceptableInputs(before + [f]) <==> AcceptableInputs(before) && Fits(before, f)
  {
    hide ValidPath, Conflict, Size;
    var next := before + [f];
    assert Size(next) == Size(before) + |f.content| by {
      SizeStep(next, |before|);
      assert next[..|before|] == before && next[..|next|] == next;
    }
    var n := |before|;
    assert next[n] == f;
    if AcceptableInputs(next) {
      forall i | 0 <= i < n
        ensures ValidPath(before[i].path) && |before[i].content| <= MAX_FILE_BYTES
      {
        assert next[i] == before[i];
      }
      forall i, j | 0 <= i < j < n
        ensures before[i].path != before[j].path && !Conflict(before[i].path, before[j].path)
      {
        assert next[i] == before[i] && next[j] == before[j];
      }
      forall i | 0 <= i < n
        ensures before[i].path != f.path && !Conflict(before[i].path, f.path)
      {
        assert next[i] == before[i];
      }
    }
  }

  lemma HoldsStep(files: map<string, string>, inputs: seq<FileInput>, n: nat)
    requires n < |inputs| && HoldsExactly(files, inputs[..n])
    ensures inputs[n].path !in files ==> HoldsExactly(files[inputs[n].path := inputs[n].content], inputs[..n + 1])
  {
    var f, before, after := inputs[n], inputs[..n], inputs[..n + 1];
    var files' := files[f.path := f.content];
    forall p | f.path !in files && p in files'
      ensures exists i :: 0 <= i < |after| && after[i].path == p
    {
      if p == f.path {
        assert after[n].path == p;
      } else {
        var i :| 0 <= i < |before| && before[i].path == p;
        assert after[i].path == p;
      }
    }
  }

  /** The checks on the table are the checks on the inputs that filled it. */
  lemma FitsTable(files: map<string, string>, inputs: seq<FileInput>, f: FileInput)
    requires HoldsExactly(files, inputs)
    ensures (exists p :: p in files && Conflict(p, f.path)) <==> exists i :: 0 <= i < |inputs| && Conflict(inputs[i].path, f.path)
    ensures f.path in files <==> exists i :: 0 <= i < |inputs| && inputs[i].path == f.path
  {
    hide Conflict;
  }

  lemma AcceptableIsServable(files: map<string, string>, inputs: seq<FileInput>)
    requires AcceptableInputs(inputs) && HoldsExactly(files, inputs)
    ensures ServableFiles(files)
  {
    hide ValidPath;
    forall p, q | p in files && q in files
      ensures !(p + "/" <= q)
    {
      var i :| 0 <= i < |inputs| && inputs[i].path == p;
      var j :| 0 <= j < |inputs| && inputs[j].path == q;
      if i != j {
        assert !Conflict(inputs[if i < j then i else j].path, inputs[if i < j then j else i].path);
      }
    }
  }

  /** Builds the file table input by input; any refusal refuses the grant. */
  method BuildFiles(inputs: seq<FileInput>) returns (r: Result<map<string, string>, Error>, total: nat)
    ensures r.Ok? <==> AcceptableInputs(inputs)
    ensures r.Ok? ==> HoldsExactly(r.value, inputs) && ServableFiles(r.value) && total == Size(inputs)
  {
    var files: map<string, string> := map[];
    total := 0;
    for n := 0 to |inputs|
      invariant AcceptableInputs(inputs[..n])
      invariant HoldsExactly(files, inputs[..n])
      invariant total == Size(inputs[..n])
    {
      AcceptableStep(inputs, n);
      var f := inputs[n];
      FitsTable(files, inputs[..n], f);
      HoldsStep(files, inputs, n);
      hide AcceptableInputs, ValidPath, Conflict, HoldsExactly, PrefixFree, Size;
      if !ValidPath(f.path) || |f.content| > MAX_FILE_BYTES {
        return Err(InvalidGrant), total;
      }
      if f.path in files {
        return Err(DuplicateFile), total;
      }
      var clash := HasConflict(files, f.path);
      if clash {
        return Err(DirectoryConflict), total;
      }
      total := total + |f.content|;
      if total > MAX_GRANT_BYTES {
        return Err(GrantTooLarge), total;
      }
      files := files[f.path := f.content];
    }
    assert inputs[..|inputs|] == inputs;
    AcceptableIsServable(files, inputs);
    return Ok(files), total;
  }

  method HasConflict(files: map<string, string>, path: string) returns (clash: bool)
    ensures clash <==> exists p :: p in files && Conflict(p, path)
  {
    var rest := files.Keys;
    while rest != {}
      invariant rest <= files.Keys
      invariant forall p :: p in files && p !in rest ==> !Conflict(p, path)
    {
      var p :| p in rest;
      if Conflict(p, path) {
        return true;
      }
      rest := rest - {p};
    }
    return false;
  }

  // ---------- the store as a value ----------

  datatype Store = Store(closed: bool, grants: map<Digest, Grant>, owners: map<string, Digest>, bytes: int)

  const EMPTY := Store(false, map[], map[], 0)

  /** The two maps are inverse to each other. */
  ghost predicate Inverse(s: Store) {
    && (forall d :: d in s.grants ==> s.grants[d].owner in s.owners && s.owners[s.grants[d].owner] == d)
    && (forall o :: o in s.owners ==> s.owners[o] in s.grants && s.grants[s.owners[o]].owner == o)
  }

  ghost predicate Accounted(s: Store) {
    && s.bytes == Total(s.grants) <= MAX_STORE_BYTES
    && |s.grants| <= MAX_GRANTS
    && (s.closed ==> s.grants == map[])
  }

  ghost predicate Consistent(s: Store) {
    && Inverse(s)
    && Accounted(s)
    && (forall d :: d in s.grants ==> ServableFiles(s.grants[d].files))
  }

  function PreviousSize(s: Store, owner: string): nat {
    if owner in s.owners && s.owners[owner] in s.grants then s.grants[s.owners[owner]].size else 0
  }

  /** Room for `size` bytes once the owner's previous grant is gone. */
  predicate HasRoom(s: Store, owner: string, size: nat) {
    && !s.closed
    && (owner !in s.owners ==> |s.grants| < MAX_GRANTS)
    && s.bytes - PreviousSize(s, owner) + size <= MAX_STORE_BYTES
  }

  /** Put a grant in place of the owner's previous one. */
  function Install(s: Store, d: Digest, g: Grant): Store {
    var kept := if g.owner in s.owners then s.grants - {s.owners[g.owner]} else s.grants;
    s.(grants := kept[d := g], owners := s.owners[g.owner := d], bytes := s.bytes - PreviousSize(s, g.owner) + g.size)
  }

  function Remove(s: Store, d: Digest): Store {
    if d in s.grants then
      s.(grants := s.grants - {d}, owners := s.owners - {s.grants[d].owner}, bytes := s.bytes - s.grants[d].size)
    else s
  }

  lemma OwnersHaveGrants(s: Store, owner: string)
    requires Inverse(s)
    ensures owner in s.owners ==> s.owners[owner] in s.grants
  {}

  /** The drawn token is not live, or is the one that is being replaced. */
  predicate NoClash(s: Store, d: Digest, owner: string) {
    d in s.grants ==> owner in s.owners && s.owners[owner] == d
  }

  lemma InstallKeepsInverse(s: Store, d: Digest, g: Grant)
    requires Inverse(s)
    ensures Inverse(Install(s, d, g)) <==> NoClash(s, d, g.owner)
  {
    var s' := Install(s, d, g);
    if !NoClash(s, d, g.owner) {
      var other := s.grants[d].owner;
      assert other in s'.owners && s'.owners[other] == d && s'.grants[d].owner != other;
    }
  }

  lemma InstallKeepsAccount(s: Store, d: Digest, g: Grant)
    requires Inverse(s) && Accounted(s) && NoClash(s, d, g.owner) && HasRoom(s, g.owner, g.size)
    ensures Accounted(Install(s, d, g))
  {
    hide Total, Inverse;
    OwnersHaveGrants(s, g.owner);
    var kept := if g.owner in s.owners then s.grants - {s.owners[g.owner]} else s.grants;
    if g.owner in s.owners {
      TotalRemove(s.grants, s.owners[g.owner]);
      assert |s.grants.Keys - {s.owners[g.owner]}| == |s.grants| - 1;
      assert kept.Keys == s.grants.Keys - {s.owners[g.owner]};
    }
    TotalInsert(kept, d, g);
    assert kept[d := g].Keys == kept.Keys + {d};
  }

  /** There is room exactly when the store is open, the owner has a grant or fewer than 1024 exist, and
      what the other owners' grants hold leaves the size free within 64 MiB. */
  lemma RoomIff(s: Store, owner: string, size: nat)
    requires Consistent(s)
    ensures var others := if owner in s.owners then s.grants - {s.owners[owner]} else s.grants;
            HasRoom(s, owner, size) <==>
            !s.closed && (owner in s.owners || |s.grants| < 1024) && Total(others) + size <= 67108864
  {
    OwnersHaveGrants(s, owner);
    if owner in s.owners {
      TotalRemove(s.grants, s.owners[owner]);
    }
    hide Total, Inverse, ServableFiles;
  }

  /** Installing a grant keeps the store consistent exactly when its token is not live under
      another owner. */
  lemma InstallKeepsConsistentIff(s: Store, d: Digest, g: Grant)
    requires Consistent(s) && HasRoom(s, g.owner, g.size) && ServableFiles(g.files)
    ensures Consistent(Install(s, d, g)) <==> NoClash(s, d, g.owner)
  {
    InstallKeepsInverse(s, d, g);
    if NoClash(s, d, g.owner) {
      InstallKeepsAccount(s, d, g);
    }
    hide Inverse, Accounted, ServableFiles, HasRoom;
  }

  lemma RemoveKeepsInverse(s: Store, d: Digest)
    requires Inverse(s)
    ensures Inverse(Remove(s, d))
  {}

  lemma RemoveKeepsAccount(s: Store, d: Digest)
    requires Accounted(s)
    ensures Accounted(Remove(s, d))
  {
    hide Total;
    if d in s.grants {
      TotalRemove(s.grants, d);
      assert Remove(s, d).grants.Keys == s.grants.Keys - {d};
    }
  }

  lemma RemoveKeepsConsistent(s: Store, d: Digest)
    requires Consistent(s)
    ensures Consistent(Remove(s, d))
  {
    RemoveKeepsInverse(s, d);
    RemoveKeepsAccount(s, d);
    hide Inverse, Accounted, ServableFiles;
  }

  // ---------- runs ----------

  datatype Op = Create(digest: Digest, grant: Grant) | Revoke(digest: Digest) | Close

  function Step(s: Store, op: Op): Store {
    match op
    case Create(d, g) => if HasRoom(s, g.owner, g.size) then Install(s, d, g) else s
    case Revoke(d) => Remove(s, d)
    case Close => Store(true, map[], map[], 0)
  }

  function Run(ops: seq<Op>): Store {
    if ops == [] then EMPTY else Step(Run(ops[..|ops| - 1]), ops[|ops| - 1])
  }

  /** A grant's files have passed the checks on the inputs. */
  ghost predicate CheckedFiles(ops: seq<Op>) {
    forall i :: 0 <= i < |ops| && ops[i].Create? ==> ServableFiles(ops[i].grant.files)
  }

  /** No two creations draw the same token. */
  ghost predicate FreshTokens(ops: seq<Op>) {
    forall i, j :: 0 <= i < j < |ops| && ops[i].Create? && ops[j].Create? ==> ops[i].digest != ops[j].digest
  }

  predicate ClashesAt(s: Store, op: Op) {
    op.Create? && HasRoom(s, op.grant.owner, op.grant.size) && !NoClash(s, op.digest, op.grant.owner)
  }

  lemma {:induction false} GrantsWereCreated(ops: seq<Op>, d: Digest)
    requires d in Run(ops).grants
    ensures exists i :: 0 <= i < |ops| && ops[i].Create? && ops[i].digest == d && ops[i].grant == Run(ops).grants[d]
  {
    hide HasRoom;
    var n := |ops| - 1;
    var before := Run(ops[..n]);
    if !(ops[n].Create? && ops[n].digest == d && Run(ops).grants[d] == ops[n].grant) {
      GrantsWereCreated(ops[..n], d);
      var i :| 0 <= i < n && ops[..n][i].Create? && ops[..n][i].digest == d && ops[..n][i].grant == before.grants[d];
      assert ops[i] == ops[..n][i];
    }
  }

  lemma StepKeepsConsistentIff(s: Store, op: Op)
    requires Consistent(s) && (op.Create? ==> ServableFiles(op.grant.files))
    ensures Consistent(Step(s, op)) <==> !ClashesAt(s, op)
  {
    match op {
      case Create(d, g) =>
        if HasRoom(s, g.owner, g.size) {
          InstallKeepsConsistentIff(s, d, g);
        }
      case Revoke(d) =>
        RemoveKeepsConsistent(s, d);
      case Close =>
        assert Total(map[]) == 0;
    }
    hide Consistent, HasRoom, Install, Remove, ServableFiles, NoClash;
  }

  ghost predicate ConsistentAt(ops: seq<Op>, n: nat)
    requires n <= |ops|
  {
    Consistent(Run(ops[..n]))
  }

  predicate ClashAt(ops: seq<Op>, i: nat)
    requires i < |ops|
  {
    ClashesAt(Run(ops[..i]), ops[i])
  }

  lemma NextPoint(ops: seq<Op>, m: nat)
    requires m < |ops| && ConsistentAt(ops, m) && (ops[m].Create? ==> ServableFiles(ops[m].grant.files))
    ensures ConsistentAt(ops, m + 1) <==> !ClashAt(ops, m)
  {
    hide Consistent, ClashesAt, ServableFiles, Step;
    assert ops[..m + 1][..m] == ops[..m];
    StepKeepsConsistentIff(Run(ops[..m]), ops[m]);
  }

  lemma EmptyIsConsistent(ops: seq<Op>)
    ensures ConsistentAt(ops, 0)
  {
    assert ops[..0] == [] && Run([]) == EMPTY;
    assert Total(map[]) == 0;
    hide Total, Run;
  }

  lemma {:induction false} ConsistentUpTo(ops: seq<Op>, m: nat)
    requires CheckedFiles(ops) && m <= |ops|
    ensures (forall n :: 0 <= n <= m ==> ConsistentAt(ops, n)) <==> (forall i :: 0 <= i < m ==> !ClashAt(ops, i))
    decreases m
  {
    hide ConsistentAt, ClashAt, ServableFiles;
    if m == 0 {
      EmptyIsConsistent(ops);
    } else {
      ConsistentUpTo(ops, m - 1);
      if ConsistentAt(ops, m - 1) {
        NextPoint(ops, m - 1);
      }
    }
  }

  /** A run is consistent at every point exactly when no creation draws a token that is live under
      another owner. */
  lemma EveryRunIsConsistentIff(ops: seq<Op>)
    requires CheckedFiles(ops)
    ensures (forall n :: 0 <= n <= |ops| ==> ConsistentAt(ops, n)) <==> (forall i :: 0 <= i < |ops| ==> !ClashAt(ops, i))
  {
    hide ConsistentAt, ClashAt, CheckedFiles;
    ConsistentUpTo(ops, |ops|);
  }

  /** With tokens that are never drawn twice, every reachable store is consistent. */
  lemma EveryRunIsConsistent(ops: seq<Op>)
    requires CheckedFiles(ops) && FreshTokens(ops)
    ensures Consistent(Run(ops))
  {
    hide Consistent, Step, ServableFiles;
    forall i | 0 <= i < |ops|
      ensures !ClashAt(ops, i)
    {
      if ops[i].Create? && ops[i].digest in Run(ops[..i]).grants {
        GrantsWereCreated(ops[..i], ops[i].digest);
      }
    }
    EveryRunIsConsistentIff(ops);
    assert ConsistentAt(ops, |ops|) && ops[..|ops|] == ops;
  }

  // ---------- the life of a token ----------

  /** A creation that was accepted. */
  predicate Accepted(ops: seq<Op>, i: nat)
    requires i < |ops|
  {
    ops[i].Create? && HasRoom(Run(ops[..i]), ops[i].grant.owner, ops[i].grant.size)
  }

  /** The operation ends the grant: it closes the store, revokes the token, or replaces it. */
  predicate Ends(ops: seq<Op>, j: nat, d: Digest, owner: string)
    requires j < |ops|
  {
    || ops[j].Close?
    || (ops[j].Revoke? && ops[j].digest == d)
    || (Accepted(ops, j) && ops[j].grant.owner == owner)
  }

  /** The grant that operation `i` made is the one that the token finds after the run. */
  ghost predicate LiveSince(ops: seq<Op>, i: int, d: Digest) {
    && 0 <= i < |ops| && Accepted(ops, i) && ops[i].digest == d
    && forall j :: i < j < |ops| ==> !Ends(ops, j, d, ops[i].grant.owner)
  }

  lemma LiveSinceStep(ops: seq<Op>, i: nat, d: Digest)
    requires i < |ops| - 1 && ops[i].Create?
    ensures var m := |ops| - 1;
            LiveSince(ops, i, d) <==> LiveSince(ops[..m], i, d) && !Ends(ops, m, d, ops[i].grant.owner)
  {
    hide HasRoom, Run;
    var m := |ops| - 1;
    var init := ops[..m];
    assert forall k :: 0 <= k < m ==> init[..k] == ops[..k] && init[k] == ops[k];
    assert forall k :: 0 <= k < m ==> Accepted(init, k) == Accepted(ops, k);
    assert forall k :: 0 <= k < m ==> Ends(init, k, d, ops[i].grant.owner) == Ends(ops, k, d, ops[i].grant.owner);
  }

  /** The last operation, unless it makes this grant, can only end it. */
  lemma LastStep(ops: seq<Op>, d: Digest)
    requires ops != [] && Inverse(Run(ops[..|ops| - 1]))
    requires var m := |ops| - 1; !(Accepted(ops, m) && ops[m].digest == d)
    ensures var m := |ops| - 1;
            var s, s' := Run(ops[..m]), Run(ops);
            && (d in s'.grants <==> d in s.grants && !Ends(ops, m, d, s.grants[d].owner))
            && (d in s'.grants ==> s'.grants[d] == s.grants[d])
  {
    hide HasRoom;
    var m := |ops| - 1;
    var s := Run(ops[..m]);
    assert Run(ops) == Step(s, ops[m]);
    hide Run;
  }

  lemma Installed(s: Store, op: Op)
    requires op.Create? && HasRoom(s, op.grant.owner, op.grant.size)
    ensures op.digest in Step(s, op).grants && Step(s, op).grants[op.digest] == op.grant
  {}

  lemma ClashFreePrefix(ops: seq<Op>, m: nat)
    requires m <= |ops| && forall i :: 0 <= i < |ops| ==> !ClashAt(ops, i)
    ensures forall i :: 0 <= i < m ==> !ClashAt(ops[..m], i)
  {
    hide ClashesAt, Run;
    forall i | 0 <= i < m
      ensures !ClashAt(ops[..m], i)
    {
      assert ops[..m][..i] == ops[..i] && !ClashAt(ops, i);
    }
  }

  lemma ClashFreeIsConsistent(ops: seq<Op>)
    requires CheckedFiles(ops) && forall i :: 0 <= i < |ops| ==> !ClashAt(ops, i)
    ensures Consistent(Run(ops))
  {
    hide Consistent, ClashAt, Run;
    EveryRunIsConsistentIff(ops);
    assert ConsistentAt(ops, |ops|) && ops[..|ops|] == ops;
  }

  /** A live token that is drawn again is drawn by its own owner. */
  lemma RedrawnByOwner(ops: seq<Op>)
    requires ops != [] && Inverse(Run(ops[..|ops| - 1]))
    requires var m := |ops| - 1; Accepted(ops, m) && !ClashAt(ops, m)
    ensures var m := |ops| - 1;
            var s, d := Run(ops[..m]), ops[m].digest;
            d in s.grants ==> s.grants[d].owner == ops[m].grant.owner
  {
    hide HasRoom, Run;
  }

  /** A token is live exactly when an accepted creation drew it and nothing has replaced, revoked or
      closed it since; and then it finds that creation's grant. */
  lemma {:induction false} LiveIff(ops: seq<Op>, d: Digest)
    requires CheckedFiles(ops) && forall i :: 0 <= i < |ops| ==> !ClashAt(ops, i)
    ensures d in Run(ops).grants <==> exists i :: LiveSince(ops, i, d)
    ensures forall i :: LiveSince(ops, i, d) ==> d in Run(ops).grants && Run(ops).grants[d] == ops[i].grant
  {
    hide ServableFiles, HasRoom, Step;
    if ops != [] {
      var m := |ops| - 1;
      var init := ops[..m];
      assert forall k :: 0 <= k < m ==> init[k] == ops[k];
      ClashFreePrefix(ops, m);
      LiveIff(init, d);
      ClashFreeIsConsistent(init);
      forall i: nat | i < m && ops[i].Create?
        ensures LiveSince(ops, i, d) <==> LiveSince(init, i, d) && !Ends(ops, m, d, ops[i].grant.owner)
      {
        LiveSinceStep(ops, i, d);
      }
      if Accepted(ops, m) && ops[m].digest == d {
        assert LiveSince(ops, m, d);
        assert Run(ops) == Step(Run(init), ops[m]);
        Installed(Run(init), ops[m]);
        RedrawnByOwner(ops);
        hide Run, Consistent, Step;
      } else {
        LastStep(ops, d);
        hide Run, Consistent, Ends;
        if d in Run(ops).grants {
          var i :| LiveSince(init, i, d);
          assert LiveSince(ops, i, d);
        }
      }
    }
  }

  /** A grant that is gone stays gone: its token neither serves nor revokes anything later. */
  lemma {:induction false} GoneStaysGone(ops: seq<Op>, i: nat, n: nat)
    requires FreshTokens(ops) && i < n <= |ops| && ops[i].Create?
    requires ops[i].digest !in Run(ops[..n]).grants
    ensures ops[i].digest !in Run(ops).grants
    ensures Remove(Run(ops), ops[i].digest) == Run(ops)
    decreases |ops|
  {
    hide HasRoom;
    if n == |ops| {
      assert ops[..n] == ops;
    } else {
      var m := |ops| - 1;
      var init := ops[..m];
      assert FreshTokens(init) && init[i] == ops[i] by {
        assert forall k :: 0 <= k < m ==> init[k] == ops[k];
      }
      assert init[..n] == ops[..n];
      GoneStaysGone(init, i, n);
    }
  }

  /** Replacing an owner's grant takes the old token out. */
  lemma ReplacedIsGone(s: Store, d: Digest, g: Grant)
    requires Consistent(s) && d !in s.grants && g.owner in s.owners && HasRoom(s, g.owner, g.size)
    ensures var previous := s.owners[g.owner];
            previous !in Step(s, Create(d, g)).grants
            && Remove(Step(s, Create(d, g)), previous) == Step(s, Create(d, g))
            && Step(s, Create(d, g)).owners[g.owner] == d
  {}

  // ---------- the store as an object ----------

  class RamFileStore {
    var closed: bool
    var grants: map<Digest, Grant>
    var owners: map<string, Digest>
    var bytes: int
    const baseUrl: string

    ghost function State(): Store
      reads this
    {
      Store(closed, grants, owners, bytes)
    }

    constructor (baseUrl: string)
      ensures State() == EMPTY && this.baseUrl == baseUrl
    {
      closed, grants, owners, bytes := false, map[], map[], 0;
      this.baseUrl := baseUrl;
    }

    /** `token` is what the random source gave, or `None` if it failed. */
    method CreateGrant(owner: string, inputs: seq<FileInput>, token: Option<string>)
      returns (r: Result<string, Error>, ghost g: Grant)
      requires Consistent(State())
      modifies this
      ensures r.Ok? <==> owner != "" && 0 < |inputs| <= 128 && AcceptableInputs(inputs) && token.Some?
                         && baseUrl != "" && HasRoom(old(State()), owner, Size(inputs))
      ensures Consistent(State()) <==> (r.Ok? ==> NoClash(old(State()), DigestOf(token.value), owner))
      ensures r.Err? ==> State() == old(State())
      ensures r.Ok? ==>
                && r.value == token.value
                && g.owner == owner && g.size == Size(inputs) && HoldsExactly(g.files, inputs) && ServableFiles(g.files)
                && State() == Step(old(State()), Create(DigestOf(token.value), g))
    {
      hide Inverse, Accounted, ServableFiles, AcceptableInputs, HoldsExactly;
      g := Grant(owner, map[], 0);
      if owner == "" || |inputs| == 0 || |inputs| > MAX_FILES {
        return Err(InvalidGrant), g;
      }
      var built, total := BuildFiles(inputs);
      if built.Err? {
        return Err(built.error), g;
      }
      if token.None? {
        return Err(CapabilityUnavailable), g;
      }
      var digest, grant := DigestOf(token.value), Grant(owner, built.value, total);
      g := grant;
      assert owner in owners ==> owners[owner] in grants by {
        assert Inverse(State());
        OwnersHaveGrants(State(), owner);
      }
      var replacing := owner in owners;
      var previousSize := 0;
      if replacing {
        previousSize := grants[owners[owner]].size;
      }
      if closed || baseUrl == "" || (!replacing && |grants| >= MAX_GRANTS) || bytes - previousSize + total > MAX_STORE_BYTES {
        return Err(Unavailable), g;
      }
      InstallKeepsConsistentIff(State(), digest, grant);
      if replacing {
        grants := grants - {owners[owner]};
      }
      grants := grants[digest := grant];
      owners := owners[owner := digest];
      bytes := bytes - previousSize + total;
      return Ok(token.value), g;
    }

    method RevokeGrant(token: string)
      requires Consistent(State())
      modifies this
      ensures Consistent(State()) && State() == Step(old(State()), Revoke(DigestOf(token)))
    {
      hide Consistent;
      RemoveKeepsConsistent(State(), DigestOf(token));
      var digest := DigestOf(token);
      if digest in grants {
        var grant := grants[digest];
        grants := grants - {digest};
        owners := owners - {grant.owner};
        bytes := bytes - grant.size;
      }
    }

    method CloseStore()
      modifies this
      ensures Consistent(State()) && State() == Step(old(State()), Close)
    {
      grants, owners, bytes, closed := map[], map[], 0, true;
      assert Total(map[]) == 0;
    }

    /** What the file server answers to a GET for a path below a token. One trailing slash is taken
        off before the lookup, and a file that was asked for with one is refused. */
    method Serve(token: string, path: string) returns (answer: Answer)
      requires Consistent(State())
      ensures answer.File? <==> DigestOf(token) in grants && path in grants[DigestOf(token)].files
      ensures answer.File? ==> answer.content == grants[DigestOf(token)].files[path]
      ensures answer.Directory? <==>
              && DigestOf(token) in grants
              && (WithoutSlash(path) == "" || ValidPath(WithoutSlash(path)))
              && IsDirectory(grants[DigestOf(token)].files, WithoutSlash(path))
    {
      var trailing, name := path != "" && path[|path| - 1] == '/', WithoutSlash(path);
      if name != "" && !ValidPath(name) {
        if DigestOf(token) in grants {
          NamesNoFile(grants[DigestOf(token)].files, path);
        }
        return BadRequest;
      }
      var digest := DigestOf(token);
      if digest !in grants {
        return NotFound;
      }
      var files := grants[digest].files;
      NamesNoFile(files, path);
      FileIsNoDirectory(files, name);
      hide Inverse, Accounted, ServableFiles, ValidPath;
      var isFile := name in files;
      var isDir := name == "";
      if !isFile {
        var below := HasChild(files, name);
        isDir := isDir || below;
      }
      if (!isFile && !isDir) || (trailing && isFile) {
        return NotFound;
      }
      return if isFile then File(files[name]) else Directory;
    }
  }

  // ---------- serving ----------

  datatype Answer = BadRequest | NotFound | Directory | File(content: string)

  function WithoutSlash(path: string): string {
    if path != "" && path[|path| - 1] == '/' then path[..|path| - 1] else path
  }

  /** The root, or a name on the way to some file. */
  ghost predicate IsDirectory(files: map<string, string>, name: string) {
    name == "" || exists p :: p in files && name + "/" <= p
  }

  method HasChild(files: map<string, string>, name: string) returns (found: bool)
    ensures found <==> exists p :: p in files && name + "/" <= p
  {
    var rest := files.Keys;
    while rest != {}
      invariant rest <= files.Keys
      invariant forall p :: p in files && p !in rest ==> !(name + "/" <= p)
    {
      var p :| p in rest;
      if name + "/" <= p {
        return true;
      }
      rest := rest - {p};
    }
    return false;
  }

  /** A path that is not valid, or ends in a slash, is no file of a grant. */
  lemma NamesNoFile(files: map<string, string>, path: string)
    requires ServableFiles(files)
    ensures path in files ==> ValidPath(path) && WithoutSlash(path) == path
    ensures "" !in files
  {
    if path in files {
      ValidPathHasNoTrailingSlash(path);
    }
  }

  lemma FileIsNoDirectory(files: map<string, string>, name: string)
    requires ServableFiles(files)
    ensures name in files ==> !IsDirectory(files, name)
  {}

  /** What a token serves after any run: the files of its own creation, until that is replaced,
      revoked or closed; and no name is served as a file and as a directory. */
  lemma ServedIff(ops: seq<Op>, d: Digest, path: string)
    requires CheckedFiles(ops) && forall i :: 0 <= i < |ops| ==> !ClashAt(ops, i)
    ensures var s := Run(ops);
            && (d in s.grants && path in s.grants[d].files <==> exists i :: LiveSince(ops, i, d) && path in ops[i].grant.files)
            && (forall i :: LiveSince(ops, i, d) && path in ops[i].grant.files ==> s.grants[d].files[path] == ops[i].grant.files[path])
            && (d in s.grants && path in s.grants[d].files ==> !IsDirectory(s.grants[d].files, path))
  {
    LiveIff(ops, d);
    ClashFreeIsConsistent(ops);
    hide Run, LiveSince, ValidPath, Inverse, Accounted;
    var s := Run(ops);
    if d in s.grants {
      FileIsNoDirectory(s.grants[d].files, path);
    }
  }
}
