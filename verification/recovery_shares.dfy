/** Threshold recovery shares: splitting a master key into shares, combining shares, and
    the choice of shares on import. */
module RecoveryShares {
  import opened Bytes
  import opened Results
  import opened GF256
  import opened Polynomial

  datatype Error = InvalidPolicy | InsufficientShares | InvalidShare | EntropyUnavailable

  datatype SharePoint = SharePoint(index: int, value: seq<byte>)

  // ---------- splitting ----------

  /** One byte of the share at `x`: the secret byte is the constant coefficient. */
  function ShareByte(secretByte: byte, random: seq<byte>, x: byte): byte {
    Eval([secretByte] + random, x)
  }

  function ShareValue(secret: seq<byte>, random: seq<seq<byte>>, x: byte): (v: seq<byte>)
    requires |random| == |secret|
    ensures |v| == |secret|
    ensures forall k :: 0 <= k < |secret| ==> v[k] == ShareByte(secret[k], random[k], x)
  {
    seq(|secret|, k requires 0 <= k < |secret| => ShareByte(secret[k], random[k], x))
  }

  /** What the random source hands over for each byte of the secret; `None` is a failed read. */
  type Draws = seq<Option<seq<byte>>>

  predicate DrawsFor(draws: Draws, length: nat, threshold: int) {
    && |draws| == length
    && forall k :: 0 <= k < length && draws[k].Some? ==> |draws[k].value| == threshold - 1
  }

  /** Coefficients above the constant one; a threshold of one reads no randomness. */
  function Coefficients(draw: Option<seq<byte>>, threshold: int): Option<seq<byte>> {
    if threshold <= 1 then Some([]) else draw
  }

  function Drawn(draws: Draws, threshold: int): (r: seq<seq<byte>>)
    ensures |r| == |draws|
  {
    seq(|draws|, k requires 0 <= k < |draws| => match Coefficients(draws[k], threshold) case Some(c) => c case None => [])
  }

  method SplitSecret(secret: seq<byte>, threshold: int, shareCount: int, draws: Draws)
    returns (r: Result<seq<SharePoint>, Error>)
    requires threshold >= 1 ==> DrawsFor(draws, |secret|, threshold)
    ensures r == Err(InvalidPolicy) <==> threshold < 1 || shareCount < threshold || shareCount > 255 || |secret| == 0
    ensures r != Err(InvalidPolicy) ==>
              (r.Ok? <==> threshold == 1 || forall k :: 0 <= k < |draws| ==> draws[k].Some?)
              && (r.Err? ==> r.error == EntropyUnavailable)
    ensures r.Ok? ==>
              && |r.value| == shareCount <= 255
              && |draws| == |secret|
              && forall i :: 0 <= i < shareCount ==>
                   r.value[i] == SharePoint(i + 1, ShareValue(secret, Drawn(draws, threshold), ByteOf(i + 1)))
  {
    if !(1 <= threshold <= shareCount <= 255 && secret != []) {
      return Err(InvalidPolicy);
    }
    var length := |secret|;
    var values := new byte[shareCount, length];
    ghost var random := Drawn(draws, threshold);
    var secretIndex := 0;
    while secretIndex < length
      invariant 0 <= secretIndex <= length
      invariant forall k :: 0 <= k < secretIndex ==> Coefficients(draws[k], threshold).Some?
      invariant forall i, k :: 0 <= i < shareCount && 0 <= k < secretIndex ==>
                  values[i, k] == ShareByte(secret[k], random[k], ByteOf(i + 1))
    {
      hide Eval, ByteOf;
      var tail := [];
      if threshold > 1 {
        if draws[secretIndex].None? {
          return Err(EntropyUnavailable);
        }
        tail := draws[secretIndex].value;
      }
      var coefficients := [secret[secretIndex]] + tail;
      assert random[secretIndex] == tail;
      FillColumn(values, secretIndex, coefficients, secret[..secretIndex], random[..secretIndex]);
      secretIndex := secretIndex + 1;
    }
    var shares := CollectShares(values, secret, random);
    return Ok(shares);
  }

  /** One byte of every share, in a column of the table; `secret` and `random` are those of the
      columns that are already filled. */
  method FillColumn(values: array2<byte>, column: nat, coefficients: seq<byte>, ghost secret: seq<byte>, ghost random: seq<seq<byte>>)
    requires column < values.Length1 && values.Length0 <= 255 && coefficients != []
    requires |secret| == |random| == column
    requires forall i, k :: 0 <= i < values.Length0 && 0 <= k < column ==>
               values[i, k] == ShareByte(secret[k], random[k], ByteOf(i + 1))
    modifies values
    ensures forall i, k :: 0 <= i < values.Length0 && 0 <= k < column ==>
              values[i, k] == ShareByte(secret[k], random[k], ByteOf(i + 1))
    ensures forall i :: 0 <= i < values.Length0 ==> values[i, column] == Eval(coefficients, ByteOf(i + 1))
  {
    hide Eval, ByteOf, ShareByte;
    for shareIndex := 0 to values.Length0
      invariant forall i, k :: 0 <= i < values.Length0 && 0 <= k < column ==>
                  values[i, k] == ShareByte(secret[k], random[k], ByteOf(i + 1))
      invariant forall i :: 0 <= i < shareIndex ==> values[i, column] == Eval(coefficients, ByteOf(i + 1))
    {
      values[shareIndex, column] := HornerLoop(coefficients, ByteOf(shareIndex + 1));
    }
  }

  /** The rows of the filled table, numbered from one. */
  method CollectShares(values: array2<byte>, ghost secret: seq<byte>, ghost random: seq<seq<byte>>)
    returns (shares: seq<SharePoint>)
    requires values.Length0 <= 255 && values.Length1 == |secret| == |random|
    requires forall i, k :: 0 <= i < values.Length0 && 0 <= k < |secret| ==>
               values[i, k] == ShareByte(secret[k], random[k], ByteOf(i + 1))
    ensures |shares| == values.Length0
    ensures forall i :: 0 <= i < |shares| ==>
              shares[i] == SharePoint(i + 1, ShareValue(secret, random, ByteOf(i + 1)))
  {
    hide ShareByte, ByteOf;
    shares := [];
    for i := 0 to values.Length0
      invariant |shares| == i
      invariant forall j :: 0 <= j < i ==> shares[j] == SharePoint(j + 1, ShareValue(secret, random, ByteOf(j + 1)))
    {
      var value := seq(values.Length1, k requires 0 <= k < values.Length1 reads values => values[i, k]);
      assert value == ShareValue(secret, random, ByteOf(i + 1));
      shares := shares + [SharePoint(i + 1, value)];
    }
  }

  /** Evaluation from the highest coefficient down. */
  method HornerLoop(coefficients: seq<byte>, x: byte) returns (y: byte)
    requires coefficients != []
    ensures y == Eval(coefficients, x)
  {
    var i := |coefficients| - 1;
    y := coefficients[i];
    assert y == Eval(coefficients[i..], x) by {
      assert coefficients[i..][1..] == [];
      MulByZero(x);
      XorZero(y);
      hide Mul, Xor;
    }
    while i > 0
      invariant 0 <= i < |coefficients|
      invariant y == Eval(coefficients[i..], x)
    {
      hide Mul;
      i := i - 1;
      assert coefficients[i..][1..] == coefficients[i + 1..];
      var product := GfMul(y, x);
      y := product ^ coefficients[i];
      XorComm(product, coefficients[i]);
    }
    assert coefficients[0..] == coefficients;
  }

  // ---------- combining ----------

  predicate WellFormed(shares: seq<SharePoint>) {
    && shares != [] && shares[0].value != []
    && (forall i :: 0 <= i < |shares| ==> 1 <= shares[i].index <= 255 && |shares[i].value| == |shares[0].value|)
    && (forall i, j :: 0 <= i < j < |shares| ==> shares[i].index != shares[j].index)
  }

  function Points(shares: seq<SharePoint>): (xs: seq<byte>)
    requires forall i :: 0 <= i < |shares| ==> 1 <= shares[i].index <= 255
    ensures |xs| == |shares|
    ensures forall i :: 0 <= i < |shares| ==> xs[i] == ByteOf(shares[i].index)
  {
    seq(|shares|, i requires 0 <= i < |shares| => ByteOf(shares[i].index))
  }

  /** Byte `k` of every share. */
  function Column(shares: seq<SharePoint>, k: nat): (ys: seq<byte>)
    requires forall i :: 0 <= i < |shares| ==> k < |shares[i].value|
    ensures |ys| == |shares|
    ensures forall i :: 0 <= i < |shares| ==> ys[i] == shares[i].value[k]
  {
    seq(|shares|, i requires 0 <= i < |shares| => shares[i].value[k])
  }

  function Combined(shares: seq<SharePoint>): (secret: seq<byte>)
    requires WellFormed(shares)
    ensures |secret| == |shares[0].value|
    ensures forall k :: 0 <= k < |secret| ==> secret[k] == Interpolate(Points(shares), Column(shares, k))
  {
    seq(|shares[0].value|, k requires 0 <= k < |shares[0].value| => Interpolate(Points(shares), Column(shares, k)))
  }

  lemma PointsDistinct(shares: seq<SharePoint>)
    requires WellFormed(shares)
    ensures Distinct(Points(shares))
  {
    forall i, j | 0 <= i < j < |shares|
      ensures Points(shares)[i] != Points(shares)[j]
    {
      ByteOfInjective(shares[i].index, shares[j].index);
    }
  }

  method CombineSecret(shares: seq<SharePoint>) returns (r: Result<seq<byte>, Error>)
    ensures shares == [] ==> r == Err(InsufficientShares)
    ensures shares != [] && !WellFormed(shares) ==> r == Err(InvalidShare)
    ensures WellFormed(shares) ==> r == Ok(Combined(shares))
  {
    if |shares| == 0 {
      return Err(InsufficientShares);
    }
    var length := |shares[0].value|;
    if length == 0 {
      return Err(InvalidShare);
    }
    var seen: set<int> := {};
    for s := 0 to |shares|
      invariant forall i :: 0 <= i < s ==> 1 <= shares[i].index <= 255 && |shares[i].value| == length
      invariant forall i, j :: 0 <= i < j < s ==> shares[i].index != shares[j].index
      invariant forall x :: x in seen <==> exists i :: 0 <= i < s && shares[i].index == x
    {
      var share := shares[s];
      if share.index < 1 || share.index > 255 || |share.value| != length {
        return Err(InvalidShare);
      }
      if share.index in seen {
        return Err(InvalidShare);
      }
      seen := seen + {share.index};
    }
    var secret: seq<byte> := [];
    for byteIndex := 0 to length
      invariant |secret| == byteIndex
      invariant forall k :: 0 <= k < byteIndex ==> secret[k] == Interpolate(Points(shares), Column(shares, k))
    {
      hide Interpolate;
      var value := InterpolateLoop(shares, byteIndex);
      secret := secret + [value];
    }
    assert secret == Combined(shares) by {
      hide Interpolate;
    }
    return Ok(secret);
  }

  /** The sum over the shares, one byte of the secret. */
  method InterpolateLoop(shares: seq<SharePoint>, k: nat) returns (value: byte)
    requires WellFormed(shares) && k < |shares[0].value|
    ensures value == Interpolate(Points(shares), Column(shares, k))
  {
    ghost var xs, ys := Points(shares), Column(shares, k);
    value := 0;
    for i := 0 to |shares|
      invariant value == WeightedSum(xs[..i], ys[..i], xs)
    {
      assert xs[..i + 1][..i] == xs[..i] && ys[..i + 1][..i] == ys[..i];
      hide Mul, Weight, ByteOf;
      var weight := WeightLoop(shares, i);
      var term := GfMul(shares[i].value[k], weight);
      assert WeightedSum(xs[..i + 1], ys[..i + 1], xs) == Xor(value, term) by {
        hide Xor;
      }
      value := value ^ term;
    }
    assert xs[..|shares|] == xs && ys[..|shares|] == ys;
  }

  lemma WeightPrefix(x: byte, xs: seq<byte>, j: nat)
    requires j < |xs|
    ensures Weight(x, xs[..j + 1]) ==
            if x == xs[j] then Weight(x, xs[..j]) else Mul(Weight(x, xs[..j]), Quotient(xs[j], Xor(x, xs[j])))
  {
    assert xs[..j + 1][..j] == xs[..j];
    hide Mul, Quotient, Xor;
  }

  /** One factor of a weight. Distinct indexes make distinct bytes, so the check for a zero
      denominator cannot fire. */
  method Ratio(xi: byte, xj: byte) returns (ratio: byte)
    requires xi != xj
    ensures ratio == Quotient(xj, Xor(xi, xj))
  {
    hide Quotient;
    var denominator := xi ^ xj;
    assert denominator != 0 by {
      XorCancel(xi, xj);
    }
    ratio := GfDiv(xj, denominator);
  }

  /** The product of x_j / (x_i - x_j) over the other shares. */
  method WeightLoop(shares: seq<SharePoint>, i: nat) returns (basis: byte)
    requires WellFormed(shares) && i < |shares|
    ensures basis == Weight(ByteOf(shares[i].index), Points(shares))
  {
    ghost var xs := Points(shares);
    var xi := ByteOf(shares[i].index);
    basis := 1;
    for j := 0 to |shares|
      invariant basis == Weight(xi, xs[..j])
    {
      hide Mul, ByteOf, Quotient, Weight, Xor;
      WeightPrefix(xi, xs, j);
      ByteOfInjective(shares[i].index, shares[j].index);
      if i != j {
        var ratio := Ratio(xi, ByteOf(shares[j].index));
        basis := GfMul(basis, ratio);
      }
    }
    assert xs[..|shares|] == xs;
  }

  // ---------- the round trip ----------

  /** Shares that lie on the polynomials of one split, whatever their order. */
  ghost predicate FromSplit(shares: seq<SharePoint>, secret: seq<byte>, random: seq<seq<byte>>)
    requires |random| == |secret|
  {
    forall i :: 0 <= i < |shares| ==>
      1 <= shares[i].index <= 255 && shares[i].value == ShareValue(secret, random, ByteOf(shares[i].index))
  }

  /** Any `threshold` or more shares with distinct indexes give back exactly the secret. */
  lemma CombineUndoesSplit(shares: seq<SharePoint>, secret: seq<byte>, random: seq<seq<byte>>, threshold: nat)
    requires secret != [] && |random| == |secret| && 1 <= threshold <= |shares|
    requires forall k :: 0 <= k < |random| ==> |random[k]| == threshold - 1
    requires FromSplit(shares, secret, random)
    requires forall i, j :: 0 <= i < j < |shares| ==> shares[i].index != shares[j].index
    ensures WellFormed(shares) && Combined(shares) == secret
  {
    hide ByteOf;
    assert WellFormed(shares);
    PointsDistinct(shares);
    var xs := Points(shares);
    forall k | 0 <= k < |secret|
      ensures Combined(shares)[k] == secret[k]
    {
      var p := [secret[k]] + random[k];
      assert Column(shares, k) == Values(p, xs) by {
        hide Eval;
      }
      InterpolationIsExact(p, xs);
      EvalAtZero(p);
      hide *;
    }
  }

  lemma EvalAtZero(p: poly)
    requires p != []
    ensures Eval(p, 0) == p[0]
  {
    MulByZero(Eval(p[1..], 0));
    XorZero(p[0]);
    hide Mul, Xor;
  }

  /** The end-to-end statement over the two operations: split, take any `threshold` of the
      shares in any order, combine. */
  method SplitThenCombine(secret: seq<byte>, threshold: int, shareCount: int, draws: Draws, picks: seq<nat>)
    returns (r: Result<seq<byte>, Error>)
    requires 1 <= threshold <= shareCount <= 255 && secret != [] && DrawsFor(draws, |secret|, threshold)
    requires forall k :: 0 <= k < |draws| ==> draws[k].Some?
    requires |picks| == threshold && forall i :: 0 <= i < |picks| ==> picks[i] < shareCount
    requires forall i, j :: 0 <= i < j < |picks| ==> picks[i] != picks[j]
    ensures r == Ok(secret)
  {
    var split := SplitSecret(secret, threshold, shareCount, draws);
    var shares := seq(|picks|, i requires 0 <= i < |picks| => split.value[picks[i]]);
    CombineUndoesSplit(shares, secret, Drawn(draws, threshold), threshold);
    r := CombineSecret(shares);
  }

  // ---------- fewer shares fix nothing ----------

  /** `random` makes a split of `secret` put exactly these values at these indexes. */
  ghost predicate Explains(random: seq<seq<byte>>, secret: seq<byte>, shares: seq<SharePoint>) {
    && |random| == |secret|
    && (forall k :: 0 <= k < |random| ==> |random[k]| == |shares|)
    && FromSplit(shares, secret, random)
  }

  lemma TailExists(secretByte: byte, xs: seq<byte>, ys: seq<byte>) returns (tail: seq<byte>)
    requires |xs| == |ys| && Distinct([0] + xs)
    ensures |tail| == |xs|
    ensures forall i :: 0 <= i < |xs| ==> ShareByte(secretByte, tail, xs[i]) == ys[i]
  {
    hide Eval, Fit;
    var pts, vals := [0] + xs, [secretByte] + ys;
    var p := Fit(pts, vals);
    tail := p[1..];
    FitMeetsValues(pts, vals, 0);
    EvalAtZero(p);
    assert p == [secretByte] + tail;
    forall i | 0 <= i < |xs|
      ensures ShareByte(secretByte, tail, xs[i]) == ys[i]
    {
      FitMeetsValues(pts, vals, i + 1);
    }
  }

  lemma TailUnique(secretByte: byte, xs: seq<byte>, s: seq<byte>, t: seq<byte>)
    requires |s| == |t| == |xs| && Distinct([0] + xs)
    requires forall i :: 0 <= i < |xs| ==> ShareByte(secretByte, s, xs[i]) == ShareByte(secretByte, t, xs[i])
    ensures s == t
  {
    var p, q, pts := [secretByte] + s, [secretByte] + t, [0] + xs;
    var d := Add(p, q);
    forall i | 0 <= i < |pts|
      ensures Eval(d, pts[i]) == 0
    {
      EvalAdd(p, q, pts[i]);
      EvalAtZero(p);
      EvalAtZero(q);
      assert i > 0 ==> ShareByte(secretByte, s, xs[i - 1]) == ShareByte(secretByte, t, xs[i - 1]);
      XorZero(Eval(p, pts[i]));
      hide Eval, Xor, Add;
    }
    TooManyRoots(d, pts);
    AddIsZero(p, q);
  }

  lemma {:induction false} AddIsZero(p: poly, q: poly)
    requires |p| == |q| && IsZero(Add(p, q))
    ensures p == q
  {
    if p != [] {
      var d := Add(p, q);
      assert d[0] == Xor(p[0], q[0]) == 0;
      XorCancel(p[0], q[0]);
      assert Add(p[1..], q[1..]) == d[1..];
      AddIsZero(p[1..], q[1..]);
      assert p == [p[0]] + p[1..] && q == [q[0]] + q[1..];
      hide Xor;
    }
  }

  lemma NonzeroPoints(shares: seq<SharePoint>)
    requires forall i :: 0 <= i < |shares| ==> 1 <= shares[i].index <= 255
    requires forall i, j :: 0 <= i < j < |shares| ==> shares[i].index != shares[j].index
    ensures Distinct([0] + Points(shares))
  {
    var pts := [0] + Points(shares);
    forall i, j | 0 <= i < j < |pts|
      ensures pts[i] != pts[j]
    {
      if i == 0 {
        ByteOfInjective(shares[j - 1].index, 0);
        assert ByteOf(0) == 0;
      } else {
        ByteOfInjective(shares[i - 1].index, shares[j - 1].index);
      }
    }
  }

  /** With one share too few, every candidate secret is explained by exactly one choice of
      coefficients, so the shares say nothing about the secret. */
  lemma FewerSharesFixNothing(shares: seq<SharePoint>, candidate: seq<byte>)
    requires forall i :: 0 <= i < |shares| ==> 1 <= shares[i].index <= 255 && |shares[i].value| == |candidate|
    requires forall i, j :: 0 <= i < j < |shares| ==> shares[i].index != shares[j].index
    ensures exists random :: Explains(random, candidate, shares)
    ensures forall r, s :: Explains(r, candidate, shares) && Explains(s, candidate, shares) ==> r == s
  {
    NonzeroPoints(shares);
    var random := ExplanationExists(shares, candidate, |candidate|);
    assert Explains(random, candidate, shares) by {
      hide ByteOf, ShareByte;
      forall i | 0 <= i < |shares|
        ensures shares[i].value == ShareValue(candidate, random, ByteOf(shares[i].index))
      {}
    }
    forall r, s | Explains(r, candidate, shares) && Explains(s, candidate, shares)
      ensures r == s
    {
      ExplanationUnique(r, s, shares, candidate);
    }
  }

  lemma {:induction false} ExplanationExists(shares: seq<SharePoint>, candidate: seq<byte>, n: nat)
    returns (random: seq<seq<byte>>)
    requires forall i :: 0 <= i < |shares| ==> 1 <= shares[i].index <= 255 && |shares[i].value| == |candidate|
    requires Distinct([0] + Points(shares)) && n <= |candidate|
    ensures |random| == n
    ensures forall k :: 0 <= k < n ==> |random[k]| == |shares|
    ensures forall i, k :: 0 <= i < |shares| && 0 <= k < n ==>
              ShareByte(candidate[k], random[k], ByteOf(shares[i].index)) == shares[i].value[k]
  {
    hide ShareByte, ByteOf;
    if n == 0 {
      random := [];
    } else {
      random := ExplanationExists(shares, candidate, n - 1);
      var tail := TailExists(candidate[n - 1], Points(shares), Column(shares, n - 1));
      random := random + [tail];
    }
  }

  lemma ExplanationUnique(r: seq<seq<byte>>, s: seq<seq<byte>>, shares: seq<SharePoint>, candidate: seq<byte>)
    requires Explains(r, candidate, shares) && Explains(s, candidate, shares)
    requires forall i :: 0 <= i < |shares| ==> 1 <= shares[i].index <= 255
    requires Distinct([0] + Points(shares))
    ensures r == s
  {
    hide ShareByte, ByteOf;
    var xs := Points(shares);
    forall k | 0 <= k < |candidate|
      ensures r[k] == s[k]
    {
      forall i | 0 <= i < |xs|
        ensures ShareByte(candidate[k], r[k], xs[i]) == ShareByte(candidate[k], s[k], xs[i])
      {
        assert shares[i].value[k] == ShareByte(candidate[k], r[k], xs[i]);
      }
      TailUnique(candidate[k], xs, r[k], s[k]);
    }
  }

  // ---------- import ----------

  /** A share file after its envelope is opened. `share` is `None` when the envelope, the
      encoding or the fingerprint does not check out; `schemaOk` covers the fixed fields. */
  datatype ShareFile = ShareFile(policyId: string, keyId: string, keyVersion: string, threshold: int,
                                 shareCount: int, index: int, schemaOk: bool, share: Option<seq<byte>>)

  predicate HeaderOk(f: ShareFile) {
    f.schemaOk && 1 <= f.threshold <= f.shareCount <= 255 && 1 <= f.index <= f.shareCount
  }

  predicate SameSet(f: ShareFile, g: ShareFile) {
    f.policyId == g.policyId && f.keyId == g.keyId && f.keyVersion == g.keyVersion
    && f.threshold == g.threshold && f.shareCount == g.shareCount
  }

  predicate Acceptable(f: ShareFile, header: ShareFile) {
    HeaderOk(f) && SameSet(f, header) && f.share.Some? && f.share.value != []
  }

  predicate ConsistentSet(files: seq<ShareFile>) {
    && files != []
    && (forall i :: 0 <= i < |files| ==> Acceptable(files[i], files[0]))
    && (forall i, j :: 0 <= i < j < |files| ==> files[i].index != files[j].index)
  }

  function PointsOf(files: seq<ShareFile>): (points: seq<SharePoint>)
    requires ConsistentSet(files)
    ensures |points| == |files|
    ensures forall i :: 0 <= i < |files| ==> points[i] == SharePoint(files[i].index, files[i].share.value)
  {
    seq(|files|, i requires 0 <= i < |files| => SharePoint(files[i].index, files[i].share.value))
  }

  /** Validate the whole set, then combine the first `threshold` shares of it. */
  method ImportShares(files: seq<ShareFile>) returns (r: Result<seq<byte>, Error>)
    ensures files == [] ==> r == Err(InsufficientShares)
    ensures files != [] && !ConsistentSet(files) ==> r == Err(InvalidShare)
    ensures ConsistentSet(files) && |files| < files[0].threshold ==> r == Err(InsufficientShares)
    ensures ConsistentSet(files) && files[0].threshold <= |files| ==>
              var used := PointsOf(files)[..files[0].threshold];
              r == if WellFormed(used) then Ok(Combined(used)) else Err(InvalidShare)
    ensures r.Ok? ==>
              && 1 <= files[0].threshold <= |files|
              && forall i :: 0 <= i < |files| ==>
                   && files[i].schemaOk && files[i].share.Some? && files[i].share.value != []
                   && files[i].policyId == files[0].policyId && files[i].keyId == files[0].keyId
                   && files[i].keyVersion == files[0].keyVersion
                   && files[i].threshold == files[0].threshold && files[i].shareCount == files[0].shareCount
                   && 1 <= files[i].index <= files[i].shareCount <= 255 && files[i].threshold <= files[i].shareCount
    ensures r.Ok? ==> forall i, j :: 0 <= i < j < |files| ==> files[i].index != files[j].index
  {
    if files == [] {
      return Err(InsufficientShares);
    }
    var header := files[0];
    var points: seq<SharePoint> := [];
    var seen: set<int> := {};
    for f := 0 to |files|
      invariant |points| == f
      invariant forall i :: 0 <= i < f ==> Acceptable(files[i], header)
      invariant forall i :: 0 <= i < f ==> points[i] == SharePoint(files[i].index, files[i].share.value)
      invariant forall i, j :: 0 <= i < j < f ==> files[i].index != files[j].index
      invariant forall x :: x in seen <==> exists i :: 0 <= i < f && files[i].index == x
    {
      if !HeaderOk(files[f]) || !SameSet(files[f], header) || files[f].index in seen {
        return Err(InvalidShare);
      }
      seen := seen + {files[f].index};
      if files[f].share.None? || files[f].share.value == [] {
        return Err(InvalidShare);
      }
      points := points + [SharePoint(files[f].index, files[f].share.value)];
    }
    assert points == PointsOf(files);
    if |points| < header.threshold {
      return Err(InsufficientShares);
    }
    r := CombineSecret(points[..header.threshold]);
  }

  /** Share files written by one enrolment, with the threshold it used, import to the secret
      it enrolled: the extra files beyond the threshold change nothing. */
  lemma ImportRecoversSecret(files: seq<ShareFile>, secret: seq<byte>, random: seq<seq<byte>>)
    requires secret != [] && |random| == |secret|
    requires ConsistentSet(files) && files[0].threshold <= |files|
    requires forall k :: 0 <= k < |random| ==> |random[k]| == files[0].threshold - 1
    requires forall i :: 0 <= i < |files| ==> files[i].share.value == ShareValue(secret, random, ByteOf(files[i].index))
    ensures var used := PointsOf(files)[..files[0].threshold];
            WellFormed(used) && Combined(used) == secret
  {
    hide ByteOf, ShareByte;
    CombineUndoesSplit(PointsOf(files)[..files[0].threshold], secret, random, files[0].threshold);
  }
}
