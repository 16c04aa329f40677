/** Mergeable canonicalization states: positive identities kept as sorted hash buckets,
    with row and group counts and the boundary rows of the scanned stretch. */
module Canonicalize {
  import opened Results
  import opened Sequences

  const BUCKET_COUNT_MIN: nat := 1
  const BUCKET_COUNT_MAX: nat := 4096

  /** The measurement core fields of a row; a missing value is `None`. */
  datatype Core = Core(fields: seq<Option<int>>)

  datatype Boundary = Boundary(identity: int, core: Core)

  datatype Bucket = Bucket(values: seq<int>)

  datatype State = State(
    bucketCount: nat, buckets: seq<Bucket>, bucketCounts: seq<nat>,
    positiveRows: int, positiveGroups: int, witnessRows: int,
    first: Option<Boundary>, last: Option<Boundary>)

  datatype CanonicalizeError =
    | InvalidState | BucketCountMismatch | BoundaryCoreMismatch | Recurrence
    | NonContiguous | CoreDisagreement | IdentityNotPositive | NoInput

  /** Any hash will do: an identity's bucket is its hash masked to the bucket count. */
  type Hash = int -> nat

  function BucketIndex(h: Hash, n: nat, v: int): nat
    requires n > 0
  {
    h(v) % n
  }

  /** The powers of two up to the largest bucket count. */
  predicate PowerOfTwo(n: nat) {
    || n == 1 || n == 2 || n == 4 || n == 8 || n == 16 || n == 32 || n == 64 || n == 128
    || n == 256 || n == 512 || n == 1024 || n == 2048 || n == 4096
  }

  function TwoTo(k: nat): nat {
    if k == 0 then 1 else 2 * TwoTo(k - 1)
  }

  lemma {:induction false} TwoToGrows(j: nat, k: nat)
    requires j < k
    ensures TwoTo(j) < TwoTo(k)
    decreases k - j
  {
    TwoToPositive(j);
    if j + 1 < k { TwoToGrows(j + 1, k); }
  }

  lemma {:induction false} TwoToPositive(k: nat)
    ensures TwoTo(k) > 0
  {
    if k > 0 { TwoToPositive(k - 1); }
  }

  /** A bucket count is valid exactly when it is a power of two within the bounds. */
  lemma ValidCounts(n: nat)
    ensures BucketCountValid(n) <==> (exists k: nat :: n == TwoTo(k)) && BUCKET_COUNT_MIN <= n <= BUCKET_COUNT_MAX
  {
    assert TwoTo(2) == 4 && TwoTo(4) == 16 && TwoTo(6) == 64 && TwoTo(8) == 256 && TwoTo(10) == 1024;
    assert TwoTo(12) == 4096 && TwoTo(13) == 8192;
    if k: nat :| n == TwoTo(k) && k > 12 {
      if k > 13 { TwoToGrows(13, k); }
    }
  }

  // ---------------------------------------------------------------------------------
  // Sorted unique files
  // ---------------------------------------------------------------------------------

  lemma AscendingTail(s: seq<int>)
    requires Ascending(s) && s != []
    ensures Ascending(s[1..])
    ensures forall v :: v in s[1..] ==> s[0] < v
    ensures forall v :: v in s <==> v == s[0] || v in s[1..]
  {
    assert s == [s[0]] + s[1..];
  }

  /** A set has one ascending listing. */
  lemma {:induction false} AscendingUnique(a: seq<int>, b: seq<int>)
    requires Ascending(a) && Ascending(b)
    requires forall v :: v in a <==> v in b
    ensures a == b
  {
    assert a != [] ==> a[0] in a;
    assert b != [] ==> b[0] in b;
    if a != [] {
      AscendingTail(a);
      AscendingTail(b);
      assert a[0] == b[0];
      forall v ensures v in a[1..] <==> v in b[1..] {
        assert v in a <==> v in b;
      }
      AscendingUnique(a[1..], b[1..]);
      assert a == [a[0]] + a[1..] && b == [b[0]] + b[1..];
    }
  }

  function MergeSorted(a: seq<int>, b: seq<int>): seq<int>
    decreases |a| + |b|
  {
    if a == [] then b
    else if b == [] then a
    else if a[0] < b[0] then [a[0]] + MergeSorted(a[1..], b)
    else if b[0] < a[0] then [b[0]] + MergeSorted(a, b[1..])
    else [a[0]] + MergeSorted(a[1..], b[1..])
  }

  lemma {:induction false} MergeSortedUnion(a: seq<int>, b: seq<int>)
    requires Ascending(a) && Ascending(b)
    ensures Ascending(MergeSorted(a, b))
    ensures forall v :: v in MergeSorted(a, b) <==> v in a || v in b
    decreases |a| + |b|
  {
    if a != [] && b != [] {
      AscendingTail(a);
      AscendingTail(b);
      if a[0] < b[0] {
        MergeSortedUnion(a[1..], b);
        AscendingCons(a[0], MergeSorted(a[1..], b));
      } else if b[0] < a[0] {
        MergeSortedUnion(a, b[1..]);
        AscendingCons(b[0], MergeSorted(a, b[1..]));
      } else {
        MergeSortedUnion(a[1..], b[1..]);
        AscendingCons(a[0], MergeSorted(a[1..], b[1..]));
      }
    }
  }

  ghost predicate OnlyCommon(a: seq<int>, b: seq<int>, allowed: Option<int>) {
    forall v :: v in a && v in b ==> allowed == Some(v)
  }

  /** Sizes add up, less one when the allowed identity is on both sides. */
  lemma {:induction false} MergeSortedSize(a: seq<int>, b: seq<int>, allowed: Option<int>)
    requires Ascending(a) && Ascending(b) && OnlyCommon(a, b, allowed)
    ensures |MergeSorted(a, b)| ==
      |a| + |b| - (if allowed.Some? && allowed.value in a && allowed.value in b then 1 else 0)
    decreases |a| + |b|
  {
    if a != [] && b != [] {
      AscendingTail(a);
      AscendingTail(b);
      assert a[0] in a && b[0] in b;
      if a[0] < b[0] {
        MergeSortedSize(a[1..], b, allowed);
      } else if b[0] < a[0] {
        MergeSortedSize(a, b[1..], allowed);
      } else {
        MergeSortedSize(a[1..], b[1..], allowed);
      }
    }
  }

  /** Everything left in either file is above the value just taken. */
  ghost predicate Above(last: Option<int>, a: seq<int>, b: seq<int>) {
    last.Some? ==> (forall v :: v in a ==> last.value < v) && (forall v :: v in b ==> last.value < v)
  }

  lemma TakeLeft(a: seq<int>, b: seq<int>, allowed: Option<int>)
    requires Ascending(a) && Ascending(b) && a != [] && (b == [] || a[0] < b[0])
    ensures Ascending(a[1..]) && MergeSorted(a, b) == [a[0]] + MergeSorted(a[1..], b)
    ensures Above(Some(a[0]), a[1..], b) && a[0] in a
    ensures OnlyCommon(a[1..], b, allowed) <==> OnlyCommon(a, b, allowed)
  {
    AscendingTail(a);
    if b != [] { AscendingTail(b); }
  }

  lemma TakeRight(a: seq<int>, b: seq<int>, allowed: Option<int>)
    requires Ascending(a) && Ascending(b) && b != [] && (a == [] || b[0] < a[0])
    ensures Ascending(b[1..]) && MergeSorted(a, b) == [b[0]] + MergeSorted(a, b[1..])
    ensures Above(Some(b[0]), a, b[1..]) && b[0] in b
    ensures OnlyCommon(a, b[1..], allowed) <==> OnlyCommon(a, b, allowed)
  {
    AscendingTail(b);
    if a != [] { AscendingTail(a); }
  }

  lemma TakeBoth(a: seq<int>, b: seq<int>, allowed: Option<int>)
    requires Ascending(a) && Ascending(b) && a != [] && b != [] && b[0] == a[0]
    ensures Ascending(a[1..]) && Ascending(b[1..])
    ensures MergeSorted(a, b) == [a[0]] + MergeSorted(a[1..], b[1..])
    ensures Above(Some(a[0]), a[1..], b[1..]) && a[0] in a && a[0] in b
    ensures OnlyCommon(a, b, allowed) <==> allowed == Some(a[0]) && OnlyCommon(a[1..], b[1..], allowed)
  {
    AscendingTail(a);
    AscendingTail(b);
    assert a[0] in a && a[0] in b;
    assert forall v :: v in a && v in b <==> v == a[0] || (v in a[1..] && v in b[1..]);
  }

  ghost predicate Merging(left: seq<int>, right: seq<int>, allowed: Option<int>,
                          a: seq<int>, b: seq<int>, output: seq<int>, last: Option<int>) {
    && Ascending(a) && Ascending(b) && Above(last, a, b)
    && output + MergeSorted(a, b) == MergeSorted(left, right)
    && (OnlyCommon(a, b, allowed) <==> OnlyCommon(left, right, allowed))
  }

  lemma MergingStep(left: seq<int>, right: seq<int>, allowed: Option<int>,
                    a: seq<int>, b: seq<int>, output: seq<int>, last: Option<int>)
    requires Merging(left, right, allowed, a, b, output, last)
    ensures a != [] && (b == [] || a[0] < b[0]) ==>
              last != Some(a[0]) && Merging(left, right, allowed, a[1..], b, output + [a[0]], Some(a[0]))
    ensures b != [] && (a == [] || b[0] < a[0]) ==>
              last != Some(b[0]) && Merging(left, right, allowed, a, b[1..], output + [b[0]], Some(b[0]))
    ensures a != [] && b != [] && a[0] == b[0] ==>
              if allowed == Some(a[0])
              then last != Some(a[0]) && Merging(left, right, allowed, a[1..], b[1..], output + [a[0]], Some(a[0]))
              else !OnlyCommon(left, right, allowed)
  {
    if a != [] && (b == [] || a[0] < b[0]) {
      TakeLeft(a, b, allowed);
      assert output + MergeSorted(a, b) == output + [a[0]] + MergeSorted(a[1..], b);
    } else if b != [] && (a == [] || b[0] < a[0]) {
      TakeRight(a, b, allowed);
      assert output + MergeSorted(a, b) == output + [b[0]] + MergeSorted(a, b[1..]);
    } else if a != [] && b != [] {
      TakeBoth(a, b, allowed);
      assert output + MergeSorted(a, b) == output + [a[0]] + MergeSorted(a[1..], b[1..]);
    }
  }

  /** Two-way streaming merge of sorted unique files. A value on both sides is refused
      unless it is the identity the two stretches share at their boundary. */
  method StreamMergeSortedUnique(left: seq<int>, right: seq<int>, allowed: Option<int>)
    returns (r: Result<seq<int>, CanonicalizeError>)
    requires Ascending(left) && Ascending(right)
    ensures r == if OnlyCommon(left, right, allowed) then Ok(MergeSorted(left, right)) else Err(Recurrence)
  {
    var a, b := left, right;
    var output: seq<int> := [];
    var lastWritten: Option<int> := None;
    while a != [] || b != []
      invariant Merging(left, right, allowed, a, b, output, lastWritten)
      decreases |a| + |b|
    {
      MergingStep(left, right, allowed, a, b, output, lastWritten);
      var chosen;
      if b == [] || (a != [] && a[0] < b[0]) {
        chosen, a := a[0], a[1..];
      } else if a == [] || b[0] < a[0] {
        chosen, b := b[0], b[1..];
      } else {
        if allowed != Some(a[0]) {
          return Err(Recurrence);
        }
        chosen, a, b := a[0], a[1..], b[1..];
      }
      if lastWritten != Some(chosen) {
        output := output + [chosen];
        lastWritten := Some(chosen);
      }
    }
    assert OnlyCommon(a, b, allowed);
    assert output == MergeSorted(left, right);
    r := Ok(output);
  }

  // ---------------------------------------------------------------------------------
  // Valid states
  // ---------------------------------------------------------------------------------

  ghost predicate BucketValid(h: Hash, n: nat, index: nat, values: seq<int>)
    requires n > 0
  {
    && Ascending(values)
    && forall v :: v in values ==> v > 0 && BucketIndex(h, n, v) == index
  }

  function Sum(counts: seq<nat>): nat {
    if counts == [] then 0 else Sum(counts[..|counts| - 1]) + counts[|counts| - 1]
  }

  predicate BucketCountValid(n: nat) {
    BUCKET_COUNT_MIN <= n <= BUCKET_COUNT_MAX && PowerOfTwo(n)
  }

  /** The identity `v` is held by the state, in the bucket its hash selects. */
  predicate Holds(h: Hash, s: State, v: int)
    requires s.bucketCount > 0 && |s.buckets| == s.bucketCount
  {
    v in s.buckets[BucketIndex(h, s.bucketCount, v)].values
  }

  ghost predicate BucketsValid(h: Hash, s: State) {
    && BucketCountValid(s.bucketCount)
    && |s.bucketCounts| == s.bucketCount && |s.buckets| == s.bucketCount
    && forall i :: 0 <= i < s.bucketCount ==>
         BucketValid(h, s.bucketCount, i, s.buckets[i].values) && |s.buckets[i].values| == s.bucketCounts[i]
  }

  ghost predicate BoundaryValid(h: Hash, s: State, b: Option<Boundary>)
    requires s.bucketCount > 0 && |s.buckets| == s.bucketCount
  {
    b.Some? && b.value.identity > 0 && Holds(h, s, b.value.identity)
  }

  ghost predicate Valid(h: Hash, s: State) {
    && BucketsValid(h, s)
    && Sum(s.bucketCounts) == s.positiveGroups
    && s.positiveRows >= s.positiveGroups && s.witnessRows >= 0
    && if s.positiveGroups == 0 then s.positiveRows == 0 && s.first == None && s.last == None
       else BoundaryValid(h, s, s.first) && BoundaryValid(h, s, s.last)
  }

  /** Scans one bucket file; the result is its length if it is well formed. */
  method ValidateBucketFile(h: Hash, n: nat, index: nat, values: seq<int>) returns (r: Result<nat, CanonicalizeError>)
    requires n > 0
    ensures r == if BucketValid(h, n, index, values) then Ok(|values|) else Err(InvalidState)
  {
    var previous := 0;
    for i := 0 to |values|
      invariant forall p, q :: 0 <= p < q < i ==> values[p] < values[q]
      invariant forall p :: 0 <= p < i ==> values[p] > 0 && BucketIndex(h, n, values[p]) == index
      invariant previous == if i == 0 then 0 else values[i - 1]
    {
      var v := values[i];
      if v <= previous || BucketIndex(h, n, v) != index {
        assert v in values;
        return Err(InvalidState);
      }
      forall p | 0 <= p < i ensures values[p] < v {
        assert p == i - 1 || values[p] < values[i - 1];
      }
      previous := v;
    }
    r := Ok(|values|);
  }

  method BucketContains(values: seq<int>, target: int) returns (found: bool)
    requires Ascending(values)
    ensures found == (target in values)
  {
    for i := 0 to |values|
      invariant forall k :: 0 <= k < i ==> values[k] < target
    {
      if values[i] == target { return true; }
      if values[i] > target { return false; }
    }
    found := false;
  }

  method ValidateBuckets(h: Hash, s: State) returns (r: Result<nat, CanonicalizeError>)
    requires |s.buckets| == s.bucketCount
    ensures r == if BucketsValid(h, s) then Ok(Sum(s.bucketCounts)) else Err(InvalidState)
  {
    if !BucketCountValid(s.bucketCount) || |s.bucketCounts| != s.bucketCount {
      return Err(InvalidState);
    }
    var total := 0;
    for i := 0 to s.bucketCount
      invariant total == Sum(s.bucketCounts[..i])
      invariant forall k :: 0 <= k < i ==>
        BucketValid(h, s.bucketCount, k, s.buckets[k].values) && |s.buckets[k].values| == s.bucketCounts[k]
    {
      var count := ValidateBucketFile(h, s.bucketCount, i, s.buckets[i].values);
      if count.Err? || count.value != s.bucketCounts[i] {
        return Err(InvalidState);
      }
      assert s.bucketCounts[..i + 1][..i] == s.bucketCounts[..i];
      total := total + count.value;
    }
    assert s.bucketCounts[..s.bucketCount] == s.bucketCounts;
    r := Ok(total);
  }

  method ValidateState(h: Hash, s: State) returns (ok: bool)
    requires |s.buckets| == s.bucketCount
    ensures ok == Valid(h, s)
  {
    var total := ValidateBuckets(h, s);
    if total.Err? || total.value != s.positiveGroups { return false; }
    if s.positiveRows < s.positiveGroups || s.witnessRows < 0 { return false; }
    if s.positiveGroups == 0 {
      return s.positiveRows == 0 && s.first == None && s.last == None;
    }
    for side := 0 to 2
      invariant side > 0 ==> BoundaryValid(h, s, s.first)
      invariant side > 1 ==> BoundaryValid(h, s, s.last)
    {
      var b := if side == 0 then s.first else s.last;
      if b == None || b.value.identity <= 0 { return false; }
      var held := BucketContains(s.buckets[BucketIndex(h, s.bucketCount, b.value.identity)].values, b.value.identity);
      if !held { return false; }
    }
    ok := true;
  }

  // ---------------------------------------------------------------------------------
  // Merging states
  // ---------------------------------------------------------------------------------

  function Shared(l: State, r: State): Option<int> {
    if l.last.Some? && r.first.Some? && l.last.value.identity == r.first.value.identity
    then Some(l.last.value.identity) else None
  }

  /** Some identity other than the shared one is on both sides. */
  ghost predicate Recurs(h: Hash, l: State, r: State)
    requires l.bucketCount == r.bucketCount > 0 && |l.buckets| == l.bucketCount && |r.buckets| == r.bucketCount
  {
    exists v :: Holds(h, l, v) && Holds(h, r, v) && Shared(l, r) != Some(v)
  }

  function MergeBuckets(l: seq<Bucket>, r: seq<Bucket>): seq<Bucket>
    requires |l| == |r|
  {
    seq(|l|, i requires 0 <= i < |l| => Bucket(MergeSorted(l[i].values, r[i].values)))
  }

  function Sizes(buckets: seq<Bucket>): seq<nat> {
    seq(|buckets|, i requires 0 <= i < |buckets| => |buckets[i].values|)
  }

  /** The merged summary around the merged bucket files. */
  function Assemble(l: State, r: State, buckets: seq<Bucket>, subtractBoundaryRow: bool): State {
    var shared := Shared(l, r).Some?;
    State(l.bucketCount, buckets, Sizes(buckets),
          l.positiveRows + r.positiveRows - (if shared && subtractBoundaryRow then 1 else 0),
          if shared then l.positiveGroups + r.positiveGroups - 1 else l.positiveGroups + r.positiveGroups,
          l.witnessRows + r.witnessRows, l.first, r.last)
  }

  function Merged(l: State, r: State, subtractBoundaryRow: bool): State
    requires |l.buckets| == |r.buckets|
  {
    Assemble(l, r, MergeBuckets(l.buckets, r.buckets), subtractBoundaryRow)
  }

  ghost predicate BoundaryConflict(l: State, r: State) {
    Shared(l, r).Some? && l.last.value.core != r.first.value.core
  }

  /** What merging two states means. An empty side gives back the other side untouched. */
  ghost function Merge(h: Hash, l: State, r: State, subtractBoundaryRow: bool): Result<State, CanonicalizeError> {
    if !Valid(h, l) || !Valid(h, r) then Err(InvalidState)
    else if l.bucketCount != r.bucketCount then Err(BucketCountMismatch)
    else if BoundaryConflict(l, r) then Err(BoundaryCoreMismatch)
    else if l.positiveGroups == 0 then Ok(r)
    else if r.positiveGroups == 0 then Ok(l)
    else if Recurs(h, l, r) then Err(Recurrence)
    else Ok(Merged(l, r, subtractBoundaryRow))
  }

  lemma {:induction false} SumMerged(l: seq<nat>, r: seq<nat>, m: seq<nat>, k: nat, less: nat)
    requires |l| == |r| == |m| && less <= 1
    requires forall i :: 0 <= i < |l| ==> m[i] == l[i] + r[i] - (if i == k then less else 0)
    ensures Sum(m) == Sum(l) + Sum(r) - (if k < |l| then less else 0)
  {
    if |l| > 0 {
      var last := |l| - 1;
      assert m[..last] == m[..|m| - 1];
      SumMerged(l[..last], r[..last], m[..last], k, less);
    }
  }

  lemma HoldsIffInBucket(h: Hash, s: State, i: nat, v: int)
    requires BucketsValid(h, s) && i < s.bucketCount
    ensures v in s.buckets[i].values <==> Holds(h, s, v) && BucketIndex(h, s.bucketCount, v) == i
  {
  }

  lemma BucketsOnlyShare(h: Hash, l: State, r: State, i: nat)
    requires BucketsValid(h, l) && BucketsValid(h, r) && l.bucketCount == r.bucketCount && i < l.bucketCount
    requires !Recurs(h, l, r)
    ensures OnlyCommon(l.buckets[i].values, r.buckets[i].values, Shared(l, r))
  {
    forall v | v in l.buckets[i].values && v in r.buckets[i].values ensures Shared(l, r) == Some(v) {
      HoldsIffInBucket(h, l, i, v);
      HoldsIffInBucket(h, r, i, v);
    }
  }

  lemma MergedHolds(h: Hash, l: State, r: State, sub: bool)
    requires BucketsValid(h, l) && BucketsValid(h, r) && l.bucketCount == r.bucketCount
    ensures BucketsValid(h, Merged(l, r, sub))
    ensures forall v :: Holds(h, Merged(l, r, sub), v) <==> Holds(h, l, v) || Holds(h, r, v)
  {
    var m := Merged(l, r, sub);
    forall i | 0 <= i < m.bucketCount
      ensures BucketValid(h, m.bucketCount, i, m.buckets[i].values)
      ensures forall v :: v in m.buckets[i].values <==> v in l.buckets[i].values || v in r.buckets[i].values
    {
      MergeSortedUnion(l.buckets[i].values, r.buckets[i].values);
    }
  }

  /** A merged bucket is as large as its two sides, less the shared identity in its bucket. */
  lemma MergedBucketSize(h: Hash, l: State, r: State, i: nat)
    requires BucketsValid(h, l) && BucketsValid(h, r) && l.bucketCount == r.bucketCount && i < l.bucketCount
    requires !Recurs(h, l, r) &&
      (Shared(l, r).Some? ==> Holds(h, l, Shared(l, r).value) && Holds(h, r, Shared(l, r).value))
    ensures var less := if Shared(l, r).Some? && BucketIndex(h, l.bucketCount, Shared(l, r).value) == i then 1 else 0;
      |MergeSorted(l.buckets[i].values, r.buckets[i].values)| == |l.buckets[i].values| + |r.buckets[i].values| - less
  {
    var shared := Shared(l, r);
    BucketsOnlyShare(h, l, r, i);
    MergeSortedSize(l.buckets[i].values, r.buckets[i].values, shared);
    if shared.Some? {
      HoldsIffInBucket(h, l, i, shared.value);
      HoldsIffInBucket(h, r, i, shared.value);
    }
  }

  lemma SharedIsHeld(h: Hash, l: State, r: State)
    requires Valid(h, l) && Valid(h, r) && l.bucketCount == r.bucketCount && Shared(l, r).Some?
    ensures Holds(h, l, Shared(l, r).value) && Holds(h, r, Shared(l, r).value)
  {
  }

  lemma MergedSizes(h: Hash, l: State, r: State, i: nat)
    requires Valid(h, l) && Valid(h, r) && l.bucketCount == r.bucketCount && !Recurs(h, l, r) && i < l.bucketCount
    ensures var shared := Shared(l, r);
      Sizes(MergeBuckets(l.buckets, r.buckets))[i] == l.bucketCounts[i] + r.bucketCounts[i]
        - (if shared.Some? && i == BucketIndex(h, l.bucketCount, shared.value) then 1 else 0)
  {
    if Shared(l, r).Some? { SharedIsHeld(h, l, r); }
    MergedBucketSize(h, l, r, i);
  }

  lemma MergedSum(h: Hash, l: State, r: State)
    requires Valid(h, l) && Valid(h, r) && l.bucketCount == r.bucketCount && !Recurs(h, l, r)
    ensures Sum(Sizes(MergeBuckets(l.buckets, r.buckets))) ==
            Sum(l.bucketCounts) + Sum(r.bucketCounts) - (if Shared(l, r).Some? then 1 else 0)
  {
    var shared, n, sizes := Shared(l, r), l.bucketCount, Sizes(MergeBuckets(l.buckets, r.buckets));
    var less := if shared.Some? then 1 else 0;
    var k := if shared.Some? then BucketIndex(h, n, shared.value) else 0;
    forall i | 0 <= i < n ensures sizes[i] == l.bucketCounts[i] + r.bucketCounts[i] - (if i == k then less else 0) {
      MergedSizes(h, l, r, i);
    }
    SumMerged(l.bucketCounts, r.bucketCounts, sizes, k, less);
  }

  /** The merged sizes add up to the merged group count. */
  lemma MergedGroupCount(h: Hash, l: State, r: State, sub: bool)
    requires Valid(h, l) && Valid(h, r) && l.bucketCount == r.bucketCount
    requires l.positiveGroups > 0 && r.positiveGroups > 0 && !Recurs(h, l, r)
    ensures Sum(Merged(l, r, sub).bucketCounts) == Merged(l, r, sub).positiveGroups
  {
    MergedSum(h, l, r);
  }

  /** Merging is closed: it rejects valid states only for a bucket count mismatch, a
      boundary core conflict or a recurrence, and what it returns is valid again, so the
      validation of the merged state cannot fail. */
  lemma MergeClosed(h: Hash, l: State, r: State, sub: bool)
    requires Valid(h, l) && Valid(h, r)
    ensures Merge(h, l, r, sub) != Err(InvalidState)
    ensures Merge(h, l, r, sub).Ok? ==> Valid(h, Merge(h, l, r, sub).value)
  {
    if l.bucketCount == r.bucketCount && l.positiveGroups > 0 && r.positiveGroups > 0 && !Recurs(h, l, r) {
      MergedHolds(h, l, r, sub);
      MergedGroupCount(h, l, r, sub);
    }
  }

  lemma RecursInBucket(h: Hash, l: State, r: State, i: nat)
    requires BucketsValid(h, l) && BucketsValid(h, r) && l.bucketCount == r.bucketCount && i < l.bucketCount
    requires !OnlyCommon(l.buckets[i].values, r.buckets[i].values, Shared(l, r))
    ensures Recurs(h, l, r)
  {
    var v :| v in l.buckets[i].values && v in r.buckets[i].values && Shared(l, r) != Some(v);
    HoldsIffInBucket(h, l, i, v);
    HoldsIffInBucket(h, r, i, v);
  }

  lemma NoRecurrence(h: Hash, l: State, r: State)
    requires BucketsValid(h, l) && BucketsValid(h, r) && l.bucketCount == r.bucketCount
    requires forall i :: 0 <= i < l.bucketCount ==> OnlyCommon(l.buckets[i].values, r.buckets[i].values, Shared(l, r))
    ensures !Recurs(h, l, r)
  {
    forall v | Holds(h, l, v) && Holds(h, r, v) ensures Shared(l, r) == Some(v) {
      assert OnlyCommon(l.buckets[BucketIndex(h, l.bucketCount, v)].values,
                        r.buckets[BucketIndex(h, l.bucketCount, v)].values, Shared(l, r));
    }
  }

  lemma MergedFiles(l: seq<Bucket>, r: seq<Bucket>, files: seq<Bucket>)
    requires |l| == |r| == |files|
    requires forall k :: 0 <= k < |l| ==> files[k] == Bucket(MergeSorted(l[k].values, r[k].values))
    ensures files == MergeBuckets(l, r)
  {
  }

  method MergeBucketFiles(h: Hash, l: State, r: State) returns (result: Result<seq<Bucket>, CanonicalizeError>)
    requires BucketsValid(h, l) && BucketsValid(h, r) && l.bucketCount == r.bucketCount
    ensures result == if Recurs(h, l, r) then Err(Recurrence) else Ok(MergeBuckets(l.buckets, r.buckets))
  {
    var buckets: seq<Bucket> := [];
    for i := 0 to l.bucketCount
      invariant |buckets| == i
      invariant forall k :: 0 <= k < i ==> buckets[k] == Bucket(MergeSorted(l.buckets[k].values, r.buckets[k].values))
      invariant forall k :: 0 <= k < i ==> OnlyCommon(l.buckets[k].values, r.buckets[k].values, Shared(l, r))
    {
      var merged := StreamMergeSortedUnique(l.buckets[i].values, r.buckets[i].values, Shared(l, r));
      if merged.Err? {
        RecursInBucket(h, l, r, i);
        return Err(merged.error);
      }
      buckets := buckets + [Bucket(merged.value)];
    }
    NoRecurrence(h, l, r);
    MergedFiles(l.buckets, r.buckets, buckets);
    result := Ok(buckets);
  }

  /** Bucket by bucket merge of two states, streaming one pair of files at a time. */
  method MergeStates(h: Hash, l: State, r: State, subtractBoundaryRow: bool)
    returns (result: Result<State, CanonicalizeError>)
    requires |l.buckets| == l.bucketCount && |r.buckets| == r.bucketCount
    ensures result == Merge(h, l, r, subtractBoundaryRow)
  {
    var leftOk := ValidateState(h, l);
    var rightOk := ValidateState(h, r);
    if !leftOk || !rightOk { return Err(InvalidState); }
    if l.bucketCount != r.bucketCount { return Err(BucketCountMismatch); }
    var allowed := Shared(l, r);
    if allowed.Some? && l.last.value.core != r.first.value.core { return Err(BoundaryCoreMismatch); }
    if l.positiveGroups == 0 { return Ok(r); }
    if r.positiveGroups == 0 { return Ok(l); }
    var files := MergeBucketFiles(h, l, r);
    if files.Err? { return Err(files.error); }
    var state := Assemble(l, r, files.value, subtractBoundaryRow);
    MergeClosed(h, l, r, subtractBoundaryRow);
    var ok := ValidateState(h, state);
    result := if ok then Ok(state) else Err(InvalidState);
  }

  // ---------------------------------------------------------------------------------
  // Associativity
  // ---------------------------------------------------------------------------------

  ghost function MergeLeft(h: Hash, a: State, b: State, c: State, sub: bool): Result<State, CanonicalizeError> {
    var ab := Merge(h, a, b, sub);
    if ab.Err? then ab else Merge(h, ab.value, c, sub)
  }

  ghost function MergeRight(h: Hash, a: State, b: State, c: State, sub: bool): Result<State, CanonicalizeError> {
    var bc := Merge(h, b, c, sub);
    if bc.Err? then bc else Merge(h, a, bc.value, sub)
  }

  ghost predicate AllPositive(h: Hash, a: State, b: State, c: State) {
    && Valid(h, a) && Valid(h, b) && Valid(h, c)
    && a.bucketCount == b.bucketCount == c.bucketCount
    && a.positiveGroups > 0 && b.positiveGroups > 0 && c.positiveGroups > 0
  }

  /** The recurrences seen by either grouping are the same: an identity shared by the outer
      stretches at one boundary belongs to the middle one as well. */
  lemma RecurrenceAssociative(h: Hash, a: State, b: State, c: State, sub: bool)
    requires AllPositive(h, a, b, c)
    ensures BucketsValid(h, Merged(a, b, sub)) && BucketsValid(h, Merged(b, c, sub))
    ensures !Recurs(h, a, b) && !Recurs(h, Merged(a, b, sub), c) <==>
            !Recurs(h, b, c) && !Recurs(h, a, Merged(b, c, sub))
  {
    var ab, bc := Merged(a, b, sub), Merged(b, c, sub);
    MergedHolds(h, a, b, sub);
    MergedHolds(h, b, c, sub);
    assert Shared(ab, c) == Shared(b, c) && Shared(a, bc) == Shared(a, b);
    if !Recurs(h, a, b) && !Recurs(h, ab, c) {
      forall v | Holds(h, b, v) && Holds(h, c, v) ensures Shared(b, c) == Some(v) {
        assert Holds(h, ab, v);
      }
      forall v | Holds(h, a, v) && Holds(h, bc, v) ensures Shared(a, bc) == Some(v) {
        if Holds(h, c, v) && !Holds(h, b, v) {
          assert Holds(h, ab, v) && Holds(h, b, b.last.value.identity);
        }
      }
    }
    if !Recurs(h, b, c) && !Recurs(h, a, bc) {
      forall v | Holds(h, a, v) && Holds(h, b, v) ensures Shared(a, b) == Some(v) {
        assert Holds(h, bc, v);
      }
      forall v | Holds(h, ab, v) && Holds(h, c, v) ensures Shared(ab, c) == Some(v) {
        if Holds(h, a, v) && !Holds(h, b, v) {
          assert Holds(h, bc, v) && Holds(h, b, b.first.value.identity);
        }
      }
    }
  }

  lemma BucketMergeAssociative(a: seq<int>, b: seq<int>, c: seq<int>)
    requires Ascending(a) && Ascending(b) && Ascending(c)
    ensures MergeSorted(MergeSorted(a, b), c) == MergeSorted(a, MergeSorted(b, c))
  {
    MergeSortedUnion(a, b);
    MergeSortedUnion(MergeSorted(a, b), c);
    MergeSortedUnion(b, c);
    MergeSortedUnion(a, MergeSorted(b, c));
    AscendingUnique(MergeSorted(MergeSorted(a, b), c), MergeSorted(a, MergeSorted(b, c)));
  }

  lemma BucketsMergeAssociative(h: Hash, a: State, b: State, c: State)
    requires BucketsValid(h, a) && BucketsValid(h, b) && BucketsValid(h, c)
    requires a.bucketCount == b.bucketCount == c.bucketCount
    ensures MergeBuckets(MergeBuckets(a.buckets, b.buckets), c.buckets)
         == MergeBuckets(a.buckets, MergeBuckets(b.buckets, c.buckets))
  {
    forall i | 0 <= i < a.bucketCount
      ensures MergeSorted(MergeSorted(a.buckets[i].values, b.buckets[i].values), c.buckets[i].values)
           == MergeSorted(a.buckets[i].values, MergeSorted(b.buckets[i].values, c.buckets[i].values))
    {
      BucketMergeAssociative(a.buckets[i].values, b.buckets[i].values, c.buckets[i].values);
    }
  }

  lemma SummaryAssociative(a: State, b: State, c: State, sub: bool)
    requires |a.buckets| == |b.buckets| == |c.buckets|
    requires MergeBuckets(MergeBuckets(a.buckets, b.buckets), c.buckets)
          == MergeBuckets(a.buckets, MergeBuckets(b.buckets, c.buckets))
    ensures Merged(Merged(a, b, sub), c, sub) == Merged(a, Merged(b, c, sub), sub)
  {
    var ab, bc := Merged(a, b, sub), Merged(b, c, sub);
    assert Shared(ab, c) == Shared(b, c) && Shared(a, bc) == Shared(a, b);
  }

  lemma MergedAssociative(h: Hash, a: State, b: State, c: State, sub: bool)
    requires AllPositive(h, a, b, c)
    ensures Merged(Merged(a, b, sub), c, sub) == Merged(a, Merged(b, c, sub), sub)
  {
    BucketsMergeAssociative(h, a, b, c);
    SummaryAssociative(a, b, c, sub);
  }

  lemma MergeNeedsValid(h: Hash, l: State, r: State, sub: bool)
    requires Merge(h, l, r, sub).Ok?
    ensures Valid(h, l) && Valid(h, r) && Valid(h, Merge(h, l, r, sub).value)
    ensures l.bucketCount == r.bucketCount == Merge(h, l, r, sub).value.bucketCount
  {
    MergeClosed(h, l, r, sub);
  }

  lemma EmptySideIsUnit(h: Hash, l: State, r: State, sub: bool)
    requires Valid(h, l) && Valid(h, r) && l.bucketCount == r.bucketCount
    ensures l.positiveGroups == 0 ==> Merge(h, l, r, sub) == Ok(r)
    ensures l.positiveGroups > 0 && r.positiveGroups == 0 ==> Merge(h, l, r, sub) == Ok(l)
  {
  }

  lemma MergePositive(h: Hash, l: State, r: State, sub: bool)
    requires Valid(h, l) && Valid(h, r) && l.bucketCount == r.bucketCount
    requires l.positiveGroups > 0 && r.positiveGroups > 0
    ensures Merge(h, l, r, sub).Ok? <==> !BoundaryConflict(l, r) && !Recurs(h, l, r)
    ensures Merge(h, l, r, sub).Ok? ==>
      Merge(h, l, r, sub).value == Merged(l, r, sub) && Valid(h, Merged(l, r, sub)) &&
          Merged(l, r, sub).positiveGroups > 0
  {
    MergeClosed(h, l, r, sub);
  }

  function LessRows(s: State, rows: nat): State {
    s.(positiveRows := s.positiveRows - rows)
  }

  /** Subtracting the boundary row takes one row off exactly when the sides share a boundary
      identity. */
  lemma MergeSubtracted(h: Hash, l: State, r: State)
    requires Valid(h, l) && Valid(h, r) && l.bucketCount == r.bucketCount
    requires l.positiveGroups > 0 && r.positiveGroups > 0
    ensures Merge(h, l, r, true).Ok? <==> Merge(h, l, r, false).Ok?
    ensures Merge(h, l, r, false).Ok? ==>
      Merge(h, l, r, true).value == LessRows(Merge(h, l, r, false).value, if Shared(l, r).Some? then 1 else 0)
  {
    MergePositive(h, l, r, true);
    MergePositive(h, l, r, false);
  }

  ghost predicate Compatible(h: Hash, l: State, r: State)
    requires l.bucketCount == r.bucketCount > 0 && |l.buckets| == l.bucketCount && |r.buckets| == r.bucketCount
  {
    !BoundaryConflict(l, r) && !Recurs(h, l, r)
  }

  lemma MergeLeftPositive(h: Hash, a: State, b: State, c: State, sub: bool)
    requires AllPositive(h, a, b, c)
    ensures MergeLeft(h, a, b, c, sub).Ok? <==> Compatible(h, a, b) && Compatible(h, Merged(a, b, sub), c)
    ensures MergeLeft(h, a, b, c, sub).Ok? ==> MergeLeft(h, a, b, c, sub) == Ok(Merged(Merged(a, b, sub), c, sub))
  {
    MergePositive(h, a, b, sub);
    if Merge(h, a, b, sub).Ok? { MergePositive(h, Merged(a, b, sub), c, sub); }
  }

  lemma MergeRightPositive(h: Hash, a: State, b: State, c: State, sub: bool)
    requires AllPositive(h, a, b, c)
    ensures MergeRight(h, a, b, c, sub).Ok? <==> Compatible(h, b, c) && Compatible(h, a, Merged(b, c, sub))
    ensures MergeRight(h, a, b, c, sub).Ok? ==> MergeRight(h, a, b, c, sub) == Ok(Merged(a, Merged(b, c, sub), sub))
  {
    MergePositive(h, b, c, sub);
    if Merge(h, b, c, sub).Ok? { MergePositive(h, a, Merged(b, c, sub), sub); }
  }

  lemma MergeAssociativePositive(h: Hash, a: State, b: State, c: State, sub: bool)
    requires AllPositive(h, a, b, c)
    ensures MergeLeft(h, a, b, c, sub).Ok? <==> MergeRight(h, a, b, c, sub).Ok?
    ensures MergeLeft(h, a, b, c, sub).Ok? ==> MergeLeft(h, a, b, c, sub) == MergeRight(h, a, b, c, sub)
  {
    MergeLeftPositive(h, a, b, c, sub);
    MergeRightPositive(h, a, b, c, sub);
    RecurrenceAssociative(h, a, b, c, sub);
    MergedAssociative(h, a, b, c, sub);
    assert BoundaryConflict(Merged(a, b, sub), c) <==> BoundaryConflict(b, c);
    assert BoundaryConflict(a, Merged(b, c, sub)) <==> BoundaryConflict(a, b);
  }

  lemma EmptyFirst(h: Hash, a: State, b: State, c: State, sub: bool)
    requires Valid(h, a) && Valid(h, b) && Valid(h, c) && a.bucketCount == b.bucketCount == c.bucketCount
    requires a.positiveGroups == 0
    ensures MergeLeft(h, a, b, c, sub) == MergeRight(h, a, b, c, sub) == Merge(h, b, c, sub)
  {
    EmptySideIsUnit(h, a, b, sub);
    if Merge(h, b, c, sub).Ok? {
      MergeNeedsValid(h, b, c, sub);
      EmptySideIsUnit(h, a, Merge(h, b, c, sub).value, sub);
    }
  }

  lemma EmptyMiddle(h: Hash, a: State, b: State, c: State, sub: bool)
    requires Valid(h, a) && Valid(h, b) && Valid(h, c) && a.bucketCount == b.bucketCount == c.bucketCount
    requires a.positiveGroups > 0 && b.positiveGroups == 0
    ensures MergeLeft(h, a, b, c, sub) == MergeRight(h, a, b, c, sub) == Merge(h, a, c, sub)
  {
    EmptySideIsUnit(h, a, b, sub);
    EmptySideIsUnit(h, b, c, sub);
  }

  lemma EmptyLast(h: Hash, a: State, b: State, c: State, sub: bool)
    requires Valid(h, a) && Valid(h, b) && Valid(h, c) && a.bucketCount == b.bucketCount == c.bucketCount
    requires a.positiveGroups > 0 && b.positiveGroups > 0 && c.positiveGroups == 0
    ensures MergeLeft(h, a, b, c, sub) == MergeRight(h, a, b, c, sub) == Merge(h, a, b, sub)
  {
    EmptySideIsUnit(h, b, c, sub);
    MergePositive(h, a, b, sub);
    if Merge(h, a, b, sub).Ok? { EmptySideIsUnit(h, Merged(a, b, sub), c, sub); }
  }

  lemma MergeAssociativeEmpty(h: Hash, a: State, b: State, c: State, sub: bool)
    requires Valid(h, a) && Valid(h, b) && Valid(h, c) && a.bucketCount == b.bucketCount == c.bucketCount
    requires a.positiveGroups == 0 || b.positiveGroups == 0 || c.positiveGroups == 0
    ensures MergeLeft(h, a, b, c, sub) == MergeRight(h, a, b, c, sub)
  {
    if a.positiveGroups == 0 {
      EmptyFirst(h, a, b, c, sub);
    } else if b.positiveGroups == 0 {
      EmptyMiddle(h, a, b, c, sub);
    } else {
      EmptyLast(h, a, b, c, sub);
    }
  }

  lemma MergeLeftNeedsValid(h: Hash, a: State, b: State, c: State, sub: bool)
    requires MergeLeft(h, a, b, c, sub).Ok?
    ensures Valid(h, a) && Valid(h, b) && Valid(h, c) && a.bucketCount == b.bucketCount == c.bucketCount
  {
    MergeNeedsValid(h, a, b, sub);
    MergeNeedsValid(h, Merge(h, a, b, sub).value, c, sub);
  }

  lemma MergeRightNeedsValid(h: Hash, a: State, b: State, c: State, sub: bool)
    requires MergeRight(h, a, b, c, sub).Ok?
    ensures Valid(h, a) && Valid(h, b) && Valid(h, c) && a.bucketCount == b.bucketCount == c.bucketCount
  {
    MergeNeedsValid(h, b, c, sub);
    MergeNeedsValid(h, a, Merge(h, b, c, sub).value, sub);
  }

  lemma MergeAssociativeValid(h: Hash, a: State, b: State, c: State, sub: bool)
    requires Valid(h, a) && Valid(h, b) && Valid(h, c) && a.bucketCount == b.bucketCount == c.bucketCount
    ensures MergeLeft(h, a, b, c, sub).Ok? <==> MergeRight(h, a, b, c, sub).Ok?
    ensures MergeLeft(h, a, b, c, sub).Ok? ==> MergeLeft(h, a, b, c, sub) == MergeRight(h, a, b, c, sub)
  {
    if AllPositive(h, a, b, c) {
      MergeAssociativePositive(h, a, b, c, sub);
    } else {
      MergeAssociativeEmpty(h, a, b, c, sub);
    }
  }

  /** Merging is associative for all states, valid or not and with or without subtracting
      the boundary row: both groupings accept or neither does, with the same result. */
  lemma MergeAssociative(h: Hash, a: State, b: State, c: State, sub: bool)
    ensures MergeLeft(h, a, b, c, sub).Ok? <==> MergeRight(h, a, b, c, sub).Ok?
    ensures MergeLeft(h, a, b, c, sub).Ok? ==> MergeLeft(h, a, b, c, sub) == MergeRight(h, a, b, c, sub)
  {
    if MergeLeft(h, a, b, c, sub).Ok? {
      MergeLeftNeedsValid(h, a, b, c, sub);
      MergeAssociativeValid(h, a, b, c, sub);
    } else if MergeRight(h, a, b, c, sub).Ok? {
      MergeRightNeedsValid(h, a, b, c, sub);
      MergeAssociativeValid(h, a, b, c, sub);
    }
  }

  /** Witness rows are conserved exactly when no empty side carries any. */
  lemma WitnessRowsConserved(h: Hash, l: State, r: State, sub: bool)
    requires Merge(h, l, r, sub).Ok?
    ensures Merge(h, l, r, sub).value.witnessRows == l.witnessRows + r.witnessRows <==>
            if l.positiveGroups == 0 then l.witnessRows == 0 else r.positiveGroups == 0 ==> r.witnessRows == 0
  {
  }

  /** A witness-only file followed by any other file loses its witness count. */
  lemma WitnessRowsLost(h: Hash)
    ensures var lone := State(1, [Bucket([])], [0], 0, 0, 5, None, None);
            Merge(h, lone, lone, false) == Ok(lone)
  {
    assert Sum([0]) == Sum([]) + 0 by { assert [0][..0] == []; }
    assert Valid(h, State(1, [Bucket([])], [0], 0, 0, 5, None, None));
  }
}
