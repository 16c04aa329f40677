/** Scanning the positive rows of a file into a state, and folding files together. */
module CanonicalizeScan {
  import opened Results
  import opened Sequences
  import opened Canonicalize
  import opened BucketSort

  datatype Row = Row(identity: int, core: Core)

  predicate HasNull(core: Core) {
    exists i :: 0 <= i < |core.fields| && core.fields[i] == None
  }

  function BoundaryOf(row: Row): Boundary {
    Boundary(row.identity, row.core)
  }

  // ---------------------------------------------------------------------------------
  // What is accepted
  // ---------------------------------------------------------------------------------

  ghost predicate Positive(rows: seq<Row>) {
    forall i :: 0 <= i < |rows| ==> rows[i].identity > 0
  }

  /** The rows of each identity stand together. */
  ghost predicate Contiguous(rows: seq<Row>) {
    forall i, j, k :: 0 <= i <= j <= k < |rows| && rows[i].identity == rows[k].identity ==>
      rows[j].identity == rows[i].identity
  }

  /** Rows of one identity agree on their core fields, and no core field is missing. */
  ghost predicate ConsistentCores(rows: seq<Row>) {
    && (forall i, k :: 0 <= i < |rows| && 0 <= k < |rows[i].core.fields| ==> rows[i].core.fields[k].Some?)
    && forall i, j :: 0 <= i < j < |rows| && rows[i].identity == rows[j].identity ==> rows[i].core == rows[j].core
  }

  ghost predicate Accepts(rows: seq<Row>) {
    Positive(rows) && Contiguous(rows) && ConsistentCores(rows)
  }

  // ---------------------------------------------------------------------------------
  // Group heads
  // ---------------------------------------------------------------------------------

  /** The identity of each maximal stretch of rows with one identity. */
  function Heads(rows: seq<Row>): seq<int> {
    if rows == [] then []
    else
      var front := rows[..|rows| - 1];
      if StartsGroup(rows) then Heads(front) + [rows[|rows| - 1].identity] else Heads(front)
  }

  predicate StartsGroup(rows: seq<Row>)
    requires rows != []
  {
    |rows| == 1 || rows[|rows| - 2].identity != rows[|rows| - 1].identity
  }

  ghost predicate Occurs(rows: seq<Row>, v: int) {
    exists i :: 0 <= i < |rows| && rows[i].identity == v
  }

  lemma {:induction false} HeadsOccur(rows: seq<Row>)
    ensures forall v :: v in Heads(rows) <==> Occurs(rows, v)
  {
    if rows != [] {
      var front, last := rows[..|rows| - 1], rows[|rows| - 1];
      HeadsOccur(front);
      forall v ensures Occurs(rows, v) <==> Occurs(front, v) || v == last.identity {
        if Occurs(front, v) {
          var i :| 0 <= i < |front| && front[i].identity == v;
          assert rows[i].identity == v;
        }
        if v == last.identity { assert rows[|rows| - 1].identity == v; }
      }
      if !StartsGroup(rows) {
        assert front[|front| - 1].identity == last.identity;
      }
    }
  }

  lemma ContiguousSnoc(rows: seq<Row>)
    requires rows != []
    ensures var front, last := rows[..|rows| - 1], rows[|rows| - 1];
      Contiguous(rows) <==> Contiguous(front) && (StartsGroup(rows) ==> !Occurs(front, last.identity))
  {
    var front, n := rows[..|rows| - 1], |rows| - 1;
    if Contiguous(front) && (StartsGroup(rows) ==> !Occurs(front, rows[n].identity)) {
      forall i, j, k | 0 <= i <= j <= k < |rows| && rows[i].identity == rows[k].identity
        ensures rows[j].identity == rows[i].identity
      {
        if k < n {
          assert front[i].identity == front[k].identity && front[j] == rows[j];
        } else if i < n {
          assert front[i].identity == rows[n].identity;
          if j < n {
            assert front[j].identity == front[i].identity by { assert front[n - 1].identity == front[i].identity; }
          }
        }
      }
    }
    if Contiguous(rows) {
      forall i, j, k | 0 <= i <= j <= k < |front| && front[i].identity == front[k].identity
        ensures front[j].identity == front[i].identity
      {
        assert rows[i].identity == rows[k].identity && rows[j] == front[j];
      }
      if StartsGroup(rows) {
        forall i | 0 <= i < |front| ensures front[i].identity != rows[n].identity {
          var previous, next := rows[n - 1], rows[n];
          assert previous.identity != next.identity;
        }
      }
    }
  }

  lemma NoRepeatsAdd(m: multiset<int>, v: int)
    ensures NoRepeats(m + multiset{v}) <==> NoRepeats(m) && v !in m
  {
    var more := m + multiset{v};
    if NoRepeats(more) {
      assert more[v] <= 1;
      forall x ensures m[x] <= 1 { assert more[x] <= 1; }
    }
    if NoRepeats(m) && v !in m {
      forall x ensures more[x] <= 1 { assert m[x] <= 1; }
    }
  }

  /** Identities stand together exactly when no group head repeats. */
  lemma {:induction false} HeadsDecideContiguity(rows: seq<Row>)
    ensures Contiguous(rows) <==> NoRepeats(multiset(Heads(rows)))
  {
    if rows != [] {
      var front, last := rows[..|rows| - 1], rows[|rows| - 1];
      HeadsDecideContiguity(front);
      ContiguousSnoc(rows);
      HeadsOccur(front);
      if StartsGroup(rows) {
        var m, v := multiset(Heads(front)), last.identity;
        assert multiset(Heads(rows)) == m + multiset{v};
        NoRepeatsAdd(m, v);
      }
    }
  }

  ghost predicate CoreContinues(rows: seq<Row>, i: int)
    requires 0 < i < |rows|
  {
    rows[i - 1].identity == rows[i].identity ==> rows[i - 1].core == rows[i].core
  }

  ghost predicate CoresPresent(rows: seq<Row>) {
    forall i :: 0 <= i < |rows| ==> !HasNull(rows[i].core)
  }

  /** The core check of the scan: within a stretch, each row agrees with the one before. */
  ghost predicate GroupCoresAgree(rows: seq<Row>) {
    CoresPresent(rows) && forall i :: 0 < i < |rows| ==> CoreContinues(rows, i)
  }

  lemma {:induction false} StretchCoresAgree(rows: seq<Row>, i: nat, j: nat)
    requires GroupCoresAgree(rows) && Contiguous(rows) && i <= j < |rows| && rows[i].identity == rows[j].identity
    ensures rows[i].core == rows[j].core
  {
    if i < j {
      assert rows[j - 1].identity == rows[i].identity;
      StretchCoresAgree(rows, i, j - 1);
      assert CoreContinues(rows, j);
    }
  }

  lemma GroupCoresDecide(rows: seq<Row>)
    requires Contiguous(rows)
    ensures ConsistentCores(rows) <==> GroupCoresAgree(rows)
  {
    forall i | 0 <= i < |rows|
      ensures !HasNull(rows[i].core) <==> forall k :: 0 <= k < |rows[i].core.fields| ==> rows[i].core.fields[k].Some?
    {
    }
    if GroupCoresAgree(rows) {
      forall i, j | 0 <= i < j < |rows| && rows[i].identity == rows[j].identity ensures rows[i].core == rows[j].core {
        StretchCoresAgree(rows, i, j);
      }
    }
    if ConsistentCores(rows) {
      forall i | 0 < i < |rows| ensures CoreContinues(rows, i) {
        assert rows[i - 1].identity == rows[i].identity ==> rows[i - 1].core == rows[i].core;
      }
    }
  }

  // ---------------------------------------------------------------------------------
  // The scanned state
  // ---------------------------------------------------------------------------------

  /** The values of one bucket, in the order they are spilled. */
  function InBucket(h: Hash, n: nat, values: seq<int>, index: nat): seq<int>
    requires n > 0
  {
    if values == [] then []
    else
      var front, last := values[..|values| - 1], values[|values| - 1];
      if BucketIndex(h, n, last) == index then InBucket(h, n, front, index) + [last] else InBucket(h, n, front, index)
  }

  lemma {:induction false} InBucketCounts(h: Hash, n: nat, values: seq<int>, index: nat)
    requires n > 0
    ensures forall v :: multiset(InBucket(h, n, values, index))[v]
              == if BucketIndex(h, n, v) == index then multiset(values)[v] else 0
  {
    if values != [] {
      var front := values[..|values| - 1];
      assert values == front + [values[|values| - 1]];
      InBucketCounts(h, n, front, index);
    }
  }

  function InsertUnique(v: int, s: seq<int>): seq<int> {
    if v in s then s else Insert(v, s)
  }

  /** The ascending listing of the values that belong to one bucket. */
  function Listing(h: Hash, n: nat, values: seq<int>, index: nat): seq<int>
    requires n > 0
  {
    if values == [] then []
    else
      var rest := Listing(h, n, values[1..], index);
      if BucketIndex(h, n, values[0]) == index then InsertUnique(values[0], rest) else rest
  }

  lemma InsertUniqueAscending(v: int, s: seq<int>)
    requires Ascending(s)
    ensures Ascending(InsertUnique(v, s))
    ensures forall x :: x in InsertUnique(v, s) <==> x == v || x in s
  {
    if v !in s {
      InsertAscending(v, s);
      InsertAdds(v, s);
    }
  }

  lemma {:induction false} ListingLists(h: Hash, n: nat, values: seq<int>, index: nat)
    requires n > 0
    ensures Ascending(Listing(h, n, values, index))
    ensures forall x :: x in Listing(h, n, values, index) <==> x in values && BucketIndex(h, n, x) == index
  {
    if values != [] {
      ListingLists(h, n, values[1..], index);
      assert forall x :: x in values <==> x == values[0] || x in values[1..];
      if BucketIndex(h, n, values[0]) == index {
        InsertUniqueAscending(values[0], Listing(h, n, values[1..], index));
      }
    }
  }

  function Listings(h: Hash, n: nat, values: seq<int>): seq<Bucket>
    requires n > 0
  {
    seq(n, i requires 0 <= i < n => Bucket(Listing(h, n, values, i)))
  }

  /** The state of an accepted stretch of rows. */
  function ScanState(h: Hash, n: nat, rows: seq<Row>, witnessRows: int): State
    requires n > 0
  {
    var heads := Heads(rows);
    State(n, Listings(h, n, heads), Sizes(Listings(h, n, heads)), |rows|, |heads|, witnessRows,
          if rows == [] then None else Some(BoundaryOf(rows[0])),
          if rows == [] then None else Some(BoundaryOf(rows[|rows| - 1])))
  }

  /** With no repeats among the spilled values, a sorted bucket is exactly its listing. */
  lemma SortedBucketIsListing(h: Hash, n: nat, values: seq<int>, index: nat, sorted: seq<int>)
    requires n > 0 && Ascending(sorted) && multiset(sorted) == multiset(InBucket(h, n, values, index))
    ensures sorted == Listing(h, n, values, index)
  {
    InBucketCounts(h, n, values, index);
    ListingLists(h, n, values, index);
    forall v ensures v in sorted <==> v in Listing(h, n, values, index) {
      assert v in sorted <==> v in multiset(sorted);
      assert v in values <==> v in multiset(values);
    }
    AscendingUnique(sorted, Listing(h, n, values, index));
  }

  function Spilled(h: Hash, n: nat, values: seq<int>): seq<Bucket>
    requires n > 0
  {
    seq(n, i requires 0 <= i < n => Bucket(InBucket(h, n, values, i)))
  }

  lemma SpilledSnoc(h: Hash, n: nat, values: seq<int>, v: int)
    requires n > 0
    ensures var k := BucketIndex(h, n, v);
      k < n && Spilled(h, n, values + [v]) == Spilled(h, n, values)[k := Bucket(Spilled(h, n, values)[k].values + [v])]
  {
    var all := values + [v];
    assert all[..|all| - 1] == values;
    forall i | 0 <= i < n
      ensures InBucket(h, n, all, i) ==
        if i == BucketIndex(h, n, v) then InBucket(h, n, values, i) + [v] else InBucket(h, n, values, i)
    {
    }
  }

  lemma {:induction false} SumBump(counts: seq<nat>, k: nat)
    requires k < |counts|
    ensures Sum(counts[k := counts[k] + 1]) == Sum(counts) + 1
  {
    var last := |counts| - 1;
    var bumped := counts[k := counts[k] + 1];
    if k < last {
      assert bumped[..last] == counts[..last][k := counts[..last][k] + 1];
      SumBump(counts[..last], k);
    } else {
      assert bumped[..last] == counts[..last];
    }
  }

  lemma {:induction false} SumZero(counts: seq<nat>)
    requires forall i :: 0 <= i < |counts| ==> counts[i] == 0
    ensures Sum(counts) == 0
  {
    if counts != [] { SumZero(counts[..|counts| - 1]); }
  }

  /** Every spilled value is in exactly one bucket. */
  lemma {:induction false} SpilledSizes(h: Hash, n: nat, values: seq<int>)
    requires n > 0
    ensures Sum(Sizes(Spilled(h, n, values))) == |values|
  {
    if values == [] {
      SumZero(Sizes(Spilled(h, n, values)));
    } else {
      var front, v := values[..|values| - 1], values[|values| - 1];
      assert values == front + [v];
      SpilledSizes(h, n, front);
      SpilledSnoc(h, n, front, v);
      var sizes, k := Sizes(Spilled(h, n, front)), BucketIndex(h, n, v);
      assert Sizes(Spilled(h, n, values)) == sizes[k := sizes[k] + 1];
      SumBump(sizes, k);
    }
  }

  lemma SameMultisetSameSize(a: seq<int>, b: seq<int>)
    requires multiset(a) == multiset(b)
    ensures |a| == |b|
  {
    assert |multiset(a)| == |a| && |multiset(b)| == |b|;
  }

  lemma ListingSize(h: Hash, n: nat, values: seq<int>, index: nat)
    requires n > 0 && NoRepeats(multiset(values))
    ensures |Listing(h, n, values, index)| == |InBucket(h, n, values, index)|
  {
    var listing, spilled := Listing(h, n, values, index), InBucket(h, n, values, index);
    ListingLists(h, n, values, index);
    InBucketCounts(h, n, values, index);
    AscendingNoRepeats(listing);
    forall v ensures multiset(listing)[v] == multiset(spilled)[v] {
      assert v in listing <==> v in multiset(listing);
      assert v in values <==> v in multiset(values);
      assert multiset(listing)[v] <= 1 && multiset(values)[v] <= 1;
    }
    SameMultisetSameSize(listing, spilled);
  }

  lemma {:induction false} HeadsBounds(rows: seq<Row>)
    ensures |Heads(rows)| <= |rows| && (rows != [] ==> |Heads(rows)| > 0 && Heads(rows)[0] == rows[0].identity)
  {
    if rows != [] { HeadsBounds(rows[..|rows| - 1]); }
  }

  lemma ScanHolds(h: Hash, n: nat, rows: seq<Row>, w: int, v: int)
    requires n > 0
    ensures Holds(h, ScanState(h, n, rows, w), v) <==> v in Heads(rows)
  {
    ListingLists(h, n, Heads(rows), BucketIndex(h, n, v));
  }

  lemma ScanBucketsValid(h: Hash, n: nat, rows: seq<Row>, w: int)
    requires BucketCountValid(n) && Positive(rows)
    ensures BucketsValid(h, ScanState(h, n, rows, w))
  {
    HeadsOccur(rows);
    forall i | 0 <= i < n ensures BucketValid(h, n, i, Listings(h, n, Heads(rows))[i].values) {
      ListingLists(h, n, Heads(rows), i);
    }
  }

  /** An accepted scan gives a valid state: each identity once, in its bucket, and the bucket
      sizes adding up to the number of groups. */
  lemma ScanValid(h: Hash, n: nat, rows: seq<Row>, w: nat)
    requires BucketCountValid(n) && Accepts(rows)
    ensures Valid(h, ScanState(h, n, rows, w))
    ensures rows != [] <==> ScanState(h, n, rows, w).positiveGroups > 0
  {
    var s, heads := ScanState(h, n, rows, w), Heads(rows);
    ScanBucketsValid(h, n, rows, w);
    HeadsBounds(rows);
    HeadsDecideContiguity(rows);
    forall i | 0 <= i < n ensures |Listing(h, n, heads, i)| == |InBucket(h, n, heads, i)| {
      ListingSize(h, n, heads, i);
    }
    assert s.bucketCounts == Sizes(Spilled(h, n, heads));
    SpilledSizes(h, n, heads);
    if rows != [] {
      HeadsOccur(rows);
      assert Occurs(rows, rows[0].identity) && Occurs(rows, rows[|rows| - 1].identity);
      ScanHolds(h, n, rows, w, rows[0].identity);
      ScanHolds(h, n, rows, w, rows[|rows| - 1].identity);
    }
  }

  ghost function Identities(rows: seq<Row>): set<int> {
    set i | 0 <= i < |rows| :: rows[i].identity
  }

  /** The state of accepted rows counts the rows, their identities and the witness rows, holds
      exactly the identities, and starts and ends at the first and last row. */
  lemma ScanMeans(h: Hash, n: nat, rows: seq<Row>, w: nat)
    requires BucketCountValid(n) && Accepts(rows)
    ensures var s := ScanState(h, n, rows, w);
      && s.bucketCount == n && s.positiveRows == |rows| && s.witnessRows == w
      && s.positiveGroups == |Identities(rows)|
      && (forall v :: Holds(h, s, v) <==> v in Identities(rows))
      && s.first == (if rows == [] then None else Some(Boundary(rows[0].identity, rows[0].core)))
      && s.last == (if rows == [] then None else Some(Boundary(rows[|rows| - 1].identity, rows[|rows| - 1].core)))
  {
    HeadsOccur(rows);
    HeadsDecideContiguity(rows);
    DistinctSize(Heads(rows), Identities(rows));
    forall v ensures Holds(h, ScanState(h, n, rows, w), v) <==> v in Identities(rows) {
      ScanHolds(h, n, rows, w, v);
    }
  }

  lemma {:induction false} DistinctSize(values: seq<int>, all: set<int>)
    requires NoRepeats(multiset(values)) && forall v :: v in all <==> v in values
    ensures |all| == |values|
  {
    if values == [] {
      assert forall v :: v !in all;
    } else {
      var front, last := values[..|values| - 1], values[|values| - 1];
      assert values == front + [last];
      assert multiset(values) == multiset(front) + multiset{last};
      NoRepeatsAdd(multiset(front), last);
      DistinctSize(front, all - {last});
    }
  }

  // ---------------------------------------------------------------------------------
  // The scan of one file
  // ---------------------------------------------------------------------------------

  /** A file after column projection: its rows outside the sentinel witnesses, and how many
      witnesses it had. */
  datatype File = File(rows: seq<Row>, witnessRows: nat)

  /** What scanning one file means, with the error that is reported first. */
  ghost function Scan(h: Hash, n: nat, file: File): Result<State, CanonicalizeError>
    requires n > 0
  {
    if !Positive(file.rows) then Err(IdentityNotPositive)
    else if !GroupCoresAgree(file.rows) then Err(CoreDisagreement)
    else if !Contiguous(file.rows) then Err(NonContiguous)
    else Ok(ScanState(h, n, file.rows, file.witnessRows))
  }

  lemma ScanAccepts(h: Hash, n: nat, file: File)
    requires n > 0
    ensures Scan(h, n, file).Ok? <==> Accepts(file.rows)
  {
    if Contiguous(file.rows) { GroupCoresDecide(file.rows); }
    if Accepts(file.rows) { GroupCoresDecide(file.rows); }
  }

  /** What the loop over rows holds after `i` rows. */
  ghost predicate Spilling(h: Hash, n: nat, rows: seq<Row>, i: nat, spill: seq<Bucket>, groups: nat)
    requires n > 0
  {
    && i <= |rows|
    && (forall k :: 0 < k < i ==> CoreContinues(rows, k))
    && groups == |Heads(rows[..i])|
    && spill == Spilled(h, n, Heads(rows[..i]))
  }

  lemma SpillRow(h: Hash, n: nat, rows: seq<Row>, i: nat, spill: seq<Bucket>, groups: nat)
    requires n > 0 && Spilling(h, n, rows, i, spill, groups) && i < |rows|
    requires i > 0 ==> CoreContinues(rows, i)
    ensures var k := BucketIndex(h, n, rows[i].identity);
      if i == 0 || rows[i - 1].identity != rows[i].identity
      then k < |spill| &&
           Spilling(h, n, rows, i + 1, spill[k := Bucket(spill[k].values + [rows[i].identity])], groups + 1)
      else Spilling(h, n, rows, i + 1, spill, groups)
  {
    var upTo := rows[..i + 1];
    assert upTo[..|upTo| - 1] == rows[..i];
    SpilledSnoc(h, n, Heads(rows[..i]), rows[i].identity);
  }

  /** Streams rows in order: each new group's identity goes to its hash bucket, and each
      further row is checked against the core fields of its group. */
  method SpillRows(h: Hash, n: nat, rows: seq<Row>) returns (result: Result<(nat, seq<Bucket>), CanonicalizeError>)
    requires n > 0 && rows != []
    ensures if GroupCoresAgree(rows)
      then result == Ok((|Heads(rows)|, Spilled(h, n, Heads(rows))))
      else result == Err(CoreDisagreement)
  {
    var spill := seq(n, i => Bucket([]));
    var groupCore, groups, previous := rows[0].core, 0, 0;
    assert spill == Spilled(h, n, Heads(rows[..0]));
    for i := 0 to |rows|
      invariant Spilling(h, n, rows, i, spill, groups) && CoresPresent(rows[..i])
      invariant i > 0 ==> groupCore == rows[i - 1].core && previous == rows[i - 1].identity
    {
      var row := rows[i];
      if HasNull(row.core) {
        return Err(CoreDisagreement);
      }
      if i == 0 || row.identity != previous {
        SpillRow(h, n, rows, i, spill, groups);
        var index := BucketIndex(h, n, row.identity);
        spill := spill[index := Bucket(spill[index].values + [row.identity])];
        groupCore, groups := row.core, groups + 1;
      } else {
        if row.core != groupCore {
          assert !CoreContinues(rows, i);
          return Err(CoreDisagreement);
        }
        SpillRow(h, n, rows, i, spill, groups);
      }
      previous := row.identity;
    }
    assert rows[..|rows|] == rows;
    result := Ok((groups, spill));
  }

  lemma RepeatInBucket(h: Hash, n: nat, values: seq<int>, index: nat)
    requires n > 0
    ensures NoRepeats(multiset(values)) ==> NoRepeats(multiset(InBucket(h, n, values, index)))
  {
    InBucketCounts(h, n, values, index);
  }

  lemma NoRepeatInAnyBucket(h: Hash, n: nat, values: seq<int>)
    requires n > 0 && forall i :: 0 <= i < n ==> NoRepeats(multiset(Spilled(h, n, values)[i].values))
    ensures NoRepeats(multiset(values))
  {
    forall v ensures multiset(values)[v] <= 1 {
      var k := BucketIndex(h, n, v);
      InBucketCounts(h, n, values, k);
      assert NoRepeats(multiset(Spilled(h, n, values)[k].values));
    }
  }

  /** Sorts every bucket file; one repeated identity anywhere refuses the whole file. */
  method SortBuckets(h: Hash, n: nat, spill: seq<Bucket>, ghost values: seq<int>)
    returns (result: Result<seq<Bucket>, CanonicalizeError>)
    requires n > 0 && spill == Spilled(h, n, values)
    ensures result == if NoRepeats(multiset(values)) then Ok(Listings(h, n, values)) else Err(NonContiguous)
  {
    var buckets: seq<Bucket> := [];
    for i := 0 to n
      invariant |buckets| == i
      invariant forall k :: 0 <= k < i ==> buckets[k] == Bucket(Listing(h, n, values, k))
      invariant forall k :: 0 <= k < i ==> NoRepeats(multiset(spill[k].values))
    {
      var sorted := SortUniqueBucketFile(spill[i].values);
      if sorted.Err? {
        RepeatInBucket(h, n, values, i);
        return Err(sorted.error);
      }
      SortedBucketIsListing(h, n, values, i, sorted.value);
      buckets := buckets + [Bucket(sorted.value)];
    }
    NoRepeatInAnyBucket(h, n, values);
    assert buckets == Listings(h, n, values);
    result := Ok(buckets);
  }

  /** Scans one file in bounded memory. It accepts exactly the files whose identities are
      positive, stand together and agree on complete core fields. */
  method SingleInputState(h: Hash, n: nat, file: File) returns (result: Result<State, CanonicalizeError>)
    requires n > 0
    ensures result == Scan(h, n, file)
    ensures result.Ok? <==> Accepts(file.rows)
  {
    ScanAccepts(h, n, file);
    var rows := file.rows;
    for i := 0 to |rows|
      invariant Positive(rows[..i])
    {
      if rows[i].identity <= 0 {
        return Err(IdentityNotPositive);
      }
    }
    assert rows[..|rows|] == rows;
    if rows == [] {
      var empty := seq(n, i => Bucket([]));
      assert empty == Listings(h, n, Heads(rows));
      return Ok(State(n, empty, Sizes(empty), 0, 0, file.witnessRows, None, None));
    }
    var scanned := SpillRows(h, n, rows);
    if scanned.Err? { return Err(scanned.error); }
    HeadsDecideContiguity(rows);
    var buckets := SortBuckets(h, n, scanned.value.1, Heads(rows));
    if buckets.Err? { return Err(buckets.error); }
    result := Ok(State(n, buckets.value, Sizes(buckets.value), |rows|, scanned.value.0, file.witnessRows,
                       Some(BoundaryOf(rows[0])), Some(BoundaryOf(rows[|rows| - 1]))));
  }
}
