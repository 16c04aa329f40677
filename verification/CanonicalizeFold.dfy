/** Folding files: merging the scans of several files is scanning their concatenation. */
module CanonicalizeFold {
  import opened Results
  import opened Canonicalize
  import opened BucketSort
  import opened CanonicalizeScan

  // ---------------------------------------------------------------------------------
  // Scanning a concatenation
  // ---------------------------------------------------------------------------------

  predicate JoinsGroup(a: seq<Row>, b: seq<Row>)
    requires a != [] && b != []
  {
    a[|a| - 1].identity == b[0].identity
  }

  lemma HeadsSnoc(rows: seq<Row>, last: Row)
    requires rows != []
    ensures Heads(rows + [last]) ==
      if rows[|rows| - 1].identity == last.identity then Heads(rows) else Heads(rows) + [last.identity]
  {
    assert (rows + [last])[..|rows|] == rows;
  }

  lemma {:induction false} HeadsAppend(a: seq<Row>, b: seq<Row>)
    requires a != [] && b != []
    ensures Heads(b) != [] && Heads(b)[0] == b[0].identity
    ensures Heads(a + b) == if JoinsGroup(a, b) then Heads(a) + Heads(b)[1..] else Heads(a) + Heads(b)
  {
    var front, last := b[..|b| - 1], b[|b| - 1];
    assert b == front + [last] && a + b == (a + front) + [last];
    if |b| == 1 {
      assert front == [] && a + front == a;
      HeadsSnoc(a, last);
      assert Heads([]) == [] && Heads(b) == [last.identity];
    } else {
      HeadsAppend(a, front);
      HeadsSnoc(a + front, last);
      HeadsSnoc(front, last);
    }
  }

  lemma AcceptsParts(a: seq<Row>, b: seq<Row>)
    requires Accepts(a + b)
    ensures Accepts(a) && Accepts(b)
  {
    var all := a + b;
    assert forall i :: 0 <= i < |a| ==> a[i] == all[i];
    assert forall i :: 0 <= i < |b| ==> b[i] == all[|a| + i];
    forall i, j, k | 0 <= i <= j <= k < |b| && b[i].identity == b[k].identity ensures b[j].identity == b[i].identity {
      assert all[|a| + i].identity == all[|a| + k].identity && all[|a| + j] == b[j];
    }
    forall i, j | 0 <= i < j < |b| && b[i].identity == b[j].identity ensures b[i].core == b[j].core {
      assert all[|a| + i].identity == all[|a| + j].identity;
    }
  }

  lemma CoresAppend(a: seq<Row>, b: seq<Row>)
    requires a != [] && b != [] && GroupCoresAgree(a) && GroupCoresAgree(b)
    ensures GroupCoresAgree(a + b) <==> (JoinsGroup(a, b) ==> a[|a| - 1].core == b[0].core)
  {
    var all := a + b;
    forall i | 0 < i < |all| && i != |a| ensures CoreContinues(all, i) {
      if i < |a| {
        assert CoreContinues(a, i);
      } else {
        assert CoreContinues(b, i - |a|);
      }
    }
    assert CoreContinues(all, |a|) <==> (JoinsGroup(a, b) ==> a[|a| - 1].core == b[0].core);
  }

  lemma NoRepeatsAppend(a: seq<int>, b: seq<int>)
    requires NoRepeats(multiset(a)) && NoRepeats(multiset(b))
    ensures NoRepeats(multiset(a + b)) <==> forall v :: v in a ==> v !in b
  {
    var both := multiset(a + b);
    assert both == multiset(a) + multiset(b);
    if NoRepeats(both) {
      forall v | v in a ensures v !in b {
        assert both[v] <= 1 && v in multiset(a);
      }
    }
    if forall v :: v in a ==> v !in b {
      forall v ensures both[v] <= 1 {
        assert multiset(a)[v] <= 1 && multiset(b)[v] <= 1;
        assert v in multiset(a) ==> v in a;
      }
    }
  }

  lemma NoRepeatsTail(b: seq<int>)
    requires b != [] && NoRepeats(multiset(b))
    ensures NoRepeats(multiset(b[1..]))
    ensures forall v :: v in b[1..] <==> v in b && v != b[0]
  {
    assert b == [b[0]] + b[1..];
    NoRepeatsAdd(multiset(b[1..]), b[0]);
    assert multiset(b) == multiset(b[1..]) + multiset{b[0]};
    assert b[0] !in multiset(b[1..]);
  }

  lemma ContiguousAppend(a: seq<Row>, b: seq<Row>)
    requires a != [] && b != [] && Contiguous(a) && Contiguous(b)
    ensures Contiguous(a + b) <==>
            forall v :: v in Heads(a) && v in Heads(b) ==> JoinsGroup(a, b) && v == b[0].identity
  {
    HeadsDecideContiguity(a);
    HeadsDecideContiguity(b);
    HeadsDecideContiguity(a + b);
    HeadsAppend(a, b);
    NoRepeatsTail(Heads(b));
    if JoinsGroup(a, b) {
      NoRepeatsAppend(Heads(a), Heads(b)[1..]);
    } else {
      NoRepeatsAppend(Heads(a), Heads(b));
    }
  }

  lemma ListingsMerge(h: Hash, n: nat, a: seq<int>, b: seq<int>, both: seq<int>)
    requires n > 0 && forall v :: v in both <==> v in a || v in b
    ensures Listings(h, n, both) == MergeBuckets(Listings(h, n, a), Listings(h, n, b))
  {
    forall i | 0 <= i < n
      ensures Listing(h, n, both, i) == MergeSorted(Listing(h, n, a, i), Listing(h, n, b, i))
    {
      ListingLists(h, n, a, i);
      ListingLists(h, n, b, i);
      ListingLists(h, n, both, i);
      MergeSortedUnion(Listing(h, n, a, i), Listing(h, n, b, i));
      AscendingUnique(Listing(h, n, both, i), MergeSorted(Listing(h, n, a, i), Listing(h, n, b, i)));
    }
  }

  lemma HeadsOfBoth(a: seq<Row>, b: seq<Row>)
    requires a != [] && b != []
    ensures forall v :: v in Heads(a + b) <==> v in Heads(a) || v in Heads(b)
  {
    HeadsAppend(a, b);
    if JoinsGroup(a, b) {
      HeadsOccur(a);
      assert Occurs(a, a[|a| - 1].identity);
      assert Heads(b) == [Heads(b)[0]] + Heads(b)[1..];
    }
  }

  /** Scanning is a homomorphism: merging two scans gives the scan of the concatenation. */
  lemma ScanAppend(h: Hash, n: nat, a: seq<Row>, b: seq<Row>, wa: nat, wb: nat)
    requires n > 0 && a != [] && b != []
    ensures ScanState(h, n, a + b, wa + wb) == Merged(ScanState(h, n, a, wa), ScanState(h, n, b, wb), false)
  {
    HeadsOfBoth(a, b);
    HeadsAppend(a, b);
    ListingsMerge(h, n, Heads(a), Heads(b), Heads(a + b));
    var all := a + b;
    assert all[0] == a[0] && all[|all| - 1] == b[|b| - 1];
  }

  lemma ScanRecurs(h: Hash, n: nat, a: seq<Row>, b: seq<Row>, wa: nat, wb: nat)
    requires n > 0 && a != [] && b != []
    ensures !Recurs(h, ScanState(h, n, a, wa), ScanState(h, n, b, wb)) <==>
            forall v :: v in Heads(a) && v in Heads(b) ==> JoinsGroup(a, b) && v == b[0].identity
  {
    var l, r := ScanState(h, n, a, wa), ScanState(h, n, b, wb);
    forall v ensures Holds(h, l, v) <==> v in Heads(a) { ScanHolds(h, n, a, wa, v); }
    forall v ensures Holds(h, r, v) <==> v in Heads(b) { ScanHolds(h, n, b, wb, v); }
  }

  /** Two accepted stretches are accepted together exactly when merging their states is. */
  lemma MergeAccepts(h: Hash, n: nat, a: seq<Row>, b: seq<Row>, wa: nat, wb: nat)
    requires BucketCountValid(n) && a != [] && b != [] && Accepts(a) && Accepts(b)
    ensures var m := Merge(h, ScanState(h, n, a, wa), ScanState(h, n, b, wb), false);
      && (m.Ok? <==> Accepts(a + b))
      && (m.Ok? ==> m.value == ScanState(h, n, a + b, wa + wb))
  {
    var l, r := ScanState(h, n, a, wa), ScanState(h, n, b, wb);
    ScanValid(h, n, a, wa);
    ScanValid(h, n, b, wb);
    MergePositive(h, l, r, false);
    ScanAppend(h, n, a, b, wa, wb);
    ScanRecurs(h, n, a, b, wa, wb);
    ContiguousAppend(a, b);
    GroupCoresDecide(a);
    GroupCoresDecide(b);
    CoresAppend(a, b);
    if Contiguous(a + b) { GroupCoresDecide(a + b); }
  }

  // ---------------------------------------------------------------------------------
  // A boundary row on both sides
  // ---------------------------------------------------------------------------------

  /** Rows read in order from places of accepted rows, some perhaps repeatedly, are accepted. */
  lemma AcceptsPicked(rows: seq<Row>, picked: seq<Row>, place: int -> int)
    requires Accepts(rows)
    requires forall i :: 0 <= i < |picked| ==> 0 <= place(i) < |rows| && picked[i] == rows[place(i)]
    requires forall i, j :: 0 <= i < j < |picked| ==> place(i) <= place(j)
    ensures Accepts(picked)
  {
    forall i, j, k | 0 <= i <= j <= k < |picked| && picked[i].identity == picked[k].identity
      ensures picked[j].identity == picked[i].identity
    {
      assert rows[place(i)].identity == rows[place(k)].identity && picked[j] == rows[place(j)];
    }
    forall i, j | 0 <= i < j < |picked| && picked[i].identity == picked[j].identity
      ensures picked[i].core == picked[j].core
    {
      assert rows[place(i)].identity == rows[place(j)].identity;
    }
  }

  /** Listing the last row of `a` once more in front of the rest changes nothing about acceptance. */
  lemma AcceptsOverlap(a: seq<Row>, b: seq<Row>)
    requires a != [] && b != [] && a[|a| - 1] == b[0]
    ensures Accepts(a + b) <==> Accepts(a + b[1..])
  {
    if Accepts(a + b) { AcceptsPicked(a + b, a + b[1..], i => if i < |a| then i else i + 1); }
    if Accepts(a + b[1..]) { AcceptsPicked(a + b[1..], a + b, i => if i < |a| then i else i - 1); }
  }

  lemma HeadsOne(row: Row)
    ensures Heads([row]) == [row.identity]
  {
    assert [row][..0] == [] && Heads([]) == [];
  }

  lemma HeadsOverlapMore(a: seq<Row>, b0: Row, rest: seq<Row>)
    requires a != [] && rest != [] && a[|a| - 1].identity == b0.identity
    ensures Heads(a + ([b0] + rest)) == Heads(a + rest)
  {
    HeadsOne(b0);
    HeadsAppend([b0], rest);
    HeadsAppend(a, rest);
    HeadsAppend(a, [b0] + rest);
  }

  lemma HeadsOverlap(a: seq<Row>, b: seq<Row>)
    requires a != [] && b != [] && JoinsGroup(a, b)
    ensures Heads(a + b) == Heads(a + b[1..])
  {
    assert b == [b[0]] + b[1..];
    if b[1..] == [] {
      assert a + b[1..] == a;
      HeadsSnoc(a, b[0]);
    } else {
      HeadsOverlapMore(a, b[0], b[1..]);
    }
  }

  lemma ScanOverlap(h: Hash, n: nat, a: seq<Row>, b: seq<Row>, w: int)
    requires n > 0 && a != [] && b != [] && a[|a| - 1] == b[0]
    ensures ScanState(h, n, a + b[1..], w) == LessRows(ScanState(h, n, a + b, w), 1)
  {
    HeadsOverlap(a, b);
    var once := a + b[1..];
    assert once[|once| - 1] == b[|b| - 1];
  }

  /** The rows of two stretches, a boundary row on both sides listed once. */
  function Overlapped(a: seq<Row>, b: seq<Row>): seq<Row>
    requires a != [] && b != []
  {
    if a[|a| - 1] == b[0] then a + b[1..] else a + b
  }

  function RowsOnBoth(a: seq<Row>, b: seq<Row>): nat
    requires a != [] && b != []
  {
    if JoinsGroup(a, b) then 1 else 0
  }

  lemma ScansShare(h: Hash, n: nat, a: seq<Row>, b: seq<Row>, wa: nat, wb: nat)
    requires n > 0 && a != [] && b != []
    ensures Shared(ScanState(h, n, a, wa), ScanState(h, n, b, wb)).Some? <==> JoinsGroup(a, b)
  {
  }

  /** Merging the states of two scans. */
  ghost function MergeScans(h: Hash, n: nat, a: seq<Row>, b: seq<Row>, wa: nat, wb: nat, subtractBoundaryRow: bool)
    : Result<State, CanonicalizeError>
    requires n > 0
  {
    Merge(h, ScanState(h, n, a, wa), ScanState(h, n, b, wb), subtractBoundaryRow)
  }

  lemma MergeLess(h: Hash, n: nat, a: seq<Row>, b: seq<Row>, wa: nat, wb: nat)
    requires BucketCountValid(n) && a != [] && b != [] && Accepts(a) && Accepts(b)
    ensures IsLess(MergeScans(h, n, a, b, wa, wb, false), MergeScans(h, n, a, b, wa, wb, true), RowsOnBoth(a, b))
  {
    ScanValid(h, n, a, wa);
    ScanValid(h, n, b, wb);
    ScansShare(h, n, a, b, wa, wb);
    MergeSubtracted(h, ScanState(h, n, a, wa), ScanState(h, n, b, wb));
  }

  lemma JoinedRowsEqual(a: seq<Row>, b: seq<Row>)
    requires a != [] && b != [] && JoinsGroup(a, b) && Accepts(a + b)
    ensures a[|a| - 1] == b[0]
  {
    var all := a + b;
    assert all[|a| - 1].identity == all[|a|].identity;
  }

  /** The result of scanning the rows. */
  ghost predicate IsScan(h: Hash, n: nat, rows: seq<Row>, w: int, m: Result<State, CanonicalizeError>)
    requires n > 0
  {
    (m.Ok? <==> Accepts(rows)) && (m.Ok? ==> m.value == ScanState(h, n, rows, w))
  }

  ghost predicate IsLess(whole: Result<State, CanonicalizeError>, less: Result<State, CanonicalizeError>, rows: nat) {
    (less.Ok? <==> whole.Ok?) && (whole.Ok? ==> less.value == LessRows(whole.value, rows))
  }

  lemma MergeIsScan(h: Hash, n: nat, a: seq<Row>, b: seq<Row>, wa: nat, wb: nat)
    requires BucketCountValid(n) && a != [] && b != [] && Accepts(a) && Accepts(b)
    ensures IsScan(h, n, a + b, wa + wb, MergeScans(h, n, a, b, wa, wb, false))
  {
    MergeAccepts(h, n, a, b, wa, wb);
  }

  lemma OverlapResult(h: Hash, n: nat, a: seq<Row>, b: seq<Row>, w: int, whole: Result<State, CanonicalizeError>,
                      less: Result<State, CanonicalizeError>)
    requires n > 0 && a != [] && b != []
    requires IsScan(h, n, a + b, w, whole) && IsLess(whole, less, RowsOnBoth(a, b))
    ensures IsScan(h, n, Overlapped(a, b), w, less)
  {
    if a[|a| - 1] == b[0] {
      AcceptsOverlap(a, b);
      ScanOverlap(h, n, a, b, w);
    } else if JoinsGroup(a, b) && Accepts(a + b) {
      JoinedRowsEqual(a, b);
    }
  }

  /** Merging the states of two stretches with the boundary row subtracted is scanning their
      rows with a row that ends the first and starts the second listed once. */
  lemma MergeOverlap(h: Hash, n: nat, a: seq<Row>, b: seq<Row>, wa: nat, wb: nat)
    requires BucketCountValid(n) && a != [] && b != [] && Accepts(a) && Accepts(b)
    ensures IsScan(h, n, Overlapped(a, b), wa + wb, MergeScans(h, n, a, b, wa, wb, true))
  {
    MergeLess(h, n, a, b, wa, wb);
    MergeIsScan(h, n, a, b, wa, wb);
    OverlapResult(h, n, a, b, wa + wb, MergeScans(h, n, a, b, wa, wb, false), MergeScans(h, n, a, b, wa, wb, true));
    assert IsScan(h, n, Overlapped(a, b), wa + wb, MergeScans(h, n, a, b, wa, wb, true));
  }

  // ---------------------------------------------------------------------------------
  // Folding files
  // ---------------------------------------------------------------------------------

  function AllRows(files: seq<File>): seq<Row> {
    if files == [] then [] else AllRows(files[..|files| - 1]) + files[|files| - 1].rows
  }

  /** Witness rows that survive the fold: those of files with positive rows, or the last
      file's when no file has any. */
  function CountedWitness(files: seq<File>): nat {
    if files == [] then 0
    else
      var last := files[|files| - 1];
      CountedWitness(files[..|files| - 1]) + if last.rows == [] then 0 else last.witnessRows
  }

  function FoldWitness(files: seq<File>): nat
    requires files != []
  {
    if AllRows(files) == [] then files[|files| - 1].witnessRows else CountedWitness(files)
  }

  ghost function Fold(h: Hash, n: nat, files: seq<File>): Result<State, CanonicalizeError>
    requires n > 0
  {
    if files == [] then Err(NoInput)
    else
      var part := Scan(h, n, files[|files| - 1]);
      if |files| == 1 then part
      else
        var state := Fold(h, n, files[..|files| - 1]);
        if state.Err? then state
        else if part.Err? then part
        else Merge(h, state.value, part.value, false)
  }

  lemma {:induction false} CountedWitnessNone(files: seq<File>)
    requires AllRows(files) == []
    ensures CountedWitness(files) == 0
  {
    if files != [] { CountedWitnessNone(files[..|files| - 1]); }
  }

  lemma FoldEmpty(h: Hash, n: nat, a: seq<Row>, b: seq<Row>, wa: nat, wb: nat)
    requires BucketCountValid(n) && Accepts(a) && Accepts(b) && (a == [] || b == [])
    ensures Merge(h, ScanState(h, n, a, wa), ScanState(h, n, b, wb), false)
         == Ok(ScanState(h, n, if a == [] then b else a, if a == [] then wb else wa))
  {
    ScanValid(h, n, a, wa);
    ScanValid(h, n, b, wb);
    EmptySideIsUnit(h, ScanState(h, n, a, wa), ScanState(h, n, b, wb), false);
  }

  lemma FoldStep(h: Hash, n: nat, a: seq<Row>, b: seq<Row>, wa: nat, wb: nat)
    requires BucketCountValid(n) && Accepts(a) && Accepts(b)
    ensures var m := Merge(h, ScanState(h, n, a, wa), ScanState(h, n, b, wb), false);
      && (m.Ok? <==> Accepts(a + b))
      && (m.Ok? ==> m.value == ScanState(h, n, a + b, if a == [] then wb else if b == [] then wa else wa + wb))
  {
    if a == [] {
      FoldEmpty(h, n, a, b, wa, wb);
      assert a + b == b;
    } else if b == [] {
      FoldEmpty(h, n, a, b, wa, wb);
      assert a + b == a;
    } else {
      MergeAccepts(h, n, a, b, wa, wb);
    }
  }

  lemma FoldWitnessStep(front: seq<File>, last: File)
    requires front != []
    ensures AllRows(front + [last]) == AllRows(front) + last.rows
    ensures FoldWitness(front + [last]) == if AllRows(front) == [] then last.witnessRows
                                           else if last.rows == [] then FoldWitness(front)
                                           else FoldWitness(front) + last.witnessRows
  {
    var files := front + [last];
    assert files[..|files| - 1] == front;
    if AllRows(front) == [] { CountedWitnessNone(front); }
  }

  lemma FoldOne(h: Hash, n: nat, file: File)
    requires n > 0
    ensures AllRows([file]) == file.rows && FoldWitness([file]) == file.witnessRows
    ensures Fold(h, n, [file]) == Scan(h, n, file)
  {
    var files := [file];
    assert files[..0] == [];
    assert AllRows(files) == AllRows([]) + file.rows;
    assert CountedWitness(files) == CountedWitness([]) + if file.rows == [] then 0 else file.witnessRows;
  }

  ghost predicate FoldsTo(h: Hash, n: nat, files: seq<File>, rows: seq<Row>, w: nat)
    requires n > 0
  {
    && (Fold(h, n, files).Ok? <==> Accepts(rows))
    && (Fold(h, n, files).Ok? ==> Fold(h, n, files).value == ScanState(h, n, rows, w))
  }

  lemma FoldNext(h: Hash, n: nat, files: seq<File>, rows: seq<Row>, w: nat, last: File, w': nat)
    requires BucketCountValid(n) && files != [] && FoldsTo(h, n, files, rows, w)
    requires w' == if rows == [] then last.witnessRows else if last.rows == [] then w else w + last.witnessRows
    ensures FoldsTo(h, n, files + [last], rows + last.rows, w')
  {
    var more := files + [last];
    assert more[..|more| - 1] == files;
    ScanAccepts(h, n, last);
    if Accepts(rows + last.rows) { AcceptsParts(rows, last.rows); }
    if Accepts(rows) && Accepts(last.rows) {
      FoldStep(h, n, rows, last.rows, w, last.witnessRows);
    }
  }

  lemma FoldsToScan(h: Hash, n: nat, files: seq<File>, file: File)
    requires n > 0 && Fold(h, n, files) == Scan(h, n, file)
    ensures FoldsTo(h, n, files, file.rows, file.witnessRows)
  {
    ScanAccepts(h, n, file);
  }

  lemma FoldsToOne(h: Hash, n: nat, file: File)
    requires n > 0
    ensures FoldsTo(h, n, [file], AllRows([file]), FoldWitness([file]))
  {
    FoldOne(h, n, file);
    FoldsToScan(h, n, [file], file);
  }

  lemma FoldsToMore(h: Hash, n: nat, front: seq<File>, last: File)
    requires BucketCountValid(n) && front != []
    requires FoldsTo(h, n, front, AllRows(front), FoldWitness(front))
    ensures FoldsTo(h, n, front + [last], AllRows(front + [last]), FoldWitness(front + [last]))
  {
    FoldWitnessStep(front, last);
    FoldNext(h, n, front, AllRows(front), FoldWitness(front), last, FoldWitness(front + [last]));
  }

  lemma {:induction false} FoldsToOneScan(h: Hash, n: nat, files: seq<File>)
    requires BucketCountValid(n) && files != []
    ensures FoldsTo(h, n, files, AllRows(files), FoldWitness(files))
  {
    var front, last := files[..|files| - 1], files[|files| - 1];
    if |files| == 1 {
      FoldsToOne(h, n, last);
      assert files == [last];
    } else {
      FoldsToOneScan(h, n, front);
      FoldsToMore(h, n, front, last);
      assert files == front + [last];
    }
  }

  /** Canonicalizing files one by one accepts exactly when the concatenation of all their
      rows is acceptable, and gives the state of scanning that concatenation: the same
      buckets, counts and boundaries, however the rows are split into files. */
  lemma FoldIsOneScan(h: Hash, n: nat, files: seq<File>)
    requires BucketCountValid(n) && files != []
    ensures Fold(h, n, files).Ok? <==> Accepts(AllRows(files))
    ensures Fold(h, n, files).Ok? ==> Fold(h, n, files).value == ScanState(h, n, AllRows(files), FoldWitness(files))
  {
    FoldsToOneScan(h, n, files);
  }

  /** The state of the first `i` files. */
  lemma FoldPrefix(h: Hash, n: nat, files: seq<File>, i: nat)
    requires n > 0 && 0 < i < |files|
    ensures var state, part := Fold(h, n, files[..i]), Scan(h, n, files[i]);
      Fold(h, n, files[..i + 1]) ==
        if state.Err? then state else if part.Err? then part else Merge(h, state.value, part.value, false)
  {
    assert files[..i + 1][..i] == files[..i];
  }

  lemma {:induction false} FoldFails(h: Hash, n: nat, files: seq<File>, i: nat)
    requires n > 0 && 0 < i <= |files| && Fold(h, n, files[..i]).Err?
    ensures Fold(h, n, files) == Fold(h, n, files[..i])
    decreases |files| - i
  {
    if i < |files| {
      FoldPrefix(h, n, files, i);
      FoldFails(h, n, files, i + 1);
    } else {
      assert files[..i] == files;
    }
  }

  lemma FoldStateShape(h: Hash, n: nat, files: seq<File>)
    requires BucketCountValid(n) && Fold(h, n, files).Ok?
    ensures var s := Fold(h, n, files).value; s.bucketCount == n && |s.buckets| == n
  {
    FoldIsOneScan(h, n, files);
  }

  /** One step of the loop over files: merge the next file's scan into the state. */
  method FoldFile(h: Hash, n: nat, ghost files: seq<File>, state: State, file: File)
    returns (result: Result<State, CanonicalizeError>)
    requires BucketCountValid(n) && files != [] && Fold(h, n, files) == Ok(state)
    ensures result == Fold(h, n, files + [file])
  {
    assert (files + [file])[..|files|] == files;
    FoldStateShape(h, n, files);
    var part := SingleInputState(h, n, file);
    if part.Err? { return part; }
    result := MergeStates(h, state, part.value, false);
  }

  lemma TakeOneMore<T>(s: seq<T>, i: nat)
    requires i < |s|
    ensures s[..i + 1] == s[..i] + [s[i]]
  {
  }

  method FoldFiles(h: Hash, n: nat, files: seq<File>) returns (result: Result<State, CanonicalizeError>)
    requires BucketCountValid(n) && files != []
    ensures result == Fold(h, n, files)
  {
    result := SingleInputState(h, n, files[0]);
    FoldOne(h, n, files[0]);
    ghost var seen := [files[0]];
    for i := 1 to |files|
      invariant seen == files[..i] && result == Fold(h, n, seen)
    {
      if result.Err? {
        FoldFails(h, n, files, i);
        return;
      }
      result := FoldFile(h, n, seen, result.value, files[i]);
      TakeOneMore(files, i);
      seen := seen + [files[i]];
    }
    assert seen == files;
  }

  /** Structural canonicalization of a list of files. */
  method ExecuteStructuralCanonicalize(h: Hash, n: nat, files: seq<File>)
    returns (result: Result<State, CanonicalizeError>)
    requires BucketCountValid(n)
    ensures result.Ok? <==> files != [] && Accepts(AllRows(files))
    ensures result.Ok? ==> result.value == ScanState(h, n, AllRows(files), FoldWitness(files))
    ensures result.Ok? ==> Valid(h, result.value)
  {
    if files == [] { return Err(NoInput); }
    result := FoldFiles(h, n, files);
    FoldIsOneScan(h, n, files);
    if result.Ok? { ScanValid(h, n, AllRows(files), FoldWitness(files)); }
  }
}
