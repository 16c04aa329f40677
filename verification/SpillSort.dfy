/** Bounded external merge of sorted spill runs: heap-driven k-way merging with a fan-in
    limit, reduced level by level. */
module SpillSort {
  import opened Ordering
  import opened Results

  const MERGE_FAN_IN: nat := 16
  const SORT_RUN_ROWS: nat := 65_536
  const ROW_SCAN_BATCH: nat := 65_536

  function Payloads<P>(rows: seq<Row<P>>): seq<P> {
    seq(|rows|, i requires 0 <= i < |rows| => rows[i].payload)
  }

  // ---------------------------------------------------------------------------------
  // Specification: merging by smallest head, the lower run first on equal keys
  // ---------------------------------------------------------------------------------

  function Merge2<P>(a: seq<Row<P>>, b: seq<Row<P>>): seq<Row<P>>
    decreases |a| + |b|
  {
    if a == [] then b
    else if b == [] then a
    else if KeyLess(b[0].key, a[0].key) then [b[0]] + Merge2(a, b[1..])
    else [a[0]] + Merge2(a[1..], b)
  }

  function MergeRuns<P>(runs: seq<seq<Row<P>>>): seq<Row<P>> {
    if runs == [] then [] else Merge2(runs[0], MergeRuns(runs[1..]))
  }

  lemma Merge2Head<P>(a: seq<Row<P>>, b: seq<Row<P>>)
    ensures a == [] && b == [] <==> Merge2(a, b) == []
    ensures b != [] && (a == [] || KeyLess(b[0].key, a[0].key))
            ==> Merge2(a, b)[0] == b[0] && Merge2(a, b)[1..] == Merge2(a, b[1..])
    ensures a != [] && (b == [] || !KeyLess(b[0].key, a[0].key))
            ==> Merge2(a, b)[0] == a[0] && Merge2(a, b)[1..] == Merge2(a[1..], b)
  {
  }

  /** Smallest-head merging is associative on arbitrary inputs, sorted or not. */
  lemma {:induction false} Merge2Associative<P>(a: seq<Row<P>>, b: seq<Row<P>>, c: seq<Row<P>>)
    ensures Merge2(Merge2(a, b), c) == Merge2(a, Merge2(b, c))
    decreases |a| + |b| + |c|
  {
    if a != [] && b != [] && c != [] {
      Merge2Head(a, b);
      Merge2Head(b, c);
      if KeyLess(b[0].key, a[0].key) {
        if KeyLess(c[0].key, b[0].key) {
          KeyLessTransitive(c[0].key, b[0].key, a[0].key);
          Merge2Associative(a, b, c[1..]);
        } else {
          Merge2Associative(a, b[1..], c);
        }
      } else {
        if KeyLess(c[0].key, a[0].key) {
          assert KeyLess(c[0].key, b[0].key) by {
            KeyLessTotal(a[0].key, b[0].key);
            if a[0].key != b[0].key { KeyLessTransitive(c[0].key, a[0].key, b[0].key); }
          }
          Merge2Associative(a, b, c[1..]);
        } else {
          Merge2Associative(a[1..], b, c);
        }
      }
    }
  }

  lemma {:induction false} MergeRunsAppend<P>(x: seq<seq<Row<P>>>, y: seq<seq<Row<P>>>)
    ensures MergeRuns(x + y) == Merge2(MergeRuns(x), MergeRuns(y))
  {
    if x == [] {
      assert x + y == y;
    } else {
      assert (x + y)[1..] == x[1..] + y;
      MergeRunsAppend(x[1..], y);
      Merge2Associative(x[0], MergeRuns(x[1..]), MergeRuns(y));
    }
  }

  lemma MultisetHead<T>(s: seq<T>)
    requires s != []
    ensures multiset(s) == multiset{s[0]} + multiset(s[1..])
  {
    assert s == [s[0]] + s[1..];
  }

  lemma {:induction false} Merge2Multiset<P>(a: seq<Row<P>>, b: seq<Row<P>>)
    ensures multiset(Merge2(a, b)) == multiset(a) + multiset(b)
    decreases |a| + |b|
  {
    if a != [] && b != [] {
      var merged := Merge2(a, b);
      Merge2Head(a, b);
      MultisetHead(merged);
      if KeyLess(b[0].key, a[0].key) {
        Merge2Multiset(a, b[1..]);
        MultisetHead(b);
        calc {
          multiset(merged);
          multiset{b[0]} + (multiset(a) + multiset(b[1..]));
          multiset(a) + (multiset{b[0]} + multiset(b[1..]));
          multiset(a) + multiset(b);
        }
      } else {
        Merge2Multiset(a[1..], b);
        MultisetHead(a);
        calc {
          multiset(merged);
          multiset{a[0]} + (multiset(a[1..]) + multiset(b));
          multiset(a) + multiset(b);
        }
      }
    }
  }

  lemma Merge2Elements<P>(a: seq<Row<P>>, b: seq<Row<P>>)
    ensures forall r :: r in Merge2(a, b) ==> r in a || r in b
  {
    Merge2Multiset(a, b);
    forall r | r in Merge2(a, b) ensures r in a || r in b {
      assert r in multiset(Merge2(a, b));
    }
  }

  lemma SortedCons<P>(r: Row<P>, rest: seq<Row<P>>)
    requires Sorted(rest)
    requires forall x :: x in rest ==> KeyLeq(r.key, x.key)
    ensures Sorted([r] + rest)
  {
    var s := [r] + rest;
    forall i, j | 0 <= i < j < |s| ensures KeyLeq(s[i].key, s[j].key) {
      assert s[j] == rest[j - 1] && rest[j - 1] in rest;
      if i > 0 { assert s[i] == rest[i - 1]; }
    }
  }

  lemma SortedHead<P>(rows: seq<Row<P>>)
    requires rows != [] && Sorted(rows)
    ensures forall x :: x in rows ==> KeyLeq(rows[0].key, x.key)
  {
    KeyLessIrreflexive(rows[0].key);
  }

  lemma {:induction false} Merge2Sorted<P>(a: seq<Row<P>>, b: seq<Row<P>>)
    requires Sorted(a) && Sorted(b)
    ensures Sorted(Merge2(a, b))
    decreases |a| + |b|
  {
    if a != [] && b != [] {
      SortedHead(a);
      SortedHead(b);
      if KeyLess(b[0].key, a[0].key) {
        Merge2Sorted(a, b[1..]);
        Merge2Elements(a, b[1..]);
        KeyLessAsymmetric(b[0].key, a[0].key);
        forall x | x in Merge2(a, b[1..]) ensures KeyLeq(b[0].key, x.key) {
          if x in a { KeyLeqTransitive(b[0].key, a[0].key, x.key); }
        }
        SortedCons(b[0], Merge2(a, b[1..]));
      } else {
        Merge2Sorted(a[1..], b);
        Merge2Elements(a[1..], b);
        forall x | x in Merge2(a[1..], b) ensures KeyLeq(a[0].key, x.key) {
          if x in b { KeyLeqTransitive(a[0].key, b[0].key, x.key); }
        }
        SortedCons(a[0], Merge2(a[1..], b));
      }
    }
  }

  /** On sorted inputs the merge keeps, for each key, the rows of `a` before those of `b`. */
  lemma {:induction false} Merge2Stable<P>(a: seq<Row<P>>, b: seq<Row<P>>, k: Key)
    requires Sorted(a) && Sorted(b)
    ensures WithKey(Merge2(a, b), k) == WithKey(a, k) + WithKey(b, k)
    decreases |a| + |b|
  {
    if a != [] && b != [] {
      var merged := Merge2(a, b);
      Merge2Head(a, b);
      if KeyLess(b[0].key, a[0].key) {
        Merge2Stable(a, b[1..], k);
        assert WithKey(merged, k) == (if b[0].key == k then [b[0]] else []) + WithKey(merged[1..], k);
        if k == b[0].key {
          NoneWithSmallerKey(a, k);
        }
      } else {
        Merge2Stable(a[1..], b, k);
        assert WithKey(merged, k) == (if a[0].key == k then [a[0]] else []) + WithKey(merged[1..], k);
      }
    }
  }

  lemma NoneWithSmallerKey<P>(a: seq<Row<P>>, k: Key)
    requires a != [] && Sorted(a) && KeyLess(k, a[0].key)
    ensures WithKey(a, k) == []
  {
    if WithKey(a, k) != [] {
      WithKeyOnlyKey(a, k);
      var r := WithKey(a, k)[0];
      assert r in WithKey(a, k);
      SortedHead(a);
      assert false;
    }
  }

  ghost predicate AllSorted<P>(runs: seq<seq<Row<P>>>) {
    forall i :: 0 <= i < |runs| ==> Sorted(runs[i])
  }

  /** Merging sorted runs is a stable sort of their concatenation: sorted, and for every
      key the rows keep the order run by run, then position by position. Together with
      `StableSortUnique` this determines the result. */
  lemma {:induction false} MergeRunsIsStableSort<P>(runs: seq<seq<Row<P>>>)
    requires AllSorted(runs)
    ensures Sorted(MergeRuns(runs))
    ensures forall k :: WithKey(MergeRuns(runs), k) == WithKey(Concat(runs), k)
    ensures multiset(MergeRuns(runs)) == multiset(Concat(runs))
  {
    if runs != [] {
      MergeRunsIsStableSort(runs[1..]);
      Merge2Sorted(runs[0], MergeRuns(runs[1..]));
      Merge2Multiset(runs[0], MergeRuns(runs[1..]));
      forall k ensures WithKey(MergeRuns(runs), k) == WithKey(Concat(runs), k) {
        Merge2Stable(runs[0], MergeRuns(runs[1..]), k);
        WithKeyAppend(runs[0], Concat(runs[1..]), k);
      }
    }
  }

  lemma MergeRunsDetermined<P>(runs: seq<seq<Row<P>>>, s: seq<Row<P>>)
    requires AllSorted(runs)
    requires Sorted(s) && forall k :: WithKey(s, k) == WithKey(Concat(runs), k)
    ensures s == MergeRuns(runs)
  {
    MergeRunsIsStableSort(runs);
    forall k ensures WithKey(s, k) == WithKey(MergeRuns(runs), k) {
      assert WithKey(MergeRuns(runs), k) == WithKey(Concat(runs), k);
    }
    StableSortUnique(s, MergeRuns(runs));
  }

  // ---------------------------------------------------------------------------------
  // The heap: at most one pending row per source, popped by (key, source)
  // ---------------------------------------------------------------------------------

  ghost predicate PopsFirst<P>(heap: map<nat, Row<P>>, s: nat) {
    s in heap &&
    forall t :: t in heap ==>
      KeyLeq(heap[s].key, heap[t].key) && (KeyLeq(heap[t].key, heap[s].key) ==> s <= t)
  }

  lemma {:induction false} PopsFirstExists<P>(heap: map<nat, Row<P>>, sources: set<nat>)
    returns (s: nat)
    requires sources <= heap.Keys && sources != {}
    ensures s in sources
    ensures forall t :: t in sources ==>
      KeyLeq(heap[s].key, heap[t].key) && (KeyLeq(heap[t].key, heap[s].key) ==> s <= t)
  {
    var x :| x in sources;
    KeyLessIrreflexive(heap[x].key);
    if sources == {x} {
      s := x;
    } else {
      var rest := sources - {x};
      assert sources == rest + {x};
      var y := PopsFirstExists(heap, rest);
      KeyLessTotal(heap[x].key, heap[y].key);
      s := if KeyLess(heap[x].key, heap[y].key) || (heap[x].key == heap[y].key && x < y) then x else y;
      if KeyLess(heap[x].key, heap[y].key) {
        KeyLessAsymmetric(heap[x].key, heap[y].key);
      } else if KeyLess(heap[y].key, heap[x].key) {
        KeyLessAsymmetric(heap[y].key, heap[x].key);
      }
      forall t | t in sources
        ensures KeyLeq(heap[s].key, heap[t].key) && (KeyLeq(heap[t].key, heap[s].key) ==> s <= t)
      {
        if t != x && s == x {
          assert t in rest;
          KeyLeqTransitive(heap[x].key, heap[y].key, heap[t].key);
          if KeyLeq(heap[t].key, heap[x].key) {
            KeyLeqTransitive(heap[t].key, heap[x].key, heap[y].key);
            KeyLeqTransitive(heap[y].key, heap[t].key, heap[x].key);
          }
        }
      }
    }
  }

  method HeapMin<P>(heap: map<nat, Row<P>>) returns (s: nat)
    requires heap != map[]
    ensures PopsFirst(heap, s)
  {
    ghost var least := PopsFirstExists(heap, heap.Keys);
    assert PopsFirst(heap, least);
    s :| s in heap && forall t :: t in heap ==>
      KeyLeq(heap[s].key, heap[t].key) && (KeyLeq(heap[t].key, heap[s].key) ==> s <= t);
  }

  /** Taking the smallest head out of its run is one step of the specification. */
  lemma {:induction false} MergeRunsPop<P>(runs: seq<seq<Row<P>>>, s: nat)
    requires s < |runs| && runs[s] != []
    requires forall t :: 0 <= t < |runs| && runs[t] != [] ==>
      KeyLeq(runs[s][0].key, runs[t][0].key) &&
      (KeyLeq(runs[t][0].key, runs[s][0].key) ==> s <= t)
    ensures MergeRuns(runs) == [runs[s][0]] + MergeRuns(runs[s := runs[s][1..]])
  {
    var rest := MergeRuns(runs[1..]);
    var runs' := runs[s := runs[s][1..]];
    Merge2Head(runs[0], rest);
    if s == 0 {
      assert runs'[1..] == runs[1..];
      if rest != [] {
        var t := MergeRunsHeadSource(runs[1..]);
        assert runs[t + 1][0] == rest[0];
      }
    } else {
      assert runs'[1..] == runs[1..][s - 1 := runs[s][1..]];
      assert runs[1..][s - 1] == runs[s];
      forall t | 0 <= t < |runs[1..]| && runs[1..][t] != []
        ensures KeyLeq(runs[1..][s - 1][0].key, runs[1..][t][0].key)
        ensures KeyLeq(runs[1..][t][0].key, runs[1..][s - 1][0].key) ==> s - 1 <= t
      {
        assert runs[1..][t] == runs[t + 1];
      }
      MergeRunsPop(runs[1..], s - 1);
      if runs[0] != [] {
        assert KeyLess(runs[s][0].key, runs[0][0].key);
      }
    }
  }

  lemma {:induction false} MergeRunsHeadSource<P>(runs: seq<seq<Row<P>>>) returns (t: nat)
    requires MergeRuns(runs) != []
    ensures t < |runs| && runs[t] != [] && runs[t][0] == MergeRuns(runs)[0]
  {
    Merge2Head(runs[0], MergeRuns(runs[1..]));
    if runs[0] != [] && MergeRuns(runs)[0] == runs[0][0] {
      t := 0;
    } else {
      t := MergeRunsHeadSource(runs[1..]);
      t := t + 1;
    }
  }

  lemma {:induction false} MergeRunsEmpty<P>(runs: seq<seq<Row<P>>>)
    requires forall i :: 0 <= i < |runs| ==> runs[i] == []
    ensures MergeRuns(runs) == []
  {
    if runs != [] {
      MergeRunsEmpty(runs[1..]);
    }
  }

  // ---------------------------------------------------------------------------------
  // Streams, merging and fan-in reduction
  // ---------------------------------------------------------------------------------

  /** A logical sorted run: the rows of its on-disk parts, one part after the other. */
  type LogicalRun<P> = seq<seq<Row<P>>>

  /** Reads a logical run row by row, one bounded batch of the current part at a time. */
  class LogicalRowStream<P> {
    const run: LogicalRun<P>
    const sourceId: nat
    var partIndex: nat
    var current: seq<Row<P>>
    var offset: nat
    var buffer: seq<Row<P>>

    ghost predicate Valid()
      reads this
    {
      partIndex <= |run| && offset <= |current|
    }

    ghost function Remaining(): seq<Row<P>>
      requires Valid()
      reads this
    {
      buffer + current[offset..] + Concat(run[partIndex..])
    }

    constructor (run: LogicalRun<P>, sourceId: nat)
      ensures Valid() && this.sourceId == sourceId && Remaining() == Concat(run)
    {
      this.run, this.sourceId := run, sourceId;
      partIndex, current, offset, buffer := 0, [], 0, [];
    }

    method Pop() returns (row: Option<Row<P>>)
      requires Valid()
      modifies this
      ensures Valid()
      ensures old(Remaining()) == [] ==> row == None && Remaining() == []
      ensures old(Remaining()) != [] ==>
        row == Some(old(Remaining())[0]) && Remaining() == old(Remaining())[1..]
    {
      while buffer == [] && (offset < |current| || partIndex < |run|)
        invariant Valid() && Remaining() == old(Remaining())
        decreases |run| - partIndex, |current| - offset, |buffer| == 0
      {
        if offset < |current| {
          var size := if ROW_SCAN_BATCH < |current| - offset then ROW_SCAN_BATCH else |current| - offset;
          assert current[offset..] == current[offset..offset + size] + current[offset + size..];
          buffer := current[offset..offset + size];
          offset := offset + size;
        } else {
          assert run[partIndex..] == [run[partIndex]] + run[partIndex + 1..];
          current, offset := run[partIndex], 0;
          partIndex := partIndex + 1;
        }
      }
      if buffer == [] {
        row := None;
      } else {
        row := Some(buffer[0]);
        buffer := buffer[1..];
      }
    }
  }

  function RowsOf<P>(runs: seq<LogicalRun<P>>): seq<seq<Row<P>>> {
    seq(|runs|, i requires 0 <= i < |runs| => Concat(runs[i]))
  }

  /** What source `i` still has to contribute: its pending heap row, then its stream. */
  ghost function Pending<P>(heap: map<nat, Row<P>>, streams: seq<LogicalRowStream<P>>, i: nat): seq<Row<P>>
    requires i < |streams| && streams[i].Valid()
    reads streams[i]
  {
    (if i in heap then [heap[i]] else []) + streams[i].Remaining()
  }

  ghost predicate MergeState<P>(heap: map<nat, Row<P>>, streams: seq<LogicalRowStream<P>>, rem: seq<seq<Row<P>>>)
    reads streams
  {
    |rem| == |streams| &&
    (forall i :: 0 <= i < |streams| ==> streams[i].sourceId == i) &&
    (forall i :: 0 <= i < |streams| ==> streams[i].Valid() && rem[i] == Pending(heap, streams, i)) &&
    (forall i :: 0 <= i < |streams| && i !in heap ==> rem[i] == []) &&
    (forall i :: i in heap ==> i < |streams|)
  }

  method OpenSource<P>(heap: map<nat, Row<P>>, streams: seq<LogicalRowStream<P>>, run: LogicalRun<P>,
                       ghost rem: seq<seq<Row<P>>>)
    returns (heap': map<nat, Row<P>>, stream: LogicalRowStream<P>)
    requires MergeState(heap, streams, rem)
    ensures fresh(stream) && MergeState(heap', streams + [stream], rem + [Concat(run)])
  {
    stream := new LogicalRowStream(run, |streams|);
    var row := stream.Pop();
    heap' := if row.Some? then heap[|streams| := row.value] else heap;
    assert Pending(heap', streams + [stream], |streams|) == Concat(run);
    assert forall i :: 0 <= i < |streams| ==> (streams + [stream])[i] == streams[i];
  }

  lemma RowsOfNext<P>(runs: seq<LogicalRun<P>>, i: nat)
    requires i < |runs|
    ensures RowsOf(runs[..i + 1]) == RowsOf(runs[..i]) + [Concat(runs[i])]
  {
    assert runs[..i + 1] == runs[..i] + [runs[i]];
  }

  /** The first `i` runs are open. */
  ghost predicate Opened<P>(heap: map<nat, Row<P>>, streams: seq<LogicalRowStream<P>>, runs: seq<LogicalRun<P>>, i: nat)
    reads streams
  {
    i <= |runs| && MergeState(heap, streams, RowsOf(runs[..i]))
  }

  lemma AllOpened<P>(heap: map<nat, Row<P>>, streams: seq<LogicalRowStream<P>>, runs: seq<LogicalRun<P>>)
    requires Opened(heap, streams, runs, |runs|)
    ensures MergeState(heap, streams, RowsOf(runs))
  {
    assert runs[..|runs|] == runs;
  }

  /** Opens the stream of run `i`. */
  method OpenNext<P>(heap: map<nat, Row<P>>, streams: seq<LogicalRowStream<P>>, runs: seq<LogicalRun<P>>, i: nat)
    returns (heap': map<nat, Row<P>>, streams': seq<LogicalRowStream<P>>)
    requires i < |runs| && |streams| == i && Opened(heap, streams, runs, i)
    ensures |streams'| == i + 1 && Opened(heap', streams', runs, i + 1)
    ensures fresh(streams'[i]) && forall k :: 0 <= k < i ==> streams'[k] == streams[k]
  {
    RowsOfNext(runs, i);
    var stream;
    heap', stream := OpenSource(heap, streams, runs[i], RowsOf(runs[..i]));
    streams' := streams + [stream];
  }

  /** Opens the streams of the first `n` runs, one after the other, each giving its first row. */
  method OpenAll<P>(runs: seq<LogicalRun<P>>, n: nat)
    returns (heap: map<nat, Row<P>>, streams: seq<LogicalRowStream<P>>)
    requires n <= |runs|
    ensures |streams| == n && Opened(heap, streams, runs, n) && fresh(streams)
  {
    if n == 0 {
      streams, heap := [], map[];
    } else {
      var h, front := OpenAll(runs, n - 1);
      heap, streams := OpenNext(h, front, runs, n - 1);
      assert forall k :: 0 <= k < n ==> fresh(streams[k]);
    }
  }

  method OpenStreams<P>(runs: seq<LogicalRun<P>>)
    returns (heap: map<nat, Row<P>>, streams: seq<LogicalRowStream<P>>)
    ensures |streams| == |runs| && fresh(streams)
    ensures MergeState(heap, streams, RowsOf(runs))
  {
    heap, streams := OpenAll(runs, |runs|);
    AllOpened(heap, streams, runs);
  }

  lemma SmallestPendingHead<P>(heap: map<nat, Row<P>>, streams: seq<LogicalRowStream<P>>, rem: seq<seq<Row<P>>>, s: nat)
    requires MergeState(heap, streams, rem) && PopsFirst(heap, s)
    ensures rem[s] != [] && rem[s][0] == heap[s] && rem[s][1..] == streams[s].Remaining()
    ensures MergeRuns(rem) == [heap[s]] + MergeRuns(rem[s := rem[s][1..]])
  {
    assert forall t :: t in heap ==> rem[t] == [heap[t]] + streams[t].Remaining();
    forall t | 0 <= t < |rem| && rem[t] != []
      ensures KeyLeq(rem[s][0].key, rem[t][0].key)
      ensures KeyLeq(rem[t][0].key, rem[s][0].key) ==> s <= t
    {
      assert t in heap;
    }
    MergeRunsPop(rem, s);
  }

  /** Replaces the popped row of source `s` by the next row of its stream. */
  method RefillSource<P>(heap: map<nat, Row<P>>, streams: seq<LogicalRowStream<P>>, s: nat, ghost rem: seq<seq<Row<P>>>)
    returns (heap': map<nat, Row<P>>)
    requires s in heap && MergeState(heap, streams, rem)
    modifies streams[s]
    ensures MergeState(heap', streams, rem[s := rem[s][1..]])
  {
    ghost var tail := streams[s].Remaining();
    assert rem[s] == [heap[s]] + tail;
    var next := streams[s].Pop();
    heap' := if next.Some? then heap[s := next.value] else heap - {s};
    assert Pending(heap', streams, s) == tail;
  }

  method PopSmallest<P>(heap: map<nat, Row<P>>, streams: seq<LogicalRowStream<P>>, ghost rem: seq<seq<Row<P>>>)
    returns (row: Row<P>, heap': map<nat, Row<P>>, ghost rem': seq<seq<Row<P>>>)
    requires heap != map[] && MergeState(heap, streams, rem)
    modifies streams
    ensures MergeState(heap', streams, rem')
    ensures MergeRuns(rem) == [row] + MergeRuns(rem')
  {
    var s := HeapMin(heap);
    SmallestPendingHead(heap, streams, rem, s);
    row := heap[s];
    heap' := RefillSource(heap, streams, s, rem);
    rem' := rem[s := rem[s][1..]];
  }

  method KWayMerge<P>(runs: seq<LogicalRun<P>>) returns (out: seq<Row<P>>)
    ensures out == MergeRuns(RowsOf(runs))
  {
    out := [];
    var heap, streams := OpenStreams(runs);
    ghost var rem := RowsOf(runs);
    while heap != map[]
      invariant fresh(streams) && MergeState(heap, streams, rem)
      invariant out + MergeRuns(rem) == MergeRuns(RowsOf(runs))
      decreases |MergeRuns(rem)|
    {
      var row;
      row, heap, rem := PopSmallest(heap, streams, rem);
      out := out + [row];
    }
    MergeRunsEmpty(rem);
  }

  /** Every part but the last has `size` rows, and the last at least one and no more. */
  ghost predicate Batched<P>(parts: seq<seq<P>>, size: nat) {
    forall k :: 0 <= k < |parts| ==> if k < |parts| - 1 then |parts[k]| == size else 0 < |parts[k]| <= size
  }

  /** Writes rows to part files, each full but the last. */
  method WriteParts<P>(rows: seq<Row<P>>) returns (parts: LogicalRun<P>)
    ensures Concat(parts) == rows && Batched(parts, SORT_RUN_ROWS)
  {
    var batch := [];
    parts := [];
    for i := 0 to |rows|
      invariant Concat(parts) + batch == rows[..i]
      invariant |batch| < SORT_RUN_ROWS && forall k :: 0 <= k < |parts| ==> |parts[k]| == SORT_RUN_ROWS
    {
      batch := batch + [rows[i]];
      if |batch| >= SORT_RUN_ROWS {
        ConcatSnoc(parts, batch);
        parts := parts + [batch];
        batch := [];
      }
    }
    if batch != [] {
      ConcatSnoc(parts, batch);
      parts := parts + [batch];
    }
  }

  /** Merges a group of runs into one run of full parts. */
  method MergeFanInGroup<P>(runs: seq<LogicalRun<P>>) returns (merged: LogicalRun<P>)
    requires runs != []
    ensures Concat(merged) == MergeRuns(RowsOf(runs))
    ensures |runs| > 1 ==> Batched(merged, SORT_RUN_ROWS)
  {
    if |runs| == 1 {
      merged := runs[0];
      assert RowsOf(runs) == [Concat(runs[0])];
      assert MergeRuns(RowsOf(runs)) == Merge2(Concat(runs[0]), MergeRuns([]));
      return;
    }
    var rows := KWayMerge(runs);
    merged := WriteParts(rows);
  }

  lemma RowsOfAppend<P>(x: seq<LogicalRun<P>>, y: seq<LogicalRun<P>>)
    ensures RowsOf(x + y) == RowsOf(x) + RowsOf(y)
  {
  }

  lemma MergeRunsSingle<P>(run: seq<Row<P>>)
    ensures MergeRuns([run]) == run
  {
    assert MergeRuns([run]) == Merge2(run, MergeRuns([run][1..]));
  }

  /** One level: every group of `MERGE_FAN_IN` neighbouring runs becomes one run. */
  method ReduceLevel<P>(current: seq<LogicalRun<P>>) returns (next: seq<LogicalRun<P>>)
    ensures |next| == (|current| + MERGE_FAN_IN - 1) / MERGE_FAN_IN
    ensures MergeRuns(RowsOf(next)) == MergeRuns(RowsOf(current))
  {
    next := [];
    var start := 0;
    while start < |current|
      invariant 0 <= start <= |current|
      invariant start == |current| || start == |next| * MERGE_FAN_IN
      invariant |next| == (start + MERGE_FAN_IN - 1) / MERGE_FAN_IN
      invariant MergeRuns(RowsOf(next)) == MergeRuns(RowsOf(current[..start]))
    {
      var stop := if start + MERGE_FAN_IN < |current| then start + MERGE_FAN_IN else |current|;
      var merged := MergeFanInGroup(current[start..stop]);
      GroupMerged(next, merged, current, start, stop);
      next := next + [merged];
      start := stop;
    }
    assert current[..start] == current;
  }

  lemma MergeRunsSnoc<P>(runs: seq<seq<Row<P>>>, run: seq<Row<P>>)
    ensures MergeRuns(runs + [run]) == Merge2(MergeRuns(runs), run)
  {
    MergeRunsAppend(runs, [run]);
    MergeRunsSingle(run);
  }

  lemma RowsOfSnoc<P>(runs: seq<LogicalRun<P>>, run: LogicalRun<P>)
    ensures RowsOf(runs + [run]) == RowsOf(runs) + [Concat(run)]
  {
  }

  lemma MergeOfParts<P>(current: seq<LogicalRun<P>>, start: nat, stop: nat)
    requires start <= stop <= |current|
    ensures MergeRuns(RowsOf(current[..stop])) ==
      Merge2(MergeRuns(RowsOf(current[..start])), MergeRuns(RowsOf(current[start..stop])))
  {
    assert current[..stop] == current[..start] + current[start..stop];
    RowsOfAppend(current[..start], current[start..stop]);
    MergeRunsAppend(RowsOf(current[..start]), RowsOf(current[start..stop]));
  }

  lemma GroupMerged<P>(next: seq<LogicalRun<P>>, merged: LogicalRun<P>, current: seq<LogicalRun<P>>, start: nat,
                       stop: nat)
    requires start <= stop <= |current|
    requires Concat(merged) == MergeRuns(RowsOf(current[start..stop]))
    requires MergeRuns(RowsOf(next)) == MergeRuns(RowsOf(current[..start]))
    ensures MergeRuns(RowsOf(next + [merged])) == MergeRuns(RowsOf(current[..stop]))
  {
    MergeOfParts(current, start, stop);
    RowsOfSnoc(next, merged);
    MergeRunsSnoc(RowsOf(next), Concat(merged));
  }

  lemma RowsOfSingleParts<P>(paths: seq<seq<Row<P>>>)
    ensures RowsOf(seq(|paths|, i requires 0 <= i < |paths| => [paths[i]])) == paths
  {
    var runs := seq(|paths|, i requires 0 <= i < |paths| => [paths[i]]);
    forall i | 0 <= i < |paths| ensures RowsOf(runs)[i] == paths[i] {
      assert runs[i] == [paths[i]];
      assert Concat([paths[i]]) == paths[i] + Concat([]);
    }
  }

  /** Level-by-level reduction to at most `MERGE_FAN_IN` runs. It terminates because the
      number of runs strictly falls at each level, and no level changes the merge. */
  method ReduceSortedRuns<P>(paths: seq<seq<Row<P>>>) returns (current: seq<LogicalRun<P>>)
    ensures |current| <= MERGE_FAN_IN
    ensures MergeRuns(RowsOf(current)) == MergeRuns(paths)
  {
    current := seq(|paths|, i requires 0 <= i < |paths| => [paths[i]]);
    RowsOfSingleParts(paths);
    while |current| > MERGE_FAN_IN
      invariant MergeRuns(RowsOf(current)) == MergeRuns(paths)
      decreases |current|
    {
      current := ReduceLevel(current);
    }
  }

  /** The bounded, tree-reduced merge returns exactly the flat merge of the runs. */
  method IterKWayMerge<P>(paths: seq<seq<Row<P>>>) returns (out: seq<Row<P>>)
    ensures out == MergeRuns(paths)
  {
    if paths == [] {
      out := [];
    } else if |paths| == 1 {
      RowsOfSingleParts(paths);
      out := KWayMerge(seq(|paths|, i requires 0 <= i < |paths| => [paths[i]]));
    } else {
      var reduced := ReduceSortedRuns(paths);
      out := KWayMerge(reduced);
    }
  }
}
