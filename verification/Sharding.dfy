/** Shard planning over half-open ranges, and trailing windows computed shard by shard. */
module Sharding {
  import opened Results

  datatype Range = Range(start: int, end: int)

  function Min(a: int, b: int): int {
    if a < b then a else b
  }

  // ---------------------------------------------------------------------------------
  // Planning
  // ---------------------------------------------------------------------------------

  function PlanRanges(start: int, end: int, size: int): seq<Range>
    requires size > 0
    decreases end - start
  {
    if start >= end then [] else [Range(start, Min(start + size, end))] + PlanRanges(start + size, end, size)
  }

  /** The ranges follow one another from `start` to `end` without gap or overlap. */
  ghost predicate Tiles(ranges: seq<Range>, start: int, end: int) {
    if ranges == [] then start >= end
    else ranges[0].start == start < ranges[0].end <= end && Tiles(ranges[1..], ranges[0].end, end)
  }

  lemma {:induction false} PlanTiles(start: int, end: int, size: int)
    requires size > 0
    ensures Tiles(PlanRanges(start, end, size), start, end)
    ensures forall i :: 0 <= i < |PlanRanges(start, end, size)| ==>
      PlanRanges(start, end, size)[i].start == start + i * size
      && PlanRanges(start, end, size)[i].end <= PlanRanges(start, end, size)[i].start + size
    decreases end - start
  {
    if start < end {
      PlanTiles(start + size, end, size);
      var ranges, rest := PlanRanges(start, end, size), PlanRanges(start + size, end, size);
      assert ranges[1..] == rest;
      if start + size >= end { assert rest == []; }
      forall i | 0 <= i < |ranges|
        ensures ranges[i].start == start + i * size && ranges[i].end <= ranges[i].start + size
      {
        if i > 0 {
          assert ranges[i] == rest[i - 1];
          assert i * size == size + (i - 1) * size;
        }
      }
    }
  }

  /** Each position of the range is in exactly one shard. */
  lemma {:induction false} TilesPartition(ranges: seq<Range>, start: int, end: int, p: int)
    requires Tiles(ranges, start, end)
    ensures start <= p < end <==> exists i :: 0 <= i < |ranges| && ranges[i].start <= p < ranges[i].end
    ensures forall i, j :: 0 <= i < j < |ranges| ==> ranges[i].end <= ranges[j].start
  {
    if ranges != [] {
      var rest := ranges[1..];
      TilesPartition(rest, ranges[0].end, end, p);
      TilesStartAfter(rest, ranges[0].end, end);
      if ranges[0].end <= p < end {
        var i :| 0 <= i < |rest| && rest[i].start <= p < rest[i].end;
        assert ranges[i + 1] == rest[i];
      }
      if i :| 0 <= i < |ranges| && ranges[i].start <= p < ranges[i].end {
        if i > 0 { assert ranges[i] == rest[i - 1]; }
      }
      forall i, j | 0 <= i < j < |ranges| ensures ranges[i].end <= ranges[j].start {
        assert ranges[j] == rest[j - 1];
        if i > 0 { assert ranges[i] == rest[i - 1]; }
      }
    }
  }

  lemma {:induction false} TilesStartAfter(ranges: seq<Range>, start: int, end: int)
    requires Tiles(ranges, start, end)
    ensures forall i :: 0 <= i < |ranges| ==> start <= ranges[i].start < ranges[i].end <= end
  {
    if ranges != [] {
      var rest := ranges[1..];
      TilesStartAfter(rest, ranges[0].end, end);
      forall i | 0 <= i < |ranges| ensures start <= ranges[i].start < ranges[i].end <= end {
        if i > 0 { assert ranges[i] == rest[i - 1]; }
      }
    }
  }

  datatype RangeKind = IndexRange | TimeRange | KeyRange

  /** A primary range, whose bounds may be absent. */
  datatype RangeSpec = RangeSpec(kind: RangeKind, start: Option<int>, end: Option<int>)

  datatype PlanError = SizeNotPositive | BoundsMissing | KeyBoundariesNeeded | PartitionKeyMissing

  /** Why a range is not planned. Partition affinity needs a partition key. */
  function PlanRefusal(range: RangeSpec, size: int, affinity: bool, partitionKey: bool): Option<PlanError> {
    if range.kind == KeyRange then Some(KeyBoundariesNeeded)
    else if size <= 0 then Some(SizeNotPositive)
    else if range.start.None? || range.end.None? then Some(BoundsMissing)
    else if affinity && !partitionKey then Some(PartitionKeyMissing)
    else None
  }

  /** Plans one range; shards are numbered in its order. An index range is listed at once, a
      time range by stepping a cursor. */
  method PlanShards(range: RangeSpec, size: int, affinity: bool, partitionKey: bool)
    returns (r: Result<seq<Range>, PlanError>)
    ensures var refusal := PlanRefusal(range, size, affinity, partitionKey);
      if refusal.Some? then r == Err(refusal.value)
      else r == Ok(PlanRanges(range.start.value, range.end.value, size))
    ensures r.Ok? <==>
      range.kind != KeyRange && size > 0 && range.start.Some? && range.end.Some? && (affinity ==> partitionKey)
    ensures r.Ok? ==> Tiles(r.value, range.start.value, range.end.value)
  {
    if range.kind == KeyRange { return Err(KeyBoundariesNeeded); }
    if size <= 0 { return Err(SizeNotPositive); }
    if range.start.None? || range.end.None? { return Err(BoundsMissing); }
    var start, end := range.start.value, range.end.value;
    var ranges;
    if range.kind == IndexRange {
      ranges := PlanRanges(start, end, size);
    } else {
      ranges := StepCursor(start, end, size);
    }
    if affinity && !partitionKey { return Err(PartitionKeyMissing); }
    PlanTiles(start, end, size);
    r := Ok(ranges);
  }

  lemma NextRange(cursor: int, end: int, size: int)
    requires size > 0 && cursor < end
    ensures var next := Min(cursor + size, end);
      PlanRanges(cursor, end, size) == [Range(cursor, next)] + PlanRanges(next, end, size)
  {
    var next := Min(cursor + size, end);
    assert next < cursor + size ==> PlanRanges(next, end, size) == [] && PlanRanges(cursor + size, end, size) == [];
  }

  lemma AppendAssociative<T>(a: seq<T>, b: seq<T>, c: seq<T>)
    ensures a + (b + c) == (a + b) + c
  {
  }

  method StepCursor(start: int, end: int, size: int) returns (ranges: seq<Range>)
    requires size > 0
    ensures ranges == PlanRanges(start, end, size)
  {
    ranges := [];
    var cursor := start;
    while cursor < end
      invariant cursor <= end || cursor == start
      invariant ranges + PlanRanges(cursor, end, size) == PlanRanges(start, end, size)
      decreases end - cursor
    {
      var next := Min(cursor + size, end);
      NextRange(cursor, end, size);
      AppendAssociative(ranges, [Range(cursor, next)], PlanRanges(next, end, size));
      ranges := ranges + [Range(cursor, next)];
      cursor := next;
    }
  }

  // ---------------------------------------------------------------------------------
  // Trailing windows
  // ---------------------------------------------------------------------------------

  function Expanded(primary: Range, before: nat, after: nat): Range {
    Range(if primary.start - before > 0 then primary.start - before else 0, primary.end + after)
  }

  function RollingHalo(window: int): (halo: Result<nat, PlanError>)
  {
    if window < 1 then Err(SizeNotPositive) else Ok(window - 1)
  }

  /** The last `window` rows ending with row `i`, fewer at the start of the data. */
  function Window<T>(data: seq<T>, window: nat, i: nat): seq<T>
    requires i < |data| && window > 0
  {
    data[(if i + 1 > window then i + 1 - window else 0)..i + 1]
  }

  /** Any function of the trailing window, row by row. */
  function Rolling<T, R>(data: seq<T>, window: nat, f: seq<T> -> R): seq<R>
    requires window > 0
  {
    seq(|data|, i requires 0 <= i < |data| => f(Window(data, window, i)))
  }

  /** The rows a worker reads for a shard. */
  function Read<T>(data: seq<T>, primary: Range, before: nat, after: nat): seq<T>
    requires 0 <= primary.start <= primary.end <= |data|
  {
    var e := Expanded(primary, before, after);
    data[e.start..Min(e.end, |data|)]
  }

  /** A worker's result, trimmed to its primary range. */
  function ShardRolling<T, R>(data: seq<T>, primary: Range, before: nat, after: nat, window: nat,
                              f: seq<T> -> R): seq<R>
    requires 0 <= primary.start <= primary.end <= |data| && window > 0
  {
    var offset := primary.start - Expanded(primary, before, after).start;
    Rolling(Read(data, primary, before, after), window, f)[offset..offset + (primary.end - primary.start)]
  }

  lemma SliceOfSlice<T>(data: seq<T>, a: nat, b: nat, c: nat, d: nat)
    requires a <= b <= |data| && c <= d <= b - a
    ensures data[a..b][c..d] == data[a + c..a + d]
  {
    var inner := data[a..b];
    assert forall k :: 0 <= k < d - c ==> inner[c..d][k] == inner[c + k] == data[a + c + k];
  }

  /** With at least the rolling halo before it, a shard sees every window whole. */
  lemma ShardSeesWindows<T, R>(data: seq<T>, primary: Range, before: nat, after: nat, window: nat, f: seq<T> -> R)
    requires 0 <= primary.start <= primary.end <= |data| && window > 0 && before + 1 >= window
    ensures ShardRolling(data, primary, before, after, window, f) ==
      Rolling(data, window, f)[primary.start..primary.end]
  {
    var e, read := Expanded(primary, before, after), Read(data, primary, before, after);
    var offset := primary.start - e.start;
    var mine := ShardRolling(data, primary, before, after, window, f);
    var whole := Rolling(data, window, f)[primary.start..primary.end];
    forall k | 0 <= k < primary.end - primary.start ensures mine[k] == whole[k] {
      var i := primary.start + k;
      var lo := if offset + k + 1 > window then offset + k + 1 - window else 0;
      assert e.start + lo == if i + 1 > window then i + 1 - window else 0;
      SliceOfSlice(data, e.start, Min(e.end, |data|), lo, offset + k + 1);
      assert Window(read, window, offset + k) == Window(data, window, i);
    }
    assert |mine| == |whole|;
    assert mine == whole;
  }

  function Sharded<T, R>(data: seq<T>, ranges: seq<Range>, before: nat, after: nat, window: nat, f: seq<T> -> R): seq<R>
    requires window > 0 && forall i :: 0 <= i < |ranges| ==> 0 <= ranges[i].start <= ranges[i].end <= |data|
  {
    if ranges == [] then []
    else ShardRolling(data, ranges[0], before, after, window, f) + Sharded(data, ranges[1..], before, after, window, f)
  }

  lemma {:induction false} TiledIsWhole<T, R>(data: seq<T>, ranges: seq<Range>, start: nat, before: nat, after: nat,
                                              window: nat, f: seq<T> -> R)
    requires window > 0 && before + 1 >= window && start <= |data|
    requires Tiles(ranges, start, |data|)
    requires forall i :: 0 <= i < |ranges| ==> 0 <= ranges[i].start <= ranges[i].end <= |data|
    ensures Sharded(data, ranges, before, after, window, f) == Rolling(data, window, f)[start..]
  {
    var whole := Rolling(data, window, f);
    if ranges == [] {
      assert whole[start..] == [];
    } else {
      ShardSeesWindows(data, ranges[0], before, after, window, f);
      TiledIsWhole(data, ranges[1..], ranges[0].end, before, after, window, f);
      assert whole[start..] == whole[start..ranges[0].end] + whole[ranges[0].end..];
    }
  }

  /** Computing each planned shard over its expanded range, trimming and concatenating gives
      the unsharded result, for every shard size and every function of the window. */
  lemma ShardedEqualsMonolithic<T, R>(data: seq<T>, size: int, window: nat, after: nat, f: seq<T> -> R)
    requires size > 0 && window > 0
    ensures var ranges := PlanRanges(0, |data|, size);
      (forall i :: 0 <= i < |ranges| ==> 0 <= ranges[i].start <= ranges[i].end <= |data|)
      && Sharded(data, ranges, RollingHalo(window).value, after, window, f) == Rolling(data, window, f)
  {
    PlanTiles(0, |data|, size);
    TilesStartAfter(PlanRanges(0, |data|, size), 0, |data|);
    TiledIsWhole(data, PlanRanges(0, |data|, size), 0, RollingHalo(window).value, after, window, f);
  }

  /** The halo is needed: with less, a shard that starts deep enough in the data computes its
      first row over a shorter window. */
  lemma LessHaloIsNotEnough<T>(data: seq<T>, primary: Range, before: nat, after: nat, window: nat)
    requires before + 1 < window <= primary.start + 1 && 0 <= primary.start < primary.end <= |data|
    ensures var length: seq<T> -> int := s => |s|;
      ShardRolling(data, primary, before, after, window, length)[0] == before + 1
      && Rolling(data, window, length)[primary.start] == window
  {
    var read := Read(data, primary, before, after);
    assert |Window(read, window, before)| == before + 1;
    assert |Window(data, window, primary.start)| == window;
  }

  /** Shards over a range of the data give the unsharded result. */
  ghost predicate Agrees(data: seq<int>, size: int, before: nat, after: nat, window: nat, f: seq<int> -> int)
    requires size > 0 && window > 0
  {
    var ranges := PlanRanges(0, |data|, size);
    && (forall i :: 0 <= i < |ranges| ==> 0 <= ranges[i].start <= ranges[i].end <= |data|)
    && Sharded(data, ranges, before, after, window, f) == Rolling(data, window, f)
  }

  ghost predicate HaloSuffices(before: nat, window: nat)
    requires window > 0
  {
    forall data, size: int, after: nat, f :: size > 0 ==> Agrees(data, size, before, after, window, f)
  }

  lemma SufficientHalo(data: seq<int>, size: int, before: nat, after: nat, window: nat, f: seq<int> -> int)
    requires size > 0 && window > 0 && before + 1 >= window
    ensures Agrees(data, size, before, after, window, f)
  {
    PlanTiles(0, |data|, size);
    TilesStartAfter(PlanRanges(0, |data|, size), 0, |data|);
    TiledIsWhole(data, PlanRanges(0, |data|, size), 0, before, after, window, f);
  }

  /** The second of two shards that meet in the last row computes it over too short a window. */
  lemma ShortHaloShows(before: nat, window: nat) returns (data: seq<int>, f: seq<int> -> int)
    requires before + 1 < window
    ensures !Agrees(data, window - 1, before, 0, window, f)
  {
    data, f := seq(window, i => 0), s => |s|;
    var ranges := PlanRanges(0, window, window - 1);
    var first, last := Range(0, window - 1), Range(window - 1, window);
    assert PlanRanges(2 * (window - 1), window, window - 1) == [];
    assert PlanRanges(window - 1, window, window - 1) == [last] && ranges == [first, last];
    assert ranges[1..] == [last] && [last][1..] == [];
    LessHaloIsNotEnough(data, last, before, 0, window);
    var head, tail := ShardRolling(data, first, before, 0, window, f), ShardRolling(data, last, before, 0, window, f);
    assert Sharded(data, [], before, 0, window, f) == [];
    assert Sharded(data, [last], before, 0, window, f) == tail + [];
    assert Sharded(data, ranges, before, 0, window, f) == head + (tail + []);
    assert (head + (tail + []))[window - 1] == tail[0];
    assert tail[0] == before + 1 && Rolling(data, window, f)[window - 1] == window;
  }

  /** The rolling halo exists for positive windows, and is the least lookback with which
      shards of every size agree with the unsharded result for every function of the window. */
  lemma RollingHaloIsLeast(window: int, before: nat)
    ensures RollingHalo(window).Ok? <==> window >= 1
    ensures window >= 1 ==> (before >= RollingHalo(window).value <==> HaloSuffices(before, window))
  {
    if window >= 1 {
      if before >= RollingHalo(window).value {
        forall data, size: int, after: nat, f | size > 0 ensures Agrees(data, size, before, after, window, f) {
          SufficientHalo(data, size, before, after, window, f);
        }
      } else {
        var data, f := ShortHaloShows(before, window);
      }
    }
  }
}
