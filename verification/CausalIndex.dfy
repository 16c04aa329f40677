/** The causal index: one completed-block frontier for each stretch between missing days. */
module CausalIndex {
  import opened Results
  import opened Sequences
  import opened CausalFrontier

  const DAY_MS := 86_400_000

  datatype GridError = HardGap | OverlapTooShort | TooManyRows

  /** The UTC day of a millisecond time, as a day number. */
  function Day(ms: int): int {
    ms / DAY_MS
  }

  /** How many of the missing days are before a day. */
  function CountBefore(missing: seq<int>, day: int): nat {
    if missing == [] then 0
    else CountBefore(missing[..|missing| - 1], day) + if missing[|missing| - 1] < day then 1 else 0
  }

  /** The segment of a time: how many missing days have passed. */
  function Segment(ms: int, missing: seq<int>): nat {
    CountBefore(missing, Day(ms))
  }

  /** The day has passed: it is wholly before the time. */
  predicate Passed(day: int, ms: int) {
    86_400_000 * (day + 1) <= ms
  }

  predicate During(day: int, ms: int) {
    86_400_000 * day <= ms < 86_400_000 * (day + 1)
  }

  function PassedDays(ms: int, missing: seq<int>): set<int> {
    set d | d in missing && Passed(d, ms)
  }

  lemma DayStands(ms: int, d: int)
    ensures Passed(d, ms) <==> d < Day(ms)
    ensures During(d, ms) <==> d == Day(ms)
  {
  }

  /** A time is refused exactly during a missing day. */
  lemma MissingDay(ms: int, missing: seq<int>)
    ensures Day(ms) in missing <==> exists d :: d in missing && During(d, ms)
  {
    forall d ensures During(d, ms) <==> d == Day(ms) { DayStands(ms, d); }
  }

  /** A segment is numbered by the missing days that have passed. */
  lemma {:induction false} SegmentCounts(ms: int, missing: seq<int>)
    requires Ascending(missing)
    ensures Segment(ms, missing) == |PassedDays(ms, missing)|
  {
    if missing != [] {
      var front, last := missing[..|missing| - 1], missing[|missing| - 1];
      SegmentCounts(ms, front);
      DayStands(ms, last);
      assert missing == front + [last];
      var before, all := PassedDays(ms, front), PassedDays(ms, missing);
      forall d ensures d in all <==> d in before || (d == last && Passed(last, ms)) {
        assert d in missing <==> d in front || d == last;
      }
      assert all == if Passed(last, ms) then before + {last} else before;
      assert last !in front;
    }
  }

  lemma {:induction false} CountBeforeGrows(missing: seq<int>, a: int, b: int)
    requires a <= b
    ensures CountBefore(missing, a) <= CountBefore(missing, b)
    ensures CountBefore(missing, a) == CountBefore(missing, b) <==>
      forall i :: 0 <= i < |missing| ==> !(a <= missing[i] < b)
  {
    if missing != [] {
      var front := missing[..|missing| - 1];
      CountBeforeGrows(front, a, b);
      assert forall i :: 0 <= i < |front| ==> front[i] == missing[i];
    }
  }

  /** Two times off the missing days are in one segment exactly when no missing day lies
      between them. */
  lemma SegmentsSplitAtMissingDays(missing: seq<int>, t: int, u: int)
    requires t <= u && Day(t) !in missing && Day(u) !in missing
    ensures Segment(t, missing) == Segment(u, missing) <==> forall d :: d in missing ==> !(Day(t) < d < Day(u))
  {
    assert Day(t) <= Day(u);
    CountBeforeGrows(missing, Day(t), Day(u));
    if forall d :: d in missing ==> !(Day(t) < d < Day(u)) {
      forall i | 0 <= i < |missing| ensures !(Day(t) <= missing[i] < Day(u)) {
        assert missing[i] in missing;
      }
    }
  }

  lemma {:induction false} CountBeforeAt(missing: seq<int>, day: int, i: nat)
    requires Ascending(missing) && i <= |missing|
    requires forall k :: 0 <= k < i ==> missing[k] < day
    requires i < |missing| ==> day <= missing[i]
    ensures CountBefore(missing, day) == i
  {
    if i < |missing| {
      assert missing[i] <= missing[|missing| - 1];
      CountBeforeAt(missing[..|missing| - 1], day, i);
    } else if i > 0 {
      CountBeforeAt(missing[..|missing| - 1], day, i - 1);
    }
  }

  /** Walks the sorted missing days up to the first one not passed. */
  method SegmentId(ms: int, missing: seq<int>) returns (r: Result<nat, GridError>)
    requires Ascending(missing)
    ensures r == if Day(ms) in missing then Err(HardGap) else Ok(Segment(ms, missing))
  {
    var day := Day(ms);
    if day in missing {
      return Err(HardGap);
    }
    var segment := 0;
    for i := 0 to |missing|
      invariant segment == i
      invariant forall k :: 0 <= k < i ==> missing[k] < day
    {
      if day > missing[i] {
        segment := segment + 1;
      } else {
        break;
      }
    }
    CountBeforeAt(missing, day, segment);
    r := Ok(segment);
  }

  // ---------------------------------------------------------------------------------
  // What an index stands for
  // ---------------------------------------------------------------------------------

  /** The observations of one segment, in order. */
  function InSegment(missing: seq<int>, obs: seq<Observation>, segment: int): seq<Observation> {
    if obs == [] then []
    else
      var front, last := obs[..|obs| - 1], obs[|obs| - 1];
      InSegment(missing, front, segment) + if Segment(last.time, missing) == segment then [last] else []
  }

  /** `index` holds exactly the frontiers of the segments that were observed. */
  ghost predicate Indexes(missing: seq<int>, index: map<int, Frontier>, obs: seq<Observation>) {
    forall segment ::
      && (segment in index <==> InSegment(missing, obs, segment) != [])
      && (segment in index ==> index[segment] == FrontierOf(InSegment(missing, obs, segment)))
  }

  function ObservedIn(missing: seq<int>, index: map<int, Frontier>, o: Observation): map<int, Frontier> {
    var segment := Segment(o.time, missing);
    index[segment := Observed(if segment in index then index[segment] else EMPTY_FRONTIER, o)]
  }

  lemma ObservedIndexes(missing: seq<int>, index: map<int, Frontier>, obs: seq<Observation>, o: Observation)
    requires Indexes(missing, index, obs)
    ensures Indexes(missing, ObservedIn(missing, index, o), obs + [o])
  {
    var all, next := obs + [o], ObservedIn(missing, index, o);
    assert all[..|all| - 1] == obs;
    forall segment
      ensures segment in next <==> InSegment(missing, all, segment) != []
      ensures segment in next ==> next[segment] == FrontierOf(InSegment(missing, all, segment))
    {
      var before := InSegment(missing, obs, segment);
      assert segment in index <==> before != [];
      if segment == Segment(o.time, missing) {
        assert InSegment(missing, all, segment) == before + [o];
        assert (before + [o])[..|before|] == before;
      } else {
        assert InSegment(missing, all, segment) == before;
      }
    }
  }

  function CutoffAt(missing: seq<int>, index: map<int, Frontier>, ms: int): Option<int> {
    var segment := Segment(ms, missing);
    if segment in index then Cutoff(index[segment]) else None
  }

  /** The cutoff a whole stream gives at a time. */
  function CutoffOf(missing: seq<int>, obs: seq<Observation>, ms: int): Option<int> {
    Cutoff(FrontierOf(InSegment(missing, obs, Segment(ms, missing))))
  }

  lemma IndexCutoff(missing: seq<int>, index: map<int, Frontier>, obs: seq<Observation>, ms: int)
    requires Indexes(missing, index, obs)
    ensures CutoffAt(missing, index, ms) == CutoffOf(missing, obs, ms)
  {
    var segment := Segment(ms, missing);
    assert segment in index <==> InSegment(missing, obs, segment) != [];
  }

  // ---------------------------------------------------------------------------------
  // What a cutoff means in terms of the whole stream
  // ---------------------------------------------------------------------------------

  predicate InSame(missing: seq<int>, o: Observation, ms: int) {
    Segment(o.time, missing) == Segment(ms, missing)
  }

  /** An observation of block `block` in the segment of `ms`. */
  ghost predicate HasBlockAt(missing: seq<int>, obs: seq<Observation>, ms: int, block: int) {
    exists i :: 0 <= i < |obs| && InSame(missing, obs[i], ms) && obs[i].block == block
  }

  /** Neither times nor blocks ever go down within the segment of `ms`. */
  ghost predicate MonotoneAt(missing: seq<int>, obs: seq<Observation>, ms: int) {
    forall i, j :: 0 <= i < j < |obs| && InSame(missing, obs[i], ms) && InSame(missing, obs[j], ms) ==>
        obs[i].time <= obs[j].time && obs[i].block <= obs[j].block
  }

  ghost predicate NoOtherAboveAt(missing: seq<int>, obs: seq<Observation>, ms: int, b: int, c: int) {
    forall i :: 0 <= i < |obs| && InSame(missing, obs[i], ms) ==> obs[i].block == b || obs[i].block <= c
  }

  /** `c` is observed in the segment of `ms`, and exactly one observed block of it is above. */
  ghost predicate LargestCompletedAt(missing: seq<int>, obs: seq<Observation>, ms: int, c: int) {
    HasBlockAt(missing, obs, ms, c) &&
    exists b :: b > c && HasBlockAt(missing, obs, ms, b) && NoOtherAboveAt(missing, obs, ms, b, c)
  }

  lemma {:induction false} InSegmentMembers(missing: seq<int>, obs: seq<Observation>, ms: int)
    ensures forall o :: o in InSegment(missing, obs, Segment(ms, missing)) <==> o in obs && InSame(missing, o, ms)
  {
    if obs != [] {
      var front, last := obs[..|obs| - 1], obs[|obs| - 1];
      InSegmentMembers(missing, front, ms);
      assert forall o :: o in obs <==> o in front || o == last;
    }
  }

  /** Nothing observed is above `last`. */
  ghost predicate NoneAfter(obs: seq<Observation>, last: Observation) {
    forall i :: 0 <= i < |obs| ==> obs[i].time <= last.time && obs[i].block <= last.block
  }

  ghost predicate NoneAfterAt(missing: seq<int>, obs: seq<Observation>, ms: int, last: Observation) {
    forall i :: 0 <= i < |obs| && InSame(missing, obs[i], ms) ==> obs[i].time <= last.time && obs[i].block <= last.block
  }

  lemma MonotoneWithLast(obs: seq<Observation>, last: Observation)
    ensures Monotone(obs + [last]) <==> Monotone(obs) && NoneAfter(obs, last)
  {
    var all := obs + [last];
    assert forall i :: 0 <= i < |obs| ==> all[i] == obs[i];
    assert all[|obs|] == last;
  }

  lemma MonotoneAtWithLast(missing: seq<int>, obs: seq<Observation>, ms: int, last: Observation)
    ensures MonotoneAt(missing, obs + [last], ms) <==>
      MonotoneAt(missing, obs, ms) && (InSame(missing, last, ms) ==> NoneAfterAt(missing, obs, ms, last))
  {
    var all := obs + [last];
    assert forall i :: 0 <= i < |obs| ==> all[i] == obs[i];
    assert all[|obs|] == last;
  }

  lemma NoneAfterInSegment(missing: seq<int>, obs: seq<Observation>, ms: int, last: Observation)
    ensures NoneAfter(InSegment(missing, obs, Segment(ms, missing)), last) <==> NoneAfterAt(missing, obs, ms, last)
  {
    var own := InSegment(missing, obs, Segment(ms, missing));
    InSegmentMembers(missing, obs, ms);
    assert forall i :: 0 <= i < |own| ==> own[i] in own;
    assert forall i :: 0 <= i < |obs| ==> obs[i] in obs;
  }

  lemma {:induction false} MonotoneInSegment(missing: seq<int>, obs: seq<Observation>, ms: int)
    ensures Monotone(InSegment(missing, obs, Segment(ms, missing))) <==> MonotoneAt(missing, obs, ms)
  {
    if obs != [] {
      var front, last := obs[..|obs| - 1], obs[|obs| - 1];
      var own := InSegment(missing, front, Segment(ms, missing));
      MonotoneInSegment(missing, front, ms);
      NoneAfterInSegment(missing, front, ms, last);
      MonotoneWithLast(own, last);
      MonotoneAtWithLast(missing, front, ms, last);
      assert front + [last] == obs;
      assert own + [] == own;
    }
  }

  lemma HasBlockInSegment(missing: seq<int>, obs: seq<Observation>, ms: int, block: int)
    ensures HasBlock(InSegment(missing, obs, Segment(ms, missing)), block) <==> HasBlockAt(missing, obs, ms, block)
  {
    var own := InSegment(missing, obs, Segment(ms, missing));
    InSegmentMembers(missing, obs, ms);
    if HasBlock(own, block) {
      var i :| 0 <= i < |own| && own[i].block == block;
      assert own[i] in own;
      var j :| 0 <= j < |obs| && obs[j] == own[i];
      assert InSame(missing, obs[j], ms);
    }
    if HasBlockAt(missing, obs, ms, block) {
      var j :| 0 <= j < |obs| && InSame(missing, obs[j], ms) && obs[j].block == block;
      assert obs[j] in own;
      var i :| 0 <= i < |own| && own[i] == obs[j];
    }
  }

  lemma NoOtherAboveInSegment(missing: seq<int>, obs: seq<Observation>, ms: int, b: int, c: int)
    ensures NoOtherAbove(InSegment(missing, obs, Segment(ms, missing)), b, c) <==>
      NoOtherAboveAt(missing, obs, ms, b, c)
  {
    var own := InSegment(missing, obs, Segment(ms, missing));
    InSegmentMembers(missing, obs, ms);
    assert forall i :: 0 <= i < |own| ==> own[i] in own;
    assert forall i :: 0 <= i < |obs| ==> obs[i] in obs;
  }

  /** The cutoff at a time is the largest completed block of its segment, and there is one
      exactly while that segment is monotone and has such a block. */
  lemma CutoffAtDecides(missing: seq<int>, obs: seq<Observation>, ms: int, c: int)
    ensures CutoffOf(missing, obs, ms) == Some(c) <==>
      MonotoneAt(missing, obs, ms) && LargestCompletedAt(missing, obs, ms, c)
  {
    var own := InSegment(missing, obs, Segment(ms, missing));
    CutoffDecides(own, c);
    MonotoneInSegment(missing, obs, ms);
    HasBlockInSegment(missing, obs, ms, c);
    forall b
      ensures HasBlock(own, b) <==> HasBlockAt(missing, obs, ms, b)
      ensures NoOtherAbove(own, b, c) <==> NoOtherAboveAt(missing, obs, ms, b, c)
    {
      HasBlockInSegment(missing, obs, ms, b);
      NoOtherAboveInSegment(missing, obs, ms, b, c);
    }
  }

  /** The cutoff, if any, is the largest completed block of the segment of a time. */
  ghost predicate CutoffIs(missing: seq<int>, obs: seq<Observation>, ms: int, cutoff: Option<int>) {
    forall c :: cutoff == Some(c) <==> MonotoneAt(missing, obs, ms) && LargestCompletedAt(missing, obs, ms, c)
  }

  lemma CutoffDecided(missing: seq<int>, obs: seq<Observation>, ms: int)
    ensures CutoffIs(missing, obs, ms, CutoffOf(missing, obs, ms))
  {
    forall c
      ensures CutoffOf(missing, obs, ms) == Some(c) <==>
        MonotoneAt(missing, obs, ms) && LargestCompletedAt(missing, obs, ms, c)
    {
      CutoffAtDecides(missing, obs, ms, c);
    }
  }

  // ---------------------------------------------------------------------------------
  // Export and import
  // ---------------------------------------------------------------------------------

  ghost predicate Lists(rows: seq<CompactRow>, segment: int) {
    exists i :: 0 <= i < |rows| && rows[i].segmentId == segment
  }

  /** One compact row for each segment, by ascending segment. */
  ghost predicate IsExport(index: map<int, Frontier>, rows: seq<CompactRow>) {
    && (forall i, j :: 0 <= i < j < |rows| ==> rows[i].segmentId < rows[j].segmentId)
    && (forall i :: 0 <= i < |rows| ==>
        rows[i].segmentId in index && rows[i] == Compact(rows[i].segmentId, index[rows[i].segmentId]))
    && forall segment :: segment in index ==> Lists(rows, segment)
  }

  function Imported(rows: seq<CompactRow>): map<int, Frontier> {
    if rows == [] then map[]
    else
      var last := rows[|rows| - 1];
      Imported(rows[..|rows| - 1])[last.segmentId := Expanded(last)]
  }

  lemma {:induction false} ImportedHas(rows: seq<CompactRow>)
    requires forall i, j :: 0 <= i < j < |rows| ==> rows[i].segmentId < rows[j].segmentId
    ensures forall segment :: segment in Imported(rows) <==> Lists(rows, segment)
    ensures forall i :: 0 <= i < |rows| ==>
      rows[i].segmentId in Imported(rows) && Imported(rows)[rows[i].segmentId] == Expanded(rows[i])
  {
    if rows != [] {
      var front, n := rows[..|rows| - 1], |rows| - 1;
      ImportedHas(front);
      assert forall i :: 0 <= i < n ==> front[i] == rows[i];
      forall segment
        ensures Lists(rows, segment) <==> Lists(front, segment) || rows[n].segmentId == segment
      {
        if Lists(front, segment) {
          var i :| 0 <= i < n && front[i].segmentId == segment;
          assert rows[i].segmentId == segment;
        }
      }
    }
  }

  ghost predicate AllAvoidSentinel(index: map<int, Frontier>) {
    forall segment :: segment in index ==> AvoidsSentinel(index[segment])
  }

  lemma ExportedSegment(index: map<int, Frontier>, rows: seq<CompactRow>, segment: int)
    requires IsExport(index, rows)
    ensures segment in index <==> segment in Imported(rows)
    ensures segment in index ==> (Imported(rows)[segment] == index[segment] <==> AvoidsSentinel(index[segment]))
  {
    ImportedHas(rows);
    if segment in index {
      var i :| 0 <= i < |rows| && rows[i].segmentId == segment;
      CompactRoundTrip(segment, index[segment], rows[i]);
    }
  }

  /** The index survives the carry exactly when no frontier holds the absent-value number. */
  lemma ExportRoundTrip(index: map<int, Frontier>, rows: seq<CompactRow>)
    requires IsExport(index, rows)
    ensures Imported(rows) == index <==> AllAvoidSentinel(index)
  {
    var back := Imported(rows);
    forall segment
      ensures segment in index <==> segment in back
      ensures segment in index ==> (back[segment] == index[segment] <==> AvoidsSentinel(index[segment]))
    {
      ExportedSegment(index, rows, segment);
    }
    assert back.Keys == index.Keys;
    if AllAvoidSentinel(index) {
      forall segment | segment in index ensures back[segment] == index[segment] {
        assert AvoidsSentinel(index[segment]);
      }
      assert back == index;
    }
    if back == index {
      forall segment | segment in index ensures AvoidsSentinel(index[segment]) {
        assert segment in back;
      }
    }
  }

  lemma {:induction false} InSegmentFrom(missing: seq<int>, obs: seq<Observation>, segment: int)
    ensures forall o :: o in InSegment(missing, obs, segment) ==> o in obs
  {
    if obs != [] {
      InSegmentFrom(missing, obs[..|obs| - 1], segment);
    }
  }

  lemma IndexAvoidsSentinel(missing: seq<int>, index: map<int, Frontier>, obs: seq<Observation>)
    requires Indexes(missing, index, obs) && ObservationsAvoidSentinel(obs)
    ensures AllAvoidSentinel(index)
  {
    forall segment | segment in index ensures AvoidsSentinel(index[segment]) {
      InSegmentFrom(missing, obs, segment);
      var own := InSegment(missing, obs, segment);
      forall i | 0 <= i < |own| ensures own[i].time != CARRY_ABSENT_INT && own[i].block != CARRY_ABSENT_INT {
        assert own[i] in obs;
      }
      FrontierAvoidsSentinel(own);
    }
  }

  predicate IsLeast(s: set<int>, m: int) {
    m in s && forall x :: x in s ==> m <= x
  }

  lemma {:induction false} LeastExists(s: set<int>, some: int)
    requires some in s
    ensures exists m :: m in s && IsLeast(s, m)
    decreases |s|
  {
    if x :| x in s && x < some {
      assert x in s - {some};
      LeastExists(s - {some}, x);
      var m :| m in s - {some} && IsLeast(s - {some}, m);
      assert forall y :: y in s ==> y == some || y in s - {some};
      assert m <= x;
      assert m in s && IsLeast(s, m);
    } else {
      assert some in s && IsLeast(s, some);
    }
  }

  method SortedKeys(keys: set<int>) returns (sorted: seq<int>)
    ensures Ascending(sorted) && forall k :: k in keys <==> k in sorted
  {
    sorted := [];
    var rest := keys;
    while rest != {}
      invariant Ascending(sorted) && rest <= keys
      invariant forall k :: k in keys <==> k in sorted || k in rest
      invariant forall i, k :: 0 <= i < |sorted| && k in rest ==> sorted[i] < k
      decreases rest
    {
      assert (forall k: int :: k !in rest) ==> rest == {};
      ghost var some :| some in rest;
      LeastExists(rest, some);
      var k :| k in rest && IsLeast(rest, k);
      sorted, rest := sorted + [k], rest - {k};
    }
  }

  // ---------------------------------------------------------------------------------
  // The mutable index
  // ---------------------------------------------------------------------------------

  class Index {
    const missing: seq<int>
    var segments: map<int, SegmentFrontier>

    ghost predicate Valid()
      reads this, segments.Values
    {
      Ascending(missing) && forall s :: s in segments ==> segments[s].segmentId == s
    }

    ghost function View(): map<int, Frontier>
      reads this, segments.Values
    {
      map s | s in segments :: segments[s].View()
    }

    constructor (missingDays: seq<int>)
      requires Ascending(missingDays)
      ensures Valid() && missing == missingDays && View() == map[] && segments == map[]
    {
      missing, segments := missingDays, map[];
    }

    /** The frontier of a segment, created on first use. */
    method StateForSegment(segment: int) returns (state: SegmentFrontier)
      requires Valid()
      modifies this
      ensures Valid() && segment in segments && state == segments[segment]
      ensures fresh(segments.Values - old(segments.Values))
      ensures View() == if segment in old(View()) then old(View()) else old(View())[segment := EMPTY_FRONTIER]
    {
      if segment !in segments {
        var created := new SegmentFrontier(segment);
        segments := segments[segment := created];
      }
      state := segments[segment];
    }

    method ObserveInSegment(segment: int, o: Observation)
      requires Valid()
      modifies this, segments.Values
      ensures Valid() && fresh(segments.Values - old(segments.Values))
      ensures View() ==
        old(View())[segment := Observed(if segment in old(View()) then old(View())[segment] else EMPTY_FRONTIER, o)]
    {
      var state := StateForSegment(segment);
      ghost var before := View();
      state.Observe(o);
      assert forall s :: s in segments && s != segment ==> segments[s].View() == before[s];
    }

    /** Records one observation in the segment of its time. */
    method Observe(o: Observation) returns (ok: Result<bool, GridError>)
      requires Valid()
      modifies this, segments.Values
      ensures Valid() && fresh(segments.Values - old(segments.Values))
      ensures ok == if Day(o.time) in missing then Err(HardGap) else Ok(true)
      ensures View() == if ok.Ok? then ObservedIn(missing, old(View()), o) else old(View())
    {
      var segment := SegmentId(o.time, missing);
      if segment.Err? { return Err(segment.error); }
      ObserveInSegment(segment.value, o);
      ok := Ok(true);
    }

    method CutoffFor(ms: int) returns (r: Result<Option<int>, GridError>)
      requires Valid()
      ensures r == if Day(ms) in missing then Err(HardGap) else Ok(CutoffAt(missing, View(), ms))
      ensures r.Ok? ==> forall obs :: Indexes(missing, View(), obs) ==> CutoffIs(missing, obs, ms, r.value)
    {
      forall obs | Indexes(missing, View(), obs) ensures CutoffIs(missing, obs, ms, CutoffAt(missing, View(), ms)) {
        IndexCutoff(missing, View(), obs, ms);
        CutoffDecided(missing, obs, ms);
      }
      var segment := SegmentId(ms, missing);
      if segment.Err? { return Err(segment.error); }
      if segment.value !in segments { return Ok(None); }
      var cutoff := segments[segment.value].CausalCutoffBlock();
      r := Ok(cutoff);
    }

    method ExportCarry() returns (rows: seq<CompactRow>)
      requires Valid()
      ensures IsExport(View(), rows)
    {
      var ids := SortedKeys(segments.Keys);
      rows := [];
      for i := 0 to |ids|
        invariant |rows| == i
        invariant forall k :: 0 <= k < i ==> ids[k] in segments && rows[k] == Compact(ids[k], segments[ids[k]].View())
      {
        assert ids[i] in ids;
        var row := segments[ids[i]].ExportCompact();
        rows := rows + [row];
      }
      forall segment | segment in View() ensures Lists(rows, segment) {
        assert segment in ids;
        var i :| 0 <= i < |ids| && ids[i] == segment;
        assert rows[i].segmentId == segment;
      }
    }

    /** Rebuilds the index from carried rows. */
    method ImportRow(row: CompactRow)
      requires Valid()
      modifies this
      ensures Valid() && fresh(segments.Values - old(segments.Values))
      ensures View() == old(View())[row.segmentId := Expanded(row)]
    {
      var state := new SegmentFrontier.FromCompact(row);
      segments := segments[state.segmentId := state];
    }
  }

  method FromCarry(missing: seq<int>, rows: seq<CompactRow>) returns (index: Index)
    requires Ascending(missing)
    ensures fresh(index) && fresh(index.segments.Values)
    ensures index.Valid() && index.missing == missing && index.View() == Imported(rows)
  {
    index := new Index(missing);
    for i := 0 to |rows|
      invariant fresh(index) && fresh(index.segments.Values)
      invariant index.Valid() && index.missing == missing && index.View() == Imported(rows[..i])
    {
      assert rows[..i + 1][..i] == rows[..i];
      index.ImportRow(rows[i]);
    }
    assert rows[..|rows|] == rows;
  }
}
