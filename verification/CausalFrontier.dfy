/** The constant-size completed-block frontier of one causal segment. */
module CausalFrontier {
  import opened Results

  datatype Observation = Observation(time: int, block: int)

  /** The fields of a segment frontier, as a value. */
  datatype Frontier = Frontier(
    monotoneOk: bool, lastTime: Option<int>, lastBlock: Option<int>,
    primary: Option<int>, secondary: Option<int>)

  const EMPTY_FRONTIER := Frontier(true, None, None, None, None)

  function RegisteredPrimary(f: Frontier, block: int): Option<int> {
    if f.primary.None? || block > f.primary.value then Some(block) else f.primary
  }

  function RegisteredSecondary(f: Frontier, block: int): Option<int> {
    if f.primary.None? then f.secondary
    else if block > f.primary.value then f.primary
    else if block < f.primary.value && (f.secondary.None? || block > f.secondary.value) then Some(block)
    else f.secondary
  }

  predicate Regresses(f: Frontier, o: Observation) {
    && f.lastTime.Some?
    && (o.time < f.lastTime.value || (f.lastBlock.Some? && o.block < f.lastBlock.value && o.time >= f.lastTime.value))
  }

  function Observed(f: Frontier, o: Observation): Frontier {
    Frontier(f.monotoneOk && !Regresses(f, o), Some(o.time), Some(o.block),
             RegisteredPrimary(f, o.block), RegisteredSecondary(f, o.block))
  }

  function Cutoff(f: Frontier): Option<int> {
    if !f.monotoneOk || f.primary.None? then None else f.secondary
  }

  /** The frontier after a whole stream of observations. */
  function FrontierOf(obs: seq<Observation>): Frontier {
    if obs == [] then EMPTY_FRONTIER
    else Observed(FrontierOf(obs[..|obs| - 1]), obs[|obs| - 1])
  }

  lemma FrontierSnoc(obs: seq<Observation>, o: Observation)
    ensures FrontierOf(obs + [o]) == Observed(FrontierOf(obs), o)
  {
    assert (obs + [o])[..|obs|] == obs;
  }

  // ---------------------------------------------------------------------------------
  // What the two slots and the flag mean
  // ---------------------------------------------------------------------------------

  ghost predicate HasBlock(obs: seq<Observation>, block: int) {
    exists i :: 0 <= i < |obs| && obs[i].block == block
  }

  /** `p` is the largest observed block. */
  ghost predicate IsLargest(obs: seq<Observation>, p: Option<int>) {
    && (p.None? <==> obs == [])
    && (p.Some? ==> HasBlock(obs, p.value) && forall i :: 0 <= i < |obs| ==> obs[i].block <= p.value)
  }

  /** `s` is the largest observed block other than the largest. */
  ghost predicate IsSecondLargest(obs: seq<Observation>, p: Option<int>, s: Option<int>) {
    && (s.Some? ==> p.Some? && s.value < p.value && HasBlock(obs, s.value))
    && forall i :: 0 <= i < |obs| ==> Some(obs[i].block) == p || (s.Some? && obs[i].block <= s.value)
  }

  /** Neither times nor blocks ever go down. */
  ghost predicate Monotone(obs: seq<Observation>) {
    forall i, j :: 0 <= i < j < |obs| ==> obs[i].time <= obs[j].time && obs[i].block <= obs[j].block
  }

  lemma HasBlockSnoc(obs: seq<Observation>, block: int)
    requires obs != []
    ensures HasBlock(obs, block) <==> HasBlock(obs[..|obs| - 1], block) || obs[|obs| - 1].block == block
  {
    var front := obs[..|obs| - 1];
    if HasBlock(front, block) {
      var i :| 0 <= i < |front| && front[i].block == block;
      assert obs[i].block == block;
    }
  }

  lemma MonotoneSnoc(obs: seq<Observation>)
    requires |obs| >= 2
    ensures var front, last := obs[..|obs| - 1], obs[|obs| - 1];
      Monotone(obs) <==>
      Monotone(front) && front[|front| - 1].time <= last.time && front[|front| - 1].block <= last.block
  {
    var front, n := obs[..|obs| - 1], |obs| - 1;
    if Monotone(front) && front[n - 1].time <= obs[n].time && front[n - 1].block <= obs[n].block {
      forall i, j | 0 <= i < j < |obs| ensures obs[i].time <= obs[j].time && obs[i].block <= obs[j].block {
        assert j < n ==> front[i].time <= front[j].time && front[i].block <= front[j].block;
        assert i < n - 1 ==> front[i].time <= front[n - 1].time && front[i].block <= front[n - 1].block;
      }
    }
    if Monotone(obs) {
      forall i, j | 0 <= i < j < |front| ensures front[i].time <= front[j].time && front[i].block <= front[j].block {
        assert obs[i] == front[i] && obs[j] == front[j];
      }
    }
  }

  /** The frontier always holds the largest and second-largest distinct observed blocks,
      and its flag is set exactly while times and blocks have never decreased. */
  lemma {:induction false} FrontierMeans(obs: seq<Observation>)
    ensures var f := FrontierOf(obs);
      && IsLargest(obs, f.primary) && IsSecondLargest(obs, f.primary, f.secondary)
      && (f.monotoneOk <==> Monotone(obs))
      && f.lastTime == (if obs == [] then None else Some(obs[|obs| - 1].time))
      && f.lastBlock == (if obs == [] then None else Some(obs[|obs| - 1].block))
  {
    if obs != [] {
      var front, last := obs[..|obs| - 1], obs[|obs| - 1];
      FrontierMeans(front);
      FrontierBlocks(obs);
      if front != [] { MonotoneSnoc(obs); }
    }
  }

  lemma FrontierBlocks(obs: seq<Observation>)
    requires obs != []
    requires var front := obs[..|obs| - 1]; var f := FrontierOf(front);
      IsLargest(front, f.primary) && IsSecondLargest(front, f.primary, f.secondary)
    ensures var f := FrontierOf(obs); IsLargest(obs, f.primary) && IsSecondLargest(obs, f.primary, f.secondary)
  {
    var front, last := obs[..|obs| - 1], obs[|obs| - 1];
    var before, f := FrontierOf(front), FrontierOf(obs);
    HasBlockSnoc(obs, f.primary.value);
    if f.secondary.Some? { HasBlockSnoc(obs, f.secondary.value); }
    forall i | 0 <= i < |obs| ensures obs[i].block <= f.primary.value {
      assert i < |front| ==> obs[i] == front[i];
    }
    forall i | 0 <= i < |obs|
      ensures Some(obs[i].block) == f.primary || (f.secondary.Some? && obs[i].block <= f.secondary.value)
    {
      if i < |front| {
        assert obs[i] == front[i];
        assert Some(front[i].block) == before.primary ||
            (before.secondary.Some? && front[i].block <= before.secondary.value);
      }
    }
  }

  /** `c` is the largest completed block: observed, with exactly one observed block above it. */
  ghost predicate LargestCompleted(obs: seq<Observation>, c: int) {
    HasBlock(obs, c) && exists b :: b > c && HasBlock(obs, b) && NoOtherAbove(obs, b, c)
  }

  ghost predicate NoOtherAbove(obs: seq<Observation>, b: int, c: int) {
    forall i :: 0 <= i < |obs| ==> obs[i].block == b || obs[i].block <= c
  }

  /** A cutoff is issued exactly for the largest completed block of a monotone stream. */
  lemma CutoffDecides(obs: seq<Observation>, c: int)
    ensures Cutoff(FrontierOf(obs)) == Some(c) <==> Monotone(obs) && LargestCompleted(obs, c)
  {
    FrontierMeans(obs);
    var f := FrontierOf(obs);
    if LargestCompleted(obs, c) {
      var b :| b > c && HasBlock(obs, b) && NoOtherAbove(obs, b, c);
      var k :| 0 <= k < |obs| && obs[k].block == f.primary.value;
      var j :| 0 <= j < |obs| && obs[j].block == c;
      assert f.primary == Some(b);
    }
  }

  lemma MonotonePrefix(obs: seq<Observation>, more: seq<Observation>)
    requires Monotone(obs + more)
    ensures Monotone(obs)
  {
    var all := obs + more;
    assert forall i :: 0 <= i < |obs| ==> obs[i] == all[i];
  }

  /** Finality: while the stream stays monotone, nothing that arrives after a cutoff was
      issued belongs to a block at or below it. */
  lemma CutoffIsFinal(obs: seq<Observation>, more: seq<Observation>, c: int, i: nat)
    requires Monotone(obs + more) && Cutoff(FrontierOf(obs)) == Some(c) && i < |more|
    ensures more[i].block > c
  {
    FrontierMeans(obs);
    var f, all := FrontierOf(obs), obs + more;
    var k :| 0 <= k < |obs| && obs[k].block == f.primary.value;
    assert all[k] == obs[k] && all[|obs| + i] == more[i];
  }

  /** The cutoff is tight: the only observed block above it can still receive an event
      without breaking monotonicity. */
  lemma BlockAboveCutoffIsOpen(obs: seq<Observation>, c: int, b: int)
    requires Cutoff(FrontierOf(obs)) == Some(c) && HasBlock(obs, b) && b > c
    ensures Monotone(obs + [Observation(obs[|obs| - 1].time, b)])
  {
    FrontierMeans(obs);
    var i :| 0 <= i < |obs| && obs[i].block == b;
    var last := obs[|obs| - 1];
    assert obs[i].block <= last.block;
    var all := obs + [Observation(last.time, b)];
    assert all[..|all| - 1] == obs;
    MonotoneSnoc(all);
  }

  /** Cutoffs issued along one segment never go down. */
  lemma CutoffsNeverDecrease(obs: seq<Observation>, more: seq<Observation>, c: int, later: int)
    requires Cutoff(FrontierOf(obs)) == Some(c) && Cutoff(FrontierOf(obs + more)) == Some(later)
    ensures c <= later
  {
    FrontierMeans(obs);
    var all, f := obs + more, FrontierOf(obs);
    FrontierMeans(all);
    var k :| 0 <= k < |obs| && obs[k].block == f.primary.value;
    var j :| 0 <= j < |obs| && obs[j].block == c;
    assert all[k] == obs[k] && all[j] == obs[j];
  }

  /** Once the stream regresses the segment issues no cutoff again. */
  lemma RegressionIsPermanent(obs: seq<Observation>, more: seq<Observation>)
    requires !FrontierOf(obs).monotoneOk
    ensures Cutoff(FrontierOf(obs + more)) == None
  {
    FrontierMeans(obs);
    FrontierMeans(obs + more);
    if Monotone(obs + more) { MonotonePrefix(obs, more); }
  }

  // ---------------------------------------------------------------------------------
  // Compact form for the carry
  // ---------------------------------------------------------------------------------

  const CARRY_ABSENT_INT := -1

  datatype CompactRow = CompactRow(
    segmentId: int, primary: int, secondary: int, lastTime: int, lastBlock: int, monotoneOk: bool)

  function CarryInt(v: Option<int>): int {
    if v.None? then CARRY_ABSENT_INT else v.value
  }

  function CarryIntOrNone(v: int): Option<int> {
    if v == CARRY_ABSENT_INT then None else Some(v)
  }

  function Compact(segmentId: int, f: Frontier): CompactRow {
    CompactRow(segmentId, CarryInt(f.primary), CarryInt(f.secondary), CarryInt(f.lastTime), CarryInt(f.lastBlock),
        f.monotoneOk)
  }

  function Expanded(row: CompactRow): Frontier {
    Frontier(row.monotoneOk, CarryIntOrNone(row.lastTime), CarryIntOrNone(row.lastBlock),
             CarryIntOrNone(row.primary), CarryIntOrNone(row.secondary))
  }

  predicate AvoidsSentinel(f: Frontier) {
    && f.primary != Some(CARRY_ABSENT_INT) && f.secondary != Some(CARRY_ABSENT_INT)
    && f.lastTime != Some(CARRY_ABSENT_INT) && f.lastBlock != Some(CARRY_ABSENT_INT)
  }

  /** A frontier survives export and import exactly when none of its values is the number
      that stands for an absent one; a compact row always survives import and export. */
  lemma CompactRoundTrip(segmentId: int, f: Frontier, row: CompactRow)
    ensures Expanded(Compact(segmentId, f)) == f <==> AvoidsSentinel(f)
    ensures Compact(row.segmentId, Expanded(row)) == row
  {
  }

  /** For example, after a single event in block -1 both block fields come back absent. */
  lemma AbsentBlockIsLost()
    ensures var f := FrontierOf([Observation(5, -1)]);
      f.primary == Some(-1) && Expanded(Compact(0, f)) == f.(primary := None, lastBlock := None)
  {
    assert [Observation(5, -1)][..0] == [];
  }

  ghost predicate ObservationsAvoidSentinel(obs: seq<Observation>) {
    forall i :: 0 <= i < |obs| ==> obs[i].time != CARRY_ABSENT_INT && obs[i].block != CARRY_ABSENT_INT
  }

  lemma FrontierAvoidsSentinel(obs: seq<Observation>)
    requires ObservationsAvoidSentinel(obs)
    ensures AvoidsSentinel(FrontierOf(obs))
  {
    FrontierMeans(obs);
    var f := FrontierOf(obs);
    if obs != [] {
      var i :| 0 <= i < |obs| && obs[i].block == f.primary.value;
      if f.secondary.Some? {
        var j :| 0 <= j < |obs| && obs[j].block == f.secondary.value;
      }
    }
  }

  // ---------------------------------------------------------------------------------
  // The mutable frontier
  // ---------------------------------------------------------------------------------

  class SegmentFrontier {
    const segmentId: int
    var monotoneOk: bool
    var lastTime: Option<int>
    var lastBlock: Option<int>
    var primaryBlock: Option<int>
    var secondaryBlock: Option<int>

    ghost function View(): Frontier
      reads this
    {
      Frontier(monotoneOk, lastTime, lastBlock, primaryBlock, secondaryBlock)
    }

    constructor (segment: int)
      ensures segmentId == segment && View() == FrontierOf([])
    {
      segmentId := segment;
      monotoneOk, lastTime, lastBlock, primaryBlock, secondaryBlock := true, None, None, None, None;
    }

    constructor FromCompact(row: CompactRow)
      ensures segmentId == row.segmentId && View() == Expanded(row)
    {
      segmentId, monotoneOk := row.segmentId, row.monotoneOk;
      lastTime, lastBlock := CarryIntOrNone(row.lastTime), CarryIntOrNone(row.lastBlock);
      primaryBlock, secondaryBlock := CarryIntOrNone(row.primary), CarryIntOrNone(row.secondary);
    }

    method RegisterBlock(block: int)
      modifies this`primaryBlock, this`secondaryBlock
      ensures primaryBlock == RegisteredPrimary(old(View()), block)
      ensures secondaryBlock == RegisteredSecondary(old(View()), block)
    {
      if primaryBlock.None? {
        primaryBlock := Some(block);
        return;
      }
      if block > primaryBlock.value {
        secondaryBlock := primaryBlock;
        primaryBlock := Some(block);
        return;
      }
      if block < primaryBlock.value && (secondaryBlock.None? || block > secondaryBlock.value) {
        secondaryBlock := Some(block);
      }
    }

    method Observe(o: Observation)
      modifies this
      ensures View() == Observed(old(View()), o)
      ensures forall obs :: old(View()) == FrontierOf(obs) ==> View() == FrontierOf(obs + [o])
    {
      ghost var before := View();
      if lastTime.Some? && (o.time < lastTime.value ||
                            (lastBlock.Some? && o.block < lastBlock.value && o.time >= lastTime.value)) {
        monotoneOk := false;
      }
      RegisterBlock(o.block);
      lastTime := Some(o.time);
      lastBlock := Some(o.block);
      forall obs | before == FrontierOf(obs) ensures View() == FrontierOf(obs + [o]) { FrontierSnoc(obs, o); }
    }

    method CausalCutoffBlock() returns (cutoff: Option<int>)
      ensures cutoff == Cutoff(View())
    {
      if !monotoneOk { return None; }
      if primaryBlock.None? || secondaryBlock.None? { return None; }
      return secondaryBlock;
    }

    method ExportCompact() returns (row: CompactRow)
      ensures row == Compact(segmentId, View())
    {
      row := CompactRow(segmentId, CarryInt(primaryBlock), CarryInt(secondaryBlock),
                        CarryInt(lastTime), CarryInt(lastBlock), monotoneOk);
    }
  }
}
