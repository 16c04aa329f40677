/** What each row of a run says, read off the events themselves: its place among the rows, its
    cutoff, its as-of facts and its trailing facts. */
module RowMeaning {
  import opened Results
  import opened CausalFrontier
  import opened CausalIndex
  import opened CausalRolling
  import opened CausalEvents
  import opened CausalGrid
  import opened CausalPartitions

  // ---------------------------------------------------------------------------------
  // Where a row stands
  // ---------------------------------------------------------------------------------

  lemma {:induction false} BlocksSize(ok: (seq<GridRow>, int) -> bool, n: nat, rows: seq<GridRow>, times: seq<int>)
    requires Blocks(ok, n, rows, times)
    ensures |rows| == |times| * n
    decreases |times|
  {
    if times != [] {
      var last, m := |times| - 1, |rows| - n;
      BlocksSize(ok, n, rows[..m], times[..last]);
      assert (last + 1) * n == last * n + n;
    }
  }

  lemma {:induction false} BlockAt(ok: (seq<GridRow>, int) -> bool, n: nat, rows: seq<GridRow>, times: seq<int>, i: nat,
                                   start: nat)
    requires Blocks(ok, n, rows, times) && i < |times| && start == i * n
    ensures start + n <= |rows| && ok(rows[start..start + n], times[i])
    decreases |times|
  {
    var last, m := |times| - 1, |rows| - n;
    if i < last {
      BlockAt(ok, n, rows[..m], times[..last], i, start);
      assert rows[..m][start..start + n] == rows[start..start + n];
    } else {
      BlocksSize(ok, n, rows[..m], times[..last]);
      assert rows[start..start + n] == rows[m..];
    }
  }

  lemma RowInBlock(req: Request, block: seq<GridRow>, full: seq<Event>, g: int, k: nat)
    requires Judge(req, full)(block, g) && k < |req.symbols|
    ensures k < |block| && RowAgrees(req, block[k], UpTo(full, g), g, req.symbols[k])
  {
  }

  /** Row `k` of the block of grid time `i`, at place `i * |req.symbols| + k`. */
  lemma RowPlaced(req: Request, rows: seq<GridRow>, full: seq<Event>, times: seq<int>, i: nat, k: nat, at: nat)
    requires RowsAgree(req, rows, full, times) && i < |times| && k < |req.symbols|
    requires at == i * |req.symbols| + k
    ensures at < |rows| && RowAgrees(req, rows[at], UpTo(full, times[i]), times[i], req.symbols[k])
  {
    var n, start := |req.symbols|, at - k;
    BlockAt(Judge(req, full), n, rows, times, i, start);
    RowInBlock(req, rows[start..start + n], full, times[i], k);
  }

  // ---------------------------------------------------------------------------------
  // Cutoffs, over events
  // ---------------------------------------------------------------------------------

  function BlockOf(e: Event): int {
    match e
    case Witnessed(w) => w.block
    case Traded(t) => t.block
  }

  /** The event is in the causal segment of `g`. */
  predicate Shares(missing: seq<int>, e: Event, g: int) {
    Segment(TimeOf(e), missing) == Segment(g, missing)
  }

  ghost predicate BlockSeen(missing: seq<int>, events: seq<Event>, g: int, block: int) {
    exists i :: 0 <= i < |events| && Shares(missing, events[i], g) && BlockOf(events[i]) == block
  }

  ghost predicate InOrder(missing: seq<int>, events: seq<Event>, g: int) {
    forall i, j :: 0 <= i < j < |events| && Shares(missing, events[i], g) && Shares(missing, events[j], g) ==>
        TimeOf(events[i]) <= TimeOf(events[j]) && BlockOf(events[i]) <= BlockOf(events[j])
  }

  ghost predicate OnlyAbove(missing: seq<int>, events: seq<Event>, g: int, b: int, c: int) {
    forall i :: 0 <= i < |events| && Shares(missing, events[i], g) ==>
        BlockOf(events[i]) == b || BlockOf(events[i]) <= c
  }

  /** Within the segment of `g` the events are in order, `c` is the block of one, and exactly
      one block of theirs is above it. */
  ghost predicate Completed(missing: seq<int>, events: seq<Event>, g: int, c: int) {
    && InOrder(missing, events, g) && BlockSeen(missing, events, g, c)
    && exists b :: b > c && BlockSeen(missing, events, g, b) && OnlyAbove(missing, events, g, b, c)
  }

  lemma {:induction false} ObsOfAt(events: seq<Event>)
    ensures |ObsOf(events)| == |events|
    ensures forall i :: 0 <= i < |events| ==> ObsOf(events)[i] == Observation(TimeOf(events[i]), BlockOf(events[i]))
  {
    if events != [] { ObsOfAt(events[..|events| - 1]); }
  }

  lemma SeenAsObserved(missing: seq<int>, events: seq<Event>, g: int, b: int, c: int)
    ensures BlockSeen(missing, events, g, b) <==> HasBlockAt(missing, ObsOf(events), g, b)
    ensures OnlyAbove(missing, events, g, b, c) <==> NoOtherAboveAt(missing, ObsOf(events), g, b, c)
  {
    ObsOfAt(events);
    var obs := ObsOf(events);
    assert forall i :: 0 <= i < |events| ==> (InSame(missing, obs[i], g) <==> Shares(missing, events[i], g));
  }

  lemma OrderAsObserved(missing: seq<int>, events: seq<Event>, g: int)
    ensures InOrder(missing, events, g) <==> MonotoneAt(missing, ObsOf(events), g)
  {
    ObsOfAt(events);
    var obs := ObsOf(events);
    assert forall i :: 0 <= i < |events| ==> (InSame(missing, obs[i], g) <==> Shares(missing, events[i], g));
  }

  lemma CutoffOverEvents(missing: seq<int>, events: seq<Event>, g: int, c: int)
    ensures CutoffOf(missing, ObsOf(events), g) == Some(c) <==> Completed(missing, events, g, c)
  {
    CutoffAtDecides(missing, ObsOf(events), g, c);
    OrderAsObserved(missing, events, g);
    forall b
      ensures BlockSeen(missing, events, g, b) <==> HasBlockAt(missing, ObsOf(events), g, b)
      ensures OnlyAbove(missing, events, g, b, c) <==> NoOtherAboveAt(missing, ObsOf(events), g, b, c)
    {
      SeenAsObserved(missing, events, g, b, c);
    }
  }

  // ---------------------------------------------------------------------------------
  // Rows
  // ---------------------------------------------------------------------------------

  /** The row has cutoff `c` exactly when `c` is the largest completed block of its segment. */
  ghost predicate CutoffMeant(req: Request, row: GridRow, history: seq<Event>) {
    forall c :: row.cutoff == Some(c) <==> Completed(req.missing, history, row.time, c)
  }

  ghost predicate PreferableSince(req: Request, trades: seq<Trade>, c: int, g: int, offset: int, j: nat) {
    Preferable(trades, c, g, offset, j) && trades[j].time >= g - Lookback(req.spec)
  }

  /** As-of fact `i` is the as-of field of the preferable trade if that is within the look
      back, and absent if no trade is reportable. */
  ghost predicate AsOfMeant(req: Request, row: GridRow, trades: seq<Trade>, i: nat)
    requires i < |req.spec.offsets| == |row.facts.asOf| && row.cutoff.Some?
  {
    var c, offset := row.cutoff.value, req.spec.offsets[i];
    && (forall j :: 0 <= j < |trades| && PreferableSince(req, trades, c, row.time, offset, j) ==>
          row.facts.asOf[i] == req.spec.measure(trades[j], req.spec.asOfField))
    && ((forall j :: 0 <= j < |trades| ==> !Reportable(trades[j], c, row.time, offset)) ==> row.facts.asOf[i] == None)
  }

  /** Trailing fact `i` is the sum and number of the measures of the trades at `places`, which
      are exactly those that count. */
  ghost predicate TrailingMeant(req: Request, row: GridRow, trades: seq<Trade>, i: nat, places: seq<int>)
    requires i < |req.spec.trailing| == |row.facts.sums| == |row.facts.counts| && row.cutoff.Some?
  {
    var s := req.spec.trailing[i];
    && CountedPlaces(req.spec, trades, row.cutoff.value, row.time, s, places)
    && (forall k :: 0 <= k < |places| ==>
          0 <= places[k] < |trades| && req.spec.measure(trades[places[k]], s.field).Some?)
    && row.facts.counts[i] == Some(|places|)
    && row.facts.sums[i] == Some(SumInOrder(req.spec.add, Measured(req.spec, trades, s.field, places)))
  }

  ghost predicate SizedFor(spec: FactSpec, facts: Facts) {
    |facts.asOf| == |spec.offsets| && |facts.sums| == |facts.counts| == |spec.trailing|
  }

  ghost predicate AllAbsent(facts: Facts) {
    && (forall i :: 0 <= i < |facts.asOf| ==> facts.asOf[i] == None)
    && (forall i :: 0 <= i < |facts.sums| ==> facts.sums[i] == None)
    && (forall i :: 0 <= i < |facts.counts| ==> facts.counts[i] == None)
  }

  /** What the row of a symbol says about the events up to its time. */
  ghost predicate RowMeans(req: Request, row: GridRow, history: seq<Event>) {
    var trades := TradesOf(history, row.symbol);
    && CutoffMeant(req, row, history) && SizedFor(req.spec, row.facts)
    && (row.cutoff.None? ==> AllAbsent(row.facts))
    && (row.cutoff.Some? ==> forall i :: 0 <= i < |req.spec.offsets| ==> AsOfMeant(req, row, trades, i))
    && (row.cutoff.Some? ==> forall i :: 0 <= i < |req.spec.trailing| && OnlySpec(req.spec, i) ==>
          exists places :: TrailingMeant(req, row, trades, i, places))
  }

  lemma AsOfRow(req: Request, row: GridRow, history: seq<Event>, g: int, symbol: int, i: nat)
    requires RowAgrees(req, row, history, g, symbol) && row.cutoff.Some? && i < |req.spec.offsets|
    ensures AsOfMeant(req, row, TradesOf(history, symbol), i)
  {
    var trades, c, offset := TradesOf(history, symbol), row.cutoff.value, req.spec.offsets[i];
    forall j | 0 <= j < |trades| && PreferableSince(req, trades, c, g, offset, j)
      ensures row.facts.asOf[i] == req.spec.measure(trades[j], req.spec.asOfField)
    {
      WinnerIsPreferable(trades, c, g, offset, j);
    }
    if forall j :: 0 <= j < |trades| ==> !Reportable(trades[j], c, g, offset) {
      NoWinner(trades, c, g, offset);
    }
  }

  lemma NoWinner(trades: seq<Trade>, c: int, g: int, offset: int)
    requires forall j :: 0 <= j < |trades| ==> !Reportable(trades[j], c, g, offset)
    ensures Winner(trades, c, g, g - offset) == None
  {
    forall j | 0 <= j < |trades| ensures !Qualifies(trades[j], c, g, g - offset) {
      assert !Reportable(trades[j], c, g, offset);
    }
    BestAtDecides(trades, c, g, g - offset, 0);
  }

  lemma WinnerIsPreferable(trades: seq<Trade>, c: int, g: int, offset: int, j: nat)
    requires Preferable(trades, c, g, offset, j)
    ensures Winner(trades, c, g, g - offset) == Some(trades[j])
  {
    BestAtIsBest(trades, c, g, g - offset);
    var best := BestAt(trades, c, g, g - offset);
    assert Qualifies(trades[j], c, g, g - offset);
    BestIsPreferable(trades, c, g, offset, best.value);
    OnePreferable(trades, c, g, offset, j, best.value);
  }

  lemma TrailingRow(req: Request, row: GridRow, history: seq<Event>, g: int, symbol: int, i: nat)
    requires RowAgrees(req, row, history, g, symbol) && row.cutoff.Some? && OnlySpec(req.spec, i)
    ensures exists places :: TrailingMeant(req, row, TradesOf(history, symbol), i, places)
  {
    var places := TrailingMeans(req.spec, TradesOf(history, symbol), g, row.cutoff.value, i);
    assert TrailingMeant(req, row, TradesOf(history, symbol), i, places);
  }

  lemma AgreeingRowMeans(req: Request, row: GridRow, history: seq<Event>, g: int, symbol: int)
    requires RowAgrees(req, row, history, g, symbol)
    ensures RowMeans(req, row, history)
  {
    forall c ensures row.cutoff == Some(c) <==> Completed(req.missing, history, g, c) {
      CutoffOverEvents(req.missing, history, g, c);
    }
    if row.cutoff.Some? {
      forall i | 0 <= i < |req.spec.offsets| ensures AsOfMeant(req, row, TradesOf(history, symbol), i) {
        AsOfRow(req, row, history, g, symbol, i);
      }
      forall i | 0 <= i < |req.spec.trailing| && OnlySpec(req.spec, i)
        ensures exists places :: TrailingMeant(req, row, TradesOf(history, symbol), i, places)
      {
        TrailingRow(req, row, history, g, symbol, i);
      }
    }
  }

  /** Every row of a run that starts fresh stands at its time and symbol, and says what the
      events up to its time say. */
  lemma FreshRowMeans(req: Request, part: Partition, events: seq<Event>, output: Output, i: nat, k: nat, at: nat)
    requires WellFormed(req, part) && Outcome(req, part, NO_CARRY, events, Ok(output))
    requires i < |Times(req.grid, part.emitStart, part.emitEnd)| && k < |req.symbols| && at == i * |req.symbols| + k
    ensures at < |output.rows| && output.rows[at].symbol == req.symbols[k]
    ensures output.rows[at].time == Times(req.grid, part.emitStart, part.emitEnd)[i]
    ensures RowMeans(req, output.rows[at], UpTo(events, output.rows[at].time))
  {
    var times := Times(req.grid, part.emitStart, part.emitEnd);
    OnePassRefinement(req, part, events, Ok(output));
    RowPlaced(req, output.rows, events, times, i, k, at);
    AgreeingRowMeans(req, output.rows[at], UpTo(events, times[i]), times[i], req.symbols[k]);
  }

  // ---------------------------------------------------------------------------------
  // When a run fails
  // ---------------------------------------------------------------------------------

  /** The overlap reaches back over every offset and every trailing width. */
  ghost predicate OverlapCovers(spec: FactSpec, overlap: nat) {
    && (forall i :: 0 <= i < |spec.offsets| ==> spec.offsets[i] <= overlap)
    && forall i :: 0 <= i < |spec.trailing| ==> spec.trailing[i].width <= overlap
  }

  /** No grid time of the partition and no event up to its end is on a missing day. */
  ghost predicate NoGap(req: Request, part: Partition, events: seq<Event>)
    requires req.grid.step > 0
  {
    && (forall t :: part.emitStart <= t <= part.emitEnd && OnGrid(req.grid, t) ==> Day(t) !in req.missing)
    && forall i :: 0 <= i < |events| && TimeOf(events[i]) <= part.emitEnd ==> Day(TimeOf(events[i])) !in req.missing
  }

  lemma OverlapMeans(spec: FactSpec, overlap: nat)
    ensures overlap >= Lookback(spec) <==> OverlapCovers(spec, overlap)
  {
    LookbackCovers(spec);
    LookbackAttained(spec);
  }

  lemma NoGapMeans(req: Request, part: Partition, events: seq<Event>)
    requires req.grid.step > 0 && Chronological(events)
    ensures NoGap(req, part, events) <==>
      OffMissing(req.missing, Times(req.grid, part.emitStart, part.emitEnd))
      && EventsOffMissing(req.missing, UpTo(events, part.emitEnd))
  {
    var times, seen := Times(req.grid, part.emitStart, part.emitEnd), UpTo(events, part.emitEnd);
    TimesWithin(req.grid, part.emitStart, part.emitEnd);
    UpToPrefix(events, part.emitEnd);
    if OffMissing(req.missing, times) && EventsOffMissing(req.missing, seen) {
      forall t | part.emitStart <= t <= part.emitEnd && OnGrid(req.grid, t) ensures Day(t) !in req.missing {
        assert t in times;
        var i :| 0 <= i < |times| && times[i] == t;
      }
      forall i | 0 <= i < |events| && TimeOf(events[i]) <= part.emitEnd
        ensures Day(TimeOf(events[i])) !in req.missing
      {
        UpToIsAll(events, part.emitEnd, i);
        assert seen[i] == events[i];
      }
    }
    if NoGap(req, part, events) {
      forall i | 0 <= i < |seen| ensures Day(TimeOf(seen[i])) !in req.missing {
        assert seen[i] == events[i];
      }
    }
  }

  /** A run over a chronological stream fails for the first of three reasons: its overlap is
      too short for an offset or a width, it would emit too many rows, or there is a gap. */
  lemma FailureMeans(req: Request, part: Partition, events: seq<Event>)
    requires WellFormed(req, part) && Chronological(events)
    ensures Failure(req, part, events) == Some(OverlapTooShort) <==> !OverlapCovers(req.spec, part.overlap)
    ensures Failure(req, part, events) == Some(TooManyRows) <==>
      OverlapCovers(req.spec, part.overlap)
      && |Times(req.grid, part.emitStart, part.emitEnd)| * |req.symbols| > req.maxRows
    ensures Failure(req, part, events) == None <==>
      OverlapCovers(req.spec, part.overlap) && NoGap(req, part, events)
      && |Times(req.grid, part.emitStart, part.emitEnd)| * |req.symbols| <= req.maxRows
  {
    OverlapMeans(req.spec, part.overlap);
    NoGapMeans(req, part, events);
  }
}
