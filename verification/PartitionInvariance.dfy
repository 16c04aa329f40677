/** Partition invariance: cutting a sorted stream at any points and chaining the runs through
    their carries gives the rows of one uncut run. */
module PartitionInvariance {
  import opened Results
  import opened CausalRolling
  import opened CausalEvents
  import opened CausalGrid
  import opened CausalPartitions
  import opened CausalChain

  datatype Run = Run(part: Partition, events: seq<Event>, output: Output)

  /** One or more runs, the last one outermost. */
  datatype Chain = First(run: Run) | Then(front: Chain, run: Run)

  /** The events of the earlier runs. */
  function Before(c: Chain): seq<Event>
    decreases c, 0
  {
    if c.Then? then Stream(c.front) else []
  }

  function Stream(c: Chain): seq<Event>
    decreases c, 1
  {
    Before(c) + c.run.events
  }

  function ChainRows(c: Chain): seq<GridRow> {
    match c
    case First(run) => run.output.rows
    case Then(front, run) => ChainRows(front) + run.output.rows
  }

  function StartOf(c: Chain): int {
    match c
    case First(run) => run.part.emitStart
    case Then(front, _) => StartOf(front)
  }

  function EndOf(c: Chain): int {
    c.run.part.emitEnd
  }

  ghost predicate AllAfter(events: seq<Event>, t: int) {
    forall i :: 0 <= i < |events| ==> TimeOf(events[i]) > t
  }

  /** Partitions adjoin, and each takes the events after the previous end up to its own. */
  ghost predicate Cut(c: Chain) {
    && NoLater(c.run.events, EndOf(c))
    && (c.Then? ==> (Cut(c.front) && c.run.part.emitStart == EndOf(c.front) + 1 &&
        AllAfter(c.run.events, EndOf(c.front))))
  }

  function CarryInto(c: Chain): Carry {
    if c.Then? then c.front.run.output.carry else NO_CARRY
  }

  /** Each run succeeded from the carry of the one before it. */
  ghost predicate Chained(req: Request, c: Chain) {
    && (c.Then? ==> Chained(req, c.front))
    && WellFormed(req, c.run.part) && Outcome(req, c.run.part, CarryInto(c), c.run.events, Ok(c.run.output))
  }

  ghost predicate AllRan(req: Request, c: Chain)
    requires req.grid.step > 0
  {
    (c.Then? ==> AllRan(req, c.front)) && Ran(req, c.run.part, CarryInto(c), c.run.events, c.run.output)
  }

  lemma {:induction false} ChainedRan(req: Request, c: Chain)
    requires Chained(req, c)
    ensures req.grid.step > 0 && AllRan(req, c)
  {
    SuccessRan(req, c.run.part, CarryInto(c), c.run.events, c.run.output);
    if c.Then? { ChainedRan(req, c.front); }
  }

  // ---------------------------------------------------------------------------------
  // Single runs
  // ---------------------------------------------------------------------------------

  lemma UpToEverything(events: seq<Event>, t: int)
    requires NoLater(events, t)
    ensures UpTo(events, t) == events
  {
    UpToIs(events, |events|, t);
    assert events[..|events|] == events;
  }

  lemma RunRows(req: Request, run: Run, carry: Carry, history: seq<Event>)
    requires req.grid.step > 0 && Ran(req, run.part, carry, run.events, run.output)
    requires ReadyFor(req, run.part, Start(req, run.part, carry), history, run.part.emitStart)
    ensures RowsAgree(req, run.output.rows, history + run.events, Times(req.grid, run.part.emitStart, run.part.emitEnd))
  {
    RunRefines(req, run.part, Start(req, run.part, carry), history, run.events);
  }

  lemma RunCarry(req: Request, run: Run, carry: Carry, history: seq<Event>, limit: int)
    requires req.grid.step > 0 && Ran(req, run.part, carry, run.events, run.output)
    requires ReadyFor(req, run.part, Start(req, run.part, carry), history, run.part.emitStart)
    requires NoLater(run.events, run.part.emitEnd) && limit == run.part.emitEnd - Lookback(req.spec)
    requires Chronological(history + run.events) && Carriable(history + run.events)
    ensures CarryRepresents(req, run.output.carry, history + run.events, run.part.emitEnd, limit)
  {
    UpToEverything(run.events, run.part.emitEnd);
    ReadyLater(req, run.part, Start(req, run.part, carry), history, run.part.emitEnd);
    CarryOut(req, run.part, carry, history, run.events, run.output.carry, limit);
  }

  lemma ReadyFromCarry(req: Request, part: Partition, carry: Carry, history: seq<Event>, end: int, limit: int)
    requires CarryRepresents(req, carry, history, end, limit)
    requires limit == end - Lookback(req.spec) && part.emitStart == end + 1
    ensures ReadyFor(req, part, Start(req, part, carry), history, part.emitStart)
  {
    StartRepresents(req, part, carry, history, end, limit, part.emitStart - Lookback(req.spec));
  }

  lemma ReadyFromNothing(req: Request, part: Partition)
    ensures ReadyFor(req, part, Start(req, part, NO_CARRY), [], part.emitStart)
  {
    StartsEmpty(req, part, part.emitStart - Lookback(req.spec));
  }

  // ---------------------------------------------------------------------------------
  // Chains
  // ---------------------------------------------------------------------------------

  lemma JudgeLater(req: Request, full: seq<Event>, more: seq<Event>, t: int, block: seq<GridRow>)
    requires AllAfter(more, t) && Judge(req, full)(block, t)
    ensures Judge(req, full + more)(block, t)
  {
    UpToBeforeMore(full, more, t);
  }

  lemma RowsAgreeLater(req: Request, rows: seq<GridRow>, full: seq<Event>, more: seq<Event>, times: seq<int>)
    requires RowsAgree(req, rows, full, times)
    requires forall i :: 0 <= i < |times| ==> AllAfter(more, times[i])
    ensures RowsAgree(req, rows, full + more, times)
  {
    forall block, i | 0 <= i < |times| && Judge(req, full)(block, times[i])
      ensures Judge(req, full + more)(block, times[i])
    {
      JudgeLater(req, full, more, times[i], block);
    }
    BlocksWeaken(Judge(req, full), Judge(req, full + more), |req.symbols|, rows, times);
  }

  lemma JoinRows(req: Request, a: seq<GridRow>, history: seq<Event>, b: seq<GridRow>, events: seq<Event>, start: int,
                 end: int, last: int)
    requires req.grid.step > 0 && start <= end + 1 <= last
    requires RowsAgree(req, a, history, Times(req.grid, start, end)) && AllAfter(events, end)
    requires RowsAgree(req, b, history + events, Times(req.grid, end + 1, last))
    ensures RowsAgree(req, a + b, history + events, Times(req.grid, start, last))
  {
    TimesWithin(req.grid, start, end);
    RowsAgreeLater(req, a, history, events, Times(req.grid, start, end));
    TimesTile(req.grid, start, end, last);
    BlocksConcat(Judge(req, history + events), |req.symbols|, a, b, Times(req.grid, start, end),
        Times(req.grid, end + 1, last));
  }

  lemma StreamParts(a: seq<Event>, b: seq<Event>)
    requires Chronological(a + b) && Carriable(a + b)
    ensures Chronological(a) && Carriable(a)
  {
    var all := a + b;
    assert forall i :: 0 <= i < |a| ==> a[i] == all[i];
  }

  ghost predicate Ready(req: Request, c: Chain) {
    ReadyFor(req, c.run.part, Start(req, c.run.part, CarryInto(c)), Before(c), c.run.part.emitStart)
  }

  lemma FirstReady(req: Request, c: Chain)
    requires c.First?
    ensures Ready(req, c)
  {
    ReadyFromNothing(req, c.run.part);
  }

  lemma NextReady(req: Request, c: Chain, history: seq<Event>, end: int, limit: int)
    requires c.Then? && c.run.part.emitStart == end + 1 && limit == end - Lookback(req.spec)
    requires history == Before(c) && CarryRepresents(req, c.front.run.output.carry, history, end, limit)
    ensures Ready(req, c)
  {
    ReadyFromCarry(req, c.run.part, c.front.run.output.carry, history, end, limit);
  }

  lemma CarryStep(req: Request, c: Chain, history: seq<Event>, end: int, limit: int)
    requires req.grid.step > 0 && Ready(req, c) && Ran(req, c.run.part, CarryInto(c), c.run.events, c.run.output)
    requires history == Before(c) && end == EndOf(c) && limit == end - Lookback(req.spec)
    requires NoLater(c.run.events, end)
    requires Chronological(history + c.run.events) && Carriable(history + c.run.events)
    ensures CarryRepresents(req, c.run.output.carry, history + c.run.events, end, limit)
  {
    RunCarry(req, c.run, CarryInto(c), history, limit);
  }

  lemma {:induction false} ChainReady(req: Request, c: Chain)
    requires req.grid.step > 0 && Cut(c) && AllRan(req, c) && Chronological(Stream(c)) && Carriable(Stream(c))
    ensures Ready(req, c)
  {
    if c.Then? {
      StreamParts(Before(c), c.run.events);
      ChainReady(req, c.front);
      var history, end := Before(c.front), EndOf(c.front);
      var limit := end - Lookback(req.spec);
      CarryStep(req, c.front, history, end, limit);
      NextReady(req, c, history + c.front.run.events, end, limit);
    } else {
      FirstReady(req, c);
    }
  }

  /** The rows of the last run, over everything before it. */
  lemma LastRows(req: Request, c: Chain)
    requires req.grid.step > 0 && Ready(req, c) && Ran(req, c.run.part, CarryInto(c), c.run.events, c.run.output)
    ensures RowsAgree(req, c.run.output.rows, Stream(c), Times(req.grid, c.run.part.emitStart, EndOf(c)))
  {
    RunRows(req, c.run, CarryInto(c), Before(c));
  }

  /** A chain of runs agrees with direct evaluation over the whole stream. */
  lemma {:induction false} ChainRefines(req: Request, c: Chain)
    requires req.grid.step > 0 && Cut(c) && AllRan(req, c) && Chronological(Stream(c)) && Carriable(Stream(c))
    ensures StartOf(c) <= EndOf(c) && RowsAgree(req, ChainRows(c), Stream(c), Times(req.grid, StartOf(c), EndOf(c)))
  {
    ChainReady(req, c);
    LastRows(req, c);
    if c.Then? {
      StreamParts(Before(c), c.run.events);
      ChainRefines(req, c.front);
      JoinRows(req, ChainRows(c.front), Stream(c.front), c.run.output.rows, c.run.events, StartOf(c), EndOf(c.front),
          EndOf(c));
    }
  }

  // ---------------------------------------------------------------------------------
  // Comparing with one uncut run
  // ---------------------------------------------------------------------------------

  /** Equal sums and counts, and equal as-of facts wherever the full-history winner is within
      the look back. */
  ghost predicate FactsMatch(spec: FactSpec, x: Facts, y: Facts, history: seq<Trade>, g: int, cutoff: Option<int>) {
    && x.sums == y.sums && x.counts == y.counts && |x.asOf| == |y.asOf| == |spec.offsets|
    && forall i :: 0 <= i < |spec.offsets| ==>
         (cutoff.Some? ==> WinnerSince(history, cutoff.value, g, g - spec.offsets[i], g - Lookback(spec))) ==>
         x.asOf[i] == y.asOf[i]
  }

  /** Equal symbol, time and cutoff, and facts that match. */
  ghost predicate RowMatches(req: Request, a: GridRow, b: GridRow, full: seq<Event>) {
    && a.symbol == b.symbol && a.time == b.time && a.cutoff == b.cutoff
    && FactsMatch(req.spec, a.facts, b.facts, TradesOf(UpTo(full, a.time), a.symbol), a.time, a.cutoff)
  }

  ghost predicate RowsMatch(req: Request, a: seq<GridRow>, b: seq<GridRow>, full: seq<Event>) {
    |a| == |b| && forall k :: 0 <= k < |a| ==> RowMatches(req, a[k], b[k], full)
  }

  lemma FactsBothAgree(spec: FactSpec, x: Facts, y: Facts, history: seq<Trade>, g: int, cutoff: Option<int>)
    requires FactsAgree(spec, x, history, g, cutoff) && FactsAgree(spec, y, history, g, cutoff)
    ensures FactsMatch(spec, x, y, history, g, cutoff)
  {
  }

  lemma RowsBothAgree(req: Request, a: GridRow, b: GridRow, full: seq<Event>, g: int, symbol: int)
    requires RowAgrees(req, a, UpTo(full, g), g, symbol) && RowAgrees(req, b, UpTo(full, g), g, symbol)
    ensures RowMatches(req, a, b, full)
  {
    FactsBothAgree(req.spec, a.facts, b.facts, TradesOf(UpTo(full, a.time), a.symbol), a.time, a.cutoff);
  }

  lemma BlocksMatch(req: Request, a: seq<GridRow>, b: seq<GridRow>, full: seq<Event>, g: int)
    requires Judge(req, full)(a, g) && Judge(req, full)(b, g)
    ensures RowsMatch(req, a, b, full)
  {
    forall k | 0 <= k < |a| ensures RowMatches(req, a[k], b[k], full) {
      RowsBothAgree(req, a[k], b[k], full, g, req.symbols[k]);
    }
  }

  lemma RowsMatchJoin(req: Request, a: seq<GridRow>, b: seq<GridRow>, m: nat, n: nat, full: seq<Event>)
    requires m <= |a| && n <= |b|
    requires RowsMatch(req, a[..m], b[..n], full) && RowsMatch(req, a[m..], b[n..], full)
    ensures RowsMatch(req, a, b, full)
  {
    RowsMatchConcat(req, a[..m], b[..n], a[m..], b[n..], full);
    assert a == a[..m] + a[m..] && b == b[..n] + b[n..];
  }

  lemma RowsMatchConcat(req: Request, a: seq<GridRow>, b: seq<GridRow>, c: seq<GridRow>, d: seq<GridRow>,
                        full: seq<Event>)
    requires RowsMatch(req, a, b, full) && RowsMatch(req, c, d, full)
    ensures RowsMatch(req, a + c, b + d, full)
  {
    forall k | 0 <= k < |a + c| ensures RowMatches(req, (a + c)[k], (b + d)[k], full) {
      if k >= |a| { assert RowMatches(req, c[k - |a|], d[k - |a|], full); }
    }
  }

  lemma {:induction false} AgreeingRowsMatch(req: Request, a: seq<GridRow>, b: seq<GridRow>, full: seq<Event>,
                                             times: seq<int>)
    requires RowsAgree(req, a, full, times) && RowsAgree(req, b, full, times)
    ensures RowsMatch(req, a, b, full)
    decreases |times|
  {
    if times != [] {
      var front, g := times[..|times| - 1], times[|times| - 1];
      var m, n := |a| - |req.symbols|, |b| - |req.symbols|;
      AgreeingRowsMatch(req, a[..m], b[..n], full, front);
      BlocksMatch(req, a[m..], b[n..], full, g);
      RowsMatchJoin(req, a, b, m, n, full);
    }
  }

  /** Partition invariance. Cut a chronological stream at any points and chain the runs
      through their carries: their rows, concatenated, match those of one uncut run. */
  lemma ChainMatchesUncut(req: Request, c: Chain, part: Partition, uncut: Output)
    requires Cut(c) && Chained(req, c) && Chronological(Stream(c)) && Carriable(Stream(c))
    requires part.emitStart == StartOf(c) && part.emitEnd == EndOf(c)
    requires WellFormed(req, part) && Outcome(req, part, NO_CARRY, Stream(c), Ok(uncut))
    ensures RowsMatch(req, ChainRows(c), uncut.rows, Stream(c))
  {
    ChainedRan(req, c);
    ChainRefines(req, c);
    OnePassRefinement(req, part, Stream(c), Ok(uncut));
    AgreeingRowsMatch(req, ChainRows(c), uncut.rows, Stream(c), Times(req.grid, part.emitStart, part.emitEnd));
  }

  lemma PieceTimes(req: Request, start: int, end: int, lo: int, hi: int)
    requires req.grid.step > 0 && start <= lo <= hi <= end
    ensures |Times(req.grid, lo, hi)| * |req.symbols| <= |Times(req.grid, start, end)| * |req.symbols|
    ensures OffMissing(req.missing, Times(req.grid, start, end)) ==> OffMissing(req.missing, Times(req.grid, lo, hi))
  {
    TimesTile(req.grid, start, lo - 1, end);
    TimesTile(req.grid, lo, hi, end);
    var all, inner := Times(req.grid, start, end), Times(req.grid, lo, hi);
    var skipped := |Times(req.grid, start, lo - 1)|;
    assert forall i :: 0 <= i < |inner| ==> inner[i] == all[skipped + i];
    ProductAtMost(|inner|, |all|, |req.symbols|);
  }

  lemma ProductAtMost(a: nat, b: nat, n: nat)
    requires a <= b
    ensures a * n <= b * n
  {
  }

  lemma PieceEvents(missing: seq<int>, full: seq<Event>, before: seq<Event>, events: seq<Event>, after: seq<Event>,
                    end: int, t: int)
    requires full == before + events + after && NoLater(full, end) && EventsOffMissing(missing, UpTo(full, end))
    ensures EventsOffMissing(missing, UpTo(events, t))
  {
    UpToEverything(full, end);
    UpToPrefix(events, t);
    assert forall i :: 0 <= i < |events| ==> events[i] == full[|before| + i];
  }

  /** Cutting never makes a run fail: if the uncut run succeeds, so does a run over any piece
      with enough overlap. */
  lemma PieceSucceeds(req: Request, part: Partition, full: seq<Event>, piece: Partition, before: seq<Event>,
                      events: seq<Event>, after: seq<Event>)
    requires WellFormed(req, part) && WellFormed(req, piece) && Failure(req, part, full) == None
    requires part.emitStart <= piece.emitStart && piece.emitEnd <= part.emitEnd && piece.overlap >= Lookback(req.spec)
    requires full == before + events + after && NoLater(full, part.emitEnd)
    ensures Failure(req, piece, events) == None
  {
    PieceTimes(req, part.emitStart, part.emitEnd, piece.emitStart, piece.emitEnd);
    PieceEvents(req.missing, full, before, events, after, part.emitEnd, piece.emitEnd);
  }
}
