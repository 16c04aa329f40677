/** What the sweep's rows mean in terms of the full history, and why cutting a stream into
    partitions changes nothing. */
module CausalPartitions {
  import opened Results
  import opened CausalFrontier
  import opened CausalIndex
  import opened CausalRolling
  import opened CausalEvents
  import opened CausalGrid

  const NO_CARRY := Carry([], [])

  // ---------------------------------------------------------------------------------
  // Histories
  // ---------------------------------------------------------------------------------

  function ObsOf(events: seq<Event>): seq<Observation> {
    if events == [] then [] else ObsOf(events[..|events| - 1]) + [Obs(events[|events| - 1])]
  }

  /** The trades of one symbol, in stream order. */
  function TradesOf(events: seq<Event>, symbol: int): seq<Trade> {
    if events == [] then []
    else
      var last := events[|events| - 1];
      TradesOf(events[..|events| - 1], symbol) +
      if last.Traded? && last.trade.symbol == symbol then [last.trade] else []
  }

  lemma SnocHistory(events: seq<Event>, e: Event, symbol: int)
    ensures ObsOf(events + [e]) == ObsOf(events) + [Obs(e)]
    ensures TradesOf(events + [e], symbol) ==
      if e.Traded? && e.trade.symbol == symbol then TradesOf(events, symbol) + [e.trade] else TradesOf(events, symbol)
  {
    assert (events + [e])[..|events|] == events;
  }

  /** The state stands for a history: exact frontiers, and windows that lack only trades
      below `limit`. */
  ghost predicate Represents(req: Request, st: SweepState, history: seq<Event>, limit: int) {
    && Indexes(req.missing, st.index, ObsOf(history))
    && st.watermark <= limit
    && forall s :: s in req.symbols ==> s in st.windows && KeptFrom(TradesOf(history, s), st.windows[s], limit)
  }

  lemma RepresentsWeaker(req: Request, st: SweepState, history: seq<Event>, limit: int, more: int)
    requires Represents(req, st, history, limit) && limit <= more
    ensures Represents(req, st, history, more)
  {
    forall s | s in req.symbols ensures KeptFrom(TradesOf(history, s), st.windows[s], more) {
      KeptWeaker(TradesOf(history, s), st.windows[s], limit, more);
    }
  }

  lemma StepKeepsWindow(req: Request, part: Partition, st: SweepState, history: seq<Event>, e: Event, limit: int,
                        s: int)
    requires Represents(req, st, history, limit) && s in req.symbols
    requires ScanStart(req, part) <= limit && TimeOf(e) - Lookback(req.spec) <= limit
    ensures var next := Step(req, part, st, e);
      s in next.windows && KeptFrom(TradesOf(history + [e], s), next.windows[s], limit)
  {
    SnocHistory(history, e, s);
    if e.Traded? && e.trade.symbol == s {
      IngestedKept(TradesOf(history, s), st.windows[s], limit, e.trade, Watermark(req, part, st.watermark, e.trade));
    }
  }

  lemma StepRepresents(req: Request, part: Partition, st: SweepState, history: seq<Event>, e: Event, limit: int)
    requires Represents(req, st, history, limit)
    requires ScanStart(req, part) <= limit && TimeOf(e) - Lookback(req.spec) <= limit
    ensures Represents(req, Step(req, part, st, e), history + [e], limit)
  {
    SnocHistory(history, e, 0);
    ObservedIndexes(req.missing, st.index, ObsOf(history), Obs(e));
    forall s | s in req.symbols
      ensures var next := Step(req, part, st, e);
        s in next.windows && KeptFrom(TradesOf(history + [e], s), next.windows[s], limit)
    {
      StepKeepsWindow(req, part, st, history, e, limit, s);
    }
  }

  ghost predicate NoLater(events: seq<Event>, t: int) {
    forall i :: 0 <= i < |events| ==> TimeOf(events[i]) <= t
  }

  lemma AfterOneMore(req: Request, part: Partition, st: SweepState, history: seq<Event>, front: seq<Event>,
                     last: Event, limit: int)
    requires Represents(req, After(req, part, st, front), history + front, limit)
    requires ScanStart(req, part) <= limit && TimeOf(last) - Lookback(req.spec) <= limit
    ensures Represents(req, After(req, part, st, front + [last]), history + (front + [last]), limit)
  {
    StepRepresents(req, part, After(req, part, st, front), history + front, last, limit);
    assert (front + [last])[..|front|] == front;
    assert history + (front + [last]) == history + front + [last];
  }

  lemma {:induction false} AfterRepresents(req: Request, part: Partition, st: SweepState, history: seq<Event>,
                                           events: seq<Event>, limit: int)
    requires Represents(req, st, history, limit) && ScanStart(req, part) <= limit
    requires NoLater(events, limit + Lookback(req.spec))
    ensures Represents(req, After(req, part, st, events), history + events, limit)
  {
    if events == [] {
      assert history + events == history;
    } else {
      var front, last := events[..|events| - 1], events[|events| - 1];
      AfterRepresents(req, part, st, history, front, limit);
      AfterOneMore(req, part, st, history, front, last, limit);
      assert events == front + [last];
    }
  }

  // ---------------------------------------------------------------------------------
  // What a row means
  // ---------------------------------------------------------------------------------

  /** A row agrees with direct evaluation over a full history. */
  ghost predicate RowAgrees(req: Request, row: GridRow, history: seq<Event>, g: int, symbol: int) {
    && row.symbol == symbol && row.time == g
    && row.cutoff == CutoffOf(req.missing, ObsOf(history), g)
    && FactsAgree(req.spec, row.facts, TradesOf(history, symbol), g, row.cutoff)
  }

  lemma RowRefines(req: Request, st: SweepState, history: seq<Event>, g: int, symbol: int)
    requires Represents(req, st, history, g - Lookback(req.spec)) && symbol in req.symbols
    ensures RowAgrees(req, RowAt(req, st, g, symbol), history, g, symbol)
  {
    var trades, window := TradesOf(history, symbol), st.windows[symbol];
    IndexCutoff(req.missing, st.index, ObsOf(history), g);
    var dropped := trades[..|trades| - |window|];
    assert trades == dropped + window;
    FactsKept(req.spec, dropped, window, g, CutoffAt(req.missing, st.index, g));
  }

  /** Rows in blocks of `n`, one for each time, each passing `ok` at its time. */
  ghost predicate Blocks(ok: (seq<GridRow>, int) -> bool, n: nat, rows: seq<GridRow>, times: seq<int>)
    decreases |times|
  {
    if times == [] then rows == []
    else
      var m := |rows| - n;
      m >= 0 && Blocks(ok, n, rows[..m], times[..|times| - 1]) && ok(rows[m..], times[|times| - 1])
  }

  lemma BlocksMore(ok: (seq<GridRow>, int) -> bool, n: nat, rows: seq<GridRow>, times: seq<int>, block: seq<GridRow>,
                   g: int)
    requires Blocks(ok, n, rows, times) && |block| == n && ok(block, g)
    ensures Blocks(ok, n, rows + block, times + [g])
  {
    var all := rows + block;
    assert (times + [g])[..|times|] == times && all[..|rows|] == rows && all[|rows|..] == block;
  }

  lemma {:induction false} BlocksConcat(ok: (seq<GridRow>, int) -> bool, n: nat, a: seq<GridRow>, b: seq<GridRow>,
                                        s: seq<int>, t: seq<int>)
    requires Blocks(ok, n, a, s) && Blocks(ok, n, b, t)
    ensures Blocks(ok, n, a + b, s + t)
    decreases |t|
  {
    if t == [] {
      assert a + b == a && s + t == s;
    } else {
      var front, g, m := t[..|t| - 1], t[|t| - 1], |b| - n;
      BlocksConcat(ok, n, a, b[..m], s, front);
      BlocksMore(ok, n, a + b[..m], s + front, b[m..], g);
      assert a + b == (a + b[..m]) + b[m..];
      assert s + t == (s + front) + [g];
    }
  }

  lemma {:induction false} BlocksWeaken(ok: (seq<GridRow>, int) -> bool, weak: (seq<GridRow>, int) -> bool, n: nat,
                                        rows: seq<GridRow>, times: seq<int>)
    requires Blocks(ok, n, rows, times)
    requires forall block, i :: 0 <= i < |times| && ok(block, times[i]) ==> weak(block, times[i])
    ensures Blocks(weak, n, rows, times)
    decreases |times|
  {
    if times != [] {
      var front, m := times[..|times| - 1], |rows| - n;
      assert forall i :: 0 <= i < |front| ==> front[i] == times[i];
      BlocksWeaken(ok, weak, n, rows[..m], front);
    }
  }

  ghost predicate BlockAgrees(req: Request, block: seq<GridRow>, history: seq<Event>, g: int) {
    && |block| == |req.symbols|
    && forall k :: 0 <= k < |block| ==> RowAgrees(req, block[k], history, g, req.symbols[k])
  }

  /** Accepts the rows of one time that agree with direct evaluation over everything up to it. */
  ghost function Judge(req: Request, full: seq<Event>): (seq<GridRow>, int) -> bool {
    (block, g) => BlockAgrees(req, block, UpTo(full, g), g)
  }

  /** The rows of a run, one block of symbols for each grid time, each agreeing with direct
      evaluation over everything up to that time. */
  ghost predicate RowsAgree(req: Request, rows: seq<GridRow>, full: seq<Event>, times: seq<int>) {
    Blocks(Judge(req, full), |req.symbols|, rows, times)
  }

  lemma {:induction false} UpToAfterHistory(history: seq<Event>, events: seq<Event>, t: int)
    requires NoLater(history, t)
    ensures UpTo(history + events, t) == history + UpTo(events, t)
  {
    if history == [] {
      assert history + events == events;
    } else {
      assert (history + events)[1..] == history[1..] + events;
      UpToAfterHistory(history[1..], events, t);
    }
  }

  lemma UpToBeforeMore(events: seq<Event>, more: seq<Event>, t: int)
    requires forall i :: 0 <= i < |more| ==> TimeOf(more[i]) > t
    ensures UpTo(events + more, t) == UpTo(events, t)
  {
    UpToPrefix(events, t);
    var n := |UpTo(events, t)|;
    var all := events + more;
    assert all[..n] == events[..n];
    UpToIs(all, n, t);
  }

  ghost predicate ReadyFor(req: Request, part: Partition, st: SweepState, history: seq<Event>, g: int) {
    && part.emitStart <= g
    && Represents(req, st, history, g - Lookback(req.spec))
    && NoLater(history, g)
  }

  lemma EmitRefines(req: Request, st: SweepState, history: seq<Event>, g: int)
    requires Represents(req, st, history, g - Lookback(req.spec))
    ensures BlockAgrees(req, EmitAt(req, st, g), history, g)
  {
    forall k | 0 <= k < |req.symbols|
      ensures RowAgrees(req, RowAt(req, st, g, req.symbols[k]), history, g, req.symbols[k])
    {
      var symbol := req.symbols[k];
      assert symbol in req.symbols;
      RowRefines(req, st, history, g, symbol);
    }
  }

  lemma UpToNoLater(events: seq<Event>, t: int)
    ensures NoLater(UpTo(events, t), t)
  {
    UpToPrefix(events, t);
  }

  lemma StateUpTo(req: Request, part: Partition, st0: SweepState, history: seq<Event>, events: seq<Event>, g: int,
                  limit: int)
    requires ReadyFor(req, part, st0, history, g) && limit == g - Lookback(req.spec)
    ensures Represents(req, After(req, part, st0, UpTo(events, g)), history + UpTo(events, g), limit)
  {
    var seen := UpTo(events, g);
    UpToNoLater(events, g);
    assert NoLater(seen, limit + Lookback(req.spec));
    AfterRepresents(req, part, st0, history, seen, limit);
  }

  lemma {:induction false} RowsRefine(req: Request, part: Partition, st0: SweepState, history: seq<Event>,
                                      events: seq<Event>, times: seq<int>)
    requires forall i :: 0 <= i < |times| ==> ReadyFor(req, part, st0, history, times[i])
    ensures RowsAgree(req, RowsOver(req, part, st0, events, times), history + events, times)
  {
    if times != [] {
      var front, g := times[..|times| - 1], times[|times| - 1];
      RowsRefine(req, part, st0, history, events, front);
      UpToAfterHistory(history, events, g);
      StateUpTo(req, part, st0, history, events, g, g - Lookback(req.spec));
      EmitRefines(req, After(req, part, st0, UpTo(events, g)), history + UpTo(events, g), g);
      BlocksMore(Judge(req, history + events), |req.symbols|, RowsOver(req, part, st0, events, front), front,
                 EmitAt(req, After(req, part, st0, UpTo(events, g)), g), g);
      assert times == front + [g];
    }
  }

  lemma StartsEmpty(req: Request, part: Partition, limit: int)
    requires ScanStart(req, part) <= limit
    ensures Represents(req, Start(req, part, NO_CARRY), [], limit)
  {
    forall s | s in req.symbols
      ensures s in EmptyWindows(req.symbols) && KeptFrom(TradesOf([], s), EmptyWindows(req.symbols)[s], limit)
    {
      EmptyWindowsAre(req.symbols, s);
    }
  }

  lemma ReadyLater(req: Request, part: Partition, st: SweepState, history: seq<Event>, g: int)
    requires ReadyFor(req, part, st, history, part.emitStart) && part.emitStart <= g
    ensures ReadyFor(req, part, st, history, g)
  {
    var back := Lookback(req.spec);
    RepresentsWeaker(req, st, history, part.emitStart - back, g - back);
    NoLaterWeaker(history, part.emitStart, g);
  }

  lemma NoLaterWeaker(events: seq<Event>, t: int, u: int)
    requires NoLater(events, t) && t <= u
    ensures NoLater(events, u)
  {
  }

  /** The rows of a run that continues from a represented history. */
  lemma RunRefines(req: Request, part: Partition, st0: SweepState, history: seq<Event>, events: seq<Event>)
    requires req.grid.step > 0 && ReadyFor(req, part, st0, history, part.emitStart)
    ensures var times := Times(req.grid, part.emitStart, part.emitEnd);
      RowsAgree(req, RowsOver(req, part, st0, events, times), history + events, times)
  {
    var times := Times(req.grid, part.emitStart, part.emitEnd);
    TimesWithin(req.grid, part.emitStart, part.emitEnd);
    forall i | 0 <= i < |times| ensures ReadyFor(req, part, st0, history, times[i]) {
      ReadyLater(req, part, st0, history, times[i]);
    }
    RowsRefine(req, part, st0, history, events, times);
  }

  lemma FreshRunRefines(req: Request, part: Partition, events: seq<Event>)
    requires req.grid.step > 0
    ensures var times := Times(req.grid, part.emitStart, part.emitEnd);
      RowsAgree(req, RowsOver(req, part, Start(req, part, NO_CARRY), events, times), events, times)
  {
    StartsEmpty(req, part, part.emitStart - Lookback(req.spec));
    RunRefines(req, part, Start(req, part, NO_CARRY), [], events);
    assert [] + events == events;
  }

  /** One-pass refinement: every row of a run that starts fresh equals direct evaluation
      over all events up to its time and none later. The cutoff is the frontier of the row's
      segment, trailing sums and counts are over the full history, eviction or not, and an
      as-of fact is the full-history one whenever its winner is within the look back. */
  lemma OnePassRefinement(req: Request, part: Partition, events: seq<Event>, r: Result<Output, GridError>)
    requires WellFormed(req, part) && Outcome(req, part, NO_CARRY, events, r) && r.Ok?
    ensures RowsAgree(req, r.value.rows, events, Times(req.grid, part.emitStart, part.emitEnd))
  {
    FreshRunRefines(req, part, events);
  }

  /** What a successful run did. */
  ghost predicate Ran(req: Request, part: Partition, carry: Carry, events: seq<Event>, output: Output)
    requires req.grid.step > 0
  {
    && part.emitStart <= part.emitEnd && part.overlap >= Lookback(req.spec)
    && output.rows == RowsOver(req, part, Start(req, part, carry), events,
        Times(req.grid, part.emitStart, part.emitEnd))
    && CarryFrom(req, part, Final(req, part, carry, events), output.carry)
  }

  lemma SuccessRan(req: Request, part: Partition, carry: Carry, events: seq<Event>, output: Output)
    requires WellFormed(req, part) && Outcome(req, part, carry, events, Ok(output))
    ensures Ran(req, part, carry, events, output)
  {
  }
}
