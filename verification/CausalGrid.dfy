/** The one-pass sweep of one partition: observe and ingest events in time order, emit a row
    for each grid time, and hand the frontiers and recent trades on. */
module CausalGrid {
  import opened Results
  import opened Sequences
  import opened CausalFrontier
  import opened CausalIndex
  import opened CausalRolling
  import opened CausalEvents

  datatype Partition = Partition(emitStart: int, emitEnd: int, overlap: nat)

  datatype Request = Request(symbols: seq<int>, grid: EmitGrid, spec: FactSpec, missing: seq<int>, maxRows: nat)

  /** What one partition hands to the next. No incoming carry is an empty one. */
  datatype Carry = Carry(frontiers: seq<CompactRow>, trades: seq<Trade>)

  datatype GridRow = GridRow(symbol: int, time: int, cutoff: Option<int>, facts: Facts)

  datatype Output = Output(rows: seq<GridRow>, carry: Carry)

  /** What the request validators guarantee. */
  ghost predicate WellFormed(req: Request, part: Partition) {
    req.symbols != [] && req.grid.step > 0 && Ascending(req.missing) && part.emitStart <= part.emitEnd
  }

  function ScanStart(req: Request, part: Partition): int {
    part.emitStart - Lookback(req.spec)
  }

  // ---------------------------------------------------------------------------------
  // The sweep as a fold over events
  // ---------------------------------------------------------------------------------

  datatype SweepState = SweepState(index: map<int, Frontier>, windows: map<int, seq<Trade>>, watermark: int)

  function IngestAt(windows: map<int, seq<Trade>>, t: Trade, watermark: int): map<int, seq<Trade>> {
    if t.symbol in windows then windows[t.symbol := Ingested(windows[t.symbol], t, watermark)] else windows
  }

  function Loaded(windows: map<int, seq<Trade>>, trades: seq<Trade>, watermark: int): map<int, seq<Trade>> {
    if trades == [] then windows
    else IngestAt(Loaded(windows, trades[..|trades| - 1], watermark), trades[|trades| - 1], watermark)
  }

  function EmptyWindows(symbols: seq<int>): map<int, seq<Trade>> {
    if symbols == [] then map[] else EmptyWindows(symbols[..|symbols| - 1])[symbols[|symbols| - 1] := []]
  }

  lemma {:induction false} EmptyWindowsAre(symbols: seq<int>, s: int)
    ensures s in EmptyWindows(symbols) <==> s in symbols
    ensures s in EmptyWindows(symbols) ==> EmptyWindows(symbols)[s] == []
  {
    if symbols != [] { EmptyWindowsAre(symbols[..|symbols| - 1], s); }
  }

  function Start(req: Request, part: Partition, carry: Carry): SweepState {
    var scanStart := ScanStart(req, part);
    SweepState(Imported(carry.frontiers), Loaded(EmptyWindows(req.symbols), carry.trades, scanStart), scanStart)
  }

  /** Trades before the scan start evict up to the scan start and leave the watermark alone. */
  function Watermark(req: Request, part: Partition, watermark: int, t: Trade): int {
    if t.time < ScanStart(req, part) then ScanStart(req, part) else Max(watermark, t.time - Lookback(req.spec))
  }

  function Step(req: Request, part: Partition, st: SweepState, e: Event): SweepState {
    var index := ObservedIn(req.missing, st.index, Obs(e));
    if e.Traded? && e.trade.symbol in st.windows then
      var w := Watermark(req, part, st.watermark, e.trade);
      var next := if e.trade.time < ScanStart(req, part) then st.watermark else w;
      SweepState(index, IngestAt(st.windows, e.trade, w), next)
    else SweepState(index, st.windows, st.watermark)
  }

  function After(req: Request, part: Partition, st: SweepState, events: seq<Event>): SweepState {
    if events == [] then st
    else Step(req, part, After(req, part, st, events[..|events| - 1]), events[|events| - 1])
  }

  /** The events up to the first one later than `t`. */
  function UpTo(events: seq<Event>, t: int): seq<Event> {
    if events == [] || TimeOf(events[0]) > t then [] else [events[0]] + UpTo(events[1..], t)
  }

  lemma {:induction false} UpToPrefix(events: seq<Event>, t: int)
    ensures |UpTo(events, t)| <= |events| && UpTo(events, t) == events[..|UpTo(events, t)|]
    ensures forall i :: 0 <= i < |UpTo(events, t)| ==> TimeOf(events[i]) <= t
    ensures |UpTo(events, t)| < |events| ==> TimeOf(events[|UpTo(events, t)|]) > t
  {
    if events != [] && TimeOf(events[0]) <= t {
      UpToPrefix(events[1..], t);
      var n := |UpTo(events[1..], t)|;
      assert events[..n + 1] == [events[0]] + events[1..][..n];
    }
  }

  lemma UpToIs(events: seq<Event>, i: nat, t: int)
    requires i <= |events| && forall k :: 0 <= k < i ==> TimeOf(events[k]) <= t
    requires i < |events| ==> TimeOf(events[i]) > t
    ensures UpTo(events, t) == events[..i]
  {
    UpToPrefix(events, t);
    var n := |UpTo(events, t)|;
    assert n == i;
  }

  /** In a stream ordered by time, exactly the events no later than `t`. */
  lemma UpToIsAll(events: seq<Event>, t: int, i: nat)
    requires Chronological(events) && i < |events|
    ensures i < |UpTo(events, t)| <==> TimeOf(events[i]) <= t
  {
    UpToPrefix(events, t);
  }

  function WindowOf(st: SweepState, symbol: int): seq<Trade> {
    if symbol in st.windows then st.windows[symbol] else []
  }

  function RowAt(req: Request, st: SweepState, g: int, symbol: int): GridRow {
    var cutoff := CutoffAt(req.missing, st.index, g);
    GridRow(symbol, g, cutoff, FactsOf(req.spec, WindowOf(st, symbol), g, cutoff))
  }

  function EmitAt(req: Request, st: SweepState, g: int): seq<GridRow> {
    seq(|req.symbols|, i requires 0 <= i < |req.symbols| => RowAt(req, st, g, req.symbols[i]))
  }

  /** Each grid time sees the state after exactly the events up to it. */
  function RowsOver(req: Request, part: Partition, st: SweepState, events: seq<Event>, times: seq<int>): seq<GridRow> {
    if times == [] then []
    else
      var g := times[|times| - 1];
      RowsOver(req, part, st, events, times[..|times| - 1]) + EmitAt(req, After(req, part, st, UpTo(events, g)), g)
  }

  /** The symbols with rolling state, in the order it was created. */
  function Distinct(symbols: seq<int>): seq<int> {
    if symbols == [] then []
    else
      var front, last := symbols[..|symbols| - 1], symbols[|symbols| - 1];
      if last in front then Distinct(front) else Distinct(front) + [last]
  }

  function Recent(trades: seq<Trade>, since: int): seq<Trade> {
    if trades == [] then []
    else
      var last := trades[|trades| - 1];
      Recent(trades[..|trades| - 1], since) + if last.time >= since then [last] else []
  }

  function CarryTrades(st: SweepState, symbols: seq<int>, since: int): seq<Trade> {
    if symbols == [] then []
    else CarryTrades(st, symbols[..|symbols| - 1], since) + Recent(WindowOf(st, symbols[|symbols| - 1]), since)
  }

  ghost predicate OffMissing(missing: seq<int>, times: seq<int>) {
    forall i :: 0 <= i < |times| ==> Day(times[i]) !in missing
  }

  ghost predicate EventsOffMissing(missing: seq<int>, events: seq<Event>) {
    forall i :: 0 <= i < |events| ==> Day(TimeOf(events[i])) !in missing
  }

  /** The error a run ends in, if any. */
  ghost function Failure(req: Request, part: Partition, events: seq<Event>): Option<GridError>
    requires WellFormed(req, part)
  {
    var times := Times(req.grid, part.emitStart, part.emitEnd);
    if part.overlap < Lookback(req.spec) then Some(OverlapTooShort)
    else if |times| * |req.symbols| > req.maxRows then Some(TooManyRows)
    else if OffMissing(req.missing, times) && EventsOffMissing(req.missing, UpTo(events, part.emitEnd)) then None
    else Some(HardGap)
  }

  /** The state after every event of the partition. */
  function Final(req: Request, part: Partition, carry: Carry, events: seq<Event>): SweepState {
    After(req, part, Start(req, part, carry), UpTo(events, part.emitEnd))
  }

  /** The carry handed on from a final state. */
  ghost predicate CarryFrom(req: Request, part: Partition, last: SweepState, carry: Carry) {
    && IsExport(last.index, carry.frontiers)
    && carry.trades == CarryTrades(last, Distinct(req.symbols), part.emitEnd - part.overlap)
  }

  /** The whole outcome of one run. */
  ghost predicate Outcome(req: Request, part: Partition, carry: Carry, events: seq<Event>, r: Result<Output, GridError>)
    requires WellFormed(req, part)
  {
    var failure := Failure(req, part, events);
    if failure.Some? then r == Err(failure.value)
    else
      && r.Ok?
      && r.value.rows == RowsOver(req, part, Start(req, part, carry), events,
          Times(req.grid, part.emitStart, part.emitEnd))
      && CarryFrom(req, part, Final(req, part, carry, events), r.value.carry)
  }

  // ---------------------------------------------------------------------------------
  // The mutable rolling state
  // ---------------------------------------------------------------------------------

  ghost predicate RollingOk(spec: FactSpec, rolling: map<int, SymbolRolling>) {
    && (forall s :: s in rolling ==> rolling[s].spec == spec)
    && forall s, t :: s in rolling && t in rolling && s != t ==> rolling[s] != rolling[t]
  }

  ghost function Windows(rolling: map<int, SymbolRolling>): map<int, seq<Trade>>
    reads rolling.Values
  {
    map s | s in rolling :: rolling[s].events
  }

  method NewRolling(spec: FactSpec, symbols: seq<int>) returns (rolling: map<int, SymbolRolling>)
    ensures RollingOk(spec, rolling) && fresh(rolling.Values)
    ensures Windows(rolling) == EmptyWindows(symbols)
  {
    rolling := map[];
    for i := 0 to |symbols|
      invariant RollingOk(spec, rolling) && fresh(rolling.Values)
      invariant Windows(rolling) == EmptyWindows(symbols[..i])
    {
      assert symbols[..i + 1][..i] == symbols[..i];
      var created := new SymbolRolling(spec);
      ghost var before := rolling;
      rolling := rolling[symbols[i] := created];
      assert rolling.Values <= before.Values + {created};
    }
    assert symbols[..|symbols|] == symbols;
  }

  method IngestTrade(spec: FactSpec, rolling: map<int, SymbolRolling>, t: Trade, watermark: int)
    requires RollingOk(spec, rolling)
    modifies rolling.Values
    ensures Windows(rolling) == IngestAt(old(Windows(rolling)), t, watermark)
  {
    ghost var before := Windows(rolling);
    if t.symbol in rolling {
      rolling[t.symbol].Ingest(t, watermark);
      forall s | s in rolling && s != t.symbol ensures rolling[s].events == before[s] {
        assert rolling[s] != rolling[t.symbol];
      }
      assert Windows(rolling)[t.symbol] == Ingested(before[t.symbol], t, watermark);
    }
    assert Windows(rolling) == IngestAt(before, t, watermark);
  }

  method LoadCarry(spec: FactSpec, rolling: map<int, SymbolRolling>, trades: seq<Trade>, scanStart: int)
    requires RollingOk(spec, rolling)
    modifies rolling.Values
    ensures Windows(rolling) == Loaded(old(Windows(rolling)), trades, scanStart)
  {
    for i := 0 to |trades|
      invariant Windows(rolling) == Loaded(old(Windows(rolling)), trades[..i], scanStart)
    {
      assert trades[..i + 1][..i] == trades[..i];
      IngestTrade(spec, rolling, trades[i], scanStart);
    }
    assert trades[..|trades|] == trades;
  }

  ghost function StateOf(causal: Index, rolling: map<int, SymbolRolling>, watermark: int): SweepState
    reads causal, causal.segments.Values, rolling.Values
  {
    SweepState(causal.View(), Windows(rolling), watermark)
  }

  /** Ingests a trade of a target symbol under the watermark of its time. */
  method TakeTrade(req: Request, part: Partition, rolling: map<int, SymbolRolling>, watermark: int, t: Trade)
    returns (w: int)
    requires RollingOk(req.spec, rolling) && t.symbol in rolling
    modifies rolling.Values
    ensures Windows(rolling) == IngestAt(old(Windows(rolling)), t, Watermark(req, part, watermark, t))
    ensures w == if t.time < ScanStart(req, part) then watermark else Watermark(req, part, watermark, t)
  {
    var scanStart := ScanStart(req, part);
    if t.time < scanStart {
      IngestTrade(req.spec, rolling, t, scanStart);
      w := watermark;
    } else {
      w := Max(watermark, t.time - Lookback(req.spec));
      IngestTrade(req.spec, rolling, t, w);
    }
  }

  /** Observes one event and ingests it if it is a trade of a target symbol. */
  method TakeEvent(req: Request, part: Partition, causal: Index, rolling: map<int, SymbolRolling>, watermark: int,
                   e: Event)
    returns (r: Result<int, GridError>)
    requires causal.Valid() && causal.missing == req.missing && RollingOk(req.spec, rolling)
    modifies causal, causal.segments.Values, rolling.Values
    ensures causal.Valid() && fresh(causal.segments.Values - old(causal.segments.Values))
    ensures r.Err? <==> Day(TimeOf(e)) in req.missing
    ensures r.Err? ==> r.error == HardGap
    ensures r.Ok? ==> StateOf(causal, rolling, r.value) == Step(req, part, old(StateOf(causal, rolling, watermark)), e)
  {
    ghost var before := StateOf(causal, rolling, watermark);
    var observed := causal.Observe(Obs(e));
    assert Windows(rolling) == before.windows;
    if observed.Err? { return Err(observed.error); }
    ghost var index := causal.View();
    if e.Traded? && e.trade.symbol in rolling {
      var w := TakeTrade(req, part, rolling, watermark, e.trade);
      assert causal.View() == index;
      return Ok(w);
    }
    r := Ok(watermark);
  }

  /** Appends the rows of one grid time. The row limit, checked beforehand for the whole run,
      is never hit here. */
  method EmitGridRow(req: Request, causal: Index, rolling: map<int, SymbolRolling>, ghost watermark: int, g: int,
                     rows: seq<GridRow>)
    returns (r: Result<seq<GridRow>, GridError>)
    requires causal.Valid() && causal.missing == req.missing && RollingOk(req.spec, rolling)
    requires req.symbols != [] && |rows| + |req.symbols| <= req.maxRows
    requires forall s :: s in req.symbols ==> s in rolling
    ensures r == if Day(g) in req.missing then Err(HardGap)
                 else Ok(rows + EmitAt(req, StateOf(causal, rolling, watermark), g))
  {
    if |rows| >= req.maxRows {
      assert false;
    }
    var cutoff := causal.CutoffFor(g);
    if cutoff.Err? { return Err(cutoff.error); }
    ghost var st := StateOf(causal, rolling, watermark);
    var added: seq<GridRow> := [];
    for i := 0 to |req.symbols|
      invariant |added| == i
      invariant forall k :: 0 <= k < i ==> added[k] == RowAt(req, st, g, req.symbols[k])
    {
      if |rows + added| >= req.maxRows {
        assert false;
      }
      var symbol := req.symbols[i];
      var facts := rolling[symbol].FactsAt(g, cutoff.value);
      added := added + [GridRow(symbol, g, cutoff.value, facts)];
    }
    assert added == EmitAt(req, st, g);
    r := Ok(rows + added);
  }

  method TradeCarryRows(symbols: seq<int>, rolling: map<int, SymbolRolling>, since: int) returns (trades: seq<Trade>)
    requires forall s :: s in symbols ==> s in rolling
    ensures forall st: SweepState :: st.windows == Windows(rolling) ==> trades == CarryTrades(st, symbols, since)
  {
    trades := [];
    ghost var st := SweepState(map[], Windows(rolling), 0);
    for i := 0 to |symbols|
      invariant trades == CarryTrades(st, symbols[..i], since)
    {
      var symbol := symbols[i];
      assert symbol in symbols;
      var events := rolling[symbol].events;
      ghost var before := trades;
      for k := 0 to |events|
        invariant trades == before + Recent(events[..k], since)
      {
        assert events[..k + 1][..k] == events[..k];
        if events[k].time >= since {
          trades := trades + [events[k]];
        }
      }
      assert events[..|events|] == events;
      assert symbols[..i + 1][..i] == symbols[..i];
    }
    assert symbols[..|symbols|] == symbols;
    forall other: SweepState | other.windows == Windows(rolling) ensures trades == CarryTrades(other, symbols, since) {
      CarryTradesOfWindows(st, other, symbols, since);
    }
  }

  lemma {:induction false} CarryTradesOfWindows(a: SweepState, b: SweepState, symbols: seq<int>, since: int)
    requires a.windows == b.windows
    ensures CarryTrades(a, symbols, since) == CarryTrades(b, symbols, since)
  {
    if symbols != [] { CarryTradesOfWindows(a, b, symbols[..|symbols| - 1], since); }
  }

  // ---------------------------------------------------------------------------------
  // The sweep
  // ---------------------------------------------------------------------------------

  /** After `i` events and `gi` grid times. */
  ghost predicate Progress(req: Request, part: Partition, st0: SweepState, events: seq<Event>, i: nat,
                           times: seq<int>, gi: nat, rows: seq<GridRow>, st: SweepState) {
    && i <= |events| && gi <= |times|
    && st == After(req, part, st0, events[..i])
    && rows == RowsOver(req, part, st0, events, times[..gi])
    && |rows| == gi * |req.symbols|
    && (forall k :: 0 <= k < i ==> TimeOf(events[k]) <= part.emitEnd && Day(TimeOf(events[k])) !in req.missing)
    && (forall k :: 0 <= k < gi ==> Day(times[k]) !in req.missing)
    && forall k, j :: 0 <= k < i && gi <= j < |times| ==> TimeOf(events[k]) <= times[j]
  }

  lemma RowsFit(gi: nat, total: nat, n: nat)
    requires gi < total
    ensures gi * n + n <= total * n && (gi + 1) * n == gi * n + n
  {
    var rest := total - gi - 1;
    assert total * n == gi * n + n + rest * n;
  }

  lemma EmitStep(req: Request, part: Partition, st0: SweepState, events: seq<Event>, i: nat,
                 times: seq<int>, gi: nat, rows: seq<GridRow>, st: SweepState)
    requires Progress(req, part, st0, events, i, times, gi, rows, st) && gi < |times|
    requires Day(times[gi]) !in req.missing
    requires i < |events| ==> times[gi] < TimeOf(events[i])
    ensures Progress(req, part, st0, events, i, times, gi + 1, rows + EmitAt(req, st, times[gi]), st)
  {
    UpToIs(events, i, times[gi]);
    assert times[..gi + 1][..gi] == times[..gi];
    RowsFit(gi, |times|, |req.symbols|);
  }

  /** Emits the next grid time. */
  method EmitNext(req: Request, part: Partition, ghost st0: SweepState, ghost events: seq<Event>, ghost i: nat,
                  causal: Index, rolling: map<int, SymbolRolling>, ghost watermark: int,
                  times: seq<int>, gi: nat, rows: seq<GridRow>)
    returns (r: Result<seq<GridRow>, GridError>)
    requires causal.Valid() && causal.missing == req.missing && RollingOk(req.spec, rolling)
    requires req.symbols != [] && |times| * |req.symbols| <= req.maxRows
    requires forall s :: s in req.symbols ==> s in rolling
    requires Progress(req, part, st0, events, i, times, gi, rows, StateOf(causal, rolling, watermark))
    requires gi < |times| && (i < |events| ==> times[gi] < TimeOf(events[i]))
    ensures r.Err? ==> r.error == HardGap && Day(times[gi]) in req.missing
    ensures r.Ok? ==> Progress(req, part, st0, events, i, times, gi + 1, r.value, StateOf(causal, rolling, watermark))
  {
    RowsFit(gi, |times|, |req.symbols|);
    r := EmitGridRow(req, causal, rolling, watermark, times[gi], rows);
    if r.Ok? {
      EmitStep(req, part, st0, events, i, times, gi, rows, StateOf(causal, rolling, watermark));
    }
  }

  /** The grid times still to emit come after everything up to the next event when there is
      no bound, and otherwise up to the bound. */
  ghost predicate Bounded(events: seq<Event>, i: nat, times: seq<int>, gi: nat, until: Option<int>) {
    i < |events| ==>
      (if until.Some? then until.value == TimeOf(events[i])
       else forall k :: gi <= k < |times| ==> times[k] < TimeOf(events[i]))
  }

  /** Emits grid times while they are before the next event, or all of them at the end. */
  method EmitDue(req: Request, part: Partition, ghost st0: SweepState, ghost events: seq<Event>, ghost i: nat,
                 causal: Index, rolling: map<int, SymbolRolling>, ghost watermark: int,
                 times: seq<int>, gi: nat, rows: seq<GridRow>, until: Option<int>)
    returns (r: Result<(nat, seq<GridRow>), GridError>)
    requires causal.Valid() && causal.missing == req.missing && RollingOk(req.spec, rolling)
    requires req.symbols != [] && |times| * |req.symbols| <= req.maxRows
    requires forall s :: s in req.symbols ==> s in rolling
    requires Progress(req, part, st0, events, i, times, gi, rows, StateOf(causal, rolling, watermark))
    requires Bounded(events, i, times, gi, until)
    ensures r.Err? ==> r.error == HardGap && !OffMissing(req.missing, times)
    ensures r.Ok? ==>
      (gi <= r.value.0
       && Progress(req, part, st0, events, i, times, r.value.0, r.value.1, StateOf(causal, rolling, watermark))
       && (r.value.0 == |times| || (until.Some? && times[r.value.0] >= until.value)))
  {
    var index, out := gi, rows;
    while index < |times| && (until.None? || times[index] < until.value)
      invariant gi <= index <= |times|
      invariant Progress(req, part, st0, events, i, times, index, out, StateOf(causal, rolling, watermark))
    {
      var emitted := EmitNext(req, part, st0, events, i, causal, rolling, watermark, times, index, out);
      if emitted.Err? { return Err(emitted.error); }
      index, out := index + 1, emitted.value;
    }
    r := Ok((index, out));
  }

  lemma EventStep(req: Request, part: Partition, st0: SweepState, events: seq<Event>, i: nat,
                  times: seq<int>, gi: nat, rows: seq<GridRow>, st: SweepState)
    requires Progress(req, part, st0, events, i, times, gi, rows, st) && i < |events|
    requires TimeOf(events[i]) <= part.emitEnd && Day(TimeOf(events[i])) !in req.missing
    requires forall k :: gi <= k < |times| ==> TimeOf(events[i]) <= times[k]
    ensures Progress(req, part, st0, events, i + 1, times, gi, rows, Step(req, part, st, events[i]))
  {
    assert events[..i + 1][..i] == events[..i];
  }

  lemma GapSeen(req: Request, part: Partition, events: seq<Event>, i: nat)
    requires i < |events| && forall k :: 0 <= k <= i ==> TimeOf(events[k]) <= part.emitEnd
    requires Day(TimeOf(events[i])) in req.missing
    ensures !EventsOffMissing(req.missing, UpTo(events, part.emitEnd))
  {
    UpToPrefix(events, part.emitEnd);
    assert UpTo(events, part.emitEnd)[i] == events[i];
  }

  /** Before an event inside the scan, emits every grid time before it. */
  method EmitBefore(req: Request, part: Partition, ghost st0: SweepState, events: seq<Event>, i: nat,
                    causal: Index, rolling: map<int, SymbolRolling>, ghost watermark: int,
                    times: seq<int>, gi: nat, rows: seq<GridRow>)
    returns (r: Result<(nat, seq<GridRow>), GridError>)
    requires causal.Valid() && causal.missing == req.missing && RollingOk(req.spec, rolling)
    requires WellFormed(req, part) && |times| * |req.symbols| <= req.maxRows
    requires times == Times(req.grid, part.emitStart, part.emitEnd)
    requires forall s :: s in req.symbols ==> s in rolling
    requires Progress(req, part, st0, events, i, times, gi, rows, StateOf(causal, rolling, watermark))
    requires i < |events|
    ensures r.Err? ==> r.error == HardGap && !OffMissing(req.missing, times)
    ensures r.Ok? ==>
      (Progress(req, part, st0, events, i, times, r.value.0, r.value.1, StateOf(causal, rolling, watermark))
       && forall k :: r.value.0 <= k < |times| ==> TimeOf(events[i]) <= times[k])
  {
    TimesWithin(req.grid, part.emitStart, part.emitEnd);
    LookbackCovers(req.spec);
    if TimeOf(events[i]) < ScanStart(req, part) { return Ok((gi, rows)); }
    r := EmitDue(req, part, st0, events, i, causal, rolling, watermark, times, gi, rows, Some(TimeOf(events[i])));
  }

  /** Emits what is due before one event, then takes the event. */
  method SweepEvent(req: Request, part: Partition, ghost st0: SweepState, events: seq<Event>, i: nat,
                    causal: Index, rolling: map<int, SymbolRolling>, watermark: int,
                    times: seq<int>, gi: nat, rows: seq<GridRow>)
    returns (r: Result<(nat, seq<GridRow>, int), GridError>)
    requires causal.Valid() && causal.missing == req.missing && RollingOk(req.spec, rolling)
    requires WellFormed(req, part) && |times| * |req.symbols| <= req.maxRows
    requires times == Times(req.grid, part.emitStart, part.emitEnd)
    requires forall s :: s in req.symbols ==> s in rolling
    requires Progress(req, part, st0, events, i, times, gi, rows, StateOf(causal, rolling, watermark))
    requires i < |events| && TimeOf(events[i]) <= part.emitEnd
    modifies causal, causal.segments.Values, rolling.Values
    ensures causal.Valid() && fresh(causal.segments.Values - old(causal.segments.Values))
    ensures r.Err? ==> r.error == HardGap
    ensures r.Err? ==> !(OffMissing(req.missing, times) && EventsOffMissing(req.missing, UpTo(events, part.emitEnd)))
    ensures r.Ok? ==>
      Progress(req, part, st0, events, i + 1, times, r.value.0, r.value.1, StateOf(causal, rolling, r.value.2))
  {
    var due := EmitBefore(req, part, st0, events, i, causal, rolling, watermark, times, gi, rows);
    if due.Err? { return Err(due.error); }
    ghost var before := StateOf(causal, rolling, watermark);
    var taken := TakeEvent(req, part, causal, rolling, watermark, events[i]);
    if taken.Err? {
      GapSeen(req, part, events, i);
      return Err(taken.error);
    }
    EventStep(req, part, st0, events, i, times, due.value.0, due.value.1, before);
    r := Ok((due.value.0, due.value.1, taken.value));
  }

  /** Takes every event up to the end of the partition, with the grid times before each. */
  method TakeEvents(req: Request, part: Partition, ghost st0: SweepState, events: seq<Event>,
                    causal: Index, rolling: map<int, SymbolRolling>, times: seq<int>)
    returns (r: Result<(nat, seq<GridRow>, int), GridError>, i: nat)
    requires causal.Valid() && causal.missing == req.missing && RollingOk(req.spec, rolling)
    requires WellFormed(req, part) && |times| * |req.symbols| <= req.maxRows
    requires times == Times(req.grid, part.emitStart, part.emitEnd)
    requires forall s :: s in req.symbols ==> s in rolling
    requires StateOf(causal, rolling, ScanStart(req, part)) == st0
    modifies causal, causal.segments.Values, rolling.Values
    ensures causal.Valid()
    ensures r.Err? ==> r.error == HardGap
    ensures r.Err? ==> !(OffMissing(req.missing, times) && EventsOffMissing(req.missing, UpTo(events, part.emitEnd)))
    ensures r.Ok? ==> i <= |events| && (i < |events| ==> TimeOf(events[i]) > part.emitEnd)
    ensures r.Ok? ==>
      Progress(req, part, st0, events, i, times, r.value.0, r.value.1, StateOf(causal, rolling, r.value.2))
  {
    i := 0;
    var gi: nat, rows: seq<GridRow>, watermark := 0, [], ScanStart(req, part);
    while i < |events| && TimeOf(events[i]) <= part.emitEnd
      invariant causal.Valid() && causal.missing == req.missing
      invariant fresh(causal.segments.Values - old(causal.segments.Values))
      invariant Progress(req, part, st0, events, i, times, gi, rows, StateOf(causal, rolling, watermark))
      decreases |events| - i
    {
      var swept := SweepEvent(req, part, st0, events, i, causal, rolling, watermark, times, gi, rows);
      if swept.Err? { return Err(swept.error), i; }
      i, gi, rows, watermark := i + 1, swept.value.0, swept.value.1, swept.value.2;
    }
    r := Ok((gi, rows, watermark));
  }

  /** Sweeps every event up to the end of the partition, then emits the rest of the grid. */
  method SweepEvents(req: Request, part: Partition, ghost st0: SweepState, events: seq<Event>,
                     causal: Index, rolling: map<int, SymbolRolling>, times: seq<int>)
    returns (r: Result<seq<GridRow>, GridError>, ghost last: SweepState)
    requires causal.Valid() && causal.missing == req.missing && RollingOk(req.spec, rolling)
    requires WellFormed(req, part) && |times| * |req.symbols| <= req.maxRows
    requires times == Times(req.grid, part.emitStart, part.emitEnd)
    requires forall s :: s in req.symbols ==> s in rolling
    requires StateOf(causal, rolling, ScanStart(req, part)) == st0
    modifies causal, causal.segments.Values, rolling.Values
    ensures causal.Valid()
    ensures r.Err? ==> r.error == HardGap
    ensures r.Ok? <==> OffMissing(req.missing, times) && EventsOffMissing(req.missing, UpTo(events, part.emitEnd))
    ensures r.Ok? ==> r.value == RowsOver(req, part, st0, events, times)
    ensures r.Ok? ==> last == After(req, part, st0, UpTo(events, part.emitEnd))
    ensures r.Ok? ==> causal.View() == last.index && Windows(rolling) == last.windows
  {
    last := st0;
    var taken, i := TakeEvents(req, part, st0, events, causal, rolling, times);
    if taken.Err? { return Err(taken.error), last; }
    var (gi, rows, watermark) := taken.value;
    TimesWithin(req.grid, part.emitStart, part.emitEnd);
    UpToIs(events, i, part.emitEnd);
    last := StateOf(causal, rolling, watermark);
    var rest := EmitDue(req, part, st0, events, i, causal, rolling, watermark, times, gi, rows, None);
    if rest.Err? { return Err(rest.error), last; }
    assert times[..|times|] == times;
    r := Ok(rest.value.1);
  }

  lemma {:induction false} DistinctAre(symbols: seq<int>)
    ensures forall s :: s in Distinct(symbols) <==> s in symbols
  {
    if symbols != [] { DistinctAre(symbols[..|symbols| - 1]); }
  }

  lemma {:induction false} EmptyWindowsHave(symbols: seq<int>, rolling: map<int, SymbolRolling>)
    requires Windows(rolling) == EmptyWindows(symbols)
    ensures forall s :: s in symbols ==> s in rolling
  {
    forall s | s in symbols ensures s in rolling {
      EmptyWindowsAre(symbols, s);
      assert s in Windows(rolling);
    }
  }

  /** Builds the rolling windows of the target symbols from the incoming carry. */
  method OpenRolling(req: Request, part: Partition, carry: Carry) returns (rolling: map<int, SymbolRolling>)
    ensures RollingOk(req.spec, rolling) && fresh(rolling.Values)
    ensures forall s :: s in req.symbols ==> s in rolling
    ensures Windows(rolling) == Start(req, part, carry).windows
  {
    rolling := NewRolling(req.spec, req.symbols);
    EmptyWindowsHave(req.symbols, rolling);
    LoadCarry(req.spec, rolling, carry.trades, ScanStart(req, part));
  }

  /** The outgoing carry: the frontiers, and the trades within the overlap of the end. */
  method ExportOutput(req: Request, part: Partition, causal: Index, rolling: map<int, SymbolRolling>,
                      rows: seq<GridRow>, ghost last: SweepState)
    returns (output: Output)
    requires causal.Valid() && causal.View() == last.index && Windows(rolling) == last.windows
    requires forall s :: s in req.symbols ==> s in rolling
    ensures output.rows == rows && CarryFrom(req, part, last, output.carry)
  {
    var frontiers := causal.ExportCarry();
    DistinctAre(req.symbols);
    var recent := TradeCarryRows(Distinct(req.symbols), rolling, part.emitEnd - part.overlap);
    output := Output(rows, Carry(frontiers, recent));
  }

  /** The sweep proper, once the request has been admitted. */
  method RunSweep(req: Request, part: Partition, carry: Carry, causal: Index, events: seq<Event>, times: seq<int>)
    returns (r: Result<Output, GridError>)
    requires WellFormed(req, part) && part.overlap >= Lookback(req.spec)
    requires times == Times(req.grid, part.emitStart, part.emitEnd) && |times| * |req.symbols| <= req.maxRows
    requires causal.Valid() && causal.missing == req.missing && causal.View() == Imported(carry.frontiers)
    modifies causal, causal.segments.Values
    ensures Outcome(req, part, carry, events, r)
  {
    var rolling := OpenRolling(req, part, carry);
    var rows, last := SweepEvents(req, part, Start(req, part, carry), events, causal, rolling, times);
    if rows.Err? { return Err(rows.error); }
    var output := ExportOutput(req, part, causal, rolling, rows.value, last);
    r := Ok(output);
  }

  /** One partition, from the sorted witness and trade inputs to its rows and carry. */
  method ExecuteCausalGridExtract(req: Request, part: Partition, carry: Carry, witnesses: seq<WitnessRow>,
                                  trades: seq<Trade>)
    returns (r: Result<Output, GridError>)
    requires WellFormed(req, part)
    ensures Outcome(req, part, carry, Chronology(witnesses, trades), r)
  {
    var causal := FromCarry(req.missing, carry.frontiers);
    var events := ChronologicalStream(witnesses, trades);
    if part.overlap < Lookback(req.spec) { return Err(OverlapTooShort); }
    var times := GridTimestamps(req.grid, part.emitStart, part.emitEnd);
    if |times| * |req.symbols| > req.maxRows { return Err(TooManyRows); }
    r := RunSweep(req, part, carry, causal, events, times);
  }
}
