/** Exactly which trades a rolling window still holds, in one run and along a chain of runs,
    and so exactly when an as-of fact is the full-history one. */
module CausalRetention {
  import opened Results
  import opened CausalRolling
  import opened CausalEvents
  import opened CausalGrid
  import opened CausalPartitions
  import opened CausalChain
  import opened PartitionInvariance

  /** Every target symbol's window holds exactly what is retained of its history. */
  ghost predicate Exactly(req: Request, st: SweepState, history: seq<Event>, floor: int, cut: Option<int>) {
    forall s :: s in req.symbols ==>
      s in st.windows && WindowIs(TradesOf(history, s), st.windows[s], floor, cut, Lookback(req.spec))
  }

  // ---------------------------------------------------------------------------------
  // Along one run
  // ---------------------------------------------------------------------------------

  lemma SnocNoLater(history: seq<Event>, e: Event)
    requires Chronological(history + [e])
    ensures Chronological(history) && NoLater(history, TimeOf(e))
  {
    var all := history + [e];
    assert forall i :: 0 <= i < |history| ==> all[i] == history[i];
    assert all[|history|] == e;
  }

  ghost predicate WatermarkFits(st: SweepState, floor: int, now: int, back: int) {
    floor <= st.watermark <= Max(floor, now - back)
  }

  lemma WatermarkIs(req: Request, part: Partition, st: SweepState, t: Trade)
    requires WatermarkFits(st, ScanStart(req, part), t.time, Lookback(req.spec))
    ensures Watermark(req, part, st.watermark, t) == Max(ScanStart(req, part), t.time - Lookback(req.spec))
  {
    LookbackCovers(req.spec);
  }

  lemma StepTakes(req: Request, part: Partition, st: SweepState, e: Event, s: int)
    requires s in st.windows
    ensures var next := Step(req, part, st, e);
      s in next.windows && next.windows[s] ==
        if e.Traded? && e.trade.symbol == s
            then Ingested(st.windows[s], e.trade, Watermark(req, part, st.watermark, e.trade))
        else st.windows[s]
  {
  }

  /** What one more event does to a symbol's window. */
  ghost predicate Grows(e: Event, s: int, window: seq<Trade>, next: seq<Trade>, floor: int, back: int) {
    next ==
      if e.Traded? && e.trade.symbol == s then Ingested(window, e.trade, Max(floor, e.trade.time - back)) else window
  }

  lemma GrownWindow(history: seq<Event>, e: Event, s: int, window: seq<Trade>, next: seq<Trade>,
                    floor: int, cut: Option<int>, back: int)
    requires WindowIs(TradesOf(history, s), window, floor, cut, back) && back >= 0
    requires Chronological(history + [e]) && Passes(cut, TimeOf(e)) && Grows(e, s, window, next, floor, back)
    ensures WindowIs(TradesOf(history + [e], s), next, floor, cut, back)
  {
    SnocHistory(history, e, s);
    if e.Traded? && e.trade.symbol == s {
      TradesOfSorted(history + [e], s);
      IngestedExactly(TradesOf(history, s), window, e.trade, Max(floor, e.trade.time - back), floor, cut, back);
    }
  }

  lemma StepGrows(req: Request, part: Partition, st: SweepState, e: Event, s: int)
    requires WatermarkFits(st, ScanStart(req, part), TimeOf(e), Lookback(req.spec)) && s in st.windows
    ensures var next := Step(req, part, st, e);
      s in next.windows && Grows(e, s, st.windows[s], next.windows[s], ScanStart(req, part), Lookback(req.spec))
  {
    StepTakes(req, part, st, e, s);
    if e.Traded? && e.trade.symbol == s { WatermarkIs(req, part, st, e.trade); }
  }

  lemma StepExactly(req: Request, part: Partition, st: SweepState, history: seq<Event>, e: Event, floor: int,
                    cut: Option<int>,
                    back: int, s: int)
    requires floor == ScanStart(req, part) && back == Lookback(req.spec) && WatermarkFits(st, floor, TimeOf(e), back)
    requires s in st.windows && WindowIs(TradesOf(history, s), st.windows[s], floor, cut, back)
    requires Chronological(history + [e]) && Passes(cut, TimeOf(e))
    ensures var next := Step(req, part, st, e);
      s in next.windows && WindowIs(TradesOf(history + [e], s), next.windows[s], floor, cut, back)
  {
    LookbackCovers(req.spec);
    StepGrows(req, part, st, e, s);
    GrownWindow(history, e, s, st.windows[s], Step(req, part, st, e).windows[s], floor, cut, back);
  }

  /** Where a run of events gets to. The windows stay exact as long as nothing is older than
      the cut. */
  lemma {:induction false} AfterExactly(req: Request, part: Partition, st: SweepState, history: seq<Event>,
                                        events: seq<Event>,
                                        cut: Option<int>, now: int)
    requires Exactly(req, st, history, ScanStart(req, part), cut) && st.watermark == ScanStart(req, part)
    requires Chronological(history + events) && NoLater(events, now)
    requires forall i :: 0 <= i < |events| ==> Passes(cut, TimeOf(events[i]))
    ensures Exactly(req, After(req, part, st, events), history + events, ScanStart(req, part), cut)
    ensures WatermarkFits(After(req, part, st, events), ScanStart(req, part), now, Lookback(req.spec))
    decreases |events|
  {
    if events == [] {
      assert history + events == history;
    } else {
      var front, last := events[..|events| - 1], events[|events| - 1];
      var seen := history + front;
      assert history + events == seen + [last];
      SnocNoLater(seen, last);
      forall i | 0 <= i < |front| ensures front[i] == events[i] && TimeOf(front[i]) <= TimeOf(last) {
        assert seen[|history| + i] == front[i];
      }
      AfterExactly(req, part, st, history, front, cut, TimeOf(last));
      var mid := After(req, part, st, front);
      forall s | s in req.symbols
        ensures var next := Step(req, part, mid, last);
          s in next.windows &&
              WindowIs(TradesOf(history + events, s), next.windows[s], ScanStart(req, part), cut, Lookback(req.spec))
      {
        StepExactly(req, part, mid, seen, last, ScanStart(req, part), cut, Lookback(req.spec), s);
      }
    }
  }

  lemma FreshExactly(req: Request, part: Partition)
    ensures Exactly(req, Start(req, part, NO_CARRY), [], ScanStart(req, part), None)
  {
    forall s | s in req.symbols
      ensures s in EmptyWindows(req.symbols) &&
        WindowIs([], EmptyWindows(req.symbols)[s], ScanStart(req, part), None, Lookback(req.spec))
    {
      EmptyWindowsAre(req.symbols, s);
    }
  }

  lemma FreshRunExactly(req: Request, part: Partition, seen: seq<Event>, now: int)
    requires Chronological(seen) && NoLater(seen, now)
    ensures Exactly(req, After(req, part, Start(req, part, NO_CARRY), seen), seen, ScanStart(req, part), None)
  {
    FreshExactly(req, part);
    assert [] + seen == seen;
    AfterExactly(req, part, Start(req, part, NO_CARRY), [], seen, None, now);
  }

  /** What an exact window reports, against the full history. */
  ghost predicate AsOfDecided(trades: seq<Trade>, window: seq<Trade>, floor: int, cut: Option<int>, back: int,
                              cutoff: int, g: int, target: int) {
    var full, now := Winner(trades, cutoff, g, target), Winner(window, cutoff, g, target);
    && (full.None? ==> now.None?)
    && (full.Some? ==> trades != [] && (now == full <==> Retained(trades, full.value, floor, cut, back)))
  }

  lemma ExactAnswers(req: Request, st: SweepState, history: seq<Event>, floor: int, cut: Option<int>,
                     s: int, cutoff: int, g: int, target: int)
    requires Exactly(req, st, history, floor, cut) && Chronological(history) && s in req.symbols
    ensures AsOfDecided(TradesOf(history, s), WindowOf(st, s), floor, cut, Lookback(req.spec), cutoff, g, target)
  {
    TradesOfSorted(history, s);
    AsOfExact(TradesOf(history, s), st.windows[s], floor, cut, Lookback(req.spec), cutoff, g, target);
  }

  /** In a run that starts fresh, the winner a row reports is the full-history one exactly
      when that is the symbol's latest trade so far, or not older than both the scan start
      and the look back before the latest trade allow. */
  lemma AsOfExactInRun(req: Request, part: Partition, events: seq<Event>, g: int, s: int, cutoff: int, target: int)
    requires Chronological(events) && s in req.symbols
    ensures var seen := UpTo(events, g);
      AsOfDecided(TradesOf(seen, s), WindowOf(After(req, part, Start(req, part, NO_CARRY), seen), s),
                  ScanStart(req, part), None, Lookback(req.spec), cutoff, g, target)
  {
    var seen := UpTo(events, g);
    UpToPrefix(events, g);
    assert Chronological(seen) by {
      assert forall i :: 0 <= i < |seen| ==> seen[i] == events[i];
    }
    FreshRunExactly(req, part, seen, g);
    ExactAnswers(req, After(req, part, Start(req, part, NO_CARRY), seen), seen, ScanStart(req, part), None, s, cutoff,
        g, target);
  }

  // ---------------------------------------------------------------------------------
  // Across a carry
  // ---------------------------------------------------------------------------------

  /** A window filled from carried trades of its symbol. */
  function Refilled(trades: seq<Trade>, watermark: int): seq<Trade> {
    if trades == [] then [] else Ingested(Refilled(trades[..|trades| - 1], watermark), trades[|trades| - 1], watermark)
  }

  lemma {:induction false} LoadedIsRefilled(symbols: seq<int>, trades: seq<Trade>, watermark: int, s: int)
    requires s in symbols
    ensures var windows := Loaded(EmptyWindows(symbols), trades, watermark);
      s in windows && windows[s] == Refilled(ForSymbol(trades, s), watermark)
  {
    if trades == [] {
      EmptyWindowsAre(symbols, s);
    } else {
      var front, last := trades[..|trades| - 1], trades[|trades| - 1];
      LoadedIsRefilled(symbols, front, watermark, s);
      if last.symbol == s {
        var mine := ForSymbol(front, s) + [last];
        assert mine[..|mine| - 1] == ForSymbol(front, s);
      } else {
        assert ForSymbol(trades, s) == ForSymbol(front, s);
      }
    }
  }

  /** Carried trades that end before the scan start plus the look back fill an exact window. */
  lemma {:induction false} RefilledExactly(trades: seq<Trade>, floor: int, back: int)
    requires TimeSorted(trades) && back >= 0 && forall i :: 0 <= i < |trades| ==> trades[i].time - back <= floor
    ensures WindowIs(trades, Refilled(trades, floor), floor, None, back)
  {
    if trades != [] {
      var front, last := trades[..|trades| - 1], trades[|trades| - 1];
      assert trades == front + [last];
      assert forall i :: 0 <= i < |front| ==> front[i] == trades[i];
      RefilledExactly(front, floor, back);
      IngestedExactly(front, Refilled(front, floor), last, floor, floor, None, back);
    }
  }

  function Later(cut: Option<int>, since: int): Option<int> {
    Some(if cut.None? then since else Max(cut.value, since))
  }

  lemma ExactIsKept(trades: seq<Trade>, window: seq<Trade>, floor: int, cut: Option<int>, back: int, next: int)
    requires WindowIs(trades, window, floor, cut, back) && floor <= next
    requires forall i :: 0 <= i < |trades| ==> trades[i].time - back <= next
    ensures KeptFrom(trades, window, next)
    ensures trades != [] ==> (window != [] <==> RetainedAt(trades, |trades| - 1, floor, cut, back))
  {
    var n := |trades| - |window|;
    forall i | 0 <= i < n ensures trades[..n][i].time < next {
      assert !RetainedAt(trades, i, floor, cut, back);
    }
  }

  lemma RecentKeepsLast(window: seq<Trade>, since: int)
    requires TimeSorted(window)
    ensures Recent(window, since) != [] <==> window != [] && window[|window| - 1].time >= since
  {
    if window != [] && window[|window| - 1].time < since {
      RecentOfOld(window, since);
    }
  }

  /** What a suffix of the history retains, as retained of the whole history. */
  lemma SuffixRetains(trades: seq<Trade>, n: nat, next: int, cut: Option<int>, back: int, i: nat)
    requires n <= |trades| && i < |trades| && TimeSorted(trades) && Passes(cut, next)
    requires forall k :: 0 <= k < n ==> trades[k].time < next
    requires n < |trades| <==> Passes(cut, trades[|trades| - 1].time)
    requires n == |trades| ==> trades[|trades| - 1].time < next
    ensures RetainedAt(trades, i, next, cut, back) <==> i >= n && RetainedAt(trades[n..], i - n, next, None, back)
  {
  }

  lemma LastCarried(trades: seq<Trade>, window: seq<Trade>, floor: int, cut: Option<int>, back: int, since: int,
                    next: int)
    requires WindowIs(trades, window, floor, cut, back) && TimeSorted(trades) && trades != []
    requires floor <= next && since <= next && forall i :: 0 <= i < |trades| ==> trades[i].time - back <= next
    ensures Recent(window, since) != [] <==> Passes(Later(cut, since), trades[|trades| - 1].time)
    ensures Passes(Later(cut, since), next)
  {
    ExactIsKept(trades, window, floor, cut, back, next);
    WindowSorted(trades, |trades| - |window|);
    RecentKeepsLast(window, since);
  }

  lemma WindowSorted(trades: seq<Trade>, n: nat)
    requires TimeSorted(trades) && n <= |trades|
    ensures TimeSorted(trades[n..])
  {
    assert forall i :: 0 <= i < |trades| - n ==> trades[n..][i] == trades[n + i];
  }

  /** Filling a window from a suffix of the history that lacks nothing recent. */
  lemma RefilledSuffix(trades: seq<Trade>, n: nat, next: int, cut: Option<int>, back: int)
    requires n <= |trades| && trades != [] && TimeSorted(trades) && Passes(cut, next) && back >= 0
    requires forall i :: 0 <= i < |trades| ==> trades[i].time - back <= next
    requires forall k :: 0 <= k < n ==> trades[k].time < next
    requires n < |trades| <==> Passes(cut, trades[|trades| - 1].time)
    ensures WindowIs(trades, Refilled(trades[n..], next), next, cut, back)
  {
    var carried := trades[n..];
    WindowSorted(trades, n);
    assert forall i :: 0 <= i < |carried| ==> carried[i] == trades[n + i];
    RefilledExactly(carried, next, back);
    var k := |trades| - |Refilled(carried, next)|;
    forall i | 0 <= i < |trades| ensures i >= k <==> RetainedAt(trades, i, next, cut, back) {
      SuffixRetains(trades, n, next, cut, back, i);
    }
  }

  /** Handing a window on cuts it once more: a trade older than the next scan start survives
      only as the symbol's latest, and only if it passes every cut so far. */
  lemma HandedOn(trades: seq<Trade>, window: seq<Trade>, floor: int, cut: Option<int>, back: int, since: int, next: int)
    requires WindowIs(trades, window, floor, cut, back) && TimeSorted(trades) && back >= 0
    requires floor <= next && since <= next && forall i :: 0 <= i < |trades| ==> trades[i].time - back <= next
    ensures WindowIs(trades, Refilled(Recent(window, since), next), next, Later(cut, since), back)
  {
    if trades != [] {
      var n := RecentSuffix(trades, window, floor, cut, back, since, next);
      LastCarried(trades, window, floor, cut, back, since, next);
      RefilledSuffix(trades, n, next, Later(cut, since), back);
    }
  }

  lemma RecentSuffix(trades: seq<Trade>, window: seq<Trade>, floor: int, cut: Option<int>, back: int, since: int,
                     next: int)
    returns (n: nat)
    requires WindowIs(trades, window, floor, cut, back) && TimeSorted(trades)
    requires floor <= next && since <= next && forall i :: 0 <= i < |trades| ==> trades[i].time - back <= next
    ensures n <= |trades| && Recent(window, since) == trades[n..] && forall k :: 0 <= k < n ==> trades[k].time < next
  {
    ExactIsKept(trades, window, floor, cut, back, next);
    RecentKept(trades, window, since, next);
    n := |trades| - |Recent(window, since)|;
    forall k | 0 <= k < n ensures trades[k].time < next { assert trades[..n][k].time < next; }
  }

  // ---------------------------------------------------------------------------------
  // Along a chain
  // ---------------------------------------------------------------------------------

  /** The latest time below which some earlier run of the chain cut the trades it handed on. */
  function CutOf(c: Chain): Option<int> {
    if c.First? then None
    else Later(CutOf(c.front), c.front.run.part.emitEnd - c.front.run.part.overlap)
  }

  /** What matters here of a chain of successful runs. */
  ghost predicate Handed(req: Request, c: Chain) {
    && (c.Then? ==> Handed(req, c.front))
    && c.run.part.emitStart <= c.run.part.emitEnd && c.run.part.overlap >= Lookback(req.spec)
    && CarryFrom(req, c.run.part, Final(req, c.run.part, CarryInto(c), c.run.events), c.run.output.carry)
  }

  lemma {:induction false} ChainHanded(req: Request, c: Chain)
    requires req.grid.step > 0 && AllRan(req, c)
    ensures Handed(req, c)
  {
    if c.Then? { ChainHanded(req, c.front); }
  }

  lemma {:induction false} CutPassed(req: Request, c: Chain, t: int)
    requires Cut(c) && Handed(req, c) && c.Then? && t > EndOf(c.front)
    ensures Passes(CutOf(c), t)
  {
    if c.front.Then? { CutPassed(req, c.front, t); }
  }

  lemma ExactOfSymbol(req: Request, st: SweepState, history: seq<Event>, floor: int, cut: Option<int>)
    requires Exactly(req, st, history, floor, cut) && Chronological(history)
    ensures forall x :: x in req.symbols ==> AllOfSymbol(WindowOf(st, x), x)
  {
    forall x | x in req.symbols ensures AllOfSymbol(WindowOf(st, x), x) {
      TradesOfSorted(history, x);
      var all, kept := TradesOf(history, x), st.windows[x];
      assert forall i :: 0 <= i < |kept| ==> kept[i] == all[|all| - |kept| + i];
    }
  }

  /** The start of the next run from what a run hands on. */
  lemma NextExactly(req: Request, st: SweepState, history: seq<Event>, floor: int, cut: Option<int>, carry: Carry,
                    since: int, part: Partition)
    requires Exactly(req, st, history, floor, cut) && Chronological(history)
    requires carry.trades == CarryTrades(st, Distinct(req.symbols), since)
    requires floor <= ScanStart(req, part) && since <= ScanStart(req, part) && NoLater(history, part.emitStart)
    ensures Exactly(req, Start(req, part, carry), history, ScanStart(req, part), Later(cut, since))
  {
    ExactOfSymbol(req, st, history, floor, cut);
    DistinctHasNone(req.symbols);
    DistinctAre(req.symbols);
    LookbackCovers(req.spec);
    forall s | s in req.symbols
      ensures var next := Start(req, part, carry);
        s in next.windows &&
            WindowIs(TradesOf(history, s), next.windows[s], ScanStart(req, part), Later(cut, since), Lookback(req.spec))
    {
      LoadedIsRefilled(req.symbols, carry.trades, ScanStart(req, part), s);
      CarryTradesFor(st, Distinct(req.symbols), since, s);
      TradesOfSorted(history, s);
      HandedOn(TradesOf(history, s), st.windows[s], floor, cut, Lookback(req.spec), since, ScanStart(req, part));
    }
  }

  /** From the windows at the end of a run to those at the start of the next. */
  lemma RunExactly(req: Request, run: Run, st: SweepState, history: seq<Event>, cut: Option<int>, part: Partition)
    requires Exactly(req, st, history, ScanStart(req, run.part), cut) && Chronological(history)
    requires CarryFrom(req, run.part, st, run.output.carry) && run.part.overlap >= Lookback(req.spec)
    requires run.part.emitStart <= run.part.emitEnd && part.emitStart == run.part.emitEnd + 1
    requires NoLater(history, run.part.emitEnd)
    ensures Exactly(req, Start(req, part, run.output.carry), history, ScanStart(req, part),
                    Later(cut, run.part.emitEnd - run.part.overlap))
  {
    NoLaterWeaker(history, run.part.emitEnd, part.emitStart);
    NextExactly(req, st, history, ScanStart(req, run.part), cut, run.output.carry,
        run.part.emitEnd - run.part.overlap, part);
  }

  ghost predicate StartsExactly(req: Request, c: Chain) {
    Exactly(req, Start(req, c.run.part, CarryInto(c)), Before(c), ScanStart(req, c.run.part), CutOf(c))
  }

  lemma StartsAsHanded(req: Request, c: Chain, carry: Carry, history: seq<Event>, part: Partition, cut: Option<int>)
    requires part == c.run.part && carry == CarryInto(c) && history == Before(c) && cut == CutOf(c)
    requires Exactly(req, Start(req, part, carry), history, ScanStart(req, part), cut)
    ensures StartsExactly(req, c)
  {
  }

  lemma ThenStartsExactly(req: Request, c: Chain)
    requires c.Then? && Cut(c) && Handed(req, c.front) && Chronological(Stream(c.front)) && StartsExactly(req, c.front)
    ensures StartsExactly(req, c)
  {
    var f, run := c.front, c.front.run;
    FrontFinal(req, f);
    HistoryNoLater(req, f);
    RunExactly(req, run, Final(req, run.part, CarryInto(f), run.events), Stream(f), CutOf(f), c.run.part);
    StartsAsHanded(req, c, run.output.carry, Stream(f), c.run.part,
        Later(CutOf(f), run.part.emitEnd - run.part.overlap));
  }

  /** Each run of a chain starts with exactly what is retained of everything before it. */
  lemma {:induction false} ChainExactly(req: Request, c: Chain)
    requires Cut(c) && Handed(req, c) && Chronological(Stream(c))
    ensures StartsExactly(req, c)
  {
    if c.First? {
      FreshExactly(req, c.run.part);
    } else {
      Prefix(Before(c), c.run.events);
      ChainExactly(req, c.front);
      ThenStartsExactly(req, c);
    }
  }

  lemma FrontFinal(req: Request, c: Chain)
    requires Cut(c) && Handed(req, c) && Chronological(Stream(c))
    requires StartsExactly(req, c)
    ensures Exactly(req, Final(req, c.run.part, CarryInto(c), c.run.events), Stream(c), ScanStart(req, c.run.part),
      CutOf(c))
  {
    FinalExactly(req, c, EndOf(c));
    UpToEverything(c.run.events, EndOf(c));
  }

  lemma Prefix(a: seq<Event>, b: seq<Event>)
    requires Chronological(a + b)
    ensures Chronological(a)
  {
    var all := a + b;
    assert forall i :: 0 <= i < |a| ==> a[i] == all[i];
  }

  lemma {:induction false} HistoryNoLater(req: Request, c: Chain)
    requires Cut(c) && Handed(req, c)
    ensures NoLater(Stream(c), EndOf(c))
  {
    if c.Then? {
      HistoryNoLater(req, c.front);
      NoLaterWeaker(Before(c), EndOf(c.front), EndOf(c));
    }
  }

  /** The windows at a time in the last run of a chain. */
  lemma FinalExactly(req: Request, c: Chain, g: int)
    requires Cut(c) && Handed(req, c) && Chronological(Stream(c))
    requires StartsExactly(req, c)
    ensures var seen := UpTo(c.run.events, g);
      && Chronological(Before(c) + seen)
      && Exactly(req, After(req, c.run.part, Start(req, c.run.part, CarryInto(c)), seen), Before(c) + seen,
                 ScanStart(req, c.run.part), CutOf(c))
  {
    var seen := UpTo(c.run.events, g);
    UpToPrefix(c.run.events, g);
    assert Stream(c) == (Before(c) + seen) + c.run.events[|seen|..];
    Prefix(Before(c) + seen, c.run.events[|seen|..]);
    forall i | 0 <= i < |seen| ensures Passes(CutOf(c), TimeOf(seen[i])) {
      assert seen[i] == c.run.events[i];
      if c.Then? { CutPassed(req, c, TimeOf(seen[i])); }
    }
    AfterExactly(req, c.run.part, Start(req, c.run.part, CarryInto(c)), Before(c), seen, CutOf(c), g);
  }

  lemma ChainedExactly(req: Request, c: Chain)
    requires Cut(c) && Chained(req, c) && Chronological(Stream(c))
    ensures Handed(req, c) && StartsExactly(req, c)
  {
    ChainedRan(req, c);
    ChainHanded(req, c);
    ChainExactly(req, c);
  }

  /** In the last run of a chain, the winner a row reports is the full-history one exactly when
      that is the symbol's latest trade so far and passed every cut between the partitions, or
      when it is not older than both this run's scan start and the look back before the latest
      trade allow. */
  lemma AsOfExactInChain(req: Request, c: Chain, g: int, s: int, cutoff: int, target: int)
    requires Cut(c) && Chained(req, c) && Chronological(Stream(c)) && s in req.symbols
    ensures var seen := UpTo(c.run.events, g);
      AsOfDecided(TradesOf(Before(c) + seen, s),
          WindowOf(After(req, c.run.part, Start(req, c.run.part, CarryInto(c)), seen), s),
                  ScanStart(req, c.run.part), CutOf(c), Lookback(req.spec), cutoff, g, target)
  {
    ChainedExactly(req, c);
    FinalExactly(req, c, g);
    var seen := UpTo(c.run.events, g);
    ExactAnswers(req, After(req, c.run.part, Start(req, c.run.part, CarryInto(c)), seen), Before(c) + seen,
                 ScanStart(req, c.run.part), CutOf(c), s, cutoff, g, target);
  }
}
