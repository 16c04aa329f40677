/** Chaining partitions through the outgoing carry. */
module CausalChain {
  import opened Sequences
  import opened CausalFrontier
  import opened CausalIndex
  import opened CausalRolling
  import opened CausalEvents
  import opened CausalGrid
  import opened CausalPartitions

  // ---------------------------------------------------------------------------------
  // What a carry stands for
  // ---------------------------------------------------------------------------------

  function ForSymbol(trades: seq<Trade>, symbol: int): seq<Trade> {
    if trades == [] then []
    else
      var last := trades[|trades| - 1];
      ForSymbol(trades[..|trades| - 1], symbol) + if last.symbol == symbol then [last] else []
  }

  /** The carry stands for a history that ends at `end`: exact frontiers, and for each target
      symbol all of its trades from `limit` on, the look back before the end. */
  ghost predicate CarryRepresents(req: Request, carry: Carry, history: seq<Event>, end: int, limit: int) {
    && Indexes(req.missing, Imported(carry.frontiers), ObsOf(history))
    && NoLater(history, end)
    && forall s :: s in req.symbols ==>
         KeptFrom(TradesOf(history, s), ForSymbol(carry.trades, s), limit)
  }

  // ---------------------------------------------------------------------------------
  // Starting from a carry
  // ---------------------------------------------------------------------------------

  lemma {:induction false} LoadedWindow(symbols: seq<int>, trades: seq<Trade>, watermark: int, s: int,
                                        base: seq<Trade>, limit: int)
    requires s in symbols && watermark <= limit && OutOfReach(base, limit)
    ensures var windows := Loaded(EmptyWindows(symbols), trades, watermark);
      s in windows && KeptFrom(base + ForSymbol(trades, s), windows[s], limit)
  {
    if trades == [] {
      EmptyWindowsAre(symbols, s);
      assert base + [] == base;
    } else {
      var front, last := trades[..|trades| - 1], trades[|trades| - 1];
      LoadedWindow(symbols, front, watermark, s, base, limit);
      if last.symbol == s {
        IngestedKept(base + ForSymbol(front, s), Loaded(EmptyWindows(symbols), front, watermark)[s], limit, last,
            watermark);
        assert base + ForSymbol(trades, s) == base + ForSymbol(front, s) + [last];
      } else {
        assert base + ForSymbol(trades, s) == base + ForSymbol(front, s);
      }
    }
  }

  lemma StartRepresents(req: Request, part: Partition, carry: Carry, history: seq<Event>, end: int, limit: int,
                        more: int)
    requires CarryRepresents(req, carry, history, end, limit) && limit <= more && ScanStart(req, part) <= more
    ensures Represents(req, Start(req, part, carry), history, more)
  {
    var st := Start(req, part, carry);
    forall s | s in req.symbols ensures s in st.windows && KeptFrom(TradesOf(history, s), st.windows[s], more) {
      var all, kept := TradesOf(history, s), ForSymbol(carry.trades, s);
      var base := all[..|all| - |kept|];
      LoadedWindow(req.symbols, carry.trades, ScanStart(req, part), s, base, more);
      assert all == base + kept;
    }
  }

  // ---------------------------------------------------------------------------------
  // Handing on a carry
  // ---------------------------------------------------------------------------------

  lemma KeptMore(history: seq<Trade>, kept: seq<Trade>, t: Trade, limit: int)
    requires KeptFrom(history, kept, limit)
    ensures KeptFrom(history + [t], kept + [t], limit)
  {
    var all, n := history + [t], |history| - |kept|;
    assert all[..n] == history[..n] && all[n..] == history[n..] + [t];
  }

  lemma KeptTransitive(history: seq<Trade>, middle: seq<Trade>, kept: seq<Trade>, limit: int)
    requires KeptFrom(history, middle, limit) && KeptFrom(middle, kept, limit)
    ensures KeptFrom(history, kept, limit)
  {
    var m, n := |history| - |middle|, |history| - |kept|;
    assert history[n..] == middle[n - m..];
    forall i | 0 <= i < n ensures history[i].time < limit {
      if i < m {
        assert history[i] == history[..m][i];
      } else {
        assert history[i] == middle[i - m] == middle[..n - m][i - m];
      }
    }
  }

  lemma {:induction false} RecentOfOld(trades: seq<Trade>, since: int)
    requires OutOfReach(trades, since)
    ensures Recent(trades, since) == []
  {
    if trades != [] {
      var front := trades[..|trades| - 1];
      assert forall i :: 0 <= i < |front| ==> front[i] == trades[i];
      RecentOfOld(front, since);
    }
  }

  lemma RecentSnoc(trades: seq<Trade>, last: Trade, since: int)
    ensures Recent(trades + [last], since) == Recent(trades, since) + if last.time >= since then [last] else []
  {
    assert (trades + [last])[..|trades|] == trades;
  }

  /** Of trades in time order, the recent ones are a suffix. */
  lemma {:induction false} RecentIsKept(trades: seq<Trade>, since: int)
    requires TimeSorted(trades)
    ensures KeptFrom(trades, Recent(trades, since), since)
  {
    if trades != [] {
      var front, last := trades[..|trades| - 1], trades[|trades| - 1];
      assert trades == front + [last];
      SortedFront(front, last);
      if last.time >= since {
        RecentIsKept(front, since);
        RecentSnoc(front, last, since);
        KeptMore(front, Recent(front, since), last, since);
      } else {
        RecentOfOld(trades, since);
      }
    }
  }

  lemma RecentKept(history: seq<Trade>, window: seq<Trade>, since: int, limit: int)
    requires KeptFrom(history, window, limit) && TimeSorted(history) && since <= limit
    ensures KeptFrom(history, Recent(window, since), limit)
  {
    var n := |history| - |window|;
    assert forall i :: 0 <= i < |window| ==> window[i] == history[n + i];
    RecentIsKept(window, since);
    KeptWeaker(window, Recent(window, since), since, limit);
    KeptTransitive(history, window, Recent(window, since), limit);
  }

  lemma {:induction false} TradesOfSorted(events: seq<Event>, symbol: int)
    requires Chronological(events)
    ensures TimeSorted(TradesOf(events, symbol))
    ensures forall i :: 0 <= i < |TradesOf(events, symbol)| ==> TradesOf(events, symbol)[i].symbol == symbol
    ensures events != [] ==> forall i :: 0 <= i < |TradesOf(events, symbol)| ==>
      TradesOf(events, symbol)[i].time <= TimeOf(events[|events| - 1])
  {
    if events != [] {
      var front := events[..|events| - 1];
      assert forall i :: 0 <= i < |front| ==> front[i] == events[i];
      TradesOfSorted(front, symbol);
    }
  }

  ghost predicate AllOfSymbol(trades: seq<Trade>, symbol: int) {
    forall i :: 0 <= i < |trades| ==> trades[i].symbol == symbol
  }

  lemma {:induction false} ForSymbolAppend(a: seq<Trade>, b: seq<Trade>, symbol: int)
    ensures ForSymbol(a + b, symbol) == ForSymbol(a, symbol) + ForSymbol(b, symbol)
  {
    if b == [] {
      assert a + b == a;
    } else {
      var all := a + b;
      assert all[..|all| - 1] == a + b[..|b| - 1];
      ForSymbolAppend(a, b[..|b| - 1], symbol);
    }
  }

  lemma {:induction false} ForSymbolUniform(trades: seq<Trade>, owner: int, symbol: int)
    requires AllOfSymbol(trades, owner)
    ensures ForSymbol(trades, symbol) == if owner == symbol then trades else []
  {
    if trades != [] {
      var front := trades[..|trades| - 1];
      ForSymbolUniform(front, owner, symbol);
      assert trades == front + [trades[|trades| - 1]];
    }
  }

  lemma {:induction false} RecentOfSymbol(trades: seq<Trade>, since: int, symbol: int)
    requires AllOfSymbol(trades, symbol)
    ensures AllOfSymbol(Recent(trades, since), symbol)
  {
    if trades != [] { RecentOfSymbol(trades[..|trades| - 1], since, symbol); }
  }

  lemma {:induction false} DistinctHasNone(symbols: seq<int>)
    ensures NoDuplicates(Distinct(symbols))
  {
    if symbols != [] {
      var front := symbols[..|symbols| - 1];
      DistinctHasNone(front);
      DistinctAre(front);
      var last := symbols[|symbols| - 1];
      assert last !in front ==> last !in Distinct(front);
    }
  }

  /** Each symbol finds exactly its own recent trades in the flat carry. */
  lemma {:induction false} CarryTradesFor(st: SweepState, symbols: seq<int>, since: int, s: int)
    requires NoDuplicates(symbols) && forall x :: x in symbols ==> AllOfSymbol(WindowOf(st, x), x)
    ensures ForSymbol(CarryTrades(st, symbols, since), s) == if s in symbols then Recent(WindowOf(st, s), since) else []
  {
    if symbols != [] {
      var front, last := symbols[..|symbols| - 1], symbols[|symbols| - 1];
      assert forall x :: x in symbols <==> x in front || x == last;
      CarryTradesFor(st, front, since, s);
      RecentOfSymbol(WindowOf(st, last), since, last);
      ForSymbolUniform(Recent(WindowOf(st, last), since), last, s);
      ForSymbolAppend(CarryTrades(st, front, since), Recent(WindowOf(st, last), since), s);
      assert last !in front;
    }
  }

  lemma WindowsOfSymbol(req: Request, st: SweepState, history: seq<Event>, limit: int)
    requires Represents(req, st, history, limit) && Chronological(history)
    ensures forall x :: x in req.symbols ==> AllOfSymbol(WindowOf(st, x), x)
  {
    forall x | x in req.symbols ensures AllOfSymbol(WindowOf(st, x), x) {
      TradesOfSorted(history, x);
      var all, kept := TradesOf(history, x), st.windows[x];
      assert forall i :: 0 <= i < |kept| ==> kept[i] == all[|all| - |kept| + i];
    }
  }

  lemma CarriedTrades(req: Request, st: SweepState, history: seq<Event>, limit: int, since: int, s: int)
    requires Represents(req, st, history, limit) && Chronological(history) && since <= limit && s in req.symbols
    ensures KeptFrom(TradesOf(history, s), ForSymbol(CarryTrades(st, Distinct(req.symbols), since), s), limit)
  {
    DistinctHasNone(req.symbols);
    DistinctAre(req.symbols);
    WindowsOfSymbol(req, st, history, limit);
    CarryTradesFor(st, Distinct(req.symbols), since, s);
    TradesOfSorted(history, s);
    RecentKept(TradesOf(history, s), st.windows[s], since, limit);
  }

  lemma CarryOfState(req: Request, st: SweepState, history: seq<Event>, carry: Carry, end: int, limit: int, since: int)
    requires since <= limit
    requires Represents(req, st, history, limit) && Chronological(history) && NoLater(history, end)
    requires Imported(carry.frontiers) == st.index
    requires carry.trades == CarryTrades(st, Distinct(req.symbols), since)
    ensures CarryRepresents(req, carry, history, end, limit)
  {
    forall s | s in req.symbols ensures KeptFrom(TradesOf(history, s), ForSymbol(carry.trades, s), limit) {
      CarriedTrades(req, st, history, limit, since, s);
    }
  }

  /** No time or block is the number that stands for an absent value in a carry. */
  ghost predicate Carriable(events: seq<Event>) {
    forall i :: 0 <= i < |events| ==>
        Obs(events[i]).time != CARRY_ABSENT_INT && Obs(events[i]).block != CARRY_ABSENT_INT
  }

  lemma {:induction false} ObsCarriable(events: seq<Event>)
    requires Carriable(events)
    ensures |ObsOf(events)| == |events| && ObservationsAvoidSentinel(ObsOf(events))
  {
    if events != [] {
      var front := events[..|events| - 1];
      assert forall i :: 0 <= i < |front| ==> front[i] == events[i];
      ObsCarriable(front);
    }
  }

  lemma FrontiersCarried(req: Request, st: SweepState, history: seq<Event>, limit: int, rows: seq<CompactRow>)
    requires Represents(req, st, history, limit) && Carriable(history) && IsExport(st.index, rows)
    ensures Imported(rows) == st.index
  {
    ObsCarriable(history);
    IndexAvoidsSentinel(req.missing, st.index, ObsOf(history));
    ExportRoundTrip(st.index, rows);
  }

  lemma SeenNoLater(history: seq<Event>, events: seq<Event>, t: int)
    requires NoLater(history, t)
    ensures NoLater(history + UpTo(events, t), t)
  {
    UpToNoLater(events, t);
  }

  lemma FinalRepresents(req: Request, part: Partition, carry: Carry, history: seq<Event>, events: seq<Event>,
                        limit: int)
    requires ReadyFor(req, part, Start(req, part, carry), history, part.emitEnd)
    requires limit == part.emitEnd - Lookback(req.spec)
    ensures Represents(req, Final(req, part, carry, events), history + UpTo(events, part.emitEnd), limit)
    ensures NoLater(history + UpTo(events, part.emitEnd), part.emitEnd)
  {
    StateUpTo(req, part, Start(req, part, carry), history, events, part.emitEnd, limit);
    SeenNoLater(history, events, part.emitEnd);
  }

  lemma ExportedCarry(req: Request, part: Partition, st: SweepState, seen: seq<Event>, carry: Carry, limit: int)
    requires Represents(req, st, seen, limit) && NoLater(seen, part.emitEnd) && part.emitEnd - part.overlap <= limit
    requires CarryFrom(req, part, st, carry)
    requires Chronological(seen) && Carriable(seen)
    ensures CarryRepresents(req, carry, seen, part.emitEnd, limit)
  {
    FrontiersCarried(req, st, seen, limit, carry.frontiers);
    var end, since := part.emitEnd, part.emitEnd - part.overlap;
    assert carry.trades == CarryTrades(st, Distinct(req.symbols), since);
    CarryOfState(req, st, seen, carry, end, limit, since);
  }

  /** The outgoing carry of a run stands for everything seen up to the end of its partition. */
  lemma CarryOut(req: Request, part: Partition, carry: Carry, history: seq<Event>, events: seq<Event>, out: Carry,
                 limit: int)
    requires CarryFrom(req, part, Final(req, part, carry, events), out)
    requires ReadyFor(req, part, Start(req, part, carry), history, part.emitEnd)
    requires limit == part.emitEnd - Lookback(req.spec) && part.overlap >= Lookback(req.spec)
    requires Chronological(history + UpTo(events, part.emitEnd)) && Carriable(history + UpTo(events, part.emitEnd))
    ensures CarryRepresents(req, out, history + UpTo(events, part.emitEnd), part.emitEnd, limit)
  {
    FinalRepresents(req, part, carry, history, events, limit);
    ExportedCarry(req, part, Final(req, part, carry, events), history + UpTo(events, part.emitEnd), out, limit);
  }
}
