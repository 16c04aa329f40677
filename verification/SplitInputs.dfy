/** Partition invariance for the sorted input files: splitting witnesses and trades by time
    splits the stream, so chained runs over the pieces match one run over all of them. */
module SplitInputs {
  import opened Results
  import opened Ordering
  import opened SpillSort
  import opened CausalRolling
  import opened CausalEvents
  import opened CausalGrid
  import opened CausalPartitions
  import opened CausalChain
  import opened PartitionInvariance

  // ---------------------------------------------------------------------------------
  // Splitting a stream
  // ---------------------------------------------------------------------------------

  ghost predicate KeysBelow<P(!new)>(a: seq<Row<P>>, b: seq<Row<P>>) {
    forall x, y :: x in a && y in b ==> KeyLess(x.key, y.key)
  }

  lemma SecondFirst<P>(x: seq<Row<P>>, y: seq<Row<P>>)
    requires y != [] && (x == [] || KeyLess(y[0].key, x[0].key))
    ensures Merge2(x, y) == [y[0]] + Merge2(x, y[1..])
  {
    Merge2Head(x, y);
    assert x == [] ==> y == [y[0]] + y[1..];
  }

  lemma FirstFirst<P>(x: seq<Row<P>>, y: seq<Row<P>>)
    requires x != [] && (y == [] || !KeyLess(y[0].key, x[0].key))
    ensures Merge2(x, y) == [x[0]] + Merge2(x[1..], y)
  {
    Merge2Head(x, y);
    assert y == [] ==> x == [x[0]] + x[1..];
  }

  lemma Prepend<T>(head: T, rest: seq<T>, tail: seq<T>)
    ensures [head] + (rest + tail) == ([head] + rest) + tail
  {
  }

  lemma HeadOfConcat<T>(s: seq<T>, t: seq<T>)
    requires s != []
    ensures (s + t)[0] == s[0] && s[0] in s && (s + t)[1..] == s[1..] + t
  {
  }

  lemma TakeFromSecond<P(!new)>(a: seq<Row<P>>, b: seq<Row<P>>, c: seq<Row<P>>, d: seq<Row<P>>)
    requires b != [] && (a == [] || KeyLess(b[0].key, a[0].key))
    requires KeysBelow(b, c)
    requires Merge2(a + c, b[1..] + d) == Merge2(a, b[1..]) + Merge2(c, d)
    ensures Merge2(a + c, b + d) == Merge2(a, b) + Merge2(c, d)
  {
    HeadOfConcat(b, d);
    if a != [] { HeadOfConcat(a, c); } else if c != [] { assert c[0] in c && (a + c)[0] == c[0]; }
    SecondFirst(a, b);
    SecondFirst(a + c, b + d);
    Prepend(b[0], Merge2(a, b[1..]), Merge2(c, d));
  }

  lemma TakeFromFirst<P(!new)>(a: seq<Row<P>>, b: seq<Row<P>>, c: seq<Row<P>>, d: seq<Row<P>>)
    requires a != [] && (b == [] || !KeyLess(b[0].key, a[0].key))
    requires KeysBelow(a, d)
    requires Merge2(a[1..] + c, b + d) == Merge2(a[1..], b) + Merge2(c, d)
    ensures Merge2(a + c, b + d) == Merge2(a, b) + Merge2(c, d)
  {
    HeadOfConcat(a, c);
    if b != [] {
      HeadOfConcat(b, d);
    } else if d != [] {
      assert d[0] in d && (b + d)[0] == d[0];
      KeyLessAsymmetric(a[0].key, d[0].key);
    }
    FirstFirst(a, b);
    FirstFirst(a + c, b + d);
    Prepend(a[0], Merge2(a[1..], b), Merge2(c, d));
  }

  /** Merging splits wherever every key on one side is below every key on the other. */
  lemma {:induction false} MergeSplits<P(!new)>(a: seq<Row<P>>, b: seq<Row<P>>, c: seq<Row<P>>, d: seq<Row<P>>)
    requires KeysBelow(a, c) && KeysBelow(a, d) && KeysBelow(b, c) && KeysBelow(b, d)
    ensures Merge2(a + c, b + d) == Merge2(a, b) + Merge2(c, d)
    decreases |a| + |b|
  {
    if a == [] && b == [] {
      assert a + c == c && b + d == d;
    } else if b != [] && (a == [] || KeyLess(b[0].key, a[0].key)) {
      MergeSplits(a, b[1..], c, d);
      TakeFromSecond(a, b, c, d);
    } else {
      MergeSplits(a[1..], b, c, d);
      TakeFromFirst(a, b, c, d);
    }
  }

  ghost predicate RowsWithin(rows: seq<Row<Event>>, after: Option<int>, until: int) {
    forall r :: r in rows ==>
      r.key.parts != [] && r.key.parts[0] == TimeOf(r.payload) && r.key.parts[0] <= until &&
          (after.Some? ==> r.key.parts[0] > after.value)
  }

  lemma TimesDecide(a: seq<Row<Event>>, b: seq<Row<Event>>, after: Option<int>, t: int, until: int)
    requires RowsWithin(a, after, t) && RowsWithin(b, Some(t), until)
    ensures KeysBelow(a, b)
  {
  }

  /** The times of one piece of the inputs: after the previous piece, up to its own end. */
  ghost predicate InputsWithin(witnesses: seq<WitnessRow>, trades: seq<Trade>, after: Option<int>, until: int) {
    && (forall i :: 0 <= i < |witnesses| ==>
        witnesses[i].time <= until && (after.Some? ==> witnesses[i].time > after.value))
    && (forall i :: 0 <= i < |trades| ==> trades[i].time <= until && (after.Some? ==> trades[i].time > after.value))
  }

  lemma KeyedWithin(witnesses: seq<WitnessRow>, trades: seq<Trade>, after: Option<int>, until: int)
    requires InputsWithin(witnesses, trades, after, until)
    ensures RowsWithin(WitnessRows(witnesses), after, until) && RowsWithin(TradeRows(trades), after, until)
  {
  }

  /** A stream of the inputs up to a time and the later ones is the one stream, then the
      other. */
  lemma ChronologySplits(w: seq<WitnessRow>, t: seq<Trade>, after: Option<int>, end: int, v: seq<WitnessRow>,
                         u: seq<Trade>, until: int)
    requires InputsWithin(w, t, after, end) && InputsWithin(v, u, Some(end), until)
    ensures Chronology(w + v, t + u) == Chronology(w, t) + Chronology(v, u)
  {
    KeyedWithin(w, t, after, end);
    KeyedWithin(v, u, Some(end), until);
    TimesDecide(WitnessRows(w), WitnessRows(v), after, end, until);
    TimesDecide(WitnessRows(w), TradeRows(u), after, end, until);
    TimesDecide(TradeRows(t), WitnessRows(v), after, end, until);
    TimesDecide(TradeRows(t), TradeRows(u), after, end, until);
    assert WitnessRows(w + v) == WitnessRows(w) + WitnessRows(v);
    assert TradeRows(t + u) == TradeRows(t) + TradeRows(u);
    MergeSplits(WitnessRows(w), TradeRows(t), WitnessRows(v), TradeRows(u));
  }

  lemma ChronologyWithin(w: seq<WitnessRow>, t: seq<Trade>, after: Option<int>, until: int)
    requires InputsWithin(w, t, after, until)
    ensures NoLater(Chronology(w, t), until) && (after.Some? ==> AllAfter(Chronology(w, t), after.value))
  {
    var merged, events := Merge2(WitnessRows(w), TradeRows(t)), Chronology(w, t);
    KeyedWithin(w, t, after, until);
    Merge2Elements(WitnessRows(w), TradeRows(t));
    forall i | 0 <= i < |events|
      ensures TimeOf(events[i]) <= until && (after.Some? ==> TimeOf(events[i]) > after.value)
    {
      assert merged[i] in merged;
    }
  }

  // ---------------------------------------------------------------------------------
  // Splitting the inputs of a chain
  // ---------------------------------------------------------------------------------

  /** The input pieces of a chain of runs. */
  datatype Inputs =
    | Piece(witnesses: seq<WitnessRow>, trades: seq<Trade>)
    | More(front: Inputs, witnesses: seq<WitnessRow>, trades: seq<Trade>)

  function AllWitnesses(inputs: Inputs): seq<WitnessRow> {
    match inputs
    case Piece(witnesses, _) => witnesses
    case More(front, witnesses, _) => AllWitnesses(front) + witnesses
  }

  function AllTrades(inputs: Inputs): seq<Trade> {
    match inputs
    case Piece(_, trades) => trades
    case More(front, _, trades) => AllTrades(front) + trades
  }

  function PreviousEnd(c: Chain): Option<int> {
    if c.Then? then Some(EndOf(c.front)) else None
  }

  /** Each run reads its own piece of the inputs, and adjoining partitions take adjoining
      pieces. */
  ghost predicate Pieces(c: Chain, inputs: Inputs) {
    && InputsWithin(inputs.witnesses, inputs.trades, PreviousEnd(c), EndOf(c))
    && c.run.events == Chronology(inputs.witnesses, inputs.trades) && c.run.part.emitStart <= EndOf(c)
    && (c.Then? <==> inputs.More?)
    && (c.Then? ==> c.run.part.emitStart == EndOf(c.front) + 1 && Pieces(c.front, inputs.front))
  }

  lemma {:induction false} PiecesCut(c: Chain, inputs: Inputs)
    requires Pieces(c, inputs)
    ensures Cut(c)
  {
    ChronologyWithin(inputs.witnesses, inputs.trades, PreviousEnd(c), EndOf(c));
    if c.Then? { PiecesCut(c.front, inputs.front); }
  }

  lemma WithinMore(w: seq<WitnessRow>, t: seq<Trade>, end: int, v: seq<WitnessRow>, u: seq<Trade>, until: int)
    requires InputsWithin(w, t, None, end) && InputsWithin(v, u, Some(end), until) && end <= until
    ensures InputsWithin(w + v, t + u, None, until)
  {
  }

  lemma {:induction false} AllWithin(c: Chain, inputs: Inputs)
    requires Pieces(c, inputs)
    ensures InputsWithin(AllWitnesses(inputs), AllTrades(inputs), None, EndOf(c))
  {
    if c.Then? {
      AllWithin(c.front, inputs.front);
      WithinMore(AllWitnesses(inputs.front), AllTrades(inputs.front), EndOf(c.front), inputs.witnesses, inputs.trades,
          EndOf(c));
    }
  }

  lemma {:induction false} PiecesStream(c: Chain, inputs: Inputs)
    requires Pieces(c, inputs)
    ensures Stream(c) == Chronology(AllWitnesses(inputs), AllTrades(inputs))
  {
    if c.Then? {
      PiecesStream(c.front, inputs.front);
      AllWithin(c.front, inputs.front);
      ChronologySplits(AllWitnesses(inputs.front), AllTrades(inputs.front), None, EndOf(c.front),
                       inputs.witnesses, inputs.trades, EndOf(c));
    } else {
      assert Before(c) + c.run.events == c.run.events;
    }
  }

  /** Partition invariance on inputs: the chained runs over the pieces of the sorted witnesses
      and trades give, concatenated, rows that match one run over all of them. */
  lemma SplitInputsMatchUncut(req: Request, c: Chain, inputs: Inputs, part: Partition, uncut: Output)
    requires Pieces(c, inputs) && Chained(req, c)
    requires Sorted(WitnessRows(AllWitnesses(inputs))) && Sorted(TradeRows(AllTrades(inputs)))
    requires Carriable(Chronology(AllWitnesses(inputs), AllTrades(inputs)))
    requires part.emitStart == StartOf(c) && part.emitEnd == EndOf(c) && WellFormed(req, part)
    requires Outcome(req, part, NO_CARRY, Chronology(AllWitnesses(inputs), AllTrades(inputs)), Ok(uncut))
    ensures RowsMatch(req, ChainRows(c), uncut.rows, Chronology(AllWitnesses(inputs), AllTrades(inputs)))
  {
    PiecesCut(c, inputs);
    PiecesStream(c, inputs);
    ChronologyOrdered(AllWitnesses(inputs), AllTrades(inputs));
    ChainMatchesUncut(req, c, part, uncut);
  }
}
