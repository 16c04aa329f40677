/** How the rows of the input files are numbered does not matter. The numbers only decide
    between a witness and a trade of equal time and block, and what a run does depends on the
    observations and the trades of its stream alone. */
module InputNumbering {
  import opened Results
  import opened Ordering
  import opened SpillSort
  import opened CausalFrontier
  import opened CausalIndex
  import opened CausalRolling
  import opened CausalEvents
  import opened CausalGrid
  import opened CausalPartitions
  import opened CausalChain
  import opened PartitionInvariance
  import opened SplitInputs

  // ---------------------------------------------------------------------------------
  // What a sweep depends on
  // ---------------------------------------------------------------------------------

  /** All trades of a stream, in order. */
  function TradesIn(events: seq<Event>): seq<Trade> {
    if events == [] then []
    else
      var last := events[|events| - 1];
      TradesIn(events[..|events| - 1]) + if last.Traded? then [last.trade] else []
  }

  /** Two streams with the same observations and the same trades. */
  ghost predicate Alike(a: seq<Event>, b: seq<Event>) {
    ObsOf(a) == ObsOf(b) && TradesIn(a) == TradesIn(b)
  }

  function IndexAfter(missing: seq<int>, index: map<int, Frontier>, obs: seq<Observation>): map<int, Frontier> {
    if obs == [] then index
    else ObservedIn(missing, IndexAfter(missing, index, obs[..|obs| - 1]), obs[|obs| - 1])
  }

  /** What one trade does to the windows and the watermark. */
  function Taken(req: Request, part: Partition, st: SweepState, t: Trade): SweepState {
    if t.symbol in st.windows then
      var w := Watermark(req, part, st.watermark, t);
      st.(windows := IngestAt(st.windows, t, w), watermark := if t.time < ScanStart(req, part) then st.watermark else w)
    else st
  }

  function WindowsAfter(req: Request, part: Partition, st: SweepState, trades: seq<Trade>): SweepState {
    if trades == [] then st
    else Taken(req, part, WindowsAfter(req, part, st, trades[..|trades| - 1]), trades[|trades| - 1])
  }

  function Combined(req: Request, part: Partition, st: SweepState, obs: seq<Observation>,
                    trades: seq<Trade>): SweepState {
    WindowsAfter(req, part, st, trades).(index := IndexAfter(req.missing, st.index, obs))
  }

  lemma CombinedStep(req: Request, part: Partition, st: SweepState, obs: seq<Observation>, trades: seq<Trade>, e: Event)
    ensures Step(req, part, Combined(req, part, st, obs, trades), e) ==
            Combined(req, part, st, obs + [Obs(e)], trades + if e.Traded? then [e.trade] else [])
  {
    assert (obs + [Obs(e)])[..|obs|] == obs;
    if e.Traded? {
      assert (trades + [e.trade])[..|trades|] == trades;
    } else {
      assert trades + [] == trades;
    }
  }

  /** The state after a stream depends on its observations and its trades only. */
  lemma {:induction false} AfterIsCombined(req: Request, part: Partition, st: SweepState, events: seq<Event>)
    ensures After(req, part, st, events) == Combined(req, part, st, ObsOf(events), TradesIn(events))
  {
    if events != [] {
      var front, last := events[..|events| - 1], events[|events| - 1];
      AfterIsCombined(req, part, st, front);
      CombinedStep(req, part, st, ObsOf(front), TradesIn(front), last);
    }
  }

  lemma {:induction false} ObsAt(events: seq<Event>)
    ensures |ObsOf(events)| == |events|
    ensures forall i :: 0 <= i < |events| ==> ObsOf(events)[i] == Obs(events[i])
  {
    if events != [] {
      var front := events[..|events| - 1];
      ObsAt(front);
      assert forall i :: 0 <= i < |front| ==> front[i] == events[i];
    }
  }

  function NotLater(trades: seq<Trade>, t: int): seq<Trade> {
    if trades == [] then []
    else
      var last := trades[|trades| - 1];
      NotLater(trades[..|trades| - 1], t) + if last.time <= t then [last] else []
  }

  lemma NotLaterSnoc(trades: seq<Trade>, x: Trade, t: int)
    ensures NotLater(trades + [x], t) == NotLater(trades, t) + if x.time <= t then [x] else []
  {
    assert (trades + [x])[..|trades|] == trades;
  }

  /** In a chronological stream the trades up to a time are those not later than it. */
  lemma {:induction false} TradesUpTo(events: seq<Event>, t: int)
    requires Chronological(events)
    ensures TradesIn(UpTo(events, t)) == NotLater(TradesIn(events), t)
  {
    if events != [] {
      var front, last := events[..|events| - 1], events[|events| - 1];
      assert events == front + [last] && forall i :: 0 <= i < |front| ==> front[i] == events[i];
      TradesUpTo(front, t);
      assert TradesIn(front) + [] == TradesIn(front);
      assert NotLater(TradesIn(front), t) + [] == NotLater(TradesIn(front), t);
      if last.Traded? { NotLaterSnoc(TradesIn(front), last.trade, t); }
      if TimeOf(last) <= t {
        UpToEverything(events, t);
        UpToEverything(front, t);
      } else {
        UpToBeforeMore(front, [last], t);
      }
    }
  }

  lemma ObsOfPrefix(events: seq<Event>, n: nat)
    requires n <= |events|
    ensures |ObsOf(events)| == |events| && ObsOf(events[..n]) == ObsOf(events)[..n]
  {
    ObsAt(events);
    ObsAt(events[..n]);
  }

  /** Streams with the same observations reach the same length up to any time. */
  lemma SameLength(a: seq<Event>, b: seq<Event>, t: int)
    requires ObsOf(a) == ObsOf(b)
    ensures |UpTo(a, t)| <= |a| == |b| && UpTo(b, t) == b[..|UpTo(a, t)|]
  {
    ObsAt(a);
    ObsAt(b);
    UpToPrefix(a, t);
    assert forall i :: 0 <= i < |a| ==> TimeOf(a[i]) == ObsOf(a)[i].time == TimeOf(b[i]);
    UpToIs(b, |UpTo(a, t)|, t);
  }

  lemma AlikeUpTo(a: seq<Event>, b: seq<Event>, t: int)
    requires Alike(a, b) && Chronological(a) && Chronological(b)
    ensures Alike(UpTo(a, t), UpTo(b, t))
  {
    TradesUpTo(a, t);
    TradesUpTo(b, t);
    ObsAt(a);
    ObsAt(b);
    SameLength(a, b, t);
    UpToPrefix(a, t);
    ObsOfPrefix(a, |UpTo(a, t)|);
    ObsOfPrefix(b, |UpTo(a, t)|);
  }

  lemma AlikeStates(req: Request, part: Partition, st: SweepState, a: seq<Event>, b: seq<Event>, t: int)
    requires Alike(a, b) && Chronological(a) && Chronological(b)
    ensures After(req, part, st, UpTo(a, t)) == After(req, part, st, UpTo(b, t))
  {
    AlikeUpTo(a, b, t);
    AfterIsCombined(req, part, st, UpTo(a, t));
    AfterIsCombined(req, part, st, UpTo(b, t));
  }

  lemma {:induction false} AlikeRows(req: Request, part: Partition, st: SweepState, a: seq<Event>, b: seq<Event>,
                                     times: seq<int>)
    requires Alike(a, b) && Chronological(a) && Chronological(b)
    ensures RowsOver(req, part, st, a, times) == RowsOver(req, part, st, b, times)
  {
    if times != [] {
      AlikeRows(req, part, st, a, b, times[..|times| - 1]);
      AlikeStates(req, part, st, a, b, times[|times| - 1]);
    }
  }

  lemma AlikeFailure(req: Request, part: Partition, a: seq<Event>, b: seq<Event>)
    requires Alike(a, b) && Chronological(a) && Chronological(b) && WellFormed(req, part)
    ensures Failure(req, part, a) == Failure(req, part, b)
  {
    AlikeUpTo(a, b, part.emitEnd);
    var x, y := UpTo(a, part.emitEnd), UpTo(b, part.emitEnd);
    ObsAt(x);
    ObsAt(y);
    assert forall i :: 0 <= i < |x| ==> TimeOf(x[i]) == ObsOf(x)[i].time == TimeOf(y[i]);
  }

  /** Runs over alike streams fail alike, and give the same rows and the same carry. */
  lemma AlikeOutcome(req: Request, part: Partition, carry: Carry, a: seq<Event>, b: seq<Event>,
                     r: Result<Output, GridError>)
    requires Alike(a, b) && Chronological(a) && Chronological(b) && WellFormed(req, part)
    requires Outcome(req, part, carry, a, r)
    ensures Outcome(req, part, carry, b, r)
  {
    AlikeFailure(req, part, a, b);
    AlikeRows(req, part, Start(req, part, carry), a, b, Times(req.grid, part.emitStart, part.emitEnd));
    AlikeStates(req, part, Start(req, part, carry), a, b, part.emitEnd);
  }

  // ---------------------------------------------------------------------------------
  // What the numbering can change
  // ---------------------------------------------------------------------------------

  lemma {:induction false} TradesInAppend(a: seq<Event>, b: seq<Event>)
    ensures TradesIn(a + b) == TradesIn(a) + TradesIn(b)
  {
    if b == [] {
      assert a + b == a;
    } else {
      var all := a + b;
      assert all[..|all| - 1] == a + b[..|b| - 1];
      TradesInAppend(a, b[..|b| - 1]);
    }
  }

  lemma {:induction false} ObsAppend(a: seq<Event>, b: seq<Event>)
    ensures ObsOf(a + b) == ObsOf(a) + ObsOf(b)
  {
    ObsAt(a);
    ObsAt(b);
    ObsAt(a + b);
  }

  lemma TradesInOne(e: Event)
    ensures TradesIn([e]) == if e.Traded? then [e.trade] else []
    ensures ObsOf([e]) == [Obs(e)]
  {
    assert [e][..0] == [];
  }

  lemma PayloadsHead(rows: seq<Row<Event>>)
    requires rows != []
    ensures Payloads(rows) == [rows[0].payload] + Payloads(rows[1..])
  {
  }

  lemma SplitHead(rows: seq<Row<Event>>)
    requires rows != []
    ensures TradesIn(Payloads(rows)) ==
            (if rows[0].payload.Traded? then [rows[0].payload.trade] else []) + TradesIn(Payloads(rows[1..]))
    ensures ObsOf(Payloads(rows)) == [Obs(rows[0].payload)] + ObsOf(Payloads(rows[1..]))
  {
    PayloadsHead(rows);
    TradesInAppend([rows[0].payload], Payloads(rows[1..]));
    ObsAppend([rows[0].payload], Payloads(rows[1..]));
    TradesInOne(rows[0].payload);
  }

  ghost predicate NoTrades(rows: seq<Row<Event>>) {
    forall i :: 0 <= i < |rows| ==> rows[i].payload.Witnessed?
  }

  lemma {:induction false} NoTradesIn(rows: seq<Row<Event>>)
    requires NoTrades(rows)
    ensures TradesIn(Payloads(rows)) == []
  {
    if rows != [] {
      SplitHead(rows);
      NoTradesIn(rows[1..]);
    }
  }

  /** Merging witnesses in leaves the trades as they were. */
  lemma {:induction false} MergeKeepsTrades(a: seq<Row<Event>>, b: seq<Row<Event>>)
    requires NoTrades(a)
    ensures TradesIn(Payloads(Merge2(a, b))) == TradesIn(Payloads(b))
    decreases |a| + |b|
  {
    if b == [] {
      NoTradesIn(a);
    } else if a != [] {
      SplitHead(Merge2(a, b));
      Merge2Head(a, b);
      if KeyLess(b[0].key, a[0].key) {
        SplitHead(b);
        MergeKeepsTrades(a, b[1..]);
      } else {
        MergeKeepsTrades(a[1..], b);
      }
    }
  }

  /** The observations of some rows, in any order. */
  function ObsBag(rows: seq<Row<Event>>): multiset<Observation> {
    multiset(ObsOf(Payloads(rows)))
  }

  lemma BagHead(rows: seq<Row<Event>>)
    requires rows != []
    ensures ObsBag(rows) == multiset{Obs(rows[0].payload)} + ObsBag(rows[1..])
  {
    SplitHead(rows);
  }

  lemma BagEmpty()
    ensures ObsBag([]) == multiset{}
  {
  }

  lemma ObsFromSecond(a: seq<Row<Event>>, b: seq<Row<Event>>)
    requires a != [] && b != [] && KeyLess(b[0].key, a[0].key)
    requires ObsBag(Merge2(a, b[1..])) == ObsBag(a) + ObsBag(b[1..])
    ensures ObsBag(Merge2(a, b)) == ObsBag(a) + ObsBag(b)
  {
    Merge2Head(a, b);
    BagHead(Merge2(a, b));
    BagHead(b);
  }

  lemma ObsFromFirst(a: seq<Row<Event>>, b: seq<Row<Event>>)
    requires a != [] && b != [] && !KeyLess(b[0].key, a[0].key)
    requires ObsBag(Merge2(a[1..], b)) == ObsBag(a[1..]) + ObsBag(b)
    ensures ObsBag(Merge2(a, b)) == ObsBag(a) + ObsBag(b)
  {
    Merge2Head(a, b);
    BagHead(Merge2(a, b));
    BagHead(a);
  }

  /** Merging keeps every observation. */
  lemma {:induction false} MergeKeepsObs(a: seq<Row<Event>>, b: seq<Row<Event>>)
    ensures ObsBag(Merge2(a, b)) == ObsBag(a) + ObsBag(b)
    decreases |a| + |b|
  {
    if a == [] || b == [] {
      BagEmpty();
    } else if KeyLess(b[0].key, a[0].key) {
      MergeKeepsObs(a, b[1..]);
      ObsFromSecond(a, b);
    } else {
      MergeKeepsObs(a[1..], b);
      ObsFromFirst(a, b);
    }
  }

  predicate ObsLeq(a: Observation, b: Observation) {
    a.time < b.time || (a.time == b.time && a.block <= b.block)
  }

  ghost predicate ObsSorted(obs: seq<Observation>) {
    forall i, j :: 0 <= i < j < |obs| ==> ObsLeq(obs[i], obs[j])
  }

  lemma HeadObs(obs: seq<Observation>)
    requires obs != []
    ensures multiset(obs) == multiset{obs[0]} + multiset(obs[1..]) && obs[0] in multiset(obs)
  {
    assert obs == [obs[0]] + obs[1..];
  }

  lemma LeastFirst(obs: seq<Observation>, o: Observation)
    requires ObsSorted(obs) && o in multiset(obs)
    ensures obs != [] && ObsLeq(obs[0], o)
  {
    var i :| 0 <= i < |obs| && obs[i] == o;
  }

  lemma SameHead(a: seq<Observation>, b: seq<Observation>)
    requires ObsSorted(a) && ObsSorted(b) && multiset(a) == multiset(b) && a != [] && b != []
    ensures a[0] == b[0] && multiset(a[1..]) == multiset(b[1..])
  {
    HeadObs(a);
    HeadObs(b);
    LeastFirst(a, b[0]);
    LeastFirst(b, a[0]);
    assert multiset(a[1..]) == multiset(a) - multiset{a[0]};
    assert multiset(b[1..]) == multiset(b) - multiset{b[0]};
  }

  lemma SameEnds(a: seq<Observation>, b: seq<Observation>)
    requires multiset(a) == multiset(b)
    ensures a == [] <==> b == []
  {
    if a != [] { HeadObs(a); }
    if b != [] { HeadObs(b); }
  }

  /** Observations have one sorted listing. */
  lemma {:induction false} SortedObsUnique(a: seq<Observation>, b: seq<Observation>)
    requires ObsSorted(a) && ObsSorted(b) && multiset(a) == multiset(b)
    ensures a == b
  {
    SameEnds(a, b);
    if a != [] {
      SameHead(a, b);
      TailSorted(a);
      TailSorted(b);
      SortedObsUnique(a[1..], b[1..]);
      assert a == [a[0]] + a[1..] && b == [b[0]] + b[1..];
    }
  }

  lemma TailSorted(obs: seq<Observation>)
    requires obs != [] && ObsSorted(obs)
    ensures ObsSorted(obs[1..])
  {
    assert forall i :: 0 <= i < |obs| - 1 ==> obs[1..][i] == obs[i + 1];
  }

  /** Keys start with time and block. */
  ghost predicate KeyedByObs(rows: seq<Row<Event>>) {
    forall r :: r in rows ==>
      |r.key.parts| >= 2 && r.key.parts[0] == Obs(r.payload).time && r.key.parts[1] == Obs(r.payload).block
  }

  lemma KeyedObsLeq(a: Row<Event>, b: Row<Event>)
    requires KeyedByObs([a, b]) && KeyLeq(a.key, b.key)
    ensures ObsLeq(Obs(a.payload), Obs(b.payload))
  {
    assert a in [a, b] && b in [a, b];
    var x, y := a.key.parts, b.key.parts;
    assert y[1..][0] == y[1] && x[1..][0] == x[1];
    assert PartsLess(y, x) == if y[0] != x[0] then y[0] < x[0] else PartsLess(y[1..], x[1..]);
    assert PartsLess(y[1..], x[1..]) == if y[1] != x[1] then y[1] < x[1] else PartsLess(y[1..][1..], x[1..][1..]);
  }

  lemma SortedRowsObs(rows: seq<Row<Event>>)
    requires Sorted(rows) && KeyedByObs(rows)
    ensures ObsSorted(ObsOf(Payloads(rows)))
  {
    ObsAt(Payloads(rows));
    var obs := ObsOf(Payloads(rows));
    forall i, j | 0 <= i < j < |obs| ensures ObsLeq(obs[i], obs[j]) {
      assert rows[i] in rows && rows[j] in rows;
      KeyedObsLeq(rows[i], rows[j]);
    }
  }

  /** What the witness rows show, whatever their numbers. */
  function Seen(witnesses: seq<WitnessRow>): seq<Observation> {
    ObsOf(Payloads(WitnessRows(witnesses)))
  }

  lemma KeyedRows(w: seq<WitnessRow>, t: seq<Trade>)
    ensures KeyedByObs(WitnessRows(w)) && KeyedByObs(TradeRows(t))
  {
  }

  lemma MergedKeyed(a: seq<Row<Event>>, b: seq<Row<Event>>)
    requires KeyedByObs(a) && KeyedByObs(b) && Sorted(a) && Sorted(b)
    ensures Sorted(Merge2(a, b)) && KeyedByObs(Merge2(a, b))
  {
    Merge2Sorted(a, b);
    Merge2Elements(a, b);
  }

  lemma ChronologyObs(w: seq<WitnessRow>, t: seq<Trade>)
    requires Sorted(WitnessRows(w)) && Sorted(TradeRows(t))
    ensures ObsSorted(ObsOf(Chronology(w, t)))
    ensures multiset(ObsOf(Chronology(w, t))) == multiset(Seen(w)) + ObsBag(TradeRows(t))
  {
    KeyedRows(w, t);
    MergeKeepsObs(WitnessRows(w), TradeRows(t));
    MergedKeyed(WitnessRows(w), TradeRows(t));
    SortedRowsObs(Merge2(WitnessRows(w), TradeRows(t)));
  }

  lemma RenumberedObs(v: seq<WitnessRow>, w: seq<WitnessRow>, t: seq<Trade>)
    requires Sorted(WitnessRows(v)) && Sorted(WitnessRows(w)) && Sorted(TradeRows(t))
    requires multiset(Seen(v)) == multiset(Seen(w))
    ensures ObsOf(Chronology(v, t)) == ObsOf(Chronology(w, t))
  {
    ChronologyObs(v, t);
    ChronologyObs(w, t);
    SortedObsUnique(ObsOf(Chronology(v, t)), ObsOf(Chronology(w, t)));
  }

  lemma ChronologyTrades(w: seq<WitnessRow>, t: seq<Trade>)
    ensures TradesIn(Chronology(w, t)) == TradesIn(Payloads(TradeRows(t)))
  {
    MergeKeepsTrades(WitnessRows(w), TradeRows(t));
  }

  /** Witness rows that show the same give alike streams with the same trades, however they
      are numbered. */
  lemma RenumberedAlike(v: seq<WitnessRow>, w: seq<WitnessRow>, t: seq<Trade>)
    requires Sorted(WitnessRows(v)) && Sorted(WitnessRows(w)) && Sorted(TradeRows(t))
    requires multiset(Seen(v)) == multiset(Seen(w))
    ensures Alike(Chronology(v, t), Chronology(w, t))
    ensures Chronological(Chronology(v, t)) && Chronological(Chronology(w, t))
  {
    RenumberedObs(v, w, t);
    ChronologyTrades(v, t);
    ChronologyTrades(w, t);
    ChronologyOrdered(v, t);
    ChronologyOrdered(w, t);
  }

  // ---------------------------------------------------------------------------------
  // Split files
  // ---------------------------------------------------------------------------------

  /** Each piece is sorted by its own numbering. */
  ghost predicate PiecesSorted(inputs: Inputs) {
    && Sorted(WitnessRows(inputs.witnesses)) && Sorted(TradeRows(inputs.trades))
    && (inputs.More? ==> PiecesSorted(inputs.front))
  }

  lemma SortedJoin(a: seq<Row<Event>>, b: seq<Row<Event>>)
    requires Sorted(a) && Sorted(b) && KeysBelow(a, b)
    ensures Sorted(a + b)
  {
    var s := a + b;
    forall i, j | 0 <= i < j < |s| ensures KeyLeq(s[i].key, s[j].key) {
      if i < |a| <= j {
        assert s[i] in a && s[j] in b;
        KeyLessAsymmetric(s[i].key, s[j].key);
      }
    }
  }

  /** Pieces of adjoining times that are sorted each are sorted together. */
  lemma {:induction false} AllSortedTogether(c: Chain, inputs: Inputs)
    requires Pieces(c, inputs) && PiecesSorted(inputs)
    ensures Sorted(WitnessRows(AllWitnesses(inputs))) && Sorted(TradeRows(AllTrades(inputs)))
  {
    if c.Then? {
      AllSortedTogether(c.front, inputs.front);
      AllWithin(c.front, inputs.front);
      JoinSorted(AllWitnesses(inputs.front), AllTrades(inputs.front), EndOf(c.front), inputs.witnesses, inputs.trades,
          EndOf(c));
    }
  }

  lemma JoinSorted(w: seq<WitnessRow>, t: seq<Trade>, end: int, v: seq<WitnessRow>, u: seq<Trade>, until: int)
    requires InputsWithin(w, t, None, end) && InputsWithin(v, u, Some(end), until)
    requires Sorted(WitnessRows(w)) && Sorted(TradeRows(t)) && Sorted(WitnessRows(v)) && Sorted(TradeRows(u))
    ensures Sorted(WitnessRows(w + v)) && Sorted(TradeRows(t + u))
  {
    KeyedWithin(w, t, None, end);
    KeyedWithin(v, u, Some(end), until);
    TimesDecide(WitnessRows(w), WitnessRows(v), None, end, until);
    TimesDecide(TradeRows(t), TradeRows(u), None, end, until);
    SortedJoin(WitnessRows(w), WitnessRows(v));
    SortedJoin(TradeRows(t), TradeRows(u));
    assert WitnessRows(w + v) == WitnessRows(w) + WitnessRows(v);
    assert TradeRows(t + u) == TradeRows(t) + TradeRows(u);
  }

  /** Partition invariance on files. Each piece numbers its witness rows afresh, and one run
      over everything numbers them in its own way. As long as the witnesses show the same and
      the trades are the same, the chained runs give the rows of the one run. */
  lemma SplitFilesMatchUncut(req: Request, c: Chain, inputs: Inputs, w: seq<WitnessRow>, part: Partition, uncut: Output)
    requires Pieces(c, inputs) && PiecesSorted(inputs) && Chained(req, c)
    requires Sorted(WitnessRows(w)) && multiset(Seen(w)) == multiset(Seen(AllWitnesses(inputs)))
    requires Carriable(Stream(c))
    requires part.emitStart == StartOf(c) && part.emitEnd == EndOf(c) && WellFormed(req, part)
    requires Outcome(req, part, NO_CARRY, Chronology(w, AllTrades(inputs)), Ok(uncut))
    ensures RowsMatch(req, ChainRows(c), uncut.rows, Stream(c))
  {
    var v, t := AllWitnesses(inputs), AllTrades(inputs);
    AllSortedTogether(c, inputs);
    PiecesStream(c, inputs);
    RenumberedAlike(w, v, t);
    AlikeOutcome(req, part, NO_CARRY, Chronology(w, t), Chronology(v, t), Ok(uncut));
    SplitInputsMatchUncut(req, c, inputs, part, uncut);
  }
}
