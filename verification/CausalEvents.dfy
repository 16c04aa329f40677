/** Grid times, and the single chronological stream of witness and trade events. */
module CausalEvents {
  import opened Ordering
  import opened SpillSort
  import opened CausalFrontier
  import opened CausalRolling

  // ---------------------------------------------------------------------------------
  // Grid times
  // ---------------------------------------------------------------------------------

  datatype EmitGrid = EmitGrid(start: int, end: int, step: int)

  predicate OnGrid(grid: EmitGrid, t: int)
    requires grid.step > 0
  {
    grid.start <= t <= grid.end && (t - grid.start) % grid.step == 0
  }

  /** The grid times in an interval, in ascending order. */
  function Times(grid: EmitGrid, lo: int, hi: int): seq<int>
    requires grid.step > 0
    decreases hi - lo
  {
    if hi < lo then [] else Times(grid, lo, hi - 1) + if OnGrid(grid, hi) then [hi] else []
  }

  lemma {:induction false} TimesWithin(grid: EmitGrid, lo: int, hi: int)
    requires grid.step > 0
    ensures forall i :: 0 <= i < |Times(grid, lo, hi)| ==>
      lo <= Times(grid, lo, hi)[i] <= hi && OnGrid(grid, Times(grid, lo, hi)[i])
    ensures forall i, j :: 0 <= i < j < |Times(grid, lo, hi)| ==> Times(grid, lo, hi)[i] < Times(grid, lo, hi)[j]
    ensures forall t :: lo <= t <= hi && OnGrid(grid, t) ==> t in Times(grid, lo, hi)
    decreases hi - lo
  {
    if lo <= hi {
      TimesWithin(grid, lo, hi - 1);
    }
  }

  /** Adjacent intervals tile: no grid time is lost or emitted twice at a cut. */
  lemma {:induction false} TimesTile(grid: EmitGrid, lo: int, cut: int, hi: int)
    requires grid.step > 0 && lo <= cut + 1 && cut <= hi
    ensures Times(grid, lo, hi) == Times(grid, lo, cut) + Times(grid, cut + 1, hi)
    decreases hi - cut
  {
    if cut < hi {
      TimesTile(grid, lo, cut, hi - 1);
    }
  }

  lemma {:induction false} NoTimes(grid: EmitGrid, lo: int, hi: int)
    requires grid.step > 0 && forall t :: lo <= t <= hi ==> !OnGrid(grid, t)
    ensures Times(grid, lo, hi) == []
    decreases hi - lo
  {
    if lo <= hi { NoTimes(grid, lo, hi - 1); }
  }

  /** Between a multiple of the step and the next one there is no grid time. */
  lemma BetweenSteps(grid: EmitGrid, cursor: int, t: int)
    requires grid.step > 0 && (cursor - grid.start) % grid.step == 0 && cursor < t < cursor + grid.step
    ensures !OnGrid(grid, t)
  {
    var a, d, n := cursor - grid.start, t - cursor, grid.step;
    assert (t - grid.start) == a + d;
    ModAdd(a, d, n);
  }

  lemma ModAdd(a: int, d: int, n: int)
    requires n > 0 && a % n == 0 && 0 <= d < n
    ensures (a + d) % n == d
  {
    var q := a / n;
    assert a == q * n;
    ModUnique(a + d, n, q, d);
  }

  lemma MultipleAtLeast(k: int, n: int)
    requires k >= 1 && n > 0
    ensures k * n >= n
  {
  }

  lemma Distribute(a: int, b: int, n: int)
    ensures (a - b) * n == a * n - b * n
  {
  }

  lemma ModUnique(x: int, n: int, q: int, r: int)
    requires n > 0 && x == q * n + r && 0 <= r < n
    ensures x % n == r
  {
    var q' := x / n;
    var r' := x % n;
    Distribute(q, q', n);
    Distribute(q', q, n);
    if q > q' { MultipleAtLeast(q - q', n); }
    if q < q' { MultipleAtLeast(q' - q, n); }
  }

  lemma StepTimes(grid: EmitGrid, lo: int, cursor: int, end: int)
    requires grid.step > 0 && (cursor - grid.start) % grid.step == 0
    requires grid.start <= lo <= cursor <= end <= grid.end
    ensures (cursor + grid.step - grid.start) % grid.step == 0
    ensures var next := if cursor + grid.step - 1 < end then cursor + grid.step - 1 else end;
      Times(grid, lo, next) == Times(grid, lo, cursor - 1) + [cursor]
  {
    var next := if cursor + grid.step - 1 < end then cursor + grid.step - 1 else end;
    ModShift(cursor - grid.start, grid.step);
    TimesTile(grid, lo, cursor - 1, next);
    TimesTile(grid, cursor, cursor, next);
    forall t | cursor + 1 <= t <= next ensures !OnGrid(grid, t) { BetweenSteps(grid, cursor, t); }
    NoTimes(grid, cursor + 1, next);
    assert Times(grid, cursor, cursor) == Times(grid, cursor, cursor - 1) + [cursor];
  }

  lemma ModShift(a: int, n: int)
    requires n > 0 && a % n == 0
    ensures (a + n) % n == 0
  {
    var q := a / n;
    assert a + n == (q + 1) * n + 0 by { assert (q + 1) * n == q * n + n; }
    ModUnique(a + n, n, q + 1, 0);
  }

  predicate OnStep(grid: EmitGrid, cursor: int)
    requires grid.step > 0
  {
    (cursor - grid.start) % grid.step == 0
  }

  lemma NextOnStep(grid: EmitGrid, cursor: int)
    requires grid.step > 0
    ensures OnStep(grid, grid.start)
    ensures OnStep(grid, cursor) ==> OnStep(grid, cursor + grid.step)
  {
    ModUnique(0, grid.step, 0, 0);
    if OnStep(grid, cursor) { ModShift(cursor - grid.start, grid.step); }
  }

  /** The first multiple of the step at or after `start`. */
  method Align(grid: EmitGrid, start: int) returns (aligned: int)
    requires grid.step > 0 && grid.start <= start
    ensures OnStep(grid, aligned) && start <= aligned < start + grid.step
  {
    aligned := grid.start;
    NextOnStep(grid, aligned);
    while aligned < start
      invariant OnStep(grid, aligned) && aligned < start + grid.step
    {
      NextOnStep(grid, aligned);
      aligned := aligned + grid.step;
    }
  }

  lemma BeforeAligned(grid: EmitGrid, start: int, aligned: int, hi: int)
    requires grid.step > 0 && (aligned - grid.start) % grid.step == 0
    requires start <= aligned < start + grid.step && hi < aligned
    ensures Times(grid, start, hi) == []
  {
    var previous := aligned - grid.step;
    assert (previous - grid.start) % grid.step == 0 by {
      var q := (aligned - grid.start) / grid.step;
      assert (q - 1) * grid.step == q * grid.step - grid.step;
      assert previous - grid.start == (q - 1) * grid.step + 0;
      ModUnique(previous - grid.start, grid.step, q - 1, 0);
    }
    forall t | start <= t <= hi ensures !OnGrid(grid, t) { BetweenSteps(grid, previous, t); }
    NoTimes(grid, start, hi);
  }

  lemma {:induction false} TimesClipped(grid: EmitGrid, lo: int, hi: int)
    requires grid.step > 0
    ensures Times(grid, lo, hi) == Times(grid, Max(grid.start, lo), if grid.end < hi then grid.end else hi)
    decreases hi - lo
  {
    var start, end := Max(grid.start, lo), if grid.end < hi then grid.end else hi;
    if lo <= hi {
      if hi > grid.end {
        TimesClipped(grid, lo, hi - 1);
      } else if hi >= start {
        TimesClipped(grid, lo, hi - 1);
      } else {
        NoTimes(grid, lo, hi);
      }
    }
  }

  /** Steps through the grid inside the partition. */
  method GridTimestamps(grid: EmitGrid, emitStart: int, emitEnd: int) returns (timestamps: seq<int>)
    requires grid.step > 0
    ensures timestamps == Times(grid, emitStart, emitEnd)
  {
    var start := Max(grid.start, emitStart);
    var end := if grid.end < emitEnd then grid.end else emitEnd;
    TimesClipped(grid, emitStart, emitEnd);
    if end < start { return []; }
    var cursor := Align(grid, start);
    timestamps := [];
    BeforeAligned(grid, start, cursor, if cursor - 1 < end then cursor - 1 else end);
    while cursor <= end
      invariant (cursor - grid.start) % grid.step == 0 && cursor >= start
      invariant timestamps == Times(grid, start, if cursor - 1 < end then cursor - 1 else end)
    {
      StepTimes(grid, start, cursor, end);
      timestamps := timestamps + [cursor];
      cursor := cursor + grid.step;
    }
  }

  // ---------------------------------------------------------------------------------
  // Events
  // ---------------------------------------------------------------------------------

  datatype Event = Witnessed(seen: Observation) | Traded(trade: Trade)

  function Obs(e: Event): Observation {
    match e
    case Witnessed(w) => w
    case Traded(t) => Observation(t.time, t.block)
  }

  function TimeOf(e: Event): int {
    Obs(e).time
  }

  ghost predicate Chronological(events: seq<Event>) {
    forall i, j :: 0 <= i < j < |events| ==> TimeOf(events[i]) <= TimeOf(events[j])
  }

  datatype WitnessRow = WitnessRow(time: int, block: int, inputIndex: int, rowOffset: int)

  /** A witness sorts by time, block, input and row; a trade by time and block, after a
      witness with an equal key. */
  function WitnessKeyed(w: WitnessRow): Row<Event> {
    Row(Key([w.time, w.block, w.inputIndex, w.rowOffset]), Witnessed(Observation(w.time, w.block)))
  }

  function TradeKeyed(t: Trade): Row<Event> {
    Row(Key([t.time, t.block, 0, 0]), Traded(t))
  }

  function WitnessRows(witnesses: seq<WitnessRow>): seq<Row<Event>> {
    seq(|witnesses|, i requires 0 <= i < |witnesses| => WitnessKeyed(witnesses[i]))
  }

  function TradeRows(trades: seq<Trade>): seq<Row<Event>> {
    seq(|trades|, i requires 0 <= i < |trades| => TradeKeyed(trades[i]))
  }

  function Chronology(witnesses: seq<WitnessRow>, trades: seq<Trade>): seq<Event> {
    Payloads(Merge2(WitnessRows(witnesses), TradeRows(trades)))
  }

  ghost predicate TimeFirst(rows: seq<Row<Event>>) {
    forall i :: 0 <= i < |rows| ==> rows[i].key.parts != [] && rows[i].key.parts[0] == TimeOf(rows[i].payload)
  }

  lemma KeyedTimeFirst(witnesses: seq<WitnessRow>, trades: seq<Trade>)
    ensures TimeFirst(Merge2(WitnessRows(witnesses), TradeRows(trades)))
  {
    var merged := Merge2(WitnessRows(witnesses), TradeRows(trades));
    Merge2Elements(WitnessRows(witnesses), TradeRows(trades));
    forall i | 0 <= i < |merged|
      ensures merged[i].key.parts != [] && merged[i].key.parts[0] == TimeOf(merged[i].payload)
    {
      assert merged[i] in merged;
    }
  }

  /** Merging the two sorted inputs gives one stream ordered by time, holding every witness
      and every trade once. */
  lemma ChronologyOrdered(witnesses: seq<WitnessRow>, trades: seq<Trade>)
    requires Sorted(WitnessRows(witnesses)) && Sorted(TradeRows(trades))
    ensures Chronological(Chronology(witnesses, trades))
    ensures multiset(Merge2(WitnessRows(witnesses), TradeRows(trades))) ==
      multiset(WitnessRows(witnesses)) + multiset(TradeRows(trades))
  {
    var merged, events := Merge2(WitnessRows(witnesses), TradeRows(trades)), Chronology(witnesses, trades);
    Merge2Sorted(WitnessRows(witnesses), TradeRows(trades));
    Merge2Multiset(WitnessRows(witnesses), TradeRows(trades));
    KeyedTimeFirst(witnesses, trades);
    forall i, j | 0 <= i < j < |events| ensures TimeOf(events[i]) <= TimeOf(events[j]) {
      assert KeyLeq(merged[i].key, merged[j].key);
    }
  }

  lemma MoveHead<T>(taken: seq<T>, rest: seq<T>)
    requires rest != []
    ensures taken + rest == taken + [rest[0]] + rest[1..]
  {
    assert rest == [rest[0]] + rest[1..];
  }

  lemma TakeHead(allW: seq<Row<Event>>, allT: seq<Row<Event>>, w: nat, t: nat, taken: seq<Row<Event>>)
    requires w <= |allW| && t <= |allT| && (w < |allW| || t < |allT|)
    requires taken + Merge2(allW[w..], allT[t..]) == Merge2(allW, allT)
    ensures if w == |allW| || (t < |allT| && KeyLess(allT[t].key, allW[w].key))
      then taken + [allT[t]] + Merge2(allW[w..], allT[t + 1..]) == Merge2(allW, allT)
      else taken + [allW[w]] + Merge2(allW[w + 1..], allT[t..]) == Merge2(allW, allT)
  {
    var a, b := allW[w..], allT[t..];
    Merge2Head(a, b);
    MoveHead(taken, Merge2(a, b));
    if w == |allW| || (t < |allT| && KeyLess(allT[t].key, allW[w].key)) {
      assert b[1..] == allT[t + 1..];
    } else {
      assert a[1..] == allW[w + 1..];
    }
  }

  /** Repeatedly takes the smaller of the two heads. */
  method ChronologicalStream(witnesses: seq<WitnessRow>, trades: seq<Trade>) returns (events: seq<Event>)
    ensures events == Chronology(witnesses, trades)
  {
    var w, t := 0, 0;
    ghost var allW, allT := WitnessRows(witnesses), TradeRows(trades);
    ghost var taken: seq<Row<Event>> := [];
    events := [];
    assert allW[0..] == allW && allT[0..] == allT;
    while w < |witnesses| || t < |trades|
      invariant 0 <= w <= |witnesses| && 0 <= t <= |trades|
      invariant taken + Merge2(allW[w..], allT[t..]) == Merge2(allW, allT)
      invariant events == Payloads(taken)
      decreases |witnesses| - w + |trades| - t
    {
      TakeHead(allW, allT, w, t, taken);
      if w == |witnesses| || (t < |trades| && KeyLess(TradeKeyed(trades[t]).key, WitnessKeyed(witnesses[w]).key)) {
        taken := taken + [allT[t]];
        events, t := events + [Traded(trades[t])], t + 1;
      } else {
        taken := taken + [allW[w]];
        events, w := events + [Witnessed(Observation(witnesses[w].time, witnesses[w].block))], w + 1;
      }
    }
    assert allW[w..] == [] && allT[t..] == [] && taken + [] == taken;
  }
}
