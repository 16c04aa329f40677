/** The rolling trade window of one symbol and the facts read from it. */
module CausalRolling {
  import opened Results
  import opened Sequences
  import opened Ordering

  datatype Trade = Trade(symbol: int, time: int, block: int, tie: Key, price: real, notional: real)

  datatype TrailingSpec = TrailingSpec(factId: int, field: int, width: nat)

  /** What is asked at each grid time. `measure` looks a field up in a trade, and `add` is the
      machine's addition, about which nothing is assumed. */
  datatype FactSpec = FactSpec(
    offsets: seq<int>, trailing: seq<TrailingSpec>, asOfField: int,
    measure: (Trade, int) -> Option<real>, add: (real, real) -> real)

  datatype Facts = Facts(asOf: seq<Option<real>>, sums: seq<Option<real>>, counts: seq<Option<nat>>)

  function Max(a: int, b: int): int {
    if a < b then b else a
  }

  function MaxOf(s: seq<int>): int
    requires s != []
  {
    if |s| == 1 then s[0] else Max(MaxOf(s[..|s| - 1]), s[|s| - 1])
  }

  function Widths(trailing: seq<TrailingSpec>): seq<int> {
    seq(|trailing|, i requires 0 <= i < |trailing| => trailing[i].width)
  }

  /** The longest look back over offsets and trailing widths. */
  function Lookback(spec: FactSpec): int {
    Max(if spec.offsets == [] then 0 else MaxOf(spec.offsets),
        if spec.trailing == [] then 0 else MaxOf(Widths(spec.trailing)))
  }

  lemma {:induction false} MaxOfIs(s: seq<int>)
    requires s != []
    ensures forall i :: 0 <= i < |s| ==> s[i] <= MaxOf(s)
    ensures MaxOf(s) in s
  {
    if |s| > 1 {
      var front := s[..|s| - 1];
      MaxOfIs(front);
      assert forall i :: 0 <= i < |front| ==> s[i] == front[i];
    }
  }

  lemma LookbackCovers(spec: FactSpec)
    ensures forall i :: 0 <= i < |spec.offsets| ==> spec.offsets[i] <= Lookback(spec)
    ensures forall i :: 0 <= i < |spec.trailing| ==> spec.trailing[i].width <= Lookback(spec)
    ensures Lookback(spec) >= 0
  {
    if spec.offsets != [] { MaxOfIs(spec.offsets); }
    if spec.trailing != [] {
      MaxOfIs(Widths(spec.trailing));
      assert forall i :: 0 <= i < |spec.trailing| ==> Widths(spec.trailing)[i] == spec.trailing[i].width;
      assert Widths(spec.trailing)[0] >= 0;
    }
  }

  /** The look back is attained: it is an offset or a width, or zero when none is positive. */
  lemma LookbackAttained(spec: FactSpec)
    ensures var back := Lookback(spec);
      back == 0 || back in spec.offsets || exists i :: 0 <= i < |spec.trailing| && back == spec.trailing[i].width
  {
    if spec.offsets != [] { MaxOfIs(spec.offsets); }
    if spec.trailing != [] {
      var widths := Widths(spec.trailing);
      MaxOfIs(widths);
      var i :| 0 <= i < |widths| && widths[i] == MaxOf(widths);
      assert widths[i] == spec.trailing[i].width;
    }
  }

  // ---------------------------------------------------------------------------------
  // As-of facts
  // ---------------------------------------------------------------------------------

  predicate Qualifies(t: Trade, cutoff: int, g: int, target: int) {
    t.block <= cutoff && t.time <= g && t.time <= target
  }

  /** The trade preferred by a scan that only replaces its choice by a greater tie-break key. */
  function BestAt(events: seq<Trade>, cutoff: int, g: int, target: int): (r: Option<nat>)
    ensures r.Some? ==> r.value < |events|
  {
    if events == [] then None
    else
      var n := |events| - 1;
      var best := BestAt(events[..n], cutoff, g, target);
      if Qualifies(events[n], cutoff, g, target) && (best.None? || KeyLess(events[best.value].tie, events[n].tie))
      then Some(n) else best
  }

  function Winner(events: seq<Trade>, cutoff: int, g: int, target: int): Option<Trade> {
    var best := BestAt(events, cutoff, g, target);
    if best.None? then None else Some(events[best.value])
  }

  /** `i` is the first of the qualifying trades with the greatest tie-break key. */
  ghost predicate IsBest(events: seq<Trade>, cutoff: int, g: int, target: int, i: nat) {
    && i < |events| && Qualifies(events[i], cutoff, g, target)
    && (forall j :: 0 <= j < |events| && Qualifies(events[j], cutoff, g, target) ==>
        KeyLeq(events[j].tie, events[i].tie))
    && (forall j :: 0 <= j < i && Qualifies(events[j], cutoff, g, target) ==> KeyLess(events[j].tie, events[i].tie))
  }

  ghost predicate NoneQualifies(events: seq<Trade>, cutoff: int, g: int, target: int) {
    forall j :: 0 <= j < |events| ==> !Qualifies(events[j], cutoff, g, target)
  }

  lemma {:induction false} BestAtIsBest(events: seq<Trade>, cutoff: int, g: int, target: int)
    ensures var best := BestAt(events, cutoff, g, target);
      if best.None? then NoneQualifies(events, cutoff, g, target) else IsBest(events, cutoff, g, target, best.value)
  {
    if events != [] {
      var n := |events| - 1;
      var front := events[..n];
      BestAtIsBest(front, cutoff, g, target);
      assert forall j :: 0 <= j < n ==> events[j] == front[j];
      var best := BestAt(front, cutoff, g, target);
      KeyLessIrreflexive(events[n].tie);
      if best.Some? && Qualifies(events[n], cutoff, g, target) && KeyLess(events[best.value].tie, events[n].tie) {
        forall j | 0 <= j < n && Qualifies(events[j], cutoff, g, target) ensures KeyLess(events[j].tie, events[n].tie) {
          assert KeyLeq(front[j].tie, front[best.value].tie);
          LeqLess(events[j].tie, events[best.value].tie, events[n].tie);
        }
        forall j | 0 <= j < n && Qualifies(events[j], cutoff, g, target) ensures KeyLeq(events[j].tie, events[n].tie) {
          KeyLessAsymmetric(events[j].tie, events[n].tie);
        }
      }
    }
  }

  lemma LeqLess(a: Key, b: Key, c: Key)
    requires KeyLeq(a, b) && KeyLess(b, c)
    ensures KeyLess(a, c)
  {
    KeyLessTotal(a, b);
    if a != b { KeyLessTransitive(a, b, c); }
  }

  /** The scan picks exactly the first qualifying trade with the greatest key. */
  lemma BestAtDecides(events: seq<Trade>, cutoff: int, g: int, target: int, i: nat)
    ensures BestAt(events, cutoff, g, target) == Some(i) <==> IsBest(events, cutoff, g, target, i)
    ensures BestAt(events, cutoff, g, target) == None <==> NoneQualifies(events, cutoff, g, target)
  {
    BestAtIsBest(events, cutoff, g, target);
    var best := BestAt(events, cutoff, g, target);
    if IsBest(events, cutoff, g, target, i) {
      assert best.Some?;
      var b := best.value;
      assert KeyLeq(events[b].tie, events[i].tie) && KeyLeq(events[i].tie, events[b].tie);
      assert i == b;
    }
  }

  /** Dropping old trades keeps an as-of answer exactly when the winner was not dropped. */
  lemma AsOfKept(dropped: seq<Trade>, kept: seq<Trade>, cutoff: int, g: int, target: int)
    ensures var full, now := BestAt(dropped + kept, cutoff, g, target), BestAt(kept, cutoff, g, target);
      && (full.None? ==> now.None?)
      && (full.Some? ==> (full.value >= |dropped| <==> now == Some(full.value - |dropped|)))
  {
    var all := dropped + kept;
    var full := BestAt(all, cutoff, g, target);
    assert forall j :: 0 <= j < |kept| ==> kept[j] == all[|dropped| + j];
    BestAtIsBest(all, cutoff, g, target);
    if full.None? {
      BestAtDecides(kept, cutoff, g, target, 0);
    } else if full.value >= |dropped| {
      BestAtDecides(kept, cutoff, g, target, full.value - |dropped|);
    }
  }

  // ---------------------------------------------------------------------------------
  // Trailing facts
  // ---------------------------------------------------------------------------------

  datatype Total = Total(sum: real, count: nat)

  predicate InWindow(t: Trade, cutoff: int, g: int, width: nat) {
    t.block <= cutoff && t.time <= g && g - width < t.time
  }

  /** What one trade adds to the total kept under a fact id, spec by spec. */
  function AddTrade(spec: FactSpec, n: nat, t: Trade, cutoff: int, g: int, factId: int, acc: Total): Total
    requires n <= |spec.trailing|
  {
    if n == 0 then acc
    else
      var before := AddTrade(spec, n - 1, t, cutoff, g, factId, acc);
      var s := spec.trailing[n - 1];
      var m := spec.measure(t, s.field);
      if s.factId == factId && InWindow(t, cutoff, g, s.width) && m.Some?
      then Total(spec.add(before.sum, m.value), before.count + 1) else before
  }

  function TotalOf(spec: FactSpec, events: seq<Trade>, cutoff: int, g: int, factId: int): Total {
    if events == [] then Total(0.0, 0)
    else
      var n := |events| - 1;
      AddTrade(spec, |spec.trailing|, events[n], cutoff, g, factId, TotalOf(spec, events[..n], cutoff, g, factId))
  }

  ghost predicate OutOfReach(events: seq<Trade>, limit: int) {
    forall i :: 0 <= i < |events| ==> events[i].time < limit
  }

  lemma {:induction false} AddOldTrade(spec: FactSpec, n: nat, t: Trade, cutoff: int, g: int, factId: int, acc: Total)
    requires n <= |spec.trailing| && t.time < g - Lookback(spec)
    ensures AddTrade(spec, n, t, cutoff, g, factId, acc) == acc
  {
    if n > 0 {
      AddOldTrade(spec, n - 1, t, cutoff, g, factId, acc);
      LookbackCovers(spec);
    }
  }

  /** Dropping trades older than the look back never changes a trailing total. */
  lemma {:induction false} TotalKept(spec: FactSpec, dropped: seq<Trade>, kept: seq<Trade>, cutoff: int, g: int,
                                     factId: int)
    requires OutOfReach(dropped, g - Lookback(spec))
    ensures TotalOf(spec, dropped + kept, cutoff, g, factId) == TotalOf(spec, kept, cutoff, g, factId)
    decreases |dropped| + |kept|
  {
    var all := dropped + kept;
    var n := |all| - 1;
    if kept != [] {
      assert all[..n] == dropped + kept[..|kept| - 1];
      TotalKept(spec, dropped, kept[..|kept| - 1], cutoff, g, factId);
    } else if dropped != [] {
      assert all == dropped && all[..n] == dropped[..n] + [];
      assert OutOfReach(dropped[..n], g - Lookback(spec));
      TotalKept(spec, dropped[..n], [], cutoff, g, factId);
      AddOldTrade(spec, |spec.trailing|, dropped[n], cutoff, g, factId, Total(0.0, 0));
    } else {
      assert all == kept;
    }
  }

  /** The measured values of the trades of one window, in stream order. */
  function WindowValues(spec: FactSpec, events: seq<Trade>, cutoff: int, g: int, s: TrailingSpec): seq<real> {
    if events == [] then []
    else
      var n := |events| - 1;
      var m := spec.measure(events[n], s.field);
      WindowValues(spec, events[..n], cutoff, g, s) +
      if InWindow(events[n], cutoff, g, s.width) && m.Some? then [m.value] else []
  }

  function SumInOrder(add: (real, real) -> real, values: seq<real>): real {
    if values == [] then 0.0 else add(SumInOrder(add, values[..|values| - 1]), values[|values| - 1])
  }

  ghost predicate OnlySpec(spec: FactSpec, i: nat) {
    i < |spec.trailing| && forall k :: 0 <= k < |spec.trailing| && k != i ==>
        spec.trailing[k].factId != spec.trailing[i].factId
  }

  lemma {:induction false} AddTradeOfOnlySpec(spec: FactSpec, n: nat, t: Trade, cutoff: int, g: int, i: nat, acc: Total)
    requires OnlySpec(spec, i) && n <= |spec.trailing|
    ensures var s := spec.trailing[i]; var m := spec.measure(t, s.field);
      AddTrade(spec, n, t, cutoff, g, s.factId, acc) ==
        if i < n && InWindow(t, cutoff, g, s.width) && m.Some?
        then Total(spec.add(acc.sum, m.value), acc.count + 1) else acc
  {
    if n > 0 {
      AddTradeOfOnlySpec(spec, n - 1, t, cutoff, g, i, acc);
    }
  }

  /** A fact id used once names the ordered sum and the number of values in its window. */
  lemma {:induction false} TotalOfOnlySpec(spec: FactSpec, events: seq<Trade>, cutoff: int, g: int, i: nat)
    requires OnlySpec(spec, i)
    ensures var values := WindowValues(spec, events, cutoff, g, spec.trailing[i]);
      TotalOf(spec, events, cutoff, g, spec.trailing[i].factId) == Total(SumInOrder(spec.add, values), |values|)
  {
    if events != [] {
      var n, s := |events| - 1, spec.trailing[i];
      TotalOfOnlySpec(spec, events[..n], cutoff, g, i);
      var before := WindowValues(spec, events[..n], cutoff, g, s);
      AddTradeOfOnlySpec(spec, |spec.trailing|, events[n], cutoff, g, i,
          TotalOf(spec, events[..n], cutoff, g, s.factId));
      var m := spec.measure(events[n], s.field);
      if InWindow(events[n], cutoff, g, s.width) && m.Some? {
        assert (before + [m.value])[..|before|] == before;
      } else {
        assert before + [] == before;
      }
    }
  }

  // ---------------------------------------------------------------------------------
  // All facts of one grid time
  // ---------------------------------------------------------------------------------

  function AsOfValue(spec: FactSpec, events: seq<Trade>, cutoff: int, g: int, offset: int): Option<real> {
    var w := Winner(events, cutoff, g, g - offset);
    if w.None? then None else spec.measure(w.value, spec.asOfField)
  }

  function FactsOf(spec: FactSpec, events: seq<Trade>, g: int, cutoff: Option<int>): Facts {
    if cutoff.None? then
      Facts(seq(|spec.offsets|, i => None), seq(|spec.trailing|, i => None), seq(|spec.trailing|, i => None))
    else
      Facts(
        seq(|spec.offsets|, i requires 0 <= i < |spec.offsets| =>
          AsOfValue(spec, events, cutoff.value, g, spec.offsets[i])),
        seq(|spec.trailing|, i requires 0 <= i < |spec.trailing| =>
          Some(TotalOf(spec, events, cutoff.value, g, spec.trailing[i].factId).sum)),
        seq(|spec.trailing|, i requires 0 <= i < |spec.trailing| =>
          Some(TotalOf(spec, events, cutoff.value, g, spec.trailing[i].factId).count)))
  }

  // ---------------------------------------------------------------------------------
  // What the facts mean
  // ---------------------------------------------------------------------------------

  /** The facts of a grid time without a cutoff are all absent, one for each spec. */
  lemma NoCutoffNoFacts(spec: FactSpec, events: seq<Trade>, g: int)
    ensures var facts := FactsOf(spec, events, g, None);
      && |facts.asOf| == |spec.offsets| && |facts.sums| == |facts.counts| == |spec.trailing|
      && (forall i :: 0 <= i < |facts.asOf| ==> facts.asOf[i] == None)
      && forall i :: 0 <= i < |spec.trailing| ==> facts.sums[i] == None && facts.counts[i] == None
  {
  }

  /** A trade that an as-of fact may report: completed, and no later than the grid time and
      than `offset` before it. */
  predicate Reportable(t: Trade, c: int, g: int, offset: int) {
    t.block <= c && t.time <= g && t.time + offset <= g
  }

  /** Trade `j` is reportable, and every other reportable one has a smaller key, or the same
      key and a later place. */
  ghost predicate Preferable(events: seq<Trade>, c: int, g: int, offset: int, j: nat) {
    && j < |events| && Reportable(events[j], c, g, offset)
    && forall k :: 0 <= k < |events| && Reportable(events[k], c, g, offset) && k != j ==>
         KeyLess(events[k].tie, events[j].tie) || (events[k].tie == events[j].tie && k > j)
  }

  /** An as-of fact is the as-of field of the preferable trade, and absent when no trade is
      reportable. */
  lemma AsOfMeans(spec: FactSpec, events: seq<Trade>, g: int, c: int, i: nat, j: nat)
    requires i < |spec.offsets|
    ensures Preferable(events, c, g, spec.offsets[i], j) ==>
      FactsOf(spec, events, g, Some(c)).asOf[i] == spec.measure(events[j], spec.asOfField)
    ensures (forall k :: 0 <= k < |events| ==> !Reportable(events[k], c, g, spec.offsets[i])) ==>
      FactsOf(spec, events, g, Some(c)).asOf[i] == None
    ensures FactsOf(spec, events, g, Some(c)).asOf[i] == None ||
      exists k :: 0 <= k < |events| && Preferable(events, c, g, spec.offsets[i], k)
  {
    var target := g - spec.offsets[i];
    BestAtIsBest(events, c, g, target);
    assert forall k :: 0 <= k < |events| ==>
      (Qualifies(events[k], c, g, target) <==> Reportable(events[k], c, g, spec.offsets[i]));
    var best := BestAt(events, c, g, target);
    if best.Some? {
      BestIsPreferable(events, c, g, spec.offsets[i], best.value);
      if Preferable(events, c, g, spec.offsets[i], j) { OnePreferable(events, c, g, spec.offsets[i], j, best.value); }
    }
  }

  lemma BestIsPreferable(events: seq<Trade>, c: int, g: int, offset: int, j: nat)
    requires IsBest(events, c, g, g - offset, j)
    ensures Preferable(events, c, g, offset, j)
  {
    forall k | 0 <= k < |events| && Reportable(events[k], c, g, offset) && k != j
      ensures KeyLess(events[k].tie, events[j].tie) || (events[k].tie == events[j].tie && k > j)
    {
      assert Qualifies(events[k], c, g, g - offset);
      KeyLessTotal(events[k].tie, events[j].tie);
    }
  }

  lemma OnePreferable(events: seq<Trade>, c: int, g: int, offset: int, j: nat, k: nat)
    requires Preferable(events, c, g, offset, j) && Preferable(events, c, g, offset, k)
    ensures j == k
  {
    KeyLessIrreflexive(events[j].tie);
    if KeyLess(events[j].tie, events[k].tie) { KeyLessAsymmetric(events[j].tie, events[k].tie); }
  }

  /** A trade whose measure counts for a trailing fact of that width. */
  ghost predicate Counts(spec: FactSpec, t: Trade, c: int, g: int, s: TrailingSpec) {
    t.block <= c && g - s.width < t.time <= g && spec.measure(t, s.field).Some?
  }

  /** `places` lists exactly the trades that count, in stream order. */
  ghost predicate CountedPlaces(spec: FactSpec, events: seq<Trade>, c: int, g: int, s: TrailingSpec, places: seq<int>) {
    Ascending(places) && forall k :: k in places <==> 0 <= k < |events| && Counts(spec, events[k], c, g, s)
  }

  lemma PlacesMore(spec: FactSpec, events: seq<Trade>, c: int, g: int, s: TrailingSpec, places: seq<int>)
    requires events != [] && CountedPlaces(spec, events[..|events| - 1], c, g, s, places)
    ensures var n := |events| - 1;
      CountedPlaces(spec, events, c, g, s, if Counts(spec, events[n], c, g, s) then places + [n] else places)
  {
    var n := |events| - 1;
    assert forall i :: 0 <= i < |places| ==> places[i] in places;
    forall k ensures k in places <==> 0 <= k < n && Counts(spec, events[k], c, g, s) {
      assert 0 <= k < n ==> events[..n][k] == events[k];
    }
  }

  /** `values` are the measures of the trades at `places`. */
  ghost predicate MeasuredAt(spec: FactSpec, events: seq<Trade>, field: int, places: seq<int>, values: seq<real>) {
    |values| == |places| && forall i :: 0 <= i < |places| ==>
        0 <= places[i] < |events| && spec.measure(events[places[i]], field) == Some(values[i])
  }

  lemma MeasuredMore(spec: FactSpec, events: seq<Trade>, field: int, places: seq<int>, values: seq<real>)
    requires events != [] && MeasuredAt(spec, events[..|events| - 1], field, places, values)
    ensures MeasuredAt(spec, events, field, places, values)
    ensures forall v :: spec.measure(events[|events| - 1], field) == Some(v) ==>
      MeasuredAt(spec, events, field, places + [|events| - 1], values + [v])
  {
  }

  lemma {:induction false} WindowPlaces(spec: FactSpec, events: seq<Trade>, c: int, g: int, s: TrailingSpec)
    returns (places: seq<int>)
    ensures CountedPlaces(spec, events, c, g, s, places)
    ensures MeasuredAt(spec, events, s.field, places, WindowValues(spec, events, c, g, s))
  {
    if events == [] {
      places := [];
    } else {
      var n := |events| - 1;
      places := WindowPlaces(spec, events[..n], c, g, s);
      var values := WindowValues(spec, events[..n], c, g, s);
      PlacesMore(spec, events, c, g, s, places);
      MeasuredMore(spec, events, s.field, places, values);
      assert values + [] == values;
      if Counts(spec, events[n], c, g, s) { places := places + [n]; }
    }
  }

  function Measured(spec: FactSpec, events: seq<Trade>, field: int, places: seq<int>): seq<real>
    requires forall i :: 0 <= i < |places| ==>
      0 <= places[i] < |events| && spec.measure(events[places[i]], field).Some?
  {
    seq(|places|, i requires 0 <= i < |places| => spec.measure(events[places[i]], field).value)
  }

  /** A trailing fact is the sum, in stream order, and the number of the measures that count.
      This is for a fact id used once. */
  lemma TrailingMeans(spec: FactSpec, events: seq<Trade>, g: int, c: int, i: nat) returns (places: seq<int>)
    requires OnlySpec(spec, i)
    ensures CountedPlaces(spec, events, c, g, spec.trailing[i], places)
    ensures forall k :: 0 <= k < |places| ==>
      0 <= places[k] < |events| && spec.measure(events[places[k]], spec.trailing[i].field).Some?
    ensures var facts := FactsOf(spec, events, g, Some(c));
      && facts.counts[i] == Some(|places|)
      && facts.sums[i] == Some(SumInOrder(spec.add, Measured(spec, events, spec.trailing[i].field, places)))
  {
    var s := spec.trailing[i];
    places := WindowPlaces(spec, events, c, g, s);
    TotalOfOnlySpec(spec, events, c, g, i);
    assert Measured(spec, events, s.field, places) == WindowValues(spec, events, c, g, s);
  }

  /** The as-of winner, if there is one, is not older than `since`. */
  ghost predicate WinnerSince(events: seq<Trade>, cutoff: int, g: int, target: int, since: int) {
    var w := Winner(events, cutoff, g, target);
    w.Some? ==> w.value.time >= since
  }

  lemma AsOfValueKept(spec: FactSpec, dropped: seq<Trade>, kept: seq<Trade>, cutoff: int, g: int, offset: int)
    requires OutOfReach(dropped, g - Lookback(spec))
    requires WinnerSince(dropped + kept, cutoff, g, g - offset, g - Lookback(spec))
    ensures AsOfValue(spec, kept, cutoff, g, offset) == AsOfValue(spec, dropped + kept, cutoff, g, offset)
  {
    AsOfKept(dropped, kept, cutoff, g, g - offset);
    var all, full := dropped + kept, BestAt(dropped + kept, cutoff, g, g - offset);
    assert forall j :: 0 <= j < |dropped| ==> all[j].time < g - Lookback(spec);
  }

  /** `facts` has the trailing facts of the full history, and each of its as-of facts whose
      full-history winner is within the look back. */
  ghost predicate FactsAgree(spec: FactSpec, facts: Facts, history: seq<Trade>, g: int, cutoff: Option<int>) {
    var full := FactsOf(spec, history, g, cutoff);
    && facts.sums == full.sums && facts.counts == full.counts && |facts.asOf| == |full.asOf|
    && forall i :: 0 <= i < |spec.offsets| ==>
         (cutoff.Some? ==> WinnerSince(history, cutoff.value, g, g - spec.offsets[i], g - Lookback(spec))) ==>
         facts.asOf[i] == full.asOf[i]
  }

  /** Dropping trades older than the look back leaves the trailing facts as they were. */
  lemma FactsKept(spec: FactSpec, dropped: seq<Trade>, kept: seq<Trade>, g: int, cutoff: Option<int>)
    requires OutOfReach(dropped, g - Lookback(spec))
    ensures FactsAgree(spec, FactsOf(spec, kept, g, cutoff), dropped + kept, g, cutoff)
  {
    if cutoff.Some? {
      forall i | 0 <= i < |spec.trailing|
        ensures TotalOf(spec, dropped + kept, cutoff.value, g, spec.trailing[i].factId)
             == TotalOf(spec, kept, cutoff.value, g, spec.trailing[i].factId)
      {
        TotalKept(spec, dropped, kept, cutoff.value, g, spec.trailing[i].factId);
      }
      forall i | 0 <= i < |spec.offsets|
        && WinnerSince(dropped + kept, cutoff.value, g, g - spec.offsets[i], g - Lookback(spec))
        ensures AsOfValue(spec, kept, cutoff.value, g, spec.offsets[i])
             == AsOfValue(spec, dropped + kept, cutoff.value, g, spec.offsets[i])
      {
        AsOfValueKept(spec, dropped, kept, cutoff.value, g, spec.offsets[i]);
      }
    }
  }

  /** An as-of answer can be lost: here the winning trade is older than the look back of ten
      when a later trade arrives, and the later trade is reported instead. */
  lemma AsOfCanForget()
    ensures var early, late := Trade(0, 0, 1, Key([9]), 5.0, 0.0), Trade(0, 100, 1, Key([1]), 6.0, 0.0);
      && Ingested([early], late, 100 - 10) == [late]
      && Winner([early, late], 1, 100, 100) == Some(early)
      && Winner([late], 1, 100, 100) == Some(late)
  {
    var early, late := Trade(0, 0, 1, Key([9]), 5.0, 0.0), Trade(0, 100, 1, Key([1]), 6.0, 0.0);
    assert [early][1..] == [] && Evicted([], 90) == [];
    assert [early, late][..1] == [early] && [early][..0] == [] && [late][..0] == [];
    assert BestAt([early], 1, 100, 100) == Some(0);
    assert !KeyLess(early.tie, late.tie);
  }

  // ---------------------------------------------------------------------------------
  // Eviction
  // ---------------------------------------------------------------------------------

  function Evicted(events: seq<Trade>, watermark: int): seq<Trade> {
    if events != [] && events[0].time < watermark then Evicted(events[1..], watermark) else events
  }

  function Ingested(events: seq<Trade>, t: Trade, watermark: int): seq<Trade> {
    Evicted(events, watermark) + [t]
  }

  /** `kept` is what remains of `history` after dropping a prefix of trades below `limit`. */
  ghost predicate KeptFrom(history: seq<Trade>, kept: seq<Trade>, limit: int) {
    && |kept| <= |history| && kept == history[|history| - |kept|..]
    && OutOfReach(history[..|history| - |kept|], limit)
  }

  lemma {:induction false} EvictedKept(history: seq<Trade>, events: seq<Trade>, limit: int, watermark: int)
    requires KeptFrom(history, events, limit) && watermark <= limit
    ensures KeptFrom(history, Evicted(events, watermark), limit)
    decreases |events|
  {
    if events != [] && events[0].time < watermark {
      var n := |history| - |events|;
      assert history[..n + 1] == history[..n] + [events[0]];
      assert events[1..] == history[n + 1..];
      EvictedKept(history, events[1..], limit, watermark);
    }
  }

  lemma IngestedKept(history: seq<Trade>, events: seq<Trade>, limit: int, t: Trade, watermark: int)
    requires KeptFrom(history, events, limit) && watermark <= limit
    ensures KeptFrom(history + [t], Ingested(events, t, watermark), limit)
  {
    EvictedKept(history, events, limit, watermark);
    var kept, all := Evicted(events, watermark), history + [t];
    var n := |history| - |kept|;
    assert all[..n] == history[..n] && all[n..] == history[n..] + [t];
  }

  lemma KeptWeaker(history: seq<Trade>, kept: seq<Trade>, limit: int, more: int)
    requires KeptFrom(history, kept, limit) && limit <= more
    ensures KeptFrom(history, kept, more)
  {
  }

  // ---------------------------------------------------------------------------------
  // Exactly what a window holds
  // ---------------------------------------------------------------------------------

  ghost predicate TimeSorted(trades: seq<Trade>) {
    forall i, j :: 0 <= i < j < |trades| ==> trades[i].time <= trades[j].time
  }

  /** The trades handed between partitions were cut below this time, if at all. */
  predicate Passes(cut: Option<int>, time: int) {
    cut.None? || time >= cut.value
  }

  /** A trade is still there if it is the symbol's latest and was not cut between partitions,
      or if it is not older than both the scan start `floor` allows and `back` before the
      latest trade. */
  predicate Retained(trades: seq<Trade>, t: Trade, floor: int, cut: Option<int>, back: int)
    requires trades != []
  {
    var latest := trades[|trades| - 1];
    (t == latest && Passes(cut, t.time)) || t.time >= Max(floor, latest.time - back)
  }

  predicate RetainedAt(trades: seq<Trade>, i: nat, floor: int, cut: Option<int>, back: int)
    requires i < |trades|
  {
    (i == |trades| - 1 && Passes(cut, trades[i].time)) || trades[i].time >= Max(floor, trades[|trades| - 1].time - back)
  }

  /** The window is a suffix of the full history, and a trade is in it exactly when it is
      retained. */
  ghost predicate WindowIs(trades: seq<Trade>, window: seq<Trade>, floor: int, cut: Option<int>, back: int) {
    && |window| <= |trades| && window == trades[|trades| - |window|..]
    && Passes(cut, floor)
    && forall i :: 0 <= i < |trades| ==> (i >= |trades| - |window| <==> RetainedAt(trades, i, floor, cut, back))
  }

  /** Eviction from trades in time order drops exactly the old ones. */
  lemma {:induction false} EvictedExactly(events: seq<Trade>, watermark: int)
    requires TimeSorted(events)
    ensures var kept := Evicted(events, watermark); var k := |events| - |kept|;
      0 <= k && kept == events[k..] && forall i :: 0 <= i < |events| ==> (i >= k <==> events[i].time >= watermark)
  {
    if events != [] && events[0].time < watermark {
      var tail := events[1..];
      assert forall i :: 0 <= i < |tail| ==> tail[i] == events[i + 1];
      EvictedExactly(tail, watermark);
      var kept := Evicted(tail, watermark);
      var k := |events| - |kept|;
      forall i | 0 <= i < |events| ensures i >= k <==> events[i].time >= watermark {
        if i > 0 { assert events[i] == tail[i - 1]; }
      }
    }
  }

  /** Evicting from a suffix of trades in time order, of which no older one is recent, leaves
      exactly the recent ones. */
  lemma EvictedSuffix(trades: seq<Trade>, n: nat, watermark: int)
    requires TimeSorted(trades) && n <= |trades| && forall i :: 0 <= i < n ==> trades[i].time < watermark
    ensures var kept := Evicted(trades[n..], watermark); var m := |trades| - |kept|;
      n <= m && kept == trades[m..] && forall i :: 0 <= i < |trades| ==> (i >= m <==> trades[i].time >= watermark)
  {
    var window := trades[n..];
    assert forall i :: 0 <= i < |window| ==> window[i] == trades[n + i];
    EvictedExactly(window, watermark);
    var m := |trades| - |Evicted(window, watermark)|;
    forall i | 0 <= i < |trades| ensures i >= m <==> trades[i].time >= watermark {
      if i >= n { assert window[i - n] == trades[i]; }
    }
  }

  lemma OlderNotRetained(trades: seq<Trade>, n: nat, t: Trade, floor: int, cut: Option<int>, back: int)
    requires TimeSorted(trades + [t]) && n <= |trades|
    requires forall i :: 0 <= i < n ==> !RetainedAt(trades, i, floor, cut, back)
    ensures forall i :: 0 <= i < n ==> trades[i].time < Max(floor, t.time - back)
  {
    var all := trades + [t];
    forall i | 0 <= i < n ensures trades[i].time < Max(floor, t.time - back) {
      assert !RetainedAt(trades, i, floor, cut, back);
      assert all[|trades| - 1] == trades[|trades| - 1] && all[|trades|] == t;
    }
  }

  /** Ingesting the next trade in time order keeps the window exact. */
  lemma IngestedExactly(trades: seq<Trade>, window: seq<Trade>, t: Trade, watermark: int, floor: int,
                        cut: Option<int>, back: int)
    requires WindowIs(trades, window, floor, cut, back) && TimeSorted(trades + [t]) && back >= 0
    requires watermark == Max(floor, t.time - back) && Passes(cut, t.time)
    ensures WindowIs(trades + [t], Ingested(window, t, watermark), floor, cut, back)
  {
    var all, n := trades + [t], |trades| - |window|;
    OlderNotRetained(trades, n, t, floor, cut, back);
    SortedFront(trades, t);
    EvictedSuffix(trades, n, watermark);
    var kept := Evicted(window, watermark);
    var m := |trades| - |kept|;
    forall i | 0 <= i < |all| ensures i >= m <==> RetainedAt(all, i, floor, cut, back) {
      if i < |trades| { assert all[i] == trades[i]; }
    }
    assert all[m..] == trades[m..] + [t];
  }

  lemma SortedFront(trades: seq<Trade>, last: Trade)
    requires TimeSorted(trades + [last])
    ensures TimeSorted(trades) && forall i :: 0 <= i < |trades| ==> trades[i].time <= last.time
  {
    var all := trades + [last];
    assert forall i :: 0 <= i < |trades| ==> all[i] == trades[i];
    assert all[|trades|] == last;
  }

  /** Exactly when a window still gives the as-of winner of the full history: the winner is
      the latest trade and was not cut, or it is recent enough to be kept. */
  lemma AsOfExact(trades: seq<Trade>, window: seq<Trade>, floor: int, cut: Option<int>, back: int, cutoff: int,
                  g: int, target: int)
    requires WindowIs(trades, window, floor, cut, back) && TimeSorted(trades)
    ensures var full, now := Winner(trades, cutoff, g, target), Winner(window, cutoff, g, target);
      && (full.None? ==> now.None?)
      && (full.Some? ==> trades != [] && (now == full <==> Retained(trades, full.value, floor, cut, back)))
  {
    var n := |trades| - |window|;
    assert trades == trades[..n] + window;
    AsOfKept(trades[..n], window, cutoff, g, target);
    BestAtIsBest(trades, cutoff, g, target);
    var best := BestAt(trades, cutoff, g, target);
    if best.Some? && best.value < n {
      LostWinner(trades, window, floor, cut, back, cutoff, g, target, best.value);
    } else if best.Some? {
      assert RetainedAt(trades, best.value, floor, cut, back);
    }
  }

  lemma LostWinner(trades: seq<Trade>, window: seq<Trade>, floor: int, cut: Option<int>, back: int,
                   cutoff: int, g: int, target: int, i: nat)
    requires WindowIs(trades, window, floor, cut, back) && TimeSorted(trades)
    requires i < |trades| - |window| && Qualifies(trades[i], cutoff, g, target)
    ensures Winner(window, cutoff, g, target) == Some(trades[i]) <==> Retained(trades, trades[i], floor, cut, back)
  {
    var n, last := |trades| - |window|, |trades| - 1;
    assert !RetainedAt(trades, i, floor, cut, back);
    assert forall k :: 0 <= k < |window| ==> window[k] == trades[n + k];
    if Retained(trades, trades[i], floor, cut, back) {
      assert trades[i] == trades[last] && RetainedAt(trades, last, floor, cut, back);
      assert |window| > 1 ==> RetainedAt(trades, last - 1, floor, cut, back);
      assert window == [trades[i]] && window[..0] == [];
    } else {
      BestAtIsBest(window, cutoff, g, target);
      var now := BestAt(window, cutoff, g, target);
      if now.Some? { assert RetainedAt(trades, n + now.value, floor, cut, back); }
    }
  }

  // ---------------------------------------------------------------------------------
  // The mutable window
  // ---------------------------------------------------------------------------------

  /** Whether the row replaces the best trade so far for a target time. */
  function Preferred(best: Option<Trade>, row: Trade, target: int): Option<Trade> {
    if row.time <= target && (best.None? || KeyLess(best.value.tie, row.tie)) then Some(row) else best
  }

  ghost predicate BestSoFar(offsets: seq<int>, best: map<int, Option<Trade>>, seen: seq<Trade>, cutoff: int, g: int) {
    forall o :: o in offsets ==> o in best && best[o] == Winner(seen, cutoff, g, g - o)
  }

  lemma WinnerSnoc(seen: seq<Trade>, row: Trade, cutoff: int, g: int, target: int)
    ensures Winner(seen + [row], cutoff, g, target) ==
      if row.block <= cutoff && row.time <= g then Preferred(Winner(seen, cutoff, g, target), row, target)
      else Winner(seen, cutoff, g, target)
  {
    assert (seen + [row])[..|seen|] == seen;
  }

  method UpdateBest(offsets: seq<int>, best: map<int, Option<Trade>>, row: Trade, g: int)
    returns (next: map<int, Option<Trade>>)
    requires forall o :: o in offsets ==> o in best
    ensures forall o :: o in offsets ==> o in next && next[o] == Preferred(best[o], row, g - o)
  {
    next := best;
    KeyLessIrreflexive(row.tie);
    for k := 0 to |offsets|
      invariant forall o :: o in offsets ==>
        o in next && next[o] == if o in offsets[..k] then Preferred(best[o], row, g - o) else best[o]
    {
      var offset := offsets[k];
      assert offset in offsets;
      if row.time <= g - offset {
        var current := next[offset];
        if current.None? || KeyLess(current.value.tie, row.tie) {
          next := next[offset := Some(row)];
        }
      }
      assert forall o :: o in offsets[..k + 1] <==> o in offsets[..k] || o == offset;
    }
    assert offsets[..|offsets|] == offsets;
  }

  function GetSum(sums: map<int, real>, factId: int): real {
    if factId in sums then sums[factId] else 0.0
  }

  function GetCount(counts: map<int, nat>, factId: int): nat {
    if factId in counts then counts[factId] else 0
  }

  ghost predicate Tallied(spec: FactSpec, sums: map<int, real>, counts: map<int, nat>, seen: seq<Trade>, cutoff: int,
                          g: int) {
    forall id :: Total(GetSum(sums, id), GetCount(counts, id)) == TotalOf(spec, seen, cutoff, g, id)
  }

  method UpdateTotals(spec: FactSpec, sums: map<int, real>, counts: map<int, nat>, row: Trade, cutoff: int, g: int)
    returns (sums': map<int, real>, counts': map<int, nat>)
    requires row.block <= cutoff
    ensures forall id :: Total(GetSum(sums', id), GetCount(counts', id))
                      == AddTrade(spec, |spec.trailing|, row, cutoff, g, id,
                          Total(GetSum(sums, id), GetCount(counts, id)))
  {
    sums', counts' := sums, counts;
    for k := 0 to |spec.trailing|
      invariant forall id :: Total(GetSum(sums', id), GetCount(counts', id))
                          == AddTrade(spec, k, row, cutoff, g, id, Total(GetSum(sums, id), GetCount(counts, id)))
    {
      var s := spec.trailing[k];
      var lower := g - s.width;
      if row.time > lower && row.time <= g {
        var measurement := spec.measure(row, s.field);
        if measurement.Some? {
          sums' := sums'[s.factId := spec.add(GetSum(sums', s.factId), measurement.value)];
          counts' := counts'[s.factId := GetCount(counts', s.factId) + 1];
        }
      }
    }
  }

  lemma {:induction false} AddIneligible(spec: FactSpec, n: nat, t: Trade, cutoff: int, g: int, factId: int, acc: Total)
    requires n <= |spec.trailing| && (t.block > cutoff || t.time > g)
    ensures AddTrade(spec, n, t, cutoff, g, factId, acc) == acc
  {
    if n > 0 { AddIneligible(spec, n - 1, t, cutoff, g, factId, acc); }
  }

  lemma TotalSnoc(spec: FactSpec, seen: seq<Trade>, row: Trade, cutoff: int, g: int)
    ensures forall id :: TotalOf(spec, seen + [row], cutoff, g, id)
                      == AddTrade(spec, |spec.trailing|, row, cutoff, g, id, TotalOf(spec, seen, cutoff, g, id))
    ensures row.block > cutoff || row.time > g ==>
      forall id :: TotalOf(spec, seen + [row], cutoff, g, id) == TotalOf(spec, seen, cutoff, g, id)
  {
    assert (seen + [row])[..|seen|] == seen;
    if row.block > cutoff || row.time > g {
      forall id ensures TotalOf(spec, seen + [row], cutoff, g, id) == TotalOf(spec, seen, cutoff, g, id) {
        AddIneligible(spec, |spec.trailing|, row, cutoff, g, id, TotalOf(spec, seen, cutoff, g, id));
      }
    }
  }

  lemma BestIneligible(offsets: seq<int>, best: map<int, Option<Trade>>, seen: seq<Trade>, row: Trade, cutoff: int,
                       g: int)
    requires BestSoFar(offsets, best, seen, cutoff, g) && (row.block > cutoff || row.time > g)
    ensures BestSoFar(offsets, best, seen + [row], cutoff, g)
  {
    forall o | o in offsets ensures Winner(seen + [row], cutoff, g, g - o) == Winner(seen, cutoff, g, g - o) {
      WinnerSnoc(seen, row, cutoff, g, g - o);
    }
  }

  lemma BestUpdated(offsets: seq<int>, best: map<int, Option<Trade>>, next: map<int, Option<Trade>>,
                    seen: seq<Trade>, row: Trade, cutoff: int, g: int)
    requires BestSoFar(offsets, best, seen, cutoff, g) && row.block <= cutoff && row.time <= g
    requires forall o :: o in offsets ==> o in next && next[o] == Preferred(best[o], row, g - o)
    ensures BestSoFar(offsets, next, seen + [row], cutoff, g)
  {
    forall o | o in offsets ensures next[o] == Winner(seen + [row], cutoff, g, g - o) {
      WinnerSnoc(seen, row, cutoff, g, g - o);
    }
  }

  /** Takes one row of the window into account. */
  method Consider(spec: FactSpec, ghost seen: seq<Trade>, row: Trade, g: int, cutoff: int,
                  best: map<int, Option<Trade>>, sums: map<int, real>, counts: map<int, nat>)
    returns (best': map<int, Option<Trade>>, sums': map<int, real>, counts': map<int, nat>)
    requires BestSoFar(spec.offsets, best, seen, cutoff, g) && Tallied(spec, sums, counts, seen, cutoff, g)
    ensures BestSoFar(spec.offsets, best', seen + [row], cutoff, g)
    ensures Tallied(spec, sums', counts', seen + [row], cutoff, g)
  {
    TotalSnoc(spec, seen, row, cutoff, g);
    if row.block > cutoff || row.time > g {
      BestIneligible(spec.offsets, best, seen, row, cutoff, g);
      return best, sums, counts;
    }
    best' := UpdateBest(spec.offsets, best, row, g);
    BestUpdated(spec.offsets, best, best', seen, row, cutoff, g);
    sums', counts' := UpdateTotals(spec, sums, counts, row, cutoff, g);
  }

  /** One pass over the window, keeping the best trade of each offset and the total of each
      fact id. */
  method Accumulate(spec: FactSpec, events: seq<Trade>, g: int, cutoff: int)
    returns (best: map<int, Option<Trade>>, sums: map<int, real>, counts: map<int, nat>)
    ensures BestSoFar(spec.offsets, best, events, cutoff, g)
    ensures Tallied(spec, sums, counts, events, cutoff, g)
  {
    best := map o | o in spec.offsets :: None;
    sums, counts := map[], map[];
    for i := 0 to |events|
      invariant BestSoFar(spec.offsets, best, events[..i], cutoff, g)
      invariant Tallied(spec, sums, counts, events[..i], cutoff, g)
    {
      assert events[..i + 1] == events[..i] + [events[i]];
      best, sums, counts := Consider(spec, events[..i], events[i], g, cutoff, best, sums, counts);
    }
    assert events[..|events|] == events;
  }

  function ChosenValue(spec: FactSpec, best: map<int, Option<Trade>>, offset: int): Option<real> {
    if offset !in best || best[offset].None? then None else spec.measure(best[offset].value, spec.asOfField)
  }

  class SymbolRolling {
    const spec: FactSpec
    var events: seq<Trade>

    constructor (s: FactSpec)
      ensures spec == s && events == []
    {
      spec, events := s, [];
    }

    method EvictBefore(watermark: int)
      modifies this`events
      ensures events == Evicted(old(events), watermark)
    {
      while events != [] && events[0].time < watermark
        invariant Evicted(events, watermark) == Evicted(old(events), watermark)
        decreases |events|
      {
        events := events[1..];
      }
    }

    method Ingest(t: Trade, watermark: int)
      modifies this`events
      ensures events == Ingested(old(events), t, watermark)
      ensures forall history, limit :: KeptFrom(history, old(events), limit) && watermark <= limit ==>
                KeptFrom(history + [t], events, limit)
    {
      ghost var before := events;
      EvictBefore(watermark);
      events := events + [t];
      forall history, limit | KeptFrom(history, before, limit) && watermark <= limit
        ensures KeptFrom(history + [t], events, limit)
      {
        IngestedKept(history, before, limit, t, watermark);
      }
    }

    method FactsAt(g: int, cutoff: Option<int>) returns (facts: Facts)
      ensures facts == FactsOf(spec, events, g, cutoff)
    {
      if cutoff.None? {
        return Facts(seq(|spec.offsets|, i => None), seq(|spec.trailing|, i => None), seq(|spec.trailing|, i => None));
      }
      var best, sums, counts := Accumulate(spec, events, g, cutoff.value);
      var s := spec;
      assert forall i :: 0 <= i < |s.offsets| ==> s.offsets[i] in s.offsets;
      facts := Facts(
        seq(|s.offsets|, i requires 0 <= i < |s.offsets| => ChosenValue(s, best, s.offsets[i])),
        seq(|s.trailing|, i requires 0 <= i < |s.trailing| => Some(GetSum(sums, s.trailing[i].factId))),
        seq(|s.trailing|, i requires 0 <= i < |s.trailing| => Some(GetCount(counts, s.trailing[i].factId))));
      forall i | 0 <= i < |s.trailing|
        ensures Total(GetSum(sums, s.trailing[i].factId), GetCount(counts, s.trailing[i].factId))
             == TotalOf(s, events, cutoff.value, g, s.trailing[i].factId)
      {
      }
    }
  }
}
