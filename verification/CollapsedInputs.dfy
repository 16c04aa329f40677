/** The collapsed trades are what the sweep reads: projecting them to trades gives a sorted
    input, so everything proved for sorted inputs applies to them. */
module CollapsedInputs {
  import opened Results
  import opened Ordering
  import opened CausalRolling
  import opened CausalIndex
  import opened CausalEvents
  import opened CausalGrid
  import TradeCollapse

  /** A projection that keeps time and block. */
  ghost predicate KeepsPlace(project: TradeCollapse.TradeRow -> Trade) {
    forall r :: project(r).time == r.time && project(r).block == r.block
  }

  function Projected(project: TradeCollapse.TradeRow -> Trade, rows: seq<TradeCollapse.TradeRow>): seq<Trade> {
    seq(|rows|, i requires 0 <= i < |rows| => project(rows[i]))
  }

  /** One row for each identity, ordered by time and block. */
  ghost predicate Collapsed(out: seq<TradeCollapse.TradeRow>, rows: seq<TradeCollapse.TradeRow>) {
    && TradeCollapse.IsCollapse(out, rows)
    && forall i, j :: 0 <= i < j < |out| ==> TradeCollapse.NoLaterThan(out[i], out[j])
  }

  lemma PlaceInOrder(a: Trade, b: Trade)
    requires a.time < b.time || (a.time == b.time && a.block <= b.block)
    ensures KeyLeq(TradeKeyed(a).key, TradeKeyed(b).key)
  {
    var x, y := TradeKeyed(a).key.parts, TradeKeyed(b).key.parts;
    assert x[1..] == [a.block, 0, 0] && y[1..] == [b.block, 0, 0];
    PartsLessIrreflexive(x);
    if a.time == b.time && a.block != b.block {
      assert y[1..][0] == b.block && x[1..][0] == a.block;
      assert !PartsLess(y[1..], x[1..]);
    }
  }

  lemma CollapsedSorted(project: TradeCollapse.TradeRow -> Trade, out: seq<TradeCollapse.TradeRow>,
                        rows: seq<TradeCollapse.TradeRow>)
    requires KeepsPlace(project) && Collapsed(out, rows)
    ensures Sorted(TradeRows(Projected(project, out)))
  {
    var keyed := TradeRows(Projected(project, out));
    forall i, j | 0 <= i < j < |keyed| ensures KeyLeq(keyed[i].key, keyed[j].key) {
      assert TradeCollapse.NoLaterThan(out[i], out[j]);
      PlaceInOrder(project(out[i]), project(out[j]));
    }
  }

  datatype ExtractError = CollapseFailed(collapse: TradeCollapse.CollapseError) | SweepFailed(sweep: GridError)

  /** What the sweep gave, when the collapse went through. */
  function SweepResult(r: Result<Output, ExtractError>): Result<Output, GridError>
    requires r.Err? ==> r.error.SweepFailed?
  {
    if r.Ok? then Ok(r.value) else Err(r.error.sweep)
  }

  /** One partition from raw trade rows: collapse, then sweep. It fails to collapse exactly
      when two rows of one identity disagree on a core field. */
  method ExtractCollapsed(req: Request, part: Partition, carry: Carry, witnesses: seq<WitnessRow>,
                          rows: seq<TradeCollapse.TradeRow>, project: TradeCollapse.TradeRow -> Trade,
                          h: int -> nat, n: nat, sort: seq<TradeCollapse.Keyed> -> seq<TradeCollapse.Keyed>,
                          bufferRows: nat, batchRows: nat)
    returns (r: Result<Output, ExtractError>, ghost out: seq<TradeCollapse.TradeRow>)
    requires WellFormed(req, part) && Sorted(WitnessRows(witnesses)) && KeepsPlace(project)
    requires n > 0 && TradeCollapse.IsSort(sort) && batchRows > 0
    ensures r.Err? && r.error.CollapseFailed? <==> !TradeCollapse.Agree(rows)
    ensures TradeCollapse.Agree(rows) ==> Collapsed(out, rows)
    ensures TradeCollapse.Agree(rows) ==> Chronological(Chronology(witnesses, Projected(project, out)))
    ensures TradeCollapse.Agree(rows) ==>
      Outcome(req, part, carry, Chronology(witnesses, Projected(project, out)), SweepResult(r))
  {
    out := [];
    var collapsed := TradeCollapse.MaterializeCollapsedTrades(h, n, sort, rows, bufferRows, batchRows);
    if collapsed.Err? { return Err(CollapseFailed(collapsed.error)), out; }
    out := collapsed.value;
    var trades := Projected(project, collapsed.value);
    CollapsedSorted(project, out, rows);
    ChronologyOrdered(witnesses, trades);
    var swept := ExecuteCausalGridExtract(req, part, carry, witnesses, trades);
    r := if swept.Ok? then Ok(swept.value) else Err(SweepFailed(swept.error));
  }
}
