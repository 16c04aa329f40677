/** Bucketed, external collapse of trade rows to one row for each identity. */
module TradeCollapse {
  import opened Results
  import opened Ordering
  import opened SpillSort

  /** `detail` stands for the columns that take no part in grouping or ordering. */
  datatype TradeRow = TradeRow(identity: int, time: int, block: int, tie: Key, core: Key, detail: int)

  datatype CollapseError = CoresDisagree

  type Keyed = Row<TradeRow>

  function IdentityKey(r: TradeRow): Key {
    Key([r.identity, r.time, r.block] + r.tie.parts)
  }

  function TimeKey(r: TradeRow): Key {
    Key([r.time, r.block])
  }

  // ---------------------------------------------------------------------------------
  // Group by identity
  // ---------------------------------------------------------------------------------

  predicate NoLaterThan(a: TradeRow, b: TradeRow) {
    a.time < b.time || (a.time == b.time && a.block <= b.block)
  }

  /** `r` has the greatest tie-break key of its identity, and is the earliest that does. */
  ghost predicate Chosen(rows: seq<TradeRow>, r: TradeRow) {
    && r in rows
    && forall x :: x in rows && x.identity == r.identity ==>
         KeyLeq(x.tie, r.tie) && (x.tie == r.tie ==> NoLaterThan(r, x))
  }

  ghost predicate HasIdentity(rows: seq<TradeRow>, identity: int) {
    exists i :: 0 <= i < |rows| && rows[i].identity == identity
  }

  /** One chosen row for every identity. */
  ghost predicate IsCollapse(out: seq<TradeRow>, rows: seq<TradeRow>) {
    && (forall i :: 0 <= i < |out| ==> Chosen(rows, out[i]))
    && (forall i, j :: 0 <= i < j < |out| ==> out[i].identity != out[j].identity)
    && forall i :: 0 <= i < |rows| ==> HasIdentity(out, rows[i].identity)
  }

  ghost predicate Agree(rows: seq<TradeRow>) {
    forall x, y :: x in rows && y in rows && x.identity == y.identity ==> x.core == y.core
  }

  // ---------------------------------------------------------------------------------
  // Spilling into buckets
  // ---------------------------------------------------------------------------------

  function OfBucket(h: int -> nat, n: nat, rows: seq<TradeRow>, b: nat): seq<TradeRow>
    requires n > 0
  {
    if rows == [] then []
    else
      var last := rows[|rows| - 1];
      OfBucket(h, n, rows[..|rows| - 1], b) + if h(last.identity) % n == b then [last] else []
  }

  lemma {:induction false} OfBucketHolds(h: int -> nat, n: nat, rows: seq<TradeRow>, b: nat)
    requires n > 0
    ensures forall r :: r in OfBucket(h, n, rows, b) <==> r in rows && h(r.identity) % n == b
  {
    if rows != [] {
      OfBucketHolds(h, n, rows[..|rows| - 1], b);
      assert rows == rows[..|rows| - 1] + [rows[|rows| - 1]];
    }
  }

  /** The part files of a bucket, in order, and the batch still in memory. */
  datatype Pile = Pile(parts: seq<TradeRow>, batch: seq<TradeRow>)

  ghost predicate Piled(h: int -> nat, n: nat, rows: seq<TradeRow>, piles: seq<Pile>)
    requires n > 0
  {
    |piles| == n && forall b :: 0 <= b < n ==> piles[b].parts + piles[b].batch == OfBucket(h, n, rows, b)
  }

  method FlushAll(piles: seq<Pile>) returns (flushed: seq<Pile>)
    ensures |flushed| == |piles|
    ensures forall b :: 0 <= b < |piles| ==> flushed[b] == Pile(piles[b].parts + piles[b].batch, [])
  {
    flushed := piles;
    for b := 0 to |piles|
      invariant |flushed| == |piles|
      invariant forall k :: 0 <= k < b ==> flushed[k] == Pile(piles[k].parts + piles[k].batch, [])
      invariant forall k :: b <= k < |piles| ==> flushed[k] == piles[k]
    {
      if flushed[b].batch != [] {
        flushed := flushed[b := Pile(flushed[b].parts + flushed[b].batch, [])];
      } else {
        assert piles[b].parts + piles[b].batch == piles[b].parts;
      }
    }
  }

  /** How many rows are held in memory. */
  ghost function Held(piles: seq<Pile>): nat {
    if piles == [] then 0 else Held(piles[..|piles| - 1]) + |piles[|piles| - 1].batch|
  }

  lemma {:induction false} HeldMore(piles: seq<Pile>, b: nat, row: TradeRow)
    requires b < |piles|
    ensures Held(piles[b := piles[b].(batch := piles[b].batch + [row])]) == Held(piles) + 1
  {
    var last := |piles| - 1;
    var next := piles[b := piles[b].(batch := piles[b].batch + [row])];
    if b < last {
      assert next[..last] == piles[..last][b := piles[b].(batch := piles[b].batch + [row])];
      HeldMore(piles[..last], b, row);
    } else {
      assert next[..last] == piles[..last];
    }
  }

  lemma {:induction false} HeldNone(piles: seq<Pile>)
    requires forall b :: 0 <= b < |piles| ==> piles[b].batch == []
    ensures Held(piles) == 0
  {
    if piles != [] { HeldNone(piles[..|piles| - 1]); }
  }

  lemma PiledMore(h: int -> nat, n: nat, rows: seq<TradeRow>, piles: seq<Pile>, row: TradeRow)
    requires n > 0 && Piled(h, n, rows, piles)
    ensures var b := h(row.identity) % n;
      Piled(h, n, rows + [row], piles[b := piles[b].(batch := piles[b].batch + [row])])
  {
    var b, all := h(row.identity) % n, rows + [row];
    var next := piles[b := piles[b].(batch := piles[b].batch + [row])];
    assert all[..|rows|] == rows;
    forall k | 0 <= k < n ensures next[k].parts + next[k].batch == OfBucket(h, n, all, k) {
      if k == b {
        assert next[k].parts + next[k].batch == (piles[k].parts + piles[k].batch) + [row];
      } else {
        assert OfBucket(h, n, all, k) == OfBucket(h, n, rows, k) + [];
      }
    }
  }

  /** Appends a row to its bucket's batch and flushes every batch when as many rows are held as
      the buffer takes, so that fewer are held between rows. */
  method BufferRow(h: int -> nat, n: nat, ghost rows: seq<TradeRow>, piles: seq<Pile>, buffered: nat, row: TradeRow,
                   bufferRows: nat)
    returns (piles': seq<Pile>, buffered': nat)
    requires n > 0 && Piled(h, n, rows, piles) && buffered == Held(piles)
    ensures Piled(h, n, rows + [row], piles') && buffered' == Held(piles')
    ensures buffered' == if buffered + 1 >= bufferRows then 0 else buffered + 1
  {
    var b := h(row.identity) % n;
    piles' := piles[b := piles[b].(batch := piles[b].batch + [row])];
    PiledMore(h, n, rows, piles, row);
    HeldMore(piles, b, row);
    buffered' := buffered + 1;
    if buffered' >= bufferRows {
      ghost var before := piles';
      piles' := FlushAll(piles');
      assert forall k :: 0 <= k < n ==> piles'[k].parts + piles'[k].batch == before[k].parts + before[k].batch;
      HeldNone(piles');
      buffered' := 0;
    }
  }

  /** Spills all rows. Where the flushes fall makes no difference, and between rows fewer are
      held than the buffer takes. */
  method SpillTrades(h: int -> nat, n: nat, rows: seq<TradeRow>, bufferRows: nat) returns (piles: seq<Pile>)
    requires n > 0
    ensures |piles| == n && forall b :: 0 <= b < n ==> piles[b] == Pile(OfBucket(h, n, rows, b), [])
  {
    piles := seq(n, b => Pile([], []));
    HeldNone(piles);
    var buffered := 0;
    for i := 0 to |rows|
      invariant Piled(h, n, rows[..i], piles)
      invariant buffered == Held(piles) && (bufferRows > 0 ==> Held(piles) < bufferRows)
    {
      assert rows[..i + 1] == rows[..i] + [rows[i]];
      piles, buffered := BufferRow(h, n, rows[..i], piles, buffered, rows[i], bufferRows);
    }
    assert rows[..|rows|] == rows;
    piles := FlushAll(piles);
  }

  // ---------------------------------------------------------------------------------
  // External sort
  // ---------------------------------------------------------------------------------

  /** The in-memory sort of one batch: any sort at all, stable or not. */
  ghost predicate IsSort(sort: seq<Keyed> -> seq<Keyed>) {
    forall s :: Sorted(sort(s)) && multiset(sort(s)) == multiset(s)
  }

  function WithKeys(key: TradeRow -> Key, rows: seq<TradeRow>): seq<Keyed> {
    seq(|rows|, i requires 0 <= i < |rows| => Row(key(rows[i]), rows[i]))
  }

  ghost predicate KeysAre(key: TradeRow -> Key, rows: seq<Keyed>) {
    forall r :: r in rows ==> r.key == key(r.payload)
  }

  lemma RunAdded(sort: seq<Keyed> -> seq<Keyed>, rows: seq<Keyed>, runs: seq<seq<Keyed>>, offset: nat, stop: nat)
    requires IsSort(sort) && offset <= stop <= |rows|
    requires AllSorted(runs) && multiset(Concat(runs)) == multiset(rows[..offset])
    ensures var more := runs + [sort(rows[offset..stop])];
      AllSorted(more) && multiset(Concat(more)) == multiset(rows[..stop])
  {
    var batch := rows[offset..stop];
    assert Sorted(sort(batch)) && multiset(sort(batch)) == multiset(batch);
    ConcatSnoc(runs, sort(batch));
    assert rows[..stop] == rows[..offset] + batch;
  }

  method ExternalSort(sort: seq<Keyed> -> seq<Keyed>, rows: seq<Keyed>, batchRows: nat) returns (merged: seq<Keyed>)
    requires IsSort(sort) && batchRows > 0
    ensures Sorted(merged) && multiset(merged) == multiset(rows)
  {
    var runs: seq<seq<Keyed>> := [];
    var offset := 0;
    while offset < |rows|
      invariant 0 <= offset <= |rows|
      invariant AllSorted(runs) && multiset(Concat(runs)) == multiset(rows[..offset])
    {
      var stop := if offset + batchRows < |rows| then offset + batchRows else |rows|;
      RunAdded(sort, rows, runs, offset, stop);
      runs := runs + [sort(rows[offset..stop])];
      offset := stop;
    }
    assert rows[..offset] == rows;
    MergeRunsIsStableSort(runs);
    merged := IterKWayMerge(runs);
  }

  lemma SameMembers(a: seq<Keyed>, b: seq<Keyed>)
    requires multiset(a) == multiset(b)
    ensures forall r :: r in a <==> r in b
  {
    forall r ensures r in a <==> r in b {
      assert r in a <==> r in multiset(a);
      assert r in b <==> r in multiset(b);
    }
  }

  /** Sorting rows by a key keeps the rows. */
  lemma SortedRowsMembers(key: TradeRow -> Key, rows: seq<TradeRow>, merged: seq<Keyed>)
    requires multiset(merged) == multiset(WithKeys(key, rows))
    ensures KeysAre(key, merged)
    ensures forall r :: r in Payloads(merged) <==> r in rows
  {
    var keyed := WithKeys(key, rows);
    SameMembers(merged, keyed);
    forall r ensures r in Payloads(merged) <==> r in rows {
      if r in rows {
        var i :| 0 <= i < |rows| && rows[i] == r;
        assert keyed[i] in keyed && keyed[i] in merged;
        var j :| 0 <= j < |merged| && merged[j] == keyed[i];
        assert Payloads(merged)[j] == r;
      }
      if r in Payloads(merged) {
        var j :| 0 <= j < |merged| && merged[j].payload == r;
        assert merged[j] in merged && merged[j] in keyed;
        var i :| 0 <= i < |keyed| && keyed[i] == merged[j];
        assert rows[i] == r;
      }
    }
  }

  /** The order of two rows of a stream sorted by identity, time, block and tie-break. */
  ghost predicate InOrder(a: TradeRow, b: TradeRow) {
    a.identity < b.identity || (a.identity == b.identity && NoLaterThan(a, b))
  }

  lemma IdentityOrder(a: TradeRow, b: TradeRow)
    requires KeyLeq(IdentityKey(a), IdentityKey(b))
    ensures InOrder(a, b)
  {
    var x, y := IdentityKey(a).parts, IdentityKey(b).parts;
    if !InOrder(a, b) {
      assert y[1..][0] == b.time && x[1..][0] == a.time;
      assert y[1..][1..][0] == b.block && x[1..][1..][0] == a.block;
      assert PartsLess(y, x);
    }
  }

  ghost predicate Ordered(rows: seq<TradeRow>) {
    forall i, j :: 0 <= i < j < |rows| ==> InOrder(rows[i], rows[j])
  }

  // ---------------------------------------------------------------------------------
  // Collapsing one sorted stream
  // ---------------------------------------------------------------------------------

  lemma IdentitiesBelow(rows: seq<TradeRow>, x: TradeRow)
    requires rows != [] && Ordered(rows + [x]) && rows[|rows| - 1].identity != x.identity
    ensures forall r :: r in rows ==> r.identity < x.identity
  {
    var all, n := rows + [x], |rows|;
    assert InOrder(all[n - 1], all[n]);
    forall r | r in rows ensures r.identity < x.identity {
      var i :| 0 <= i < n && rows[i] == r;
      assert i < n - 1 ==> InOrder(all[i], all[n - 1]);
    }
  }

  lemma ChosenStays(rows: seq<TradeRow>, x: TradeRow, r: TradeRow)
    requires Chosen(rows, r) && x.identity != r.identity
    ensures Chosen(rows + [x], r)
  {
  }

  /** The first row of a new identity starts a new group. */
  lemma NewGroup(done: seq<TradeRow>, rows: seq<TradeRow>, x: TradeRow)
    requires IsCollapse(done, rows) && forall r :: r in rows ==> r.identity != x.identity
    ensures IsCollapse(done + [x], rows + [x])
  {
    var out, all := done + [x], rows + [x];
    KeyLessIrreflexive(x.tie);
    forall i | 0 <= i < |out| ensures Chosen(all, out[i]) {
      if i < |done| {
        ChosenStays(rows, x, done[i]);
      } else {
        assert all[|rows|] == x;
      }
    }
    forall i | 0 <= i < |all| ensures HasIdentity(out, all[i].identity) {
      if i < |rows| {
        assert HasIdentity(done, rows[i].identity);
        var j :| 0 <= j < |done| && done[j].identity == rows[i].identity;
        assert out[j].identity == rows[i].identity;
      } else {
        assert out[|done|].identity == x.identity;
      }
    }
  }

  lemma BetterChosen(rows: seq<TradeRow>, best: TradeRow, x: TradeRow)
    requires Ordered(rows + [x]) && Chosen(rows, best) && best.identity == x.identity
    ensures Chosen(rows + [x], if KeyLess(best.tie, x.tie) then x else best)
  {
    var all, n := rows + [x], |rows|;
    KeyLessIrreflexive(x.tie);
    assert all[n] == x;
    if KeyLess(best.tie, x.tie) {
      forall r | r in all && r.identity == x.identity
        ensures KeyLeq(r.tie, x.tie) && (r.tie == x.tie ==> NoLaterThan(x, r))
      {
        if r in rows {
          assert KeyLeq(r.tie, best.tie);
          KeyLessTotal(r.tie, best.tie);
          if r.tie != best.tie { KeyLessTransitive(r.tie, best.tie, x.tie); }
          KeyLessAsymmetric(r.tie, x.tie);
          assert r.tie != x.tie;
        }
      }
    } else {
      var i :| 0 <= i < n && rows[i] == best;
      assert InOrder(all[i], all[n]);
    }
  }

  /** A further row of the current identity replaces the best so far exactly when its
      tie-break key is greater. */
  lemma SameGroup(done: seq<TradeRow>, best: TradeRow, rows: seq<TradeRow>, x: TradeRow)
    requires Ordered(rows + [x]) && IsCollapse(done + [best], rows) && best.identity == x.identity
    ensures IsCollapse(done + [if KeyLess(best.tie, x.tie) then x else best], rows + [x])
  {
    var before, all := done + [best], rows + [x];
    var better := if KeyLess(best.tie, x.tie) then x else best;
    var out := done + [better];
    assert before[|done|] == best;
    BetterChosen(rows, best, x);
    forall i | 0 <= i < |out| ensures Chosen(all, out[i]) {
      if i < |done| {
        assert before[i] == done[i];
        ChosenStays(rows, x, done[i]);
      }
    }
    forall i, j | 0 <= i < j < |out| ensures out[i].identity != out[j].identity {
      assert before[i].identity != before[j].identity;
    }
    forall i | 0 <= i < |all| ensures HasIdentity(out, all[i].identity) {
      assert out[|done|].identity == x.identity;
      if i < |rows| {
        var j :| 0 <= j < |before| && before[j].identity == rows[i].identity;
        assert out[j].identity == before[j].identity;
      }
    }
  }

  ghost predicate GroupCore(rows: seq<TradeRow>, identity: int, core: Key) {
    forall r :: r in rows && r.identity == identity ==> r.core == core
  }

  lemma AgreeMore(rows: seq<TradeRow>, x: TradeRow)
    requires Agree(rows)
    ensures Agree(rows + [x]) <==> GroupCore(rows, x.identity, x.core)
  {
    var all := rows + [x];
    assert all[|rows|] == x && x in all;
    assert forall r :: r in all <==> r in rows || r == x;
  }

  lemma AgreePrefix(rows: seq<TradeRow>, i: nat)
    requires Agree(rows) && i <= |rows|
    ensures Agree(rows[..i])
  {
  }

  lemma DisagreeEarly(rows: seq<TradeRow>, i: nat)
    requires i <= |rows| && !Agree(rows[..i])
    ensures !Agree(rows)
  {
    if Agree(rows) { AgreePrefix(rows, i); }
  }

  ghost predicate Collapsing(rows: seq<TradeRow>, done: seq<TradeRow>, best: TradeRow, core: Key) {
    && rows != [] && IsCollapse(done + [best], rows) && Agree(rows)
    && best.identity == rows[|rows| - 1].identity && GroupCore(rows, best.identity, core)
  }

  lemma CollapseNext(rows: seq<TradeRow>, done: seq<TradeRow>, best: TradeRow, core: Key, x: TradeRow)
    requires Collapsing(rows, done, best, core) && Ordered(rows + [x])
    ensures x.identity != best.identity ==> Collapsing(rows + [x], done + [best], x, x.core)
    ensures x.identity == best.identity && x.core == core ==>
      Collapsing(rows + [x], done, if KeyLess(best.tie, x.tie) then x else best, core)
    ensures x.identity == best.identity && x.core != core ==> !Agree(rows + [x])
  {
    AgreeMore(rows, x);
    if x.identity != best.identity {
      IdentitiesBelow(rows, x);
      NewGroup(done + [best], rows, x);
    } else {
      SameGroup(done, best, rows, x);
      assert rows[|rows| - 1] in rows;
      assert GroupCore(rows, x.identity, x.core) <==> x.core == core;
    }
  }

  lemma OrderedPrefix(rows: seq<TradeRow>, i: nat)
    requires Ordered(rows) && i < |rows|
    ensures Ordered(rows[..i] + [rows[i]]) && rows[..i] + [rows[i]] == rows[..i + 1]
  {
    assert rows[..i] + [rows[i]] == rows[..i + 1];
  }

  lemma FirstGroup(x: TradeRow)
    ensures Collapsing([x], [], x, x.core)
  {
    KeyLessIrreflexive(x.tie);
    assert [] + [x] == [x];
    assert Chosen([x], x);
    assert HasIdentity([x], x.identity);
  }

  /** Adds a finished group to the batch, which becomes a run when it is full. */
  method FlushCollapsed(runs: seq<TradeRow>, batch: seq<TradeRow>, best: TradeRow, batchRows: nat)
    returns (runs': seq<TradeRow>, batch': seq<TradeRow>)
    ensures runs' + batch' == runs + batch + [best]
    ensures |batch| < batchRows ==> |batch'| < batchRows
  {
    runs', batch' := runs, batch + [best];
    if |batch'| >= batchRows {
      runs', batch' := runs' + batch', [];
    }
  }

  /** One pass over rows sorted by identity. */
  method CollapseSorted(rows: seq<TradeRow>, batchRows: nat) returns (r: Result<seq<TradeRow>, CollapseError>)
    requires Ordered(rows)
    ensures r.Ok? <==> Agree(rows)
    ensures r.Ok? ==> IsCollapse(r.value, rows)
  {
    if rows == [] { return Ok([]); }
    var runs: seq<TradeRow> := [];
    var batch: seq<TradeRow> := [];
    var best, core := rows[0], rows[0].core;
    FirstGroup(rows[0]);
    assert rows[..1] == [rows[0]];
    for i := 1 to |rows|
      invariant Collapsing(rows[..i], runs + batch, best, core)
    {
      var row := rows[i];
      OrderedPrefix(rows, i);
      CollapseNext(rows[..i], runs + batch, best, core, row);
      if row.identity != best.identity {
        runs, batch := FlushCollapsed(runs, batch, best, batchRows);
        best, core := row, row.core;
      } else {
        if row.core != core {
          DisagreeEarly(rows, i + 1);
          return Err(CoresDisagree);
        }
        if KeyLess(best.tie, row.tie) { best := row; }
      }
    }
    assert rows[..|rows|] == rows;
    r := Ok(runs + batch + [best]);
  }

  // ---------------------------------------------------------------------------------
  // One bucket
  // ---------------------------------------------------------------------------------

  ghost predicate SameRows(a: seq<TradeRow>, b: seq<TradeRow>) {
    forall r :: r in a <==> r in b
  }

  /** Collapsing and agreement depend only on which rows there are. */
  lemma CollapseOfSameRows(out: seq<TradeRow>, a: seq<TradeRow>, b: seq<TradeRow>)
    requires SameRows(a, b)
    ensures Agree(a) ==> Agree(b)
    ensures IsCollapse(out, a) ==> IsCollapse(out, b)
  {
    if IsCollapse(out, a) {
      forall i | 0 <= i < |out| ensures Chosen(b, out[i]) {
        assert Chosen(a, out[i]);
      }
      forall i | 0 <= i < |b| ensures HasIdentity(out, b[i].identity) {
        var r := b[i];
        assert r in b && r in a;
        var j :| 0 <= j < |a| && a[j] == r;
        assert HasIdentity(out, a[j].identity);
      }
    }
  }

  lemma MergedOrdered(merged: seq<Keyed>)
    requires Sorted(merged) && KeysAre(IdentityKey, merged)
    ensures Ordered(Payloads(merged))
  {
    var rows := Payloads(merged);
    forall i, j | 0 <= i < j < |rows| ensures InOrder(rows[i], rows[j]) {
      assert merged[i] in merged && merged[j] in merged;
      assert KeyLeq(merged[i].key, merged[j].key);
      IdentityOrder(rows[i], rows[j]);
    }
  }

  method CollapseBucket(sort: seq<Keyed> -> seq<Keyed>, rows: seq<TradeRow>, batchRows: nat)
    returns (r: Result<seq<TradeRow>, CollapseError>)
    requires IsSort(sort) && batchRows > 0
    ensures r.Ok? <==> Agree(rows)
    ensures r.Ok? ==> IsCollapse(r.value, rows)
  {
    var merged := ExternalSort(sort, WithKeys(IdentityKey, rows), batchRows);
    SortedRowsMembers(IdentityKey, rows, merged);
    MergedOrdered(merged);
    ghost var stream := Payloads(merged);
    r := CollapseSorted(Payloads(merged), batchRows);
    CollapseOfSameRows(if r.Ok? then r.value else [], stream, rows);
    CollapseOfSameRows([], rows, stream);
  }

  // ---------------------------------------------------------------------------------
  // All buckets
  // ---------------------------------------------------------------------------------

  ghost predicate DisjointIdentities(a: seq<TradeRow>, b: seq<TradeRow>) {
    forall x, y :: x in a && y in b ==> x.identity != y.identity
  }

  lemma ChosenJoin(a: seq<TradeRow>, b: seq<TradeRow>, r: TradeRow)
    requires DisjointIdentities(a, b)
    ensures Chosen(a, r) ==> Chosen(a + b, r)
    ensures Chosen(b, r) ==> Chosen(a + b, r)
  {
    assert forall x :: x in a + b <==> x in a || x in b;
  }

  lemma CollapseJoin(outA: seq<TradeRow>, a: seq<TradeRow>, outB: seq<TradeRow>, b: seq<TradeRow>)
    requires IsCollapse(outA, a) && IsCollapse(outB, b) && DisjointIdentities(a, b)
    ensures IsCollapse(outA + outB, a + b)
  {
    var out, all := outA + outB, a + b;
    forall i | 0 <= i < |out| ensures Chosen(all, out[i]) {
      if i < |outA| {
        assert Chosen(a, outA[i]);
      } else {
        assert Chosen(b, outB[i - |outA|]);
      }
      ChosenJoin(a, b, out[i]);
    }
    forall i, j | 0 <= i < j < |out| ensures out[i].identity != out[j].identity {
      if i < |outA| <= j {
        assert Chosen(a, outA[i]) && Chosen(b, outB[j - |outA|]);
      }
    }
    forall i | 0 <= i < |all| ensures HasIdentity(out, all[i].identity) {
      if i < |a| {
        assert HasIdentity(outA, a[i].identity);
        var k :| 0 <= k < |outA| && outA[k].identity == a[i].identity;
        assert out[k].identity == all[i].identity;
      } else {
        assert HasIdentity(outB, b[i - |a|].identity);
        var k :| 0 <= k < |outB| && outB[k].identity == b[i - |a|].identity;
        assert out[|outA| + k].identity == all[i].identity;
      }
    }
  }

  lemma AgreeJoin(a: seq<TradeRow>, b: seq<TradeRow>)
    requires Agree(a) && Agree(b) && DisjointIdentities(a, b)
    ensures Agree(a + b)
  {
    assert forall x :: x in a + b <==> x in a || x in b;
  }

  /** The rows of the first `k` buckets. */
  function FirstBuckets(h: int -> nat, n: nat, rows: seq<TradeRow>, k: nat): seq<TradeRow>
    requires n > 0
  {
    if k == 0 then [] else FirstBuckets(h, n, rows, k - 1) + OfBucket(h, n, rows, k - 1)
  }

  lemma {:induction false} FirstBucketsHold(h: int -> nat, n: nat, rows: seq<TradeRow>, k: nat)
    requires n > 0
    ensures forall r :: r in FirstBuckets(h, n, rows, k) <==> r in rows && h(r.identity) % n < k
  {
    if k > 0 {
      FirstBucketsHold(h, n, rows, k - 1);
      OfBucketHolds(h, n, rows, k - 1);
    }
  }

  lemma NextBucket(h: int -> nat, n: nat, rows: seq<TradeRow>, k: nat, done: seq<TradeRow>, more: seq<TradeRow>)
    requires n > 0 && IsCollapse(done, FirstBuckets(h, n, rows, k)) && Agree(FirstBuckets(h, n, rows, k))
    requires IsCollapse(more, OfBucket(h, n, rows, k)) && Agree(OfBucket(h, n, rows, k))
    ensures IsCollapse(done + more, FirstBuckets(h, n, rows, k + 1)) && Agree(FirstBuckets(h, n, rows, k + 1))
  {
    FirstBucketsHold(h, n, rows, k);
    OfBucketHolds(h, n, rows, k);
    CollapseJoin(done, FirstBuckets(h, n, rows, k), more, OfBucket(h, n, rows, k));
    AgreeJoin(FirstBuckets(h, n, rows, k), OfBucket(h, n, rows, k));
  }

  lemma BucketDisagrees(h: int -> nat, n: nat, rows: seq<TradeRow>, b: nat)
    requires n > 0 && !Agree(OfBucket(h, n, rows, b))
    ensures !Agree(rows)
  {
    OfBucketHolds(h, n, rows, b);
  }

  method CollapseBuckets(h: int -> nat, n: nat, sort: seq<Keyed> -> seq<Keyed>, rows: seq<TradeRow>,
                         bufferRows: nat, batchRows: nat)
    returns (r: Result<seq<TradeRow>, CollapseError>)
    requires n > 0 && IsSort(sort) && batchRows > 0
    ensures r.Ok? <==> Agree(rows)
    ensures r.Ok? ==> IsCollapse(r.value, rows)
  {
    var piles := SpillTrades(h, n, rows, bufferRows);
    var done: seq<TradeRow> := [];
    for b := 0 to n
      invariant IsCollapse(done, FirstBuckets(h, n, rows, b)) && Agree(FirstBuckets(h, n, rows, b))
    {
      var collapsed := CollapseBucket(sort, piles[b].parts, batchRows);
      if collapsed.Err? {
        BucketDisagrees(h, n, rows, b);
        return collapsed;
      }
      NextBucket(h, n, rows, b, done, collapsed.value);
      done := done + collapsed.value;
    }
    FirstBucketsHold(h, n, rows, n);
    CollapseOfSameRows(done, FirstBuckets(h, n, rows, n), rows);
    r := Ok(done);
  }

  // ---------------------------------------------------------------------------------
  // The final order
  // ---------------------------------------------------------------------------------

  lemma {:induction false} UniqueCount(a: seq<Keyed>, p: nat)
    requires p < |a| && forall i, j :: 0 <= i < j < |a| ==> a[i] != a[j]
    ensures multiset(a)[a[p]] == 1
  {
    var n := |a| - 1;
    var front := a[..n];
    assert a == front + [a[n]];
    if p < n {
      UniqueCount(front, p);
    } else {
      assert a[n] !in front;
    }
  }

  lemma TwiceCount(a: seq<Keyed>, i: nat, j: nat)
    requires i < j < |a| && a[i] == a[j]
    ensures multiset(a)[a[i]] >= 2
  {
    var front, back := a[..j], a[j..];
    assert a == front + back && front[i] == a[i] && back[0] == a[j];
    assert a[i] in multiset(front) && a[i] in multiset(back);
  }

  /** A permutation of rows with distinct identities has distinct identities. */
  lemma DistinctPermuted(rows: seq<TradeRow>, merged: seq<Keyed>, i: nat, j: nat)
    requires multiset(merged) == multiset(WithKeys(TimeKey, rows)) && i < j < |merged|
    requires forall p, q :: 0 <= p < q < |rows| ==> rows[p].identity != rows[q].identity
    ensures merged[i].payload.identity != merged[j].payload.identity
  {
    var keyed := WithKeys(TimeKey, rows);
    SameMembers(merged, keyed);
    assert merged[i] in merged && merged[j] in merged;
    var p :| 0 <= p < |keyed| && keyed[p] == merged[i];
    var q :| 0 <= q < |keyed| && keyed[q] == merged[j];
    UniqueCount(keyed, p);
    if merged[i] == merged[j] { TwiceCount(merged, i, j); }
  }

  lemma OrderByTime(a: TradeRow, b: TradeRow)
    requires KeyLeq(TimeKey(a), TimeKey(b))
    ensures NoLaterThan(a, b)
  {
    var x, y := TimeKey(a).parts, TimeKey(b).parts;
    if !NoLaterThan(a, b) {
      assert y[1..][0] == b.block && x[1..][0] == a.block;
      assert PartsLess(y, x);
    }
  }

  lemma SortedByTime(merged: seq<Keyed>)
    requires Sorted(merged) && KeysAre(TimeKey, merged)
    ensures forall i, j :: 0 <= i < j < |merged| ==> NoLaterThan(merged[i].payload, merged[j].payload)
  {
    forall i, j | 0 <= i < j < |merged| ensures NoLaterThan(merged[i].payload, merged[j].payload) {
      assert merged[i] in merged && merged[j] in merged;
      assert KeyLeq(merged[i].key, merged[j].key);
      OrderByTime(merged[i].payload, merged[j].payload);
    }
  }

  lemma IdentityPermuted(out: seq<TradeRow>, final: seq<TradeRow>, identity: int)
    requires HasIdentity(out, identity) && forall r :: r in out ==> r in final
    ensures HasIdentity(final, identity)
  {
    var k :| 0 <= k < |out| && out[k].identity == identity;
    var r := out[k];
    assert r in out && r in final;
    var m :| 0 <= m < |final| && final[m] == r;
    assert final[m].identity == identity;
  }

  lemma ReorderedCollapse(out: seq<TradeRow>, rows: seq<TradeRow>, merged: seq<Keyed>)
    requires IsCollapse(out, rows) && multiset(merged) == multiset(WithKeys(TimeKey, out))
    ensures IsCollapse(Payloads(merged), rows)
  {
    var final := Payloads(merged);
    SortedRowsMembers(TimeKey, out, merged);
    forall i | 0 <= i < |final| ensures Chosen(rows, final[i]) {
      assert final[i] in final && final[i] in out;
    }
    forall i, j | 0 <= i < j < |final| ensures final[i].identity != final[j].identity {
      DistinctPermuted(out, merged, i, j);
    }
    forall i | 0 <= i < |rows| ensures HasIdentity(final, rows[i].identity) {
      IdentityPermuted(out, final, rows[i].identity);
    }
  }

  /** Collapses trades to one row for each identity, ordered by time and block. It fails
      exactly when two rows of one identity disagree on a core field, whatever the hash, the
      number of buckets, and the buffer and batch sizes. */
  method MaterializeCollapsedTrades(h: int -> nat, n: nat, sort: seq<Keyed> -> seq<Keyed>, rows: seq<TradeRow>,
                                    bufferRows: nat, batchRows: nat)
    returns (r: Result<seq<TradeRow>, CollapseError>)
    requires n > 0 && IsSort(sort) && batchRows > 0
    ensures r.Ok? <==> Agree(rows)
    ensures r.Ok? ==> IsCollapse(r.value, rows)
    ensures r.Ok? ==> forall i, j :: 0 <= i < j < |r.value| ==> NoLaterThan(r.value[i], r.value[j])
  {
    var collapsed := CollapseBuckets(h, n, sort, rows, bufferRows, batchRows);
    if collapsed.Err? { return collapsed; }
    var merged := ExternalSort(sort, WithKeys(TimeKey, collapsed.value), batchRows);
    SortedRowsMembers(TimeKey, collapsed.value, merged);
    SortedByTime(merged);
    ReorderedCollapse(collapsed.value, rows, merged);
    r := Ok(Payloads(merged));
  }
}
