/** What a completed sweep guarantees, and what a crash leaves behind. */
module GcConvergence {
  import opened GcWorld
  import opened GcSweep

  // ---------------------------------------------------------------------------------
  // Crash safety
  // ---------------------------------------------------------------------------------

  /** Every digest of `tracked` whose payload is gone is on record. */
  ghost predicate Accounted(s: Store, tracked: set<Digest>) {
    forall d :: d in tracked && d !in s.payloads ==> d in s.intents || d in s.receipts
  }

  lemma OpAccounted(s: Store, op: Op, protectedDigests: set<Digest>, tracked: set<Digest>)
    requires Accounted(s, tracked) && Enabled(op, s, protectedDigests) && Keyed(s)
    ensures Accounted(Apply(op, s), tracked) && Keyed(Apply(op, s))
    ensures forall d :: d in protectedDigests && d in s.payloads ==> d in Apply(op, s).payloads
    ensures forall d :: d in s.receipts ==> d in Apply(op, s).receipts && Apply(op, s).receipts[d] == s.receipts[d]
    ensures Apply(op, s).payloads <= s.payloads
  {
  }

  /** At every crash point of a locked apply, each payload unlinked so far has a durable
      intent or receipt, no protected payload is gone, and no receipt has changed. */
  lemma {:induction false} CrashSafe(s: Store, ops: seq<Op>, protectedDigests: set<Digest>, t: Store,
                                     tracked: set<Digest>)
    requires Performs(s, ops, protectedDigests, t) && Accounted(s, tracked) && Keyed(s)
    ensures Accounted(t, tracked) && Keyed(t) && t.payloads <= s.payloads
    ensures forall d :: d in protectedDigests && d in s.payloads ==> d in t.payloads
    ensures forall d :: d in s.receipts ==> d in t.receipts && t.receipts[d] == s.receipts[d]
    decreases |ops|
  {
    if ops != [] {
      OpAccounted(s, ops[0], protectedDigests, tracked);
      CrashSafe(Apply(ops[0], s), ops[1..], protectedDigests, t, tracked);
    }
  }

  /** The intents a stretch of operations works from: those pending before it and those it
      saves. */
  ghost predicate Declared(s: Store, ops: seq<Op>, i: Intent) {
    i in s.intents.Values || SaveIntent(i) in ops
  }

  /** The record of a payload that is gone: its declared intent while it is pending, and a
      receipt with that intent's metadata as soon as there is one. */
  ghost predicate OnRecord(s: Store, d: Digest, i: Intent) {
    && i.digest == d && (d in s.intents || d in s.receipts)
    && (d in s.intents ==> s.intents[d] == i)
    && (d in s.receipts ==> Repeats(s.receipts[d], i))
  }

  lemma OpKeepsRecord(s: Store, op: Op, protectedDigests: set<Digest>, d: Digest, i: Intent)
    requires Enabled(op, s, protectedDigests) && Keyed(s)
    requires d !in s.payloads && OnRecord(s, d, i)
    ensures d !in Apply(op, s).payloads && OnRecord(Apply(op, s), d, i)
  {
  }

  lemma {:induction false} RecordStays(s: Store, ops: seq<Op>, protectedDigests: set<Digest>, t: Store, d: Digest,
                                       i: Intent)
    requires Performs(s, ops, protectedDigests, t) && Keyed(s)
    requires d !in s.payloads && OnRecord(s, d, i)
    ensures d !in t.payloads && OnRecord(t, d, i)
    decreases |ops|
  {
    if ops != [] {
      OpKeepsRecord(s, ops[0], protectedDigests, d, i);
      OpAccounted(s, ops[0], protectedDigests, {});
      RecordStays(Apply(ops[0], s), ops[1..], protectedDigests, t, d, i);
    }
  }

  /** At every crash point, each payload unlinked so far is on record with the metadata of an
      intent that was pending before or saved by the run. */
  lemma {:induction false} UnlinkedOnRecord(s: Store, ops: seq<Op>, protectedDigests: set<Digest>, t: Store, d: Digest)
    returns (i: Intent)
    requires Performs(s, ops, protectedDigests, t) && Keyed(s) && d in s.payloads && d !in t.payloads
    ensures Declared(s, ops, i) && OnRecord(t, d, i)
    decreases |ops|
  {
    var next := Apply(ops[0], s);
    OpAccounted(s, ops[0], protectedDigests, {});
    if d in next.payloads {
      i := UnlinkedOnRecord(next, ops[1..], protectedDigests, t, d);
      assert i in next.intents.Values ==> i in s.intents.Values || ops[0] == SaveIntent(i);
    } else {
      i := s.intents[d];
      RecordStays(next, ops[1..], protectedDigests, t, d, i);
    }
  }

  /** At every crash point, each payload unlinked so far was eligible: for the mode of the run,
      or for the mode of an intent that was pending before it. */
  lemma {:induction false} UnlinkedWereEligible(sw: Sweep, s: Store, ops: seq<Op>, t: Store, d: Digest)
    returns (mode: Mode)
    requires Performs(s, ops, sw.index.protectedDigests, t) && AllJudged(sw, s, ops) && Keyed(s)
    requires d in s.payloads && d !in t.payloads
    ensures VerdictOf(sw, mode, d, true) == Eligible
    ensures mode == sw.mode || (d in s.intents && mode == s.intents[d].mode)
    decreases |ops|
  {
    var next := Apply(ops[0], s);
    OpAccounted(s, ops[0], sw.index.protectedDigests, {});
    if d in next.payloads {
      mode := UnlinkedWereEligible(sw, next, ops[1..], t, d);
    } else {
      mode := s.intents[d].mode;
    }
  }

  // ---------------------------------------------------------------------------------
  // What may go
  // ---------------------------------------------------------------------------------

  /** What a sweep may remove: what the rule of its mode lets go, or the rule of the mode in
      which a pending intent was written. */
  ghost predicate Removable(sw: Sweep, s: Store, d: Digest) {
    MayGo(sw, sw.mode, d) || (d in s.intents && MayGo(sw, s.intents[d].mode, d))
  }

  lemma UnlinkedWereRemovable(sw: Sweep, s: Store, ops: seq<Op>, t: Store)
    requires Marks(sw.world, sw.index) && Keyed(s)
    requires Performs(s, ops, sw.index.protectedDigests, t) && AllJudged(sw, s, ops)
    ensures forall d :: d in s.payloads && d !in t.payloads ==> Removable(sw, s, d)
  {
    forall d | d in s.payloads && d !in t.payloads ensures Removable(sw, s, d) {
      var mode := UnlinkedWereEligible(sw, s, ops, t, d);
      VerdictMeans(sw, mode, d);
    }
  }

  // ---------------------------------------------------------------------------------
  // Completed passes
  // ---------------------------------------------------------------------------------

  /** `t` came from `s` by deletions that all left a receipt dated now. */
  ghost predicate Settles(sw: Sweep, s: Store, t: Store) {
    && t.payloads <= s.payloads
    && (forall d :: d in s.receipts ==> d in t.receipts && t.receipts[d] == s.receipts[d])
    && (forall d :: d in t.receipts && d !in s.receipts ==>
        t.receipts[d].deletedAt == sw.now && t.receipts[d].digest == d)
    && (forall d :: d in s.payloads && d !in t.payloads ==> d in t.receipts && d !in sw.index.protectedDigests)
  }

  lemma SettlesTransitive(sw: Sweep, a: Store, b: Store, c: Store)
    requires Settles(sw, a, b) && Settles(sw, b, c)
    ensures Settles(sw, a, c)
  {
    forall d | d in a.receipts ensures d in c.receipts && c.receipts[d] == a.receipts[d] {
      assert d in b.receipts;
    }
    forall d | d in a.payloads && d !in c.payloads ensures d in c.receipts && d !in sw.index.protectedDigests {
      assert d in b.payloads || d in b.receipts;
    }
    forall d | d in c.receipts && d !in a.receipts
      ensures c.receipts[d].deletedAt == sw.now && c.receipts[d].digest == d
    {
      if d in b.receipts { assert c.receipts[d] == b.receipts[d]; }
    }
  }

  lemma {:induction false} ConvergedSettles(sw: Sweep, s: Store, ds: seq<Digest>)
    requires Keyed(s)
    ensures Settles(sw, s, Converged(sw, s, ds)) && Keyed(Converged(sw, s, ds))
  {
    if ds != [] {
      var front := ds[..|ds| - 1];
      ConvergedSettles(sw, s, front);
      SettlesTransitive(sw, s, Converged(sw, s, front), Converged(sw, s, ds));
    }
  }

  lemma {:induction false} SweptSettles(sw: Sweep, s: Store, cs: seq<Candidate>)
    requires Keyed(s)
    ensures Settles(sw, s, Swept(sw, s, cs)) && Keyed(Swept(sw, s, cs)) && Swept(sw, s, cs).intents == s.intents
  {
    if cs != [] {
      var front := cs[..|cs| - 1];
      SweptSettles(sw, s, front);
      SettlesTransitive(sw, s, Swept(sw, s, front), Swept(sw, s, cs));
    }
  }

  lemma {:induction false} ReceiptedSettles(sw: Sweep, s: Store, cs: seq<Candidate>)
    requires Keyed(s)
    ensures Settles(sw, s, Receipted(sw, s, cs)) && Keyed(Receipted(sw, s, cs))
    ensures Receipted(sw, s, cs).intents == s.intents && Receipted(sw, s, cs).payloads == s.payloads
  {
    if cs != [] {
      var front := cs[..|cs| - 1];
      ReceiptedSettles(sw, s, front);
      SettlesTransitive(sw, s, Receipted(sw, s, front), Receipted(sw, s, cs));
    }
  }

  /** A pending intent whose payload is already gone becomes a receipt with its own metadata. */
  lemma {:induction false} IntentBecomesReceipt(sw: Sweep, s: Store, ds: seq<Digest>, d: Digest)
    requires Keyed(s) && d in ds && d in s.intents && d !in s.payloads && d !in s.receipts
    ensures d in Converged(sw, s, ds).receipts && RepeatsNow(sw, Converged(sw, s, ds).receipts[d], s.intents[d])
  {
    var front, last := ds[..|ds| - 1], ds[|ds| - 1];
    ConvergedSettles(sw, s, front);
    if d in front {
      IntentBecomesReceipt(sw, s, front, d);
    } else {
      assert last == d;
      ConvergedKeeps(sw, s, front, d);
      ConvergedLeaves(sw, s, front, d);
    }
  }

  lemma {:induction false} ConvergedLeaves(sw: Sweep, s: Store, ds: seq<Digest>, d: Digest)
    requires d !in ds
    ensures d in Converged(sw, s, ds).receipts <==> d in s.receipts
    ensures d in Converged(sw, s, ds).payloads <==> d in s.payloads
  {
    if ds != [] {
      assert forall x :: x in ds[..|ds| - 1] ==> x in ds;
      ConvergedLeaves(sw, s, ds[..|ds| - 1], d);
    }
  }

  predicate RepeatsNow(sw: Sweep, r: Receipt, i: Intent) {
    Repeats(r, i) && r.deletedAt == sw.now
  }

  /** A receipt written for a candidate, with its payload in place or not. */
  predicate ReceiptFor(sw: Sweep, c: Candidate, present: bool, r: Receipt) {
    && r.digest == c.digest && r.size == c.size && r.metadata == sw.describe(c.digest, present)
    && r.deletedAt == sw.now && r.mode == sw.mode && r.policy == sw.policy
  }

  /** A receipt of a removed payload: it carries the metadata of the pending intent, or of the
      intent written for a candidate of the run. */
  ghost predicate RemovalReceipt(sw: Sweep, s: Store, cs: seq<Candidate>, d: Digest, r: Receipt) {
    || (d in s.intents && RepeatsNow(sw, r, s.intents[d]))
    || (exists c :: c in cs && c.digest == d && ReceiptFor(sw, c, true, r))
  }

  /** Whatever convergence removes gets its pending intent's metadata. */
  lemma {:induction false} ConvergedRemoval(sw: Sweep, s: Store, ds: seq<Digest>, d: Digest)
    requires Keyed(s) && d in s.payloads && d !in Converged(sw, s, ds).payloads
    ensures d in s.intents && d in Converged(sw, s, ds).receipts
    ensures RepeatsNow(sw, Converged(sw, s, ds).receipts[d], s.intents[d])
  {
    var front := ds[..|ds| - 1];
    ConvergedKeeps(sw, s, front, d);
    ConvergedSettles(sw, s, front);
    if d !in Converged(sw, s, front).payloads {
      ConvergedRemoval(sw, s, front, d);
    }
  }

  /** Whatever the sweep removes gets the metadata of the intent written for it. */
  lemma {:induction false} SweptRemoval(sw: Sweep, s: Store, cs: seq<Candidate>, d: Digest)
    requires Keyed(s) && d in s.payloads && d !in Swept(sw, s, cs).payloads
    ensures d in Swept(sw, s, cs).receipts
    ensures exists c :: c in cs && c.digest == d && ReceiptFor(sw, c, true, Swept(sw, s, cs).receipts[d])
  {
    var front, last := cs[..|cs| - 1], cs[|cs| - 1];
    SweptSettles(sw, s, front);
    if d !in Swept(sw, s, front).payloads {
      SweptRemoval(sw, s, front, d);
      var c :| c in front && c.digest == d && ReceiptFor(sw, c, true, Swept(sw, s, front).receipts[d]);
      assert c in cs;
    } else {
      assert last in cs && last.digest == d;
    }
  }

  lemma CompletedRemoval(sw: Sweep, s: Store, ds: seq<Digest>, cs: seq<Candidate>, records: seq<Candidate>, d: Digest)
    requires Keyed(s) && d in s.payloads && d !in Completed(sw, s, ds, cs, records).payloads
    ensures var t := Completed(sw, s, ds, cs, records); d in t.receipts && RemovalReceipt(sw, s, cs, d, t.receipts[d])
  {
    var a := Converged(sw, s, ds);
    var b := Swept(sw, a, cs);
    ConvergedSettles(sw, s, ds);
    SweptSettles(sw, a, cs);
    ReceiptedSettles(sw, b, records);
    if d !in a.payloads {
      ConvergedRemoval(sw, s, ds, d);
    } else {
      SweptRemoval(sw, a, cs, d);
    }
  }

  /** A receipt for a payload that was already gone and not intended, as a candidate names it. */
  ghost predicate OwedReceipt(sw: Sweep, cs: seq<Candidate>, r: Receipt) {
    exists c :: c in cs && ReceiptFor(sw, c, false, r)
  }

  lemma OwedMore(sw: Sweep, cs: seq<Candidate>, c: Candidate, r: Receipt)
    ensures OwedReceipt(sw, cs, r) || ReceiptFor(sw, c, false, r) ==> OwedReceipt(sw, cs + [c], r)
  {
    assert c in cs + [c];
    if OwedReceipt(sw, cs, r) {
      var owed :| owed in cs && ReceiptFor(sw, owed, false, r);
      assert owed in cs + [c];
    }
  }

  lemma {:induction false} ConvergedFromIntents(sw: Sweep, s: Store, ds: seq<Digest>, d: Digest)
    requires d in Converged(sw, s, ds).receipts && d !in s.receipts
    ensures d in s.intents
  {
    var front := ds[..|ds| - 1];
    ConvergedKeeps(sw, s, front, d);
    if d in Converged(sw, s, front).receipts { ConvergedFromIntents(sw, s, front, d); }
  }

  lemma {:induction false} SweptOwed(sw: Sweep, s: Store, cs: seq<Candidate>, d: Digest)
    requires Keyed(s) && d !in s.payloads && d !in s.receipts && d in Swept(sw, s, cs).receipts
    ensures OwedReceipt(sw, cs, Swept(sw, s, cs).receipts[d]) && d !in sw.index.protectedDigests
  {
    var front, last := cs[..|cs| - 1], cs[|cs| - 1];
    SweptSettles(sw, s, front);
    if d in Swept(sw, s, front).receipts { SweptOwed(sw, s, front, d); }
    OwedMore(sw, front, last, Swept(sw, s, cs).receipts[d]);
    assert cs == front + [last];
  }

  lemma {:induction false} ReceiptedOwed(sw: Sweep, s: Store, cs: seq<Candidate>, d: Digest)
    requires Keyed(s) && d !in s.receipts && d in Receipted(sw, s, cs).receipts
    ensures OwedReceipt(sw, cs, Receipted(sw, s, cs).receipts[d]) && d !in s.payloads
    ensures d !in sw.index.protectedDigests && VerdictOf(sw, sw.mode, d, false) == Eligible
  {
    var front, last := cs[..|cs| - 1], cs[|cs| - 1];
    ReceiptedSettles(sw, s, front);
    if d in Receipted(sw, s, front).receipts { ReceiptedOwed(sw, s, front, d); }
    OwedMore(sw, front, last, Receipted(sw, s, cs).receipts[d]);
    assert cs == front + [last];
  }

  /** A completed apply leaves no intents, a receipt for everything it removed and for every
      pending intent whose payload was gone, with the metadata of the intent it was removed
      under, and never touches a protected payload or an earlier receipt. */
  lemma CompletedConverges(sw: Sweep, s: Store, ds: seq<Digest>, cs: seq<Candidate>, records: seq<Candidate>)
    requires Keyed(s) && ListsAll(ds, s.intents.Keys)
    ensures var t := Completed(sw, s, ds, cs, records);
      && Settles(sw, s, t) && Keyed(t) && t.intents == map[]
      && (forall d :: d in s.payloads && d !in t.payloads ==> RemovalReceipt(sw, s, cs, d, t.receipts[d]))
      && forall d :: d in s.intents && d !in s.payloads && d !in s.receipts ==>
           d in t.receipts && RepeatsNow(sw, t.receipts[d], s.intents[d])
  {
    var a := Converged(sw, s, ds);
    var b := Swept(sw, a, cs);
    var t := Receipted(sw, b, records);
    ConvergedSettles(sw, s, ds);
    SweptSettles(sw, a, cs);
    ReceiptedSettles(sw, b, records);
    SettlesTransitive(sw, s, a, b);
    SettlesTransitive(sw, s, b, t);
    ConvergedAll(sw, s, ds);
    forall d | d in s.payloads && d !in t.payloads ensures RemovalReceipt(sw, s, cs, d, t.receipts[d]) {
      CompletedRemoval(sw, s, ds, cs, records, d);
    }
    forall d | d in s.intents && d !in s.payloads && d !in s.receipts
      ensures d in t.receipts && RepeatsNow(sw, t.receipts[d], s.intents[d])
    {
      IntentBecomesReceipt(sw, s, ds, d);
    }
  }

  lemma {:induction false} ConvergedDeletesEligible(sw: Sweep, s: Store, ds: seq<Digest>, d: Digest)
    requires d in s.payloads && d !in Converged(sw, s, ds).payloads
    ensures d in s.intents && VerdictOf(sw, s.intents[d].mode, d, true) == Eligible
  {
    var front := ds[..|ds| - 1];
    ConvergedKeeps(sw, s, front, d);
    if d !in Converged(sw, s, front).payloads {
      ConvergedDeletesEligible(sw, s, front, d);
    }
  }

  lemma {:induction false} SweptDeletesEligible(sw: Sweep, s: Store, cs: seq<Candidate>, d: Digest)
    requires d in s.payloads && d !in Swept(sw, s, cs).payloads
    ensures VerdictOf(sw, sw.mode, d, true) == Eligible
  {
    var front := cs[..|cs| - 1];
    if d !in Swept(sw, s, front).payloads {
      SweptDeletesEligible(sw, s, front, d);
    }
  }

  /** Whatever the caller proposes, a completed apply deletes a payload only if it is eligible
      under the locked mark: for the mode of the run, or for the mode of a pending intent. */
  lemma DeletedWereEligible(sw: Sweep, s: Store, ds: seq<Digest>, cs: seq<Candidate>, records: seq<Candidate>,
                            d: Digest)
    requires Keyed(s) && d in s.payloads && d !in Completed(sw, s, ds, cs, records).payloads
    ensures d !in sw.index.protectedDigests
    ensures VerdictOf(sw, sw.mode, d, true) == Eligible ||
            (d in s.intents && VerdictOf(sw, s.intents[d].mode, d, true) == Eligible)
  {
    var a := Converged(sw, s, ds);
    ConvergedSettles(sw, s, ds);
    SweptSettles(sw, a, cs);
    ReceiptedSettles(sw, Swept(sw, a, cs), records);
    if d !in a.payloads {
      ConvergedDeletesEligible(sw, s, ds, d);
    } else {
      SweptDeletesEligible(sw, a, cs, d);
    }
  }

  /** Crash, then rerun to completion: whatever was unlinked before the crash or after it has
      a receipt, with the metadata of the intent it was unlinked under. That intent was
      pending before the crashed run, saved by it, or written by the rerun for a candidate. */
  lemma CrashThenRerun(s: Store, ops: seq<Op>, protectedDigests: set<Digest>, u: Store,
                       sw: Sweep, ds: seq<Digest>, cs: seq<Candidate>, records: seq<Candidate>, d: Digest)
    returns (i: Intent)
    requires Keyed(s) && Performs(s, ops, protectedDigests, u) && ListsAll(ds, u.intents.Keys)
    requires d in s.payloads && d !in Completed(sw, u, ds, cs, records).payloads
    ensures var t := Completed(sw, u, ds, cs, records);
      && t.intents == map[] && d in t.receipts
      && Repeats(t.receipts[d], i) && i.digest == d
      && (Declared(s, ops, i) || exists c :: c in cs && i.digest == c.digest && ReceiptFor(sw, c, true, t.receipts[d]))
      && forall e :: e in u.intents && e !in u.payloads && e !in u.receipts ==>
           e in t.receipts && RepeatsNow(sw, t.receipts[e], u.intents[e])
  {
    CrashSafe(s, ops, protectedDigests, u, s.payloads);
    CompletedConverges(sw, u, ds, cs, records);
    var t := Completed(sw, u, ds, cs, records);
    if d !in u.payloads {
      i := UnlinkedOnRecord(s, ops, protectedDigests, u, d);
    } else if d in u.intents && Repeats(t.receipts[d], u.intents[d]) {
      i := u.intents[d];
      PendingWasDeclared(s, ops, protectedDigests, u, d);
    } else {
      var c :| c in cs && c.digest == d && ReceiptFor(sw, c, true, t.receipts[d]);
      i := IntentFor(sw, c);
    }
  }

  /** An intent that is pending at a crash was pending before the run or saved by it. */
  lemma {:induction false} PendingWasDeclared(s: Store, ops: seq<Op>, protectedDigests: set<Digest>, t: Store,
                                              d: Digest)
    requires Performs(s, ops, protectedDigests, t) && Keyed(s) && d in t.intents
    ensures Declared(s, ops, t.intents[d]) && t.intents[d].digest == d
    decreases |ops|
  {
    if ops != [] {
      var next := Apply(ops[0], s);
      OpAccounted(s, ops[0], protectedDigests, {});
      PendingWasDeclared(next, ops[1..], protectedDigests, t, d);
      var i := t.intents[d];
      assert i in next.intents.Values ==> i in s.intents.Values || ops[0] == SaveIntent(i);
    }
  }

  // ---------------------------------------------------------------------------------
  // Quiescence
  // ---------------------------------------------------------------------------------

  /** What planning selects from a store. */
  ghost predicate Plannable(sw: Sweep, s: Store, d: Digest) {
    && d in s.payloads && d !in sw.index.protectedDigests && d !in s.receipts
    && VerdictOf(sw, sw.mode, d, true) == Eligible
  }

  /** Under a mark of the world, planning selects the payloads without a receipt that no record
      asks for and that the rule of the mode lets go. */
  lemma PlannableMeans(sw: Sweep, s: Store, d: Digest)
    requires Marks(sw.world, sw.index)
    ensures Plannable(sw, s, d) <==>
      d in s.payloads && d !in s.receipts && !Wanted(sw.world, d) && MayGo(sw, sw.mode, d)
  {
    ProtectedMeans(sw.world, d);
    VerdictMeans(sw, sw.mode, d);
  }

  ghost predicate IsPlan(sw: Sweep, s: Store, cs: seq<Candidate>) {
    && (forall i :: 0 <= i < |cs| ==> Plannable(sw, s, cs[i].digest))
    && forall d :: Plannable(sw, s, d) ==> exists i :: 0 <= i < |cs| && cs[i].digest == d
  }

  ghost predicate Names(cs: seq<Candidate>, d: Digest) {
    exists i :: 0 <= i < |cs| && cs[i].digest == d
  }

  lemma NamesSnoc(cs: seq<Candidate>, d: Digest)
    requires cs != []
    ensures Names(cs, d) <==> Names(cs[..|cs| - 1], d) || cs[|cs| - 1].digest == d
  {
    var front, last := cs[..|cs| - 1], cs[|cs| - 1];
    if Names(front, d) {
      var i :| 0 <= i < |front| && front[i].digest == d;
      assert cs[i].digest == d;
    }
    assert cs[|cs| - 1].digest == last.digest;
    assert forall i :: 0 <= i < |cs| ==> cs[i] == if i < |front| then front[i] else last;
  }

  lemma {:induction false} SweptDeletesPlanned(sw: Sweep, s: Store, cs: seq<Candidate>, d: Digest)
    requires Keyed(s) && Names(cs, d) && d !in s.intents && Plannable(sw, s, d)
    ensures d !in Swept(sw, s, cs).payloads
  {
    var front := cs[..|cs| - 1];
    SweptSettles(sw, s, front);
    NamesSnoc(cs, d);
    if Names(front, d) {
      SweptDeletesPlanned(sw, s, front, d);
    } else {
      SweptLeaves(sw, s, front, d);
    }
  }

  lemma {:induction false} SweptLeaves(sw: Sweep, s: Store, cs: seq<Candidate>, d: Digest)
    requires !Names(cs, d)
    ensures d in Swept(sw, s, cs).receipts <==> d in s.receipts
    ensures d in Swept(sw, s, cs).payloads <==> d in s.payloads
  {
    if cs != [] {
      NamesSnoc(cs, d);
      SweptLeaves(sw, s, cs[..|cs| - 1], d);
    }
  }

  lemma {:induction false} ConvergedNewReceipts(sw: Sweep, s: Store, ds: seq<Digest>, d: Digest)
    requires Keyed(s) && d in Converged(sw, s, ds).receipts && d !in s.receipts
    ensures d !in Converged(sw, s, ds).payloads
  {
    if d in Converged(sw, s, ds[..|ds| - 1]).receipts {
      ConvergedNewReceipts(sw, s, ds[..|ds| - 1], d);
    }
  }

  /** A candidate that is neither wanted nor receipted, and that the rule lets go, does go. */
  ghost predicate Goes(sw: Sweep, s: Store, cs: seq<Candidate>, d: Digest) {
    && Names(cs, d) && d in s.payloads && d !in s.receipts && !Wanted(sw.world, d)
    && MayGo(sw, sw.mode, d)
  }

  lemma CandidateGoes(sw: Sweep, s: Store, ds: seq<Digest>, cs: seq<Candidate>, d: Digest)
    requires Keyed(s) && ListsAll(ds, s.intents.Keys) && Marks(sw.world, sw.index) && Goes(sw, s, cs, d)
    ensures d !in Swept(sw, Converged(sw, s, ds), cs).payloads
  {
    var a := Converged(sw, s, ds);
    ConvergedSettles(sw, s, ds);
    SweptSettles(sw, a, cs);
    if d in a.payloads {
      if d in a.receipts { ConvergedNewReceipts(sw, s, ds, d); }
      ConvergedAll(sw, s, ds);
      PlannableMeans(sw, a, d);
      SweptDeletesPlanned(sw, a, cs, d);
    }
  }

  /** A completed apply writes a receipt for a payload that was gone and not intended only if no
      record asks for it, and then with what a candidate says, or, in a normal run, a record of
      a delivery old enough. */
  lemma CompletedOwed(sw: Sweep, s: Store, ds: seq<Digest>, cs: seq<Candidate>, records: seq<Candidate>, d: Digest)
    requires Keyed(s) && Marks(sw.world, sw.index) && d !in s.payloads && d !in s.intents && d !in s.receipts
    requires d in Completed(sw, s, ds, cs, records).receipts
    ensures var r := Completed(sw, s, ds, cs, records).receipts[d];
      && !Wanted(sw.world, d)
      && (OwedReceipt(sw, cs, r) || (OwedReceipt(sw, records, r) && sw.mode == Normal
            && DeliveredLongAgo(sw.world, sw.now, sw.grace, d)))
  {
    var a := Converged(sw, s, ds);
    var b := Swept(sw, a, cs);
    ProtectedMeans(sw.world, d);
    VerdictMeans(sw, sw.mode, d);
    ConvergedSettles(sw, s, ds);
    SweptSettles(sw, a, cs);
    ReceiptedSettles(sw, b, records);
    if d in a.receipts { ConvergedFromIntents(sw, s, ds, d); }
    if d in b.receipts {
      SweptOwed(sw, a, cs, d);
    } else {
      ReceiptedOwed(sw, b, records, d);
    }
  }

  lemma {:induction false} SweptRecords(sw: Sweep, s: Store, cs: seq<Candidate>, d: Digest)
    requires Keyed(s) && Names(cs, d) && d !in s.intents && d !in sw.index.protectedDigests && d !in s.payloads
    ensures d in Swept(sw, s, cs).receipts
  {
    var front := cs[..|cs| - 1];
    SweptSettles(sw, s, front);
    NamesSnoc(cs, d);
    if Names(front, d) { SweptRecords(sw, s, front, d); }
  }

  /** A completed apply leaves a receipt for each candidate that no record asks for and whose
      payload was gone already or that the rule lets go. */
  lemma CandidatesRecorded(sw: Sweep, s: Store, ds: seq<Digest>, cs: seq<Candidate>, records: seq<Candidate>,
                           d: Digest)
    requires Keyed(s) && ListsAll(ds, s.intents.Keys) && Marks(sw.world, sw.index)
    requires Names(cs, d) && !Wanted(sw.world, d)
    requires d !in s.payloads || (d !in s.receipts && MayGo(sw, sw.mode, d))
    ensures d in Completed(sw, s, ds, cs, records).receipts && d !in Completed(sw, s, ds, cs, records).payloads
  {
    var a := Converged(sw, s, ds);
    var b := Swept(sw, a, cs);
    ProtectedMeans(sw.world, d);
    ConvergedSettles(sw, s, ds);
    ConvergedAll(sw, s, ds);
    SweptSettles(sw, a, cs);
    ReceiptedSettles(sw, b, records);
    if d in s.payloads {
      CandidateGoes(sw, s, ds, cs, d);
    } else {
      SweptRecords(sw, a, cs, d);
    }
  }

  /** A completed normal run leaves a receipt for each delivery record whose payload is gone,
      that no other record asks for and that was delivered long enough ago. */
  lemma DeliveriesRecorded(sw: Sweep, s: Store, ds: seq<Digest>, cs: seq<Candidate>, records: seq<Candidate>, i: nat)
    requires Keyed(s) && ListsAll(ds, s.intents.Keys) && Marks(sw.world, sw.index) && sw.mode == Normal
    requires i < |records| && !Wanted(sw.world, records[i].digest)
    requires DeliveredLongAgo(sw.world, sw.now, sw.grace, records[i].digest)
    ensures var t, d := Completed(sw, s, ds, cs, records), records[i].digest; d in t.payloads || d in t.receipts
  {
    var b, d := Swept(sw, Converged(sw, s, ds), cs), records[i].digest;
    ProtectedMeans(sw.world, d);
    VerdictMeans(sw, Normal, d);
    ConvergedSettles(sw, s, ds);
    SweptSettles(sw, Converged(sw, s, ds), cs);
    ReceiptedSettles(sw, b, records);
    ReceiptedSettles(sw, b, records[..i]);
    if d !in b.payloads { RecordGetsReceipt(sw, b, records, i); }
  }

  /** In a run with enough budget, raising or not. */
  lemma CandidatesGo(sw: Sweep, s: Store, ds: seq<Digest>, cs: seq<Candidate>, records: seq<Candidate>, t: Store,
                     crashed: bool)
    requires Keyed(s) && ListsAll(ds, s.intents.Keys) && Marks(sw.world, sw.index)
    requires StopsAtFirstRaise(sw, Swept(sw, Converged(sw, s, ds), cs), records, t, crashed)
    ensures forall d :: Goes(sw, s, cs, d) ==> d !in t.payloads
  {
    var b := Swept(sw, Converged(sw, s, ds), cs);
    ConvergedSettles(sw, s, ds);
    SweptSettles(sw, Converged(sw, s, ds), cs);
    forall i | 0 <= i <= |records| ensures Receipted(sw, b, records[..i]).payloads == b.payloads {
      ReceiptedSettles(sw, b, records[..i]);
    }
    assert records[..|records|] == records;
    assert t.payloads == b.payloads;
    forall d | Goes(sw, s, cs, d) ensures d !in t.payloads { CandidateGoes(sw, s, ds, cs, d); }
  }

  /** After a completed run nothing that planning selects is left. */
  lemma NothingLeftToPlan(sw: Sweep, s: Store, ds: seq<Digest>, cs: seq<Candidate>, records: seq<Candidate>, d: Digest)
    requires Keyed(s) && ListsAll(ds, s.intents.Keys) && IsPlan(sw, s, cs)
    ensures !Plannable(sw, Completed(sw, s, ds, cs, records), d)
  {
    var a := Converged(sw, s, ds);
    var b := Swept(sw, a, cs);
    ConvergedSettles(sw, s, ds);
    ConvergedKeeps(sw, s, ds, d);
    SweptSettles(sw, a, cs);
    ReceiptedSettles(sw, b, records);
    if Plannable(sw, a, d) {
      assert Plannable(sw, s, d);
      assert Names(cs, d);
      SweptDeletesPlanned(sw, a, cs, d);
    }
  }

  lemma {:induction false} ReceiptedGrows(sw: Sweep, s: Store, records: seq<Candidate>, i: nat, d: Digest)
    requires i <= |records| && d in Receipted(sw, s, records[..i]).receipts
    ensures d in Receipted(sw, s, records).receipts
    decreases |records| - i
  {
    if i < |records| {
      assert records[..i + 1][..i] == records[..i];
      ReceiptedGrows(sw, s, records, i + 1, d);
    } else {
      assert records[..i] == records;
    }
  }

  lemma RecordGetsReceipt(sw: Sweep, s: Store, records: seq<Candidate>, i: nat)
    requires i < |records|
    requires var before := Receipted(sw, s, records[..i]);
      records[i].digest in before.receipts ||
      (Unreceipted(sw, before, records[i].digest) && VerdictOf(sw, sw.mode, records[i].digest, false) == Eligible)
    ensures records[i].digest in Receipted(sw, s, records).receipts
  {
    assert records[..i + 1][..i] == records[..i];
    ReceiptedGrows(sw, s, records, i + 1, records[i].digest);
  }

  /** After the receipts pass no delivery is owed a receipt any more. */
  lemma RecordSettled(sw: Sweep, s: Store, records: seq<Candidate>, i: nat)
    requires Keyed(s) && CompletesWithoutRaise(sw, s, records) && i < |records|
    ensures var t := Receipted(sw, s, records);
      RecordStep(sw, t, records[i]) == t && !RecordRaises(sw, t, records[i])
  {
    var t, d := Receipted(sw, s, records), records[i].digest;
    var before := Receipted(sw, s, records[..i]);
    ReceiptedSettles(sw, s, records);
    ReceiptedSettles(sw, s, records[..i]);
    assert !RecordRaises(sw, before, records[i]);
    if d in before.receipts || (Unreceipted(sw, before, d) && VerdictOf(sw, sw.mode, d, false) == Eligible) {
      RecordGetsReceipt(sw, s, records, i);
      assert !Unreceipted(sw, t, d);
    } else {
      assert Unreceipted(sw, t, d) ==> Unreceipted(sw, before, d);
    }
  }

  lemma {:induction false} SettledStays(sw: Sweep, t: Store, records: seq<Candidate>)
    requires forall i :: 0 <= i < |records| ==> RecordStep(sw, t, records[i]) == t
    ensures Receipted(sw, t, records) == t
  {
    if records != [] {
      var front := records[..|records| - 1];
      assert forall i :: 0 <= i < |front| ==> front[i] == records[i];
      SettledStays(sw, t, front);
    }
  }

  /** A further run on the quiescent state plans nothing, raises nothing and changes nothing. */
  lemma FurtherRunDoesNothing(sw: Sweep, s: Store, ds: seq<Digest>, cs: seq<Candidate>, records: seq<Candidate>,
                              again: seq<Candidate>)
    requires Keyed(s) && ListsAll(ds, s.intents.Keys) && IsPlan(sw, s, cs)
    requires CompletesWithoutRaise(sw, Swept(sw, Converged(sw, s, ds), cs), records)
    requires IsPlan(sw, Completed(sw, s, ds, cs, records), again)
    ensures var t := Completed(sw, s, ds, cs, records);
      ListsAll([], t.intents.Keys) && again == [] && Completed(sw, t, [], again, records) == t
      && forall i :: 0 <= i < |records| ==> !RecordRaises(sw, t, records[i])
  {
    var b := Swept(sw, Converged(sw, s, ds), cs);
    var t := Receipted(sw, b, records);
    CompletedConverges(sw, s, ds, cs, records);
    ConvergedSettles(sw, s, ds);
    SweptSettles(sw, Converged(sw, s, ds), cs);
    if again != [] {
      NothingLeftToPlan(sw, s, ds, cs, records, again[0].digest);
    }
    forall i | 0 <= i < |records|
      ensures RecordStep(sw, t, records[i]) == t && !RecordRaises(sw, t, records[i])
    {
      RecordSettled(sw, b, records, i);
    }
    SettledStays(sw, t, records);
  }

  // ---------------------------------------------------------------------------------
  // Planning and applying
  // ---------------------------------------------------------------------------------

  /** Scans the payload files for what may be deleted. */
  method PlanCandidates(sw: Sweep, s: Store, files: seq<Digest>, sizeOf: Digest -> int) returns (cs: seq<Candidate>)
    requires ListsAll(files, s.payloads)
    ensures IsPlan(sw, s, cs)
  {
    cs := [];
    for i := 0 to |files|
      invariant forall k :: 0 <= k < |cs| ==> Plannable(sw, s, cs[k].digest)
      invariant forall k :: 0 <= k < i && Plannable(sw, s, files[k]) ==> Names(cs, files[k])
    {
      var d := files[i];
      assert d in files;
      ghost var before := cs;
      if d !in sw.index.protectedDigests && d !in s.receipts {
        var verdict := StillEligible(sw, sw.mode, d, true);
        if verdict == Eligible { cs := cs + [Candidate(d, sizeOf(d))]; }
      }
      forall k | 0 <= k <= i && Plannable(sw, s, files[k]) ensures Names(cs, files[k]) {
        if k < i {
          NamesGrow(before, cs, files[k]);
        } else {
          assert cs[|cs| - 1].digest == d;
        }
      }
    }
    forall d | Plannable(sw, s, d) ensures exists i :: 0 <= i < |cs| && cs[i].digest == d {
      assert d in files;
      var k :| 0 <= k < |files| && files[k] == d;
      assert Names(cs, files[k]);
    }
  }

  lemma NamesGrow(a: seq<Candidate>, b: seq<Candidate>, d: Digest)
    requires Names(a, d) && a <= b
    ensures Names(b, d)
  {
    var i :| 0 <= i < |a| && a[i].digest == d;
    assert b[i].digest == d;
  }

  /** What a run with enough budget leaves, whether or not it raises: no intents, a receipt for
      everything it removed with the metadata it was removed under, and nothing protected gone. */
  ghost predicate Converges(sw: Sweep, s: Store, cs: seq<Candidate>, t: Store) {
    && t.intents == map[] && Settles(sw, s, t)
    && forall d :: d in s.payloads && d !in t.payloads ==> RemovalReceipt(sw, s, cs, d, t.receipts[d])
  }

  /** A raise stops the receipts pass only, so all of the above holds even then. */
  lemma RaisedRunConverges(sw: Sweep, s: Store, ds: seq<Digest>, cs: seq<Candidate>, records: seq<Candidate>,
                           t: Store, crashed: bool)
    requires Keyed(s) && ListsAll(ds, s.intents.Keys)
    requires StopsAtFirstRaise(sw, Swept(sw, Converged(sw, s, ds), cs), records, t, crashed)
    ensures Converges(sw, s, cs, t)
    ensures crashed <==> !CompletesWithoutRaise(sw, Swept(sw, Converged(sw, s, ds), cs), records)
  {
    var b := Swept(sw, Converged(sw, s, ds), cs);
    if crashed {
      var i: nat :| RaisesFirst(sw, b, records, i) && t == Receipted(sw, b, records[..i]);
      CompletedConverges(sw, s, ds, cs, records[..i]);
    } else {
      CompletedConverges(sw, s, ds, cs, records);
    }
  }

  /** A normal run never raises: only the legacy rule asks for the time of a missing file. */
  lemma NormalNeverRaises(sw: Sweep, s: Store, records: seq<Candidate>)
    requires sw.mode == Normal
    ensures CompletesWithoutRaise(sw, s, records)
  {
  }

  /** Apply under the lifecycle lock: mark again, refuse if anything is unreadable, otherwise
      run the sweep against that mark. The crash budget stands for every crash point. With
      enough of it, an unblocked run converges, and fails exactly if a record raises. */
  method ApplyGc(base: Sweep, s: Store, operations: nat, ds: seq<Digest>, candidates: seq<Candidate>,
                 records: seq<Candidate>)
    returns (result: Store, blocked: bool, crashed: bool, ghost ops: seq<Op>, ghost index: Index)
    requires Keyed(s) && ListsAll(ds, s.intents.Keys)
    ensures Marks(base.world, index) && blocked == base.world.unreadable
    ensures Performs(s, ops, index.protectedDigests, result)
    ensures blocked ==> result == s && !crashed
    ensures !blocked ==> Accounted(result, s.payloads)
    ensures forall d :: d in s.payloads && d !in result.payloads ==> Removable(base, s, d) && !Wanted(base.world, d)
    ensures !blocked && operations >= Operations(ds, candidates, records) ==>
      forall d :: Goes(base, s, candidates, d) ==> d !in result.payloads
    ensures !blocked && !crashed ==> result == Completed(base.(index := index), s, ds, candidates, records)
    ensures !blocked && !crashed ==> Converges(base.(index := index), s, candidates, result)
    ensures !blocked && operations >= Operations(ds, candidates, records) ==>
      var sw := base.(index := index);
      Converges(sw, s, candidates, result)
      && (crashed <==> !CompletesWithoutRaise(sw, Swept(sw, Converged(sw, s, ds), candidates), records))
    ensures operations >= Operations(ds, candidates, records) && base.mode == Normal ==> !crashed
  {
    var marked := BuildReachabilityIndex(base.world);
    index, ops, crashed := marked, [], false;
    if marked.unknown { return s, true, false, [], marked; }
    ghost var sw := base.(index := marked);
    var process := new GcProcess(s, operations, base.(index := marked));
    crashed := process.ApplyLocked(ds, candidates, records);
    result, blocked, ops := process.store, false, process.trace;
    CrashSafe(s, ops, marked.protectedDigests, result, s.payloads);
    UnlinkedWereRemovable(sw, s, ops, result);
    forall d | d in s.payloads && d !in result.payloads ensures !Wanted(base.world, d) {
      ProtectedMeans(base.world, d);
    }
    if !crashed { CompletedConverges(sw, s, ds, candidates, records); }
    if operations >= Operations(ds, candidates, records) {
      RaisedRunConverges(sw, s, ds, candidates, records, result, crashed);
      CandidatesGo(sw, s, ds, candidates, records, result, crashed);
      if base.mode == Normal { NormalNeverRaises(sw, Swept(sw, Converged(sw, s, ds), candidates), records); }
    }
  }
}
