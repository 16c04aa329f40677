/** The sweep: write-ahead deletion intents, receipts, and convergence after a crash. */
module GcSweep {
  import opened Results
  import opened GcWorld

  datatype Mode = Normal | Legacy

  datatype Metadata = Metadata(runs: seq<RunId>, producer: Option<int>, consumer: Option<int>, provenance: Option<int>,
                               createdAt: Option<int>, deliveredAt: Option<int>)

  datatype Intent = Intent(digest: Digest, size: int, metadata: Metadata, intendedAt: int, mode: Mode, policy: int)

  datatype Receipt = Receipt(digest: Digest, size: int, metadata: Metadata, deletedAt: int, mode: Mode, policy: int)

  function ToReceipt(i: Intent, now: int): Receipt {
    Receipt(i.digest, i.size, i.metadata, now, i.mode, i.policy)
  }

  /** The receipt says of the payload what the intent said. */
  predicate Repeats(r: Receipt, i: Intent) {
    && r.digest == i.digest && r.size == i.size && r.metadata == i.metadata
    && r.mode == i.mode && r.policy == i.policy
  }

  datatype Candidate = Candidate(digest: Digest, size: int)

  /** The payload files and the two deletion stores. */
  datatype Store = Store(payloads: set<Digest>, intents: map<Digest, Intent>, receipts: map<Digest, Receipt>)

  /** What one locked apply works from. `lastUse` is a payload's later of file time and last
      reference, and `describe` its metadata, which may depend on the file being there. */
  datatype Sweep = Sweep(index: Index, world: World, now: int, grace: nat, retention: nat, mode: Mode, policy: int,
                         lastUse: Digest -> int, describe: (Digest, bool) -> Metadata)

  // ---------------------------------------------------------------------------------
  // Eligibility
  // ---------------------------------------------------------------------------------

  predicate RequestFor(sw: Sweep, r: RequestId, d: Digest) {
    Maps(sw.index.brokerOutputs, r, d) || Transported(sw.world, r, d)
  }

  predicate DeliveredAndAged(sw: Sweep, r: RequestId) {
    r in sw.world.deliveries && sw.now >= sw.world.deliveries[r].deliveredAt + sw.grace
  }

  /** The third verdict is an exception: the file time of a missing payload is asked for. */
  datatype Verdict = Eligible | Ineligible | Raises

  ghost function NormalVerdict(sw: Sweep, d: Digest): Verdict {
    if (exists r :: RequestFor(sw, r, d)) && forall r :: RequestFor(sw, r, d) ==> DeliveredAndAged(sw, r)
    then Eligible else Ineligible
  }

  ghost function LegacyVerdict(sw: Sweep, d: Digest, present: bool): Verdict {
    if exists r :: RequestFor(sw, r, d) && r in sw.world.deliveries then Ineligible
    else if !present then Raises
    else if sw.now >= sw.lastUse(d) + sw.retention then Eligible else Ineligible
  }

  ghost function VerdictOf(sw: Sweep, mode: Mode, d: Digest, present: bool): Verdict {
    if mode == Normal then NormalVerdict(sw, d) else LegacyVerdict(sw, d, present)
  }

  // ---------------------------------------------------------------------------------
  // The rules, read off the records
  // ---------------------------------------------------------------------------------

  /** A finished request whose result was, or would have been, the payload. */
  predicate Produced(w: World, r: RequestId, d: Digest) {
    r in w.requests && w.requests[r].output == Some(d)
    && (w.requests[r].status == Succeeded || w.requests[r].status == Exhausted)
  }

  /** The rule of a normal run: some finished request produced the payload, and each one that
      did was delivered at least the grace period ago. */
  ghost predicate DeliveredLongAgo(w: World, now: int, grace: nat, d: Digest) {
    && (exists r :: Produced(w, r, d))
    && forall r :: Produced(w, r, d) ==> r in w.deliveries && now - w.deliveries[r].deliveredAt >= grace
  }

  /** The rule of a legacy run: no finished request that produced the payload was delivered,
      and it was last used at least the retention period ago. */
  ghost predicate UnusedLongAgo(w: World, now: int, retention: nat, lastUse: int, d: Digest) {
    now - lastUse >= retention && forall r :: Produced(w, r, d) ==> r !in w.deliveries
  }

  ghost predicate MayGo(sw: Sweep, mode: Mode, d: Digest) {
    match mode
    case Normal => DeliveredLongAgo(sw.world, sw.now, sw.grace, d)
    case Legacy => UnusedLongAgo(sw.world, sw.now, sw.retention, sw.lastUse(d), d)
  }

  lemma RequestForIsProduced(sw: Sweep, r: RequestId, d: Digest)
    requires Marks(sw.world, sw.index)
    ensures RequestFor(sw, r, d) <==> Produced(sw.world, r, d)
  {
    assert Maps(sw.index.brokerOutputs, r, d) <==> Transported(sw.world, r, d);
  }

  /** Under a mark of the world, the verdict on a payload that is there is the rule of the
      mode, and it never raises. For one that is missing, a normal run decides the same, and
      a legacy run raises unless a request that produced it was delivered. */
  lemma VerdictMeans(sw: Sweep, mode: Mode, d: Digest)
    requires Marks(sw.world, sw.index)
    ensures VerdictOf(sw, mode, d, true) == if MayGo(sw, mode, d) then Eligible else Ineligible
    ensures VerdictOf(sw, mode, d, false) ==
      if mode == Normal then (if MayGo(sw, mode, d) then Eligible else Ineligible)
      else if exists r :: Produced(sw.world, r, d) && r in sw.world.deliveries then Ineligible else Raises
  {
    forall r ensures RequestFor(sw, r, d) <==> Produced(sw.world, r, d) { RequestForIsProduced(sw, r, d); }
    if exists r :: Produced(sw.world, r, d) {
      var r :| Produced(sw.world, r, d);
      assert RequestFor(sw, r, d);
    }
  }

  // ---------------------------------------------------------------------------------
  // Deciding
  // ---------------------------------------------------------------------------------

  function RequestsForDigest(sw: Sweep, d: Digest): set<RequestId> {
    set r | r in sw.index.brokerOutputs.Keys + sw.world.requests.Keys && RequestFor(sw, r, d)
  }

  lemma RequestsForDigestAre(sw: Sweep, d: Digest)
    ensures forall r :: r in RequestsForDigest(sw, d) <==> RequestFor(sw, r, d)
  {
  }

  method NormalEligible(sw: Sweep, d: Digest) returns (v: Verdict)
    ensures v == NormalVerdict(sw, d)
    ensures Marks(sw.world, sw.index) ==>
      v == if DeliveredLongAgo(sw.world, sw.now, sw.grace, d) then Eligible else Ineligible
  {
    if Marks(sw.world, sw.index) { VerdictMeans(sw, Normal, d); }
    RequestsForDigestAre(sw, d);
    var rest := RequestsForDigest(sw, d);
    assert (forall r: int :: r !in rest) ==> rest == {};
    if rest == {} { return Ineligible; }
    while rest != {}
      invariant forall r :: r in rest ==> RequestFor(sw, r, d)
      invariant forall r :: RequestFor(sw, r, d) && r !in rest ==> DeliveredAndAged(sw, r)
      decreases rest
    {
      assert (forall r: int :: r !in rest) ==> rest == {};
      var r :| r in rest;
      if r !in sw.world.deliveries { return Ineligible; }
      if sw.now < sw.world.deliveries[r].deliveredAt + sw.grace { return Ineligible; }
      rest := rest - {r};
    }
    v := Eligible;
  }

  method LegacyEligible(sw: Sweep, d: Digest, present: bool) returns (v: Verdict)
    ensures v == LegacyVerdict(sw, d, present)
  {
    RequestsForDigestAre(sw, d);
    var rest := RequestsForDigest(sw, d);
    while rest != {}
      invariant forall r :: r in rest ==> RequestFor(sw, r, d)
      invariant forall r :: RequestFor(sw, r, d) && r !in rest ==> r !in sw.world.deliveries
      decreases rest
    {
      assert (forall r: int :: r !in rest) ==> rest == {};
      var r :| r in rest;
      if r in sw.world.deliveries { return Ineligible; }
      rest := rest - {r};
    }
    if !present { return Raises; }
    v := if sw.now >= sw.lastUse(d) + sw.retention then Eligible else Ineligible;
  }

  method StillEligible(sw: Sweep, mode: Mode, d: Digest, present: bool) returns (v: Verdict)
    ensures v == VerdictOf(sw, mode, d, present)
  {
    if mode == Normal {
      v := NormalEligible(sw, d);
    } else {
      v := LegacyEligible(sw, d, present);
    }
  }

  // ---------------------------------------------------------------------------------
  // Durable operations
  // ---------------------------------------------------------------------------------

  datatype Op = SaveIntent(intent: Intent) | Unlink(digest: Digest) | SaveReceipt(receipt: Receipt)
      | FinalizeIntent(digest: Digest)

  /** The write-ahead discipline: a payload is unlinked only under an intent and never while
      protected or receipted, a receipt written under an intent carries its metadata, and an
      intent is dropped only under a receipt or with the payload in place. */
  predicate Enabled(op: Op, s: Store, protectedDigests: set<Digest>) {
    match op
    case SaveIntent(i) => i.digest in s.payloads && i.digest !in s.intents && i.digest !in protectedDigests
    case Unlink(d) => d in s.payloads && d in s.intents && d !in s.receipts && d !in protectedDigests
    case SaveReceipt(r) =>
      && r.digest !in s.payloads && r.digest !in s.receipts
      && (r.digest in s.intents ==> Repeats(r, s.intents[r.digest]))
    case FinalizeIntent(d) => d in s.intents && (d in s.receipts || d in s.payloads)
  }

  function Apply(op: Op, s: Store): Store {
    match op
    case SaveIntent(i) => s.(intents := s.intents[i.digest := i])
    case Unlink(d) => s.(payloads := s.payloads - {d})
    case SaveReceipt(r) => s.(receipts := s.receipts[r.digest := r])
    case FinalizeIntent(d) => s.(intents := s.intents - {d})
  }

  /** `ops` can be performed in order from `s`, each one enabled, and lead to `t`. */
  ghost predicate Performs(s: Store, ops: seq<Op>, protectedDigests: set<Digest>, t: Store)
    decreases |ops|
  {
    if ops == [] then s == t
    else Enabled(ops[0], s, protectedDigests) && Performs(Apply(ops[0], s), ops[1..], protectedDigests, t)
  }

  lemma {:induction false} PerformsMore(s: Store, ops: seq<Op>, protectedDigests: set<Digest>, t: Store, op: Op)
    requires Performs(s, ops, protectedDigests, t) && Enabled(op, t, protectedDigests)
    ensures Performs(s, ops + [op], protectedDigests, Apply(op, t))
    decreases |ops|
  {
    var all := ops + [op];
    if ops == [] {
      assert all[1..] == [];
    } else {
      assert all[0] == ops[0] && all[1..] == ops[1..] + [op];
      PerformsMore(Apply(ops[0], s), ops[1..], protectedDigests, t, op);
    }
  }

  /** A payload is unlinked only under an intent whose mode finds it eligible, and an intent is
      saved only for an eligible one, with the mode, policy, time and metadata of the sweep. */
  ghost predicate Judged(sw: Sweep, op: Op, s: Store) {
    match op
    case SaveIntent(i) =>
      && i.mode == sw.mode && i.policy == sw.policy && i.intendedAt == sw.now
      && i.metadata == sw.describe(i.digest, true) && VerdictOf(sw, sw.mode, i.digest, true) == Eligible
    case Unlink(d) => d in s.intents && VerdictOf(sw, s.intents[d].mode, d, true) == Eligible
    case _ => true
  }

  ghost predicate AllJudged(sw: Sweep, s: Store, ops: seq<Op>)
    decreases |ops|
  {
    ops == [] || (Judged(sw, ops[0], s) && AllJudged(sw, Apply(ops[0], s), ops[1..]))
  }

  lemma {:induction false} AllJudgedMore(sw: Sweep, s: Store, ops: seq<Op>, protectedDigests: set<Digest>, t: Store,
                                         op: Op)
    requires Performs(s, ops, protectedDigests, t) && AllJudged(sw, s, ops) && Judged(sw, op, t)
    ensures AllJudged(sw, s, ops + [op])
    decreases |ops|
  {
    var all := ops + [op];
    if ops == [] {
      assert all[1..] == [];
    } else {
      assert all[0] == ops[0] && all[1..] == ops[1..] + [op];
      AllJudgedMore(sw, Apply(ops[0], s), ops[1..], protectedDigests, t, op);
    }
  }

  // ---------------------------------------------------------------------------------
  // What a completed pass does
  // ---------------------------------------------------------------------------------

  function Delete(s: Store, d: Digest, r: Receipt): Store {
    Store(s.payloads - {d}, s.intents - {d}, s.receipts[d := r])
  }

  ghost function ConvergeStep(sw: Sweep, s: Store, d: Digest): Store {
    if d !in s.intents then s
    else if d in s.receipts then s.(intents := s.intents - {d})
    else if d !in s.payloads then Delete(s, d, ToReceipt(s.intents[d], sw.now))
    else if d in sw.index.protectedDigests then s.(intents := s.intents - {d})
    else if VerdictOf(sw, s.intents[d].mode, d, true) != Eligible then s.(intents := s.intents - {d})
    else Delete(s, d, ToReceipt(s.intents[d], sw.now))
  }

  ghost function Converged(sw: Sweep, s: Store, ds: seq<Digest>): Store {
    if ds == [] then s else ConvergeStep(sw, Converged(sw, s, ds[..|ds| - 1]), ds[|ds| - 1])
  }

  function IntentFor(sw: Sweep, c: Candidate): Intent {
    Intent(c.digest, c.size, sw.describe(c.digest, true), sw.now, sw.mode, sw.policy)
  }

  function DirectReceipt(sw: Sweep, d: Digest, size: int): Receipt {
    Receipt(d, size, sw.describe(d, false), sw.now, sw.mode, sw.policy)
  }

  ghost function CandidateStep(sw: Sweep, s: Store, c: Candidate): Store {
    if c.digest in s.receipts || c.digest in s.intents || c.digest in sw.index.protectedDigests then s
    else if c.digest !in s.payloads then s.(receipts := s.receipts[c.digest := DirectReceipt(sw, c.digest, c.size)])
    else if VerdictOf(sw, sw.mode, c.digest, true) != Eligible then s
    else Store(s.payloads - {c.digest}, s.intents, s.receipts[c.digest := ToReceipt(IntentFor(sw, c), sw.now)])
  }

  ghost function Swept(sw: Sweep, s: Store, cs: seq<Candidate>): Store {
    if cs == [] then s else CandidateStep(sw, Swept(sw, s, cs[..|cs| - 1]), cs[|cs| - 1])
  }

  /** A delivered digest whose payload and receipt are both missing. */
  predicate Unreceipted(sw: Sweep, s: Store, d: Digest) {
    d !in s.receipts && d !in s.payloads && d !in sw.index.protectedDigests
  }

  ghost function RecordStep(sw: Sweep, s: Store, c: Candidate): Store {
    if Unreceipted(sw, s, c.digest) && VerdictOf(sw, sw.mode, c.digest, false) == Eligible
    then s.(receipts := s.receipts[c.digest := DirectReceipt(sw, c.digest, c.size)]) else s
  }

  ghost predicate RecordRaises(sw: Sweep, s: Store, c: Candidate) {
    Unreceipted(sw, s, c.digest) && VerdictOf(sw, sw.mode, c.digest, false) == Raises
  }

  ghost function Receipted(sw: Sweep, s: Store, cs: seq<Candidate>): Store {
    if cs == [] then s else RecordStep(sw, Receipted(sw, s, cs[..|cs| - 1]), cs[|cs| - 1])
  }

  /** Records are filed under their own digest. */
  ghost predicate Keyed(s: Store) {
    && (forall d :: d in s.intents ==> s.intents[d].digest == d)
    && forall d :: d in s.receipts ==> s.receipts[d].digest == d
  }

  ghost predicate ListsAll(ds: seq<Digest>, keys: set<Digest>) {
    && (forall d :: d in keys <==> d in ds)
    && forall i, j :: 0 <= i < j < |ds| ==> ds[i] != ds[j]
  }

  /** A completed apply: converge the pending intents, sweep the candidates, then write the
      receipts that deliveries are still owed. */
  ghost function Completed(sw: Sweep, s: Store, ds: seq<Digest>, candidates: seq<Candidate>,
                           records: seq<Candidate>): Store {
    Receipted(sw, Swept(sw, Converged(sw, s, ds), candidates), records)
  }

  // ---------------------------------------------------------------------------------
  // The process
  // ---------------------------------------------------------------------------------

  /** A locked apply over the stores. It crashes when `budget` operations have been done and
      one more is due, so every crash point is some budget. */
  class GcProcess {
    var store: Store
    var budget: nat
    const sweep: Sweep
    ghost const initial: Store
    ghost var trace: seq<Op>

    ghost predicate Valid()
      reads this
    {
      Performs(initial, trace, sweep.index.protectedDigests, store) && AllJudged(sweep, initial, trace)
    }

    constructor (s: Store, operations: nat, sw: Sweep)
      ensures Valid() && store == s && budget == operations && initial == s && sweep == sw && trace == []
    {
      store, budget, sweep, initial, trace := s, operations, sw, s, [];
    }

    method Perform(op: Op) returns (crashed: bool)
      requires Valid() && Enabled(op, store, sweep.index.protectedDigests) && Judged(sweep, op, store)
      modifies this
      ensures Valid() && crashed == (old(budget) == 0) && (!crashed ==> budget == old(budget) - 1)
      ensures store == if crashed then old(store) else Apply(op, old(store))
      ensures trace == if crashed then old(trace) else old(trace) + [op]
    {
      if budget == 0 { return true; }
      PerformsMore(initial, trace, sweep.index.protectedDigests, store, op);
      AllJudgedMore(sweep, initial, trace, sweep.index.protectedDigests, store, op);
      store, budget := Apply(op, store), budget - 1;
      trace := trace + [op];
      crashed := false;
    }

    /** Unlinks the payload if it is still there, then writes the receipt and drops the intent. */
    method CompleteIntent(d: Digest) returns (crashed: bool)
      requires Valid() && d in store.intents && store.intents[d].digest == d && d !in store.receipts
      requires d in store.payloads ==>
        d !in sweep.index.protectedDigests && VerdictOf(sweep, store.intents[d].mode, d, true) == Eligible
      modifies this
      ensures Valid() && FailsOnlyShort(crashed, old(budget), 3, budget)
      ensures !crashed ==> store == Delete(old(store), d, ToReceipt(old(store).intents[d], sweep.now))
    {
      var receipt := ToReceipt(store.intents[d], sweep.now);
      ghost var before := store;
      if d in store.payloads {
        crashed := Perform(Unlink(d));
        if crashed { return; }
      }
      crashed := Perform(SaveReceipt(receipt));
      if crashed { return; }
      crashed := Perform(FinalizeIntent(d));
      assert before.payloads - {d} == store.payloads;
    }

    method ConvergeIntent(d: Digest) returns (crashed: bool)
      requires Valid() && d in store.intents && store.intents[d].digest == d
      modifies this
      ensures Valid() && FailsOnlyShort(crashed, old(budget), 3, budget)
      ensures !crashed ==> store == ConvergeStep(sweep, old(store), d)
    {
      if d in store.receipts {
        crashed := Perform(FinalizeIntent(d));
        return;
      }
      if d !in store.payloads {
        crashed := CompleteIntent(d);
        return;
      }
      if d in sweep.index.protectedDigests {
        crashed := Perform(FinalizeIntent(d));
        return;
      }
      var verdict := StillEligible(sweep, store.intents[d].mode, d, true);
      if verdict != Eligible {
        crashed := Perform(FinalizeIntent(d));
        return;
      }
      crashed := CompleteIntent(d);
    }

    method ApplyCandidate(c: Candidate) returns (crashed: bool)
      requires Valid()
      modifies this
      ensures Valid() && FailsOnlyShort(crashed, old(budget), 4, budget)
      ensures !crashed ==> store == CandidateStep(sweep, old(store), c)
    {
      var d := c.digest;
      if d in store.receipts { return false; }
      if d in store.intents { return false; }
      if d in sweep.index.protectedDigests { return false; }
      if d !in store.payloads {
        crashed := Perform(SaveReceipt(DirectReceipt(sweep, d, c.size)));
        return;
      }
      var verdict := StillEligible(sweep, sweep.mode, d, true);
      if verdict != Eligible { return false; }
      ghost var before := store;
      crashed := Perform(SaveIntent(IntentFor(sweep, c)));
      if crashed { return; }
      crashed := CompleteIntent(d);
      assert before.intents[d := IntentFor(sweep, c)] - {d} == before.intents;
    }

    /** Reached only once no intent is pending. */
    method ReceiptForRecord(c: Candidate) returns (crashed: bool)
      requires Valid() && c.digest !in store.intents
      modifies this
      ensures Valid()
      ensures !crashed ==> store == RecordStep(sweep, old(store), c) && !RecordRaises(sweep, old(store), c)
      ensures RecordRaises(sweep, old(store), c) ==> crashed
      ensures !RecordRaises(sweep, old(store), c) ==> FailsOnlyShort(crashed, old(budget), 1, budget)
      ensures crashed ==> store == old(store)
      ensures store.intents == old(store).intents && store.payloads == old(store).payloads
    {
      var d := c.digest;
      if d in store.receipts { return false; }
      if d in store.payloads { return false; }
      if d in sweep.index.protectedDigests { return false; }
      var verdict := StillEligible(sweep, sweep.mode, d, false);
      if verdict == Raises { return true; }
      if verdict == Ineligible { return false; }
      crashed := Perform(SaveReceipt(DirectReceipt(sweep, d, c.size)));
    }

    method ConvergePendingIntents(ds: seq<Digest>) returns (crashed: bool)
      requires Valid() && Keyed(store) && ListsAll(ds, store.intents.Keys)
      modifies this
      ensures Valid() && FailsOnlyShort(crashed, old(budget), 3 * |ds|, budget)
      ensures !crashed ==> store == Converged(sweep, old(store), ds)
    {
      for i := 0 to |ds|
        invariant Valid() && store == Converged(sweep, old(store), ds[..i]) && budget >= old(budget) - 3 * i
      {
        assert ds[..i + 1][..i] == ds[..i];
        ConvergeLeavesLater(sweep, old(store), ds, i);
        crashed := ConvergeIntent(ds[i]);
        if crashed { return; }
      }
      assert ds[..|ds|] == ds;
      crashed := false;
    }

    method ApplyCandidates(cs: seq<Candidate>) returns (crashed: bool)
      requires Valid()
      modifies this
      ensures Valid() && FailsOnlyShort(crashed, old(budget), 4 * |cs|, budget)
      ensures !crashed ==> store == Swept(sweep, old(store), cs)
    {
      for i := 0 to |cs|
        invariant Valid() && store == Swept(sweep, old(store), cs[..i]) && budget >= old(budget) - 4 * i
      {
        assert cs[..i + 1][..i] == cs[..i];
        crashed := ApplyCandidate(cs[i]);
        if crashed { return; }
      }
      assert cs[..|cs|] == cs;
      crashed := false;
    }

    method ConvergeReceipts(cs: seq<Candidate>) returns (crashed: bool)
      requires Valid() && store.intents == map[]
      modifies this
      ensures Valid() && store.intents == map[] && store.payloads == old(store).payloads
      ensures !crashed ==> store == Receipted(sweep, old(store), cs) && CompletesWithoutRaise(sweep, old(store), cs)
      ensures old(budget) >= |cs| ==> StopsAtFirstRaise(sweep, old(store), cs, store, crashed)
    {
      ghost var before := store;
      for i := 0 to |cs|
        invariant Valid() && store == Receipted(sweep, before, cs[..i]) && NoRaiseBefore(sweep, before, cs, i)
        invariant store.intents == map[] && store.payloads == before.payloads && budget >= old(budget) - i
      {
        NextRecord(sweep, before, cs, i);
        crashed := ReceiptForRecord(cs[i]);
        if crashed { return; }
      }
      assert cs[..|cs|] == cs;
      crashed := false;
    }

    /** The locked part of apply. At every crash point the operations done so far obey the
        write-ahead discipline. A run that completes reaches exactly `Completed`, and a run with
        enough budget fails only if a record raises, after everything but the later receipts. */
    method ApplyLocked(ds: seq<Digest>, candidates: seq<Candidate>, records: seq<Candidate>) returns (crashed: bool)
      requires Valid() && Keyed(store) && ListsAll(ds, store.intents.Keys)
      modifies this
      ensures Valid()
      ensures !crashed ==> store == Completed(sweep, old(store), ds, candidates, records)
      ensures !crashed ==>
        CompletesWithoutRaise(sweep, Swept(sweep, Converged(sweep, old(store), ds), candidates), records)
      ensures old(budget) >= Operations(ds, candidates, records) ==>
        StopsAtFirstRaise(sweep, Swept(sweep, Converged(sweep, old(store), ds), candidates), records, store, crashed)
      ensures old(budget) >= Operations(ds, candidates, records) ==> store.intents == map[]
    {
      crashed := ConvergePendingIntents(ds);
      if crashed { return; }
      ConvergedAll(sweep, old(store), ds);
      SweptKeepsIntents(sweep, store, candidates);
      crashed := ApplyCandidates(candidates);
      if crashed { return; }
      crashed := ConvergeReceipts(records);
    }
  }

  /** The most durable operations an apply can need. */
  function Operations(ds: seq<Digest>, candidates: seq<Candidate>, records: seq<Candidate>): nat {
    3 * |ds| + 4 * |candidates| + |records|
  }

  /** A step that needs at most `need` operations fails only on a smaller budget. */
  predicate FailsOnlyShort(crashed: bool, before: nat, need: nat, after: nat) {
    if crashed then before < need else after + need >= before
  }

  /** The receipts pass stops at the first record that raises, if any does, and otherwise goes
      through. */
  ghost predicate StopsAtFirstRaise(sw: Sweep, s: Store, records: seq<Candidate>, t: Store, crashed: bool) {
    if CompletesWithoutRaise(sw, s, records) then !crashed && t == Receipted(sw, s, records)
    else crashed && exists i: nat :: RaisesFirst(sw, s, records, i) && t == Receipted(sw, s, records[..i])
  }

  ghost predicate RaisesFirst(sw: Sweep, s: Store, records: seq<Candidate>, i: nat) {
    i < |records| && RecordRaises(sw, Receipted(sw, s, records[..i]), records[i]) && NoRaiseBefore(sw, s, records, i)
  }

  ghost predicate NoRaiseBefore(sw: Sweep, s: Store, records: seq<Candidate>, i: nat)
    requires i <= |records|
  {
    forall k :: 0 <= k < i ==> !RecordRaises(sw, Receipted(sw, s, records[..k]), records[k])
  }

  lemma NextRecord(sw: Sweep, s: Store, records: seq<Candidate>, i: nat)
    requires i < |records| && NoRaiseBefore(sw, s, records, i)
    ensures var before := Receipted(sw, s, records[..i]);
      && Receipted(sw, s, records[..i + 1]) == RecordStep(sw, before, records[i])
      && (if RecordRaises(sw, before, records[i]) then RaisesFirst(sw, s, records, i)
          else NoRaiseBefore(sw, s, records, i + 1))
  {
    assert records[..i + 1][..i] == records[..i];
  }

  ghost predicate CompletesWithoutRaise(sw: Sweep, s: Store, records: seq<Candidate>) {
    NoRaiseBefore(sw, s, records, |records|)
  }

  lemma {:induction false} ConvergedKeeps(sw: Sweep, s: Store, ds: seq<Digest>, d: Digest)
    ensures d !in ds ==> (d in Converged(sw, s, ds).intents <==> d in s.intents)
    ensures d in Converged(sw, s, ds).intents ==> d in s.intents && Converged(sw, s, ds).intents[d] == s.intents[d]
    ensures d in ds ==> d !in Converged(sw, s, ds).intents
  {
    if ds != [] { ConvergedKeeps(sw, s, ds[..|ds| - 1], d); }
  }

  /** Convergence leaves no intent. */
  lemma ConvergedAll(sw: Sweep, s: Store, ds: seq<Digest>)
    requires ListsAll(ds, s.intents.Keys)
    ensures Converged(sw, s, ds).intents == map[]
  {
    forall d ensures d !in Converged(sw, s, ds).intents {
      ConvergedKeeps(sw, s, ds, d);
    }
  }

  lemma {:induction false} SweptKeepsIntents(sw: Sweep, s: Store, cs: seq<Candidate>)
    ensures Swept(sw, s, cs).intents == s.intents
  {
    if cs != [] { SweptKeepsIntents(sw, s, cs[..|cs| - 1]); }
  }

  lemma ConvergeLeavesLater(sw: Sweep, s: Store, ds: seq<Digest>, i: nat)
    requires Keyed(s) && ListsAll(ds, s.intents.Keys) && i < |ds|
    ensures var t := Converged(sw, s, ds[..i]); ds[i] in t.intents && t.intents[ds[i]].digest == ds[i]
  {
    var d := ds[i];
    assert d in ds;
    ConvergedKeeps(sw, s, ds[..i], d);
  }
}
