/** Concurrent private-wave workers over the immutable attempt store.

    Each worker reads a snapshot of the attempts, walks its shards, derives a
    deterministic attempt id from the snapshot and appends one record per shard it
    still has to try. The snapshot is taken without the store's lock and file by file, so
    it may be any subset of the records present. */
module AttemptProtocol {
  import opened Sequences
  import opened Kernel
  import opened Results

  // ---------------------------------------------------------------------------------
  // Attempt ids
  // ---------------------------------------------------------------------------------

  function Digit(d: nat): char
    requires d < 10
  {
    ['0', '1', '2', '3', '4', '5', '6', '7', '8', '9'][d]
  }

  function Decimal(n: nat): string {
    if n < 10 then [Digit(n)] else Decimal(n / 10) + [Digit(n % 10)]
  }

  lemma {:induction false} DecimalHasNoDash(n: nat)
    ensures '-' !in Decimal(n) && Decimal(n) != []
  {
    if n >= 10 {
      DecimalHasNoDash(n / 10);
    }
  }

  lemma {:induction false} DecimalInjective(m: nat, n: nat)
    requires Decimal(m) == Decimal(n)
    ensures m == n
  {
    DecimalHasNoDash(m / 10);
    DecimalHasNoDash(n / 10);
    var s := Decimal(m);
    assert m >= 10 ==> s[..|s| - 1] == Decimal(m / 10) && s[|s| - 1] == Digit(m % 10);
    assert n >= 10 ==> s[..|s| - 1] == Decimal(n / 10) && s[|s| - 1] == Digit(n % 10);
    if m >= 10 && n >= 10 {
      DecimalInjective(m / 10, n / 10);
    }
  }

  /** A shard together with the input and code version one attempt was made for. */
  datatype Generation = Generation(shardId: Id, inputDigest: Id, fingerprint: Id)

  function GenerationOf(a: Attempt): Generation {
    Generation(a.shardId, a.inputDigest, a.fingerprint)
  }

  function ShardGeneration(s: Shard): Generation {
    Generation(s.shardId, s.inputDigest, s.fingerprint)
  }

  /** One wave: the attempt budget and the id of a generation's attempt by ordinal. */
  datatype Wave = Wave(maxAttempts: nat, attemptId: (Generation, nat) -> string)

  ghost predicate WellNamed(w: Wave) {
    forall g, h, m: nat, n: nat :: w.attemptId(g, m) == w.attemptId(h, n) ==> g == h && m == n
  }

  /** The text of a shard id, and the hexadecimal discriminator of an input digest and
      execution fingerprint. */
  datatype Naming = Naming(waveId: string, name: Id -> string, discriminator: (Id, Id) -> string)

  ghost predicate Distinguishes(names: Naming) {
    && (forall a, b :: names.name(a) == names.name(b) ==> a == b)
    && (forall a, b :: '-' !in names.discriminator(a, b))
    && (forall a, b, c, d :: names.discriminator(a, b) == names.discriminator(c, d) ==> a == c && b == d)
  }

  function PrivateAttemptId(names: Naming, g: Generation, ordinal: nat): string {
    names.waveId + "-" + names.name(g.shardId) + "-"
      + names.discriminator(g.inputDigest, g.fingerprint) + "-" + Decimal(ordinal)
  }

  function PrivateWave(names: Naming, maxAttempts: nat): Wave {
    Wave(maxAttempts, (g: Generation, ordinal: nat) => PrivateAttemptId(names, g, ordinal))
  }

  lemma {:induction false} SplitAtLastDash(a: string, x: string, b: string, y: string)
    requires a + "-" + x == b + "-" + y && '-' !in x && '-' !in y
    ensures a == b && x == y
    decreases |x|
  {
    var s := a + "-" + x;
    var last := s[|s| - 1];
    assert if x == [] then last == '-' else last == x[|x| - 1] && last in x;
    assert if y == [] then last == '-' else last == y[|y| - 1] && last in y;
    if x == [] {
      assert a == s[..|s| - 1] == b;
    } else {
      var x', y' := x[..|x| - 1], y[..|y| - 1];
      assert a + "-" + x' == s[..|s| - 1] == b + "-" + y';
      SplitAtLastDash(a, x', b, y');
      assert x == x' + [last] && y == y' + [last];
    }
  }

  /** Although ids are joined with dashes and shard ids may contain dashes, the id of an
      attempt determines its generation and ordinal. */
  lemma PrivateAttemptIdInjective(names: Naming, g: Generation, m: nat, h: Generation, n: nat)
    requires Distinguishes(names) && PrivateAttemptId(names, g, m) == PrivateAttemptId(names, h, n)
    ensures g == h && m == n
  {
    var gd, hd := names.discriminator(g.inputDigest, g.fingerprint), names.discriminator(h.inputDigest, h.fingerprint);
    var gp, hp := names.waveId + "-" + names.name(g.shardId), names.waveId + "-" + names.name(h.shardId);
    DecimalHasNoDash(m);
    DecimalHasNoDash(n);
    SplitAtLastDash(gp + "-" + gd, Decimal(m), hp + "-" + hd, Decimal(n));
    SplitAtLastDash(gp, gd, hp, hd);
    DecimalInjective(m, n);
    var skip := |names.waveId| + 1;
    assert names.name(g.shardId) == gp[skip..] && names.name(h.shardId) == hp[skip..];
  }

  lemma PrivateWaveWellNamed(names: Naming, maxAttempts: nat)
    requires Distinguishes(names)
    ensures WellNamed(PrivateWave(names, maxAttempts))
  {
    forall g, h, m: nat, n: nat | PrivateAttemptId(names, g, m) == PrivateAttemptId(names, h, n)
      ensures g == h && m == n
    {
      PrivateAttemptIdInjective(names, g, m, h, n);
    }
  }

  // ---------------------------------------------------------------------------------
  // The protocol
  // ---------------------------------------------------------------------------------

  datatype Worker =
    | Idle
    | Running(prior: set<Attempt>, shards: seq<Shard>, next: nat)
    | Stopped

  /** The immutable store, by attempt id, and the workers, by worker number. */
  datatype State = State(store: map<string, Attempt>, workers: map<nat, Worker>)

  datatype Step =
    | Start(worker: nat, prior: set<Attempt>, shards: seq<Shard>)
    | Skip(worker: nat)
    | Append(worker: nat, record: Attempt)

  function CurrentAttempts(prior: set<Attempt>, g: Generation): set<Attempt> {
    set a | a in prior && GenerationOf(a) == g
  }

  predicate HasSuccess(attempts: set<Attempt>) {
    exists a :: a in attempts && a.status == Succeeded
  }

  predicate MustSkip(w: Wave, prior: set<Attempt>, shard: Shard) {
    var current := CurrentAttempts(prior, ShardGeneration(shard));
    HasSuccess(current) || |current| >= w.maxAttempts
  }

  function NextAttemptId(w: Wave, prior: set<Attempt>, shard: Shard): string {
    w.attemptId(ShardGeneration(shard), |CurrentAttempts(prior, ShardGeneration(shard))| + 1)
  }

  ghost predicate AtShard(s: State, worker: nat) {
    worker in s.workers && s.workers[worker].Running? && s.workers[worker].next < |s.workers[worker].shards|
  }

  ghost predicate Enabled(w: Wave, s: State, step: Step) {
    match step
    case Start(n, prior, shards) => prior <= s.store.Values
    case Skip(n) =>
      AtShard(s, n) && MustSkip(w, s.workers[n].prior, s.workers[n].shards[s.workers[n].next])
    case Append(n, record) =>
      AtShard(s, n) &&
      var shard := s.workers[n].shards[s.workers[n].next];
      !MustSkip(w, s.workers[n].prior, shard)
        && GenerationOf(record) == ShardGeneration(shard)
        && record.attemptId == NextAttemptId(w, s.workers[n].prior, shard)
  }

  /** Records are immutable: an id that is present only accepts the same record again. */
  function StoreAppend(store: map<string, Attempt>, record: Attempt): Result<map<string, Attempt>, string> {
    if record.attemptId !in store then Ok(store[record.attemptId := record])
    else if store[record.attemptId] == record then Ok(store)
    else Err(TAKEN)
  }

  const TAKEN := "attempt_id already belongs to a different record"

  /** The attempt files of one run, created in place under the store's lock. */
  class AttemptFiles {
    var records: map<string, Attempt>

    constructor ()
      ensures records == INITIAL.store
    {
      records := map[];
    }

    method AppendAttempt(record: Attempt) returns (ok: bool)
      modifies this
      ensures ok <==> record.attemptId !in old(records) || old(records)[record.attemptId] == record
      ensures records == if ok then old(records)[record.attemptId := record] else old(records)
      ensures StoreAppend(old(records), record) == if ok then Ok(records) else Err(TAKEN)
      ensures forall id :: id in old(records) ==> id in records && records[id] == old(records)[id]
    {
      if record.attemptId in records {
        return records[record.attemptId] == record;
      }
      records := records[record.attemptId := record];
      return true;
    }
  }

  /** An append that the store refuses ends the worker. */
  function Apply(s: State, step: Step): State
    requires step.Skip? || step.Append? ==> step.worker in s.workers && s.workers[step.worker].Running?
  {
    match step
    case Start(n, prior, shards) => s.(workers := s.workers[n := Running(prior, shards, 0)])
    case Skip(n) => s.(workers := s.workers[n := Advance(s.workers[n])])
    case Append(n, record) =>
      match StoreAppend(s.store, record)
      case Ok(store) => State(store, s.workers[n := Advance(s.workers[n])])
      case Err(_) => s.(workers := s.workers[n := Stopped])
  }

  function Advance(w: Worker): Worker
    requires w.Running?
  {
    w.(next := w.next + 1)
  }

  const INITIAL := State(map[], map[])

  ghost predicate IsRun(w: Wave, states: seq<State>, steps: seq<Step>) {
    && |states| == |steps| + 1 && states[0] == INITIAL
    && forall i :: 0 <= i < |steps| ==> Enabled(w, states[i], steps[i]) && states[i + 1] == Apply(states[i], steps[i])
  }

  // ---------------------------------------------------------------------------------
  // How a worker goes through its shards
  // ---------------------------------------------------------------------------------

  predicate IsStart(step: Step, n: nat) {
    step.Start? && step.worker == n
  }

  /** How many of the first steps are decisions of one worker. */
  function Decisions(steps: seq<Step>, n: nat): nat {
    if steps == [] then 0
    else
      var last := steps[|steps| - 1];
      Decisions(steps[..|steps| - 1], n) + if Decides(last, n) then 1 else 0
  }

  /** The worker is at its shard `next`, or stopped. */
  ghost predicate WalksAt(s: State, n: nat, prior: set<Attempt>, shards: seq<Shard>, next: nat) {
    n in s.workers && (s.workers[n] == Running(prior, shards, next) || s.workers[n] == Stopped)
  }

  predicate Decides(step: Step, n: nat) {
    step.worker == n && !step.Start?
  }

  lemma StepWalks(w: Wave, s: State, step: Step, n: nat, prior: set<Attempt>, shards: seq<Shard>, next: nat)
    requires Enabled(w, s, step) && !IsStart(step, n) && WalksAt(s, n, prior, shards, next)
    ensures WalksAt(Apply(s, step), n, prior, shards, next + if Decides(step, n) then 1 else 0)
  {
  }

  /** From its start on, a worker keeps its snapshot and list of shards and takes one decision at
      each shard in turn, until it is done or an append is refused. */
  lemma {:induction false} WorkerWalks(w: Wave, states: seq<State>, steps: seq<Step>, j: nat, i: nat)
    requires IsRun(w, states, steps) && j < i <= |steps| && steps[j].Start?
    requires forall k :: j < k < i ==> !IsStart(steps[k], steps[j].worker)
    ensures WalksAt(states[i], steps[j].worker, steps[j].prior, steps[j].shards,
                    Decisions(steps[j..i], steps[j].worker))
  {
    var n, start := steps[j].worker, steps[j];
    assert states[i] == Apply(states[i - 1], steps[i - 1]);
    assert steps[j..i][..i - j - 1] == steps[j..i - 1];
    if j < i - 1 {
      WorkerWalks(w, states, steps, j, i - 1);
      StepWalks(w, states[i - 1], steps[i - 1], n, start.prior, start.shards, Decisions(steps[j..i - 1], n));
    } else {
      assert Decisions(steps[j..j], n) == 0;
    }
  }

  // ---------------------------------------------------------------------------------
  // When a shard is tried
  // ---------------------------------------------------------------------------------

  /** The snapshot's attempts at a shard, for its input and its code version. */
  function AttemptsAt(prior: set<Attempt>, shard: Shard): set<Attempt> {
    set a | a in prior && a.shardId == shard.shardId && a.inputDigest == shard.inputDigest
      && a.fingerprint == shard.fingerprint
  }

  /** The snapshot leaves a try: none of those attempts succeeded and they are fewer than the
      budget. */
  ghost predicate LeavesATry(w: Wave, prior: set<Attempt>, shard: Shard) {
    && (forall a :: a in AttemptsAt(prior, shard) ==> a.status != Succeeded)
    && |AttemptsAt(prior, shard)| < w.maxAttempts
  }

  /** The shard a worker has reached. */
  function ReachedShard(worker: Worker): Shard
    requires worker.Running? && worker.next < |worker.shards|
  {
    worker.shards[worker.next]
  }

  /** A worker at a shard tries it, with the next ordinal after those of its snapshot, exactly
      when the snapshot leaves a try, and passes it over exactly when it does not. */
  lemma TriedWhileBudget(w: Wave, s: State, n: nat, record: Attempt)
    requires AtShard(s, n)
    ensures var prior, shard := s.workers[n].prior, ReachedShard(s.workers[n]);
      && (Enabled(w, s, Skip(n)) <==> !LeavesATry(w, prior, shard))
      && (Enabled(w, s, Append(n, record)) <==>
            && LeavesATry(w, prior, shard) && record.shardId == shard.shardId
            && record.inputDigest == shard.inputDigest && record.fingerprint == shard.fingerprint
            && record.attemptId == w.attemptId(ShardGeneration(shard), |AttemptsAt(prior, shard)| + 1))
  {
    var prior, shard := s.workers[n].prior, ReachedShard(s.workers[n]);
    assert AttemptsAt(prior, shard) == CurrentAttempts(prior, ShardGeneration(shard));
  }

  /** The record of a failed attempt. */
  function FailedRecord(w: Wave, g: Generation, k: nat): Attempt {
    Attempt(w.attemptId(g, k), g.shardId, g.inputDigest, g.fingerprint, Failed, [], 0, 0)
  }

  /** A store of the failed attempts 1..k of one generation and nothing else. */
  function FailedStore(w: Wave, g: Generation, k: nat): map<string, Attempt> {
    if k == 0 then map[] else FailedStore(w, g, k - 1)[w.attemptId(g, k) := FailedRecord(w, g, k)]
  }

  /** Each entry is the record of one ordinal up to k. */
  lemma {:induction false} FailedStoreAt(w: Wave, g: Generation, k: nat, id: string) returns (j: nat)
    requires id in FailedStore(w, g, k)
    ensures 1 <= j <= k && id == w.attemptId(g, j) && FailedStore(w, g, k)[id] == FailedRecord(w, g, j)
  {
    if id == w.attemptId(g, k) { j := k; } else { j := FailedStoreAt(w, g, k - 1, id); }
  }

  lemma FailedValue(w: Wave, g: Generation, k: nat, a: Attempt) returns (j: nat)
    requires a in FailedStore(w, g, k).Values
    ensures 1 <= j <= k && a == FailedRecord(w, g, j)
  {
    var id :| id in FailedStore(w, g, k) && FailedStore(w, g, k)[id] == a;
    j := FailedStoreAt(w, g, k, id);
  }

  lemma ValuesWith(store: map<string, Attempt>, id: string, record: Attempt)
    requires id !in store
    ensures store[id := record].Values == store.Values + {record}
  {
    var next := store[id := record];
    forall a | a in next.Values ensures a in store.Values + {record} {
      var i :| i in next && next[i] == a;
    }
    forall a | a in store.Values + {record} ensures a in next.Values {
      if a in store.Values {
        var i :| i in store && store[i] == a;
        assert next[i] == a;
      } else {
        assert next[id] == a;
      }
    }
  }

  lemma {:induction false} FailedStoreSize(w: Wave, g: Generation, k: nat)
    requires WellNamed(w)
    ensures |FailedStore(w, g, k).Values| == k && w.attemptId(g, k + 1) !in FailedStore(w, g, k)
  {
    if w.attemptId(g, k + 1) in FailedStore(w, g, k) {
      var j := FailedStoreAt(w, g, k, w.attemptId(g, k + 1));
      assert false;
    }
    if k > 0 {
      var before, record := FailedStore(w, g, k - 1), FailedRecord(w, g, k);
      FailedStoreSize(w, g, k - 1);
      ValuesWith(before, w.attemptId(g, k), record);
      if record in before.Values {
        var j := FailedValue(w, g, k - 1, record);
        assert false;
      }
    }
  }

  lemma RunMore(w: Wave, states: seq<State>, steps: seq<Step>, step: Step)
    requires IsRun(w, states, steps) && Enabled(w, states[|states| - 1], step)
    ensures IsRun(w, states + [Apply(states[|states| - 1], step)], steps + [step])
  {
  }

  /** A worker that has seen k - 1 failed attempts can record the k-th. */
  lemma FailedAttemptFits(w: Wave, s: State, shard: Shard, k: nat)
    requires WellNamed(w) && 1 <= k <= w.maxAttempts && s.store == FailedStore(w, ShardGeneration(shard), k - 1)
    requires 0 in s.workers && s.workers[0] == Running(s.store.Values, [shard], 0)
    ensures var attempt := Append(0, FailedRecord(w, ShardGeneration(shard), k));
      Enabled(w, s, attempt) && Apply(s, attempt).store == FailedStore(w, ShardGeneration(shard), k)
  {
    var g, prior := ShardGeneration(shard), s.store.Values;
    FailedStoreSize(w, g, k - 1);
    forall a | a in prior ensures a in AttemptsAt(prior, shard) && a.status == Failed {
      var j := FailedValue(w, g, k - 1, a);
    }
    assert AttemptsAt(prior, shard) == prior;
    TriedWhileBudget(w, s, 0, FailedRecord(w, g, k));
  }

  /** The whole budget can be used: for each ordinal up to it some run of failed attempts
      leaves exactly the attempts with ordinals up to that one. */
  lemma {:induction false} BudgetReachable(w: Wave, shard: Shard, k: nat)
    returns (states: seq<State>, steps: seq<Step>)
    requires WellNamed(w) && k <= w.maxAttempts
    ensures IsRun(w, states, steps)
    ensures states[|states| - 1].store == FailedStore(w, ShardGeneration(shard), k)
  {
    if k == 0 {
      states, steps := [INITIAL], [];
    } else {
      states, steps := BudgetReachable(w, shard, k - 1);
      var before := states[|states| - 1];
      var start := Start(0, before.store.Values, [shard]);
      var attempt := Append(0, FailedRecord(w, ShardGeneration(shard), k));
      RunMore(w, states, steps, start);
      var ready := Apply(before, start);
      FailedAttemptFits(w, ready, shard, k);
      RunMore(w, states + [ready], steps + [start], attempt);
      states, steps := states + [ready] + [Apply(ready, attempt)], steps + [start] + [attempt];
    }
  }

  // ---------------------------------------------------------------------------------
  // The invariant
  // ---------------------------------------------------------------------------------

  /** The records of one generation, in ordinal order. */
  type Log = map<Generation, seq<Attempt>>

  function Entries(log: Log, g: Generation): seq<Attempt> {
    if g in log then log[g] else []
  }

  function EntryId(w: Wave, g: Generation, k: nat): string {
    w.attemptId(g, k + 1)
  }

  ghost predicate Logged(w: Wave, store: map<string, Attempt>, log: Log, g: Generation) {
    var e := Entries(log, g);
    && |e| <= w.maxAttempts
    && forall k :: 0 <= k < |e| ==>
         && GenerationOf(e[k]) == g
         && EntryId(w, g, k) in store && store[EntryId(w, g, k)] == e[k]
         && (k < |e| - 1 ==> e[k].status != Succeeded)
  }

  ghost predicate StoreMatchesLog(w: Wave, store: map<string, Attempt>, log: Log) {
    && (forall g :: Logged(w, store, log, g))
    && (forall id :: id in store ==>
          exists k :: 0 <= k < |Entries(log, GenerationOf(store[id]))| && id == EntryId(w, GenerationOf(store[id]), k))
  }

  ghost predicate Invariant(w: Wave, s: State, log: Log) {
    && StoreMatchesLog(w, s.store, log)
    && forall n :: n in s.workers && s.workers[n].Running? ==> s.workers[n].prior <= s.store.Values
  }

  lemma {:induction false} SeqSetSize<T>(s: seq<T>, sub: set<T>)
    requires forall x :: x in sub ==> x in s
    ensures |sub| <= |s|
    ensures |sub| == |s| ==> forall x :: x in s ==> x in sub
  {
    if s == [] {
      assert sub == {};
    } else {
      SeqSetSize(s[1..], sub - {s[0]});
      assert forall x :: x in s <==> x == s[0] || x in s[1..];
      if s[0] in sub {
        assert sub == (sub - {s[0]}) + {s[0]};
      } else {
        assert sub == sub - {s[0]};
      }
    }
  }

  /** A snapshot never counts more attempts of a generation than the log holds, and if it
      counts as many it has seen them all. */
  lemma SnapshotWithinLog(w: Wave, s: State, log: Log, prior: set<Attempt>, g: Generation)
    requires StoreMatchesLog(w, s.store, log) && prior <= s.store.Values
    ensures |CurrentAttempts(prior, g)| <= |Entries(log, g)|
    ensures |CurrentAttempts(prior, g)| == |Entries(log, g)| ==>
              forall a :: a in Entries(log, g) ==> a in CurrentAttempts(prior, g)
  {
    var current := CurrentAttempts(prior, g);
    forall a | a in current ensures a in Entries(log, g) {
      var id :| id in s.store && s.store[id] == a;
      var k :| 0 <= k < |Entries(log, g)| && id == EntryId(w, g, k);
      assert Logged(w, s.store, log, g);
      assert Entries(log, g)[k] == a;
    }
    SeqSetSize(Entries(log, g), current);
  }

  /** A record with a new id is the next one of its generation, and none before it succeeded. */
  lemma NewRecordIsNext(w: Wave, s: State, log: Log, n: nat, record: Attempt)
    requires WellNamed(w) && Invariant(w, s, log)
    requires Enabled(w, s, Append(n, record)) && record.attemptId !in s.store
    ensures var e := Entries(log, GenerationOf(record));
      && record.attemptId == EntryId(w, GenerationOf(record), |e|) && |e| < w.maxAttempts
      && forall k :: 0 <= k < |e| ==> e[k].status != Succeeded
  {
    var prior, shard := s.workers[n].prior, s.workers[n].shards[s.workers[n].next];
    var g := ShardGeneration(shard);
    var e, current := Entries(log, g), CurrentAttempts(prior, g);
    SnapshotWithinLog(w, s, log, prior, g);
    assert Logged(w, s.store, log, g);
    assert forall k: nat :: k < |e| ==> EntryId(w, g, k) in s.store;
    assert record.attemptId == EntryId(w, g, |current|);
    assert forall k :: 0 <= k < |e| ==> e[k] in e;
  }

  lemma LoggedWithRecord(w: Wave, store: map<string, Attempt>, log: Log, record: Attempt, h: Generation)
    requires StoreMatchesLog(w, store, log) && record.attemptId !in store
    requires var g := GenerationOf(record); var e := Entries(log, g);
      && record.attemptId == EntryId(w, g, |e|) && |e| < w.maxAttempts
      && forall k :: 0 <= k < |e| ==> e[k].status != Succeeded
    ensures var g := GenerationOf(record);
      Logged(w, store[record.attemptId := record], log[g := Entries(log, g) + [record]], h)
  {
    assert Logged(w, store, log, h);
  }

  lemma NewRecordExtendsLog(w: Wave, s: State, log: Log, n: nat, record: Attempt) returns (log': Log)
    requires WellNamed(w) && Invariant(w, s, log)
    requires Enabled(w, s, Append(n, record)) && record.attemptId !in s.store
    ensures StoreMatchesLog(w, s.store[record.attemptId := record], log')
  {
    NewRecordIsNext(w, s, log, n, record);
    var g, store' := GenerationOf(record), s.store[record.attemptId := record];
    var e := Entries(log, g);
    log' := log[g := e + [record]];
    forall h ensures Logged(w, store', log', h) { LoggedWithRecord(w, s.store, log, record, h); }
    forall id | id in store'
      ensures exists k ::
        0 <= k < |Entries(log', GenerationOf(store'[id]))| && id == EntryId(w, GenerationOf(store'[id]), k)
    {
      if id == record.attemptId {
        assert Entries(log', g) == e + [record];
      } else {
        var h := GenerationOf(s.store[id]);
        var k :| 0 <= k < |Entries(log, h)| && id == EntryId(w, h, k);
        assert 0 <= k < |Entries(log', h)|;
      }
    }
  }

  lemma StepKeepsInvariant(w: Wave, s: State, log: Log, step: Step) returns (log': Log)
    requires WellNamed(w) && Invariant(w, s, log) && Enabled(w, s, step)
    ensures Invariant(w, Apply(s, step), log')
  {
    log' := log;
    match step
    case Start(n, prior, shards) =>
    case Skip(n) =>
    case Append(n, record) =>
      if record.attemptId !in s.store {
        log' := NewRecordExtendsLog(w, s, log, n, record);
        ValuesWith(s.store, record.attemptId, record);
      }
  }

  lemma {:induction false} RunKeepsInvariant(w: Wave, states: seq<State>, steps: seq<Step>, i: nat) returns (log: Log)
    requires WellNamed(w) && IsRun(w, states, steps) && i < |states|
    ensures Invariant(w, states[i], log)
  {
    if i == 0 {
      log := map[];
    } else {
      var before := RunKeepsInvariant(w, states, steps, i - 1);
      log := StepKeepsInvariant(w, states[i - 1], before, steps[i - 1]);
    }
  }

  // ---------------------------------------------------------------------------------
  // Safety
  // ---------------------------------------------------------------------------------

  /** The ids of a generation that are present are those with ordinals 1..n, n within the
      budget, and only the last of them can be a success. */
  ghost predicate OrdinalsContiguous(w: Wave, store: map<string, Attempt>, g: Generation, n: nat) {
    && n <= w.maxAttempts
    && (forall k: nat :: w.attemptId(g, k) in store <==> 1 <= k <= n)
    && (forall id :: id in store && GenerationOf(store[id]) == g ==>
        exists k: nat :: 1 <= k <= n && id == w.attemptId(g, k))
    && (forall k: nat :: 1 <= k <= n ==> GenerationOf(store[w.attemptId(g, k)]) == g)
    && (forall k: nat :: 1 <= k < n ==> store[w.attemptId(g, k)].status != Succeeded)
  }

  lemma InvariantGivesOrdinals(w: Wave, s: State, log: Log, g: Generation)
    requires WellNamed(w) && Invariant(w, s, log)
    ensures OrdinalsContiguous(w, s.store, g, |Entries(log, g)|)
  {
    var e := Entries(log, g);
    assert Logged(w, s.store, log, g);
    forall k: nat
      ensures w.attemptId(g, k) in s.store <==> 1 <= k <= |e|
    {
      var id := w.attemptId(g, k);
      if 1 <= k <= |e| {
        assert id == EntryId(w, g, k - 1);
      }
      if id in s.store {
        var h := GenerationOf(s.store[id]);
        var j :| 0 <= j < |Entries(log, h)| && id == EntryId(w, h, j);
        assert w.attemptId(g, k) == w.attemptId(h, j + 1);
      }
    }
    forall id | id in s.store && GenerationOf(s.store[id]) == g
      ensures exists k: nat :: 1 <= k <= |e| && id == w.attemptId(g, k)
    {
      var j :| 0 <= j < |e| && id == EntryId(w, g, j);
      assert 1 <= j + 1 <= |e| && id == w.attemptId(g, j + 1);
    }
    forall k: nat | 1 <= k <= |e|
      ensures s.store[w.attemptId(g, k)] == e[k - 1]
    {
      assert w.attemptId(g, k) == EntryId(w, g, k - 1);
    }
  }

  /** Attempt safety: in every state of every interleaving, whatever each snapshot missed. */
  lemma AttemptSafety(w: Wave, states: seq<State>, steps: seq<Step>, i: nat, g: Generation)
    requires WellNamed(w) && IsRun(w, states, steps) && i < |states|
    ensures exists n: nat :: OrdinalsContiguous(w, states[i].store, g, n)
  {
    var log := RunKeepsInvariant(w, states, steps, i);
    InvariantGivesOrdinals(w, states[i], log, g);
  }

  /** In particular for the ids the code builds. */
  lemma PrivateAttemptSafety(names: Naming, maxAttempts: nat, states: seq<State>, steps: seq<Step>, i: nat,
                             g: Generation)
    requires Distinguishes(names) && IsRun(PrivateWave(names, maxAttempts), states, steps) && i < |states|
    ensures exists n: nat :: OrdinalsContiguous(PrivateWave(names, maxAttempts), states[i].store, g, n)
  {
    PrivateWaveWellNamed(names, maxAttempts);
    AttemptSafety(PrivateWave(names, maxAttempts), states, steps, i, g);
  }

  lemma OneSuccessPerGeneration(w: Wave, store: map<string, Attempt>, g: Generation, n: nat, a: string, b: string)
    requires OrdinalsContiguous(w, store, g, n)
    requires a in store && b in store && GenerationOf(store[a]) == g == GenerationOf(store[b])
    requires store[a].status == Succeeded == store[b].status
    ensures a == b
  {
    var j: nat :| 1 <= j <= n && a == w.attemptId(g, j);
    var k: nat :| 1 <= k <= n && b == w.attemptId(g, k);
  }

  lemma {:induction false} NoneDuplicated(ids: seq<Id>, listing: seq<Attempt>, plan: map<Id, Shard>)
    requires Covers(ids, plan)
    requires forall j :: 0 <= j < |ids| ==> SuccessCount(ids[j], listing, plan) <= 1
    ensures Duplicate(ids, listing, plan) == []
  {
    if ids != [] {
      assert SuccessCount(ids[0], listing, plan) <= 1;
      NoneDuplicated(ids[1..], listing, plan);
    }
  }

  /** Consequently completeness never reports a duplicate for a listing of the store. */
  lemma NoDuplicateReported(w: Wave, states: seq<State>, steps: seq<Step>, i: nat,
                            listing: seq<Attempt>, ids: seq<Id>, plan: map<Id, Shard>)
    requires WellNamed(w) && IsRun(w, states, steps) && i < |states|
    requires NoDuplicates(listing) && forall a :: a in listing ==> a in states[i].store.Values
    requires Covers(ids, plan)
    ensures Duplicate(ids, listing, plan) == []
  {
    var store := states[i].store;
    forall j | 0 <= j < |ids| ensures SuccessCount(ids[j], listing, plan) <= 1 {
      var id := ids[j];
      var g := ShardGeneration(plan[id]);
      AttemptSafety(w, states, steps, i, g);
      var n: nat :| OrdinalsContiguous(w, store, g, n);
      forall a, b | a in listing && b in listing && Satisfies(a, plan[id]) && Satisfies(b, plan[id]) ensures a == b {
        var x :| x in store && store[x] == a;
        var y :| y in store && store[y] == b;
        OneSuccessPerGeneration(w, store, g, n, x, y);
      }
      AtMostOneSuccess(listing, plan[id]);
    }
    NoneDuplicated(ids, listing, plan);
  }
}
