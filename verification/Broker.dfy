/** The broker's driver for one request: poll, retry within the attempt budget, and recover
    from crashes through the durable dispatch history. */
module Broker {
  import opened Results
  import Kernel

  datatype RunStatus = RunRunning | RunFailed | RunCancelled | RunSucceeded

  /** A status query answers with one of four statuses, or the backend cannot be reached. */
  datatype Reply = Reported(status: RunStatus) | Unreachable

  datatype Dispatch = Dispatch(executionId: int, backendId: int, webUrl: int)

  datatype Submission = Started(dispatch: Dispatch) | SubmitUnreachable | SubmitRefused

  datatype RequestStatus = Active | Succeeded | Exhausted

  datatype RequestState = RequestState(
    status: RequestStatus, executionId: Option<int>, dispatchCount: nat, lastFailureCount: nat,
    output: Option<Kernel.Id>, marker: Option<int>)

  const NEW_REQUEST := RequestState(Active, None, 0, 0, None, None)

  /** Everything outside the driver, by the number of the poll: the attempts stored so far and
      a digest of the matching ones, what the backend says of an execution, what a submission
      returns, whether the run has a manifest, and whether refreshing it succeeds. The
      backend may not be configured at all. */
  datatype World = World(
    attempts: nat -> seq<Kernel.Attempt>, marker: nat -> int, reply: (nat, int) -> Reply, submission: nat -> Submission,
    hasManifest: nat -> bool, refreshes: nat -> bool, backend: bool)

  datatype Refusal = Busy | Conflict | Internal | NoBackend

  datatype Outcome =
    | Finished(status: RequestStatus) | Rejected(refusal: Refusal)
    | Transient | DispatchFailed | OutputMissing | RefreshFailed | Crashed

  /** The process stopped before the request was settled. */
  predicate Interrupted(o: Outcome) {
    !o.Finished? && !o.Rejected?
  }

  /** What one round of the driver leads to. */
  datatype Round = Wait(state: RequestState) | Stop(outcome: Outcome) | Again(state: RequestState)

  /** One incoming call: whether its binding is the one on record, and how a registration of
      the run would end. */
  datatype Call = Call(operations: nat, matches: bool, registration: Option<Refusal>)

  // ---------------------------------------------------------------------------------
  // Attempts
  // ---------------------------------------------------------------------------------

  function CountMatching(attempts: seq<Kernel.Attempt>, shard: Kernel.Shard): nat {
    if attempts == [] then 0
    else
      var last := attempts[|attempts| - 1];
      CountMatching(attempts[..|attempts| - 1], shard) + if Kernel.Matches(last, shard) then 1 else 0
  }

  predicate EndedBadly(a: Kernel.Attempt, shard: Kernel.Shard) {
    Kernel.Matches(a, shard) && a.status != Kernel.Succeeded
  }

  function CountEndedBadly(attempts: seq<Kernel.Attempt>, shard: Kernel.Shard): nat {
    if attempts == [] then 0
    else
      var last := attempts[|attempts| - 1];
      CountEndedBadly(attempts[..|attempts| - 1], shard) + if EndedBadly(last, shard) then 1 else 0
  }

  predicate ShardExhausted(attempts: seq<Kernel.Attempt>, shard: Kernel.Shard, maxAttempts: nat) {
    CountMatching(attempts, shard) >= maxAttempts && Kernel.Successes(attempts, shard) == []
  }

  /** The attempts leave no try: too many ended badly, or all that match without a success. */
  predicate Spent(attempts: seq<Kernel.Attempt>, shard: Kernel.Shard, maxAttempts: nat) {
    CountEndedBadly(attempts, shard) >= maxAttempts || ShardExhausted(attempts, shard, maxAttempts)
  }

  /** The attempts settle nothing: neither are they spent nor is there one success. */
  predicate Open(attempts: seq<Kernel.Attempt>, shard: Kernel.Shard, maxAttempts: nat) {
    !Spent(attempts, shard, maxAttempts) && |Kernel.Successes(attempts, shard)| != 1
  }

  /** Each matching attempt either succeeded or ended badly. */
  lemma {:induction false} CountsAddUp(attempts: seq<Kernel.Attempt>, shard: Kernel.Shard)
    ensures CountEndedBadly(attempts, shard) + |Kernel.Successes(attempts, shard)| == CountMatching(attempts, shard)
  {
    if attempts != [] { CountsAddUp(attempts[..|attempts| - 1], shard); }
  }

  /** Attempts are spent exactly when at least `maxAttempts` matching ones did not succeed, and
      open exactly when fewer did not and not just one did. */
  lemma SpentByCount(attempts: seq<Kernel.Attempt>, shard: Kernel.Shard, maxAttempts: nat)
    ensures Spent(attempts, shard, maxAttempts) <==>
      CountMatching(attempts, shard) >= maxAttempts + |Kernel.Successes(attempts, shard)|
    ensures Open(attempts, shard, maxAttempts) <==>
      CountMatching(attempts, shard) < maxAttempts + |Kernel.Successes(attempts, shard)|
      && |Kernel.Successes(attempts, shard)| != 1
  {
    CountsAddUp(attempts, shard);
  }

  /** For a single planned shard, an unambiguous completion is exactly one success. */
  lemma SingleShardCompletion(attempts: seq<Kernel.Attempt>, shard: Kernel.Shard)
    ensures var ids, plan := [shard.shardId], Kernel.ShardMap([shard]);
      Kernel.Covers(ids, plan) &&
      (var c := Kernel.CompletionOf(ids, attempts, plan);
       c.canonical != [] && c.missing == [] && c.duplicate == [] <==> |Kernel.Successes(attempts, shard)| == 1)
  {
    var ids, plan := [shard.shardId], Kernel.ShardMap([shard]);
    assert [shard][..|[shard]| - 1] == [] && ids[1..] == [];
    var none: seq<Kernel.Shard> := [];
    assert [shard][..0] == none && Kernel.ShardMap(none) == map[];
    assert plan == map[shard.shardId := shard];
    assert Kernel.CompletionOf([], attempts, plan) == Kernel.Completion([], [], []);
  }

  // ---------------------------------------------------------------------------------
  // Dispatch history
  // ---------------------------------------------------------------------------------

  ghost predicate HasExecution(history: seq<Dispatch>, id: int) {
    exists i :: 0 <= i < |history| && history[i].executionId == id
  }

  /** The first dispatch recorded under that execution id. */
  ghost predicate FirstWith(history: seq<Dispatch>, id: int, i: nat) {
    i < |history| && history[i].executionId == id && forall k :: 0 <= k < i ==> history[k].executionId != id
  }

  /** Appends a dispatch unless its execution is already recorded; then it must be recorded with
      the same metadata. */
  method RecordWaveDispatch(history: seq<Dispatch>, record: Dispatch) returns (r: Option<seq<Dispatch>>)
    ensures !HasExecution(history, record.executionId) ==> r == Some(history + [record])
    ensures HasExecution(history, record.executionId) ==> r == None || r == Some(history)
    ensures forall i: nat :: FirstWith(history, record.executionId, i) ==>
      r == if history[i] == record then Some(history) else None
  {
    for i := 0 to |history|
      invariant forall k :: 0 <= k < i ==> history[k].executionId != record.executionId
    {
      if history[i].executionId == record.executionId {
        if history[i] != record { return None; }
        return Some(history);
      }
    }
    r := Some(history + [record]);
  }

  /** Catches up with dispatches recorded by a call that crashed before saving its state. */
  function Synced(st: RequestState, history: seq<Dispatch>, failures: nat): RequestState {
    if |history| <= st.dispatchCount then st
    else
      var seen := if failures < |history| then failures else |history|;
      st.(dispatchCount := |history|, executionId := Some(history[|history| - 1].executionId),
          lastFailureCount := if st.lastFailureCount < seen then seen else st.lastFailureCount)
  }

  // ---------------------------------------------------------------------------------
  // The driver
  // ---------------------------------------------------------------------------------

  /** One recorded dispatch: when, what came before it in the history, and the request's
      durable status at that moment. */
  datatype Entry = Entry(poll: nat, dispatch: Dispatch, previous: Option<Dispatch>, status: RequestStatus)

  /** Submissions return execution ids that were never returned before. */
  ghost predicate FreshIds(w: World) {
    forall i, j :: i != j && w.submission(i).Started? && w.submission(j).Started? ==>
      w.submission(i).dispatch.executionId != w.submission(j).dispatch.executionId
  }

  /** From poll `settle(e)` on, execution `e` no longer reports running. */
  ghost predicate Settles(w: World, settle: int -> nat) {
    forall poll: nat, e :: poll >= settle(e) ==> w.reply(poll, e) != Reported(RunRunning)
  }

  /** How many more polls the last execution can report running. */
  ghost function StepsLeft(settle: int -> nat, st: RequestState, poll: nat): nat {
    if st.executionId.Some? && settle(st.executionId.value) > poll then settle(st.executionId.value) - poll else 0
  }

  lemma StillRunning(w: World, settle: int -> nat, poll: nat, id: int)
    requires Settles(w, settle) && w.reply(poll, id) == Reported(RunRunning)
    ensures poll < settle(id)
  {
  }

  ghost predicate EntryAllowed(w: World, e: Entry) {
    && e.status == Active
    && w.submission(e.poll) == Started(e.dispatch)
    && (FreshIds(w) && e.previous.Some? ==> NotRunning(w, e.poll, e.previous.value.executionId))
  }

  /** Entry `k` of the log is about dispatch `k` of the history. */
  ghost predicate EntryMatches(w: World, log: seq<Entry>, history: seq<Dispatch>, k: nat, poll: nat)
    requires k < |log| == |history|
  {
    && log[k].dispatch == history[k] && log[k].poll < poll && EntryAllowed(w, log[k])
    && log[k].previous == (if k == 0 then None else Some(history[k - 1]))
  }

  ghost predicate LogMatches(w: World, log: seq<Entry>, history: seq<Dispatch>, poll: nat) {
    |log| == |history| && forall k :: 0 <= k < |log| ==> EntryMatches(w, log, history, k, poll)
  }

  lemma LogLater(w: World, log: seq<Entry>, history: seq<Dispatch>, poll: nat, later: nat)
    requires LogMatches(w, log, history, poll) && poll <= later
    ensures LogMatches(w, log, history, later)
  {
    forall k | 0 <= k < |log| ensures EntryMatches(w, log, history, k, later) {
      assert EntryMatches(w, log, history, k, poll);
    }
  }

  /** How a request state and the history fit together. */
  ghost predicate StateFits(w: World, st: RequestState, history: seq<Dispatch>, maxAttempts: nat) {
    && st.dispatchCount <= maxAttempts
    && (st.dispatchCount == 0 <==> st.executionId == None)
    && (FreshIds(w) ==> st.dispatchCount <= |history|)
    && (FreshIds(w) && 0 < st.dispatchCount == |history| ==> st.executionId == Some(history[|history| - 1].executionId))
  }

  /** Why a request may be settled, given the attempts stored at that moment. */
  ghost predicate Justified(w: World, shard: Kernel.Shard, maxAttempts: nat, poll: nat, st: RequestState) {
    var attempts := w.attempts(poll);
    match st.status
    case Active => false
    case Succeeded =>
      var successes := Kernel.Successes(attempts, shard);
      && !Spent(attempts, shard, maxAttempts)
      && |successes| == 1 && successes[0].outputs != [] && st.output == Some(successes[0].outputs[0])
    case Exhausted =>
      Spent(attempts, shard, maxAttempts) ||
      (Open(attempts, shard, maxAttempts) && st.dispatchCount >= maxAttempts && st.executionId.Some?
        && NotRunning(w, poll, st.executionId.value))
  }

  /** What must have happened for a call to end as it did without settling the request. */
  ghost predicate Explained(w: World, shard: Kernel.Shard, o: Outcome, poll: nat, history: seq<Dispatch>, budget: nat) {
    match o
    case Finished(_) => true
    case Rejected(_) => true
    case Crashed => budget == 0
    case Transient =>
      poll > 0 && (w.submission(poll - 1).SubmitUnreachable? || Unreached(w, poll - 1))
    case DispatchFailed =>
      poll > 0 && (w.submission(poll - 1).SubmitRefused? || Conflicts(history, w.submission(poll - 1)))
    case RefreshFailed => w.hasManifest(poll) && !w.refreshes(poll)
    case OutputMissing =>
      var successes := Kernel.Successes(w.attempts(poll), shard);
      |successes| == 1 && successes[0].outputs == []
  }

  /** How a request ends whose attempts are not open: exhausted if they are spent, else by the
      one success, unless a crash or a failed refresh comes between. */
  ghost predicate Decides(attempts: seq<Kernel.Attempt>, shard: Kernel.Shard, maxAttempts: nat, o: Outcome)
    requires !Open(attempts, shard, maxAttempts)
  {
    var successes := Kernel.Successes(attempts, shard);
    o.Crashed? || o.RefreshFailed? ||
    o == if Spent(attempts, shard, maxAttempts) then Finished(Exhausted)
         else if successes[0].outputs == [] then OutputMissing else Finished(Succeeded)
  }

  /** Each recorded dispatch was made while the stored attempts were open. */
  ghost predicate MadeWhileOpen(w: World, shard: Kernel.Shard, maxAttempts: nat, log: seq<Entry>) {
    forall k :: 0 <= k < |log| ==> Open(w.attempts(log[k].poll), shard, maxAttempts)
  }

  lemma MadeWhileOpenMore(w: World, shard: Kernel.Shard, maxAttempts: nat, log: seq<Entry>, e: Entry)
    requires MadeWhileOpen(w, shard, maxAttempts, log) && Open(w.attempts(e.poll), shard, maxAttempts)
    ensures MadeWhileOpen(w, shard, maxAttempts, log + [e])
  {
  }

  /** The manifest has to be refreshed for the matching attempts, and cannot be. */
  predicate RefreshFails(w: World, shard: Kernel.Shard, st: RequestState, poll: nat) {
    && st.marker != Some(w.marker(poll)) && CountMatching(w.attempts(poll), shard) > 0
    && w.hasManifest(poll) && !w.refreshes(poll)
  }

  predicate UnreachedFor(w: World, poll: nat, id: int) {
    w.reply(poll, id).Unreachable?
  }

  /** Some status query of this poll could not reach the backend. */
  ghost predicate Unreached(w: World, poll: nat) {
    exists id :: UnreachedFor(w, poll, id)
  }

  /** A submission came back with a recorded execution id. */
  ghost predicate Conflicts(history: seq<Dispatch>, submission: Submission) {
    submission.Started? && HasExecution(history, submission.dispatch.executionId)
  }

  class Driver {
    const world: World
    const shard: Kernel.Shard
    const maxAttempts: nat
    var poll: nat
    var registered: bool
    var known: bool
    var saved: RequestState
    var history: seq<Dispatch>
    var budget: nat
    ghost var log: seq<Entry>

    ghost predicate Valid()
      reads this
    {
      && maxAttempts > 0
      && |history| <= maxAttempts
      && (known ==> registered) && (!known ==> saved == NEW_REQUEST && history == [])
      && StateFits(world, saved, history, maxAttempts)
      && LogMatches(world, log, history, poll) && MadeWhileOpen(world, shard, maxAttempts, log)
    }

    constructor (w: World, s: Kernel.Shard, attemptLimit: nat)
      requires attemptLimit > 0
      ensures Valid() && world == w && shard == s && maxAttempts == attemptLimit
      ensures !registered && !known && saved == NEW_REQUEST && history == []
    {
      world, shard, maxAttempts := w, s, attemptLimit;
      poll, registered, known, saved, history, budget, log := 0, false, false, NEW_REQUEST, [], 0, [];
    }

    /** Durable write of the request state. */
    method Save(st: RequestState) returns (crashed: bool)
      requires Valid() && registered && StateFits(world, st, history, maxAttempts)
      modifies this`saved, this`known, this`budget
      ensures Valid() && saved == (if crashed then old(saved) else st) && known == (old(known) || !crashed)
      ensures crashed <==> old(budget) == 0
      ensures budget == old(budget) - if crashed then 0 else 1
    {
      if budget == 0 { return true; }
      saved, known, budget := st, true, budget - 1;
      crashed := false;
    }

    /** Refreshes the manifest when the matching attempts have changed, and remembers what it
        was refreshed for. Without a manifest nothing is remembered. */
    method ReconcileIfAttemptsChanged(st: RequestState, attempts: seq<Kernel.Attempt>)
      returns (r: Result<RequestState, Outcome>)
      requires Valid() && known && StateFits(world, st, history, maxAttempts) && attempts == world.attempts(poll)
      modifies this`saved, this`known, this`budget
      ensures Valid() && known
      ensures r.Ok? ==>
        r.value == st.(marker := if CountMatching(attempts, shard) > 0 && !world.hasManifest(poll) then st.marker
                                 else Some(world.marker(poll)))
      ensures r.Ok? ==> saved == if r.value == st then old(saved) else r.value
      ensures budget <= old(budget) && (r == Err(RefreshFailed) <==> RefreshFails(world, shard, st, poll))
      ensures r.Err? ==> (r.error.Crashed? || r.error.RefreshFailed?) && saved == old(saved)
      ensures r.Err? ==> Explained(world, shard, r.error, poll, history, budget)
    {
      if st.marker == Some(world.marker(poll)) { return Ok(st); }
      if CountMatching(attempts, shard) > 0 {
        if !world.hasManifest(poll) { return Ok(st); }
        if !world.refreshes(poll) { return Err(RefreshFailed); }
      }
      var next := st.(marker := Some(world.marker(poll)));
      var crashed := Save(next);
      r := if crashed then Err(Crashed) else Ok(next);
    }

    /** Durably records a submitted dispatch in the wave's history. */
    method RecordDispatch(st: RequestState, d: Dispatch) returns (r: Result<Dispatch, Outcome>)
      requires Valid() && known && saved.status == Active && world.submission(poll) == Started(d)
      requires StateFits(world, st, history, maxAttempts) && |history| <= st.dispatchCount < maxAttempts
      requires st.executionId.Some? ==> NotRunning(world, poll, st.executionId.value)
      requires Open(world.attempts(poll), shard, maxAttempts)
      modifies this`history, this`budget, this`log, this`poll
      ensures Valid() && poll == old(poll) + 1
      ensures r.Err? ==> Interrupted(r.error) && Explained(world, shard, r.error, poll, history, budget)
      ensures r.Ok? ==> r.value == d
      ensures budget == old(budget) - if r.Ok? then 1 else 0
      ensures r.Ok? ==> StateFits(world, Dispatched(st, d), history, maxAttempts) && |history| <= st.dispatchCount + 1
    {
      LogLater(world, log, history, poll, poll + 1);
      var recorded := RecordWaveDispatch(history, d);
      poll := poll + 1;
      if recorded.None? { return Err(DispatchFailed); }
      if budget == 0 { return Err(Crashed); }
      if FreshIds(world) { FreshIsNew(world, log, history, poll - 1, d); }
      if |recorded.value| > |history| {
        AppendFits(world, st, saved, log, history, maxAttempts, poll - 1, d);
        MadeWhileOpenMore(world, shard, maxAttempts, log, NextEntry(poll - 1, d, history, saved.status));
        log := log + [NextEntry(poll - 1, d, history, saved.status)];
      }
      history, budget := recorded.value, budget - 1;
      r := Ok(d);
    }

    /** Submits the wave and durably records what came back. */
    method DispatchPrivateWave(st: RequestState) returns (r: Result<Dispatch, Outcome>)
      requires Valid() && known && saved.status == Active
      requires StateFits(world, st, history, maxAttempts) && |history| <= st.dispatchCount < maxAttempts
      requires st.executionId.Some? ==> NotRunning(world, poll, st.executionId.value)
      requires Open(world.attempts(poll), shard, maxAttempts)
      modifies this`history, this`budget, this`log, this`poll
      ensures budget <= old(budget)
      ensures Valid() && poll == old(poll) + 1
      ensures r.Err? ==> Interrupted(r.error) && Explained(world, shard, r.error, poll, history, budget)
      ensures r.Ok? ==> StateFits(world, Dispatched(st, r.value), history, maxAttempts)
      ensures r.Ok? ==> |history| <= st.dispatchCount + 1
    {
      var submission := world.submission(poll);
      if submission.Started? {
        r := RecordDispatch(st, submission.dispatch);
        return;
      }
      LogLater(world, log, history, poll, poll + 1);
      poll := poll + 1;
      r := Err(if submission.SubmitUnreachable? then Transient else DispatchFailed);
    }

    /** Decides whether the stored attempts already settle the request. */
    method Settled(st: RequestState, attempts: seq<Kernel.Attempt>) returns (r: Option<Outcome>)
      requires Valid() && known && StateFits(world, st, history, maxAttempts) && attempts == world.attempts(poll)
      modifies this`saved, this`known, this`budget
      ensures budget <= old(budget)
      ensures Valid() && known
      ensures r.None? <==> Open(attempts, shard, maxAttempts)
      ensures r.None? ==> saved == old(saved)
      ensures r.Some? ==> Decides(attempts, shard, maxAttempts, r.value)
      ensures r.Some? ==> !r.value.Rejected? && Explained(world, shard, r.value, poll, history, budget)
      ensures r.Some? && r.value.Finished? ==>
        saved.status == r.value.status && Justified(world, shard, maxAttempts, poll, saved)
    {
      if CountEndedBadly(attempts, shard) >= maxAttempts || ShardExhausted(attempts, shard, maxAttempts) {
        var crashed := Save(st.(status := Exhausted));
        return Some(if crashed then Crashed else Finished(Exhausted));
      }
      var successes := Kernel.Successes(attempts, shard);
      if |successes| == 1 {
        if successes[0].outputs == [] { return Some(OutputMissing); }
        var done := st.(status := Succeeded, output := Some(successes[0].outputs[0]));
        var crashed := Save(done);
        if crashed { return Some(Crashed); }
        var reconciled := ReconcileIfAttemptsChanged(done, attempts);
        return Some(if reconciled.Err? then reconciled.error else Finished(Succeeded));
      }
      r := None;
    }

    /** Dispatches once more and saves the count. */
    method Retry(st: RequestState, terminalCount: nat) returns (r: Result<RequestState, Outcome>)
      requires Valid() && known && saved.status == Active && st.status == Active
      requires StateFits(world, st, history, maxAttempts) && |history| <= st.dispatchCount < maxAttempts
      requires st.executionId.Some? ==> NotRunning(world, poll, st.executionId.value)
      requires Open(world.attempts(poll), shard, maxAttempts)
      modifies this`saved, this`known, this`history, this`budget, this`log, this`poll
      ensures budget <= old(budget)
      ensures Valid() && known
      ensures r.Err? ==> Interrupted(r.error) && Explained(world, shard, r.error, poll, history, budget)
      ensures r.Ok? ==> saved == r.value && r.value.status == Active && r.value.dispatchCount == st.dispatchCount + 1
      ensures r.Ok? ==> StateFits(world, r.value, history, maxAttempts) && |history| <= r.value.dispatchCount
    {
      var dispatched := DispatchPrivateWave(st);
      if dispatched.Err? { return Err(dispatched.error); }
      var next := Dispatched(st, dispatched.value).(lastFailureCount := terminalCount);
      var crashed := Save(next);
      r := if crashed then Err(Crashed) else Ok(next);
    }

    /** Asks for the last execution and dispatches again if it has ended. The two waits other
        than for a running execution never happen. */
    method Advance(st: RequestState, terminalCount: nat) returns (r: Round)
      requires Valid() && known && saved.status == Active && st.status == Active
      requires StateFits(world, st, history, maxAttempts) && |history| <= st.dispatchCount
      requires Open(world.attempts(poll), shard, maxAttempts)
      modifies this`saved, this`known, this`history, this`budget, this`log, this`poll
      ensures budget <= old(budget)
      ensures Valid() && known
      ensures r.Wait? ==>
        r.state == st && st.executionId.Some? && world.reply(old(poll), st.executionId.value) == Reported(RunRunning)
        && poll == old(poll) + 1 && saved == old(saved) && history == old(history)
      ensures r.Stop? ==> !r.outcome.Rejected? && Explained(world, shard, r.outcome, poll, history, budget)
      ensures r.Stop? && r.outcome.Finished? ==>
        saved.status == r.outcome.status && Justified(world, shard, maxAttempts, poll, saved)
      ensures r.Again? ==> saved == r.state && r.state.status == Active && r.state.dispatchCount == st.dispatchCount + 1
      ensures r.Again? ==> StateFits(world, r.state, history, maxAttempts) && |history| <= r.state.dispatchCount
    {
      var terminal := false;
      if st.executionId.Some? {
        var reply := world.reply(poll, st.executionId.value);
        if reply.Unreachable? || reply.status == RunRunning {
          LogLater(world, log, history, poll, poll + 1);
          assert reply.Unreachable? ==> UnreachedFor(world, poll, st.executionId.value);
          poll := poll + 1;
          return if reply.Unreachable? then Stop(Transient) else Wait(st);
        }
        terminal := true;
      }
      if st.dispatchCount > 0 && terminalCount <= st.lastFailureCount && !terminal {
        assert false;
      }
      if terminal && st.dispatchCount >= maxAttempts {
        var crashed := Save(st.(status := Exhausted));
        return Stop(if crashed then Crashed else Finished(Exhausted));
      }
      var shouldDispatch := st.dispatchCount == 0 ||
        (st.dispatchCount < maxAttempts && (terminalCount > st.lastFailureCount || terminal));
      if !shouldDispatch {
        assert false;
      }
      var retried := Retry(st, terminalCount);
      r := if retried.Err? then Stop(retried.error) else Again(retried.value);
    }

    /** One turn of the loop: reconcile, settle the request if the attempts allow it, and
        otherwise advance. */
    method Turn(st: RequestState) returns (r: Round)
      requires Valid() && known && saved.status == Active && st.status == Active
      requires StateFits(world, st, history, maxAttempts) && |history| <= st.dispatchCount
      modifies this`saved, this`known, this`history, this`budget, this`log, this`poll
      ensures budget <= old(budget)
      ensures Valid() && known
      ensures RefreshFails(world, shard, st, old(poll)) ==> r == Stop(RefreshFailed)
      ensures r.Wait? ==>
        && r.state == st.(marker := r.state.marker) && StateFits(world, r.state, history, maxAttempts)
        && |history| <= r.state.dispatchCount && saved.status == Active
        && st.executionId.Some? && world.reply(old(poll), st.executionId.value) == Reported(RunRunning)
        && poll == old(poll) + 1
      ensures !Open(world.attempts(old(poll)), shard, maxAttempts) ==>
        r.Stop? && Decides(world.attempts(old(poll)), shard, maxAttempts, r.outcome)
        && poll == old(poll) && history == old(history)
      ensures r.Stop? ==> !r.outcome.Rejected? && Explained(world, shard, r.outcome, poll, history, budget)
      ensures r.Stop? && r.outcome.Finished? ==>
        saved.status == r.outcome.status && Justified(world, shard, maxAttempts, poll, saved)
      ensures r.Again? ==> saved == r.state && r.state.status == Active && r.state.dispatchCount == st.dispatchCount + 1
      ensures r.Again? ==> StateFits(world, r.state, history, maxAttempts) && |history| <= r.state.dispatchCount
    {
      var attempts := world.attempts(poll);
      var reconciled := ReconcileIfAttemptsChanged(st, attempts);
      if reconciled.Err? { return Stop(reconciled.error); }
      var settled := Settled(reconciled.value, attempts);
      if settled.Some? { return Stop(settled.value); }
      r := Advance(reconciled.value, CountEndedBadly(attempts, shard));
    }

    /** Catches the saved state up with the dispatches on record. */
    method CatchUp() returns (crashed: bool)
      requires Valid() && known && saved.status == Active
      modifies this`saved, this`known, this`budget
      ensures Valid() && known && budget <= old(budget) && (crashed ==> budget == 0)
      ensures crashed <==> old(budget) == 0 && |history| > old(saved).dispatchCount
      ensures saved == if crashed then old(saved)
                       else Synced(old(saved), history, CountEndedBadly(world.attempts(poll), shard))
    {
      var synced := Synced(saved, history, CountEndedBadly(world.attempts(poll), shard));
      if synced == saved { return false; }
      crashed := Save(synced);
    }

    /** Drives the request until it is settled or something outside stops it: the backend
        cannot be reached, refuses, or the process crashes. */
    method DriveToTerminal(ghost settle: int -> nat) returns (outcome: Outcome)
      requires Valid() && known && saved.status == Active && Settles(world, settle)
      modifies this`saved, this`known, this`history, this`budget, this`log, this`poll
      ensures budget <= old(budget)
      ensures Valid() && known && Explained(world, shard, outcome, poll, history, budget)
      ensures outcome.Finished? ==> saved.status == outcome.status && Justified(world, shard, maxAttempts, poll, saved)
      ensures world.backend && !Open(world.attempts(old(poll)), shard, maxAttempts) ==>
        Decides(world.attempts(old(poll)), shard, maxAttempts, outcome) && poll == old(poll) && history == old(history)
      ensures world.backend && old(|history|) > old(saved).dispatchCount && old(budget) == 0 ==> outcome == Crashed
      ensures world.backend && RefreshFails(world, shard, old(saved), old(poll)) ==>
        outcome == RefreshFailed || (outcome == Crashed && poll == old(poll))
      ensures outcome.Rejected? <==> !world.backend
      ensures outcome.Rejected? ==> outcome.refusal == NoBackend && saved == old(saved) && history == old(history)
    {
      if !world.backend { return Rejected(NoBackend); }
      var crashed := CatchUp();
      if crashed { return Crashed; }
      var st := saved;
      while true
        invariant Valid() && known && saved.status == Active && budget <= old(budget)
        invariant StateFits(world, st, history, maxAttempts) && |history| <= st.dispatchCount && st.status == Active
        invariant !Open(world.attempts(old(poll)), shard, maxAttempts) ==> poll == old(poll) && history == old(history)
        invariant RefreshFails(world, shard, old(saved), old(poll)) ==>
          poll == old(poll) && st.marker == old(saved).marker
        decreases maxAttempts - st.dispatchCount, StepsLeft(settle, st, poll)
      {
        var round := Turn(st);
        if round.Stop? { return round.outcome; }
        if round.Wait? { StillRunning(world, settle, poll - 1, st.executionId.value); }
        st := round.state;
      }
    }

    /** Finds or makes the request's state: registers the run, or recovers the state of a run
        that was registered by a call that crashed before its first save. */
    method Admit(call: Call) returns (refused: Option<Outcome>)
      requires Valid()
      modifies this`registered, this`saved, this`known, this`budget
      ensures budget <= old(budget)
      ensures registered && !old(registered) ==> budget < old(budget)
      ensures Valid()
      ensures refused.None? ==> known && saved == old(saved)
      ensures refused.Some? ==> refused.value.Rejected? || refused.value.Crashed?
      ensures refused.Some? ==> known == old(known) && saved == old(saved)
      ensures refused.Some? ==> Explained(world, shard, refused.value, poll, history, budget)
      ensures old(registered) && !call.matches ==> refused == Some(Rejected(Conflict))
      ensures old(known) && call.matches ==> refused == None
      ensures !old(registered) && call.registration.Some? ==>
        refused == Some(Rejected(call.registration.value)) && !registered
    {
      if !registered {
        if call.registration.Some? { return Some(Rejected(call.registration.value)); }
        if budget == 0 { return Some(Crashed); }
        registered, budget := true, budget - 1;
      } else if !call.matches {
        return Some(Rejected(Conflict));
      }
      if !known {
        var crashed := Save(Synced(NEW_REQUEST, history, CountEndedBadly(world.attempts(poll), shard)));
        if crashed { return Some(Crashed); }
      }
      refused := None;
    }

    /** Answers a succeeded request: the manifest is reconciled first, and the stored attempts
        must still show one success with an output. */
    method SuccessFromState() returns (outcome: Outcome)
      requires Valid() && known && saved.status == Succeeded
      modifies this`saved, this`known, this`budget
      ensures budget <= old(budget)
      ensures Valid() && known && Explained(world, shard, outcome, poll, history, budget)
      ensures RefreshFails(world, shard, old(saved), poll) ==> outcome == RefreshFailed
      ensures saved == old(saved).(marker := saved.marker)
      ensures var successes := Kernel.Successes(world.attempts(poll), shard);
        && (outcome.Finished? ==> outcome.status == Succeeded && |successes| == 1 && successes[0].outputs != [])
        && (outcome.Rejected? ==> outcome.refusal == Internal && |successes| != 1)
    {
      var attempts := world.attempts(poll);
      var reconciled := ReconcileIfAttemptsChanged(saved, attempts);
      if reconciled.Err? { return reconciled.error; }
      var successes := Kernel.Successes(attempts, shard);
      if |successes| != 1 { return Rejected(Internal); }
      if successes[0].outputs == [] { return OutputMissing; }
      outcome := Finished(Succeeded);
    }

    /** One call for the request: a call that is refused changes nothing but the reconciliation
        marker, a settled request is answered without dispatching, and otherwise the driver
        runs. Whatever else happens has a cause outside the driver. */
    method Handle(call: Call, ghost settle: int -> nat) returns (outcome: Outcome)
      requires Valid() && Settles(world, settle)
      modifies this
      ensures Valid() && Explained(world, shard, outcome, poll, history, budget)
      ensures budget <= call.operations
      ensures old(registered) && !call.matches ==> outcome == Rejected(Conflict)
      ensures outcome.Rejected? ==> saved == old(saved).(marker := saved.marker) && history == old(history)
      ensures old(saved).status != Active ==> saved == old(saved).(marker := saved.marker) && history == old(history)
      ensures old(saved).status == Exhausted && call.matches ==> outcome == Finished(Exhausted)
      ensures old(saved).status == Succeeded && outcome.Finished? ==>
        outcome.status == Succeeded && |Kernel.Successes(world.attempts(poll), shard)| == 1
      ensures old(saved).status == Succeeded && outcome == Rejected(Internal) ==>
        |Kernel.Successes(world.attempts(poll), shard)| != 1
      ensures old(saved).status == Active && outcome.Finished? ==>
        saved.status == outcome.status && Justified(world, shard, maxAttempts, poll, saved)
      ensures old(saved).status == Active && !outcome.Rejected? ==>
        Open(world.attempts(old(poll)), shard, maxAttempts) ||
        (Decides(world.attempts(old(poll)), shard, maxAttempts, outcome) && history == old(history))
    {
      budget := call.operations;
      var refused := Admit(call);
      if refused.Some? { return refused.value; }
      if saved.status == Exhausted { return Finished(Exhausted); }
      if saved.status == Succeeded {
        outcome := SuccessFromState();
      } else {
        outcome := DriveToTerminal(settle);
      }
    }

    /** Any number of calls, each crashing after any number of durable writes. */
    method Serve(calls: seq<Call>, ghost settle: int -> nat)
      requires Valid() && Settles(world, settle)
      modifies this
      ensures Valid()
      ensures |history| <= maxAttempts
      ensures forall k :: 0 <= k < |log| ==> EntryAllowed(world, log[k]) && log[k].dispatch == history[k]
      ensures MadeWhileOpen(world, shard, maxAttempts, log)
    {
      for i := 0 to |calls|
        invariant Valid()
      {
        var outcome := Handle(calls[i], settle);
      }
      forall k | 0 <= k < |log| ensures EntryAllowed(world, log[k]) && log[k].dispatch == history[k] {
        assert EntryMatches(world, log, history, k, poll);
      }
    }
  }

  predicate NotRunning(w: World, poll: nat, id: int) {
    w.reply(poll, id).Reported? && w.reply(poll, id).status != RunRunning
  }

  function Dispatched(st: RequestState, d: Dispatch): RequestState {
    st.(executionId := Some(d.executionId), dispatchCount := st.dispatchCount + 1)
  }

  function NextEntry(poll: nat, d: Dispatch, history: seq<Dispatch>, status: RequestStatus): Entry {
    Entry(poll, d, if history == [] then None else Some(history[|history| - 1]), status)
  }

  /** Under fresh ids a submission is never in the history already. */
  lemma FreshIsNew(w: World, log: seq<Entry>, history: seq<Dispatch>, poll: nat, d: Dispatch)
    requires LogMatches(w, log, history, poll) && w.submission(poll) == Started(d) && FreshIds(w)
    ensures !HasExecution(history, d.executionId)
  {
    forall i | 0 <= i < |history| ensures history[i].executionId != d.executionId {
      assert EntryMatches(w, log, history, i, poll);
    }
  }

  lemma AppendFits(w: World, st: RequestState, saved: RequestState, log: seq<Entry>, history: seq<Dispatch>,
                   maxAttempts: nat,
                   poll: nat, d: Dispatch)
    requires LogMatches(w, log, history, poll) && w.submission(poll) == Started(d)
    requires StateFits(w, saved, history, maxAttempts) && StateFits(w, st, history, maxAttempts)
    requires saved.status == Active && |history| <= st.dispatchCount < maxAttempts
    requires st.executionId.Some? ==> NotRunning(w, poll, st.executionId.value)
    ensures LogMatches(w, log + [NextEntry(poll, d, history, saved.status)], history + [d], poll + 1)
    ensures StateFits(w, saved, history + [d], maxAttempts)
    ensures StateFits(w, Dispatched(st, d), history + [d], maxAttempts)
  {
    var entry := NextEntry(poll, d, history, saved.status);
    assert EntryAllowed(w, entry);
    var log', history', next := log + [entry], history + [d], poll + 1;
    forall k | 0 <= k < |log'| ensures EntryMatches(w, log', history', k, next) {
      if k < |log| { assert EntryMatches(w, log, history, k, poll); }
    }
  }
}
