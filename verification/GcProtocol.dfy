/** All interleavings of registration, attempts, deliveries, broker status moves and garbage
    collection. The lifecycle lock excludes its holders from each other, but broker request
    files are saved without it, even while a sweep is scanning them or deleting. */
module GcProtocol {
  import opened Results
  import opened GcWorld
  import opened GcSweep
  import opened GcConvergence

  /** The process that holds the lifecycle lock for a sweep, if one does. While it scans, it has
      listed the request files it owes a read and keeps what it has read so far; requests move
      on meanwhile. Then it works under the set its mark protects. */
  datatype Sweeper =
    | Idle
    | Scanning(owed: set<RequestId>, seen: map<RequestId, BrokerRequest>)
    | Marked(protectedDigests: set<Digest>)

  /** `removed` are the digests ever unlinked by a sweep. */
  datatype Sys = Sys(world: World, store: Store, removed: set<Digest>, sweeper: Sweeper)

  datatype Step =
    /** Lock-held: writes payloads, checks the inputs, registers the closed wave and, unless it
        crashes first, the initial manifest. */
    | Register(run: RunId, inputs: set<Digest>, written: set<Digest>, completes: bool)
    /** Lock-held: completes an interrupted registration after checking its inputs again. */
    | Repair(run: RunId)
    /** Unlocked: saves the state of a request whose closed wave is registered, either right
        after registration or when recovering. Neither manifest nor payloads are looked at. */
    | SaveRequest(request: RequestId, run: RunId)
    /** Unlocked: a request in progress reaches a terminal status. */
    | FinishRequest(request: RequestId, status: BrokerStatus, output: Option<Digest>)
    | AppendAttempt(run: RunId, outputs: set<Digest>)
    | Deliver(request: RequestId, delivery: Delivery)
    | WriteManifest(run: RunId, finish: bool, finals: set<Digest>)
    | Hold(id: int, digests: set<Digest>)
    | ReleaseHold(id: int)
    | WritePayload(digest: Digest)
    /** A sweep takes the lock and lists the request files. */
    | StartSweep
    /** The mark reads one of the listed request files. */
    | ScanRequest(request: RequestId)
    /** The mark reads everything else, which only lock holders write, and is complete. */
    | FinishMark(protectedDigests: set<Digest>)
    | SweepOp(op: Op)
    /** The sweep completes or crashes; either way the lock is free again. */
    | EndSweep

  /** What the mark takes the world to be: the requests as they were read. */
  function AsRead(w: World, seen: map<RequestId, BrokerRequest>): World {
    w.(requests := seen)
  }

  ghost predicate CanStep(s: Sys, step: Step) {
    match step
    case Register(run, inputs, written, completes) =>
      s.sweeper.Idle? && run !in s.world.waves && run !in s.world.manifests && inputs <= s.store.payloads + written
    case Repair(run) =>
      s.sweeper.Idle? && run in s.world.waves && run !in s.world.manifests && s.world.waves[run] <= s.store.payloads
    case SaveRequest(r, run) =>
      r !in s.world.requests && run in s.world.waves && !BrokerOwned(s.world, run)
    case FinishRequest(r, status, output) =>
      r in s.world.requests && !Terminal(s.world.requests[r].status) && Terminal(status)
    case AppendAttempt(run, outputs) => s.sweeper.Idle? && outputs <= s.store.payloads
    case Deliver(r, delivery) => s.sweeper.Idle? && r !in s.world.deliveries
    case WriteManifest(run, finish, finals) =>
      s.sweeper.Idle? && run in s.world.manifests && finals <= s.store.payloads
    case Hold(id, digests) => s.sweeper.Idle? && id !in s.world.holds
    case ReleaseHold(id) => s.sweeper.Idle?
    case WritePayload(d) => s.sweeper.Idle?
    case StartSweep => s.sweeper.Idle?
    case ScanRequest(r) => s.sweeper.Scanning? && r in s.sweeper.owed && r in s.world.requests && r !in s.sweeper.seen
    case FinishMark(p) =>
      && s.sweeper.Scanning? && s.sweeper.owed <= s.sweeper.seen.Keys && !s.world.unreadable
      && forall d :: d in p <==> Protected(AsRead(s.world, s.sweeper.seen), d)
    case SweepOp(op) => s.sweeper.Marked? && Enabled(op, s.store, s.sweeper.protectedDigests)
    case EndSweep => !s.sweeper.Idle?
  }

  ghost function After(s: Sys, step: Step): Sys
    requires CanStep(s, step)
  {
    var w := s.world;
    match step
    case Register(run, inputs, written, completes) =>
      s.(store := s.store.(payloads := s.store.payloads + written),
         world := w.(waves := w.waves[run := inputs],
                     manifests := if completes then w.manifests[run := Manifest(false, {})] else w.manifests))
    case Repair(run) => s.(world := w.(manifests := w.manifests[run := Manifest(false, {})]))
    case SaveRequest(r, run) => s.(world := w.(requests := w.requests[r := BrokerRequest(run, Active, None)]))
    case FinishRequest(r, status, output) =>
      s.(world := w.(requests := w.requests[r := BrokerRequest(w.requests[r].run, status, output)]))
    case AppendAttempt(run, outputs) =>
      s.(world := w.(attemptOutputs :=
        w.attemptOutputs[run := outputs + if run in w.attemptOutputs then w.attemptOutputs[run] else {}]))
    case Deliver(r, delivery) => s.(world := w.(deliveries := w.deliveries[r := delivery]))
    case WriteManifest(run, finish, finals) =>
      s.(world := w.(manifests := w.manifests[run := Manifest(w.manifests[run].terminal || finish, finals)]))
    case Hold(id, digests) => s.(world := w.(holds := w.holds[id := digests]))
    case ReleaseHold(id) => s.(world := w.(holds := w.holds - {id}))
    case WritePayload(d) => s.(store := s.store.(payloads := s.store.payloads + {d}))
    case StartSweep => s.(sweeper := Scanning(w.requests.Keys, map[]))
    case ScanRequest(r) => s.(sweeper := Scanning(s.sweeper.owed, s.sweeper.seen[r := w.requests[r]]))
    case FinishMark(p) => s.(sweeper := Marked(p))
    case SweepOp(op) =>
      s.(store := Apply(op, s.store), removed := if op.Unlink? then s.removed + {op.digest} else s.removed)
    case EndSweep => s.(sweeper := Idle)
  }

  // ---------------------------------------------------------------------------------
  // Invariant
  // ---------------------------------------------------------------------------------

  /** The inputs of every live registered run are in `digests`. */
  ghost predicate Covers(w: World, digests: set<Digest>) {
    forall run :: run in w.waves && Live(w, run) ==> w.waves[run] <= digests
  }

  /** What a marked sweep cannot unlink: what its mark protects and what has a receipt. */
  function OutOfReach(s: Sys): set<Digest>
    requires s.sweeper.Marked?
  {
    s.sweeper.protectedDigests + s.store.receipts.Keys
  }

  /** The requests as the scan under way may end up having read them at worst: what is still to
      be read and in progress may fail first. */
  function Worst(w: World, owed: set<RequestId>, seen: map<RequestId, BrokerRequest>): map<RequestId, BrokerRequest> {
    map r | r in owed && r in w.requests ::
      if r in seen then seen[r]
      else if Terminal(w.requests[r].status) then w.requests[r]
      else BrokerRequest(w.requests[r].run, Failed, None)
  }

  /** The scan under way either blocks the sweep or makes the mark protect `inputs`, apart from
      what a receipt keeps out of reach, however the listed requests move on. */
  ghost predicate MarkWillCover(s: Sys, inputs: set<Digest>)
    requires s.sweeper.Scanning?
  {
    || s.world.unreadable
    || forall d :: d in inputs ==>
         d in s.store.receipts || Protected(AsRead(s.world, Worst(s.world, s.sweeper.owed, s.sweeper.seen)), d)
  }

  /** Only listed requests have been read, and one that was read as ended has ended. */
  ghost predicate ReadsFit(w: World, owed: set<RequestId>, seen: map<RequestId, BrokerRequest>) {
    && seen.Keys <= owed <= w.requests.Keys
    && forall r :: r in seen ==>
         seen[r].run == w.requests[r].run && (Terminal(seen[r].status) ==> Terminal(w.requests[r].status))
  }

  /** Listed live: the mark will find the run live. */
  ghost predicate ListedLive(w: World, owed: set<RequestId>, run: RunId) {
    ManifestOpen(w, run) || exists r :: r in owed && InProgress(w, r, run)
  }

  /** Every live run will be found live, or its inputs will be covered all the same. */
  ghost predicate ScanFits(s: Sys)
    requires s.sweeper.Scanning?
  {
    && ReadsFit(s.world, s.sweeper.owed, s.sweeper.seen)
    && forall run :: run in s.world.waves && Live(s.world, run) ==>
         ListedLive(s.world, s.sweeper.owed, run) || MarkWillCover(s, s.world.waves[run])
  }

  ghost predicate OneRequestEach(w: World) {
    && (forall r :: r in w.requests ==> w.requests[r].run in w.waves)
    && forall r, q :: r in w.requests && q in w.requests && w.requests[r].run == w.requests[q].run ==> r == q
  }

  ghost predicate Invariant(s: Sys) {
    && Keyed(s.store)
    && Covers(s.world, s.store.payloads)
    && (s.sweeper.Marked? ==> Covers(s.world, OutOfReach(s)))
    && (s.sweeper.Scanning? ==> ScanFits(s))
    && Accounted(s.store, s.removed)
    && OneRequestEach(s.world)
  }

  /** Saving a request is safe when the run's manifest is open, or when its inputs are there
      and the sweep under way, if there is one, cannot unlink them. */
  ghost predicate SafeSave(s: Sys, run: RunId)
    requires run in s.world.waves
  {
    || ManifestOpen(s.world, run)
    || (s.world.waves[run] <= s.store.payloads
        && (s.sweeper.Marked? ==> s.world.waves[run] <= OutOfReach(s))
        && (s.sweeper.Scanning? ==> MarkWillCover(s, s.world.waves[run])))
  }

  ghost predicate Careful(s: Sys, step: Step)
    requires CanStep(s, step)
  {
    step.SaveRequest? ==> SafeSave(s, step.run)
  }

  /** No run becomes live, and no live run gets new inputs. */
  ghost predicate NoNewlyLive(a: World, b: World) {
    forall run :: run in b.waves && Live(b, run) ==> run in a.waves && Live(a, run) && a.waves[run] == b.waves[run]
  }

  lemma CoversShrinks(a: World, b: World, digests: set<Digest>, more: set<Digest>)
    requires Covers(a, digests) && NoNewlyLive(a, b) && digests <= more
    ensures Covers(b, more)
  {
  }

  lemma SameLiveness(a: World, b: World)
    requires a.requests == b.requests && a.manifests == b.manifests && a.waves == b.waves
    ensures NoNewlyLive(a, b)
  {
    forall run | run in b.waves && Live(b, run) ensures Live(a, run) {
      if r :| InProgress(b, r, run) {
        assert InProgress(a, r, run);
      } else {
        if BrokerEnded(a, run) {
          var r :| Ended(a, r, run);
          assert Ended(b, r, run);
        }
      }
    }
  }

  /** Saving a request makes at most its own run live. */
  lemma SavingMakesOnlyItsRunLive(s: Sys, step: Step, run: RunId)
    requires step.SaveRequest? && CanStep(s, step) && Live(After(s, step).world, run)
    ensures run == step.run || Live(s.world, run)
    ensures ManifestOpen(s.world, run) ==> Live(s.world, run)
  {
    var a, b := s.world, After(s, step).world;
    if run == step.run {
      forall r ensures !Ended(a, r, run) { assert !OfRun(a, r, run); }
    } else if r :| InProgress(b, r, run) {
      assert InProgress(a, r, run);
    } else {
      if r :| Ended(a, r, run) { assert Ended(b, r, run); }
    }
  }

  lemma SaveCovers(s: Sys, step: Step, digests: set<Digest>)
    requires step.SaveRequest? && CanStep(s, step) && Covers(s.world, digests)
    requires ManifestOpen(s.world, step.run) || s.world.waves[step.run] <= digests
    ensures Covers(After(s, step).world, digests)
  {
    var b := After(s, step).world;
    forall run | run in b.waves && Live(b, run) ensures b.waves[run] <= digests {
      SavingMakesOnlyItsRunLive(s, step, run);
    }
  }

  /** Protection only grows when a request that had failed without output is read otherwise. */
  lemma ProtectedGrows(w: World, a: map<RequestId, BrokerRequest>, b: map<RequestId, BrokerRequest>, d: Digest)
    requires a.Keys == b.Keys
    requires forall r :: r in a ==>
      a[r].run == b[r].run && (a[r] == b[r] || (Terminal(a[r].status) && a[r].output == None))
    requires Protected(AsRead(w, a), d)
    ensures Protected(AsRead(w, b), d)
  {
    var v, u := AsRead(w, a), AsRead(w, b);
    forall run ensures BrokerEnded(u, run) ==> BrokerEnded(v, run) {
      if r :| Ended(u, r, run) { assert Ended(v, r, run); }
    }
    forall run ensures BrokerOwned(u, run) <==> BrokerOwned(v, run) {
      if r :| OfRun(u, r, run) { assert OfRun(v, r, run); }
      if r :| OfRun(v, r, run) { assert OfRun(u, r, run); }
    }
    if r :| RequestProtects(v, r, d) {
      assert RequestProtects(u, r, d);
    } else if h :| HoldProtects(v, h, d) {
      assert HoldProtects(u, h, d);
    } else if run :| FinalProtects(v, run, d) {
      assert FinalProtects(u, run, d);
    } else if run :| AttemptProtects(v, run, d) {
      assert AttemptProtects(u, run, d);
    } else if run :| WaveProtects(v, run, d) {
      if r :| InProgress(v, r, run) { assert InProgress(u, r, run); }
      assert WaveProtects(u, run, d);
    }
  }

  /** What the mark will cover stays covered while the scan goes on. */
  lemma CoverStays(s: Sys, step: Step, inputs: set<Digest>)
    requires s.sweeper.Scanning? && CanStep(s, step) && ReadsFit(s.world, s.sweeper.owed, s.sweeper.seen)
    requires step.SaveRequest? || step.FinishRequest? || step.ScanRequest?
    requires MarkWillCover(s, inputs)
    ensures MarkWillCover(After(s, step), inputs)
  {
    var t := After(s, step);
    var a, b := Worst(s.world, s.sweeper.owed, s.sweeper.seen), Worst(t.world, t.sweeper.owed, t.sweeper.seen);
    if !s.world.unreadable {
      assert forall x :: AsRead(t.world, x) == AsRead(s.world, x);
      forall d | d in inputs && d !in s.store.receipts ensures Protected(AsRead(t.world, b), d) {
        ProtectedGrows(s.world, a, b, d);
      }
    }
  }

  lemma SaveFitsScan(s: Sys, step: Step)
    requires Invariant(s) && step.SaveRequest? && CanStep(s, step) && SafeSave(s, step.run) && s.sweeper.Scanning?
    ensures ScanFits(After(s, step))
  {
    var a, b, owed := s.world, After(s, step).world, s.sweeper.owed;
    forall run | run in b.waves && Live(b, run)
      ensures ListedLive(b, owed, run) || MarkWillCover(After(s, step), b.waves[run])
    {
      SavingMakesOnlyItsRunLive(s, step, run);
      if ListedLive(a, owed, run) {
        if r :| r in owed && InProgress(a, r, run) { assert InProgress(b, r, run); }
      } else {
        CoverStays(s, step, a.waves[run]);
      }
    }
  }

  lemma SaveKeeps(s: Sys, step: Step)
    requires Invariant(s) && step.SaveRequest? && CanStep(s, step) && SafeSave(s, step.run)
    ensures Invariant(After(s, step))
  {
    SaveCovers(s, step, s.store.payloads);
    if s.sweeper.Marked? { SaveCovers(s, step, OutOfReach(s)); }
    if s.sweeper.Scanning? { SaveFitsScan(s, step); }
    forall r | r in s.world.requests ensures s.world.requests[r].run != step.run {
      assert !OfRun(s.world, r, step.run);
    }
  }

  /** A request that ends never brings a run back to life. */
  lemma FinishingKillsOnly(s: Sys, step: Step)
    requires step.FinishRequest? && CanStep(s, step)
    ensures NoNewlyLive(s.world, After(s, step).world)
  {
    var a, b := s.world, After(s, step).world;
    forall run | run in b.waves && Live(b, run) ensures Live(a, run) {
      if r :| InProgress(b, r, run) {
        assert InProgress(a, r, run);
      } else {
        if r :| Ended(a, r, run) { assert Ended(b, r, run); }
      }
    }
  }

  /** A manifest that ended stays ended, so writing one never brings a run back to life. */
  lemma WritingKillsOnly(s: Sys, step: Step)
    requires step.WriteManifest? && CanStep(s, step)
    ensures NoNewlyLive(s.world, After(s, step).world)
  {
    var a, b := s.world, After(s, step).world;
    forall run | run in b.waves && Live(b, run) ensures Live(a, run) {
      if r :| InProgress(b, r, run) {
        assert InProgress(a, r, run);
      } else {
        if r :| Ended(a, r, run) { assert Ended(b, r, run); }
      }
    }
  }

  /** A registration makes at most its own run live, with its inputs checked. */
  lemma RegisteringCovers(s: Sys, step: Step)
    requires Invariant(s) && (step.Register? || step.Repair?) && CanStep(s, step)
    ensures Covers(After(s, step).world, After(s, step).store.payloads)
  {
    var a, b := s.world, After(s, step).world;
    forall run | run in b.waves && Live(b, run) ensures b.waves[run] <= After(s, step).store.payloads {
      if run != step.run {
        if r :| InProgress(b, r, run) {
          assert InProgress(a, r, run);
        } else {
          if r :| Ended(a, r, run) { assert Ended(b, r, run); }
        }
        assert Live(a, run);
      }
    }
  }

  /** Although requests move on while they are read, every run that is live when the mark is
      complete is live in what it read, if it is listed at all. */
  lemma LiveAsRead(w: World, owed: set<RequestId>, seen: map<RequestId, BrokerRequest>, run: RunId)
    requires ReadsFit(w, owed, seen) && owed <= seen.Keys && OneRequestEach(w)
    requires run in w.waves && Live(w, run) && ListedLive(w, owed, run)
    ensures Live(AsRead(w, seen), run)
  {
    var v := AsRead(w, seen);
    if r :| r in owed && InProgress(w, r, run) {
      assert InProgress(v, r, run);
    } else {
      forall r ensures !Ended(v, r, run) {
        assert Ended(v, r, run) ==> Ended(w, r, run);
      }
    }
  }

  lemma WorstIsSeen(w: World, owed: set<RequestId>, seen: map<RequestId, BrokerRequest>)
    requires ReadsFit(w, owed, seen) && owed <= seen.Keys
    ensures Worst(w, owed, seen) == seen
  {
  }

  lemma MarkedInputs(s: Sys, p: set<Digest>, run: RunId, d: Digest)
    requires Invariant(s) && CanStep(s, FinishMark(p))
    requires run in s.world.waves && Live(s.world, run) && d in s.world.waves[run]
    ensures d in p || d in s.store.receipts
  {
    var w, owed, seen := s.world, s.sweeper.owed, s.sweeper.seen;
    var v := AsRead(w, seen);
    if ListedLive(w, owed, run) {
      LiveAsRead(w, owed, seen, run);
      assert WaveProtects(v, run, d);
    } else {
      assert MarkWillCover(s, w.waves[run]);
      WorstIsSeen(w, owed, seen);
      assert d in s.store.receipts || Protected(v, d);
    }
  }

  lemma FinishMarkKeeps(s: Sys, step: Step)
    requires Invariant(s) && step.FinishMark? && CanStep(s, step)
    ensures Invariant(After(s, step))
  {
    var w, t := s.world, After(s, step);
    forall run | run in w.waves && Live(w, run) ensures w.waves[run] <= OutOfReach(t) {
      forall d | d in w.waves[run] ensures d in OutOfReach(t) { MarkedInputs(s, step.protectedDigests, run, d); }
    }
  }

  lemma StartSweepKeeps(s: Sys, step: Step)
    requires Invariant(s) && step.StartSweep? && CanStep(s, step)
    ensures Invariant(After(s, step))
  {
    var w := s.world;
    forall run | run in w.waves && Live(w, run) ensures ListedLive(w, w.requests.Keys, run) {
      if r :| InProgress(w, r, run) { assert r in w.requests.Keys; }
    }
  }

  lemma ScanRequestKeeps(s: Sys, step: Step)
    requires Invariant(s) && step.ScanRequest? && CanStep(s, step)
    ensures Invariant(After(s, step))
  {
    var w := s.world;
    forall run | run in w.waves && Live(w, run) && !ListedLive(w, s.sweeper.owed, run)
      ensures MarkWillCover(After(s, step), w.waves[run])
    {
      CoverStays(s, step, w.waves[run]);
    }
  }

  /** A sweep only ever unlinks what no live run needs, and only what is on record. */
  lemma SweepOpKeeps(s: Sys, op: Op)
    requires Invariant(s) && CanStep(s, SweepOp(op))
    ensures Invariant(After(s, SweepOp(op)))
  {
    OpAccounted(s.store, op, s.sweeper.protectedDigests, s.removed);
    var t := After(s, SweepOp(op));
    forall run | run in t.world.waves && Live(t.world, run)
      ensures t.world.waves[run] <= t.store.payloads && t.world.waves[run] <= OutOfReach(t)
    {
      forall d | d in t.world.waves[run] ensures d in t.store.payloads && d in OutOfReach(t) {
        assert d in s.store.payloads && d in OutOfReach(s);
      }
    }
  }

  lemma ShrinkFitsScan(s: Sys, step: Step)
    requires Invariant(s) && step.FinishRequest? && CanStep(s, step) && s.sweeper.Scanning?
    ensures ScanFits(After(s, step))
  {
    var a, b, owed := s.world, After(s, step).world, s.sweeper.owed;
    FinishingKillsOnly(s, step);
    forall run | run in b.waves && Live(b, run)
      ensures ListedLive(b, owed, run) || MarkWillCover(After(s, step), b.waves[run])
    {
      if !ListedLive(a, owed, run) {
        CoverStays(s, step, a.waves[run]);
      } else if !ManifestOpen(a, run) {
        var r :| r in owed && InProgress(a, r, run);
        var q :| InProgress(b, q, run);
        assert q == r;
      }
    }
  }

  lemma LivenessStepKeeps(s: Sys, step: Step)
    requires Invariant(s) && CanStep(s, step) && (step.FinishRequest? || step.WriteManifest?)
    ensures Invariant(After(s, step))
  {
    if step.FinishRequest? { FinishingKillsOnly(s, step); }
    if step.WriteManifest? { WritingKillsOnly(s, step); }
    var t := After(s, step);
    CoversShrinks(s.world, t.world, s.store.payloads, t.store.payloads);
    if s.sweeper.Marked? { CoversShrinks(s.world, t.world, OutOfReach(s), OutOfReach(t)); }
    if s.sweeper.Scanning? { ShrinkFitsScan(s, step); }
  }

  lemma RecordStepKeeps(s: Sys, step: Step)
    requires Invariant(s) && CanStep(s, step)
    requires step.AppendAttempt? || step.Deliver? || step.Hold? || step.ReleaseHold? || step.WritePayload?
    ensures Invariant(After(s, step))
  {
    var t := After(s, step);
    SameLiveness(s.world, t.world);
    CoversShrinks(s.world, t.world, s.store.payloads, t.store.payloads);
  }

  lemma LockStepKeeps(s: Sys, step: Step)
    requires Invariant(s) && CanStep(s, step)
    requires step.Register? || step.Repair? || step.EndSweep?
    ensures Invariant(After(s, step))
  {
    if step.Register? || step.Repair? { RegisteringCovers(s, step); }
  }

  lemma StepKeepsInvariant(s: Sys, step: Step)
    requires Invariant(s) && CanStep(s, step) && Careful(s, step)
    ensures Invariant(After(s, step))
  {
    match step
    case SweepOp(op) => SweepOpKeeps(s, op);
    case SaveRequest(_, _) => SaveKeeps(s, step);
    case FinishRequest(_, _, _) => LivenessStepKeeps(s, step);
    case WriteManifest(_, _, _) => LivenessStepKeeps(s, step);
    case AppendAttempt(_, _) => RecordStepKeeps(s, step);
    case Deliver(_, _) => RecordStepKeeps(s, step);
    case Hold(_, _) => RecordStepKeeps(s, step);
    case ReleaseHold(_) => RecordStepKeeps(s, step);
    case WritePayload(_) => RecordStepKeeps(s, step);
    case Register(_, _, _, _) => LockStepKeeps(s, step);
    case Repair(_) => LockStepKeeps(s, step);
    case StartSweep => StartSweepKeeps(s, step);
    case ScanRequest(_) => ScanRequestKeeps(s, step);
    case FinishMark(_) => FinishMarkKeeps(s, step);
    case EndSweep => LockStepKeeps(s, step);
  }

  // ---------------------------------------------------------------------------------
  // Whole runs
  // ---------------------------------------------------------------------------------

  ghost predicate Initial(s: Sys) {
    && s.world.requests == map[] && s.world.manifests == map[] && s.world.waves == map[]
    && s.store.intents == map[] && s.store.receipts == map[] && s.removed == {} && s.sweeper == Idle
  }

  /** The steps can be taken one after another. */
  ghost predicate Runs(s: Sys, steps: seq<Step>)
    decreases |steps|
  {
    steps != [] ==> CanStep(s, steps[0]) && Runs(After(s, steps[0]), steps[1..])
  }

  ghost function Reached(s: Sys, steps: seq<Step>): Sys
    requires Runs(s, steps)
    decreases |steps|
  {
    if steps == [] then s else Reached(After(s, steps[0]), steps[1..])
  }

  /** Every request is saved when that is safe. */
  ghost predicate AllCareful(s: Sys, steps: seq<Step>)
    requires Runs(s, steps)
    decreases |steps|
  {
    steps != [] ==> Careful(s, steps[0]) && AllCareful(After(s, steps[0]), steps[1..])
  }

  lemma {:induction false} InvariantReached(s: Sys, steps: seq<Step>)
    requires Invariant(s) && Runs(s, steps) && AllCareful(s, steps)
    ensures Invariant(Reached(s, steps))
    decreases |steps|
  {
    if steps != [] {
      StepKeepsInvariant(s, steps[0]);
      InvariantReached(After(s, steps[0]), steps[1..]);
    }
  }

  ghost predicate Attempted(s: Sys, run: RunId, d: Digest) {
    run in s.world.attemptOutputs && d in s.world.attemptOutputs[run]
  }

  /** What is recorded of a run's attempts, before or by any step of a run, stays recorded. */
  lemma {:induction false} AttemptsKept(s: Sys, steps: seq<Step>, run: RunId, d: Digest, k: nat)
    requires Runs(s, steps)
    requires Attempted(s, run, d) ||
      (k < |steps| && steps[k].AppendAttempt? && steps[k].run == run && d in steps[k].outputs)
    ensures Attempted(Reached(s, steps), run, d)
    decreases |steps|
  {
    if steps != [] {
      AttemptsKept(After(s, steps[0]), steps[1..], run, d, if k > 0 then k - 1 else |steps|);
    }
  }

  /** A payload that was there and is gone was removed. */
  lemma {:induction false} LostWasRemoved(s: Sys, steps: seq<Step>, d: Digest)
    requires Runs(s, steps) && (d in s.store.payloads || d in s.removed)
    ensures d in Reached(s, steps).store.payloads || d in Reached(s, steps).removed
    decreases |steps|
  {
    if steps != [] { LostWasRemoved(After(s, steps[0]), steps[1..], d); }
  }

  lemma {:induction false} RunsOn(s: Sys, steps: seq<Step>, k: nat)
    requires Runs(s, steps) && k <= |steps|
    ensures Runs(s, steps[..k]) && Runs(Reached(s, steps[..k]), steps[k..])
    ensures Reached(s, steps) == Reached(Reached(s, steps[..k]), steps[k..])
    decreases |steps|
  {
    if k > 0 {
      assert steps[..k][0] == steps[0] && steps[..k][1..] == steps[1..][..k - 1] && steps[1..][k - 1..] == steps[k..];
      RunsOn(After(s, steps[0]), steps[1..], k - 1);
    }
  }

  /** The payload was there after the first `k` steps of the run. */
  ghost predicate PresentAt(s: Sys, steps: seq<Step>, k: nat, d: Digest)
    requires Runs(s, steps) && k <= |steps|
  {
    RunsOn(s, steps, k);
    d in Reached(s, steps[..k]).store.payloads
  }

  /** Garbage collection is safe over whole runs in which requests are saved when that is
      safe: in every reachable state each input of every live registered run has its payload,
      and each payload that was there after any of the steps before and is gone has a durable
      intent or receipt. */
  lemma SafeOverRuns(s: Sys, steps: seq<Step>, run: RunId, d: Digest, k: nat)
    requires Initial(s) && Runs(s, steps) && AllCareful(s, steps) && k <= |steps|
    ensures var t := Reached(s, steps);
      && (run in t.world.waves && Live(t.world, run) && d in t.world.waves[run] ==> d in t.store.payloads)
      && (PresentAt(s, steps, k, d) && d !in t.store.payloads ==> d in t.store.intents || d in t.store.receipts)
  {
    InvariantReached(s, steps);
    if PresentAt(s, steps, k, d) {
      RunsOn(s, steps, k);
      LostWasRemoved(Reached(s, steps[..k]), steps[k..], d);
    }
  }

  // ---------------------------------------------------------------------------------
  // When saving a request is safe
  // ---------------------------------------------------------------------------------

  /** Live inputs stay present however the run goes on. */
  ghost predicate StaysSafe(s: Sys) {
    forall steps :: Runs(s, steps) && AllCareful(s, steps) ==>
        Covers(Reached(s, steps).world, Reached(s, steps).store.payloads)
  }

  lemma StepThen(s: Sys, step: Step, rest: seq<Step>)
    requires CanStep(s, step) && Runs(After(s, step), rest)
    ensures Runs(s, [step] + rest) && Reached(s, [step] + rest) == Reached(After(s, step), rest)
    ensures Careful(s, step) && AllCareful(After(s, step), rest) ==> AllCareful(s, [step] + rest)
  {
    assert ([step] + rest)[1..] == rest;
  }

  function NewIntent(d: Digest): Intent {
    Intent(d, 0, Metadata([], None, None, None, None, None), 0, Normal, 0)
  }

  /** A marked sweep can unlink any payload that is not out of its reach. */
  lemma SweepCanUnlink(s: Sys, d: Digest) returns (steps: seq<Step>)
    requires Keyed(s.store) && s.sweeper.Marked? && d in s.store.payloads && d !in OutOfReach(s)
    ensures Runs(s, steps) && AllCareful(s, steps)
    ensures Reached(s, steps).world == s.world && d !in Reached(s, steps).store.payloads
  {
    var unlink := SweepOp(Unlink(d));
    if d in s.store.intents {
      StepThen(s, unlink, []);
      steps := [unlink] + [];
    } else {
      var save := SweepOp(SaveIntent(NewIntent(d)));
      var mid := After(s, save);
      StepThen(mid, unlink, []);
      StepThen(s, save, [unlink] + []);
      steps := [save] + ([unlink] + []);
    }
  }

  /** Every digest a mark could protect. */
  function Mentioned(w: World): set<Digest> {
    (set r | r in w.requests && w.requests[r].output.Some? :: w.requests[r].output.value)
    + (set h, d | h in w.holds && d in w.holds[h] :: d)
    + (set run, d | run in w.manifests && d in w.manifests[run].finalOutputs :: d)
    + (set run, d | run in w.attemptOutputs && d in w.attemptOutputs[run] :: d)
    + (set run, d | run in w.waves && d in w.waves[run] :: d) + w.external
  }

  lemma MarkExists(w: World) returns (p: set<Digest>)
    ensures forall d :: d in p <==> Protected(w, d)
  {
    p := set d | d in Mentioned(w) && Protected(w, d);
    forall d | Protected(w, d) ensures d in Mentioned(w) {
      if r :| RequestProtects(w, r, d) {
        assert w.requests[r].output.value == d;
      } else if h :| HoldProtects(w, h, d) {
      } else if run :| FinalProtects(w, run, d) {
      } else if run :| AttemptProtects(w, run, d) {
      } else if run :| WaveProtects(w, run, d) {
      }
    }
  }

  /** The rest of a scan leaves alone what it does not read. */
  ghost predicate ScannedOn(s: Sys, t: Sys) {
    && s.sweeper.Scanning? && t.store == s.store && t.world == s.world.(requests := t.world.requests)
    && forall r :: r in s.world.requests && r !in s.sweeper.owed ==>
         r in t.world.requests && t.world.requests[r] == s.world.requests[r]
  }

  /** Fails a listed request that is still in progress, then reads it. */
  lemma FailAndRead(s: Sys, r: RequestId) returns (steps: seq<Step>)
    requires s.sweeper.Scanning? && ReadsFit(s.world, s.sweeper.owed, s.sweeper.seen)
    requires r in s.sweeper.owed && r !in s.sweeper.seen
    ensures Runs(s, steps) && AllCareful(s, steps)
    ensures var t := Reached(s, steps);
      && ScannedOn(s, t) && t.sweeper.Scanning? && t.sweeper.owed == s.sweeper.owed && r in t.sweeper.seen
      && t.sweeper.seen.Keys == s.sweeper.seen.Keys + {r}
      && ReadsFit(t.world, t.sweeper.owed, t.sweeper.seen)
      && Worst(t.world, t.sweeper.owed, t.sweeper.seen) == Worst(s.world, s.sweeper.owed, s.sweeper.seen)
  {
    var read, fail := ScanRequest(r), FinishRequest(r, Failed, None);
    if Terminal(s.world.requests[r].status) {
      StepThen(s, read, []);
      steps := [read] + [];
    } else {
      var mid := After(s, fail);
      StepThen(mid, read, []);
      StepThen(s, fail, [read] + []);
      steps := [fail] + ([read] + []);
    }
  }

  /** The scan can end so that the mark protects no more than it must. */
  lemma {:induction false} ScanAtWorst(s: Sys, d: Digest) returns (steps: seq<Step>)
    requires s.sweeper.Scanning? && ReadsFit(s.world, s.sweeper.owed, s.sweeper.seen) && !s.world.unreadable
    requires !Protected(AsRead(s.world, Worst(s.world, s.sweeper.owed, s.sweeper.seen)), d)
    ensures Runs(s, steps) && AllCareful(s, steps)
    ensures var t := Reached(s, steps); ScannedOn(s, t) && t.sweeper.Marked? && d !in t.sweeper.protectedDigests
    decreases s.sweeper.owed - s.sweeper.seen.Keys
  {
    if !(s.sweeper.owed <= s.sweeper.seen.Keys) {
      var owed, read := s.sweeper.owed, s.sweeper.seen.Keys;
      assert (forall r :: r in owed ==> r in read) ==> owed <= read;
      var r :| r in owed && r !in read;
      var first := FailAndRead(s, r);
      var t := Reached(s, first);
      var rest := ScanAtWorst(t, d);
      RunThen(s, first, rest);
      steps := first + rest;
    } else {
      WorstIsSeen(s.world, s.sweeper.owed, s.sweeper.seen);
      var p := MarkExists(AsRead(s.world, s.sweeper.seen));
      StepThen(s, FinishMark(p), []);
      steps := [FinishMark(p)] + [];
    }
  }

  lemma UnsafeNow(t: Sys, run: RunId)
    requires run in t.world.waves && Live(t.world, run) && !(t.world.waves[run] <= t.store.payloads)
    ensures !StaysSafe(t)
  {
    assert Runs(t, []) && Reached(t, []) == t;
    assert !Covers(Reached(t, []).world, Reached(t, []).store.payloads);
  }

  lemma UnsafeMarked(t: Sys, run: RunId)
    requires Keyed(t.store) && run in t.world.waves && Live(t.world, run) && t.sweeper.Marked?
    requires t.world.waves[run] <= t.store.payloads && !(t.world.waves[run] <= OutOfReach(t))
    ensures !StaysSafe(t)
  {
    var inputs, reach := t.world.waves[run], OutOfReach(t);
    assert (forall d :: d in inputs ==> d in reach) ==> inputs <= reach;
    var d :| d in inputs && d !in reach;
    var steps := SweepCanUnlink(t, d);
    assert !Covers(Reached(t, steps).world, Reached(t, steps).store.payloads);
  }

  lemma UnsafeScanning(t: Sys, request: RequestId, run: RunId)
    requires Keyed(t.store) && run in t.world.waves && InProgress(t.world, request, run)
    requires t.sweeper.Scanning? && ReadsFit(t.world, t.sweeper.owed, t.sweeper.seen) && request !in t.sweeper.owed
    requires t.world.waves[run] <= t.store.payloads && !MarkWillCover(t, t.world.waves[run])
    ensures !StaysSafe(t)
  {
    var d :| d in t.world.waves[run] && d !in t.store.receipts
      && !Protected(AsRead(t.world, Worst(t.world, t.sweeper.owed, t.sweeper.seen)), d);
    var scan := ScanAtWorst(t, d);
    var u := Reached(t, scan);
    var sweep := SweepCanUnlink(u, d);
    RunThen(t, scan, sweep);
    assert InProgress(u.world, request, run) && Live(u.world, run);
    assert !Covers(Reached(t, scan + sweep).world, Reached(t, scan + sweep).store.payloads);
  }

  /** The condition under which saving a request is safe is exact: if it fails, a live run has
      lost an input already, or the sweep under way can take one from it. */
  lemma SaveSafeIff(s: Sys, step: Step)
    requires Invariant(s) && step.SaveRequest? && CanStep(s, step)
    ensures SafeSave(s, step.run) <==> StaysSafe(After(s, step))
  {
    var t, run := After(s, step), step.run;
    if SafeSave(s, run) {
      SaveKeeps(s, step);
      forall steps | Runs(t, steps) && AllCareful(t, steps)
        ensures Covers(Reached(t, steps).world, Reached(t, steps).store.payloads)
      {
        InvariantReached(t, steps);
      }
    } else {
      assert InProgress(t.world, step.request, run) && Live(t.world, run);
      if !(s.world.waves[run] <= s.store.payloads) {
        UnsafeNow(t, run);
      } else if s.sweeper.Marked? {
        UnsafeMarked(t, run);
      } else {
        SaveLeavesScan(s, step);
        UnsafeScanning(t, step.request, run);
      }
    }
  }

  lemma SaveLeavesScan(s: Sys, step: Step)
    requires s.sweeper.Scanning? && ReadsFit(s.world, s.sweeper.owed, s.sweeper.seen)
    requires step.SaveRequest? && CanStep(s, step)
    ensures var t := After(s, step);
      && ReadsFit(t.world, t.sweeper.owed, t.sweeper.seen) && step.request !in t.sweeper.owed
      && (MarkWillCover(t, s.world.waves[step.run]) <==> MarkWillCover(s, s.world.waves[step.run]))
  {
    var t := After(s, step);
    assert Worst(t.world, t.sweeper.owed, t.sweeper.seen) == Worst(s.world, s.sweeper.owed, s.sweeper.seen);
    assert forall x :: AsRead(t.world, x) == AsRead(s.world, x);
  }

  // ---------------------------------------------------------------------------------
  // When every save is safe
  // ---------------------------------------------------------------------------------

  /** A registration that completes, or an end of a run whose request was saved before. */
  ghost predicate Orderly(s: Sys, step: Step) {
    && (step.Register? ==> step.completes)
    && (step.WriteManifest? && step.finish ==> BrokerOwned(s.world, step.run))
  }

  ghost predicate AllOrderly(s: Sys, steps: seq<Step>)
    requires Runs(s, steps)
    decreases |steps|
  {
    steps != [] ==> Orderly(s, steps[0]) && AllOrderly(After(s, steps[0]), steps[1..])
  }

  /** A registered run whose request was never saved has an open manifest. */
  ghost predicate OpenUntilSaved(w: World) {
    forall run :: run in w.waves && !BrokerOwned(w, run) ==> ManifestOpen(w, run)
  }

  lemma OrderlyKeepsOpen(s: Sys, step: Step)
    requires OpenUntilSaved(s.world) && CanStep(s, step) && Orderly(s, step)
    ensures OpenUntilSaved(After(s, step).world)
  {
    var a, b := s.world, After(s, step).world;
    forall run | run in b.waves && !BrokerOwned(b, run) ensures ManifestOpen(b, run) {
      if r :| OfRun(a, r, run) { assert OfRun(b, r, run); }
      assert !BrokerOwned(a, run);
    }
  }

  lemma {:induction false} OrderlyIsCareful(s: Sys, steps: seq<Step>)
    requires OpenUntilSaved(s.world) && Runs(s, steps) && AllOrderly(s, steps)
    ensures AllCareful(s, steps)
    decreases |steps|
  {
    if steps != [] {
      OrderlyKeepsOpen(s, steps[0]);
      OrderlyIsCareful(After(s, steps[0]), steps[1..]);
    }
  }

  /** Garbage collection is safe in every run in which registrations complete and no run is
      ended before its request was saved: then every save is safe of itself. */
  lemma SafeWhenOrderly(s: Sys, steps: seq<Step>, run: RunId, d: Digest, k: nat)
    requires Initial(s) && Runs(s, steps) && AllOrderly(s, steps) && k <= |steps|
    ensures var t := Reached(s, steps);
      && (run in t.world.waves && Live(t.world, run) && d in t.world.waves[run] ==> d in t.store.payloads)
      && (PresentAt(s, steps, k, d) && d !in t.store.payloads ==> d in t.store.intents || d in t.store.receipts)
  {
    OrderlyIsCareful(s, steps);
    SafeOverRuns(s, steps, run, d, k);
  }

  // ---------------------------------------------------------------------------------
  // Counterexamples
  // ---------------------------------------------------------------------------------

  lemma {:induction false} RunThen(s: Sys, first: seq<Step>, rest: seq<Step>)
    requires Runs(s, first) && Runs(Reached(s, first), rest)
    ensures Runs(s, first + rest) && Reached(s, first + rest) == Reached(Reached(s, first), rest)
    ensures AllCareful(s, first) && AllCareful(Reached(s, first), rest) ==> AllCareful(s, first + rest)
    decreases |first|
  {
    if first == [] {
      assert first + rest == rest;
    } else {
      assert (first + rest)[1..] == first[1..] + rest;
      RunThen(After(s, first[0]), first[1..], rest);
    }
  }

  ghost predicate NoRecords(s: Sys) {
    && Initial(s) && s.world.deliveries == map[] && s.world.holds == map[] && s.world.external == {}
    && s.world.attemptOutputs == map[] && !s.world.unreadable
  }

  /** A registration crashed before it wrote the manifest, and a sweep has listed the request
      files, of which there are none. */
  ghost predicate HalfRegistered(s: Sys, d: Digest, run: RunId) {
    && s.sweeper == Scanning({}, map[]) && s.world.requests == map[] && s.world.manifests == map[]
    && s.world.waves == map[run := {d}] && d in s.store.payloads
    && s.store.intents == map[] && s.store.receipts == map[]
    && s.world.holds == map[] && s.world.external == {} && !s.world.unreadable
  }

  lemma RegistrationCrashes(s: Sys, d: Digest, run: RunId) returns (steps: seq<Step>)
    requires NoRecords(s)
    ensures Runs(s, steps) && HalfRegistered(Reached(s, steps), d, run)
  {
    var register := Register(run, {d}, {d}, false);
    StepThen(After(s, register), StartSweep, []);
    StepThen(s, register, [StartSweep] + []);
    steps := [register] + ([StartSweep] + []);
  }

  lemma NothingProtected(w: World, d: Digest)
    requires w.manifests == map[] && w.holds == map[] && w.external == {}
    ensures !Protected(AsRead(w, map[]), d)
  {
  }

  /** Such a sweep protects nothing, so it can unlink the input. */
  lemma SweepTakesInput(s: Sys, d: Digest) returns (steps: seq<Step>)
    requires s.sweeper == Scanning({}, map[]) && !s.world.unreadable && d in s.store.payloads
    requires s.world.manifests == map[] && s.world.holds == map[] && s.world.external == {}
    requires s.store.intents == map[] && s.store.receipts == map[]
    ensures Runs(s, steps) && Reached(s, steps).world == s.world && d !in Reached(s, steps).store.payloads
    ensures !Reached(s, steps).sweeper.Idle?
  {
    forall x ensures !Protected(AsRead(s.world, map[]), x) { NothingProtected(s.world, x); }
    var marked := After(s, FinishMark({}));
    var save, unlink := SweepOp(SaveIntent(NewIntent(d))), SweepOp(Unlink(d));
    StepThen(After(marked, save), unlink, []);
    StepThen(marked, save, [unlink] + []);
    StepThen(s, FinishMark({}), [save] + ([unlink] + []));
    steps := [FinishMark({})] + ([save] + ([unlink] + []));
  }

  /** The code saves a recovered request whatever became of the run's inputs. Here a
      registration crashes before it writes the manifest, a sweep removes the input of the
      run, which is not live, and the recovered request makes the run live without it. */
  lemma RecoveryCanLoseInputs(s: Sys, d: Digest, run: RunId, request: RequestId) returns (steps: seq<Step>)
    requires NoRecords(s)
    ensures Runs(s, steps)
    ensures var t := Reached(s, steps);
      Live(t.world, run) && run in t.world.waves && t.world.waves[run] == {d} && d !in t.store.payloads
  {
    var first := RegistrationCrashes(s, d, run);
    var b := Reached(s, first);
    var swept := SweepTakesInput(b, d);
    RunThen(s, first, swept);
    var f := Reached(b, swept);
    var g := After(f, EndSweep);
    var save := SaveRequest(request, run);
    assert !BrokerOwned(g.world, run);
    assert InProgress(After(g, save).world, request, run);
    StepThen(g, save, []);
    StepThen(f, EndSweep, [save] + []);
    RunThen(s, first + swept, [EndSweep] + ([save] + []));
    steps := first + swept + ([EndSweep] + ([save] + []));
  }

  /** While a scan is under way, present inputs are not enough: a request saved after the
      request files were listed is not read, and the input goes although it was there. */
  lemma ScanCanMissRecovery(s: Sys, d: Digest, run: RunId, request: RequestId)
    returns (before: seq<Step>, after: seq<Step>)
    requires NoRecords(s)
    ensures Runs(s, before) && HalfRegistered(Reached(s, before), d, run)
    ensures var m, save := Reached(s, before), SaveRequest(request, run);
      CanStep(m, save) && Runs(After(m, save), after) &&
      Live(Reached(After(m, save), after).world, run) && d !in Reached(After(m, save), after).store.payloads
  {
    before := RegistrationCrashes(s, d, run);
    var m, save := Reached(s, before), SaveRequest(request, run);
    assert !BrokerOwned(m.world, run);
    assert InProgress(After(m, save).world, request, run);
    after := SweepTakesInput(After(m, save), d);
  }

  function SweepSteps(ops: seq<Op>): seq<Step> {
    if ops == [] then [] else [SweepOp(ops[0])] + SweepSteps(ops[1..])
  }

  /** The operations of a locked apply are steps of this system, so what holds over every run
      holds at every crash point of the apply. */
  lemma {:induction false} AppliesAreRuns(s: Sys, ops: seq<Op>, t: Store)
    requires s.sweeper.Marked? && Performs(s.store, ops, s.sweeper.protectedDigests, t)
    ensures Runs(s, SweepSteps(ops))
    ensures Reached(s, SweepSteps(ops)).store == t && Reached(s, SweepSteps(ops)).world == s.world
    decreases |ops|
  {
    if ops != [] {
      var next := After(s, SweepOp(ops[0]));
      assert SweepSteps(ops)[1..] == SweepSteps(ops[1..]);
      AppliesAreRuns(next, ops[1..], t);
    }
  }
}
