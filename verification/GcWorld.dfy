/** Authoritative lifecycle records, and the mark phase over them. */
module GcWorld {
  import opened Results

  type Digest = int
  type RequestId = int
  type RunId = int

  /** A broker request is in progress, or in one of its four terminal statuses. */
  datatype BrokerStatus = Active | Succeeded | Exhausted | Failed | Cancelled

  predicate Terminal(s: BrokerStatus) {
    s != Active
  }

  predicate TransportsOutput(s: BrokerStatus) {
    s == Succeeded || s == Exhausted
  }

  datatype BrokerRequest = BrokerRequest(run: RunId, status: BrokerStatus, output: Option<Digest>)

  datatype Delivery = Delivery(digest: Digest, size: int, producer: Option<int>, consumer: int,
                               provenance: int, createdAt: Option<int>, deliveredAt: int)

  datatype Manifest = Manifest(terminal: bool, finalOutputs: set<Digest>)

  /** Everything the mark phase reads. `unreadable` says some record could not be parsed. */
  datatype World = World(
    requests: map<RequestId, BrokerRequest>, deliveries: map<RequestId, Delivery>,
    holds: map<int, set<Digest>>, manifests: map<RunId, Manifest>,
    attemptOutputs: map<RunId, set<Digest>>, waves: map<RunId, set<Digest>>,
    external: set<Digest>, unreadable: bool)

  // ---------------------------------------------------------------------------------
  // What is live and what is protected
  // ---------------------------------------------------------------------------------

  predicate OfRun(w: World, r: RequestId, run: RunId) {
    r in w.requests && w.requests[r].run == run
  }

  predicate InProgress(w: World, r: RequestId, run: RunId) {
    OfRun(w, r, run) && !Terminal(w.requests[r].status)
  }

  predicate Ended(w: World, r: RequestId, run: RunId) {
    OfRun(w, r, run) && Terminal(w.requests[r].status)
  }

  ghost predicate BrokerEnded(w: World, run: RunId) {
    exists r :: Ended(w, r, run)
  }

  ghost predicate BrokerOwned(w: World, run: RunId) {
    exists r :: OfRun(w, r, run)
  }

  predicate ManifestOpen(w: World, run: RunId) {
    run in w.manifests && !w.manifests[run].terminal
  }

  /** A run is live while a broker request for it is in progress, or while its manifest is
      open and no broker request for it has ended. */
  ghost predicate Live(w: World, run: RunId) {
    (exists r :: InProgress(w, r, run)) || (ManifestOpen(w, run) && !BrokerEnded(w, run))
  }

  predicate RequestProtects(w: World, r: RequestId, d: Digest) {
    && r in w.requests && w.requests[r].output == Some(d)
    && (!Terminal(w.requests[r].status) || (w.requests[r].status == Succeeded && r !in w.deliveries))
  }

  predicate HoldProtects(w: World, h: int, d: Digest) {
    h in w.holds && d in w.holds[h]
  }

  ghost predicate FinalProtects(w: World, run: RunId, d: Digest) {
    && run in w.manifests && d in w.manifests[run].finalOutputs
    && !(BrokerOwned(w, run) && w.manifests[run].terminal && BrokerEnded(w, run))
  }

  ghost predicate AttemptProtects(w: World, run: RunId, d: Digest) {
    && ManifestOpen(w, run) && !BrokerEnded(w, run)
    && run in w.attemptOutputs && d in w.attemptOutputs[run]
  }

  ghost predicate WaveProtects(w: World, run: RunId, d: Digest) {
    Live(w, run) && run in w.waves && d in w.waves[run]
  }

  /** What a mark over the whole world must protect. */
  ghost predicate Protected(w: World, d: Digest) {
    || (exists r :: RequestProtects(w, r, d)) || (exists h :: HoldProtects(w, h, d))
    || (exists run :: FinalProtects(w, run, d)) || (exists run :: AttemptProtects(w, run, d))
    || (exists run :: WaveProtects(w, run, d)) || d in w.external
  }

  // ---------------------------------------------------------------------------------
  // The same, read off the records field by field
  // ---------------------------------------------------------------------------------

  predicate RequestWants(w: World, r: RequestId, d: Digest) {
    && r in w.requests && w.requests[r].output == Some(d)
    && (w.requests[r].status == Active || (w.requests[r].status == Succeeded && r !in w.deliveries))
  }

  predicate ActiveFor(w: World, r: RequestId, run: RunId) {
    r in w.requests && w.requests[r].run == run && w.requests[r].status == Active
  }

  /** No request for the run has reached one of the four terminal statuses. */
  ghost predicate NoneEnded(w: World, run: RunId) {
    forall r :: r in w.requests && w.requests[r].run == run ==> w.requests[r].status == Active
  }

  ghost predicate OpenFor(w: World, run: RunId) {
    run in w.manifests && !w.manifests[run].terminal && NoneEnded(w, run)
  }

  ghost predicate InputWanted(w: World, run: RunId, d: Digest) {
    run in w.waves && d in w.waves[run] && ((exists r :: ActiveFor(w, r, run)) || OpenFor(w, run))
  }

  ghost predicate AttemptWanted(w: World, run: RunId, d: Digest) {
    run in w.attemptOutputs && d in w.attemptOutputs[run] && OpenFor(w, run)
  }

  ghost predicate FinalWanted(w: World, run: RunId, d: Digest) {
    run in w.manifests && d in w.manifests[run].finalOutputs && (!w.manifests[run].terminal || NoneEnded(w, run))
  }

  /** Some record asks for the digest: as the output of a request in progress or of a succeeded
      one not delivered; as an input of a run with a request in progress, or with an open
      manifest and none that ended; as an attempt's output of such an open run; as a final
      output whose manifest is open or whose run has no request that ended; under a hold; or
      from outside. */
  ghost predicate Wanted(w: World, d: Digest) {
    || (exists r :: RequestWants(w, r, d)) || (exists run :: InputWanted(w, run, d))
    || (exists run :: AttemptWanted(w, run, d)) || (exists run :: FinalWanted(w, run, d))
    || (exists h :: h in w.holds && d in w.holds[h]) || d in w.external
  }

  lemma EndedMeans(w: World, run: RunId)
    ensures BrokerEnded(w, run) <==> !NoneEnded(w, run)
    ensures BrokerEnded(w, run) ==> BrokerOwned(w, run)
  {
    if !NoneEnded(w, run) {
      var r :| r in w.requests && w.requests[r].run == run && w.requests[r].status != Active;
      assert Ended(w, r, run);
    }
    if BrokerEnded(w, run) {
      var r :| Ended(w, r, run);
      assert OfRun(w, r, run);
    }
  }

  lemma RunWants(w: World, run: RunId, d: Digest)
    ensures WaveProtects(w, run, d) <==> InputWanted(w, run, d)
    ensures AttemptProtects(w, run, d) <==> AttemptWanted(w, run, d)
    ensures FinalProtects(w, run, d) <==> FinalWanted(w, run, d)
  {
    EndedMeans(w, run);
    assert forall r :: InProgress(w, r, run) <==> ActiveFor(w, r, run);
  }

  /** The mark must protect exactly what some record asks for. */
  lemma ProtectedMeans(w: World, d: Digest)
    ensures Protected(w, d) <==> Wanted(w, d)
  {
    forall run
      ensures WaveProtects(w, run, d) <==> InputWanted(w, run, d)
      ensures AttemptProtects(w, run, d) <==> AttemptWanted(w, run, d)
      ensures FinalProtects(w, run, d) <==> FinalWanted(w, run, d)
    {
      RunWants(w, run, d);
    }
    assert forall r :: RequestProtects(w, r, d) <==> RequestWants(w, r, d);
    assert forall h :: HoldProtects(w, h, d) <==> h in w.holds && d in w.holds[h];
  }

  predicate Transported(w: World, r: RequestId, d: Digest) {
    r in w.requests && w.requests[r].output == Some(d) && TransportsOutput(w.requests[r].status)
  }

  // ---------------------------------------------------------------------------------
  // The mark phase
  // ---------------------------------------------------------------------------------

  datatype Index = Index(protectedDigests: set<Digest>, brokerOutputs: map<RequestId, Digest>, unknown: bool)

  predicate Maps(outputs: map<RequestId, Digest>, r: RequestId, d: Digest) {
    r in outputs && outputs[r] == d
  }

  ghost predicate Marks(w: World, index: Index) {
    && (forall d :: d in index.protectedDigests <==> Protected(w, d))
    && (forall r, d :: Maps(index.brokerOutputs, r, d) <==> Transported(w, r, d))
    && index.unknown == w.unreadable
  }

  /** What the scan of broker requests leaves behind. */
  datatype RequestMarks = RequestMarks(
    live: set<RunId>, ended: set<RunId>, owned: set<RunId>, protectedDigests: set<Digest>,
    outputs: map<RequestId, Digest>)

  ghost predicate MarksRequests(w: World, done: set<RequestId>, m: RequestMarks) {
    && (forall run :: run in m.live <==> exists r :: r in done && InProgress(w, r, run))
    && (forall run :: run in m.ended <==> exists r :: r in done && Ended(w, r, run))
    && (forall run :: run in m.owned <==> exists r :: r in done && OfRun(w, r, run))
    && (forall d :: d in m.protectedDigests <==> exists r :: r in done && RequestProtects(w, r, d))
    && (forall r, d :: Maps(m.outputs, r, d) <==> r in done && Transported(w, r, d))
  }

  function MarkRequest(w: World, r: RequestId, m: RequestMarks): RequestMarks
    requires r in w.requests
  {
    var q := w.requests[r];
    var keeps := q.output.Some? && (!Terminal(q.status) || (q.status == Succeeded && r !in w.deliveries));
    RequestMarks(
      if Terminal(q.status) then m.live else m.live + {q.run},
      if Terminal(q.status) then m.ended + {q.run} else m.ended,
      m.owned + {q.run},
      if keeps then m.protectedDigests + {q.output.value} else m.protectedDigests,
      if q.output.Some? && TransportsOutput(q.status) then m.outputs[r := q.output.value] else m.outputs)
  }

  lemma MarkRequestRuns(w: World, done: set<RequestId>, r: RequestId, m: RequestMarks)
    requires MarksRequests(w, done, m) && r in w.requests && r !in done
    ensures var next := MarkRequest(w, r, m);
      && (forall run :: run in next.live <==> exists q :: q in done + {r} && InProgress(w, q, run))
      && (forall run :: run in next.ended <==> exists q :: q in done + {r} && Ended(w, q, run))
      && (forall run :: run in next.owned <==> exists q :: q in done + {r} && OfRun(w, q, run))
  {
    var next, run0 := MarkRequest(w, r, m), w.requests[r].run;
    assert OfRun(w, r, run0);
    assert if Terminal(w.requests[r].status) then Ended(w, r, run0) else InProgress(w, r, run0);
  }

  lemma MarkRequestDigests(w: World, done: set<RequestId>, r: RequestId, m: RequestMarks)
    requires MarksRequests(w, done, m) && r in w.requests && r !in done
    ensures var next := MarkRequest(w, r, m);
      && (forall d :: d in next.protectedDigests <==> exists q :: q in done + {r} && RequestProtects(w, q, d))
      && (forall q, d :: Maps(next.outputs, q, d) <==> q in done + {r} && Transported(w, q, d))
  {
    var next, output := MarkRequest(w, r, m), w.requests[r].output;
    forall d ensures d in next.protectedDigests <==> exists q :: q in done + {r} && RequestProtects(w, q, d) {
      if d in next.protectedDigests && d !in m.protectedDigests {
        assert RequestProtects(w, r, d);
      }
    }
    forall q, d ensures Maps(next.outputs, q, d) <==> q in done + {r} && Transported(w, q, d) {
      assert Maps(m.outputs, q, d) <==> q in done && Transported(w, q, d);
      if q == r && r in m.outputs { assert Maps(m.outputs, r, m.outputs[r]); }
    }
  }

  lemma MarkRequestMarks(w: World, done: set<RequestId>, r: RequestId, m: RequestMarks)
    requires MarksRequests(w, done, m) && r in w.requests && r !in done
    ensures MarksRequests(w, done + {r}, MarkRequest(w, r, m))
  {
    MarkRequestRuns(w, done, r, m);
    MarkRequestDigests(w, done, r, m);
  }

  method ScanRequests(w: World) returns (m: RequestMarks)
    ensures MarksRequests(w, w.requests.Keys, m)
  {
    m := RequestMarks({}, {}, {}, {}, map[]);
    var rest := w.requests.Keys;
    ghost var done: set<RequestId> := {};
    while rest != {}
      invariant done + rest == w.requests.Keys && done !! rest
      invariant MarksRequests(w, done, m)
      decreases rest
    {
      assert (forall r: int :: r !in rest) ==> rest == {};
      var r :| r in rest;
      MarkRequestMarks(w, done, r, m);
      m := MarkRequest(w, r, m);
      done, rest := done + {r}, rest - {r};
    }
    assert done == w.requests.Keys;
  }

  lemma ScannedRequests(w: World, m: RequestMarks)
    requires MarksRequests(w, w.requests.Keys, m)
    ensures forall run :: run in m.live <==> exists r :: InProgress(w, r, run)
    ensures forall run :: run in m.ended <==> BrokerEnded(w, run)
    ensures forall run :: run in m.owned <==> BrokerOwned(w, run)
    ensures forall d :: d in m.protectedDigests <==> exists r :: RequestProtects(w, r, d)
    ensures forall r, d :: Maps(m.outputs, r, d) <==> Transported(w, r, d)
  {
    forall run ensures run in m.live <==> exists r :: InProgress(w, r, run) {
      if r :| InProgress(w, r, run) { assert r in w.requests.Keys && InProgress(w, r, run); }
    }
    forall run ensures run in m.ended <==> BrokerEnded(w, run) {
      if r :| Ended(w, r, run) { assert r in w.requests.Keys && Ended(w, r, run); }
    }
    forall run ensures run in m.owned <==> BrokerOwned(w, run) {
      if r :| OfRun(w, r, run) { assert r in w.requests.Keys && OfRun(w, r, run); }
    }
    forall d ensures d in m.protectedDigests <==> exists r :: RequestProtects(w, r, d) {
      if r :| RequestProtects(w, r, d) { assert r in w.requests.Keys && RequestProtects(w, r, d); }
    }
  }

  method ScanHolds(w: World) returns (held: set<Digest>)
    ensures forall d :: d in held <==> exists h :: HoldProtects(w, h, d)
  {
    held := {};
    var rest := w.holds.Keys;
    ghost var done: set<int> := {};
    while rest != {}
      invariant done + rest == w.holds.Keys && done !! rest
      invariant forall d :: d in held <==> exists h :: h in done && HoldProtects(w, h, d)
      decreases rest
    {
      assert (forall h: int :: h !in rest) ==> rest == {};
      var h :| h in rest;
      forall d ensures d in held + w.holds[h] <==> exists k :: k in done + {h} && HoldProtects(w, k, d) {
        assert d in held <==> exists k :: k in done && HoldProtects(w, k, d);
        if d in w.holds[h] { assert HoldProtects(w, h, d); }
      }
      held := held + w.holds[h];
      done, rest := done + {h}, rest - {h};
    }
    forall d ensures d in held <==> exists h :: HoldProtects(w, h, d) {
      if h :| HoldProtects(w, h, d) { assert h in done && HoldProtects(w, h, d); }
    }
  }

  /** The digests one run directory protects, given what the requests said about the run. */
  function RunProtects(w: World, run: RunId, ended: bool, owned: bool): set<Digest>
    requires run in w.manifests
  {
    var m := w.manifests[run];
    (if owned && m.terminal && ended then {} else m.finalOutputs) +
    (if !m.terminal && !ended && run in w.attemptOutputs then w.attemptOutputs[run] else {})
  }

  lemma RunProtectsMeans(w: World, run: RunId, d: Digest)
    requires run in w.manifests
    ensures d in RunProtects(w, run, BrokerEnded(w, run), BrokerOwned(w, run)) <==>
            FinalProtects(w, run, d) || AttemptProtects(w, run, d)
  {
  }

  ghost predicate ByRun(w: World, run: RunId, d: Digest) {
    FinalProtects(w, run, d) || AttemptProtects(w, run, d)
  }

  method ScanRuns(w: World, m: RequestMarks) returns (live: set<RunId>, kept: set<Digest>)
    requires MarksRequests(w, w.requests.Keys, m)
    ensures forall run :: run in live <==> Live(w, run)
    ensures forall d :: d in kept <==> exists run :: ByRun(w, run, d)
  {
    ScannedRequests(w, m);
    live, kept := m.live, {};
    var rest := w.manifests.Keys;
    ghost var done: set<RunId> := {};
    while rest != {}
      invariant done + rest == w.manifests.Keys && done !! rest
      invariant forall run :: run in live <==>
        run in m.live || (run in done && ManifestOpen(w, run) && !BrokerEnded(w, run))
      invariant forall d :: d in kept <==> exists run :: run in done && ByRun(w, run, d)
      decreases rest
    {
      assert (forall r: int :: r !in rest) ==> rest == {};
      var run :| run in rest;
      if !w.manifests[run].terminal && run !in m.ended { live := live + {run}; }
      ghost var before := kept;
      kept := kept + RunProtects(w, run, run in m.ended, run in m.owned);
      forall d ensures d in kept <==> exists q :: q in done + {run} && ByRun(w, q, d) {
        RunProtectsMeans(w, run, d);
        assert d in before <==> exists q :: q in done && ByRun(w, q, d);
        if ByRun(w, run, d) { assert run in done + {run}; }
      }
      done, rest := done + {run}, rest - {run};
    }
    forall d ensures d in kept <==> exists run :: ByRun(w, run, d) {
      if run :| ByRun(w, run, d) { assert run in done && ByRun(w, run, d); }
    }
  }

  method ScanClosedWaves(w: World, live: set<RunId>) returns (kept: set<Digest>)
    requires forall run :: run in live <==> Live(w, run)
    ensures forall d :: d in kept <==> exists run :: WaveProtects(w, run, d)
  {
    kept := {};
    var rest := w.waves.Keys;
    ghost var done: set<RunId> := {};
    while rest != {}
      invariant done + rest == w.waves.Keys && done !! rest
      invariant forall d :: d in kept <==> exists run :: run in done && WaveProtects(w, run, d)
      decreases rest
    {
      assert (forall r: int :: r !in rest) ==> rest == {};
      var run :| run in rest;
      ghost var before := kept;
      if run in live { kept := kept + w.waves[run]; }
      forall d ensures d in kept <==> exists q :: q in done + {run} && WaveProtects(w, q, d) {
        assert d in before <==> exists q :: q in done && WaveProtects(w, q, d);
        if WaveProtects(w, run, d) { assert run in done + {run}; }
      }
      done, rest := done + {run}, rest - {run};
    }
    forall d ensures d in kept <==> exists run :: WaveProtects(w, run, d) {
      if run :| WaveProtects(w, run, d) { assert run in done && WaveProtects(w, run, d); }
    }
  }

  /** The mark phase: the index protects exactly what the records call for. */
  method BuildReachabilityIndex(w: World) returns (index: Index)
    ensures Marks(w, index)
  {
    var m := ScanRequests(w);
    ScannedRequests(w, m);
    var held := ScanHolds(w);
    var live, kept := ScanRuns(w, m);
    var inputs := ScanClosedWaves(w, live);
    index := Index(m.protectedDigests + held + kept + inputs + w.external, m.outputs, w.unreadable);
    forall d
      ensures d in kept <==> (exists run :: FinalProtects(w, run, d)) || (exists run :: AttemptProtects(w, run, d))
    {
      if run :| FinalProtects(w, run, d) { assert ByRun(w, run, d); }
      if run :| AttemptProtects(w, run, d) { assert ByRun(w, run, d); }
    }
  }
}
