/** Manifest revisions under compare-and-swap, with any number of refreshing and finalizing
    callers working from stale copies. */
module ManifestCas {
  import opened Results
  import opened Sequences
  import Kernel

  type Id = Kernel.Id

  datatype RunStatus = Planned | Running | Finalizing | Succeeded | Failed | Cancelled

  datatype Finalization = NotStarted | Ready | Finalized | FinalizationFailed

  datatype Manifest = Manifest(
    revision: nat, status: RunStatus, expected: seq<Id>, createdAt: int, updatedAt: int,
    canonical: seq<Kernel.Attempt>, completed: seq<Id>, missing: seq<Id>, duplicate: seq<Id>,
    finalization: Finalization, outputs: seq<Id>)

  datatype WriteError = InvalidManifest | RevisionConflict | RevisionNotNext | OutputMissing | NotReady | ShardsMismatch

  // ---------------------------------------------------------------------------------
  // What every stored manifest satisfies
  // ---------------------------------------------------------------------------------

  predicate ShardsKnown(ids: seq<Id>, expected: seq<Id>) {
    forall id :: id in ids ==> id in expected
  }

  predicate ManifestInvariants(m: Manifest) {
    && NoDuplicates(m.expected) && m.createdAt <= m.updatedAt
    && ShardsKnown(m.completed, m.expected) && ShardsKnown(m.missing, m.expected) &&
        ShardsKnown(m.duplicate, m.expected)
    && NoDuplicates(Kernel.ShardIds(m.canonical))
    && (forall i :: 0 <= i < |m.canonical| ==>
          m.canonical[i].status == Kernel.Succeeded && m.canonical[i].shardId in m.expected)
    && multiset(Kernel.ShardIds(m.canonical)) == multiset(m.completed)
    && (m.finalization == Finalized ==> m.status == Succeeded && m.outputs != [])
    && (m.finalization == Ready || m.finalization == Finalized ==> m.missing == [] && m.duplicate == [])
  }

  // ---------------------------------------------------------------------------------
  // The store
  // ---------------------------------------------------------------------------------

  /** The revision files of one run, oldest first, and the latest pointer. */
  class ManifestStore {
    var history: seq<Manifest>
    var latest: Option<Manifest>

    ghost predicate Valid()
      reads this
    {
      && (forall i :: 0 <= i < |history| ==> history[i].revision == i && ManifestInvariants(history[i]))
      && latest == if history == [] then None else Some(history[|history| - 1])
    }

    constructor ()
      ensures Valid() && history == []
    {
      history, latest := [], None;
    }

    /** Publishes the next revision if the manifest passes the model check and the caller saw
        the current one. `present` says whether its output payloads exist. */
    method WriteNextManifest(m: Manifest, expectedRevision: int, present: bool)
      returns (r: Result<Manifest, WriteError>)
      requires Valid()
      modifies this
      ensures Valid()
      ensures r.Ok? <==>
        ManifestInvariants(m) && old(|history|) == expectedRevision + 1 == m.revision && (m.outputs != [] ==> present)
      ensures r.Ok? ==> r.value == m && history == old(history) + [m]
      ensures r.Err? ==> history == old(history)
    {
      if !ManifestInvariants(m) { return Err(InvalidManifest); }
      var current := if latest.Some? then latest.value.revision else -1;
      if current != expectedRevision { return Err(RevisionConflict); }
      if m.revision != expectedRevision + 1 { return Err(RevisionNotNext); }
      if m.outputs != [] && !present { return Err(OutputMissing); }
      history, latest := history + [m], Some(m);
      r := Ok(m);
    }
  }

  // ---------------------------------------------------------------------------------
  // Refresh and finalize
  // ---------------------------------------------------------------------------------

  function Refreshed(m: Manifest, revision: nat, c: Kernel.Completion): Manifest {
    m.(revision := revision, canonical := c.canonical, completed := Kernel.ShardIds(c.canonical),
       missing := c.missing, duplicate := c.duplicate,
       finalization := if c.missing == [] && c.duplicate == [] then Ready else NotStarted)
  }

  function FinalizedWith(m: Manifest, revision: nat, outputs: seq<Id>): Manifest {
    m.(revision := revision, status := Succeeded, finalization := Finalized, outputs := outputs)
  }

  /** Completed, missing and duplicate shards are disjoint and together the expected ones. */
  ghost predicate Partitions(m: Manifest) {
    forall id :: id in m.expected <==>
      ((id in m.completed && id !in m.missing && id !in m.duplicate)
       || (id !in m.completed && id in m.missing && id !in m.duplicate)
       || (id !in m.completed && id !in m.missing && id in m.duplicate))
  }

  lemma CompletionFacts(expected: seq<Id>, attempts: seq<Kernel.Attempt>, plan: map<Id, Kernel.Shard>)
    requires NoDuplicates(expected) && Kernel.Planned(expected, plan)
    ensures Kernel.Covers(Sort(expected), plan)
    ensures var c := Kernel.CompletionOf(Sort(expected), attempts, plan);
      && (forall id :: id in c.missing <==> id in expected && Kernel.SuccessCount(id, attempts, plan) == 0)
      && (forall id :: id in c.duplicate <==> id in expected && Kernel.SuccessCount(id, attempts, plan) > 1)
      && (forall id :: id in Kernel.ShardIds(c.canonical) <==>
          id in expected && Kernel.SuccessCount(id, attempts, plan) == 1)
      && Ascending(Kernel.ShardIds(c.canonical))
      && (forall a :: a in c.canonical ==> a.shardId in expected && a.status == Kernel.Succeeded)
  {
    var ids := Sort(expected);
    SortAscending(expected);
    forall i | 0 <= i < |ids| ensures ids[i] in plan {
      var id := ids[i];
      assert id in ids && id in expected;
    }
    Kernel.ClassesByCount(ids, attempts, plan);
    Kernel.CanonicalByCount(ids, attempts, plan);
    Kernel.CanonicalSatisfies(ids, attempts, plan);
  }

  /** Refreshing a valid manifest always passes the model check, and classifies every
      expected shard exactly once. */
  lemma RefreshKeepsInvariants(m: Manifest, revision: nat, attempts: seq<Kernel.Attempt>, plan: map<Id, Kernel.Shard>)
    requires ManifestInvariants(m) && Kernel.Planned(m.expected, plan)
    ensures Kernel.Covers(Sort(m.expected), plan)
    ensures var next := Refreshed(m, revision, Kernel.CompletionOf(Sort(m.expected), attempts, plan));
      ManifestInvariants(next) && Partitions(next)
      && (next.finalization == Ready <==>
          forall id :: id in m.expected ==> Kernel.SuccessCount(id, attempts, plan) == 1)
  {
    CompletionFacts(m.expected, attempts, plan);
    var c := Kernel.CompletionOf(Sort(m.expected), attempts, plan);
    forall i | 0 <= i < |c.canonical|
      ensures c.canonical[i].status == Kernel.Succeeded && c.canonical[i].shardId in m.expected
    {
      assert c.canonical[i] in c.canonical;
    }
    if c.missing != [] {
      var id := c.missing[0];
      assert id in c.missing;
    }
    if c.duplicate != [] {
      var id := c.duplicate[0];
      assert id in c.duplicate;
    }
  }

  /** Finalizing a ready manifest passes the model check exactly when there are outputs. */
  lemma FinalizeNeedsOutputs(m: Manifest, revision: nat, outputs: seq<Id>)
    requires ManifestInvariants(m) && m.finalization == Ready
    ensures ManifestInvariants(FinalizedWith(m, revision, outputs)) <==> outputs != []
  {
  }

  /** Finalization never survives a refresh: whatever was stored, the refreshed manifest is
      ready exactly when every expected shard has one success, and otherwise not started. */
  lemma RefreshUnfinalizes(m: Manifest, revision: nat, attempts: seq<Kernel.Attempt>, plan: map<Id, Kernel.Shard>)
    requires ManifestInvariants(m) && Kernel.Planned(m.expected, plan)
    ensures Kernel.Covers(Sort(m.expected), plan)
    ensures var next := Refreshed(m, revision, Kernel.CompletionOf(Sort(m.expected), attempts, plan));
      && next.finalization != Finalized && next.status == m.status && next.outputs == m.outputs
      && next.finalization ==
           if forall id :: id in m.expected ==> Kernel.SuccessCount(id, attempts, plan) == 1 then Ready else NotStarted
  {
    RefreshKeepsInvariants(m, revision, attempts, plan);
  }

  /** For example, the finalized manifest of a run with one shard and its one success. */
  lemma FinalizationIsLost()
    ensures var a := Kernel.Attempt("a", 7, 1, 2, Kernel.Succeeded, [9], 0, 0);
      var plan := map[7 := Kernel.Shard(7, 1, 2)];
      var m := Manifest(3, Succeeded, [7], 0, 0, [a], [7], [], [], Finalized, [9]);
      && ManifestInvariants(m) && Kernel.Covers(Sort([7]), plan)
      && Refreshed(m, 4, Kernel.CompletionOf(Sort([7]), [a], plan)) == m.(revision := 4, finalization := Ready)
  {
    var a := Kernel.Attempt("a", 7, 1, 2, Kernel.Succeeded, [9], 0, 0);
    assert [7][1..] == [] && Sort([7]) == [7];
    assert Kernel.ShardIds([a]) == [7];
    OneShardCompletion(a, Kernel.Shard(7, 1, 2));
  }

  lemma SuccessesOfOne(a: Kernel.Attempt, shard: Kernel.Shard)
    requires Kernel.Satisfies(a, shard)
    ensures Kernel.Successes([a], shard) == [a]
  {
    assert [a][..0] == [] && Kernel.Successes([], shard) == [];
  }

  /** One attempt that succeeds for the only shard completes it. */
  lemma OneShardCompletion(a: Kernel.Attempt, shard: Kernel.Shard)
    requires Kernel.Satisfies(a, shard)
    ensures var ids, plan := [shard.shardId], map[shard.shardId := shard];
      Kernel.Covers(ids, plan) && Kernel.CompletionOf(ids, [a], plan) == Kernel.Completion([a], [], [])
  {
    var ids, plan := [shard.shardId], map[shard.shardId := shard];
    assert ids[1..] == [];
    SuccessesOfOne(a, shard);
    assert Kernel.CompletionOf([], [a], plan) == Kernel.Completion([], [], []);
  }

  /** Rebuilds the classification from the stored attempts and publishes it. The caller's
      manifest may be any copy, current or stale. */
  method Refresh(store: ManifestStore, m: Manifest, expectedRevision: int, attempts: seq<Kernel.Attempt>,
                 shards: seq<Kernel.Shard>, present: bool)
    returns (r: Result<Manifest, WriteError>)
    requires store.Valid() && ManifestInvariants(m) && expectedRevision >= -1
    modifies store
    ensures store.Valid()
    ensures r.Ok? <==>
      (Kernel.Planned(m.expected, Kernel.ShardMap(shards))
       && old(|store.history|) == expectedRevision + 1 && (m.outputs != [] ==> present))
    ensures r.Ok? ==> store.history == old(store.history) + [r.value] && Partitions(r.value)
    ensures r.Ok? ==> r.value.expected == m.expected && r.value.status == m.status && r.value.outputs == m.outputs
    ensures r.Err? ==> store.history == old(store.history)
  {
    var c := Kernel.Completeness(m.expected, attempts, shards);
    if c.Err? { return Err(ShardsMismatch); }
    RefreshKeepsInvariants(m, expectedRevision + 1, attempts, Kernel.ShardMap(shards));
    r := store.WriteNextManifest(Refreshed(m, expectedRevision + 1, c.value), expectedRevision, present);
  }

  /** Publishes the outputs of a ready manifest. */
  method Finalize(store: ManifestStore, m: Manifest, expectedRevision: int, outputs: seq<Id>, present: bool)
    returns (r: Result<Manifest, WriteError>)
    requires store.Valid() && ManifestInvariants(m)
    modifies store
    ensures store.Valid()
    ensures r.Ok? <==>
      (m.revision == expectedRevision && m.finalization == Ready && outputs != [] && present
       && old(|store.history|) == expectedRevision + 1)
    ensures r.Ok? ==> store.history == old(store.history) + [FinalizedWith(m, m.revision + 1, outputs)]
    ensures r.Err? ==> store.history == old(store.history)
  {
    if m.revision != expectedRevision || m.finalization != Ready { return Err(NotReady); }
    FinalizeNeedsOutputs(m, m.revision + 1, outputs);
    r := store.WriteNextManifest(FinalizedWith(m, m.revision + 1, outputs), expectedRevision, present);
  }

  // ---------------------------------------------------------------------------------
  // Interleavings
  // ---------------------------------------------------------------------------------

  /** One caller's attempt to publish, with whatever it read before. */
  datatype Call =
    | RefreshCall(manifest: Manifest, expectedRevision: int, attempts: seq<Kernel.Attempt>, shards: seq<Kernel.Shard>,
        present: bool)
    | FinalizeCall(manifest: Manifest, expectedRevision: int, outputs: seq<Id>, present: bool)

  ghost predicate CallOk(c: Call) {
    ManifestInvariants(c.manifest) && c.expectedRevision >= -1
  }

  method Perform(store: ManifestStore, c: Call) returns (ok: bool)
    requires store.Valid() && CallOk(c)
    modifies store
    ensures store.Valid() && old(store.history) <= store.history
    ensures if ok then |store.history| == old(|store.history|) + 1 == c.expectedRevision + 2
            else store.history == old(store.history)
  {
    match c {
      case RefreshCall(m, expected, attempts, shards, present) =>
        var r := Refresh(store, m, expected, attempts, shards, present);
        ok := r.Ok?;
      case FinalizeCall(m, expected, outputs, present) =>
        var r := Finalize(store, m, expected, outputs, present);
        ok := r.Ok?;
    }
  }

  /** Any sequence of calls, each from any copy of a manifest, leaves consecutive revisions
      that never change once written, with the latest pointer on the last of them; and of
      the calls that expect one revision at most one succeeds. */
  method Interleave(store: ManifestStore, calls: seq<Call>) returns (published: seq<bool>)
    requires store.Valid() && forall i :: 0 <= i < |calls| ==> CallOk(calls[i])
    modifies store
    ensures store.Valid() && old(store.history) <= store.history && |published| == |calls|
    ensures forall i, j :: 0 <= i < j < |calls| && published[i] && published[j] ==>
      calls[i].expectedRevision < calls[j].expectedRevision
  {
    published := [];
    for i := 0 to |calls|
      invariant store.Valid() && old(store.history) <= store.history && |published| == i
      invariant forall k :: 0 <= k < i && published[k] ==> calls[k].expectedRevision + 1 < |store.history|
      invariant forall k, j :: 0 <= k < j < i && published[k] && published[j] ==>
        calls[k].expectedRevision < calls[j].expectedRevision
    {
      assert CallOk(calls[i]);
      var ok := Perform(store, calls[i]);
      published := published + [ok];
    }
  }
}
