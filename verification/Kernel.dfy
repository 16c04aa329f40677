/** Attempt classification: which shards of a run have an unambiguous success. */
module Kernel {
  import opened Results
  import opened Sequences

  /** Shard identifiers, digests and fingerprints, each standing for its rank in string order. */
  type Id = int

  datatype Status = Succeeded | Failed | Cancelled

  datatype Attempt = Attempt(
    attemptId: string, shardId: Id, inputDigest: Id, fingerprint: Id,
    status: Status, outputs: seq<Id>, startedAt: int, finishedAt: int)

  datatype Shard = Shard(shardId: Id, inputDigest: Id, fingerprint: Id)

  predicate Matches(a: Attempt, shard: Shard) {
    a.shardId == shard.shardId && a.inputDigest == shard.inputDigest && a.fingerprint == shard.fingerprint
  }

  predicate Satisfies(a: Attempt, shard: Shard) {
    Matches(a, shard) && a.status == Succeeded
  }

  function Successes(attempts: seq<Attempt>, shard: Shard): seq<Attempt> {
    if attempts == [] then []
    else
      var rest := Successes(attempts[..|attempts| - 1], shard);
      var last := attempts[|attempts| - 1];
      if Satisfies(last, shard) then rest + [last] else rest
  }

  lemma {:induction false} SuccessesMember(attempts: seq<Attempt>, shard: Shard)
    ensures forall a :: a in Successes(attempts, shard) <==> a in attempts && Satisfies(a, shard)
  {
    if attempts != [] {
      var front := attempts[..|attempts| - 1];
      SuccessesMember(front, shard);
      assert attempts == front + [attempts[|attempts| - 1]];
    }
  }

  /** The places of the attempts that succeeded for the shard's id, input and fingerprint. */
  ghost function SuccessPlaces(attempts: seq<Attempt>, shard: Shard): set<int> {
    set i | 0 <= i < |attempts| && attempts[i].status == Succeeded && attempts[i].shardId == shard.shardId
      && attempts[i].inputDigest == shard.inputDigest && attempts[i].fingerprint == shard.fingerprint
  }

  /** Every success is kept, as often as it is listed. */
  lemma {:induction false} SuccessesCounted(attempts: seq<Attempt>, shard: Shard)
    ensures |Successes(attempts, shard)| == |SuccessPlaces(attempts, shard)|
  {
    if attempts != [] {
      var n := |attempts| - 1;
      var front, places := attempts[..n], SuccessPlaces(attempts, shard);
      SuccessesCounted(front, shard);
      assert forall i :: 0 <= i < n ==> front[i] == attempts[i];
      assert SuccessPlaces(front, shard) == places - {n};
    }
  }

  /** A listing without repetition has at most one success when no two attempts succeed. */
  lemma {:induction false} AtMostOneSuccess(attempts: seq<Attempt>, shard: Shard)
    requires NoDuplicates(attempts)
    requires forall a, b :: a in attempts && b in attempts && Satisfies(a, shard) && Satisfies(b, shard) ==> a == b
    ensures |Successes(attempts, shard)| <= 1
  {
    if attempts != [] {
      var front := attempts[..|attempts| - 1];
      AtMostOneSuccess(front, shard);
      SuccessesMember(front, shard);
      var last := attempts[|attempts| - 1];
      if Successes(front, shard) != [] {
        var other := Successes(front, shard)[0];
        assert other in Successes(front, shard);
        assert other in front && other in attempts && other != last && last in attempts;
        assert !Satisfies(last, shard);
      }
    }
  }

  // ---------------------------------------------------------------------------------
  // Completeness
  // ---------------------------------------------------------------------------------

  datatype Completion = Completion(canonical: seq<Attempt>, missing: seq<Id>, duplicate: seq<Id>)

  function ShardMap(shards: seq<Shard>): map<Id, Shard> {
    if shards == [] then map[]
    else
      var last := shards[|shards| - 1];
      ShardMap(shards[..|shards| - 1])[last.shardId := last]
  }

  lemma {:induction false} ShardMapKeyed(shards: seq<Shard>)
    ensures forall id :: id in ShardMap(shards) ==> ShardMap(shards)[id].shardId == id
    ensures forall id :: id in ShardMap(shards) ==> ShardMap(shards)[id] in shards
  {
    if shards != [] {
      ShardMapKeyed(shards[..|shards| - 1]);
    }
  }

  ghost predicate HasShard(shards: seq<Shard>, id: Id) {
    exists i :: 0 <= i < |shards| && shards[i].shardId == id
  }

  /** The last shard of that id. */
  ghost predicate IsLastOf(shards: seq<Shard>, i: nat, id: Id) {
    i < |shards| && shards[i].shardId == id && forall j :: i < j < |shards| ==> shards[j].shardId != id
  }

  /** The map holds the ids of the shards, and of shards with one id the last. */
  lemma {:induction false} ShardMapMeans(shards: seq<Shard>, id: Id, i: nat)
    ensures id in ShardMap(shards) <==> HasShard(shards, id)
    ensures IsLastOf(shards, i, id) ==> id in ShardMap(shards) && ShardMap(shards)[id] == shards[i]
  {
    if shards != [] {
      var n := |shards| - 1;
      var front := shards[..n];
      ShardMapMeans(front, id, i);
      if HasShard(front, id) {
        var k :| 0 <= k < n && front[k].shardId == id;
        assert shards[k].shardId == id;
      }
      assert shards[n].shardId == id ==> HasShard(shards, id);
    }
  }

  ghost predicate Planned(expected: seq<Id>, plan: map<Id, Shard>) {
    (forall id :: id in plan <==> id in expected) && forall id :: id in plan ==> plan[id].shardId == id
  }

  ghost predicate Covers(ids: seq<Id>, plan: map<Id, Shard>) {
    forall i :: 0 <= i < |ids| ==> ids[i] in plan
  }

  function Missing(ids: seq<Id>, attempts: seq<Attempt>, plan: map<Id, Shard>): seq<Id>
    requires Covers(ids, plan)
  {
    if ids == [] then []
    else
      (if |Successes(attempts, plan[ids[0]])| == 0 then [ids[0]] else [])
        + Missing(ids[1..], attempts, plan)
  }

  function Duplicate(ids: seq<Id>, attempts: seq<Attempt>, plan: map<Id, Shard>): seq<Id>
    requires Covers(ids, plan)
  {
    if ids == [] then []
    else
      (if |Successes(attempts, plan[ids[0]])| > 1 then [ids[0]] else [])
        + Duplicate(ids[1..], attempts, plan)
  }

  function Canonical(ids: seq<Id>, attempts: seq<Attempt>, plan: map<Id, Shard>): seq<Attempt>
    requires Covers(ids, plan)
  {
    if ids == [] then []
    else
      (if |Successes(attempts, plan[ids[0]])| == 1 then [Successes(attempts, plan[ids[0]])[0]] else [])
        + Canonical(ids[1..], attempts, plan)
  }

  function CompletionOf(ids: seq<Id>, attempts: seq<Attempt>, plan: map<Id, Shard>): Completion
    requires Covers(ids, plan)
  {
    Completion(Canonical(ids, attempts, plan), Missing(ids, attempts, plan), Duplicate(ids, attempts, plan))
  }

  function ShardIds(attempts: seq<Attempt>): seq<Id> {
    seq(|attempts|, i requires 0 <= i < |attempts| => attempts[i].shardId)
  }

  /** How many of the attempts succeed for a planned shard. */
  function SuccessCount(id: Id, attempts: seq<Attempt>, plan: map<Id, Shard>): nat
    requires id in plan
  {
    |Successes(attempts, plan[id])|
  }

  lemma {:induction false} ClassesByCount(ids: seq<Id>, attempts: seq<Attempt>, plan: map<Id, Shard>)
    requires Covers(ids, plan)
    ensures forall id :: id in Missing(ids, attempts, plan) <==> id in ids && SuccessCount(id, attempts, plan) == 0
    ensures forall id :: id in Duplicate(ids, attempts, plan) <==> id in ids && SuccessCount(id, attempts, plan) > 1
  {
    if ids != [] {
      ClassesByCount(ids[1..], attempts, plan);
      assert forall id :: id in ids <==> id == ids[0] || id in ids[1..];
    }
  }

  lemma CanonicalHead(ids: seq<Id>, attempts: seq<Attempt>, plan: map<Id, Shard>) returns (a: Attempt)
    requires ids != [] && Covers(ids, plan) && SuccessCount(ids[0], attempts, plan) == 1
    requires forall id :: id in plan ==> plan[id].shardId == id
    ensures a.shardId == ids[0] && a in attempts && Satisfies(a, plan[a.shardId])
    ensures Canonical(ids, attempts, plan) == [a] + Canonical(ids[1..], attempts, plan)
  {
    SuccessesMember(attempts, plan[ids[0]]);
    a := Successes(attempts, plan[ids[0]])[0];
    assert a in Successes(attempts, plan[ids[0]]);
  }

  lemma {:induction false} CanonicalSatisfies(ids: seq<Id>, attempts: seq<Attempt>, plan: map<Id, Shard>)
    requires Covers(ids, plan) && forall id :: id in plan ==> plan[id].shardId == id
    ensures forall a :: a in Canonical(ids, attempts, plan) ==>
              a in attempts && a.shardId in ids && Satisfies(a, plan[a.shardId])
  {
    if ids != [] {
      CanonicalSatisfies(ids[1..], attempts, plan);
      assert ids[0] in ids && forall id :: id in ids[1..] ==> id in ids;
      if SuccessCount(ids[0], attempts, plan) == 1 {
        var a := CanonicalHead(ids, attempts, plan);
      }
    }
  }

  /** The canonical attempts are the unambiguous successes, one per shard, in id order. */
  lemma {:induction false} CanonicalByCount(ids: seq<Id>, attempts: seq<Attempt>, plan: map<Id, Shard>)
    requires Ascending(ids)
    requires Covers(ids, plan) && forall id :: id in plan ==> plan[id].shardId == id
    ensures forall id :: id in ShardIds(Canonical(ids, attempts, plan)) <==>
              id in ids && SuccessCount(id, attempts, plan) == 1
    ensures Ascending(ShardIds(Canonical(ids, attempts, plan)))
  {
    if ids != [] {
      var c := Canonical(ids[1..], attempts, plan);
      CanonicalByCount(ids[1..], attempts, plan);
      assert forall id :: id in ids <==> id == ids[0] || id in ids[1..];
      if SuccessCount(ids[0], attempts, plan) == 1 {
        var a := CanonicalHead(ids, attempts, plan);
        assert ShardIds([a] + c) == [ids[0]] + ShardIds(c);
        AscendingCons(ids[0], ShardIds(c));
      } else {
        assert Canonical(ids, attempts, plan) == c;
      }
    }
  }

  method GroupSuccesses(attempts: seq<Attempt>, plan: map<Id, Shard>) returns (byShard: map<Id, seq<Attempt>>)
    requires forall id :: id in plan ==> plan[id].shardId == id
    ensures byShard.Keys == plan.Keys
    ensures forall id :: id in plan ==> byShard[id] == Successes(attempts, plan[id])
  {
    byShard := map id | id in plan :: [];
    for i := 0 to |attempts|
      invariant byShard.Keys == plan.Keys
      invariant forall id :: id in plan ==> byShard[id] == Successes(attempts[..i], plan[id])
    {
      var a := attempts[i];
      assert attempts[..i + 1][..i] == attempts[..i];
      if a.shardId in plan && Satisfies(a, plan[a.shardId]) {
        byShard := byShard[a.shardId := byShard[a.shardId] + [a]];
      }
    }
    assert attempts[..|attempts|] == attempts;
  }

  lemma SameKeys(plan: map<Id, Shard>, expected: seq<Id>)
    ensures plan.Keys == (set id | id in expected) <==> (forall id :: id in plan <==> id in expected)
  {
    var wanted := set id | id in expected;
    assert forall id :: id in wanted <==> id in expected;
    if forall id :: id in plan <==> id in expected {
      assert forall id :: id in plan.Keys <==> id in wanted;
    }
  }

  method Classify(ids: seq<Id>, byShard: map<Id, seq<Attempt>>, ghost attempts: seq<Attempt>,
                  ghost plan: map<Id, Shard>)
    returns (r: Completion)
    requires Covers(ids, plan) && byShard.Keys == plan.Keys
    requires forall id :: id in plan ==> byShard[id] == Successes(attempts, plan[id])
    ensures r.canonical == Canonical(ids, attempts, plan)
    ensures r.missing == Missing(ids, attempts, plan)
    ensures r.duplicate == Duplicate(ids, attempts, plan)
  {
    var canonical, missing, duplicate := [], [], [];
    var i := |ids|;
    while i > 0
      invariant 0 <= i <= |ids|
      invariant canonical == Canonical(ids[i..], attempts, plan)
      invariant missing == Missing(ids[i..], attempts, plan)
      invariant duplicate == Duplicate(ids[i..], attempts, plan)
    {
      i := i - 1;
      var id, found := ids[i], byShard[ids[i]];
      assert ids[i..][0] == id && ids[i..][1..] == ids[i + 1..];
      missing := (if |found| == 0 then [id] else []) + missing;
      duplicate := (if |found| > 1 then [id] else []) + duplicate;
      canonical := (if |found| == 1 then [found[0]] else []) + canonical;
    }
    assert ids[0..] == ids;
    r := Completion(canonical, missing, duplicate);
  }

  /** Groups the successes by shard in one pass, then classifies the sorted expected ids. */
  method Completeness(expected: seq<Id>, attempts: seq<Attempt>, shards: seq<Shard>)
    returns (r: Result<Completion, string>)
    requires NoDuplicates(expected)
    ensures r.Ok? <==> Planned(expected, ShardMap(shards))
    ensures r.Ok? <==> forall id :: id in expected <==> HasShard(shards, id)
    ensures r.Ok? ==> Covers(Sort(expected), ShardMap(shards))
    ensures r.Ok? ==> r.value == CompletionOf(Sort(expected), attempts, ShardMap(shards))
  {
    var plan := ShardMap(shards);
    ShardMapKeyed(shards);
    SameKeys(plan, expected);
    forall id ensures id in plan <==> HasShard(shards, id) { ShardMapMeans(shards, id, 0); }
    if plan.Keys != (set id | id in expected) {
      return Err("planned shards must exactly match expected shard IDs");
    }
    var byShard := GroupSuccesses(attempts, plan);
    SortAscending(expected);
    assert forall i :: 0 <= i < |Sort(expected)| ==> Sort(expected)[i] in Sort(expected);
    var c := Classify(Sort(expected), byShard, attempts, plan);
    r := Ok(c);
  }
}
