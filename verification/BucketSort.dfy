/** External sort of one bucket spill file: bounded sorted runs, then a k-way merge that
    fails as soon as a value repeats. */
module BucketSort {
  import opened Results
  import opened Sequences
  import opened Canonicalize

  const SORT_RUN_CAPACITY: nat := 8_192

  ghost predicate NoRepeats(m: multiset<int>) {
    forall v :: m[v] <= 1
  }

  function Total(runs: seq<seq<int>>): multiset<int> {
    if runs == [] then multiset{} else Total(runs[..|runs| - 1]) + multiset(runs[|runs| - 1])
  }

  lemma {:induction false} TotalFrom(runs: seq<seq<int>>, v: int) returns (i: nat)
    requires v in Total(runs)
    ensures i < |runs| && v in runs[i]
  {
    if v in runs[|runs| - 1] {
      i := |runs| - 1;
    } else {
      i := TotalFrom(runs[..|runs| - 1], v);
    }
  }

  lemma {:induction false} TotalPop(runs: seq<seq<int>>, i: nat)
    requires i < |runs| && runs[i] != []
    ensures Total(runs) == multiset{runs[i][0]} + Total(runs[i := runs[i][1..]])
  {
    var last := |runs| - 1;
    var popped := runs[i := runs[i][1..]];
    if i == last {
      assert popped[..last] == runs[..last];
      HeadOff(runs[i]);
    } else {
      assert popped[..last] == runs[..last][i := runs[i][1..]];
      TotalPop(runs[..last], i);
    }
  }

  ghost predicate IsSmallestHead(runs: seq<seq<int>>, s: nat) {
    && s < |runs| && runs[s] != []
    && forall i :: 0 <= i < |runs| && runs[i] != [] ==>
         (runs[s][0] <= runs[i][0] && (runs[i][0] == runs[s][0] ==> s <= i))
  }

  /** The source whose next value the heap pops: smallest value, then lowest index. */
  method SmallestHead(runs: seq<seq<int>>) returns (found: bool, s: nat)
    ensures !found ==> forall i :: 0 <= i < |runs| ==> runs[i] == []
    ensures found ==> IsSmallestHead(runs, s)
  {
    found, s := false, 0;
    for i := 0 to |runs|
      invariant !found ==> forall k :: 0 <= k < i ==> runs[k] == []
      invariant found ==> s < i && IsSmallestHead(runs[..i], s)
    {
      if runs[i] != [] && (!found || runs[i][0] < runs[s][0]) {
        found, s := true, i;
      }
    }
    assert runs[..|runs|] == runs;
  }

  ghost predicate RunsSorted(runs: seq<seq<int>>) {
    forall i :: 0 <= i < |runs| ==> Nondecreasing(runs[i])
  }

  ghost predicate MergeProgress(total: multiset<int>, output: seq<int>, rem: seq<seq<int>>) {
    && RunsSorted(rem) && Ascending(output)
    && multiset(output) + Total(rem) == total
    && forall v, k :: v in Total(rem) && 0 <= k < |output| ==> output[k] <= v
  }

  lemma HeadIsLeast(rem: seq<seq<int>>, s: nat)
    requires RunsSorted(rem) && IsSmallestHead(rem, s)
    ensures forall v :: v in Total(rem) ==> rem[s][0] <= v
  {
    forall v | v in Total(rem) ensures rem[s][0] <= v {
      var i := TotalFrom(rem, v);
      assert rem[i][0] <= v;
    }
  }

  lemma PopKeepsSorted(rem: seq<seq<int>>, s: nat)
    requires RunsSorted(rem) && s < |rem| && rem[s] != []
    ensures RunsSorted(rem[s := rem[s][1..]])
  {
    var run := rem[s];
    assert forall i :: 0 <= i < |run| - 1 ==> run[1..][i] == run[i + 1];
  }

  lemma AscendingSnoc(output: seq<int>, v: int)
    requires Ascending(output) && (output != [] ==> output[|output| - 1] < v)
    ensures Ascending(output + [v])
  {
    forall k | 0 <= k < |output| ensures output[k] < v {
      assert output[k] <= output[|output| - 1];
    }
  }

  /** A popped value moves from what remains to the output. */
  lemma PopMoves(total: multiset<int>, output: multiset<int>, rest: multiset<int>, rest': multiset<int>, v: int)
    requires output + rest == total && rest == multiset{v} + rest'
    ensures (output + multiset{v}) + rest' == total
    ensures forall x :: x in rest' ==> x in rest
    ensures v in output ==> total[v] >= 2
  {
  }

  lemma PopProgress(total: multiset<int>, output: seq<int>, rem: seq<seq<int>>, s: nat)
    requires MergeProgress(total, output, rem) && IsSmallestHead(rem, s)
    ensures var v := rem[s][0];
      if output != [] && output[|output| - 1] == v then total[v] >= 2
      else MergeProgress(total, output + [v], rem[s := rem[s][1..]])
  {
    var v, rem' := rem[s][0], rem[s := rem[s][1..]];
    HeadIsLeast(rem, s);
    TotalPop(rem, s);
    PopMoves(total, multiset(output), Total(rem), Total(rem'), v);
    assert v in Total(rem);
    if output != [] && output[|output| - 1] == v {
      assert v in multiset(output);
    } else {
      AscendingSnoc(output, v);
      PopKeepsSorted(rem, s);
      assert multiset(output + [v]) == multiset(output) + multiset{v};
    }
  }

  method KWayMergeFailOnDuplicate(sources: seq<seq<int>>) returns (r: Result<seq<int>, CanonicalizeError>)
    requires RunsSorted(sources)
    ensures r.Ok? ==> Ascending(r.value) && multiset(r.value) == Total(sources)
    ensures r.Err? ==> !NoRepeats(Total(sources)) && r.error == NonContiguous
  {
    var rem, output := sources, [];
    var found, s := SmallestHead(rem);
    while found
      invariant MergeProgress(Total(sources), output, rem)
      invariant if found then IsSmallestHead(rem, s) else forall i :: 0 <= i < |rem| ==> rem[i] == []
      decreases |Total(rem)|
    {
      PopProgress(Total(sources), output, rem, s);
      TotalPop(rem, s);
      var v := rem[s][0];
      if output != [] && output[|output| - 1] == v {
        return Err(NonContiguous);
      }
      output, rem := output + [v], rem[s := rem[s][1..]];
      found, s := SmallestHead(rem);
    }
    TotalEmpty(rem);
    r := Ok(output);
  }

  lemma {:induction false} TotalEmpty(runs: seq<seq<int>>)
    requires forall i :: 0 <= i < |runs| ==> runs[i] == []
    ensures Total(runs) == multiset{}
  {
    if runs != [] {
      TotalEmpty(runs[..|runs| - 1]);
    }
  }

  /** The final pass over the sorted file, counting its values. */
  method FinalizeSortedFile(values: seq<int>) returns (r: Result<nat, CanonicalizeError>)
    ensures r.Ok? <==> Ascending(values)
    ensures r.Ok? ==> r.value == |values|
    ensures r.Err? && Nondecreasing(values) ==> r.error == NonContiguous && !NoRepeats(multiset(values))
  {
    var previous := 0;
    for count := 0 to |values|
      invariant Ascending(values[..count])
      invariant count > 0 ==> previous == values[count - 1]
    {
      if count > 0 && values[count] <= previous {
        assert values[count - 1] >= values[count];
        if values[count] == previous {
          TwoEqualRepeat(values, count - 1, count);
          return Err(NonContiguous);
        }
        return Err(InvalidState);
      }
      assert forall k :: 0 <= k < count ==> values[..count][k] <= values[..count][count - 1];
      previous := values[count];
    }
    assert values[..|values|] == values;
    r := Ok(|values|);
  }

  lemma TwoEqualRepeat(s: seq<int>, i: nat, j: nat)
    requires i < j < |s| && s[i] == s[j]
    ensures multiset(s)[s[i]] >= 2
  {
    var front, back := s[..j], s[j..];
    assert s == front + back && front[i] == s[i] && back[0] == s[j];
    assert s[i] in multiset(front) && s[i] in multiset(back);
  }

  lemma AscendingNoRepeats(s: seq<int>)
    requires Ascending(s)
    ensures NoRepeats(multiset(s))
  {
    AscendingNoRepeatsUpTo(s, |s|);
    assert s[..|s|] == s;
  }

  lemma {:induction false} AscendingNoRepeatsUpTo(s: seq<int>, n: nat)
    requires Ascending(s) && n <= |s|
    ensures NoRepeats(multiset(s[..n]))
  {
    if n > 0 {
      AscendingNoRepeatsUpTo(s, n - 1);
      assert s[..n] == s[..n - 1] + [s[n - 1]];
      assert s[n - 1] !in s[..n - 1];
    }
  }

  lemma TotalSnoc(runs: seq<seq<int>>, run: seq<int>)
    ensures Total(runs + [run]) == Total(runs) + multiset(run)
  {
    assert (runs + [run])[..|runs|] == runs;
  }

  lemma ChunkAdded(values: seq<int>, offset: nat, stop: nat)
    requires offset <= stop <= |values|
    ensures multiset(values[..stop]) == multiset(values[..offset]) + multiset(values[offset..stop])
  {
    assert values[..stop] == values[..offset] + values[offset..stop];
  }

  lemma RunAdded(values: seq<int>, runs: seq<seq<int>>, offset: nat, stop: nat)
    requires offset <= stop <= |values|
    requires RunsSorted(runs) && Total(runs) == multiset(values[..offset])
    ensures var runs' := runs + [Sort(values[offset..stop])];
            RunsSorted(runs') && Total(runs') == multiset(values[..stop])
  {
    var chunk := values[offset..stop];
    SortSorts(chunk);
    TotalSnoc(runs, Sort(chunk));
    ChunkAdded(values, offset, stop);
  }

  /** Reads the file in bounded chunks and sorts each into a run. */
  method SplitIntoRuns(values: seq<int>) returns (runs: seq<seq<int>>)
    ensures RunsSorted(runs) && Total(runs) == multiset(values)
  {
    runs := [];
    var offset := 0;
    while offset < |values|
      invariant 0 <= offset <= |values|
      invariant RunsSorted(runs) && Total(runs) == multiset(values[..offset])
    {
      var stop := if offset + SORT_RUN_CAPACITY < |values| then offset + SORT_RUN_CAPACITY else |values|;
      RunAdded(values, runs, offset, stop);
      runs := runs + [Sort(values[offset..stop])];
      offset := stop;
    }
    assert values[..offset] == values;
  }

  /** Sorting a bucket succeeds exactly when no value repeats anywhere in the file, and
      then leaves its ascending listing. */
  method SortUniqueBucketFile(values: seq<int>) returns (r: Result<seq<int>, CanonicalizeError>)
    ensures r.Ok? <==> NoRepeats(multiset(values))
    ensures r.Ok? ==> Ascending(r.value) && multiset(r.value) == multiset(values)
    ensures r.Err? ==> r.error == NonContiguous
  {
    if values == [] {
      return Ok([]);
    }
    var runs := SplitIntoRuns(values);
    var sorted;
    if |runs| == 1 {
      sorted := runs[0];
      assert Total(runs) == Total(runs[..0]) + multiset(runs[0]);
    } else {
      var merged := KWayMergeFailOnDuplicate(runs);
      if merged.Err? { return merged; }
      sorted := merged.value;
    }
    assert multiset(sorted) == multiset(values);
    var count := FinalizeSortedFile(sorted);
    if count.Err? { return Err(count.error); }
    AscendingNoRepeats(sorted);
    r := Ok(sorted);
  }
}
