/** Ascending and repetition-free sequences. */
module Sequences {
  predicate NoDuplicates<T(==)>(s: seq<T>) {
    forall i, j :: 0 <= i < j < |s| ==> s[i] != s[j]
  }

  ghost predicate Ascending(s: seq<int>) {
    forall i, j :: 0 <= i < j < |s| ==> s[i] < s[j]
  }

  lemma AscendingCons(x: int, s: seq<int>)
    requires Ascending(s) && forall v :: v in s ==> x < v
    ensures Ascending([x] + s)
  {
    var r := [x] + s;
    forall i, j | 0 <= i < j < |r| ensures r[i] < r[j] {
      assert r[j] == s[j - 1] && s[j - 1] in s;
    }
  }

  // ---------------------------------------------------------------------------------
  // Insertion sort
  // ---------------------------------------------------------------------------------

  ghost predicate Nondecreasing(s: seq<int>) {
    forall i, j :: 0 <= i < j < |s| ==> s[i] <= s[j]
  }

  function Insert(x: int, s: seq<int>): seq<int> {
    if s == [] || x <= s[0] then [x] + s else [s[0]] + Insert(x, s[1..])
  }

  function Sort(s: seq<int>): seq<int> {
    if s == [] then [] else Insert(s[0], Sort(s[1..]))
  }

  lemma NondecreasingCons(x: int, s: seq<int>)
    requires Nondecreasing(s) && forall v :: v in s ==> x <= v
    ensures Nondecreasing([x] + s)
  {
    var r := [x] + s;
    forall i, j | 0 <= i < j < |r| ensures r[i] <= r[j] {
      assert r[j] == s[j - 1] && s[j - 1] in s;
    }
  }

  lemma ConsMultiset(x: int, s: seq<int>)
    ensures multiset([x] + s) == multiset{x} + multiset(s)
  {
  }

  /** A sequence is its head, then its tail. */
  lemma HeadOff(s: seq<int>)
    requires s != []
    ensures multiset(s) == multiset{s[0]} + multiset(s[1..])
    ensures forall v :: v in s <==> v == s[0] || v in s[1..]
  {
    assert s == [s[0]] + s[1..];
  }

  lemma {:induction false} InsertAdds(x: int, s: seq<int>)
    ensures multiset(Insert(x, s)) == multiset{x} + multiset(s)
    ensures forall v :: v in Insert(x, s) <==> v == x || v in s
  {
    if s == [] || x <= s[0] {
      ConsMultiset(x, s);
    } else {
      HeadOff(s);
      InsertAdds(x, s[1..]);
      ConsMultiset(s[0], Insert(x, s[1..]));
    }
  }

  lemma {:induction false} InsertKeepsSorted(x: int, s: seq<int>)
    requires Nondecreasing(s)
    ensures Nondecreasing(Insert(x, s))
  {
    if s == [] || x <= s[0] {
      assert forall k :: 0 <= k < |s| ==> s[0] <= s[k];
      NondecreasingCons(x, s);
    } else {
      InsertKeepsSorted(x, s[1..]);
      InsertAdds(x, s[1..]);
      NondecreasingCons(s[0], Insert(x, s[1..]));
    }
  }

  lemma {:induction false} SortSorts(s: seq<int>)
    ensures Nondecreasing(Sort(s)) && multiset(Sort(s)) == multiset(s)
  {
    if s != [] {
      SortSorts(s[1..]);
      InsertKeepsSorted(s[0], Sort(s[1..]));
      InsertAdds(s[0], Sort(s[1..]));
      HeadOff(s);
    }
  }

  /** Inserting a new value keeps a sequence strictly ascending. */
  lemma {:induction false} InsertAscending(x: int, s: seq<int>)
    requires Ascending(s) && x !in s
    ensures Ascending(Insert(x, s))
  {
    if s == [] || x <= s[0] {
      assert forall k :: 0 <= k < |s| ==> s[0] <= s[k];
      AscendingCons(x, s);
    } else {
      HeadOff(s);
      InsertAscending(x, s[1..]);
      InsertAdds(x, s[1..]);
      AscendingCons(s[0], Insert(x, s[1..]));
    }
  }

  /** Sorting a listing without repetition gives its ascending listing. */
  lemma {:induction false} SortAscending(s: seq<int>)
    requires NoDuplicates(s)
    ensures Ascending(Sort(s))
    ensures forall x :: x in Sort(s) <==> x in s
  {
    if s != [] {
      SortAscending(s[1..]);
      HeadOff(s);
      InsertAscending(s[0], Sort(s[1..]));
      InsertAdds(s[0], Sort(s[1..]));
    }
  }
}
