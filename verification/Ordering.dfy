/** Sort keys: the tuples of integers that spilled rows are ordered by. */
module Ordering {

  datatype Key = Key(parts: seq<int>)

  /** Tuple comparison: the first difference decides, and a proper prefix comes first. */
  predicate PartsLess(a: seq<int>, b: seq<int>)
    decreases |a|
  {
    if b == [] then false
    else if a == [] then true
    else if a[0] != b[0] then a[0] < b[0]
    else PartsLess(a[1..], b[1..])
  }

  predicate KeyLess(a: Key, b: Key) {
    PartsLess(a.parts, b.parts)
  }

  predicate KeyLeq(a: Key, b: Key) {
    !KeyLess(b, a)
  }

  lemma {:induction false} PartsLessIrreflexive(a: seq<int>)
    ensures !PartsLess(a, a)
    decreases |a|
  {
    if a != [] {
      PartsLessIrreflexive(a[1..]);
    }
  }

  lemma {:induction false} PartsLessTransitive(a: seq<int>, b: seq<int>, c: seq<int>)
    requires PartsLess(a, b) && PartsLess(b, c)
    ensures PartsLess(a, c)
    decreases |a|
  {
    if a != [] && a[0] == b[0] == c[0] {
      PartsLessTransitive(a[1..], b[1..], c[1..]);
    }
  }

  lemma {:induction false} PartsLessTotal(a: seq<int>, b: seq<int>)
    ensures a == b || PartsLess(a, b) || PartsLess(b, a)
    decreases |a|
  {
    if a != [] && b != [] && a[0] == b[0] {
      PartsLessTotal(a[1..], b[1..]);
      if a[1..] == b[1..] {
        assert a == [a[0]] + a[1..] == [b[0]] + b[1..] == b;
      }
    }
  }

  lemma KeyLessIrreflexive(a: Key)
    ensures !KeyLess(a, a)
  {
    PartsLessIrreflexive(a.parts);
  }

  lemma KeyLessTransitive(a: Key, b: Key, c: Key)
    requires KeyLess(a, b) && KeyLess(b, c)
    ensures KeyLess(a, c)
  {
    PartsLessTransitive(a.parts, b.parts, c.parts);
  }

  lemma KeyLessTotal(a: Key, b: Key)
    ensures a == b || KeyLess(a, b) || KeyLess(b, a)
  {
    PartsLessTotal(a.parts, b.parts);
  }

  lemma KeyLessAsymmetric(a: Key, b: Key)
    requires KeyLess(a, b)
    ensures !KeyLess(b, a)
  {
    if KeyLess(b, a) {
      KeyLessTransitive(a, b, a);
      KeyLessIrreflexive(a);
    }
  }

  lemma KeyLeqTransitive(a: Key, b: Key, c: Key)
    requires KeyLeq(a, b) && KeyLeq(b, c)
    ensures KeyLeq(a, c)
  {
    if KeyLess(c, a) {
      KeyLessTotal(a, b);
      if a == b {
        assert false;
      } else {
        KeyLessTransitive(c, a, b);
        assert false;
      }
    }
  }

  /** One spilled row: its sort key and everything else it carries. */
  datatype Row<P> = Row(key: Key, payload: P)

  ghost predicate Sorted<P>(rows: seq<Row<P>>) {
    forall i, j :: 0 <= i < j < |rows| ==> KeyLeq(rows[i].key, rows[j].key)
  }

  function Concat<T>(parts: seq<seq<T>>): seq<T> {
    if parts == [] then [] else parts[0] + Concat(parts[1..])
  }

  lemma {:induction false} ConcatAppend<T>(a: seq<seq<T>>, b: seq<seq<T>>)
    ensures Concat(a + b) == Concat(a) + Concat(b)
  {
    if a == [] {
      assert a + b == b;
    } else {
      var ab, tail := a + b, a[1..];
      assert ab[0] == a[0] && ab[1..] == tail + b;
      ConcatAppend(tail, b);
    }
  }

  lemma ConcatSnoc<T>(a: seq<seq<T>>, last: seq<T>)
    ensures Concat(a + [last]) == Concat(a) + last
  {
    ConcatAppend(a, [last]);
    assert Concat([last]) == last + Concat([]) == last;
  }

  /** The rows of one key, in the order they appear. */
  function WithKey<P>(rows: seq<Row<P>>, k: Key): seq<Row<P>> {
    if rows == [] then []
    else (if rows[0].key == k then [rows[0]] else []) + WithKey(rows[1..], k)
  }

  lemma {:induction false} WithKeyAppend<P>(a: seq<Row<P>>, b: seq<Row<P>>, k: Key)
    ensures WithKey(a + b, k) == WithKey(a, k) + WithKey(b, k)
  {
    if a == [] {
      assert a + b == b;
    } else {
      var ab, tail := a + b, a[1..];
      assert ab[0] == a[0] && ab[1..] == tail + b;
      WithKeyAppend(tail, b, k);
    }
  }

  lemma {:induction false} WithKeyMember<P>(rows: seq<Row<P>>, i: nat)
    requires i < |rows|
    ensures WithKey(rows, rows[i].key) != []
  {
    if i > 0 {
      WithKeyMember(rows[1..], i - 1);
    }
  }

  lemma {:induction false} WithKeyOnlyKey<P>(rows: seq<Row<P>>, k: Key)
    ensures forall r :: r in WithKey(rows, k) ==> r.key == k && r in rows
  {
    if rows != [] {
      WithKeyOnlyKey(rows[1..], k);
    }
  }

  /** A sorted sequence is determined by the per-key subsequences it contains. */
  lemma {:induction false} StableSortUnique<P>(a: seq<Row<P>>, b: seq<Row<P>>)
    requires Sorted(a) && Sorted(b)
    requires forall k :: WithKey(a, k) == WithKey(b, k)
    ensures a == b
  {
    if a == [] {
      if b != [] { WithKeyMember(b, 0); }
    } else if b == [] {
      WithKeyMember(a, 0);
    } else {
      HeadKeyLeast(a, b);
      HeadKeyLeast(b, a);
      KeyLessTotal(a[0].key, b[0].key);
      assert WithKey(a, a[0].key)[0] == a[0];
      assert WithKey(b, a[0].key)[0] == b[0];
      forall k ensures WithKey(a[1..], k) == WithKey(b[1..], k) {
        assert WithKey(a, k) == WithKey(b, k);
        if k == a[0].key {
          assert WithKey(a[1..], k) == WithKey(a, k)[1..];
          assert WithKey(b[1..], k) == WithKey(b, k)[1..];
        } else {
          assert WithKey(a, k) == WithKey(a[1..], k);
          assert WithKey(b, k) == WithKey(b[1..], k);
        }
      }
      StableSortUnique(a[1..], b[1..]);
      assert a == [a[0]] + a[1..];
      assert b == [b[0]] + b[1..];
    }
  }

  lemma HeadKeyLeast<P>(a: seq<Row<P>>, b: seq<Row<P>>)
    requires a != [] && b != [] && Sorted(a)
    requires forall k :: WithKey(a, k) == WithKey(b, k)
    ensures KeyLeq(a[0].key, b[0].key)
  {
    WithKeyMember(b, 0);
    WithKeyOnlyKey(a, b[0].key);
    var r := WithKey(a, b[0].key)[0];
    assert r in WithKey(a, b[0].key);
    assert r in a && r.key == b[0].key;
    var i :| 0 <= i < |a| && a[i] == r;
    KeyLessIrreflexive(a[0].key);
    assert i == 0 || KeyLeq(a[0].key, a[i].key);
  }
}
