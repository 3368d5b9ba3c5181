/**
 * `Array.prototype.sort` with the comparator `(a, b) => key(b) - key(a)`: a stable sort into
 * descending order of an integer key, written as an insertion sort.
 */
module Ranking {

  /** Places `x` before the first element whose key does not exceed its own. */
  function Insert<T>(x: T, s: seq<T>, key: T -> int): seq<T> {
    if s == [] || key(x) >= key(s[0]) then [x] + s else [s[0]] + Insert(x, s[1..], key)
  }

  function SortDesc<T>(s: seq<T>, key: T -> int): seq<T> {
    if s == [] then [] else Insert(s[0], SortDesc(s[1..], key), key)
  }

  ghost predicate Descending<T>(s: seq<T>, key: T -> int) {
    forall i, j :: 0 <= i < j < |s| ==> key(s[i]) >= key(s[j])
  }

  /** The elements of `s` whose key is `v`, in their order in `s`. */
  function WithKey<T>(s: seq<T>, key: T -> int, v: int): seq<T> {
    if s == [] then [] else (if key(s[0]) == v then [s[0]] else []) + WithKey(s[1..], key, v)
  }

  /** The sum of `f` over the elements of `s`. */
  function SumOf<T>(s: seq<T>, f: T -> int): int {
    if s == [] then 0 else f(s[0]) + SumOf(s[1..], f)
  }

  lemma {:induction false} InsertPermutes<T>(x: T, s: seq<T>, key: T -> int)
    ensures multiset(Insert(x, s, key)) == multiset(s) + multiset{x}
  {
    if s != [] && key(x) < key(s[0]) {
      InsertPermutes(x, s[1..], key);
      assert s == [s[0]] + s[1..];
    }
  }

  lemma {:induction false} InsertBounded<T>(x: T, s: seq<T>, key: T -> int, b: int)
    requires key(x) <= b
    requires forall i :: 0 <= i < |s| ==> key(s[i]) <= b
    ensures forall i :: 0 <= i < |Insert(x, s, key)| ==> key(Insert(x, s, key)[i]) <= b
  {
    if s != [] && key(x) < key(s[0]) {
      InsertBounded(x, s[1..], key, b);
    }
  }

  lemma {:induction false} InsertKeepsDescending<T>(x: T, s: seq<T>, key: T -> int)
    requires Descending(s, key)
    ensures Descending(Insert(x, s, key), key)
  {
    var r := Insert(x, s, key);
    if s == [] || key(x) >= key(s[0]) {
      forall i, j | 0 <= i < j < |r| ensures key(r[i]) >= key(r[j]) {
        if i > 0 { assert r[i] == s[i - 1]; }
      }
    } else {
      var t := Insert(x, s[1..], key);
      InsertKeepsDescending(x, s[1..], key);
      InsertBounded(x, s[1..], key, key(s[0]));
      forall i, j | 0 <= i < j < |r| ensures key(r[i]) >= key(r[j]) {
        if i > 0 { assert r[i] == t[i - 1] && r[j] == t[j - 1]; }
        else { assert r[j] == t[j - 1]; }
      }
    }
  }

  lemma {:induction false} InsertStable<T>(x: T, s: seq<T>, key: T -> int, v: int)
    ensures WithKey(Insert(x, s, key), key, v) == WithKey([x] + s, key, v)
  {
    assert ([x] + s)[1..] == s;
    if s != [] && key(x) < key(s[0]) {
      var t := Insert(x, s[1..], key);
      InsertStable(x, s[1..], key, v);
      assert ([s[0]] + t)[1..] == t;
      assert ([x] + s[1..])[1..] == s[1..];
    }
  }

  /** The result is ordered, a permutation of the input, and keeps tied elements in input order. */
  lemma {:induction false} SortDescFacts<T>(s: seq<T>, key: T -> int)
    ensures |SortDesc(s, key)| == |s|
    ensures multiset(SortDesc(s, key)) == multiset(s)
    ensures Descending(SortDesc(s, key), key)
    ensures forall v :: WithKey(SortDesc(s, key), key, v) == WithKey(s, key, v)
  {
    if s != [] {
      var t := SortDesc(s[1..], key);
      SortDescFacts(s[1..], key);
      InsertPermutes(s[0], t, key);
      InsertKeepsDescending(s[0], t, key);
      assert s == [s[0]] + s[1..];
      forall v ensures WithKey(SortDesc(s, key), key, v) == WithKey(s, key, v) {
        InsertStable(s[0], t, key, v);
        assert ([s[0]] + t)[1..] == t;
      }
      assert |SortDesc(s, key)| == |multiset(SortDesc(s, key))|;
    }
  }

  lemma {:induction false} SumOfInsert<T>(x: T, s: seq<T>, key: T -> int, f: T -> int)
    ensures SumOf(Insert(x, s, key), f) == f(x) + SumOf(s, f)
  {
    if s != [] && key(x) < key(s[0]) {
      SumOfInsert(x, s[1..], key, f);
      assert ([s[0]] + Insert(x, s[1..], key))[1..] == Insert(x, s[1..], key);
    } else {
      assert ([x] + s)[1..] == s;
    }
  }

  /** Sorting does not change any sum over the elements. */
  lemma {:induction false} SumOfSortDesc<T>(s: seq<T>, key: T -> int, f: T -> int)
    ensures SumOf(SortDesc(s, key), f) == SumOf(s, f)
  {
    if s != [] {
      SumOfSortDesc(s[1..], key, f);
      SumOfInsert(s[0], SortDesc(s[1..], key), key, f);
    }
  }

  lemma {:induction false} SumOfAppend<T>(s: seq<T>, x: T, f: T -> int)
    ensures SumOf(s + [x], f) == SumOf(s, f) + f(x)
  {
    if s != [] {
      assert (s + [x])[1..] == s[1..] + [x];
      SumOfAppend(s[1..], x, f);
    } else {
      assert ([x])[1..] == [];
    }
  }

  lemma {:induction false} SumOfUpdate<T>(s: seq<T>, k: nat, x: T, f: T -> int)
    requires k < |s|
    ensures SumOf(s[k := x], f) == SumOf(s, f) - f(s[k]) + f(x)
  {
    if k > 0 {
      assert s[k := x][1..] == s[1..][k - 1 := x];
      SumOfUpdate(s[1..], k - 1, x, f);
    } else {
      assert s[k := x][1..] == s[1..];
    }
  }

  /** No two elements share an identifier. */
  ghost predicate DistinctBy<T>(s: seq<T>, id: T -> string) {
    forall i, j :: 0 <= i < j < |s| ==> id(s[i]) != id(s[j])
  }

  lemma {:induction false} InsertKeepsDistinct<T>(x: T, s: seq<T>, key: T -> int, id: T -> string)
    requires DistinctBy(s, id)
    requires forall i :: 0 <= i < |s| ==> id(s[i]) != id(x)
    ensures DistinctBy(Insert(x, s, key), id)
  {
    var r := Insert(x, s, key);
    if s == [] || key(x) >= key(s[0]) {
      forall i, j | 0 <= i < j < |r| ensures id(r[i]) != id(r[j]) {
        assert r[j] == s[j - 1];
        if i > 0 { assert r[i] == s[i - 1]; }
      }
    } else {
      var t := Insert(x, s[1..], key);
      InsertKeepsDistinct(x, s[1..], key, id);
      InsertPermutes(x, s[1..], key);
      forall i, j | 0 <= i < j < |r| ensures id(r[i]) != id(r[j]) {
        assert r[j] == t[j - 1];
        assert r[j] in multiset(t);
        if i == 0 {
          if r[j] != x {
            assert r[j] in s[1..];
          }
        } else {
          assert r[i] == t[i - 1];
        }
      }
    }
  }

  /** Sorting keeps identifiers distinct. */
  lemma {:induction false} SortDescKeepsDistinct<T>(s: seq<T>, key: T -> int, id: T -> string)
    requires DistinctBy(s, id)
    ensures DistinctBy(SortDesc(s, key), id)
  {
    if s != [] {
      var t := SortDesc(s[1..], key);
      assert DistinctBy(s[1..], id);
      SortDescKeepsDistinct(s[1..], key, id);
      SortDescFacts(s[1..], key);
      forall i | 0 <= i < |t| ensures id(t[i]) != id(s[0]) {
        assert t[i] in multiset(s[1..]);
        var k :| 0 <= k < |s[1..]| && s[1..][k] == t[i];
        assert s[k + 1] == t[i];
      }
      InsertKeepsDistinct(s[0], t, key, id);
    }
  }

  /** Elements with equal keys appear in increasing order of `o`. */
  ghost predicate TiesOrderedBy<T>(s: seq<T>, key: T -> int, o: T -> int) {
    forall i, j :: 0 <= i < j < |s| && key(s[i]) == key(s[j]) ==> o(s[i]) < o(s[j])
  }

  lemma {:induction false} InsertKeepsTieOrder<T>(x: T, s: seq<T>, key: T -> int, o: T -> int)
    requires TiesOrderedBy(s, key, o)
    requires forall i :: 0 <= i < |s| && key(s[i]) == key(x) ==> o(x) < o(s[i])
    ensures TiesOrderedBy(Insert(x, s, key), key, o)
  {
    var r := Insert(x, s, key);
    if s == [] || key(x) >= key(s[0]) {
      forall i, j | 0 <= i < j < |r| && key(r[i]) == key(r[j]) ensures o(r[i]) < o(r[j]) {
        assert r[j] == s[j - 1];
        if i > 0 { assert r[i] == s[i - 1]; }
      }
    } else {
      var t := Insert(x, s[1..], key);
      InsertKeepsTieOrder(x, s[1..], key, o);
      InsertPermutes(x, s[1..], key);
      forall i, j | 0 <= i < j < |r| && key(r[i]) == key(r[j]) ensures o(r[i]) < o(r[j]) {
        assert r[j] == t[j - 1];
        if i == 0 {
          assert r[j] in multiset(t);
          if r[j] != x {
            assert r[j] in s[1..];
            var k :| 0 <= k < |s[1..]| && s[1..][k] == r[j];
            assert s[k + 1] == r[j];
          }
        } else {
          assert r[i] == t[i - 1];
        }
      }
    }
  }

  /** Sorting keeps tied elements in the order they had. */
  lemma {:induction false} SortDescKeepsTieOrder<T>(s: seq<T>, key: T -> int, o: T -> int)
    requires TiesOrderedBy(s, key, o)
    ensures TiesOrderedBy(SortDesc(s, key), key, o)
  {
    if s != [] {
      var t := SortDesc(s[1..], key);
      assert TiesOrderedBy(s[1..], key, o);
      SortDescKeepsTieOrder(s[1..], key, o);
      SortDescFacts(s[1..], key);
      forall i | 0 <= i < |t| && key(t[i]) == key(s[0]) ensures o(s[0]) < o(t[i]) {
        assert t[i] in multiset(s[1..]);
        var k :| 0 <= k < |s[1..]| && s[1..][k] == t[i];
        assert s[k + 1] == t[i];
      }
      InsertKeepsTieOrder(s[0], t, key, o);
    }
  }
}
