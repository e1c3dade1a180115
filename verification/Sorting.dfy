/** Sorting by an integer key, as the canonical orders of the protocol need it. */
module Sorting {
  import opened Results

  ghost predicate Sorted<T>(s: seq<T>, key: T -> int) {
    forall i, j :: 0 <= i < j < |s| ==> key(s[i]) <= key(s[j])
  }

  ghost predicate StrictlySorted<T>(s: seq<T>, key: T -> int) {
    forall i, j :: 0 <= i < j < |s| ==> key(s[i]) < key(s[j])
  }

  ghost predicate DistinctKeys<T>(s: seq<T>, key: T -> int) {
    forall i, j :: 0 <= i < j < |s| ==> key(s[i]) != key(s[j])
  }

  /** Inserts after every element whose key is not greater. */
  function Insert<T>(s: seq<T>, x: T, key: T -> int): (r: seq<T>)
    requires Sorted(s, key)
    ensures Sorted(r, key)
    ensures multiset(r) == multiset(s) + multiset{x}
  {
    if s == [] || key(s[|s| - 1]) <= key(x) then s + [x]
    else
      var n := |s| - 1;
      var front := Insert(s[..n], x, key);
      InsertBound(s[..n], x, front, key, s[n]);
      assert s == s[..n] + [s[n]];
      AppendSorted(front, s[n], key);
      front + [s[n]]
  }

  lemma {:induction false} AppendSorted<T>(s: seq<T>, last: T, key: T -> int)
    requires Sorted(s, key) && forall i :: 0 <= i < |s| ==> key(s[i]) <= key(last)
    ensures Sorted(s + [last], key)
  {}

  lemma {:induction false} InsertBound<T>(s: seq<T>, x: T, r: seq<T>, key: T -> int, last: T)
    requires multiset(r) == multiset(s) + multiset{x}
    requires key(x) <= key(last) && forall y :: y in s ==> key(y) <= key(last)
    ensures forall i :: 0 <= i < |r| ==> key(r[i]) <= key(last)
  {
    forall i | 0 <= i < |r| ensures key(r[i]) <= key(last) {
      assert r[i] in multiset(r);
    }
  }

  function Sort<T>(s: seq<T>, key: T -> int): (r: seq<T>)
    ensures Sorted(r, key)
    ensures multiset(r) == multiset(s)
    ensures |r| == |s|
  {
    if s == [] then []
    else
      var n := |s| - 1;
      assert s == s[..n] + [s[n]];
      var r := Insert(Sort(s[..n], key), s[n], key);
      assert |r| == |multiset(r)| == |multiset(s)| == |s|;
      r
  }

  lemma {:induction false} SameElements<T>(a: seq<T>, b: seq<T>, x: T)
    requires multiset(a) == multiset(b)
    ensures x in a <==> x in b
  {
    assert x in a <==> x in multiset(a);
    assert x in b <==> x in multiset(b);
  }

  /** Adjacent comparison is enough on a sorted sequence, as the source checks
    * duplicates with windows of two.
    */
  predicate AdjacentDistinct<T>(s: seq<T>, key: T -> int) {
    forall i :: 0 <= i < |s| - 1 ==> key(s[i]) != key(s[i + 1])
  }

  lemma {:induction false} AdjacentIsStrict<T>(s: seq<T>, key: T -> int)
    requires Sorted(s, key)
    ensures AdjacentDistinct(s, key) <==> StrictlySorted(s, key)
  {
    if AdjacentDistinct(s, key) {
      forall i, j | 0 <= i < j < |s| ensures key(s[i]) < key(s[j]) {
        assert key(s[i]) <= key(s[i + 1]) && key(s[i]) != key(s[i + 1]);
        if i + 1 < j { assert key(s[i + 1]) <= key(s[j]); }
      }
    }
  }

  /** Sorting an input with distinct keys gives strict order, and the converse. */
  lemma {:induction false} SortStrict<T>(s: seq<T>, key: T -> int)
    ensures StrictlySorted(Sort(s, key), key) <==> DistinctKeys(s, key)
  {
    var r := Sort(s, key);
    if StrictlySorted(r, key) {
      forall i, j | 0 <= i < j < |s| ensures key(s[i]) != key(s[j]) {
        if key(s[i]) == key(s[j]) {
          assert s[i] in multiset(s) && s[j] in multiset(s);
          SameElements(s, r, s[i]);
          SameElements(s, r, s[j]);
          assert s[i] == s[j];
          TwiceInSeq(s, i, j);
          StrictOnce(r, key, s[i]);
        }
      }
    }
    if DistinctKeys(s, key) {
      forall i, j | 0 <= i < j < |r| ensures key(r[i]) < key(r[j]) {
        assert key(r[i]) <= key(r[j]);
        if key(r[i]) == key(r[j]) {
          SameElements(s, r, r[i]);
          SameElements(s, r, r[j]);
          assert r[i] == r[j];
          TwiceInSeq(r, i, j);
          DistinctOnce(s, key, r[i]);
        }
      }
    }
  }

  lemma {:induction false} TwiceInSeq<T>(s: seq<T>, i: nat, j: nat)
    requires i < j < |s| && s[i] == s[j]
    ensures multiset(s)[s[i]] >= 2
  {
    assert s == s[..i] + [s[i]] + s[i + 1..j] + [s[j]] + s[j + 1..];
  }

  lemma {:induction false} DistinctOnce<T>(s: seq<T>, key: T -> int, x: T)
    requires DistinctKeys(s, key)
    ensures multiset(s)[x] <= 1
  {
    if s != [] {
      var n := |s| - 1;
      DistinctOnce(s[..n], key, x);
      assert s == s[..n] + [s[n]];
      assert forall i :: 0 <= i < n ==> key(s[i]) != key(s[n]);
    }
  }

  lemma {:induction false} StrictOnce<T>(s: seq<T>, key: T -> int, x: T)
    requires StrictlySorted(s, key)
    ensures multiset(s)[x] <= 1
  {
    DistinctOnce(s, key, x);
  }

  /** A strictly sorted sequence is determined by its elements. */
  lemma {:induction false} StrictUnique<T>(a: seq<T>, b: seq<T>, key: T -> int)
    requires StrictlySorted(a, key) && StrictlySorted(b, key)
    requires forall x :: x in a <==> x in b
    ensures a == b
    decreases |a|
  {
    if a == [] {
      assert forall i :: 0 <= i < |b| ==> b[i] in b;
    } else {
      assert a[|a| - 1] in b;
      var n, m := |a| - 1, |b| - 1;
      assert a[n] == b[m] by {
        var i :| 0 <= i < |b| && b[i] == a[n];
        assert b[m] in a;
        var j :| 0 <= j < |a| && a[j] == b[m];
      }
      forall x ensures x in a[..n] <==> x in b[..m] {
        if x in a[..n] { assert x in b; assert x != a[n]; }
        if x in b[..m] { assert x in a; assert x != b[m]; }
      }
      StrictUnique(a[..n], b[..m], key);
      assert a == a[..n] + [a[n]] && b == b[..m] + [b[m]];
    }
  }

  /** Delivery order does not matter: any two arrangements of entries with
    * distinct keys sort to the same sequence.
    */
  lemma {:induction false} SortPermute<T>(a: seq<T>, b: seq<T>, key: T -> int)
    requires multiset(a) == multiset(b) && DistinctKeys(a, key)
    ensures Sort(a, key) == Sort(b, key)
    ensures DistinctKeys(b, key)
  {
    hide Sort;
    var r, t := Sort(a, key), Sort(b, key);
    PermuteDistinct(a, b, key);
    SortStrict(a, key);
    SortStrict(b, key);
    forall x ensures x in r <==> x in t {
      SameElements(r, t, x);
    }
    StrictUnique(r, t, key);
  }

  lemma {:induction false} PermuteDistinct<T>(a: seq<T>, b: seq<T>, key: T -> int)
    requires multiset(a) == multiset(b) && DistinctKeys(a, key)
    ensures DistinctKeys(b, key)
  {
    forall i, j | 0 <= i < j < |b| ensures key(b[i]) != key(b[j]) {
      if key(b[i]) == key(b[j]) {
        SameElements(a, b, b[i]);
        SameElements(a, b, b[j]);
        assert b[i] == b[j];
        TwiceInSeq(b, i, j);
        DistinctOnce(a, key, b[i]);
      }
    }
  }

  /** Sorting leaves an already strictly sorted sequence alone. */
  lemma {:induction false} SortSorted<T>(a: seq<T>, key: T -> int)
    requires StrictlySorted(a, key)
    ensures Sort(a, key) == a
  {
    var r := Sort(a, key);
    SortStrict(a, key);
    forall x ensures x in r <==> x in a { SameElements(r, a, x); }
    StrictUnique(r, a, key);
  }

  /** The first index holding `k`; on strictly sorted input this is what a binary
    * search returns.
    */
  function Find<T>(s: seq<T>, key: T -> int, k: int): (r: Option<nat>)
    ensures r.Some? ==> r.value < |s| && key(s[r.value]) == k
    ensures r.None? ==> forall x :: x in s ==> key(x) != k
  {
    if s == [] then None
    else if key(s[0]) == k then Some(0)
    else
      var r := Find(s[1..], key, k);
      if r.Some? then Some(r.value + 1) else None
  }

  lemma {:induction false} FindAt<T>(s: seq<T>, key: T -> int, i: nat)
    requires i < |s| && DistinctKeys(s, key)
    ensures Find(s, key, key(s[i])) == Some(i)
  {
    var r := Find(s, key, key(s[i]));
    assert s[i] in s;
    assert r.Some? && key(s[r.value]) == key(s[i]);
  }

  // ----- iteration in key order

  ghost predicate InjectiveOn<T>(s: set<T>, key: T -> int) {
    forall x, y :: x in s && y in s && key(x) == key(y) ==> x == y
  }

  lemma {:induction false} LeastExists<T>(s: set<T>, key: T -> int)
    requires s != {}
    ensures exists x :: x in s && forall y :: y in s ==> key(x) <= key(y)
  {
    var x :| x in s;
    if s != {x} {
      LeastExists(s - {x}, key);
      var z :| z in s - {x} && forall y :: y in s - {x} ==> key(z) <= key(y);
      var least := if key(x) <= key(z) then x else z;
      assert least in s && forall y :: y in s ==> key(least) <= key(y);
    } else {
      assert x in s && forall y :: y in s ==> key(x) <= key(y);
    }
  }

  /** The elements of a finite set in the order of their keys, as an ordered map
    * iterates.
    */
  function Ascending<T(==,!new)>(s: set<T>, key: T -> int): (r: seq<T>)
    requires InjectiveOn(s, key)
    ensures StrictlySorted(r, key)
    ensures forall x :: x in r <==> x in s
    ensures |r| == |s|
  {
    if s == {} then []
    else
      LeastExists(s, key);
      var x :| x in s && forall y :: y in s ==> key(x) <= key(y);
      var rest := Ascending(s - {x}, key);
      PrependStrict(x, rest, key);
      [x] + rest
  }

  lemma {:induction false} PrependStrict<T>(x: T, r: seq<T>, key: T -> int)
    requires StrictlySorted(r, key)
    ensures (forall y :: y in r ==> key(x) < key(y)) ==> StrictlySorted([x] + r, key)
  {
    if forall y :: y in r ==> key(x) < key(y) {
      forall i, j | 0 <= i < j < |[x] + r| ensures key(([x] + r)[i]) < key(([x] + r)[j]) {
        assert ([x] + r)[j] == r[j - 1];
        if i == 0 { assert r[j - 1] in r; }
      }
    }
  }

  /** Any strictly sorted listing of the set is that iteration. */
  lemma {:induction false} AscendingIs<T(!new)>(s: set<T>, key: T -> int, r: seq<T>)
    requires InjectiveOn(s, key) && StrictlySorted(r, key) && forall x :: x in r <==> x in s
    ensures Ascending(s, key) == r
  {
    StrictUnique(Ascending(s, key), r, key);
  }
}
