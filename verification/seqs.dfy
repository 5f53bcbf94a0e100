/** Sequence helpers shared by the queries of the model: filtering (SQL
    WHERE), reversal (newest-first), truncation (SQL LIMIT), ordering by a
    key, and a stable insertion sort (Go's sort.Slice and SQL ORDER BY). */
module Seqs {

  /** The elements of `s` that satisfy `p`, in their original order. */
  function Filter<T(!new)>(s: seq<T>, p: T -> bool): (r: seq<T>)
    ensures |r| <= |s|
    ensures forall x :: x in r <==> x in s && p(x)
    ensures forall i :: 0 <= i < |r| ==> p(r[i])
  {
    if s == [] then []
    else (if p(s[0]) then [s[0]] else []) + Filter(s[1..], p)
  }

  /** Appending an element the filter rejects leaves the filtered sequence
      as it was. */
  lemma FilterAppendRejected<T(!new)>(a: seq<T>, x: T, p: T -> bool)
    requires !p(x)
    ensures Filter(a + [x], p) == Filter(a, p)
  {
    FilterAppend(a, [x], p);
    assert Filter([x], p) == [] + Filter([x][1..], p);
  }

  /** Filtering distributes over concatenation. */
  lemma {:induction false} FilterAppend<T(!new)>(a: seq<T>, b: seq<T>, p: T -> bool)
    ensures Filter(a + b, p) == Filter(a, p) + Filter(b, p)
  {
    if a == [] {
      assert a + b == b;
    } else {
      assert (a + b)[1..] == a[1..] + b;
      FilterAppend(a[1..], b, p);
    }
  }

  /** `s` back to front. */
  function Reverse<T>(s: seq<T>): (r: seq<T>)
    ensures |r| == |s|
    ensures forall i :: 0 <= i < |s| ==> r[i] == s[|s| - 1 - i]
  {
    if s == [] then [] else Reverse(s[1..]) + [s[0]]
  }

  /** The first `n` elements of `s`, or all of them if there are fewer. */
  function Take<T>(s: seq<T>, n: nat): (r: seq<T>)
    ensures |r| == if n < |s| then n else |s|
    ensures forall i :: 0 <= i < |r| ==> r[i] == s[i]
  {
    if n < |s| then s[..n] else s
  }

  /** `key` never decreases along `s`. */
  predicate Ascending<T>(s: seq<T>, key: T -> real) {
    forall i, j :: 0 <= i < j < |s| ==> key(s[i]) <= key(s[j])
  }

  /** `key` never increases along `s`. */
  predicate Descending<T>(s: seq<T>, key: T -> real) {
    forall i, j :: 0 <= i < j < |s| ==> key(s[i]) >= key(s[j])
  }

  /** Filtering keeps the relative order of the kept elements. */
  lemma {:induction false} FilterAscending<T(!new)>(s: seq<T>, p: T -> bool, key: T -> real)
    requires Ascending(s, key)
    ensures Ascending(Filter(s, p), key)
  {
    if s != [] {
      FilterAscending(s[1..], p, key);
      var rest := Filter(s[1..], p);
      if p(s[0]) {
        forall j | 0 <= j < |rest|
          ensures key(s[0]) <= key(rest[j])
        {
          assert rest[j] in s[1..];
        }
      }
    }
  }

  /** Filtering keeps a descending order too. */
  lemma {:induction false} FilterDescending<T(!new)>(s: seq<T>, p: T -> bool, key: T -> real)
    requires Descending(s, key)
    ensures Descending(Filter(s, p), key)
  {
    if s != [] {
      FilterDescending(s[1..], p, key);
      var rest := Filter(s[1..], p);
      if p(s[0]) {
        forall j | 0 <= j < |rest|
          ensures key(s[0]) >= key(rest[j])
        {
          assert rest[j] in s[1..];
        }
      }
    }
  }

  /** Reading an ascending sequence backwards gives a descending one. */
  lemma ReverseAscending<T>(s: seq<T>, key: T -> real)
    requires Ascending(s, key)
    ensures Descending(Reverse(s), key)
  {
    var r := Reverse(s);
    forall i, j | 0 <= i < j < |r|
      ensures key(r[i]) >= key(r[j])
    {
      assert r[i] == s[|s| - 1 - i] && r[j] == s[|s| - 1 - j];
    }
  }

  /** A prefix of a descending sequence is descending. */
  lemma TakeDescending<T>(s: seq<T>, n: nat, key: T -> real)
    requires Descending(s, key)
    ensures Descending(Take(s, n), key)
  {
  }

  // ---------------------------------------------------------------------
  // Stable insertion sort
  // ---------------------------------------------------------------------

  /** The number of leading elements of `s` whose key is below `key(x)`. */
  function InsertPos<T>(x: T, s: seq<T>, key: T -> real): (k: nat)
    ensures k <= |s|
    ensures forall i :: 0 <= i < k ==> key(s[i]) < key(x)
    ensures k < |s| ==> key(x) <= key(s[k])
  {
    if s == [] || key(x) <= key(s[0]) then 0 else 1 + InsertPos(x, s[1..], key)
  }

  /** Inserts `x` before the first element whose key is not smaller. */
  function Insert<T>(x: T, s: seq<T>, key: T -> real): (r: seq<T>)
    requires Ascending(s, key)
    ensures |r| == |s| + 1
    ensures multiset(r) == multiset(s) + multiset{x}
    ensures Ascending(r, key)
  {
    var k := InsertPos(x, s, key);
    assert s == s[..k] + s[k..];
    InsertAscending(x, s, key, k);
    s[..k] + [x] + s[k..]
  }

  lemma InsertAscending<T>(x: T, s: seq<T>, key: T -> real, k: nat)
    requires Ascending(s, key)
    requires k <= |s|
    requires forall i :: 0 <= i < k ==> key(s[i]) < key(x)
    requires k < |s| ==> key(x) <= key(s[k])
    ensures Ascending(s[..k] + [x] + s[k..], key)
  {
    var r := s[..k] + [x] + s[k..];
    forall i, j | 0 <= i < j < |r|
      ensures key(r[i]) <= key(r[j])
    {
      if j < k {
        assert r[i] == s[i] && r[j] == s[j];
      } else if j == k {
        assert r[i] == s[i] && r[j] == x;
      } else if i < k {
        assert r[i] == s[i] && r[j] == s[j - 1];
      } else if i == k {
        assert r[i] == x && r[j] == s[j - 1];
        assert key(s[k]) <= key(s[j - 1]);
      } else {
        assert r[i] == s[i - 1] && r[j] == s[j - 1];
      }
    }
  }

  /** `s` ordered by ascending `key`; elements with equal keys keep their
      relative order. */
  function SortBy<T>(s: seq<T>, key: T -> real): (r: seq<T>)
    ensures |r| == |s|
    ensures multiset(r) == multiset(s)
    ensures Ascending(r, key)
  {
    if s == [] then [] else
      assert s == [s[0]] + s[1..];
      Insert(s[0], SortBy(s[1..], key), key)
  }
}
