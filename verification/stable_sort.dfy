/**
 * The ordering the system relies on: Array.prototype.sort with a comparator
 * `(a, b) => key(b) - key(a)`, which is stable, followed by slice(0, n).
 * Stability is stated by the sub-sequence of elements sharing one key: the
 * sort keeps it exactly as it was. Sortedness, the multiset and those
 * sub-sequences pin the result down uniquely (SortIsUnique), so this
 * insertion sort returns what any stable sort returns.
 */
module StableSort {

  /** Non-increasing by key. */
  ghost predicate SortedDesc<T>(s: seq<T>, key: T -> real) {
    forall i, j :: 0 <= i < j < |s| ==> key(s[i]) >= key(s[j])
  }

  /** The elements of s whose key is k, in their order in s. */
  function WithKey<T>(s: seq<T>, key: T -> real, k: real): (r: seq<T>)
    ensures |r| <= |s|
    ensures forall i :: 0 <= i < |r| ==> key(r[i]) == k
  {
    if |s| == 0 then []
    else (if key(s[0]) == k then [s[0]] else []) + WithKey(s[1..], key, k)
  }

  /** Places x in front of the first element whose key is not greater than key(x). */
  function Insert<T>(x: T, s: seq<T>, key: T -> real): (r: seq<T>)
    ensures |r| == |s| + 1
    ensures multiset(r) == multiset(s) + multiset{x}
  {
    if |s| == 0 || key(s[0]) <= key(x) then [x] + s
    else
      assert s == [s[0]] + s[1..];
      [s[0]] + Insert(x, s[1..], key)
  }

  /** Inserting into a sorted list keeps it sorted. */
  lemma {:induction false} InsertSorted<T>(x: T, s: seq<T>, key: T -> real)
    requires SortedDesc(s, key)
    ensures SortedDesc(Insert(x, s, key), key)
    decreases |s|
  {
    if |s| > 0 && key(s[0]) > key(x) {
      InsertSorted(x, s[1..], key);
      InsertFirst(x, s[1..], key);
    }
  }

  /** The head of Insert(x, s) is x or the head of s. */
  lemma InsertFirst<T>(x: T, s: seq<T>, key: T -> real)
    ensures Insert(x, s, key)[0] == x || (|s| > 0 && Insert(x, s, key)[0] == s[0])
  {
  }

  /** x lands in front of every element of s sharing its key, and no other key's sub-sequence changes. */
  lemma {:induction false} InsertWithKey<T>(x: T, s: seq<T>, key: T -> real, k: real)
    ensures WithKey(Insert(x, s, key), key, k) == (if key(x) == k then [x] else []) + WithKey(s, key, k)
    decreases |s|
  {
    if |s| == 0 || key(s[0]) <= key(x) {
      assert ([x] + s)[1..] == s;
    } else {
      var t := Insert(x, s[1..], key);
      InsertWithKey(x, s[1..], key, k);
      assert ([s[0]] + t)[1..] == t;
    }
  }

  /** Stable sort into non-increasing key order. */
  function Sort<T>(s: seq<T>, key: T -> real): (r: seq<T>)
    ensures |r| == |s|
    ensures multiset(r) == multiset(s)
  {
    if |s| == 0 then []
    else
      assert s == [s[0]] + s[1..];
      Insert(s[0], Sort(s[1..], key), key)
  }

  /** Sorting loses no element: the position x moved to. */
  lemma SortKeeps<T>(s: seq<T>, key: T -> real, x: T) returns (j: nat)
    requires x in s
    ensures j < |Sort(s, key)| && Sort(s, key)[j] == x
  {
    assert x in multiset(s);
    assert x in Sort(s, key);
    j :| 0 <= j < |Sort(s, key)| && Sort(s, key)[j] == x;
  }

  /** The sort's result is in non-increasing key order. */
  lemma {:induction false} SortSorted<T>(s: seq<T>, key: T -> real)
    ensures SortedDesc(Sort(s, key), key)
    decreases |s|
  {
    if |s| > 0 {
      SortSorted(s[1..], key);
      InsertSorted(s[0], Sort(s[1..], key), key);
    }
  }

  /** Stability: the elements sharing any one key keep their input order. */
  lemma {:induction false} SortStable<T>(s: seq<T>, key: T -> real, k: real)
    ensures WithKey(Sort(s, key), key, k) == WithKey(s, key, k)
    decreases |s|
  {
    if |s| > 0 {
      SortStable(s[1..], key, k);
      InsertWithKey(s[0], Sort(s[1..], key), key, k);
    }
  }

  /** Any sorted rearrangement that keeps each key's sub-sequence is this sort's result. */
  lemma StableSortIsSort<T>(s: seq<T>, r: seq<T>, key: T -> real)
    requires SortedDesc(r, key)
    requires forall k :: WithKey(r, key, k) == WithKey(s, key, k)
    ensures r == Sort(s, key)
  {
    SortSorted(s, key);
    forall k
      ensures WithKey(Sort(s, key), key, k) == WithKey(r, key, k)
    {
      SortStable(s, key, k);
    }
    SortIsUnique(Sort(s, key), r, key);
  }

  /** Array.prototype.slice(0, n) for n >= 0. */
  function Take<T>(s: seq<T>, n: nat): (r: seq<T>)
    ensures |r| == if n < |s| then n else |s|
    ensures r == s[..|r|]
  {
    if n < |s| then s[..n] else s
  }

  /** Truncating a sorted list keeps the highest keys: everything dropped ranks at or below everything kept. */
  lemma TakeKeepsHighest<T>(s: seq<T>, key: T -> real, n: nat)
    requires SortedDesc(s, key)
    ensures SortedDesc(Take(s, n), key)
    ensures forall i, j :: 0 <= i < |Take(s, n)| <= j < |s| ==> key(s[i]) >= key(s[j])
  {
  }

  /** Two sequences that are sorted and agree on every key's sub-sequence are equal. */
  lemma {:induction false} SortIsUnique<T>(a: seq<T>, b: seq<T>, key: T -> real)
    requires SortedDesc(a, key) && SortedDesc(b, key)
    requires forall k :: WithKey(a, key, k) == WithKey(b, key, k)
    ensures a == b
    decreases |a|
  {
    if |a| == 0 {
      if |b| > 0 {
        WithKeyHead(b, key);
      }
    } else {
      WithKeyHead(a, key);
      assert WithKey(b, key, key(a[0])) != [];
      var ib := WithKeyMember(b, key, key(a[0]));
      WithKeyHead(b, key);
      var ia := WithKeyMember(a, key, key(b[0]));
      assert key(a[0]) == key(b[0]);
      assert a[0] == b[0] by {
        assert WithKey(a, key, key(a[0]))[0] == a[0];
        assert WithKey(b, key, key(a[0]))[0] == b[0];
      }
      forall k
        ensures WithKey(a[1..], key, k) == WithKey(b[1..], key, k)
      {
        var h: seq<T> := if key(a[0]) == k then [a[0]] else [];
        assert WithKey(a, key, k) == h + WithKey(a[1..], key, k);
        assert WithKey(b, key, k) == h + WithKey(b[1..], key, k);
        assert (h + WithKey(a[1..], key, k))[|h|..] == WithKey(a[1..], key, k);
        assert (h + WithKey(b[1..], key, k))[|h|..] == WithKey(b[1..], key, k);
      }
      SortIsUnique(a[1..], b[1..], key);
      assert a == [a[0]] + a[1..] && b == [b[0]] + b[1..];
    }
  }

  /** The first element of a non-empty list leads its key's sub-sequence. */
  lemma WithKeyHead<T>(s: seq<T>, key: T -> real)
    requires |s| > 0
    ensures WithKey(s, key, key(s[0])) == [s[0]] + WithKey(s[1..], key, key(s[0]))
  {
  }

  /** An element with key k exists when the sub-sequence for k is not empty. */
  lemma {:induction false} WithKeyMember<T>(s: seq<T>, key: T -> real, k: real) returns (i: nat)
    requires WithKey(s, key, k) != []
    ensures i < |s| && key(s[i]) == k
    decreases |s|
  {
    if key(s[0]) == k {
      i := 0;
    } else {
      var j := WithKeyMember(s[1..], key, k);
      i := j + 1;
    }
  }

  /** A rearrangement of a list without repeats has no repeats. */
  lemma NoRepeatsPermutation<T>(a: seq<T>, b: seq<T>)
    requires multiset(a) == multiset(b)
    requires forall i, j :: 0 <= i < j < |a| ==> a[i] != a[j]
    ensures forall i, j :: 0 <= i < j < |b| ==> b[i] != b[j]
  {
    forall i, j | 0 <= i < j < |b| ensures b[i] != b[j] {
      if b[i] == b[j] {
        assert b == b[..i] + [b[i]] + b[i + 1..j] + [b[j]] + b[j + 1..];
        assert multiset(b)[b[i]] >= 2;
        CountWithoutRepeats(a, b[i]);
        assert false;
      }
    }
  }

  lemma {:induction false} CountWithoutRepeats<T>(s: seq<T>, x: T)
    requires forall i, j :: 0 <= i < j < |s| ==> s[i] != s[j]
    ensures multiset(s)[x] <= 1
    decreases |s|
  {
    if |s| > 0 {
      CountWithoutRepeats(s[1..], x);
      assert s == [s[0]] + s[1..];
      if s[0] == x {
        assert x !in s[1..];
      }
    }
  }
}
