/**
 * Java's List.sort and Stream.sorted are stable sorts. Every sort in the journal orders
 * by one integer key (a date's ordinal, or a negated key for a reversed comparator), so
 * one stable insertion sort on an integer key stands for all of them.
 */
module Ordering {

  predicate SortedBy<T>(s: seq<T>, key: T -> int)
  {
    forall i, j :: 0 <= i < j < |s| ==> key(s[i]) <= key(s[j])
  }

  predicate StrictlySortedBy<T>(s: seq<T>, key: T -> int)
  {
    forall i, j :: 0 <= i < j < |s| ==> key(s[i]) < key(s[j])
  }

  /** Puts x after every element whose key is not greater than its own. */
  function Insert<T>(s: seq<T>, x: T, key: T -> int): (r: seq<T>)
    ensures multiset(r) == multiset(s) + multiset{x}
    ensures |r| == |s| + 1
  {
    if s == [] then [x]
    else if key(x) < key(s[0]) then [x] + s
    else
      assert s == [s[0]] + s[1..];
      [s[0]] + Insert(s[1..], x, key)
  }

  lemma {:induction false} InsertSorted<T>(s: seq<T>, x: T, key: T -> int)
    requires SortedBy(s, key)
    ensures SortedBy(Insert(s, x, key), key)
  {
    if s != [] && key(x) >= key(s[0]) {
      var rest := Insert(s[1..], x, key);
      InsertSorted(s[1..], x, key);
      forall j | 0 <= j < |rest| ensures key(s[0]) <= key(rest[j]) {
        assert rest[j] in multiset(rest);
        if rest[j] != x {
          assert rest[j] in multiset(s[1..]);
          var m :| 0 <= m < |s[1..]| && s[1..][m] == rest[j];
          assert s[m + 1] == rest[j];
        }
      }
      ConsSorted(s[0], rest, key);
    }
  }

  /** Inserting an element whose key is new into a strictly sorted sequence keeps it strictly sorted. */
  lemma {:induction false} InsertStrictlySorted<T>(s: seq<T>, x: T, key: T -> int)
    requires StrictlySortedBy(s, key)
    requires forall i :: 0 <= i < |s| ==> key(s[i]) != key(x)
    ensures StrictlySortedBy(Insert(s, x, key), key)
  {
    if s != [] && key(x) >= key(s[0]) {
      var rest := Insert(s[1..], x, key);
      InsertStrictlySorted(s[1..], x, key);
      forall j | 0 <= j < |rest| ensures key(s[0]) < key(rest[j]) {
        assert rest[j] in multiset(rest);
        if rest[j] != x {
          assert rest[j] in multiset(s[1..]);
          var m :| 0 <= m < |s[1..]| && s[1..][m] == rest[j];
          assert s[m + 1] == rest[j];
        }
      }
      ConsStrictlySorted(s[0], rest, key);
    }
  }

  /** A head no greater than every element of a sorted tail gives a sorted sequence. */
  lemma ConsSorted<T>(h: T, rest: seq<T>, key: T -> int)
    requires SortedBy(rest, key)
    requires forall j :: 0 <= j < |rest| ==> key(h) <= key(rest[j])
    ensures SortedBy([h] + rest, key)
  {
  }

  /** A head smaller than every element of a strictly sorted tail gives a strictly sorted sequence. */
  lemma ConsStrictlySorted<T>(h: T, rest: seq<T>, key: T -> int)
    requires StrictlySortedBy(rest, key)
    requires forall j :: 0 <= j < |rest| ==> key(h) < key(rest[j])
    ensures StrictlySortedBy([h] + rest, key)
  {
  }

  /** A last element greater than every element of a strictly sorted prefix keeps it strictly sorted. */
  lemma SnocStrictlySorted<T>(r: seq<T>, x: T, key: T -> int)
    requires StrictlySortedBy(r, key)
    requires forall i :: 0 <= i < |r| ==> key(r[i]) < key(x)
    ensures StrictlySortedBy(r + [x], key)
  {
  }

  /** A for-each loop that appends f(x) for each x of s, in order. */
  method MapEach<A, B>(s: seq<A>, f: A -> B) returns (r: seq<B>)
    ensures |r| == |s| && forall k :: 0 <= k < |s| ==> r[k] == f(s[k])
  {
    r := [];
    var i := 0;
    while i < |s|
      invariant 0 <= i <= |s|
      invariant |r| == i && forall k :: 0 <= k < i ==> r[k] == f(s[k])
    {
      r := r + [f(s[i])];
      i := i + 1;
    }
  }

  /** Reversing keeps the elements. */
  lemma ReverseMembers<T>(s: seq<T>)
    ensures forall x :: x in Reverse(s) ==> x in s
  {
    forall x | x in Reverse(s) ensures x in s {
      var i :| 0 <= i < |s| && Reverse(s)[i] == x;
      assert s[|s| - 1 - i] == x;
    }
  }

  /** In a strictly ordered list, everything before the last element has a smaller key. */
  lemma BeforeLastIsSmaller<T>(s: seq<T>, key: T -> int)
    requires s != [] && StrictlySortedBy(s, key)
    ensures forall x :: x in s[..|s| - 1] ==> key(x) < key(s[|s| - 1])
  {
    forall x | x in s[..|s| - 1] ensures key(x) < key(s[|s| - 1]) {
      var j :| 0 <= j < |s| - 1 && s[..|s| - 1][j] == x;
      assert s[j] == x;
    }
  }

  /** Stable sort by key: insertion of each element, in input order, into the sorted prefix. */
  function SortBy<T>(s: seq<T>, key: T -> int): (r: seq<T>)
    ensures multiset(r) == multiset(s)
    ensures |r| == |s|
    ensures SortedBy(r, key)
  {
    if s == [] then []
    else
      assert s == s[..|s| - 1] + [s[|s| - 1]];
      InsertSorted(SortBy(s[..|s| - 1], key), s[|s| - 1], key);
      Insert(SortBy(s[..|s| - 1], key), s[|s| - 1], key)
  }

  /** The elements of s whose key is k, in their order in s. */
  function WithKey<T>(s: seq<T>, key: T -> int, k: int): seq<T>
  {
    if s == [] then []
    else WithKey(s[..|s| - 1], key, k) + (if key(s[|s| - 1]) == k then [s[|s| - 1]] else [])
  }

  lemma {:induction false} WithKeyCons<T>(x: T, s: seq<T>, key: T -> int, k: int)
    ensures WithKey([x] + s, key, k) == (if key(x) == k then [x] else []) + WithKey(s, key, k)
    decreases |s|
  {
    if s != [] {
      var t := [x] + s;
      assert t[..|t| - 1] == [x] + s[..|s| - 1];
      WithKeyCons(x, s[..|s| - 1], key, k);
    } else {
      assert ([x] + s)[..0] == [];
    }
  }

  lemma {:induction false} WithKeyAbsent<T>(s: seq<T>, key: T -> int, k: int)
    requires forall i :: 0 <= i < |s| ==> key(s[i]) != k
    ensures WithKey(s, key, k) == []
  {
    if s != [] {
      WithKeyAbsent(s[..|s| - 1], key, k);
    }
  }

  lemma {:induction false} InsertWithKey<T>(s: seq<T>, x: T, key: T -> int, k: int)
    requires SortedBy(s, key)
    ensures WithKey(Insert(s, x, key), key, k) == WithKey(s, key, k) + (if key(x) == k then [x] else [])
  {
    if s == [] {
      assert [x][..0] == [];
    } else if key(x) < key(s[0]) {
      WithKeyCons(x, s, key, k);
      if key(x) == k {
        WithKeyAbsent(s, key, k);
      }
    } else {
      assert SortedBy(s[1..], key);
      InsertWithKey(s[1..], x, key, k);
      InsertWithKeyStep(s, x, key, k);
    }
  }

  /** The step of InsertWithKey past a head that x does not go before. */
  lemma InsertWithKeyStep<T>(s: seq<T>, x: T, key: T -> int, k: int)
    requires s != [] && key(s[0]) <= key(x)
    requires WithKey(Insert(s[1..], x, key), key, k) == WithKey(s[1..], key, k) + (if key(x) == k then [x] else [])
    ensures WithKey(Insert(s, x, key), key, k) == WithKey(s, key, k) + (if key(x) == k then [x] else [])
  {
    var tail := if key(x) == k then [x] else [];
    var head := if key(s[0]) == k then [s[0]] else [];
    calc {
      WithKey(Insert(s, x, key), key, k);
      WithKey([s[0]] + Insert(s[1..], x, key), key, k);
      { WithKeyCons(s[0], Insert(s[1..], x, key), key, k); }
      head + WithKey(Insert(s[1..], x, key), key, k);
      head + (WithKey(s[1..], key, k) + tail);
      { ConcatAssoc(head, WithKey(s[1..], key, k), tail); }
      (head + WithKey(s[1..], key, k)) + tail;
      { WithKeyCons(s[0], s[1..], key, k); assert [s[0]] + s[1..] == s; }
      WithKey(s, key, k) + tail;
    }
  }

  /** The last element of a sorted sequence has the largest key. */
  lemma LastIsLargest<T>(s: seq<T>, key: T -> int)
    requires s != [] && SortedBy(s, key)
    ensures forall x :: x in s ==> key(x) <= key(s[|s| - 1])
  {
    forall x | x in s ensures key(x) <= key(s[|s| - 1]) {
      var i :| 0 <= i < |s| && s[i] == x;
      assert i == |s| - 1 || i < |s| - 1;
    }
  }

  lemma ConcatEmpty<T>(s: seq<T>)
    ensures [] + s == s
  {
  }

  lemma ConcatAssoc<T>(a: seq<T>, b: seq<T>, c: seq<T>)
    ensures a + (b + c) == (a + b) + c
  {
  }

  /** Stability: among elements with equal keys the sort keeps the input order. */
  lemma {:induction false} SortByIsStable<T>(s: seq<T>, key: T -> int, k: int)
    ensures WithKey(SortBy(s, key), key, k) == WithKey(s, key, k)
  {
    if s != [] {
      SortByIsStable(s[..|s| - 1], key, k);
      InsertWithKey(SortBy(s[..|s| - 1], key), s[|s| - 1], key, k);
    }
  }

  /** Sorting a sequence that is already sorted leaves it unchanged. */
  lemma {:induction false} SortBySorted<T>(s: seq<T>, key: T -> int)
    requires SortedBy(s, key)
    ensures SortBy(s, key) == s
  {
    if s != [] {
      var p, last := s[..|s| - 1], s[|s| - 1];
      assert SortedBy(p, key);
      assert forall i :: 0 <= i < |p| ==> key(p[i]) <= key(last) by {
        forall i | 0 <= i < |p| ensures key(p[i]) <= key(last) {
          assert p[i] == s[i];
        }
      }
      calc {
        SortBy(s, key);
        Insert(SortBy(p, key), last, key);
        { SortBySorted(p, key); }
        Insert(p, last, key);
        { InsertAtEnd(p, last, key); }
        p + [last];
        s;
      }
    }
  }

  lemma {:induction false} InsertAtEnd<T>(s: seq<T>, x: T, key: T -> int)
    requires forall i :: 0 <= i < |s| ==> key(s[i]) <= key(x)
    ensures Insert(s, x, key) == s + [x]
  {
    if s != [] {
      InsertAtEnd(s[1..], x, key);
      assert [s[0]] + (s[1..] + [x]) == s + [x];
    }
  }

  function Reverse<T>(s: seq<T>): (r: seq<T>)
    ensures |r| == |s|
    ensures forall i :: 0 <= i < |s| ==> r[i] == s[|s| - 1 - i]
  {
    if s == [] then [] else [s[|s| - 1]] + Reverse(s[..|s| - 1])
  }

  /** A sequence whose keys strictly decrease is sorted into its reverse. */
  lemma {:induction false} SortByDecreasing<T>(s: seq<T>, key: T -> int)
    requires forall i, j :: 0 <= i < j < |s| ==> key(s[i]) > key(s[j])
    ensures SortBy(s, key) == Reverse(s)
  {
    if s != [] {
      var p := s[..|s| - 1];
      SortByDecreasing(p, key);
      var r := Reverse(p);
      if r != [] {
        assert key(s[|s| - 1]) < key(r[0]);
      }
    }
  }

  /** Stream.limit(k): the first k elements, or all of them when there are fewer. */
  function Take<T>(s: seq<T>, k: nat): (r: seq<T>)
    ensures |r| == if k < |s| then k else |s|
  {
    if k < |s| then s[..k] else s
  }

  /** Taking a prefix keeps sortedness and takes a sub-multiset. */
  lemma TakeOfSorted<T>(s: seq<T>, key: T -> int, k: nat)
    requires SortedBy(s, key)
    ensures SortedBy(Take(s, k), key)
    ensures multiset(Take(s, k)) <= multiset(s)
  {
    if k < |s| {
      assert s == s[..k] + s[k..];
    }
  }

  /** What a prefix of a sorted sequence leaves out has a key no smaller than anything it keeps. */
  lemma TakeLeavesLarger<T>(s: seq<T>, key: T -> int, k: nat)
    requires SortedBy(s, key)
    ensures forall x :: x in s && x !in Take(s, k) ==>
              forall i :: 0 <= i < |Take(s, k)| ==> key(Take(s, k)[i]) <= key(x)
  {
    forall x | x in s && x !in Take(s, k)
      ensures forall i :: 0 <= i < |Take(s, k)| ==> key(Take(s, k)[i]) <= key(x)
    {
      var j :| 0 <= j < |s| && s[j] == x;
      assert j >= |Take(s, k)|;
    }
  }
}
