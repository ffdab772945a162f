/**
 * `Array.prototype.sort` with a comparator that orders by a string key with
 * `<` and `>`, as notification.ts and calendar.ts call it. The sort is stable,
 * so it is modelled as insertion sort on values: each element goes after every
 * element before it whose key is not greater.
 */
module Sorting {
  import opened Text

  /** The keys never decrease along the sequence. */
  predicate SortedBy<T>(s: seq<T>, key: T -> string) {
    forall i, j :: 0 <= i < j < |s| ==> AtMost(key(s[i]), key(s[j]))
  }

  /** `x` put before the first element whose key is greater than its own. */
  function Insert<T>(x: T, s: seq<T>, key: T -> string): (r: seq<T>)
    ensures |r| == |s| + 1
    decreases |s|
  {
    if s == [] then [x]
    else if Less(key(x), key(s[0])) then [x] + s
    else [s[0]] + Insert(x, s[1..], key)
  }

  /** The elements sorted by their key, equal keys kept in their order. */
  function Sort<T>(s: seq<T>, key: T -> string): (r: seq<T>)
    ensures |r| == |s|
    decreases |s|
  {
    if s == [] then [] else Insert(s[|s| - 1], Sort(s[..|s| - 1], key), key)
  }

  lemma {:induction false} InsertMultiset<T>(x: T, s: seq<T>, key: T -> string)
    ensures multiset(Insert(x, s, key)) == multiset(s) + multiset{x}
    decreases |s|
  {
    if s != [] && !Less(key(x), key(s[0])) {
      InsertMultiset(x, s[1..], key);
      assert s == [s[0]] + s[1..];
    }
  }

  /** Every element of the insertion is `x` or an element of `s`. */
  lemma {:induction false} InsertElements<T>(x: T, s: seq<T>, key: T -> string)
    ensures forall y :: y in Insert(x, s, key) ==> y == x || y in s
    decreases |s|
  {
    if s != [] && !Less(key(x), key(s[0])) {
      InsertElements(x, s[1..], key);
    }
  }

  lemma {:induction false} InsertSorted<T>(x: T, s: seq<T>, key: T -> string)
    requires SortedBy(s, key)
    ensures SortedBy(Insert(x, s, key), key)
    decreases |s|
  {
    if s == [] {
    } else if Less(key(x), key(s[0])) {
      var r := [x] + s;
      forall i, j | 0 <= i < j < |r|
        ensures AtMost(key(r[i]), key(r[j]))
      {
        if i == 0 {
          LessAtMost(key(x), key(s[0]));
          if j == 1 {
            LessIrreflexive(key(s[0]));
          }
          AtMostTransitive(key(x), key(s[0]), key(s[j - 1]));
        }
      }
    } else {
      var t := Insert(x, s[1..], key);
      InsertSorted(x, s[1..], key);
      InsertElements(x, s[1..], key);
      var r := [s[0]] + t;
      forall i, j | 0 <= i < j < |r|
        ensures AtMost(key(r[i]), key(r[j]))
      {
        if i == 0 {
          assert r[j] in t;
          if r[j] != x {
            var k :| 0 <= k < |s[1..]| && s[1..][k] == r[j];
            assert s[k + 1] == r[j];
          }
        }
      }
    }
  }

  /** A key less than another is at most it. */
  lemma LessAtMost(a: string, b: string)
    requires Less(a, b)
    ensures AtMost(a, b)
  {
    if Less(b, a) {
      LessTransitive(a, b, a);
      LessIrreflexive(a);
    }
  }

  /** The result is sorted by key and holds exactly the input's elements. */
  lemma {:induction false} SortCorrect<T>(s: seq<T>, key: T -> string)
    ensures SortedBy(Sort(s, key), key)
    ensures multiset(Sort(s, key)) == multiset(s)
    decreases |s|
  {
    if s != [] {
      var init := s[..|s| - 1];
      SortCorrect(init, key);
      InsertSorted(s[|s| - 1], Sort(init, key), key);
      InsertMultiset(s[|s| - 1], Sort(init, key), key);
      assert s == init + [s[|s| - 1]];
    }
  }

  /** Sorting a sorted sequence leaves it as it is. */
  lemma {:induction false} SortKeepsSorted<T>(s: seq<T>, key: T -> string)
    requires SortedBy(s, key)
    ensures Sort(s, key) == s
    decreases |s|
  {
    if s != [] {
      var init := s[..|s| - 1];
      assert SortedBy(init, key);
      SortKeepsSorted(init, key);
      InsertAtEnd(s[|s| - 1], init, key);
      assert s == init + [s[|s| - 1]];
    }
  }

  /** An element whose key no earlier key exceeds goes at the end. */
  lemma {:induction false} InsertAtEnd<T>(x: T, s: seq<T>, key: T -> string)
    requires forall i :: 0 <= i < |s| ==> AtMost(key(s[i]), key(x))
    ensures Insert(x, s, key) == s + [x]
    decreases |s|
  {
    if s != [] {
      InsertAtEnd(x, s[1..], key);
      assert [s[0]] + (s[1..] + [x]) == s + [x];
    }
  }
}
