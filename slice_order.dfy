/** The ordering that Image3D.sort applies to its slices.

    The slice comparator compares the projection of each slice's position
    onto the stacking axis; the model abstracts that projection as an integer
    key, which makes the comparator a total preorder. java.util.List.sort is
    guaranteed to be stable, so the model of the library sort is a stable
    insertion sort, and StableSortUnique shows that every stable sort by the
    same key produces exactly the same sequence. */
module SliceOrder {

  /** Non-decreasing under the key. */
  predicate SortedBy<T>(s: seq<T>, key: T -> int) {
    forall i, j :: 0 <= i < j < |s| ==> key(s[i]) <= key(s[j])
  }

  /** The elements of `s` whose key is `k`, in their order in `s`. */
  function WithKey<T>(s: seq<T>, key: T -> int, k: int): seq<T> {
    if s == [] then []
    else (if key(s[0]) == k then [s[0]] else []) + WithKey(s[1..], key, k)
  }

  /** `r` is what a stable sort of `s` by `key` produces: sorted, and the
      elements of every key class keep their relative order. */
  ghost predicate IsStableSortOf<T>(r: seq<T>, s: seq<T>, key: T -> int) {
    && SortedBy(r, key)
    && multiset(r) == multiset(s)
    && forall k :: WithKey(r, key, k) == WithKey(s, key, k)
  }

  /** Places `x` in front of the first element whose key is not below its own. */
  function InsertFirst<T>(x: T, s: seq<T>, key: T -> int): seq<T> {
    if s == [] || key(x) <= key(s[0]) then [x] + s
    else [s[0]] + InsertFirst(x, s[1..], key)
  }

  /** The stable sort of `s` by `key`. */
  function SortByKey<T>(s: seq<T>, key: T -> int): seq<T> {
    if s == [] then [] else InsertFirst(s[0], SortByKey(s[1..], key), key)
  }

  lemma {:induction false} InsertFirstPermutes<T>(x: T, s: seq<T>, key: T -> int)
    ensures multiset(InsertFirst(x, s, key)) == multiset(s) + multiset{x}
  {
    if s != [] && key(s[0]) < key(x) {
      InsertFirstPermutes(x, s[1..], key);
      assert s == [s[0]] + s[1..];
    }
  }

  lemma {:induction false} InsertFirstSorted<T>(x: T, s: seq<T>, key: T -> int)
    requires SortedBy(s, key)
    ensures SortedBy(InsertFirst(x, s, key), key)
  {
    if s != [] && key(s[0]) < key(x) {
      var tail := InsertFirst(x, s[1..], key);
      InsertFirstSorted(x, s[1..], key);
      InsertFirstPermutes(x, s[1..], key);
      forall j | 0 <= j < |tail| ensures key(s[0]) <= key(tail[j]) {
        assert tail[j] in multiset(tail);
        if tail[j] != x {
          assert tail[j] in multiset(s[1..]);
          var i :| 0 <= i < |s[1..]| && s[1..][i] == tail[j];
          assert s[i + 1] == tail[j];
        }
      }
    }
  }

  lemma {:induction false} InsertFirstWithKey<T>(x: T, s: seq<T>, key: T -> int, k: int)
    ensures WithKey(InsertFirst(x, s, key), key, k)
         == (if key(x) == k then [x] else []) + WithKey(s, key, k)
  {
    if s != [] && key(s[0]) < key(x) {
      var r := InsertFirst(x, s[1..], key);
      var whole := [s[0]] + r;
      InsertFirstWithKey(x, s[1..], key, k);
      assert whole[0] == s[0] && whole[1..] == r;
      assert WithKey(whole, key, k)
          == (if key(s[0]) == k then [s[0]] else []) + WithKey(r, key, k);
      assert WithKey(s, key, k)
          == (if key(s[0]) == k then [s[0]] else []) + WithKey(s[1..], key, k);
      if key(x) == k {
        assert key(s[0]) != k;
      }
    }
  }

  lemma {:induction false} SortByKeyPermutes<T>(s: seq<T>, key: T -> int)
    ensures multiset(SortByKey(s, key)) == multiset(s)
  {
    if s != [] {
      SortByKeyPermutes(s[1..], key);
      InsertFirstPermutes(s[0], SortByKey(s[1..], key), key);
      assert s == [s[0]] + s[1..];
    }
  }

  lemma {:induction false} SortByKeySorted<T>(s: seq<T>, key: T -> int)
    ensures SortedBy(SortByKey(s, key), key)
  {
    if s != [] {
      SortByKeySorted(s[1..], key);
      InsertFirstSorted(s[0], SortByKey(s[1..], key), key);
    }
  }

  /** Slices with equal keys leave the sort in the order they entered it. */
  lemma {:induction false} SortByKeyStable<T>(s: seq<T>, key: T -> int, k: int)
    ensures WithKey(SortByKey(s, key), key, k) == WithKey(s, key, k)
  {
    if s != [] {
      SortByKeyStable(s[1..], key, k);
      InsertFirstWithKey(s[0], SortByKey(s[1..], key), key, k);
    }
  }

  lemma SortByKeyIsStableSort<T>(s: seq<T>, key: T -> int)
    ensures IsStableSortOf(SortByKey(s, key), s, key)
  {
    SortByKeySorted(s, key);
    SortByKeyPermutes(s, key);
    forall k ensures WithKey(SortByKey(s, key), key, k) == WithKey(s, key, k) {
      SortByKeyStable(s, key, k);
    }
  }

  lemma {:induction false} WithKeyOfSortedBelowHead<T>(s: seq<T>, key: T -> int, k: int)
    requires SortedBy(s, key) && s != [] && k < key(s[0])
    ensures WithKey(s, key, k) == []
  {
    if |s| > 1 {
      WithKeyOfSortedBelowHead(s[1..], key, k);
    }
  }

  lemma WithKeyContainsHead<T>(s: seq<T>, key: T -> int)
    ensures s != [] ==> WithKey(s, key, key(s[0])) != []
  {
  }

  /** Two sorted sequences that agree on the order within every key class
      are equal. */
  lemma {:induction false} StableSortUnique<T>(r: seq<T>, q: seq<T>, key: T -> int)
    requires SortedBy(r, key) && SortedBy(q, key)
    requires forall k :: WithKey(r, key, k) == WithKey(q, key, k)
    ensures r == q
  {
    if r == [] && q == [] {
    } else if r == [] || q == [] {
      WithKeyContainsHead(r, key);
      WithKeyContainsHead(q, key);
      assert false;
    } else {
      var a, b := key(r[0]), key(q[0]);
      if a < b {
        WithKeyOfSortedBelowHead(q, key, a);
        assert false;
      } else if b < a {
        WithKeyOfSortedBelowHead(r, key, b);
        assert false;
      }
      assert WithKey(r, key, a)[0] == r[0];
      assert WithKey(q, key, a)[0] == q[0];
      assert a == b && r[0] == q[0];
      forall k ensures WithKey(r[1..], key, k) == WithKey(q[1..], key, k) {
        assert WithKey(r, key, k) == WithKey(q, key, k);
        assert WithKey(r, key, k) == (if a == k then [r[0]] else []) + WithKey(r[1..], key, k);
        assert WithKey(q, key, k) == (if a == k then [q[0]] else []) + WithKey(q[1..], key, k);
        if k == a {
          assert WithKey(r[1..], key, k) == WithKey(r, key, k)[1..];
          assert WithKey(q[1..], key, k) == WithKey(q, key, k)[1..];
        } else {
          assert WithKey(r[1..], key, k) == WithKey(r, key, k);
          assert WithKey(q[1..], key, k) == WithKey(q, key, k);
        }
      }
      StableSortUnique(r[1..], q[1..], key);
      assert r == [r[0]] + r[1..] && q == [q[0]] + q[1..];
    }
  }

  /** Any stable sort of `s` by `key`, in particular the library sort the
      source calls, is SortByKey(s, key), and SortByKey is one. */
  lemma StableSortIsSortByKey<T>(r: seq<T>, s: seq<T>, key: T -> int)
    ensures IsStableSortOf(r, s, key) <==> r == SortByKey(s, key)
  {
    SortByKeyIsStableSort(s, key);
    if IsStableSortOf(r, s, key) {
      var t := SortByKey(s, key);
      forall k ensures WithKey(r, key, k) == WithKey(t, key, k) {
        assert WithKey(r, key, k) == WithKey(s, key, k);
      }
      StableSortUnique(r, t, key);
    }
  }

  /** Sorting an already sorted sequence changes nothing. */
  lemma {:induction false} SortByKeyOfSorted<T>(s: seq<T>, key: T -> int)
    requires SortedBy(s, key)
    ensures SortByKey(s, key) == s
  {
    StableSortIsSortByKey(s, s, key);
  }

  /** The head of a sorted sequence has the least key of all its elements. */
  lemma SortedHeadIsMinimal<T>(s: seq<T>, key: T -> int)
    requires SortedBy(s, key) && s != []
    ensures forall x | x in s :: key(s[0]) <= key(x)
  {
    forall x | x in s ensures key(s[0]) <= key(x) {
      var j :| 0 <= j < |s| && s[j] == x;
    }
  }
}
