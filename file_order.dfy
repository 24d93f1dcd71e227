/** The order in which the run imports its files: a stable sort by a natural
    key (`sort_by_cached_key`), so that files whose key is smaller come first
    and files with equal keys keep the order in which they were listed. The
    reference definition is an insertion sort that places each element after
    every element whose key is not greater. */
module FileOrder {

  /** Ascending by key. */
  ghost predicate SortedBy<T>(s: seq<T>, key: T -> nat) {
    forall i, j :: 0 <= i < j < |s| ==> key(s[i]) <= key(s[j])
  }

  /** The elements of `s` whose key is `k`, in their order in `s`. */
  function KeyClass<T>(s: seq<T>, key: T -> nat, k: nat): seq<T>
    decreases |s|
  {
    if s == [] then []
    else
      var last := s[|s| - 1];
      KeyClass(s[..|s| - 1], key, k) + (if key(last) == k then [last] else [])
  }

  /** `x` placed after the last element of `s` whose key is not greater than
      its own. */
  function Insert<T>(s: seq<T>, x: T, key: T -> nat): seq<T>
    decreases |s|
  {
    if s == [] then [x]
    else
      var last := s[|s| - 1];
      if key(last) <= key(x) then s + [x]
      else Insert(s[..|s| - 1], x, key) + [last]
  }

  /** The stable sort by key. */
  function SortByKey<T>(s: seq<T>, key: T -> nat): seq<T>
    decreases |s|
  {
    if s == [] then []
    else Insert(SortByKey(s[..|s| - 1], key), s[|s| - 1], key)
  }

  // ---------------------------------------------------------------------------
  // Key classes.

  lemma {:induction false} KeyClassAppend<T>(a: seq<T>, b: seq<T>, key: T -> nat, k: nat)
    ensures KeyClass(a + b, key, k) == KeyClass(a, key, k) + KeyClass(b, key, k)
    decreases |b|
  {
    if b == [] {
      assert a + b == a;
    } else {
      var init := b[..|b| - 1];
      assert (a + b)[..|a + b| - 1] == a + init;
      KeyClassAppend(a, init, key, k);
    }
  }

  /** Inserting `x` keeps every class as appending `x` would: `x` overtakes
      only elements with a strictly greater key. */
  lemma {:induction false} InsertClass<T>(s: seq<T>, x: T, key: T -> nat, k: nat)
    ensures KeyClass(Insert(s, x, key), key, k) == KeyClass(s + [x], key, k)
    decreases |s|
  {
    if s != [] {
      var init := s[..|s| - 1];
      var last := s[|s| - 1];
      if key(last) > key(x) {
        InsertClass(init, x, key, k);
        assert s == init + [last];
        var ci, cx, cl := KeyClass(init, key, k), KeyClass([x], key, k), KeyClass([last], key, k);
        calc {
          KeyClass(Insert(s, x, key), key, k);
          KeyClass(Insert(init, x, key) + [last], key, k);
          { KeyClassAppend(Insert(init, x, key), [last], key, k); }
          KeyClass(init + [x], key, k) + cl;
          { KeyClassAppend(init, [x], key, k); }
          ci + cx + cl;
          { SingletonClassesCommute(x, last, key, k); }
          ci + cl + cx;
          { KeyClassAppend(init, [last], key, k); }
          KeyClass(s, key, k) + cx;
          { KeyClassAppend(s, [x], key, k); }
          KeyClass(s + [x], key, k);
        }
      }
    }
  }

  /** Two elements with different keys: at most one of them is in a class. */
  lemma SingletonClassesCommute<T>(x: T, y: T, key: T -> nat, k: nat)
    requires key(x) != key(y)
    ensures KeyClass([x], key, k) + KeyClass([y], key, k) == KeyClass([y], key, k) + KeyClass([x], key, k)
  {
    assert [x][..0] == [] && [y][..0] == [];
  }

  // ---------------------------------------------------------------------------
  // The three properties of the sort.

  /** Inserting keeps an upper bound on the keys. */
  lemma {:induction false} InsertBounded<T>(s: seq<T>, x: T, key: T -> nat, b: nat)
    requires forall i :: 0 <= i < |s| ==> key(s[i]) <= b
    requires key(x) <= b
    ensures forall i :: 0 <= i < |Insert(s, x, key)| ==> key(Insert(s, x, key)[i]) <= b
    decreases |s|
  {
    if s != [] && key(s[|s| - 1]) > key(x) {
      InsertBounded(s[..|s| - 1], x, key, b);
    }
  }

  lemma {:induction false} InsertSorted<T>(s: seq<T>, x: T, key: T -> nat)
    requires SortedBy(s, key)
    ensures SortedBy(Insert(s, x, key), key)
    decreases |s|
  {
    if s != [] {
      var init := s[..|s| - 1];
      var last := s[|s| - 1];
      if key(last) > key(x) {
        SortedPrefix(s, key);
        InsertSorted(init, x, key);
        LastBound(s, key);
        InsertBounded(init, x, key, key(last));
        var r := Insert(init, x, key);
        var out := r + [last];
        forall i, j | 0 <= i < j < |out| ensures key(out[i]) <= key(out[j]) {
          if j == |out| - 1 {
            assert out[i] == r[i];
          } else {
            assert out[i] == r[i] && out[j] == r[j];
          }
        }
      }
    }
  }

  lemma {:induction false} InsertPermutation<T>(s: seq<T>, x: T, key: T -> nat)
    ensures multiset(Insert(s, x, key)) == multiset(s) + multiset{x}
    decreases |s|
  {
    if s != [] && key(s[|s| - 1]) > key(x) {
      InsertPermutation(s[..|s| - 1], x, key);
      assert s == s[..|s| - 1] + [s[|s| - 1]];
    }
  }

  /** No file is lost or duplicated. */
  lemma {:induction false} SortByKeyPermutation<T>(s: seq<T>, key: T -> nat)
    ensures multiset(SortByKey(s, key)) == multiset(s)
    decreases |s|
  {
    if s != [] {
      SortByKeyPermutation(s[..|s| - 1], key);
      InsertPermutation(SortByKey(s[..|s| - 1], key), s[|s| - 1], key);
      assert s == s[..|s| - 1] + [s[|s| - 1]];
    }
  }

  /** Files come out ordered by key. */
  lemma {:induction false} SortedBySortByKey<T>(s: seq<T>, key: T -> nat)
    ensures SortedBy(SortByKey(s, key), key)
    decreases |s|
  {
    if s != [] {
      SortedBySortByKey(s[..|s| - 1], key);
      InsertSorted(SortByKey(s[..|s| - 1], key), s[|s| - 1], key);
    }
  }

  /** Stability: files with the same key keep their relative order. */
  lemma {:induction false} SortByKeyStable<T>(s: seq<T>, key: T -> nat, k: nat)
    ensures KeyClass(SortByKey(s, key), key, k) == KeyClass(s, key, k)
    decreases |s|
  {
    if s != [] {
      var init := s[..|s| - 1];
      var last := s[|s| - 1];
      var sorted := SortByKey(init, key);
      assert s == init + [last];
      calc {
        KeyClass(SortByKey(s, key), key, k);
        KeyClass(Insert(sorted, last, key), key, k);
        { InsertClass(sorted, last, key, k); }
        KeyClass(sorted + [last], key, k);
        { KeyClassAppend(sorted, [last], key, k); }
        KeyClass(sorted, key, k) + KeyClass([last], key, k);
        { SortByKeyStable(init, key, k); }
        KeyClass(init, key, k) + KeyClass([last], key, k);
        { KeyClassAppend(init, [last], key, k); }
        KeyClass(s, key, k);
      }
    }
  }

  /** A sorted sequence is the concatenation of its classes in key order, so
      sortedness together with equal classes pins the result down: any stable
      sort by the same key yields `SortByKey`. */
  lemma {:induction false} SortedClassesUnique<T>(a: seq<T>, b: seq<T>, key: T -> nat)
    requires SortedBy(a, key) && SortedBy(b, key)
    requires forall k: nat :: KeyClass(a, key, k) == KeyClass(b, key, k)
    ensures a == b
    decreases |a| + |b|
  {
    if a != [] && b != [] {
      var la, lb := a[|a| - 1], b[|b| - 1];
      var ia, ib := a[..|a| - 1], b[..|b| - 1];
      assert a == ia + [la];
      assert b == ib + [lb];
      // the larger of the two last keys has a non-empty class on its own side only
      if key(la) > key(lb) {
        assert KeyClass(a, key, key(la)) != [];
        LastBound(b, key);
        KeyClassEmpty(b, key, key(la));
        assert false;
      } else if key(lb) > key(la) {
        assert KeyClass(b, key, key(lb)) != [];
        LastBound(a, key);
        KeyClassEmpty(a, key, key(lb));
        assert false;
      }
      var k := key(la);
      forall k': nat ensures KeyClass(ia, key, k') == KeyClass(ib, key, k') {
        var ca, cb := KeyClass(a, key, k'), KeyClass(b, key, k');
        assert ca == cb;
        if key(la) == k' {
          assert ca == KeyClass(ia, key, k') + [la];
          assert cb == KeyClass(ib, key, k') + [lb];
          assert KeyClass(ia, key, k') == ca[..|ca| - 1];
          assert KeyClass(ib, key, k') == cb[..|cb| - 1];
        } else {
          assert key(lb) != k';
          assert ca == KeyClass(ia, key, k') + [] == KeyClass(ia, key, k');
          assert cb == KeyClass(ib, key, k') + [] == KeyClass(ib, key, k');
        }
      }
      SortedPrefix(a, key);
      SortedPrefix(b, key);
      SortedClassesUnique(ia, ib, key);
      var ca := KeyClass(a, key, k);
      var cb := KeyClass(b, key, k);
      assert ca[|ca| - 1] == la;
      assert cb[|cb| - 1] == lb;
    } else if a != [] || b != [] {
      // the class of the non-empty side's last key is empty on the other side
      LastClassNonEmpty(a, key);
      LastClassNonEmpty(b, key);
      assert false;
    }
  }

  lemma LastClassNonEmpty<T>(s: seq<T>, key: T -> nat)
    ensures s != [] ==> KeyClass(s, key, key(s[|s| - 1])) != []
  {
  }

  lemma SortedPrefix<T>(s: seq<T>, key: T -> nat)
    requires s != [] && SortedBy(s, key)
    ensures SortedBy(s[..|s| - 1], key)
  {
    var p := s[..|s| - 1];
    forall i, j | 0 <= i < j < |p| ensures key(p[i]) <= key(p[j]) {
      assert p[i] == s[i] && p[j] == s[j];
    }
  }

  lemma LastBound<T>(s: seq<T>, key: T -> nat)
    requires s != [] && SortedBy(s, key)
    ensures forall i :: 0 <= i < |s| ==> key(s[i]) <= key(s[|s| - 1])
  {
  }

  lemma {:induction false} KeyClassEmpty<T>(s: seq<T>, key: T -> nat, k: nat)
    requires forall i :: 0 <= i < |s| ==> key(s[i]) < k
    ensures KeyClass(s, key, k) == []
    decreases |s|
  {
    if s != [] {
      KeyClassEmpty(s[..|s| - 1], key, k);
    }
  }
}
