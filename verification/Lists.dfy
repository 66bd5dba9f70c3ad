/** Selections and stable sorts of sequences, as the host languages' libraries define them. */
module Lists {

  datatype Option<+T> = None | Some(value: T)

  /** The elements that satisfy the test, in their order. */
  function Filter<T>(s: seq<T>, keep: T -> bool): seq<T> {
    if s == [] then []
    else if keep(s[0]) then [s[0]] + Filter(s[1..], keep)
    else Filter(s[1..], keep)
  }

  lemma FilterMember<T>(s: seq<T>, keep: T -> bool, x: T)
    ensures x in Filter(s, keep) <==> x in s && keep(x)
  {
  }

  lemma FilterEmptyIff<T>(s: seq<T>, keep: T -> bool)
    ensures Filter(s, keep) == [] <==> forall x :: x in s ==> !keep(x)
  {
  }

  lemma FilterFirst<T>(x: T, s: seq<T>, keep: T -> bool)
    ensures Filter([x] + s, keep) == (if keep(x) then [x] else []) + Filter(s, keep)
  {
    assert ([x] + s)[1..] == s;
  }

  lemma FilterLength<T>(s: seq<T>, keep: T -> bool)
    ensures |Filter(s, keep)| <= |s|
  {
  }

  lemma {:induction false} FilterConcat<T>(a: seq<T>, b: seq<T>, keep: T -> bool)
    ensures Filter(a + b, keep) == Filter(a, keep) + Filter(b, keep)
  {
    if a == [] {
      assert a + b == b;
    } else {
      FilterConcat(a[1..], b, keep);
      assert (a + b)[1..] == a[1..] + b;
    }
  }

  lemma {:induction false} FilterSame<T>(s: seq<T>, p: T -> bool, q: T -> bool)
    requires forall x :: x in s ==> p(x) == q(x)
    ensures Filter(s, p) == Filter(s, q)
  {
    if s == [] {
    } else {
      FilterSame(s[1..], p, q);
    }
  }

  lemma {:induction false} FilterAll<T>(s: seq<T>, keep: T -> bool)
    requires forall x :: x in s ==> keep(x)
    ensures Filter(s, keep) == s
  {
    if s == [] {
    } else {
      FilterAll(s[1..], keep);
    }
  }

  lemma {:induction false} FilterNone<T>(s: seq<T>, keep: T -> bool)
    requires forall x :: x in s ==> !keep(x)
    ensures Filter(s, keep) == []
  {
    if s == [] {
    } else {
      FilterNone(s[1..], keep);
    }
  }

  /** Selecting twice is selecting by both tests. */
  lemma {:induction false} FilterFilter<T>(s: seq<T>, p: T -> bool, q: T -> bool, both: T -> bool)
    requires forall x :: x in s ==> both(x) == (p(x) && q(x))
    ensures Filter(Filter(s, p), q) == Filter(s, both)
  {
    if s == [] {
    } else {
      FilterFilter(s[1..], p, q, both);
    }
  }

  /** Dropping a suffix of the list drops a suffix of the selection. */
  lemma {:induction false} FilterPrefix<T>(s: seq<T>, n: nat, keep: T -> bool)
    requires n <= |s|
    ensures Filter(s[..n], keep) <= Filter(s, keep)
  {
    assert s == s[..n] + s[n..];
    FilterConcat(s[..n], s[n..], keep);
  }

  predicate Descending<T>(s: seq<T>, key: T -> int) {
    forall i, j :: 0 <= i < j < |s| ==> key(s[i]) >= key(s[j])
  }

  /** Puts `x` before the first element that is not above it: the place a stable sort
      gives an element that came first. */
  function Insert<T>(x: T, s: seq<T>, key: T -> int): seq<T> {
    if s == [] || key(x) >= key(s[0]) then [x] + s else [s[0]] + Insert(x, s[1..], key)
  }

  /** The stable sort by descending key. */
  function SortDescending<T>(s: seq<T>, key: T -> int): seq<T> {
    if s == [] then [] else Insert(s[0], SortDescending(s[1..], key), key)
  }

  lemma {:induction false} InsertMember<T>(x: T, s: seq<T>, key: T -> int, y: T)
    ensures y in Insert(x, s, key) <==> y == x || y in s
  {
    if s != [] && key(x) < key(s[0]) {
      InsertMember(x, s[1..], key, y);
    }
  }

  lemma {:induction false} InsertCounts<T>(x: T, s: seq<T>, key: T -> int)
    ensures multiset(Insert(x, s, key)) == multiset([x]) + multiset(s)
    ensures |Insert(x, s, key)| == |s| + 1
  {
    if s == [] || key(x) >= key(s[0]) {
    } else {
      InsertCounts(x, s[1..], key);
      assert s == [s[0]] + s[1..];
    }
  }

  lemma {:induction false} InsertDescending<T>(x: T, s: seq<T>, key: T -> int)
    requires Descending(s, key)
    ensures Descending(Insert(x, s, key), key)
  {
    if s != [] && key(x) < key(s[0]) {
      InsertDescending(x, s[1..], key);
      var r := Insert(x, s[1..], key);
      forall j | 0 <= j < |r| ensures key(s[0]) >= key(r[j]) {
        InsertMember(x, s[1..], key, r[j]);
      }
    }
  }

  lemma {:induction false} SortProperties<T>(s: seq<T>, key: T -> int)
    ensures Descending(SortDescending(s, key), key)
    ensures multiset(SortDescending(s, key)) == multiset(s)
    ensures |SortDescending(s, key)| == |s|
  {
    if s == [] {
    } else {
      SortProperties(s[1..], key);
      InsertDescending(s[0], SortDescending(s[1..], key), key);
      InsertCounts(s[0], SortDescending(s[1..], key), key);
      assert s == [s[0]] + s[1..];
    }
  }

  lemma SameMultisetMember<T>(a: seq<T>, b: seq<T>, x: T)
    requires multiset(a) == multiset(b)
    ensures x in a <==> x in b
  {
    assert x in a <==> x in multiset(a);
    assert x in b <==> x in multiset(b);
  }

  lemma SortMember<T>(s: seq<T>, key: T -> int, y: T)
    ensures y in SortDescending(s, key) <==> y in s
  {
    SortProperties(s, key);
    SameMultisetMember(SortDescending(s, key), s, y);
  }

  /** Sorting what is already sorted changes nothing. */
  lemma {:induction false} SortSorted<T>(s: seq<T>, key: T -> int)
    requires Descending(s, key)
    ensures SortDescending(s, key) == s
  {
    if s == [] {
    } else {
      SortSorted(s[1..], key);
      if |s| > 1 {
        assert key(s[0]) >= key(s[1]);
      }
    }
  }

  lemma {:induction false} DescendingFilter<T>(s: seq<T>, keep: T -> bool, key: T -> int)
    requires Descending(s, key)
    ensures Descending(Filter(s, keep), key)
  {
    if s == [] {
    } else {
      DescendingFilter(s[1..], keep, key);
      var r := Filter(s[1..], keep);
      forall j | 0 <= j < |r| ensures key(s[0]) >= key(r[j]) {
        FilterMember(s[1..], keep, r[j]);
      }
    }
  }

  lemma {:induction false} FilterInsert<T>(x: T, s: seq<T>, keep: T -> bool, key: T -> int)
    requires Descending(s, key)
    ensures Filter(Insert(x, s, key), keep)
         == if keep(x) then Insert(x, Filter(s, keep), key) else Filter(s, keep)
  {
    if s != [] && key(x) < key(s[0]) {
      FilterInsert(x, s[1..], keep, key);
    } else if keep(x) {
      var f := Filter(s, keep);
      if f != [] {
        FilterMember(s, keep, f[0]);
      }
    }
  }

  /** A stable sort and a selection commute. */
  lemma {:induction false} FilterSort<T>(s: seq<T>, keep: T -> bool, key: T -> int)
    ensures Filter(SortDescending(s, key), keep) == SortDescending(Filter(s, keep), key)
  {
    if s == [] {
    } else {
      FilterSort(s[1..], keep, key);
      SortProperties(s[1..], key);
      FilterInsert(s[0], SortDescending(s[1..], key), keep, key);
    }
  }

  /** An element at least as high as all the others is inserted in front. */
  lemma InsertFirst<T>(x: T, s: seq<T>, key: T -> int)
    requires forall y :: y in s ==> key(x) >= key(y)
    ensures Insert(x, s, key) == [x] + s
  {
  }
}
