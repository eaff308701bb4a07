/** Filtering and sorting of sequences: the meaning given to SQL's WHERE and ORDER BY and
    to Go's `sort.Slice`, which may leave equal elements in any order. */
module Sorting {

  function Filter<T>(s: seq<T>, p: T -> bool): (r: seq<T>)
    ensures forall x | x in r :: x in s && p(x)
    ensures forall x | x in s && p(x) :: x in r
  {
    if s == [] then []
    else if p(s[0]) then [s[0]] + Filter(s[1..], p)
    else Filter(s[1..], p)
  }

  /** `less` is a strict total order on the elements of `s`. */
  ghost predicate StrictOn<T(!new)>(less: (T, T) -> bool, s: set<T>) {
    && (forall a | a in s :: !less(a, a))
    && (forall a, b | a in s && b in s && a != b :: less(a, b) || less(b, a))
    && (forall a, b, c | a in s && b in s && c in s && less(a, b) && less(b, c) :: less(a, c))
  }

  ghost predicate Sorted<T(!new)>(less: (T, T) -> bool, s: seq<T>) {
    forall i, j | 0 <= i < j < |s| :: !less(s[j], s[i])
  }

  predicate NoDuplicates<T(==)>(s: seq<T>) {
    forall i, j | 0 <= i < j < |s| :: s[i] != s[j]
  }

  function Elements<T>(s: seq<T>): set<T> { set x | x in s }

  function Insert<T>(x: T, s: seq<T>, less: (T, T) -> bool): (r: seq<T>)
  {
    if s == [] || !less(s[0], x) then [x] + s else [s[0]] + Insert(x, s[1..], less)
  }

  function Sort<T>(s: seq<T>, less: (T, T) -> bool): (r: seq<T>)
  {
    if s == [] then [] else Insert(s[0], Sort(s[1..], less), less)
  }

  lemma {:induction false} InsertPermutes<T>(x: T, s: seq<T>, less: (T, T) -> bool)
    ensures multiset(Insert(x, s, less)) == multiset(s) + multiset{x}
  {
    if s != [] && less(s[0], x) {
      InsertPermutes(x, s[1..], less);
      assert s == [s[0]] + s[1..];
    }
  }

  lemma {:induction false} SortPermutes<T>(s: seq<T>, less: (T, T) -> bool)
    ensures multiset(Sort(s, less)) == multiset(s)
    ensures |Sort(s, less)| == |s|
    ensures Elements(Sort(s, less)) == Elements(s)
  {
    if s != [] {
      SortPermutes(s[1..], less);
      InsertPermutes(s[0], Sort(s[1..], less), less);
      assert s == [s[0]] + s[1..];
    }
    SameMultisetSameElements(Sort(s, less), s);
  }

  lemma SameMultisetSameElements<T>(a: seq<T>, b: seq<T>)
    requires multiset(a) == multiset(b)
    ensures |a| == |b| && Elements(a) == Elements(b)
  {
    assert |multiset(a)| == |a| && |multiset(b)| == |b|;
    forall x ensures x in a <==> x in b {
      assert x in a <==> x in multiset(a);
      assert x in b <==> x in multiset(b);
    }
  }

  lemma MoveToEnd<T>(a: seq<T>, x: seq<T>, b: seq<T>)
    ensures multiset(a + x + b) == multiset(a + b) + multiset(x)
  {
  }

  /** A permutation splits around any element of the other sequence. */
  lemma SplitPermutation<T>(a: seq<T>, x: T, b: seq<T>) returns (b1: seq<T>, b2: seq<T>)
    requires multiset(a + [x]) == multiset(b)
    ensures b == b1 + [x] + b2 && multiset(a) == multiset(b1 + b2)
  {
    assert x in multiset(a + [x]);
    assert x in b;
    var k :| 0 <= k < |b| && b[k] == x;
    b1, b2 := b[..k], b[k + 1..];
    assert b == b1 + [x] + b2;
    MoveToEnd(b1, [x], b2);
    assert multiset(a) == multiset(a + [x]) - multiset{x};
  }

  lemma {:induction false} InsertSorts<T(!new)>(x: T, s: seq<T>, less: (T, T) -> bool)
    requires Sorted(less, s) && StrictOn(less, Elements(s) + {x})
    ensures Sorted(less, Insert(x, s, less))
  {
    if s == [] || !less(s[0], x) {
      var r := [x] + s;
      forall i, j | 0 <= i < j < |r| ensures !less(r[j], r[i]) {
        assert r[j] == s[j - 1] && r[j] in Elements(s) && s[0] in Elements(s);
      }
    } else {
      assert Elements(s[1..]) + {x} <= Elements(s) + {x};
      InsertSorts(x, s[1..], less);
      InsertPermutes(x, s[1..], less);
      var t := Insert(x, s[1..], less);
      forall j | 0 <= j < |t| ensures !less(t[j], s[0]) {
        assert t[j] in multiset(t);
        assert s[0] in Elements(s) && t[j] in Elements(s) + {x};
        if t[j] != x {
          var k :| 0 <= k < |s[1..]| && s[1..][k] == t[j];
          assert s[k + 1] == t[j];
        }
      }
    }
  }

  lemma {:induction false} SortSorts<T(!new)>(s: seq<T>, less: (T, T) -> bool)
    requires StrictOn(less, Elements(s))
    ensures Sorted(less, Sort(s, less))
  {
    if s != [] {
      assert Elements(s[1..]) <= Elements(s);
      SortSorts(s[1..], less);
      SortPermutes(s[1..], less);
      assert Elements(Sort(s[1..], less)) + {s[0]} <= Elements(s);
      InsertSorts(s[0], Sort(s[1..], less), less);
    }
  }

  lemma TailMultiset<T>(s: seq<T>)
    requires s != []
    ensures multiset(s[1..]) == multiset(s) - multiset{s[0]}
  {
    assert s == [s[0]] + s[1..];
  }

  lemma TailIsSorted<T(!new)>(s: seq<T>, less: (T, T) -> bool)
    requires s != [] && Sorted(less, s) && StrictOn(less, Elements(s))
    ensures Sorted(less, s[1..]) && StrictOn(less, Elements(s[1..]))
  {
    assert Elements(s[1..]) <= Elements(s);
  }

  lemma SameFirst<T(!new)>(a: seq<T>, b: seq<T>, less: (T, T) -> bool)
    requires a != [] && b != [] && Elements(a) == Elements(b) && StrictOn(less, Elements(a))
    requires Sorted(less, a) && Sorted(less, b)
    ensures a[0] == b[0]
  {
    assert a[0] in Elements(a) && b[0] in Elements(b);
    assert a[0] in b && b[0] in a;
    assert !less(a[0], b[0]) && !less(b[0], a[0]);
  }

  /** A strict total order leaves one way to sort. */
  lemma {:induction false} SortedIsUnique<T(!new)>(a: seq<T>, b: seq<T>, less: (T, T) -> bool)
    requires multiset(a) == multiset(b) && StrictOn(less, Elements(a))
    requires Sorted(less, a) && Sorted(less, b)
    ensures a == b
  {
    SameMultisetSameElements(a, b);
    if a != [] {
      hide Sorted, StrictOn, Elements;
      SameFirst(a, b, less);
      TailMultiset(a);
      TailMultiset(b);
      TailIsSorted(a, less);
      SortedIsUnique(a[1..], b[1..], less);
      assert a == [a[0]] + a[1..] && b == [b[0]] + b[1..];
    }
  }

  lemma {:induction false} FilterMultiset<T>(s: seq<T>, p: T -> bool, x: T)
    ensures multiset(Filter(s, p))[x] == if p(x) then multiset(s)[x] else 0
  {
    if s != [] {
      FilterMultiset(s[1..], p, x);
      assert s == [s[0]] + s[1..];
    }
  }

  lemma FilterOfPermutation<T(!new)>(a: seq<T>, b: seq<T>, p: T -> bool)
    requires multiset(a) == multiset(b)
    ensures multiset(Filter(a, p)) == multiset(Filter(b, p))
  {
    forall x ensures multiset(Filter(a, p))[x] == multiset(Filter(b, p))[x] {
      FilterMultiset(a, p, x);
      FilterMultiset(b, p, x);
    }
  }

  lemma {:induction false} FilterKeepsOrder<T(!new)>(s: seq<T>, p: T -> bool, less: (T, T) -> bool)
    requires Sorted(less, s)
    ensures Sorted(less, Filter(s, p))
  {
    if s != [] {
      FilterKeepsOrder(s[1..], p, less);
      var t := Filter(s[1..], p);
      forall j | 0 <= j < |t| ensures !less(t[j], s[0]) {
        assert t[j] in s[1..];
        var k :| 0 <= k < |s[1..]| && s[1..][k] == t[j];
        assert s[k + 1] == t[j];
      }
    }
  }

  /** Filtering before sorting or after it comes to the same. */
  lemma SortFilterCommute<T(!new)>(s: seq<T>, p: T -> bool, less: (T, T) -> bool)
    requires StrictOn(less, Elements(s))
    ensures Sort(Filter(s, p), less) == Filter(Sort(s, less), p)
  {
    var f := Filter(s, p);
    SortPermutes(s, less);
    SortPermutes(f, less);
    SortSorts(s, less);
    assert Elements(f) <= Elements(s);
    SortSorts(f, less);
    FilterKeepsOrder(Sort(s, less), p, less);
    FilterOfPermutation(Sort(s, less), s, p);
    SortedIsUnique(Sort(f, less), Filter(Sort(s, less), p), less);
  }

  lemma SortOfPermutation<T(!new)>(a: seq<T>, b: seq<T>, less: (T, T) -> bool)
    requires multiset(a) == multiset(b) && StrictOn(less, Elements(a))
    ensures Sort(a, less) == Sort(b, less)
  {
    SameMultisetSameElements(a, b);
    SortPermutes(a, less);
    SortPermutes(b, less);
    SortSorts(a, less);
    SortSorts(b, less);
    SortedIsUnique(Sort(a, less), Sort(b, less), less);
  }

  lemma {:induction false} FilterAll<T>(s: seq<T>, p: T -> bool)
    ensures (forall x | x in s :: p(x)) ==> Filter(s, p) == s
    ensures (forall x | x in s :: !p(x)) ==> Filter(s, p) == []
  {
    if s != [] {
      assert s[0] in s;
      FilterAll(s[1..], p);
    }
  }

  lemma {:induction false} FilterAppend<T>(a: seq<T>, b: seq<T>, p: T -> bool)
    ensures Filter(a + b, p) == Filter(a, p) + Filter(b, p)
  {
    if a == [] {
      assert a + b == b;
    } else {
      assert (a + b)[1..] == a[1..] + b;
      FilterAppend(a[1..], b, p);
    }
  }

  lemma ComesAfter<T(!new)>(s: seq<T>, k: nat, i: nat, less: (T, T) -> bool)
    requires k < |s| && i < |s| && Sorted(less, s) && NoDuplicates(s) && StrictOn(less, Elements(s))
    ensures less(s[k], s[i]) <==> i > k
  {
    assert s[k] in Elements(s) && s[i] in Elements(s);
    if i > k {
      assert s[k] != s[i] && !less(s[i], s[k]);
    } else if i < k {
      assert !less(s[k], s[i]);
    }
  }

  /** What a sorted sequence without repetitions holds after its element at `k`. */
  lemma FilterAfter<T(!new)>(s: seq<T>, k: nat, less: (T, T) -> bool, after: T -> bool)
    requires k < |s| && Sorted(less, s) && NoDuplicates(s) && StrictOn(less, Elements(s))
    requires forall x | x in s :: after(x) == less(s[k], x)
    ensures Filter(s, after) == s[k + 1..]
  {
    hide StrictOn, Sorted, NoDuplicates, Filter, Elements;
    forall i | 0 <= i < |s| ensures after(s[i]) <==> i > k {
      assert s[i] in s;
      ComesAfter(s, k, i, less);
    }
    var head, tail := s[..k + 1], s[k + 1..];
    assert s == head + tail;
    assert forall i | 0 <= i < |tail| :: tail[i] == s[k + 1 + i];
    FilterAppend(head, tail, after);
    FilterAll(head, after);
    FilterAll(tail, after);
  }

  lemma NoDuplicatesOfMultiset<T>(a: seq<T>, b: seq<T>)
    requires multiset(a) == multiset(b) && NoDuplicates(a)
    ensures NoDuplicates(b)
  {
    forall i, j | 0 <= i < j < |b| ensures b[i] != b[j] {
      if b[i] == b[j] {
        CountsTwice(b, i, j);
        CountsOnce(a, b[i]);
      }
    }
  }

  lemma CountsTwice<T>(b: seq<T>, i: nat, j: nat)
    requires i < j < |b| && b[i] == b[j]
    ensures multiset(b)[b[i]] >= 2
  {
    assert b == b[..j] + [b[j]] + b[j + 1..];
    assert b[..j][i] == b[i];
    assert b[i] in multiset(b[..j]);
  }

  lemma {:induction false} CountsOnce<T>(a: seq<T>, x: T)
    requires NoDuplicates(a)
    ensures multiset(a)[x] <= 1
  {
    if a != [] {
      assert a == [a[0]] + a[1..];
      assert NoDuplicates(a[1..]) by {
        forall i, j | 0 <= i < j < |a[1..]| ensures a[1..][i] != a[1..][j] {
          assert a[1..][i] == a[i + 1] && a[1..][j] == a[j + 1];
        }
      }
      CountsOnce(a[1..], x);
      assert forall k | 0 <= k < |a[1..]| :: a[1..][k] == a[k + 1];
    }
  }
}
