/** Stable sorting under a strict weak order, and the laws by which sorted arrangements are
    compared. */
module Sorting {
  import opened Sequences

  /** Irreflexive and transitive, with transitive incomparability. */
  ghost predicate StrictWeak<T(!new)>(less: (T, T) -> bool) {
    && (forall a :: !less(a, a))
    && (forall a, b, c :: less(a, b) && less(b, c) ==> less(a, c))
    && (forall a, b, c :: less(a, b) ==> less(a, c) || less(c, b))
  }

  lemma Between<T(!new)>(less: (T, T) -> bool, a: T, b: T, c: T)
    requires StrictWeak(less)
    ensures less(a, c) ==> less(a, b) || less(b, c)
  {
  }

  ghost predicate Sorted<T>(s: seq<T>, less: (T, T) -> bool) {
    forall i, j :: 0 <= i < j < |s| ==> !less(s[j], s[i])
  }

  /** Puts `x` before the first element that is not less than it. */
  function Insert<T>(x: T, s: seq<T>, less: (T, T) -> bool): seq<T> {
    if s == [] || !less(s[0], x) then [x] + s else [s[0]] + Insert(x, s[1..], less)
  }

  /** The stable arrangement: equals stay in their original order. */
  function Sort<T>(s: seq<T>, less: (T, T) -> bool): seq<T> {
    if s == [] then [] else Insert(s[0], Sort(s[1..], less), less)
  }

  lemma {:induction false} InsertPermutes<T>(x: T, s: seq<T>, less: (T, T) -> bool)
    ensures multiset(Insert(x, s, less)) == multiset{x} + multiset(s)
  {
    if s == [] || !less(s[0], x) {
    } else {
      InsertPermutes(x, s[1..], less);
      assert s == [s[0]] + s[1..];
    }
  }

  lemma {:induction false} InsertSorted<T(!new)>(x: T, s: seq<T>, less: (T, T) -> bool)
    requires StrictWeak(less) && Sorted(s, less)
    ensures Sorted(Insert(x, s, less), less)
  {
    if s == [] {
    } else if !less(s[0], x) {
      forall j | 0 <= j < |s|
        ensures !less(s[j], x)
      {
        Between(less, s[j], s[0], x);
      }
    } else {
      InsertSorted(x, s[1..], less);
      InsertPermutes(x, s[1..], less);
      var r := Insert(x, s[1..], less);
      forall j | 0 <= j < |r|
        ensures !less(r[j], s[0])
      {
        assert r[j] in multiset(r);
        if r[j] != x {
          assert r[j] in s[1..];
        }
      }
    }
  }

  /** Sorting orders and loses nothing. */
  lemma {:induction false} SortSorts<T(!new)>(s: seq<T>, less: (T, T) -> bool)
    requires StrictWeak(less)
    ensures Sorted(Sort(s, less), less) && multiset(Sort(s, less)) == multiset(s)
  {
    if s == [] {
    } else {
      SortSorts(s[1..], less);
      InsertSorted(s[0], Sort(s[1..], less), less);
      InsertPermutes(s[0], Sort(s[1..], less), less);
      assert s == [s[0]] + s[1..];
    }
  }

  /** What is in order stays as it is. */
  lemma {:induction false} SortOfSorted<T(!new)>(s: seq<T>, less: (T, T) -> bool)
    requires Sorted(s, less)
    ensures Sort(s, less) == s
  {
    if s == [] {
    } else {
      SortOfSorted(s[1..], less);
      assert |s| > 1 ==> !less(s[1], s[0]);
      assert s == [s[0]] + s[1..];
    }
  }

  // ----- filtering and mapping

  lemma {:induction false} FilterInsert<T(!new)>(p: T -> bool, x: T, s: seq<T>, less: (T, T) -> bool)
    requires StrictWeak(less) && Sorted(s, less)
    ensures Filter(p, Insert(x, s, less)) == if p(x) then Insert(x, Filter(p, s), less) else Filter(p, s)
  {
    if s == [] {
    } else if !less(s[0], x) {
      FilterCons(p, x, s);
      if p(x) {
        InsertInFront(x, s, p, less);
      }
    } else {
      var t, f := Insert(x, s[1..], less), Filter(p, s[1..]);
      FilterCons(p, s[0], t);
      assert s == [s[0]] + s[1..];
      FilterCons(p, s[0], s[1..]);
      assert ([s[0]] + f)[1..] == f;
      FilterInsert(p, x, s[1..], less);
    }
  }

  lemma InsertInFront<T(!new)>(x: T, s: seq<T>, p: T -> bool, less: (T, T) -> bool)
    requires StrictWeak(less) && Sorted(s, less) && (s == [] || !less(s[0], x))
    ensures Insert(x, Filter(p, s), less) == [x] + Filter(p, s)
  {
    var f := Filter(p, s);
    if f != [] {
      FilterMembers(p, s);
      assert f[0] in s;
      var j :| 0 <= j < |s| && s[j] == f[0];
      Between(less, s[j], s[0], x);
    }
  }

  /** Filtering and sorting commute: taking elements out never reorders the rest. */
  lemma {:induction false} FilterSort<T(!new)>(p: T -> bool, s: seq<T>, less: (T, T) -> bool)
    requires StrictWeak(less)
    ensures Filter(p, Sort(s, less)) == Sort(Filter(p, s), less)
  {
    if s == [] {
    } else {
      var f := Filter(p, s[1..]);
      assert s == [s[0]] + s[1..];
      FilterCons(p, s[0], s[1..]);
      assert ([s[0]] + f)[1..] == f;
      FilterSort(p, s[1..], less);
      SortSorts(s[1..], less);
      FilterInsert(p, s[0], Sort(s[1..], less), less);
    }
  }

  // ----- uniqueness

  /** Distinct elements are always comparable. */
  ghost predicate TotalOn<T>(s: seq<T>, less: (T, T) -> bool) {
    forall a, b :: a in s && b in s && a != b ==> less(a, b) || less(b, a)
  }

  lemma LeastFirst<T(!new)>(t: seq<T>, x: T, less: (T, T) -> bool)
    requires StrictWeak(less) && Sorted(t, less) && x in t
    ensures !less(x, t[0])
  {
    var k :| 0 <= k < |t| && t[k] == x;
  }

  lemma SameHead<T(!new)>(s: seq<T>, t: seq<T>, less: (T, T) -> bool)
    requires StrictWeak(less) && TotalOn(s, less) && Sorted(s, less) && Sorted(t, less)
    requires s != [] && t != [] && multiset(s) == multiset(t)
    ensures s[0] == t[0]
  {
    assert s[0] in multiset(t) && t[0] in multiset(s);
    LeastFirst(t, s[0], less);
    LeastFirst(s, t[0], less);
  }

  lemma SameTail<T>(s: seq<T>, t: seq<T>)
    requires s != [] && t != [] && multiset(s) == multiset(t) && s[0] == t[0]
    ensures multiset(s[1..]) == multiset(t[1..])
  {
    assert s == [s[0]] + s[1..] && t == [t[0]] + t[1..];
    assert multiset(s[1..]) == multiset(s) - multiset{s[0]} == multiset(t[1..]);
  }

  /** A sorted arrangement of the same elements is unique. */
  lemma {:induction false} SortedUnique<T(!new)>(s: seq<T>, t: seq<T>, less: (T, T) -> bool)
    requires StrictWeak(less) && TotalOn(s, less) && Sorted(s, less) && Sorted(t, less) && multiset(s) == multiset(t)
    ensures s == t
    decreases |s|
  {
    assert |s| == |multiset(s)| == |t|;
    if s == [] {
    } else {
      SameHead(s, t, less);
      SameTail(s, t);
      SortedUnique(s[1..], t[1..], less);
    }
  }

  /** Whatever order the elements come in, they sort the same way. */
  lemma SortOfPermutation<T(!new)>(s: seq<T>, t: seq<T>, less: (T, T) -> bool)
    requires StrictWeak(less) && TotalOn(s, less) && multiset(s) == multiset(t)
    ensures Sort(s, less) == Sort(t, less)
  {
    SortSorts(s, less);
    SortSorts(t, less);
    var r := Sort(s, less);
    forall a, b | a in r && b in r && a != b
      ensures less(a, b) || less(b, a)
    {
      assert a in multiset(r) && b in multiset(r);
      assert a in multiset(s) && b in multiset(s);
    }
    SortedUnique(r, Sort(t, less), less);
  }

  lemma {:induction false} MapInsert<T, U>(f: T -> U, x: T, s: seq<T>, less: (T, T) -> bool, lessU: (U, U) -> bool)
    requires forall i :: 0 <= i < |s| ==> lessU(f(s[i]), f(x)) == less(s[i], x)
    ensures Insert(f(x), MapSeq(f, s), lessU) == MapSeq(f, Insert(x, s, less))
  {
    if s == [] {
    } else if !less(s[0], x) {
      assert lessU(f(s[0]), f(x)) == less(s[0], x);
    } else {
      assert lessU(f(s[0]), f(x)) == less(s[0], x);
      MapCons(f, s);
      MapCons(f, Insert(x, s, less));
      assert Insert(x, s, less)[1..] == Insert(x, s[1..], less);
      MapInsert(f, x, s[1..], less, lessU);
    }
  }

  /** A change that no comparison sees carries through sorting. */
  lemma {:induction false} MapSort<T(!new), U(!new)>(f: T -> U, s: seq<T>, less: (T, T) -> bool, lessU: (U, U) -> bool)
    requires forall a, b :: lessU(f(a), f(b)) == less(a, b)
    ensures Sort(MapSeq(f, s), lessU) == MapSeq(f, Sort(s, less))
  {
    if s == [] {
    } else {
      MapCons(f, s);
      MapSort(f, s[1..], less, lessU);
      MapInsert(f, s[0], Sort(s[1..], less), less, lessU);
    }
  }


  // ----- lexicographic order

  ghost predicate TotalOrder<T(!new)>(lt: (T, T) -> bool) {
    && (forall a, b :: !(lt(a, b) && lt(b, a)))
    && (forall a, b, c :: lt(a, b) && lt(b, c) ==> lt(a, c))
    && (forall a, b :: a != b ==> lt(a, b) || lt(b, a))
  }

  /** Element by element, a proper prefix first. */
  predicate LexLess<T(==)>(a: seq<T>, b: seq<T>, lt: (T, T) -> bool) {
    if b == [] then false
    else if a == [] then true
    else if a[0] != b[0] then lt(a[0], b[0])
    else LexLess(a[1..], b[1..], lt)
  }

  lemma {:induction false} LexTransitive<T(!new)>(a: seq<T>, b: seq<T>, c: seq<T>, lt: (T, T) -> bool)
    requires TotalOrder(lt) && LexLess(a, b, lt) && LexLess(b, c, lt)
    ensures LexLess(a, c, lt)
  {
    if a == [] || a[0] != b[0] || b[0] != c[0] {
    } else {
      LexTransitive(a[1..], b[1..], c[1..], lt);
    }
  }

  lemma {:induction false} LexTotal<T(!new)>(a: seq<T>, b: seq<T>, lt: (T, T) -> bool)
    requires TotalOrder(lt)
    ensures !(LexLess(a, b, lt) && LexLess(b, a, lt))
    ensures a != b ==> LexLess(a, b, lt) || LexLess(b, a, lt)
  {
    if a == [] || b == [] || a[0] != b[0] {
    } else {
      LexTotal(a[1..], b[1..], lt);
      assert a == [a[0]] + a[1..] && b == [b[0]] + b[1..];
    }
  }
}
