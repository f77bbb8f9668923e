/** Filtering and mapping of sequences. */
module Sequences {

  function Filter<T>(p: T -> bool, s: seq<T>): seq<T> {
    if s == [] then [] else (if p(s[0]) then [s[0]] else []) + Filter(p, s[1..])
  }

  lemma FilterCons<T>(p: T -> bool, x: T, s: seq<T>)
    ensures Filter(p, [x] + s) == if p(x) then [x] + Filter(p, s) else Filter(p, s)
  {
    assert ([x] + s)[1..] == s;
  }

  lemma {:induction false} FilterMembers<T>(p: T -> bool, s: seq<T>)
    ensures forall i :: 0 <= i < |Filter(p, s)| ==> Filter(p, s)[i] in s && p(Filter(p, s)[i])
    ensures forall i :: 0 <= i < |s| && p(s[i]) ==> s[i] in Filter(p, s)
  {
    if s == [] {
    } else {
      FilterMembers(p, s[1..]);
      assert s == [s[0]] + s[1..];
    }
  }

  lemma {:induction false} FilterConcat<T>(p: T -> bool, a: seq<T>, b: seq<T>)
    ensures Filter(p, a + b) == Filter(p, a) + Filter(p, b)
  {
    if a == [] {
      assert a + b == b;
    } else {
      var rest := a[1..] + b;
      assert a + b == [a[0]] + rest;
      FilterCons(p, a[0], rest);
      FilterConcat(p, a[1..], b);
      var fa, fb := Filter(p, a[1..]), Filter(p, b);
      assert ([a[0]] + fa) + fb == [a[0]] + (fa + fb);
    }
  }

  lemma {:induction false} FilterFilter<T>(p: T -> bool, q: T -> bool, both: T -> bool, s: seq<T>)
    requires forall i :: 0 <= i < |s| ==> both(s[i]) == (q(s[i]) && p(s[i]))
    ensures Filter(p, Filter(q, s)) == Filter(both, s)
  {
    if s == [] {
    } else {
      FilterFilter(p, q, both, s[1..]);
      FilterConcat(p, if q(s[0]) then [s[0]] else [], Filter(q, s[1..]));
    }
  }

  lemma {:induction false} FilterSame<T>(p: T -> bool, q: T -> bool, s: seq<T>)
    requires forall i :: 0 <= i < |s| ==> p(s[i]) == q(s[i])
    ensures Filter(p, s) == Filter(q, s)
  {
    if s == [] {
    } else {
      FilterSame(p, q, s[1..]);
    }
  }

  lemma {:induction false} FilterCounts<T>(p: T -> bool, s: seq<T>, x: T)
    ensures multiset(Filter(p, s))[x] == if p(x) then multiset(s)[x] else 0
  {
    if s == [] {
    } else {
      FilterCounts(p, s[1..], x);
      assert s == [s[0]] + s[1..];
    }
  }

  lemma FilterPermutes<T(!new)>(p: T -> bool, s1: seq<T>, s2: seq<T>)
    requires multiset(s1) == multiset(s2)
    ensures multiset(Filter(p, s1)) == multiset(Filter(p, s2))
  {
    forall x
      ensures multiset(Filter(p, s1))[x] == multiset(Filter(p, s2))[x]
    {
      FilterCounts(p, s1, x);
      FilterCounts(p, s2, x);
    }
  }

  lemma FilterSnoc<T>(p: T -> bool, s: seq<T>, x: T)
    ensures Filter(p, s + [x]) == Filter(p, s) + if p(x) then [x] else []
  {
    FilterConcat(p, s, [x]);
    assert [x][1..] == [];
  }

  function MapSeq<T, U>(f: T -> U, v: seq<T>): (r: seq<U>)
    ensures |r| == |v| && forall i :: 0 <= i < |v| ==> r[i] == f(v[i])
  {
    seq(|v|, i requires 0 <= i < |v| => f(v[i]))
  }

  lemma MapCons<T, U>(f: T -> U, xs: seq<T>)
    requires xs != []
    ensures MapSeq(f, xs) == [f(xs[0])] + MapSeq(f, xs[1..])
  {
  }

  lemma {:induction false} MapFilter<T, U>(f: T -> U, p: U -> bool, before: T -> bool, s: seq<T>)
    requires forall i :: 0 <= i < |s| ==> before(s[i]) == p(f(s[i]))
    ensures Filter(p, MapSeq(f, s)) == MapSeq(f, Filter(before, s))
  {
    if s == [] {
    } else {
      MapCons(f, s);
      MapFilter(f, p, before, s[1..]);
    }
  }

  lemma MapMap<T, U, V>(f: T -> U, g: U -> V, both: T -> V, s: seq<T>)
    requires forall i :: 0 <= i < |s| ==> both(s[i]) == g(f(s[i]))
    ensures MapSeq(g, MapSeq(f, s)) == MapSeq(both, s)
  {
  }

  lemma MapSnoc<T, U>(f: T -> U, xs: seq<T>, x: T)
    ensures MapSeq(f, xs + [x]) == MapSeq(f, xs) + [f(x)]
  {
  }

  // ----- repetition

  lemma TwiceCounts<T>(s: seq<T>, i: nat, j: nat)
    requires i < j < |s| && s[i] == s[j]
    ensures multiset(s)[s[i]] >= 2
  {
    assert s == s[..j] + [s[j]] + s[j + 1..];
    assert s[..j][i] == s[i];
  }

  lemma CountsTwice<T>(s: seq<T>, x: T) returns (i: nat, j: nat)
    requires multiset(s)[x] >= 2
    ensures i < j < |s| && s[i] == x == s[j]
  {
    assert x in s;
    i :| 0 <= i < |s| && s[i] == x;
    var rest := s[..i] + s[i + 1..];
    assert s == s[..i] + [x] + s[i + 1..];
    assert multiset(s) == multiset(rest) + multiset{x};
    assert x in multiset(rest);
    var k :| 0 <= k < |rest| && rest[k] == x;
    if k < i {
      i, j := k, i;
    } else {
      j := k + 1;
    }
  }

  /** Two different positions hold elements that `clash`. */
  ghost predicate Clashing<T>(s: seq<T>, clash: (T, T) -> bool) {
    exists i, j :: 0 <= i < j < |s| && clash(s[i], s[j])
  }

  /** Whether any two elements clash does not depend on the order. */
  lemma ClashingPermutes<T(!new)>(s: seq<T>, t: seq<T>, clash: (T, T) -> bool)
    requires multiset(s) == multiset(t) && !Clashing(s, clash)
    requires forall x, y :: clash(x, y) ==> clash(y, x)
    ensures !Clashing(t, clash)
  {
    forall i, j | 0 <= i < j < |t|
      ensures !clash(t[i], t[j])
    {
      if t[i] == t[j] {
        TwiceCounts(t, i, j);
        var p, q := CountsTwice(s, t[i]);
        assert !clash(s[p], s[q]);
      } else {
        assert t[i] in multiset(t) && t[j] in multiset(t);
        assert t[i] in s && t[j] in s;
        var p :| 0 <= p < |s| && s[p] == t[i];
        var q :| 0 <= q < |s| && s[q] == t[j];
        assert p < q ==> !clash(s[p], s[q]);
        assert q < p ==> !clash(s[q], s[p]);
      }
    }
  }

  lemma MapConcat<T, U>(f: T -> U, a: seq<T>, b: seq<T>)
    ensures MapSeq(f, a + b) == MapSeq(f, a) + MapSeq(f, b)
  {
  }

  lemma CancelOne<T>(x: T, m: multiset<T>, a: multiset<T>, b: multiset<T>)
    requires multiset{x} + m == a + (multiset{x} + b)
    ensures m == a + b
  {
    assert m == (multiset{x} + m) - multiset{x};
  }

  /** Somewhere in a rearrangement is the first element; around it, a rearrangement of the rest. */
  lemma FirstElsewhere<T>(s: seq<T>, t: seq<T>) returns (a: seq<T>, b: seq<T>)
    requires s != [] && multiset(s) == multiset(t)
    ensures t == a + ([s[0]] + b) && multiset(s[1..]) == multiset(a + b)
  {
    assert s[0] in multiset(t);
    var k :| 0 <= k < |t| && t[k] == s[0];
    a, b := t[..k], t[k + 1..];
    assert t == a + ([s[0]] + b);
    assert multiset(t) == multiset(a) + (multiset{s[0]} + multiset(b));
    assert s == [s[0]] + s[1..];
    CancelOne(s[0], multiset(s[1..]), multiset(a), multiset(b));
  }

  /** A rearranged sequence maps to a rearranged image. */
  lemma {:induction false} MapPermutes<T, U>(f: T -> U, s: seq<T>, t: seq<T>)
    requires multiset(s) == multiset(t)
    ensures multiset(MapSeq(f, s)) == multiset(MapSeq(f, t))
    decreases |s|
  {
    hide MapSeq;
    if s == [] {
      assert |t| == |multiset(t)| == 0;
    } else {
      var a, b := FirstElsewhere(s, t);
      MapPermutes(f, s[1..], a + b);
      MapCons(f, s);
      MapCons(f, [s[0]] + b);
      assert ([s[0]] + b)[1..] == b;
      MapConcat(f, a, [s[0]] + b);
      MapConcat(f, a, b);
    }
  }
}
