/** In which order canonical text lists keys: by the codes of their characters, a prefix first, in
    every object at every depth; and that sorting does nothing else. */
module CanonicalOrder {
  import opened Base
  import opened Sequences
  import opened Sorting
  import opened Json
  import opened JsonLaws

  /** The strings agree up to `k`, where the first ends or has the smaller character code. */
  predicate DivideAt(a: Chars, b: Chars, k: nat) {
    && k <= |a| && k < |b| && (forall i :: 0 <= i < k ==> a[i] == b[i])
    && (k == |a| || (a[k] as int) < (b[k] as int))
  }

  /** Equal, or a proper prefix, or smaller in code at the first difference. */
  ghost predicate NotAfter(a: Chars, b: Chars) {
    a == b || exists k: nat :: DivideAt(a, b, k)
  }

  /** Every object in the value, at every depth, lists its keys in that order. */
  ghost predicate KeysInOrder(v: Json)
    decreases v
  {
    match v
    case Arr(es) => forall i :: 0 <= i < |es| ==> KeysInOrder(es[i])
    case Obj(ms) =>
      && (forall i, j :: 0 <= i < j < |ms| ==> NotAfter(ms[i].key, ms[j].key))
      && forall i :: 0 <= i < |ms| ==> KeysInOrder(ms[i].value)
    case _ => true
  }

  lemma {:induction false} LessDivides(a: Chars, b: Chars)
    ensures LexLess(a, b, CharLess) ==> exists k: nat :: DivideAt(a, b, k)
    decreases |a|
  {
    if b == [] {
    } else if a == [] || a[0] != b[0] {
      if LexLess(a, b, CharLess) {
        assert DivideAt(a, b, 0);
      }
    } else if LexLess(a, b, CharLess) {
      LessDivides(a[1..], b[1..]);
      var k: nat :| DivideAt(a[1..], b[1..], k);
      assert forall i :: 1 <= i < k + 1 ==> a[i] == a[1..][i - 1] && b[i] == b[1..][i - 1];
      assert DivideAt(a, b, k + 1);
    }
  }

  /** Keys sorted by the library's string comparison are in the order described. */
  lemma NotLessIsNotAfter(a: Chars, b: Chars)
    requires !LexLess(b, a, CharLess)
    ensures NotAfter(a, b)
  {
    LexTotal(a, b, CharLess);
    LessDivides(a, b);
  }

  /** The order leaves no choice: of two different keys exactly one is not after the other. */
  lemma OrderIsTotal(a: Chars, b: Chars)
    requires a != b
    ensures NotAfter(a, b) <==> !NotAfter(b, a)
  {
    LexTotal(a, b, CharLess);
    LessDivides(a, b);
    LessDivides(b, a);
    if NotAfter(a, b) {
      var k: nat :| DivideAt(a, b, k);
      forall m: nat
        ensures !DivideAt(b, a, m)
      {
        DivideOnce(a, b, k, m);
      }
    }
  }

  lemma DivideOnce(a: Chars, b: Chars, k: nat, m: nat)
    requires DivideAt(a, b, k)
    ensures !DivideAt(b, a, m)
  {
  }

  lemma {:induction false} CanonInOrder(v: Json)
    ensures KeysInOrder(Canon(v))
    decreases v
  {
    hide Canon, Sort, KeyBefore;
    CanonParts(v);
    match v {
      case Arr(es) =>
        forall i | 0 <= i < |es|
          ensures KeysInOrder(Canon(v).elems[i])
        {
          CanonInOrder(es[i]);
        }
      case Obj(ms) =>
        var ns := MapSeq(CanonMember, ms);
        var sorted := SortMembers(ns);
        KeyOrder();
        SortSorts(ns, KeyBefore);
        forall i | 0 <= i < |sorted|
          ensures KeysInOrder(sorted[i].value)
        {
          assert sorted[i] in multiset(sorted);
          assert sorted[i] in ns;
          var j :| 0 <= j < |ns| && ns[j] == sorted[i];
          CanonInOrder(ms[j].value);
        }
        forall i, j | 0 <= i < j < |sorted|
          ensures NotAfter(sorted[i].key, sorted[j].key)
        {
          SortedPair(sorted[i], sorted[j]);
        }
      case _ =>
        ScalarCanon(v);
    }
  }

  lemma SortedPair(a: Member, b: Member)
    requires !KeyBefore(b, a)
    ensures NotAfter(a.key, b.key)
  {
    NotLessIsNotAfter(a.key, b.key);
  }

  lemma ScalarCanon(v: Json)
    requires !v.Arr? && !v.Obj?
    ensures Canon(v) == v
  {
  }

  lemma {:induction false} RetypedInOrder(v: Json)
    requires KeysInOrder(v)
    ensures KeysInOrder(Retyped(v))
    decreases v
  {
    hide Retyped, NotAfter;
    RetypedParts(v);
    match v {
      case Arr(es) =>
        forall i | 0 <= i < |es|
          ensures KeysInOrder(Retyped(v).elems[i])
        {
          RetypedInOrder(es[i]);
        }
      case Obj(ms) =>
        forall i | 0 <= i < |ms|
          ensures Retyped(v).members[i].key == ms[i].key && KeysInOrder(Retyped(v).members[i].value)
        {
          RetypedInOrder(ms[i].value);
        }
      case _ =>
        RetypedScalarInOrder(v);
    }
  }

  lemma RetypedScalarInOrder(v: Json)
    requires !v.Arr? && !v.Obj?
    ensures KeysInOrder(Retyped(v))
  {
    hide ParseNumber;
    if v.Float? && TokenValue(v.token).Some? && v.token != "null" {
      NumberIsScalar(v.token);
    }
  }

  lemma NumberIsScalar(token: Chars)
    requires ParseNumber(token, 0).Ok?
    ensures !ParseNumber(token, 0).value.0.Arr? && !ParseNumber(token, 0).value.0.Obj?
  {
    hide IntegerPart, Fraction, Exponent;
  }

  /** Sorting keeps every member and every value, at every depth. */
  lemma {:induction false} CanonReorders(v: Json)
    ensures Reordered(v, Canon(v))
    decreases v
  {
    hide Canon, Sort, KeyBefore;
    CanonParts(v);
    match v {
      case Arr(es) =>
        forall i | 0 <= i < |es|
          ensures Reordered(es[i], Canon(v).elems[i])
        {
          CanonReorders(es[i]);
        }
      case Obj(ms) =>
        var ns := MapSeq(CanonMember, ms);
        KeyOrder();
        SortSorts(ns, KeyBefore);
        forall i | 0 <= i < |ms|
          ensures ms[i].key == ns[i].key && Reordered(ms[i].value, ns[i].value)
        {
          CanonReorders(ms[i].value);
        }
      case _ =>
        ScalarCanon(v);
    }
  }

  /** What canonical text holds: parsed back it is the value itself, its numbers typed by their text
      and its members reordered, with the keys of every object in character-code order. */
  lemma CanonicalTextInOrder(v: Json, indent: int) returns (u: Json)
    requires Readable(v)
    ensures Reordered(v, u) && Parse(ToString(v, true, indent)) == Ok(Retyped(u)) && KeysInOrder(Retyped(u))
  {
    hide Canon, Retyped, Parse, Put, Readable, Reordered;
    u := Canon(v);
    CanonReorders(v);
    RoundTrip(v, true, indent);
    CanonInOrder(v);
    RetypedInOrder(u);
  }
}
