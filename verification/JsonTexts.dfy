/** When two values have the same printed text: exactly when the parser gives back the same value
    for both and negative zeros stand at the same places, which parsing cannot tell from zero. */
module JsonTexts {
  import opened Base
  import opened Decimal
  import opened Json
  import opened JsonLaws
  import opened Sequences

  /** Negative zeros stand at the same places. */
  predicate SameZeros(v: Json, w: Json)
    decreases v
  {
    match v
    case Arr(es) => w.Arr? && |w.elems| == |es| && forall i :: 0 <= i < |es| ==> SameZeros(es[i], w.elems[i])
    case Obj(ms) =>
      && w.Obj? && |w.members| == |ms|
      && forall i :: 0 <= i < |ms| ==> SameZeros(ms[i].value, w.members[i].value)
    case _ => v == Float("-0") <==> w == Float("-0")
  }

  /** Read back alike: of one shape, with pairwise equal keys and parts that read back alike. */
  lemma AlikeParts(v: Json, w: Json)
    requires Retyped(v) == Retyped(w)
    ensures v.Arr? <==> w.Arr?
    ensures v.Obj? <==> w.Obj?
    ensures v.Arr? ==> |v.elems| == |w.elems|
    ensures v.Arr? ==> forall i :: 0 <= i < |v.elems| ==> Retyped(v.elems[i]) == Retyped(w.elems[i])
    ensures v.Obj? ==> |v.members| == |w.members|
    ensures v.Obj? ==> forall i :: 0 <= i < |v.members| ==> RetypedMember(v.members[i]) == RetypedMember(w.members[i])
  {
    if v.Arr? && w.Arr? {
      forall i | 0 <= i < |v.elems|
        ensures Retyped(v.elems[i]) == Retyped(w.elems[i])
      {
        assert Retyped(v).elems[i] == Retyped(w).elems[i];
      }
    } else if v.Obj? && w.Obj? {
      forall i | 0 <= i < |v.members|
        ensures RetypedMember(v.members[i]) == RetypedMember(w.members[i])
      {
        assert Retyped(v).members[i] == Retyped(w).members[i];
      }
    } else {
      ScalarStays(v);
      ScalarStays(w);
    }
  }

  lemma ScalarStays(v: Json)
    ensures Retyped(v).Arr? <==> v.Arr?
    ensures Retyped(v).Obj? <==> v.Obj?
  {
  }

  // ----- the same text from values alike

  lemma ScalarPrintsAlike(o: Chars, v: Json, w: Json, lay: Layout, depth: nat)
    requires Readable(v) && Readable(w) && !v.Arr? && !v.Obj? && !w.Arr? && !w.Obj?
    requires Retyped(v) == Retyped(w)
    ensures Put(o, v, lay, depth) == Put(o, w, lay, depth) <==> SameZeros(v, w)
  {
    hide Put, Retyped;
    ScalarPrint(o, v, lay, depth);
    ScalarPrint(o, w, lay, depth);
  }

  /** A scalar prints as it is read back, except for a negative zero. */
  lemma ScalarPrint(o: Chars, v: Json, lay: Layout, depth: nat)
    requires Readable(v) && !v.Arr? && !v.Obj?
    ensures v != Float("-0") ==> Put(o, v, lay, depth) == Put(o, Retyped(v), lay, depth)
    ensures v == Float("-0") ==> |Put(o, v, lay, depth)| > |Put(o, Retyped(v), lay, depth)|
  {
    hide Put, Retyped;
    RetypedPrints(o, o, v, lay, depth);
  }

  /** Values read back alike, with negative zeros at the same places, print the same. */
  lemma {:induction false} PrintAlike(o: Chars, v: Json, w: Json, lay: Layout, depth: nat)
    requires Readable(v) && Readable(w) && Retyped(v) == Retyped(w) && SameZeros(v, w)
    ensures Put(o, v, lay, depth) == Put(o, w, lay, depth)
    decreases v, Width(v) + 1
  {
    hide Retyped, Break, PutInteger, PutString;
    AlikeParts(v, w);
    if v.Arr? {
      if v.elems != [] {
        ElemsPrintAlike(o + ['['], v, w, 0, lay, depth);
      }
    } else if v.Obj? {
      if v.members != [] {
        MembersPrintAlike(o + ['{'], v, w, 0, lay, depth);
      }
    } else {
      ScalarPrintsAlike(o, v, w, lay, depth);
    }
  }

  lemma {:induction false} ElemsPrintAlike(o: Chars, v: Json, w: Json, i: nat, lay: Layout, depth: nat)
    requires Readable(v) && Readable(w) && Retyped(v) == Retyped(w) && SameZeros(v, w)
    requires v.Arr? && w.Arr? && i < |v.elems| == |w.elems|
    ensures PutElems(o, v, i, lay, depth) == PutElems(o, w, i, lay, depth)
    decreases v, |v.elems| - i
  {
    hide Retyped, Break, Put;
    AlikeParts(v, w);
    var b := Break(o, lay, depth + 1);
    PrintAlike(b, v.elems[i], w.elems[i], lay, depth + 1);
    if i + 1 == |v.elems| {
    } else {
      ElemsPrintAlike(Put(b, v.elems[i], lay, depth + 1) + [','], v, w, i + 1, lay, depth);
    }
  }

  lemma {:induction false} MembersPrintAlike(o: Chars, v: Json, w: Json, i: nat, lay: Layout, depth: nat)
    requires Readable(v) && Readable(w) && Retyped(v) == Retyped(w) && SameZeros(v, w)
    requires v.Obj? && w.Obj? && i < |v.members| == |w.members|
    ensures PutMembers(o, v, i, lay, depth) == PutMembers(o, w, i, lay, depth)
    decreases v, |v.members| - i
  {
    hide Retyped, Break, Colon, Put, PutString;
    AlikeParts(v, w);
    var m := v.members[i];
    assert RetypedMember(m) == RetypedMember(w.members[i]);
    var c := BeforeMember(o, m.key, lay, depth);
    PrintAlike(c, m.value, w.members[i].value, lay, depth + 1);
    if i + 1 == |v.members| {
    } else {
      MembersPrintAlike(Put(c, m.value, lay, depth + 1) + [','], v, w, i + 1, lay, depth);
    }
  }

  // ----- one text of two values

  /** A text that holds two values at the same place, printed in the same layout: if they are read
      back alike, their negative zeros stand at the same places and they end together. */
  lemma {:induction false} ZerosAgree(b: Chars, v: Json, w: Json, lay: Layout, depth: nat, t: Chars)
    requires Readable(v) && Readable(w) && Retyped(v) == Retyped(w)
    requires Put(b, v, lay, depth) <= t && CannotExtend(t, |Put(b, v, lay, depth)|)
    requires Put(b, w, lay, depth) <= t && CannotExtend(t, |Put(b, w, lay, depth)|)
    ensures SameZeros(v, w) && Put(b, v, lay, depth) == Put(b, w, lay, depth)
    decreases v, Width(v) + 1
  {
    hide Retyped, Break, PutInteger, PutString, ParseValue;
    ValueReads(b, v, lay, depth, t);
    ValueReads(b, w, lay, depth, t);
    AlikeParts(v, w);
    if v.Arr? {
      if v.elems != [] {
        ElemsAgree(b + ['['], v, w, 0, lay, depth, t);
      }
    } else if v.Obj? {
      if v.members != [] {
        MembersAgree(b + ['{'], v, w, 0, lay, depth, t);
      }
    } else {
      ScalarPrintsAlike(b, v, w, lay, depth);
    }
  }

  lemma ElementMet(b: Chars, v: Json, i: nat, lay: Layout, depth: nat, t: Chars)
    requires Readable(v) && v.Arr? && i < |v.elems|
    requires Break(PutElems(b, v, i, lay, depth), lay, depth) + [']'] <= t
    ensures
      var next := Put(Break(b, lay, depth + 1), v.elems[i], lay, depth + 1);
      next <= t && CannotExtend(t, |next|)
  {
    hide Break, Put, ParseElems, SkipWs;
    var next := Put(Break(b, lay, depth + 1), v.elems[i], lay, depth + 1);
    if i + 1 == |v.elems| {
      ClosingReads(next, lay, depth, ']', t);
    } else {
      ElemsRead(next + [','], v, i + 1, lay, depth, t, []);
      CommaReads(next, t);
    }
  }

  lemma {:induction false} ElemsAgree(b: Chars, v: Json, w: Json, i: nat, lay: Layout, depth: nat, t: Chars)
    requires Readable(v) && Readable(w) && Retyped(v) == Retyped(w)
    requires v.Arr? && w.Arr? && i < |v.elems| == |w.elems|
    requires Break(PutElems(b, v, i, lay, depth), lay, depth) + [']'] <= t
    requires Break(PutElems(b, w, i, lay, depth), lay, depth) + [']'] <= t
    ensures forall j :: i <= j < |v.elems| ==> SameZeros(v.elems[j], w.elems[j])
    decreases v, |v.elems| - i
  {
    hide Retyped, Break, Put;
    AlikeParts(v, w);
    var c := Break(b, lay, depth + 1);
    ElementMet(b, v, i, lay, depth, t);
    ElementMet(b, w, i, lay, depth, t);
    ZerosAgree(c, v.elems[i], w.elems[i], lay, depth + 1, t);
    if i + 1 == |v.elems| {
    } else {
      ElemsAgree(Put(c, v.elems[i], lay, depth + 1) + [','], v, w, i + 1, lay, depth, t);
    }
  }

  lemma MemberMet(b: Chars, v: Json, i: nat, lay: Layout, depth: nat, t: Chars)
    requires Readable(v) && v.Obj? && i < |v.members|
    requires Break(PutMembers(b, v, i, lay, depth), lay, depth) + ['}'] <= t
    ensures
      var next := Put(BeforeMember(b, v.members[i].key, lay, depth), v.members[i].value, lay, depth + 1);
      next <= t && CannotExtend(t, |next|)
  {
    hide Break, Colon, Put, PutString, ParseMembers, SkipWs;
    var next := Put(BeforeMember(b, v.members[i].key, lay, depth), v.members[i].value, lay, depth + 1);
    if i + 1 == |v.members| {
      ClosingReads(next, lay, depth, '}', t);
    } else {
      MembersRead(next + [','], v, i + 1, lay, depth, t, []);
      CommaReads(next, t);
    }
  }

  lemma {:induction false} MembersAgree(b: Chars, v: Json, w: Json, i: nat, lay: Layout, depth: nat, t: Chars)
    requires Readable(v) && Readable(w) && Retyped(v) == Retyped(w)
    requires v.Obj? && w.Obj? && i < |v.members| == |w.members|
    requires Break(PutMembers(b, v, i, lay, depth), lay, depth) + ['}'] <= t
    requires Break(PutMembers(b, w, i, lay, depth), lay, depth) + ['}'] <= t
    ensures forall j :: i <= j < |v.members| ==> SameZeros(v.members[j].value, w.members[j].value)
    decreases v, |v.members| - i
  {
    hide Retyped, Break, Colon, Put, PutString;
    AlikeParts(v, w);
    var m := v.members[i];
    assert RetypedMember(m) == RetypedMember(w.members[i]);
    var c := BeforeMember(b, m.key, lay, depth);
    MemberMet(b, v, i, lay, depth, t);
    MemberMet(b, w, i, lay, depth, t);
    ZerosAgree(c, m.value, w.members[i].value, lay, depth + 1, t);
    if i + 1 == |v.members| {
    } else {
      MembersAgree(Put(c, m.value, lay, depth + 1) + [','], v, w, i + 1, lay, depth, t);
    }
  }

  // ----- whole texts

  /** Two values have the same text, printed alike, if and only if they are read back alike and have
      their negative zeros at the same places; keys sorted first if they are printed sorted. */
  lemma SameTextExactly(v: Json, w: Json, sortKeys: bool, indent: int)
    requires Readable(v) && Readable(w)
    ensures
      var (x, y) := if sortKeys then (Canon(v), Canon(w)) else (v, w);
      ToString(v, sortKeys, indent) == ToString(w, sortKeys, indent) <==>
        Retyped(x) == Retyped(y) && SameZeros(x, y)
  {
    hide Put, Parse, Canon, Retyped, Readable, SameZeros;
    var x, y := if sortKeys then Canon(v) else v, if sortKeys then Canon(w) else w;
    var lay := Layout(indent, indent >= 0 && !sortKeys);
    CanonKeeps(v);
    CanonKeeps(w);
    RoundTrip(v, sortKeys, indent);
    RoundTrip(w, sortKeys, indent);
    if Put([], x, lay, 0) == Put([], y, lay, 0) {
      ZerosAgree([], x, y, lay, 0, Put([], x, lay, 0));
    }
    if Retyped(x) == Retyped(y) && SameZeros(x, y) {
      PrintAlike([], x, y, lay, 0);
    }
  }

  // ----- texts that show where the parser is more lenient than RFC 8259

  /** A vertical tab is no white space there, but it is skipped. */
  lemma VerticalTabIsSkipped(t: Chars)
    requires t == [11 as char, '7', 11 as char]
    ensures Parse(t) == Ok(Int(7))
  {
    assert SkipWs(t, 0) == 1 && SkipWs(t, 2) == 3;
    assert IntegerPart(t, 1) == Ok(2);
    assert t[1..2] == "7" && "7"[..0] == [];
    assert DecimalValue("7") == 7;
  }

  /** A key given twice is kept twice. */
  lemma RepeatedKeyIsKept()
    ensures Parse("{\"a\":null,\"a\":true}") == Ok(Obj([Member("a", Null), Member("a", Bool(true))]))
  {
    var v := Obj([Member("a", Null), Member("a", Bool(true))]);
    RoundTrip(v, false, -1);
    RepeatedKeyPrints(v);
    RetypedParts(v);
  }

  lemma RepeatedKeyPrints(v: Json)
    requires v == Obj([Member("a", Null), Member("a", Bool(true))])
    ensures ToString(v, false, -1) == "{\"a\":null,\"a\":true}" && Retyped(v) == v
  {
    hide Put, PutString, Retyped;
    var lay := Layout(-1, false);
    QuotedPrints("{");
    QuotedPrints("{\"a\":null,");
    WordsPrint("{\"a\":", lay, 1);
    WordsPrint("{\"a\":null,\"a\":", lay, 1);
    var o := "{\"a\":null";
    assert o + [','] == "{\"a\":null,";
    assert Colon(PutString("{", "a"), lay) == "{\"a\":";
    assert Colon(PutString("{\"a\":null,", "a"), lay) == "{\"a\":null,\"a\":";
    assert PutMembers(o + [','], v, 1, lay, 0) == "{\"a\":null,\"a\":true";
    assert Put("{\"a\":", Null, lay, 1) == o;
    assert PutMembers("{", v, 0, lay, 0) == PutMembers(o + [','], v, 1, lay, 0);
    WholePrints(v, lay);
  }

  lemma QuotedPrints(o: Chars)
    ensures PutString(o, "a") == o + "\"a\""
  {
    assert "a"[1..] == [];
  }

  lemma WordsPrint(o: Chars, lay: Layout, depth: nat)
    ensures Put(o, Null, lay, depth) == o + "null" && Put(o, Bool(true), lay, depth) == o + "true"
    ensures Retyped(Null) == Null && Retyped(Bool(true)) == Bool(true)
  {
  }

  lemma WholePrints(v: Json, lay: Layout)
    requires v == Obj([Member("a", Null), Member("a", Bool(true))]) && lay == Layout(-1, false)
    ensures Put([], v, lay, 0) == PutMembers("{", v, 0, lay, 0) + ['}']
    ensures Retyped(v) == v
  {
    hide PutMembers, PutString;
    assert [] + ['{'] == "{";
  }

  /** Half a surrogate pair is encoded like any other code point. */
  lemma LoneSurrogateIsEncoded(t: Chars)
    requires t == "\"\\ud800\""
    ensures Parse(t) == Ok(Str([0xED as char, 0xA0 as char, 0x80 as char]))
  {
    hide ParseNumber;
    LoneSurrogateRead(t);
    assert SkipWs(t, 0) == 0 && SkipWs(t, 8) == 8;
  }

  lemma LoneSurrogateRead(t: Chars)
    requires t == "\"\\ud800\""
    ensures ParseString(t, 0) == Ok(([0xED as char, 0xA0 as char, 0x80 as char], 8))
  {
    var s := [0xED as char, 0xA0 as char, 0x80 as char];
    assert ParseHex(t, 7, 0, 0xD800) == Ok((0xD800, 7));
    assert ParseHex(t, 6, 1, 0xD80) == Ok((0xD800, 7));
    assert ParseHex(t, 5, 2, 0xD8) == Ok((0xD800, 7));
    assert ParseHex(t, 4, 3, 0xD) == Ok((0xD800, 7));
    assert ParseHex(t, 3, 4, 0) == Ok((0xD800, 7));
    assert ParseEscape(t, 2) == Ok((s, 7));
    assert [] + s == s && ParseChars(t, 7, s) == Ok((s, 8));
    assert ParseChars(t, 1, []) == Ok((s, 8));
  }
}
