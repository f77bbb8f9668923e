/** Printing and parsing undo each other, and canonical text depends on nothing but the value. */
module JsonLaws {
  import opened Base
  import opened Decimal
  import opened Sequences
  import opened Sorting
  import opened Json

  // ----- white space

  lemma {:induction false} SkipTo(t: Chars, pos: nat, q: nat)
    requires pos <= q <= |t| && forall i :: pos <= i < q ==> IsSpace(t[i])
    requires q < |t| ==> !IsSpace(t[q])
    ensures SkipWs(t, pos) == q
    decreases q - pos
  {
    if pos >= q {
    } else {
      SkipTo(t, pos + 1, q);
    }
  }

  lemma {:induction false} SkipStops(t: Chars, pos: nat)
    requires pos <= |t|
    ensures var p := SkipWs(t, pos); p < |t| ==> !IsSpace(t[p])
    ensures SkipWs(t, SkipWs(t, pos)) == SkipWs(t, pos)
    decreases |t| - pos
  {
    if pos >= |t| || !IsSpace(t[pos]) {
    } else {
      SkipStops(t, pos + 1);
    }
  }

  lemma {:induction false} SpacesAreSpace(n: int)
    ensures forall i :: 0 <= i < |Spaces(n)| ==> IsSpace(Spaces(n)[i])
    decreases n
  {
    if n <= 0 {
    } else {
      SpacesAreSpace(n - 1);
    }
  }

  /** A break adds nothing but white space. */
  lemma BreakIsSpace(out: Chars, lay: Layout, depth: nat)
    ensures out <= Break(out, lay, depth)
    ensures forall i :: |out| <= i < |Break(out, lay, depth)| ==> IsSpace(Break(out, lay, depth)[i])
  {
    SpacesAreSpace(lay.indent * depth);
  }

  /** What follows cannot continue a number. */
  predicate CannotExtend(t: Chars, pos: nat) {
    pos < |t| ==> !IsDigit(t[pos]) && t[pos] != '.' && t[pos] != 'e' && t[pos] != 'E'
  }

  // ----- numbers

  lemma {:induction false} SkipDigitsTo(t: Chars, pos: nat, q: nat)
    requires pos <= q <= |t| && forall i :: pos <= i < q ==> IsDigit(t[i])
    requires q < |t| ==> !IsDigit(t[q])
    ensures SkipDigits(t, pos) == q
    decreases q - pos
  {
    if pos >= q {
    } else {
      SkipDigitsTo(t, pos + 1, q);
    }
  }

  /** A digit string without leading zeros, met in the text, is scanned to its end. */
  lemma DigitsScan(t: Chars, pos: nat, d: Chars)
    requires d != [] && AllDigits(d) && (d[0] == '0' ==> |d| == 1)
    requires pos + |d| <= |t| && t[pos..pos + |d|] == d && CannotExtend(t, pos + |d|)
    ensures IntegerPart(t, pos) == Ok(pos + |d|) && t[pos] == d[0]
  {
    var q := pos + |d|;
    forall i | pos <= i < q
      ensures t[i] == d[i - pos]
    {
      assert t[i] == t[pos..q][i - pos];
    }
    if d[0] != '0' {
      SkipDigitsTo(t, pos + 1, q);
    }
  }

  function Sign(negative: bool): Chars {
    if negative then ['-'] else []
  }

  lemma TokenReads(b: Chars, negative: bool, d: Chars, t: Chars)
    requires d != [] && AllDigits(d) && (d[0] == '0' ==> |d| == 1)
    requires b + Sign(negative) + d <= t && CannotExtend(t, |b + Sign(negative) + d|)
    ensures
      var end := |b + Sign(negative) + d|;
      && b <= t && |b| < end && (t[|b|] == '-' || IsDigit(t[|b|])) && t[|b|..end] == Sign(negative) + d
      && ParseNumber(t, |b|) ==
         match IntegerOf(Sign(negative) + d, end) case Err(e) => Err(e) case Ok(v) => Ok((v, end))
  {
    hide IntegerOf, IntegerPart, Fraction, Exponent;
    TokenSlices(b, Sign(negative), d, t);
    DigitsScan(t, |b + Sign(negative)|, d);
    NothingFollows(t, |b + Sign(negative) + d|);
  }

  /** The parts of a token behind `b`. */
  lemma TokenSlices(b: Chars, sign: Chars, d: Chars, t: Chars)
    requires d != [] && b + sign + d <= t
    ensures
      var start, end := |b + sign|, |b + sign + d|;
      && b <= t && t[start..end] == d && t[|b|..end] == sign + d
      && t[|b|] == if sign == [] then d[0] else sign[0]
  {
    var start, end := |b + sign|, |b + sign + d|;
    assert t[..end] == b + sign + d;
    assert t[start..end] == t[..end][start..] == d;
    assert t[|b|..end] == t[..end][|b|..] == sign + d;
    assert t[..|b|] == t[..end][..|b|] == b;
    assert t[|b|] == (sign + d)[0];
  }

  lemma NothingFollows(t: Chars, end: nat)
    requires end <= |t| && CannotExtend(t, end)
    ensures Fraction(t, end) == Ok(end) && Exponent(t, end) == Ok(end)
  {
  }

  /** How an integer comes back. */
  function IntegerValue(n: int): Json
    requires -(TWO64 / 2) <= n < TWO64
  {
    if n < TWO64 / 2 then Int(n) else UInt(n)
  }

  lemma IntegerReads(b: Chars, n: int, t: Chars)
    requires -(TWO64 / 2) <= n < TWO64 && PutInteger(b, n) <= t && CannotExtend(t, |PutInteger(b, n)|)
    ensures b <= t && |b| < |PutInteger(b, n)| && (t[|b|] == '-' || IsDigit(t[|b|]))
    ensures ParseNumber(t, |b|) == Ok((IntegerValue(n), |PutInteger(b, n)|))
  {
    hide Digits, DecimalValue, ParseNumber;
    var m: nat := if n < 0 then -n else n;
    var d := Digits(m);
    DigitsRead(m);
    assert PutInteger(b, n) == b + Sign(n < 0) + d;
    TokenReads(b, n < 0, d, t);
    assert (Sign(true) + d)[1..] == d;
    assert Sign(false) + d == d;
  }

  // ----- the text of a double, met in a longer text

  /** Scanning a token inside a text is scanning it alone, if nothing behind it extends it. */
  predicate Holds(t: Chars, b: nat, token: Chars) {
    b + |token| <= |t| && t[b..b + |token|] == token && CannotExtend(t, b + |token|)
  }

  lemma {:induction false} SkipDigitsInside(t: Chars, b: nat, token: Chars, k: nat)
    requires Holds(t, b, token) && k <= |token|
    ensures SkipDigits(t, b + k) == b + SkipDigits(token, k)
    decreases |token| - k
  {
    if k == |token| {
      assert !DigitAt(t, b + k);
    } else {
      assert t[b + k] == token[k];
      if IsDigit(token[k]) {
        SkipDigitsInside(t, b, token, k + 1);
      }
    }
  }

  lemma PeekInside(t: Chars, b: nat, token: Chars, k: nat)
    requires Holds(t, b, token) && k <= |token|
    ensures k < |token| ==> t[b + k] == token[k] && Peek(t, b + k) == Peek(token, k)
    ensures DigitAt(t, b + k) <==> DigitAt(token, k)
    ensures Peek(token, k) == None ==>
            Peek(t, b + k) != Some('.') && Peek(t, b + k) != Some('e') && Peek(t, b + k) != Some('E')
  {
    if k < |token| {
      assert t[b + k] == t[b..b + |token|][k];
    }
  }

  lemma NumberInside(t: Chars, b: nat, token: Chars)
    requires Holds(t, b, token) && ParseNumber(token, 0).Ok? && ParseNumber(token, 0).value.1 == |token|
    ensures ParseNumber(t, b) == Ok((ParseNumber(token, 0).value.0, b + |token|))
    ensures token != [] && (t[b] == '-' || IsDigit(t[b]))
  {
    hide IntegerPart, Fraction, Exponent, IntegerOf, Holds;
    PeekInside(t, b, token, 0);
    var start := if Peek(token, 0) == Some('-') then 1 else 0;
    var p := IntegerPart(token, start).value;
    var q := Fraction(token, p).value;
    IntegerInside(t, b, token, start);
    FractionInside(t, b, token, p);
    ExponentInside(t, b, token, q);
    WholeToken(t, b, token);
    PositionIrrelevant(token, |token|, b + |token|);
  }

  lemma WholeToken(t: Chars, b: nat, token: Chars)
    requires Holds(t, b, token)
    ensures t[b..b + |token|] == token == token[0..|token|]
  {
  }

  lemma PositionIrrelevant(token: Chars, end1: nat, end2: nat)
    ensures IntegerOf(token, end1).Ok? ==> IntegerOf(token, end2) == IntegerOf(token, end1)
  {
  }

  lemma IntegerInside(t: Chars, b: nat, token: Chars, k: nat)
    requires Holds(t, b, token) && IntegerPart(token, k).Ok?
    ensures IntegerPart(t, b + k) == Ok(b + IntegerPart(token, k).value)
    ensures k < |token| && IsDigit(token[k])
  {
    hide SkipDigits, Holds;
    PeekInside(t, b, token, k);
    if token[k] != '0' {
      SkipDigitsInside(t, b, token, k + 1);
    }
  }

  lemma FractionInside(t: Chars, b: nat, token: Chars, k: nat)
    requires Holds(t, b, token) && k <= |token| && Fraction(token, k).Ok?
    ensures Fraction(t, b + k) == Ok(b + Fraction(token, k).value)
  {
    hide SkipDigits, Holds;
    PeekInside(t, b, token, k);
    if k < |token| && token[k] == '.' {
      PeekInside(t, b, token, k + 1);
      SkipDigitsInside(t, b, token, k + 1);
    }
  }

  lemma ExponentInside(t: Chars, b: nat, token: Chars, k: nat)
    requires Holds(t, b, token) && k <= |token| && Exponent(token, k).Ok?
    ensures Exponent(t, b + k) == Ok(b + Exponent(token, k).value)
  {
    hide SkipDigits, Holds;
    PeekInside(t, b, token, k);
    if k < |token| && (token[k] == 'e' || token[k] == 'E') {
      PeekInside(t, b, token, k + 1);
      SkipDigitsInside(t, b, token, k + 1);
      if k + 1 < |token| && (token[k + 1] == '+' || token[k + 1] == '-') {
        PeekInside(t, b, token, k + 2);
        SkipDigitsInside(t, b, token, k + 2);
      }
    }
  }

  lemma FloatReads(b: Chars, token: Chars, t: Chars)
    requires TokenValue(token).Some? && b + token <= t && CannotExtend(t, |b + token|)
    ensures ReadsAs(t, b, TokenValue(token).value, |b + token|)
  {
    hide ParseNumber;
    var end := |b + token|;
    assert t[..end] == b + token;
    assert t[|b|..end] == t[..end][|b|..] == token;
    assert t[..|b|] == t[..end][..|b|] == b;
    if token == "null" {
      WordReads(b, "null", t);
    } else {
      NumberInside(t, |b|, token);
    }
  }

  // ----- strings

  lemma HexReads(d: nat)
    requires d < 16
    ensures HexValue(HexChar(d)) == Some(d)
  {
  }

  lemma ControlReads(t: Chars, pos: nat, c: Char8)
    requires c as int < 0x20 && pos + 5 <= |t|
    requires t[pos..pos + 5] == ['u', '0', '0', HexChar(c as int / 16), HexChar(c as int % 16)]
    ensures ParseEscape(t, pos) == Ok(([c], pos + 5))
  {
    var s := t[pos..pos + 5];
    assert t[pos] == s[0] && t[pos + 1] == s[1] && t[pos + 2] == s[2] && t[pos + 3] == s[3] && t[pos + 4] == s[4];
    HexReads(c as int / 16);
    HexReads(c as int % 16);
    var code := c as int;
    var hi, lo: nat := code / 16, code % 16;
    assert ParseHex(t, pos + 5, 0, code) == Ok((code, pos + 5));
    assert ParseHex(t, pos + 4, 1, hi) == Ok((code, pos + 5));
    assert ParseHex(t, pos + 3, 2, 0) == Ok((code, pos + 5));
    assert ParseHex(t, pos + 2, 3, 0) == Ok((code, pos + 5));
    assert ParseHex(t, pos + 1, 4, 0) == Ok((code, pos + 5));
    assert Utf8(code) == [c];
  }

  lemma CharReads(b: Chars, c: Char8, t: Chars, acc: Chars)
    requires PutChar(b, c) <= t
    ensures b <= t && ParseChars(t, |b|, acc) == ParseChars(t, |PutChar(b, c)|, acc + [c])
  {
    var p, end := |b|, |PutChar(b, c)|;
    var s := t[..end];
    assert s == PutChar(b, c);
    assert b <= t by {
      assert t[..p] == s[..p] == b;
    }
    assert t[p] == s[p];
    if t[p] == '\\' {
      assert t[p + 1] == s[p + 1];
      EscapeReads(b, c, t);
    }
  }

  lemma EscapeReads(b: Chars, c: Char8, t: Chars)
    requires PutChar(b, c) <= t && |PutChar(b, c)| > |b| + 1
    ensures ParseEscape(t, |b| + 1) == Ok(([c], |PutChar(b, c)|))
  {
    var p, end := |b|, |PutChar(b, c)|;
    var s := t[..end];
    assert s == PutChar(b, c);
    assert t[p + 1] == s[p + 1];
    if end == p + 6 {
      assert t[p + 1..p + 6] == s[p + 1..] == ['u', '0', '0', HexChar(c as int / 16), HexChar(c as int % 16)];
      ControlReads(t, p + 1, c);
    }
  }

  lemma {:induction false} CharsRead(b: Chars, s: Chars, t: Chars, acc: Chars)
    requires PutChars(b, s) <= t
    ensures b <= t && ParseChars(t, |b|, acc) == ParseChars(t, |PutChars(b, s)|, acc + s)
    decreases |s|
  {
    hide ParseChars, PutChar;
    if s == [] {
      assert acc + s == acc;
    } else {
      CharsRead(PutChar(b, s[0]), s[1..], t, acc + [s[0]]);
      CharReads(b, s[0], t, acc);
      assert acc + [s[0]] + s[1..] == acc + s;
    }
  }

  lemma StringReads(b: Chars, s: Chars, t: Chars)
    requires PutString(b, s) <= t
    ensures b <= t && |b| < |t| && t[|b|] == '\"' && ParseString(t, |b|) == Ok((s, |PutString(b, s)|))
  {
    hide PutChars;
    var body := PutChars(b + ['\"'], s);
    assert t[..|body|] == PutString(b, s)[..|body|] == body;
    assert t[|body|] == PutString(b, s)[|body|];
    CharsRead(b + ['\"'], s, t, []);
    assert t[..|b| + 1][..|b|] == b && t[|b|] == t[..|b| + 1][|b|];
    assert [] + s == s;
  }

  // ----- values

  function RetypedMember(m: Member): Member {
    Member(m.key, Retyped(m.value))
  }

  lemma RetypedParts(v: Json)
    ensures v.Arr? ==> Retyped(v) == Arr(MapSeq(Retyped, v.elems))
    ensures v.Obj? ==> Retyped(v) == Obj(MapSeq(RetypedMember, v.members))
  {
    if v.Arr? {
      assert Retyped(v).elems == MapSeq(Retyped, v.elems);
    } else if v.Obj? {
      assert Retyped(v).members == MapSeq(RetypedMember, v.members);
    }
  }

  /** Characters a printed value can start with. */
  predicate Starts(c: char) {
    !IsSpace(c) && c != ']' && c != '}' && c != ','
  }

  /** The text from `b` on is read as `w`, ending at `end`. */
  predicate ReadsAs(t: Chars, b: Chars, w: Json, end: nat) {
    b <= t && |b| < end <= |t| && Starts(t[|b|]) && ParseValue(t, |b|) == Ok((w, end))
  }

  lemma ScalarReads(b: Chars, v: Json, lay: Layout, depth: nat, t: Chars)
    requires Readable(v) && !v.Arr? && !v.Obj?
    requires Put(b, v, lay, depth) <= t && CannotExtend(t, |Put(b, v, lay, depth)|)
    ensures ReadsAs(t, b, Retyped(v), |Put(b, v, lay, depth)|)
  {
    hide PutString, PutInteger, ParseString, ParseNumber, TokenValue;
    match v {
      case Int(i) => IntegerReads(b, i, t);
      case UInt(u) => IntegerReads(b, u, t);
      case Float(token) => FloatReads(b, token, t);
      case Str(s) => StringReads(b, s, t);
      case Null => WordReads(b, "null", t);
      case Bool(true) => WordReads(b, "true", t);
      case Bool(false) => WordReads(b, "false", t);
    }
  }

  lemma WordReads(b: Chars, w: Chars, t: Chars)
    requires b + w <= t && w != []
    ensures b <= t && |b| < |t| && t[|b|] == w[0] && t[|b|..|b| + |w|] == w
  {
    assert t[|b|..|b| + |w|] == t[..|b + w|][|b|..] == w;
    assert t[..|b|] == t[..|b + w|][..|b|];
    assert t[|b|] == t[|b|..|b| + |w|][0];
  }

  /** Behind an element or member comes a comma, or the break and the closing mark. */
  lemma ClosingReads(next: Chars, lay: Layout, depth: nat, close: Char8, t: Chars)
    requires (close == ']' || close == '}') && Break(next, lay, depth) + [close] <= t
    ensures next <= t && CannotExtend(t, |next|)
    ensures SkipWs(t, |next|) == |Break(next, lay, depth)| && Peek(t, |Break(next, lay, depth)|) == Some(close)
  {
    hide Break;
    var end := Break(next, lay, depth);
    BreakIsSpace(next, lay, depth);
    assert t[..|end|] == (end + [close])[..|end|] == end;
    assert t[|end|] == (end + [close])[|end|];
    assert t[..|next|] == end[..|next|];
    forall i | |next| <= i < |end|
      ensures IsSpace(t[i])
    {
      assert t[i] == t[..|end|][i];
    }
    SkipTo(t, |next|, |end|);
  }

  lemma CommaReads(next: Chars, t: Chars)
    requires next + [','] <= t
    ensures next <= t && CannotExtend(t, |next|) && SkipWs(t, |next|) == |next| && Peek(t, |next|) == Some(',')
  {
    assert t[..|next|] == t[..|next| + 1][..|next|] == next;
    assert t[|next|] == (next + [','])[|next|];
  }

  /** A break in front of a value is skipped. */
  lemma BreakSkipped(b: Chars, lay: Layout, depth: nat, t: Chars)
    requires Break(b, lay, depth) <= t && |Break(b, lay, depth)| < |t| && !IsSpace(t[|Break(b, lay, depth)|])
    ensures b <= t && SkipWs(t, |b|) == |Break(b, lay, depth)|
  {
    hide Break;
    var b1 := Break(b, lay, depth);
    BreakIsSpace(b, lay, depth);
    assert t[..|b|] == b1[..|b|];
    forall i | |b| <= i < |b1|
      ensures IsSpace(t[i])
    {
      assert t[i] == b1[i];
    }
    SkipTo(t, |b|, |b1|);
  }

  /** One turn of the element loop. */
  lemma ElementTurn(b: Chars, b1: Chars, w: Json, next: nat, t: Chars, acc: seq<Json>)
    requires b <= t && SkipWs(t, |b|) == |b1| && ReadsAs(t, b1, w, next)
    ensures
      var q := SkipWs(t, next);
      ParseElems(t, |b|, acc) ==
        if Peek(t, q) == Some(',') then ParseElems(t, q + 1, acc + [w])
        else if Peek(t, q) == Some(']') then Ok((Arr(acc + [w]), q + 1))
        else Err(ParseError(ExpectedCommaOrBracket, q))
  {
    hide ParseValue, SkipWs;
  }

  lemma {:induction false} ElemsRead(b: Chars, v: Json, i: nat, lay: Layout, depth: nat, t: Chars, acc: seq<Json>)
    requires Readable(v) && v.Arr? && i < |v.elems|
    requires Break(PutElems(b, v, i, lay, depth), lay, depth) + [']'] <= t
    ensures b <= t && |b| < |t| && SkipWs(t, |b|) < |t| && Starts(t[SkipWs(t, |b|)])
    ensures ParseElems(t, |b|, acc) ==
            Ok((Arr(acc + MapSeq(Retyped, v.elems[i..])), |Break(PutElems(b, v, i, lay, depth), lay, depth)| + 1))
    decreases v, |v.elems| - i
  {
    hide Break, ParseElems, ParseValue, SkipWs, Retyped, MapSeq, Put;
    var b1 := Break(b, lay, depth + 1);
    var e := v.elems[i];
    var next := Put(b1, e, lay, depth + 1);
    var w := Retyped(e);
    MapCons(Retyped, v.elems[i..]);
    if i + 1 == |v.elems| {
      ClosingReads(next, lay, depth, ']', t);
      ValueReads(b1, e, lay, depth + 1, t);
      BreakSkipped(b, lay, depth + 1, t);
      ElementTurn(b, b1, w, |next|, t, acc);
      assert v.elems[i..][1..] == [];
      NothingRetyped();
      assert acc + ([w] + []) == acc + [w];
    } else {
      ElemsRead(next + [','], v, i + 1, lay, depth, t, acc + [w]);
      CommaReads(next, t);
      ValueReads(b1, e, lay, depth + 1, t);
      BreakSkipped(b, lay, depth + 1, t);
      ElementTurn(b, b1, w, |next|, t, acc);
      assert v.elems[i..][1..] == v.elems[i + 1..];
      assert acc + [w] + MapSeq(Retyped, v.elems[i + 1..]) == acc + ([w] + MapSeq(Retyped, v.elems[i + 1..]));
    }
  }

  lemma NothingRetyped()
    ensures MapSeq(Retyped, []) == [] && MapSeq(RetypedMember, []) == []
  {
  }

  /** The colon and its space are skipped up to the value. */
  lemma ColonReads(k1: Chars, lay: Layout, t: Chars)
    requires Colon(k1, lay) <= t && |Colon(k1, lay)| < |t| && !IsSpace(t[|Colon(k1, lay)|])
    ensures k1 <= t && SkipWs(t, |k1|) == |k1| && Expect(t, |k1|, ':') == Ok(|k1| + 1)
    ensures SkipWs(t, |k1| + 1) == |Colon(k1, lay)|
  {
    var c1 := Colon(k1, lay);
    assert t[..|k1|] == t[..|c1|][..|k1|] == k1;
    assert t[|k1|] == c1[|k1|] == ':';
    forall i | |k1| + 1 <= i < |c1|
      ensures IsSpace(t[i])
    {
      assert t[i] == c1[i];
    }
    SkipTo(t, |k1| + 1, |c1|);
  }

  /** One turn of the member loop. */
  lemma MemberTurn(b: Chars, b1: Chars, key: Chars, k1: nat, c1: Chars, w: Json, next: nat, t: Chars, acc: seq<Member>)
    requires b <= t && SkipWs(t, |b|) == |b1| && Peek(t, |b1|) == Some('"') && ParseString(t, |b1|) == Ok((key, k1))
    requires SkipWs(t, k1) == k1 && Expect(t, k1, ':') == Ok(k1 + 1) && SkipWs(t, k1 + 1) == |c1|
             && ReadsAs(t, c1, w, next)
    ensures
      var q := SkipWs(t, next);
      ParseMembers(t, |b|, acc) ==
        if Peek(t, q) == Some(',') then ParseMembers(t, q + 1, acc + [Member(key, w)])
        else if Peek(t, q) == Some('}') then Ok((Obj(acc + [Member(key, w)]), q + 1))
        else Err(ParseError(ExpectedCommaOrBrace, q))
  {
    hide ParseValue, ParseString, SkipWs, Expect;
  }

  lemma {:induction false} MembersRead(b: Chars, v: Json, i: nat, lay: Layout, depth: nat, t: Chars, acc: seq<Member>)
    requires Readable(v) && v.Obj? && i < |v.members|
    requires Break(PutMembers(b, v, i, lay, depth), lay, depth) + ['}'] <= t
    ensures b <= t && |b| < |t| && SkipWs(t, |b|) < |t| && Starts(t[SkipWs(t, |b|)])
    ensures ParseMembers(t, |b|, acc) ==
            Ok((Obj(acc + MapSeq(RetypedMember, v.members[i..])),
              |Break(PutMembers(b, v, i, lay, depth), lay, depth)| + 1))
    decreases v, |v.members| - i
  {
    hide Break, Colon, ParseMember, ParseMembers, ParseValue, ParseString, Expect, SkipWs, Retyped, MapSeq,
      Put, PutString;
    var m := v.members[i];
    var b1 := Break(b, lay, depth + 1);
    var k1 := PutString(b1, m.key);
    var c1 := Colon(k1, lay);
    var next := Put(c1, m.value, lay, depth + 1);
    var w := RetypedMember(m);
    MapCons(RetypedMember, v.members[i..]);
    if i + 1 == |v.members| {
      ClosingReads(next, lay, depth, '}', t);
    } else {
      MembersRead(next + [','], v, i + 1, lay, depth, t, acc + [w]);
      CommaReads(next, t);
    }
    ValueReads(c1, m.value, lay, depth + 1, t);
    ColonReads(k1, lay, t);
    StringReads(b1, m.key, t);
    BreakSkipped(b, lay, depth + 1, t);
    MemberTurn(b, b1, m.key, |k1|, c1, Retyped(m.value), |next|, t, acc);
    if i + 1 == |v.members| {
      assert v.members[i..][1..] == [];
      NothingRetyped();
      assert acc + ([w] + []) == acc + [w];
    } else {
      assert v.members[i..][1..] == v.members[i + 1..];
      assert acc + [w] + MapSeq(RetypedMember, v.members[i + 1..]) ==
        acc + ([w] + MapSeq(RetypedMember, v.members[i + 1..]));
    }
  }

  /** A printed value, in any layout and at any depth, followed by nothing that could extend a
      number, is read back retyped and exactly to its end. */
  lemma {:induction false} ValueReads(b: Chars, v: Json, lay: Layout, depth: nat, t: Chars)
    requires Readable(v) && Put(b, v, lay, depth) <= t && CannotExtend(t, |Put(b, v, lay, depth)|)
    ensures ReadsAs(t, b, Retyped(v), |Put(b, v, lay, depth)|)
    decreases v, Width(v) + 1
  {
    if v.Arr? {
      ArrayReads(b, v, lay, depth, t);
    } else if v.Obj? {
      ObjectReads(b, v, lay, depth, t);
    } else {
      ScalarReads(b, v, lay, depth, t);
    }
  }

  lemma EmptyArrayReads(b: Chars, t: Chars)
    requires b + ['[', ']'] <= t
    ensures ReadsAs(t, b, Arr([]), |b| + 2)
  {
    hide ParseElems;
    WordReads(b, ['[', ']'], t);
    assert t[|b| + 1] == t[|b|..|b| + 2][1];
    assert SkipWs(t, |b| + 1) == |b| + 1;
    assert ParseArray(t, |b|) == Ok((Arr([]), |b| + 2));
  }

  lemma EmptyObjectReads(b: Chars, t: Chars)
    requires b + ['{', '}'] <= t
    ensures ReadsAs(t, b, Obj([]), |b| + 2)
  {
    hide ParseMembers;
    WordReads(b, ['{', '}'], t);
    assert t[|b| + 1] == t[|b|..|b| + 2][1];
    assert SkipWs(t, |b| + 1) == |b| + 1;
    assert ParseObject(t, |b|) == Ok((Obj([]), |b| + 2));
  }

  lemma ArrayReads(b: Chars, v: Json, lay: Layout, depth: nat, t: Chars)
    requires Readable(v) && v.Arr? && Put(b, v, lay, depth) <= t
    ensures ReadsAs(t, b, Retyped(v), |Put(b, v, lay, depth)|)
    decreases v, Width(v) + 1, 0
  {
    hide Break, ParseElems, Retyped, MapSeq, PutElems;
    RetypedParts(v);
    if v.elems == [] {
      NothingRetyped();
      assert Put(b, v, lay, depth) == b + ['[', ']'];
      assert Retyped(v) == Arr([]);
      EmptyArrayReads(b, t);
    } else {
      var b0 := b + ['['];
      ElemsRead(b0, v, 0, lay, depth, t, []);
      WordReads(b, ['['], t);
      SkipStops(t, |b0|);
      SameStart(t, |b0|);
      assert v.elems[0..] == v.elems;
      assert [] + MapSeq(Retyped, v.elems) == MapSeq(Retyped, v.elems);
      assert ParseArray(t, |b|) == ParseElems(t, |b0|, []);
      assert ParseValue(t, |b|) == ParseArray(t, |b|);
    }
  }

  lemma ObjectReads(b: Chars, v: Json, lay: Layout, depth: nat, t: Chars)
    requires Readable(v) && v.Obj? && Put(b, v, lay, depth) <= t
    ensures ReadsAs(t, b, Retyped(v), |Put(b, v, lay, depth)|)
    decreases v, Width(v) + 1, 0
  {
    hide Break, ParseMembers, Retyped, MapSeq, PutMembers;
    RetypedParts(v);
    if v.members == [] {
      NothingRetyped();
      assert Put(b, v, lay, depth) == b + ['{', '}'];
      assert Retyped(v) == Obj([]);
      EmptyObjectReads(b, t);
    } else {
      var b0 := b + ['{'];
      MembersRead(b0, v, 0, lay, depth, t, []);
      WordReads(b, ['{'], t);
      SkipStops(t, |b0|);
      SameStart(t, |b0|);
      assert v.members[0..] == v.members;
      assert [] + MapSeq(RetypedMember, v.members) == MapSeq(RetypedMember, v.members);
      assert ParseObject(t, |b|) == ParseMembers(t, |b0|, []);
      assert ParseValue(t, |b|) == ParseObject(t, |b|);
    }
  }

  /** The loops begin by skipping white space, so skipping it before makes no difference. */
  lemma SameStart(t: Chars, pos: nat)
    requires SkipWs(t, SkipWs(t, pos)) == SkipWs(t, pos)
    ensures ParseElems(t, SkipWs(t, pos), []) == ParseElems(t, pos, [])
    ensures ParseMembers(t, SkipWs(t, pos), []) == ParseMembers(t, pos, [])
  {
    hide ParseValue, ParseString, Expect, SkipWs;
  }

  // ----- round trip of whole texts

  lemma PrintedParses(v: Json, lay: Layout)
    requires Readable(v)
    ensures Parse(Put([], v, lay, 0)) == Ok(Retyped(v))
  {
    hide ParseValue, Put;
    var t := Put([], v, lay, 0);
    ValueReads([], v, lay, 0, t);
    SkipTo(t, 0, 0);
    SkipTo(t, |t|, |t|);
  }

  lemma {:induction false} CanonKeeps(v: Json)
    ensures Readable(Canon(v)) <==> Readable(v)
    ensures HasNegativeZero(Canon(v)) <==> HasNegativeZero(v)
    decreases v
  {
    hide SortMembers, Canon, TokenValue;
    CanonParts(v);
    match v {
      case Arr(es) =>
        forall i | 0 <= i < |es|
          ensures Readable(Canon(v).elems[i]) == Readable(es[i])
          ensures HasNegativeZero(Canon(v).elems[i]) == HasNegativeZero(es[i])
        {
          CanonKeeps(es[i]);
        }
      case Obj(ms) =>
        var cs := MapSeq(CanonMember, ms);
        forall i | 0 <= i < |ms|
          ensures Readable(cs[i].value) == Readable(ms[i].value)
          ensures HasNegativeZero(cs[i].value) == HasNegativeZero(ms[i].value)
        {
          CanonKeeps(ms[i].value);
        }
        SortedKeeps(cs);
      case _ =>
        CanonScalar(v);
    }
  }

  /** Sorting the members changes nothing about what some or all of their values are. */
  lemma SortedKeeps(ms: seq<Member>)
    ensures var sorted := SortMembers(ms);
            && ((forall i :: 0 <= i < |sorted| ==> Readable(sorted[i].value)) <==>
                (forall i :: 0 <= i < |ms| ==> Readable(ms[i].value)))
            && ((exists i :: 0 <= i < |sorted| && HasNegativeZero(sorted[i].value)) <==>
                (exists i :: 0 <= i < |ms| && HasNegativeZero(ms[i].value)))
  {
    hide SortMembers, Readable, HasNegativeZero;
    var sorted := SortMembers(ms);
    SortedMembers(ms);
    forall i | 0 <= i < |sorted|
      ensures exists j :: 0 <= j < |ms| && ms[j] == sorted[i]
    {
      assert sorted[i] in ms;
    }
    forall j | 0 <= j < |ms|
      ensures exists i :: 0 <= i < |sorted| && sorted[i] == ms[j]
    {
      assert ms[j] in sorted;
    }
  }

  lemma SortedMembers(ms: seq<Member>)
    ensures forall i :: 0 <= i < |SortMembers(ms)| ==> SortMembers(ms)[i] in ms
    ensures forall i :: 0 <= i < |ms| ==> ms[i] in SortMembers(ms)
  {
    hide KeyBefore;
    KeyOrder();
    SortSorts(ms, KeyBefore);
    assert forall i :: 0 <= i < |ms| ==> ms[i] in multiset(ms);
    assert forall i :: 0 <= i < |SortMembers(ms)| ==> SortMembers(ms)[i] in multiset(SortMembers(ms));
  }

  function CanonMember(m: Member): Member {
    Member(m.key, Canon(m.value))
  }

  lemma CanonParts(v: Json)
    ensures v.Arr? ==> Canon(v) == Arr(MapSeq(Canon, v.elems))
    ensures v.Obj? ==> Canon(v) == Obj(SortMembers(MapSeq(CanonMember, v.members)))
  {
    hide Sort;
    match v {
      case Arr(es) => assert seq(|es|, i requires 0 <= i < |es| => Canon(es[i])) == MapSeq(Canon, es);
      case Obj(ms) =>
        assert seq(|ms|, i requires 0 <= i < |ms| => Member(ms[i].key, Canon(ms[i].value))) == MapSeq(CanonMember, ms);
      case _ =>
    }
  }

  lemma KeyOrder()
    ensures StrictWeak(KeyBefore)
  {
    forall a, b
      ensures !(KeyBefore(a, b) && KeyBefore(b, a))
      ensures a.key != b.key ==> KeyBefore(a, b) || KeyBefore(b, a)
    {
      LexTotal(a.key, b.key, CharLess);
    }
    forall a, b, c | KeyBefore(a, b) && KeyBefore(b, c)
      ensures KeyBefore(a, c)
    {
      LexTransitive(a.key, b.key, c.key, CharLess);
    }
    hide KeyBefore, LexLess;
    forall a, b, c | KeyBefore(a, b)
      ensures KeyBefore(a, c) || KeyBefore(c, b)
    {
      SameKeyAlike(a, c, b);
    }
  }

  lemma SameKeyAlike(a: Member, c: Member, b: Member)
    ensures a.key == c.key ==> KeyBefore(a, b) == KeyBefore(c, b)
  {
  }

  /** Round trip: the printed text of any value whose doubles print readably, sorted or not and for
      every indent, parses completely and gives the value back, with keys sorted if they were
      printed sorted and numbers typed by their text. */
  lemma RoundTrip(v: Json, sortKeys: bool, indent: int)
    requires Readable(v)
    ensures Parse(ToString(v, sortKeys, indent)) == Ok(Retyped(if sortKeys then Canon(v) else v))
  {
    hide Put, Parse, Canon, Retyped, Readable;
    CanonKeeps(v);
    PrintedParses(if sortKeys then Canon(v) else v, Layout(indent, indent >= 0 && !sortKeys));
  }

  // ----- the canonical text

  /** Digits without leading zeros are the digits of their value. */
  lemma {:induction false} DigitsOfValue(d: Chars)
    requires d != [] && AllDigits(d) && (d[0] == '0' ==> |d| == 1)
    ensures Digits(DecimalValue(d)) == d
    ensures d[0] != '0' ==> DecimalValue(d) > 0
    decreases |d|
  {
    var n := |d| - 1;
    var front := d[..n];
    assert d == front + [d[n]];
    assert DigitChar(DigitOf(d[n])) == d[n];
    if n == 0 {
      assert DecimalValue([]) == 0;
    } else {
      DigitsOfValue(front);
      assert DecimalValue(d) == DecimalValue(front) * 10 + DigitOf(d[n]);
    }
  }

  /** Where the digits of a token without fraction and exponent lie. */
  lemma IntegerTokenDigits(token: Chars, k: nat)
    requires IntegerPart(token, k) == Ok(|token|)
    ensures k < |token| && AllDigits(token[k..]) && (token[k] == '0' ==> |token| == k + 1)
  {
    if token[k] != '0' {
      DigitsSkipped(token, k + 1);
    }
  }

  lemma {:induction false} DigitsSkipped(t: Chars, pos: nat)
    requires pos <= |t|
    ensures forall i :: pos <= i < SkipDigits(t, pos) ==> IsDigit(t[i])
    decreases |t| - pos
  {
    if !DigitAt(t, pos) {
    } else {
      DigitsSkipped(t, pos + 1);
    }
  }

  /** A readable text of a double is printed again as it was, unless it is that of negative zero,
      which is read as the integer zero. */
  lemma TokenPrintsAgain(out: Chars, token: Chars, lay: Layout, depth: nat)
    requires TokenValue(token).Some?
    ensures token != "-0" ==> Put(out, TokenValue(token).value, lay, depth) == out + token
    ensures token == "-0" ==> Put(out, TokenValue(token).value, lay, depth) == out + "0"
  {
    hide ParseNumber, PutInteger;
    if token != "null" {
      NumberToken(token);
      if !TokenValue(token).value.Float? {
        IntegerPrints(out, token);
      }
    }
  }

  /** A number's text is read as a double with that very text, or else it is a sign and digits. */
  lemma NumberToken(token: Chars)
    requires ParseNumber(token, 0).Ok? && ParseNumber(token, 0).value.1 == |token|
    ensures
      var v := ParseNumber(token, 0).value.0;
      var start := if Peek(token, 0) == Some('-') then 1 else 0;
      if v.Float? then v == Float(token) && token != "-0"
      else IntegerPart(token, start) == Ok(|token|) && IntegerOf(token, |token|) == Ok(v)
  {
    hide SkipDigits, DecimalValue;
    assert token[0..|token|] == token;
    if token == "-0" {
      assert IntegerPart(token, 1) == Ok(2);
    }
  }

  /** The text of an integer is printed again as it was, up to the sign of zero. */
  lemma IntegerPrints(out: Chars, token: Chars)
    requires IntegerPart(token, if Peek(token, 0) == Some('-') then 1 else 0) == Ok(|token|)
    requires IntegerOf(token, |token|).Ok?
    ensures
      var v := IntegerOf(token, |token|).value;
      (v.Int? || v.UInt?) && PutInteger(out, if v.Int? then v.i else v.u)
                             == out + if token == "-0" then "0" else token
  {
    hide SkipDigits, DecimalValue, Digits;
    var start := if Peek(token, 0) == Some('-') then 1 else 0;
    var d := token[start..];
    IntegerTokenDigits(token, start);
    DigitsOfValue(d);
    ZeroDigit();
    if start == 1 {
      assert token == ['-'] + d;
      assert d == "0" <==> token == "-0";
    } else {
      assert token == d;
    }
  }

  lemma ZeroDigit()
    ensures Digits(0) == "0" && DecimalValue("0") == 0
  {
    assert "0"[..0] == [];
    assert DecimalValue([]) == 0;
  }

  /** Retyping shows in print only where a negative zero becomes zero: there the text is shorter. */
  lemma {:induction false} RetypedPrints(o1: Chars, o2: Chars, v: Json, lay: Layout, depth: nat)
    requires Readable(v)
    ensures !HasNegativeZero(v) && o1 == o2 ==> Put(o1, Retyped(v), lay, depth) == Put(o2, v, lay, depth)
    ensures |Put(o1, Retyped(v), lay, depth)| - |o1| <= |Put(o2, v, lay, depth)| - |o2|
    ensures HasNegativeZero(v) ==> |Put(o1, Retyped(v), lay, depth)| - |o1| < |Put(o2, v, lay, depth)| - |o2|
    decreases v, Width(v) + 1
  {
    hide Retyped, Break, PutInteger, PutString, TokenValue;
    RetypedParts(v);
    match v {
      case Arr(es) =>
        if es != [] {
          var r := Retyped(v);
          RetypedElemsPrint(o1 + ['['], o2 + ['['], v, 0, lay, depth);
          BreakLength(PutElems(o1 + ['['], r, 0, lay, depth), PutElems(o2 + ['['], v, 0, lay, depth), lay, depth);
        }
      case Obj(ms) =>
        if ms != [] {
          var r := Retyped(v);
          RetypedMembersPrint(o1 + ['{'], o2 + ['{'], v, 0, lay, depth);
          BreakLength(PutMembers(o1 + ['{'], r, 0, lay, depth), PutMembers(o2 + ['{'], v, 0, lay, depth), lay, depth);
        }
      case _ =>
        RetypedScalarPrints(o1, o2, v, lay, depth);
    }
  }

  lemma RetypedScalarPrints(o1: Chars, o2: Chars, v: Json, lay: Layout, depth: nat)
    requires Readable(v) && !v.Arr? && !v.Obj?
    ensures !HasNegativeZero(v) && o1 == o2 ==> Put(o1, Retyped(v), lay, depth) == Put(o2, v, lay, depth)
    ensures |Put(o1, Retyped(v), lay, depth)| - |o1| <= |Put(o2, v, lay, depth)| - |o2|
    ensures HasNegativeZero(v) ==> |Put(o1, Retyped(v), lay, depth)| - |o1| < |Put(o2, v, lay, depth)| - |o2|
  {
    hide PutChars, Digits, TokenValue;
    match v {
      case Float(token) => TokenPrintsAgain(o1, token, lay, depth);
      case Str(s) => StringLength(o1, o2, s);
      case _ =>
    }
  }

  lemma {:induction false} CharsLength(o1: Chars, o2: Chars, s: Chars)
    ensures |PutChars(o1, s)| - |o1| == |PutChars(o2, s)| - |o2|
    decreases |s|
  {
    if s == [] {
    } else {
      CharsLength(PutChar(o1, s[0]), PutChar(o2, s[0]), s[1..]);
    }
  }

  lemma StringLength(o1: Chars, o2: Chars, s: Chars)
    ensures |PutString(o1, s)| - |o1| == |PutString(o2, s)| - |o2|
  {
    hide PutChars;
    CharsLength(o1 + ['\"'], o2 + ['\"'], s);
  }

  lemma BreakLength(o1: Chars, o2: Chars, lay: Layout, depth: nat)
    ensures |Break(o1, lay, depth)| - |o1| == |Break(o2, lay, depth)| - |o2|
  {
  }

  /** A negative zero among the elements from `i` on. */
  predicate ZeroFrom(v: Json, i: nat) {
    match v
    case Arr(es) => exists j :: i <= j < |es| && HasNegativeZero(es[j])
    case Obj(ms) => exists j :: i <= j < |ms| && HasNegativeZero(ms[j].value)
    case _ => false
  }

  lemma {:induction false} RetypedElemsPrint(o1: Chars, o2: Chars, v: Json, i: nat, lay: Layout, depth: nat)
    requires Readable(v) && v.Arr? && i < |v.elems|
    requires Retyped(v).Arr? && |Retyped(v).elems| == |v.elems|
    ensures !ZeroFrom(v, i) && o1 == o2 ==> PutElems(o1, Retyped(v), i, lay, depth) == PutElems(o2, v, i, lay, depth)
    ensures |PutElems(o1, Retyped(v), i, lay, depth)| - |o1| <= |PutElems(o2, v, i, lay, depth)| - |o2|
    ensures ZeroFrom(v, i) ==>
            |PutElems(o1, Retyped(v), i, lay, depth)| - |o1| < |PutElems(o2, v, i, lay, depth)| - |o2|
    decreases v, |v.elems| - i
  {
    hide Retyped, Break, Put, HasNegativeZero;
    RetypedParts(v);
    var r := Retyped(v);
    assert r.elems[i] == Retyped(v.elems[i]);
    var b1, b2 := Break(o1, lay, depth + 1), Break(o2, lay, depth + 1);
    BreakLength(o1, o2, lay, depth + 1);
    RetypedPrints(b1, b2, v.elems[i], lay, depth + 1);
    if i + 1 == |v.elems| {
    } else {
      RetypedElemsPrint(Put(b1, r.elems[i], lay, depth + 1) + [','],
        Put(b2, v.elems[i], lay, depth + 1) + [','], v, i + 1, lay, depth);
    }
  }

  lemma {:induction false} RetypedMembersPrint(o1: Chars, o2: Chars, v: Json, i: nat, lay: Layout, depth: nat)
    requires Readable(v) && v.Obj? && i < |v.members|
    requires Retyped(v).Obj? && |Retyped(v).members| == |v.members|
    ensures !ZeroFrom(v, i) && o1 == o2 ==>
            PutMembers(o1, Retyped(v), i, lay, depth) == PutMembers(o2, v, i, lay, depth)
    ensures |PutMembers(o1, Retyped(v), i, lay, depth)| - |o1| <= |PutMembers(o2, v, i, lay, depth)| - |o2|
    ensures ZeroFrom(v, i) ==>
            |PutMembers(o1, Retyped(v), i, lay, depth)| - |o1| < |PutMembers(o2, v, i, lay, depth)| - |o2|
    decreases v, |v.members| - i
  {
    hide Retyped, Break, Put, PutString, Colon, HasNegativeZero;
    RetypedParts(v);
    var r, m := Retyped(v), v.members[i];
    assert r.members[i] == RetypedMember(m);
    var c1, c2 := BeforeMember(o1, m.key, lay, depth), BeforeMember(o2, m.key, lay, depth);
    BeforeMemberLength(o1, o2, m.key, lay, depth);
    RetypedPrints(c1, c2, m.value, lay, depth + 1);
    if i + 1 == |v.members| {
    } else {
      RetypedMembersPrint(Put(c1, Retyped(m.value), lay, depth + 1) + [','],
        Put(c2, m.value, lay, depth + 1) + [','], v, i + 1, lay, depth);
    }
  }

  /** The text up to the value of a member. */
  function BeforeMember(out: Chars, key: Chars, lay: Layout, depth: nat): Chars {
    Colon(PutString(Break(out, lay, depth + 1), key), lay)
  }

  lemma BeforeMemberLength(o1: Chars, o2: Chars, key: Chars, lay: Layout, depth: nat)
    ensures |BeforeMember(o1, key, lay, depth)| - |o1| == |BeforeMember(o2, key, lay, depth)| - |o2|
  {
    hide PutString, Break;
    BreakLength(o1, o2, lay, depth + 1);
    StringLength(Break(o1, lay, depth + 1), Break(o2, lay, depth + 1), key);
  }

  /** What a canonical text says: members sorted, numbers typed by their text. */
  function Normal(v: Json): Json {
    Retyped(Canon(v))
  }

  /** Two values have the same canonical text exactly when they are the same value up to member
      order and the typing of numbers; negative zero apart, which reads as zero. */
  lemma CanonicalTextDecides(v: Json, w: Json, indent: int)
    requires Readable(v) && Readable(w)
    ensures ToString(v, true, indent) == ToString(w, true, indent) ==> Normal(v) == Normal(w)
    ensures !HasNegativeZero(v) && !HasNegativeZero(w) && Normal(v) == Normal(w) ==>
            ToString(v, true, indent) == ToString(w, true, indent)
  {
    hide Put, Parse, Canon, Retyped, Readable, HasNegativeZero;
    RoundTrip(v, true, indent);
    RoundTrip(w, true, indent);
    CanonKeeps(v);
    CanonKeeps(w);
    RetypedPrints([], [], Canon(v), Layout(indent, false), 0);
    RetypedPrints([], [], Canon(w), Layout(indent, false), 0);
  }

  /** Negative zero and zero have the same normal form but different texts. */
  lemma NegativeZeroWitness()
    ensures Readable(Float("-0")) && Normal(Float("-0")) == Normal(Int(0))
    ensures ToString(Float("-0"), true, -1) == "-0" && ToString(Int(0), true, -1) == "0"
  {
    ZeroDigit();
    assert "-0"[1..] == "0";
    assert "-0"[0..2] == "-0";
    assert [] + "-0" == "-0" && [] + "0" == "0";
  }

  /** The same value with the members of its objects, at every depth, in whatever order. */
  ghost predicate Reordered(v: Json, w: Json)
    decreases v
  {
    match v
    case Arr(es) => w.Arr? && |es| == |w.elems| && forall i :: 0 <= i < |es| ==> Reordered(es[i], w.elems[i])
    case Obj(ms) =>
      w.Obj? && exists ns: seq<Member> ::
        && multiset(ns) == multiset(w.members) && |ns| == |ms|
        && forall i :: 0 <= i < |ms| ==> ms[i].key == ns[i].key && Reordered(ms[i].value, ns[i].value)
    case _ => v == w
  }

  lemma DistinctIsKeyTotal(ms: seq<Member>)
    requires DistinctKeys(ms)
    ensures TotalOn(ms, KeyBefore)
  {
    forall a, b | a in ms && b in ms && a != b
      ensures KeyBefore(a, b) || KeyBefore(b, a)
    {
      LexTotal(a.key, b.key, CharLess);
    }
  }

  lemma SortedAlike(ms: seq<Member>, ns: seq<Member>, ws: seq<Member>)
    requires |ns| == |ms| && multiset(ns) == multiset(ws) && DistinctKeys(ms)
    requires forall i :: 0 <= i < |ms| ==> CanonMember(ms[i]) == CanonMember(ns[i])
    ensures SortMembers(MapSeq(CanonMember, ms)) == SortMembers(MapSeq(CanonMember, ws))
  {
    hide Canon, Sort, KeyBefore;
    var cs := MapSeq(CanonMember, ms);
    assert cs == MapSeq(CanonMember, ns);
    MapPermutes(CanonMember, ns, ws);
    KeyOrder();
    DistinctIsKeyTotal(cs);
    SortOfPermutation(cs, MapSeq(CanonMember, ws), KeyBefore);
  }

  /** Canonical form does not depend on member order, however deep. */
  lemma {:induction false} ReorderedCanon(v: Json, w: Json)
    requires Reordered(v, w) && WellKeyed(v)
    ensures Canon(v) == Canon(w)
    decreases v
  {
    hide Canon, SortMembers;
    CanonParts(v);
    CanonParts(w);
    match v {
      case Arr(es) =>
        forall i | 0 <= i < |es|
          ensures Canon(es[i]) == Canon(w.elems[i])
        {
          ReorderedCanon(es[i], w.elems[i]);
        }
        assert MapSeq(Canon, es) == MapSeq(Canon, w.elems);
      case Obj(ms) =>
        var ns: seq<Member> :| multiset(ns) == multiset(w.members) && |ns| == |ms| &&
          forall i :: 0 <= i < |ms| ==> ms[i].key == ns[i].key && Reordered(ms[i].value, ns[i].value);
        forall i | 0 <= i < |ms|
          ensures CanonMember(ms[i]) == CanonMember(ns[i])
        {
          ReorderedCanon(ms[i].value, ns[i].value);
        }
        SortedAlike(ms, ns, w.members);
      case _ =>
        SameScalar(v, w);
    }
  }

  lemma SameScalar(v: Json, w: Json)
    requires Reordered(v, w) && !v.Arr? && !v.Obj?
    ensures v == w
  {
  }

  /** So the canonical text of values with distinct keys does not depend on member order. */
  lemma MemberOrderIrrelevant(v: Json, w: Json, indent: int)
    requires WellKeyed(v) && Reordered(v, w)
    ensures ToString(v, true, indent) == ToString(w, true, indent)
  {
    hide Put, Canon, Reordered, WellKeyed;
    ReorderedCanon(v, w);
  }

  // ----- printing again what was parsed

  lemma {:induction false} CanonIdempotent(v: Json)
    ensures Canon(Canon(v)) == Canon(v)
    decreases v
  {
    hide Canon, Sort, KeyBefore;
    CanonParts(v);
    CanonParts(Canon(v));
    match v {
      case Arr(es) =>
        forall i | 0 <= i < |es| {
          CanonIdempotent(es[i]);
        }
        assert MapSeq(Canon, MapSeq(Canon, es)) == MapSeq(Canon, es);
      case Obj(ms) =>
        forall i | 0 <= i < |ms|
          ensures CanonMember(CanonMember(ms[i])) == CanonMember(ms[i])
        {
          CanonIdempotent(ms[i].value);
        }
        var cs := MapSeq(CanonMember, ms);
        assert MapSeq(CanonMember, cs) == cs;
        KeyOrder();
        CanonMemberKeepsOrder();
        MapSort(CanonMember, cs, KeyBefore, KeyBefore);
        SortSorts(cs, KeyBefore);
        SortOfSorted(Sort(cs, KeyBefore), KeyBefore);
      case _ =>
        CanonScalar(v);
    }
  }

  lemma CanonScalar(v: Json)
    requires !v.Arr? && !v.Obj?
    ensures Canon(v) == v
  {
  }

  lemma CanonMemberKeepsOrder()
    ensures forall a, b :: KeyBefore(CanonMember(a), CanonMember(b)) == KeyBefore(a, b)
    ensures forall a, b :: KeyBefore(RetypedMember(a), RetypedMember(b)) == KeyBefore(a, b)
  {
    hide Canon, Retyped;
  }

  /** Canonical order and retyping go together, since retyping touches no keys. */
  lemma {:induction false} CanonRetyped(v: Json)
    ensures Canon(Retyped(v)) == Retyped(Canon(v))
    decreases v
  {
    hide Canon, Retyped, Sort, KeyBefore;
    CanonParts(v);
    RetypedParts(v);
    CanonParts(Retyped(v));
    RetypedParts(Canon(v));
    match v {
      case Arr(es) =>
        forall i | 0 <= i < |es| {
          CanonRetyped(es[i]);
        }
        assert MapSeq(Canon, MapSeq(Retyped, es)) == MapSeq(Retyped, MapSeq(Canon, es));
      case Obj(ms) =>
        forall i | 0 <= i < |ms|
          ensures CanonMember(RetypedMember(ms[i])) == RetypedMember(CanonMember(ms[i]))
        {
          CanonRetyped(ms[i].value);
        }
        var cs := MapSeq(CanonMember, ms);
        assert MapSeq(CanonMember, MapSeq(RetypedMember, ms)) == MapSeq(RetypedMember, cs);
        CanonMemberKeepsOrder();
        MapSort(RetypedMember, cs, KeyBefore, KeyBefore);
      case _ =>
        CanonScalar(v);
        RetypedStaysScalar(v);
        CanonScalar(Retyped(v));
    }
  }

  lemma RetypedStaysScalar(v: Json)
    requires !v.Arr? && !v.Obj?
    ensures !Retyped(v).Arr? && !Retyped(v).Obj?
  {
  }

  /** Parsing a canonical text and printing the result canonically reproduces it byte for byte if
      and only if the value holds no negative zero. */
  lemma CanonicalTextIsStable(v: Json, indent: int)
    requires Readable(v)
    ensures Parse(ToString(v, true, indent)) == Ok(Normal(v))
    ensures ToString(Normal(v), true, indent) == ToString(v, true, indent) <==> !HasNegativeZero(v)
  {
    hide Put, Parse, Canon, Retyped, Readable, HasNegativeZero;
    RoundTrip(v, true, indent);
    CanonKeeps(v);
    CanonRetyped(Canon(v));
    CanonIdempotent(v);
    RetypedPrints([], [], Canon(v), Layout(indent, false), 0);
  }
}
