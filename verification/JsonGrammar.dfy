/** The grammar of the accepted texts, stated on its own: which stretch of a text denotes which value
    (RFC 8259 sections 2 to 7, with the white space of the C locale and integers limited to 64
    bits), and the proof that the parser accepts exactly the texts that denote a value. */
module JsonGrammar {
  import opened Base
  import opened Decimal
  import opened Json
  import opened JsonLaws
  import opened Sequences

  ghost predicate White(t: Chars, i: nat, j: nat) {
    i <= j <= |t| && forall k :: i <= k < j ==> IsSpace(t[k])
  }

  // ----- numbers

  ghost predicate DigitsAt(t: Chars, i: nat, j: nat) {
    i < j <= |t| && forall k :: i <= k < j ==> IsDigit(t[k])
  }

  /** Zero, or digits that do not begin with zero. */
  ghost predicate IntegerAt(t: Chars, i: nat, j: nat) {
    DigitsAt(t, i, j) && (t[i] == '0' ==> j == i + 1)
  }

  ghost predicate FractionAt(t: Chars, i: nat, j: nat) {
    i == j || (i < j <= |t| && t[i] == '.' && DigitsAt(t, i + 1, j))
  }

  ghost predicate ExponentAt(t: Chars, i: nat, j: nat) {
    || i == j
    || (i < j <= |t| && (t[i] == 'e' || t[i] == 'E') &&
        (DigitsAt(t, i + 1, j) || (i + 1 < j && (t[i + 1] == '+' || t[i + 1] == '-') && DigitsAt(t, i + 2, j))))
  }

  function AfterMinus(t: Chars, i: nat): nat {
    if Peek(t, i) == Some('-') then i + 1 else i
  }

  /** A number whose integer part ends at `a` and whose fraction ends at `b`. */
  ghost predicate NumberAt(t: Chars, i: nat, a: nat, b: nat, j: nat) {
    IntegerAt(t, AfterMinus(t, i), a) && FractionAt(t, a, b) && ExponentAt(t, b, j)
  }

  /** The integer a token without fraction and exponent stands for. */
  function IntegerOfToken(token: Chars): int {
    if token != [] && token[0] == '-' then 0 - (DecimalValue(token[1..]) as int) else DecimalValue(token)
  }

  /** Signed where possible, unsigned above, nothing beyond 64 bits. */
  predicate IsInteger(n: int, v: Json) {
    || (-(TWO64 / 2) <= n < TWO64 / 2 && v == Int(n))
    || (TWO64 / 2 <= n < TWO64 && v == UInt(n))
  }

  ghost predicate NumberDenotes(t: Chars, i: nat, j: nat, v: Json) {
    exists a: nat, b: nat ::
      && NumberAt(t, i, a, b, j) && i < j <= |t|
      && if a == j then IsInteger(IntegerOfToken(t[i..j]), v) else v == Float(t[i..j])
  }

  // ----- strings

  /** The escapes of one letter. */
  function SimpleEscape(c: char): Option<Char8> {
    if c == '\"' then Some('\"')
    else if c == '\\' then Some('\\')
    else if c == '/' then Some('/')
    else if c == 'b' then Some(8 as char)
    else if c == 'f' then Some(12 as char)
    else if c == 'n' then Some('\n')
    else if c == 'r' then Some('\r')
    else if c == 't' then Some('\t')
    else None
  }

  /** The value of the four hexadecimal digits at `i`. */
  function HexNumber(t: Chars, i: nat): Option<nat>
    requires i + 4 <= |t|
  {
    var a, b, c, d := HexValue(t[i]), HexValue(t[i + 1]), HexValue(t[i + 2]), HexValue(t[i + 3]);
    if a.Some? && b.Some? && c.Some? && d.Some?
    then Some(4096 * a.value + 256 * b.value + 16 * c.value + d.value)
    else None
  }

  /** One character or escape, standing for the characters `p`. */
  ghost predicate PieceAt(t: Chars, i: nat, k: nat, p: Chars) {
    i < k <= |t| &&
    if t[i] == '\\' then
      || (k == i + 2 && SimpleEscape(t[i + 1]).Some? && p == [SimpleEscape(t[i + 1]).value])
      || (k == i + 6 && t[i + 1] == 'u' && HexNumber(t, i + 2).Some? && HexNumber(t, i + 2).value < 0x1_0000
          && p == Utf8(HexNumber(t, i + 2).value))
    else k == i + 1 && t[i] != '\"' && t[i] as int >= 0x20 && p == [t[i]]
  }

  ghost predicate CharsAt(t: Chars, i: nat, j: nat, s: Chars)
    decreases j - i
  {
    if i >= j then i == j <= |t| && s == []
    else
      exists k: nat, n: nat :: i < k <= j && n <= |s| && PieceAt(t, i, k, s[..n]) && CharsAt(t, k, j, s[n..])
  }

  ghost predicate StringAt(t: Chars, i: nat, j: nat, s: Chars) {
    i + 2 <= j <= |t| && t[i] == '\"' && t[j - 1] == '\"' && CharsAt(t, i + 1, j - 1, s)
  }

  // ----- values

  ghost predicate WordAt(t: Chars, i: nat, j: nat, w: Chars) {
    i <= j <= |t| && t[i..j] == w
  }

  ghost predicate ValueAt(t: Chars, i: nat, j: nat, v: Json)
    decreases v, Width(v) + 1
  {
    match v
    case Null => WordAt(t, i, j, "null")
    case Bool(b) => WordAt(t, i, j, if b then "true" else "false")
    case Int(_) => NumberDenotes(t, i, j, v)
    case UInt(_) => NumberDenotes(t, i, j, v)
    case Float(_) => NumberDenotes(t, i, j, v)
    case Str(s) => StringAt(t, i, j, s)
    case Arr(es) =>
      && i + 2 <= j <= |t| && t[i] == '[' && t[j - 1] == ']'
      && if es == [] then White(t, i + 1, j - 1) else ElemsAt(t, i + 1, j - 1, v, 0)
    case Obj(ms) =>
      && i + 2 <= j <= |t| && t[i] == '{' && t[j - 1] == '}'
      && if ms == [] then White(t, i + 1, j - 1) else MembersAt(t, i + 1, j - 1, v, 0)
  }

  /** The elements from number `k` on, separated by commas. */
  ghost predicate ElemsAt(t: Chars, i: nat, j: nat, v: Json, k: nat)
    requires v.Arr? && k < |v.elems|
    decreases v, |v.elems| - k
  {
    exists a: nat, b: nat, c: nat ::
      && White(t, i, a) && ValueAt(t, a, b, v.elems[k]) && White(t, b, c)
      && if k + 1 == |v.elems| then c == j else c < |t| && t[c] == ',' && ElemsAt(t, c + 1, j, v, k + 1)
  }

  /** Member number `k`: a key, a colon and a value. */
  ghost predicate MemberAt(t: Chars, i: nat, j: nat, v: Json, k: nat)
    requires v.Obj? && k < |v.members|
    decreases v, |v.members| - k, 0
  {
    exists b: nat, c: nat, d: nat ::
      && StringAt(t, i, b, v.members[k].key) && White(t, b, c) && Peek(t, c) == Some(':')
      && White(t, c + 1, d) && ValueAt(t, d, j, v.members[k].value)
  }

  ghost predicate MembersAt(t: Chars, i: nat, j: nat, v: Json, k: nat)
    requires v.Obj? && k < |v.members|
    decreases v, |v.members| - k, 1
  {
    exists a: nat, b: nat, c: nat ::
      && White(t, i, a) && MemberAt(t, a, b, v, k) && White(t, b, c)
      && if k + 1 == |v.members| then c == j else c < |t| && t[c] == ',' && MembersAt(t, c + 1, j, v, k + 1)
  }

  /** The whole text is one value between white space. */
  ghost predicate Denotes(t: Chars, v: Json) {
    exists a: nat, b: nat :: White(t, 0, a) && ValueAt(t, a, b, v) && White(t, b, |t|)
  }

  // ----- what the parser accepts denotes its result

  lemma {:induction false} SkippedIsWhite(t: Chars, pos: nat)
    requires pos <= |t|
    ensures White(t, pos, SkipWs(t, pos))
    decreases |t| - pos
  {
    if pos >= |t| || !IsSpace(t[pos]) {
    } else {
      SkippedIsWhite(t, pos + 1);
    }
  }

  lemma IntegerPartSound(t: Chars, i: nat)
    requires IntegerPart(t, i).Ok?
    ensures IntegerAt(t, i, IntegerPart(t, i).value)
  {
    if t[i] != '0' {
      DigitsSkipped(t, i + 1);
    }
  }

  lemma FractionSound(t: Chars, i: nat)
    requires i <= |t| && Fraction(t, i).Ok?
    ensures FractionAt(t, i, Fraction(t, i).value)
  {
    if Peek(t, i) == Some('.') {
      RunIsDigits(t, i + 1);
    }
  }

  lemma ExponentSound(t: Chars, i: nat)
    requires i <= |t| && Exponent(t, i).Ok?
    ensures ExponentAt(t, i, Exponent(t, i).value)
  {
    if Peek(t, i) == Some('e') || Peek(t, i) == Some('E') {
      RunIsDigits(t, if Peek(t, i + 1) == Some('+') || Peek(t, i + 1) == Some('-') then i + 2 else i + 1);
    }
  }

  lemma RunIsDigits(t: Chars, i: nat)
    ensures DigitAt(t, i) ==> DigitsAt(t, i, SkipDigits(t, i))
  {
    if DigitAt(t, i) {
      DigitsSkipped(t, i);
      assert SkipDigits(t, i) == SkipDigits(t, i + 1);
    }
  }

  lemma NumberSound(t: Chars, i: nat)
    requires i <= |t| && ParseNumber(t, i).Ok?
    ensures NumberDenotes(t, i, ParseNumber(t, i).value.1, ParseNumber(t, i).value.0)
  {
    hide IntegerPart, Fraction, Exponent, IntegerAt, FractionAt, ExponentAt, DecimalValue;
    var s := AfterMinus(t, i);
    var a := IntegerPart(t, s).value;
    var b := Fraction(t, a).value;
    var j := Exponent(t, b).value;
    IntegerPartSound(t, s);
    FractionSound(t, a);
    ExponentSound(t, b);
    assert NumberAt(t, i, a, b, j);
  }

  lemma HexSound(t: Chars, i: nat)
    requires i + 4 <= |t|
    ensures ParseHex(t, i, 4, 0).Ok? <==> HexNumber(t, i).Some?
    ensures HexNumber(t, i).Some? ==>
            ParseHex(t, i, 4, 0) == Ok((HexNumber(t, i).value, i + 4)) && HexNumber(t, i).value < 0x1_0000
  {
    hide HexValue;
    HexBounded(t[i]);
    HexBounded(t[i + 1]);
    HexBounded(t[i + 2]);
    HexBounded(t[i + 3]);
    var a, b, c, d := HexValue(t[i]), HexValue(t[i + 1]), HexValue(t[i + 2]), HexValue(t[i + 3]);
    if a.Some? && b.Some? && c.Some? && d.Some? {
      var x1: nat := a.value;
      var x2: nat := x1 * 16 + b.value;
      var x3: nat := x2 * 16 + c.value;
      var x4: nat := x3 * 16 + d.value;
      assert ParseHex(t, i + 4, 0, x4) == Ok((x4, i + 4));
      assert ParseHex(t, i + 3, 1, x3) == Ok((x4, i + 4));
      assert ParseHex(t, i + 2, 2, x2) == Ok((x4, i + 4));
      assert ParseHex(t, i + 1, 3, x1) == Ok((x4, i + 4));
      assert ParseHex(t, i, 4, 0) == Ok((x4, i + 4));
    } else {
      HexFails(t, i, 4, 0);
    }
  }

  lemma HexBounded(c: char)
    ensures HexValue(c).Some? ==> HexValue(c).value < 16
  {
  }

  lemma {:induction false} HexFails(t: Chars, i: nat, k: nat, code: nat)
    requires i + k <= |t| && exists j :: i <= j < i + k && HexValue(t[j]).None?
    ensures ParseHex(t, i, k, code).Err?
    decreases k
  {
    hide HexValue;
    if k == 0 || HexValue(t[i]).None? {
    } else {
      HexFails(t, i + 1, k - 1, code * 16 + HexValue(t[i]).value);
    }
  }

  /** One turn of the string loop reads one piece. */
  lemma PieceParses(t: Chars, i: nat, k: nat, p: Chars, acc: Chars)
    requires PieceAt(t, i, k, p)
    ensures ParseChars(t, i, acc) == ParseChars(t, k, acc + p)
  {
    hide HexNumber, ParseHex, Utf8;
    if t[i] == '\\' && k == i + 6 && t[i + 1] == 'u' {
      HexSound(t, i + 2);
    }
  }

  lemma EscapeSound(t: Chars, i: nat)
    requires i < |t| && t[i] == '\\' && ParseEscape(t, i + 1).Ok?
    ensures PieceAt(t, i, ParseEscape(t, i + 1).value.1, ParseEscape(t, i + 1).value.0)
  {
    hide HexNumber, ParseHex, Utf8;
    if t[i + 1] == 'u' {
      HexSound(t, i + 2);
    }
  }

  lemma JoinPiece(t: Chars, i: nat, k: nat, j: nat, p: Chars, rest: Chars)
    requires i < k <= j && PieceAt(t, i, k, p) && CharsAt(t, k, j, rest)
    ensures CharsAt(t, i, j, p + rest)
  {
    hide PieceAt;
    var s := p + rest;
    assert s[..|p|] == p && s[|p|..] == rest;
  }

  lemma {:induction false} CharsSound(t: Chars, i: nat, acc: Chars) returns (s: Chars)
    requires ParseChars(t, i, acc).Ok?
    ensures var j := ParseChars(t, i, acc).value.1;
            i < j <= |t| && t[j - 1] == '\"' && CharsAt(t, i, j - 1, s) && ParseChars(t, i, acc).value.0 == acc + s
    decreases |t| - i
  {
    hide ParseEscape, PieceAt, CharsAt;
    if t[i] == '\"' {
      s := [];
      NothingAt(t, i);
      assert acc + [] == acc;
    } else {
      var p, k := [t[i]], i + 1;
      if t[i] == '\\' {
        p, k := ParseEscape(t, i + 1).value.0, ParseEscape(t, i + 1).value.1;
        EscapeSound(t, i);
      } else {
        PlainPiece(t, i);
      }
      var rest := CharsSound(t, k, acc + p);
      JoinPiece(t, i, k, ParseChars(t, i, acc).value.1 - 1, p, rest);
      s := p + rest;
      assert acc + p + rest == acc + s;
    }
  }

  lemma NothingAt(t: Chars, i: nat)
    requires i <= |t|
    ensures CharsAt(t, i, i, [])
  {
  }

  lemma PlainPiece(t: Chars, i: nat)
    requires i < |t| && t[i] != '\\' && t[i] != '\"' && t[i] as int >= 0x20
    ensures PieceAt(t, i, i + 1, [t[i]])
  {
  }

  lemma StringSound(t: Chars, i: nat)
    requires ParseString(t, i).Ok?
    ensures StringAt(t, i, ParseString(t, i).value.1, ParseString(t, i).value.0)
  {
    hide ParseChars, CharsAt;
    var s := CharsSound(t, i + 1, []);
    assert [] + s == s;
  }

  lemma {:induction false} ValueSound(t: Chars, i: nat)
    requires ParseValue(t, i).Ok?
    ensures ValueAt(t, i, ParseValue(t, i).value.1, ParseValue(t, i).value.0)
    decreases |t| - i, 1
  {
    hide ParseNumber, ParseString, ParseArray, ParseObject, ElemsAt, MembersAt, NumberDenotes, StringAt, White;
    var c := t[i];
    if c == '{' {
      ObjectSound(t, i);
    } else if c == '[' {
      ArraySound(t, i);
    } else if c == '\"' {
      StringSound(t, i);
    } else if c == '-' || IsDigit(c) {
      NumberSound(t, i);
      NumberTyped(t, i);
    }
  }

  lemma NumberTyped(t: Chars, i: nat)
    requires ParseNumber(t, i).Ok?
    ensures var v := ParseNumber(t, i).value.0;
            v.Int? || v.UInt? || v.Float?
  {
    hide IntegerPart, Fraction, Exponent, DecimalValue;
  }

  lemma ArraySound(t: Chars, i: nat)
    requires i < |t| && ParseArray(t, i).Ok?
    ensures ParseArray(t, i).value.0.Arr? && ValueAt(t, i, ParseArray(t, i).value.1, ParseArray(t, i).value.0)
    decreases |t| - i, 0
  {
    hide ParseElems, ElemsAt, White;
    var q := SkipWs(t, i + 1);
    SkippedIsWhite(t, i + 1);
    SkipStops(t, i + 1);
    if Peek(t, q) != Some(']') {
      SameStart(t, i + 1);
      ElemsSound(t, i + 1, []);
    }
  }

  lemma {:induction false} ElemsSound(t: Chars, i: nat, acc: seq<Json>)
    requires i <= |t| && ParseElems(t, i, acc).Ok?
    ensures var (v, j) := ParseElems(t, i, acc).value;
            && v.Arr? && |acc| < |v.elems| && v.elems[..|acc|] == acc
            && i < j <= |t| && t[j - 1] == ']' && ElemsAt(t, i, j - 1, v, |acc|)
    decreases |t| - i, 2
  {
    hide ParseValue, ValueAt, White, SkipWs;
    var (v, j) := ParseElems(t, i, acc).value;
    var a := SkipWs(t, i);
    var (w, b) := ParseValue(t, a).value;
    var c := SkipWs(t, b);
    SkippedIsWhite(t, i);
    SkippedIsWhite(t, b);
    ValueSound(t, a);
    if Peek(t, c) == Some(',') {
      ElemsSound(t, c + 1, acc + [w]);
      assert v.elems[|acc|] == v.elems[..|acc| + 1][|acc|] == w;
      assert v.elems[..|acc|] == v.elems[..|acc| + 1][..|acc|] == acc;
    } else {
      assert v.elems[|acc|] == w;
    }
  }

  lemma ObjectSound(t: Chars, i: nat)
    requires i < |t| && ParseObject(t, i).Ok?
    ensures ParseObject(t, i).value.0.Obj? && ValueAt(t, i, ParseObject(t, i).value.1, ParseObject(t, i).value.0)
    decreases |t| - i, 0
  {
    hide ParseMembers, MembersAt, White;
    var q := SkipWs(t, i + 1);
    SkippedIsWhite(t, i + 1);
    SkipStops(t, i + 1);
    if Peek(t, q) != Some('}') {
      SameStart(t, i + 1);
      MembersSound(t, i + 1, []);
    }
  }

  lemma MemberSound(t: Chars, i: nat, v: Json, k: nat)
    requires i <= |t| && ParseMember(t, i).Ok? && v.Obj? && k < |v.members| && v.members[k] == ParseMember(t, i).value.0
    ensures MemberAt(t, i, ParseMember(t, i).value.1, v, k)
    decreases |t| - i, 2
  {
    hide ParseValue, ParseString, ValueAt, White, SkipWs, StringAt;
    var b := ParseString(t, i).value.1;
    var c := SkipWs(t, b);
    var d := SkipWs(t, c + 1);
    SkippedIsWhite(t, b);
    SkippedIsWhite(t, c + 1);
    StringSound(t, i);
    ValueSound(t, d);
  }

  lemma {:induction false} MembersSound(t: Chars, i: nat, acc: seq<Member>)
    requires i <= |t| && ParseMembers(t, i, acc).Ok?
    ensures var (v, j) := ParseMembers(t, i, acc).value;
            && v.Obj? && |acc| < |v.members| && v.members[..|acc|] == acc
            && i < j <= |t| && t[j - 1] == '}' && MembersAt(t, i, j - 1, v, |acc|)
    decreases |t| - i, 3
  {
    hide ParseMember, MemberAt, White, SkipWs;
    var (v, j) := ParseMembers(t, i, acc).value;
    var a := SkipWs(t, i);
    var (m, b) := ParseMember(t, a).value;
    var c := SkipWs(t, b);
    SkippedIsWhite(t, i);
    SkippedIsWhite(t, b);
    if Peek(t, c) == Some(',') {
      MembersSound(t, c + 1, acc + [m]);
      assert v.members[|acc|] == v.members[..|acc| + 1][|acc|] == m;
      assert v.members[..|acc|] == v.members[..|acc| + 1][..|acc|] == acc;
    } else {
      assert v.members[|acc|] == m;
    }
    MemberSound(t, a, v, |acc|);
  }

  // ----- what denotes a value is accepted as it

  lemma IntegerPartComplete(t: Chars, i: nat, j: nat)
    requires IntegerAt(t, i, j) && !DigitAt(t, j)
    ensures IntegerPart(t, i) == Ok(j)
  {
    if t[i] != '0' {
      SkipDigitsTo(t, i + 1, j);
    }
  }

  lemma FractionComplete(t: Chars, i: nat, j: nat)
    requires FractionAt(t, i, j) && !DigitAt(t, j) && (i == j ==> Peek(t, i) != Some('.'))
    ensures Fraction(t, i) == Ok(j)
  {
    if i < j {
      SkipDigitsTo(t, i + 1, j);
    }
  }

  lemma ExponentComplete(t: Chars, i: nat, j: nat)
    requires ExponentAt(t, i, j) && !DigitAt(t, j) && (i == j ==> Peek(t, i) != Some('e') && Peek(t, i) != Some('E'))
    ensures Exponent(t, i) == Ok(j)
  {
    if i < j {
      SkipDigitsTo(t, if t[i + 1] == '+' || t[i + 1] == '-' then i + 2 else i + 1, j);
    }
  }

  lemma IntegerTyped(token: Chars, end: nat, v: Json)
    requires IsInteger(IntegerOfToken(token), v)
    ensures IntegerOf(token, end) == Ok(v)
  {
    hide DecimalValue;
  }

  lemma NumberComplete(t: Chars, i: nat, j: nat, v: Json)
    requires NumberDenotes(t, i, j, v) && CannotExtend(t, j)
    ensures ParseNumber(t, i) == Ok((v, j)) && i < j <= |t| && (t[i] == '-' || IsDigit(t[i]))
  {
    hide IntegerPart, Fraction, Exponent, IntegerOf, IsInteger, IntegerOfToken;
    var a: nat, b: nat :|
      && NumberAt(t, i, a, b, j) && i < j <= |t|
      && if a == j then IsInteger(IntegerOfToken(t[i..j]), v) else v == Float(t[i..j]);
    IntegerPartComplete(t, AfterMinus(t, i), a);
    FractionComplete(t, a, b);
    ExponentComplete(t, b, j);
    if a == j {
      IntegerTyped(t[i..j], j, v);
    }
  }

  lemma {:induction false} CharsComplete(t: Chars, i: nat, j: nat, s: Chars, acc: Chars)
    requires CharsAt(t, i, j, s) && j < |t| && t[j] == '\"'
    ensures ParseChars(t, i, acc) == Ok((acc + s, j + 1))
    decreases j - i
  {
    hide PieceAt;
    if i >= j {
      assert acc + [] == acc;
    } else {
      hide ParseChars;
      var k: nat, n: nat :| i < k <= j && n <= |s| && PieceAt(t, i, k, s[..n]) && CharsAt(t, k, j, s[n..]);
      PieceParses(t, i, k, s[..n], acc);
      CharsComplete(t, k, j, s[n..], acc + s[..n]);
      assert acc + s[..n] + s[n..] == acc + s;
    }
  }

  lemma StringComplete(t: Chars, i: nat, j: nat, s: Chars)
    requires StringAt(t, i, j, s)
    ensures ParseString(t, i) == Ok((s, j))
  {
    hide ParseChars, CharsAt;
    CharsComplete(t, i + 1, j - 1, s, []);
    assert [] + s == s;
  }

  lemma ValueStarts(t: Chars, i: nat, j: nat, v: Json)
    requires ValueAt(t, i, j, v)
    ensures i < j <= |t| && Starts(t[i])
  {
    hide ElemsAt, MembersAt, CharsAt, White, FractionAt, ExponentAt, IsInteger, IntegerOfToken;
    if v.Null? || v.Bool? {
      var w := if v.Null? then "null" else if v.b then "true" else "false";
      assert t[i..j][0] == w[0] == t[i];
    }
  }

  /** White space and then a mark: neither extends a number, and skipping leads to the mark. */
  lemma WhiteThenMark(t: Chars, b: nat, c: nat)
    requires White(t, b, c) && (c < |t| ==> t[c] == ',' || t[c] == ']' || t[c] == '}')
    ensures CannotExtend(t, b) && SkipWs(t, b) == c
  {
    SkipTo(t, b, c);
  }

  lemma WhiteThenValue(t: Chars, i: nat, a: nat, b: nat, v: Json)
    requires White(t, i, a) && ValueAt(t, a, b, v)
    ensures SkipWs(t, i) == a < b <= |t| && Starts(t[a])
  {
    hide ValueAt;
    ValueStarts(t, a, b, v);
    SkipTo(t, i, a);
  }

  lemma {:induction false} ValueComplete(t: Chars, i: nat, j: nat, v: Json)
    requires ValueAt(t, i, j, v) && CannotExtend(t, j)
    ensures ParseValue(t, i) == Ok((v, j))
    decreases v, Width(v) + 1
  {
    ValueStarts(t, i, j, v);
    match v {
      case Arr(_) => ArrayComplete(t, i, j, v);
      case Obj(_) => ObjectComplete(t, i, j, v);
      case _ => ScalarComplete(t, i, j, v);
    }
  }

  lemma ScalarComplete(t: Chars, i: nat, j: nat, v: Json)
    requires ValueAt(t, i, j, v) && CannotExtend(t, j) && !v.Arr? && !v.Obj?
    ensures ParseValue(t, i) == Ok((v, j))
  {
    hide ParseNumber, ParseString, NumberDenotes, CharsAt;
    match v {
      case Str(s) => StringComplete(t, i, j, s);
      case Null => WordComplete(t, i, j, "null");
      case Bool(b) => WordComplete(t, i, j, if b then "true" else "false");
      case _ => NumberComplete(t, i, j, v);
    }
  }

  lemma WordComplete(t: Chars, i: nat, j: nat, w: Chars)
    requires WordAt(t, i, j, w) && w != []
    ensures j == i + |w| && i < |t| && t[i] == w[0]
  {
    assert t[i] == t[i..j][0];
  }

  lemma ArrayComplete(t: Chars, i: nat, j: nat, v: Json)
    requires v.Arr? && ValueAt(t, i, j, v)
    ensures ParseValue(t, i) == Ok((v, j))
    decreases v, Width(v) + 1, 0
  {
    hide ParseElems, ElemsAt;
    if v.elems == [] {
      WhiteThenMark(t, i + 1, j - 1);
      assert ParseArray(t, i) == Ok((Arr([]), j));
    } else {
      ElemsComplete(t, i + 1, j - 1, v, 0, []);
      SkipStops(t, i + 1);
      SameStart(t, i + 1);
      assert ParseArray(t, i) == Ok((v, j));
    }
  }

  lemma {:induction false} ElemsComplete(t: Chars, i: nat, j: nat, v: Json, k: nat, acc: seq<Json>)
    requires v.Arr? && k < |v.elems| && ElemsAt(t, i, j, v, k) && acc == v.elems[..k] && j < |t| && t[j] == ']'
    ensures i <= |t| && SkipWs(t, i) < |t| && Starts(t[SkipWs(t, i)])
    ensures ParseElems(t, i, acc) == Ok((v, j + 1))
    decreases v, |v.elems| - k
  {
    hide ParseElems, ParseValue, ValueAt, White, SkipWs;
    var a: nat, b: nat, c: nat :|
      && White(t, i, a) && ValueAt(t, a, b, v.elems[k]) && White(t, b, c)
      && if k + 1 == |v.elems| then c == j else c < |t| && t[c] == ',' && ElemsAt(t, c + 1, j, v, k + 1);
    WhiteThenValue(t, i, a, b, v.elems[k]);
    WhiteThenMark(t, b, c);
    ValueComplete(t, a, b, v.elems[k]);
    ElementTurn(t[..i], t[..a], v.elems[k], b, t, acc);
    assert acc + [v.elems[k]] == v.elems[..k + 1];
    if k + 1 == |v.elems| {
      assert v.elems[..k + 1] == v.elems;
    } else {
      ElemsComplete(t, c + 1, j, v, k + 1, acc + [v.elems[k]]);
    }
  }

  lemma ObjectComplete(t: Chars, i: nat, j: nat, v: Json)
    requires v.Obj? && ValueAt(t, i, j, v)
    ensures ParseValue(t, i) == Ok((v, j))
    decreases v, Width(v) + 1, 0
  {
    hide ParseMembers, MembersAt;
    if v.members == [] {
      WhiteThenMark(t, i + 1, j - 1);
      assert ParseObject(t, i) == Ok((Obj([]), j));
    } else {
      MembersComplete(t, i + 1, j - 1, v, 0, []);
      SkipStops(t, i + 1);
      SameStart(t, i + 1);
      assert ParseObject(t, i) == Ok((v, j));
    }
  }

  lemma MemberComplete(t: Chars, i: nat, j: nat, v: Json, k: nat)
    requires v.Obj? && k < |v.members| && MemberAt(t, i, j, v, k) && CannotExtend(t, j)
    ensures ParseMember(t, i) == Ok((v.members[k], j)) && i < |t| && t[i] == '\"'
    decreases v, |v.members| - k, 0
  {
    hide ParseValue, ParseString, ValueAt, White, SkipWs, CharsAt;
    var m := v.members[k];
    var b: nat, c: nat, d: nat :|
      && StringAt(t, i, b, m.key) && White(t, b, c) && Peek(t, c) == Some(':')
      && White(t, c + 1, d) && ValueAt(t, d, j, m.value);
    StringComplete(t, i, b, m.key);
    WhiteThenColon(t, b, c);
    WhiteThenValue(t, c + 1, d, j, m.value);
    ValueComplete(t, d, j, m.value);
  }

  lemma WhiteThenColon(t: Chars, b: nat, c: nat)
    requires White(t, b, c) && Peek(t, c) == Some(':')
    ensures SkipWs(t, b) == c && Expect(t, c, ':') == Ok(c + 1)
  {
    SkipTo(t, b, c);
  }

  lemma WhiteThenKey(t: Chars, i: nat, a: nat)
    requires White(t, i, a) && a < |t| && t[a] == '\"'
    ensures SkipWs(t, i) == a && Starts(t[a])
  {
    SkipTo(t, i, a);
  }

  lemma {:induction false} MembersComplete(t: Chars, i: nat, j: nat, v: Json, k: nat, acc: seq<Member>)
    requires v.Obj? && k < |v.members| && MembersAt(t, i, j, v, k) && acc == v.members[..k] && j < |t| && t[j] == '}'
    ensures i <= |t| && SkipWs(t, i) < |t| && Starts(t[SkipWs(t, i)])
    ensures ParseMembers(t, i, acc) == Ok((v, j + 1))
    decreases v, |v.members| - k, 1
  {
    hide ParseMembers, ParseMember, MemberAt, White, SkipWs;
    var m := v.members[k];
    var a: nat, b: nat, c: nat :|
      && White(t, i, a) && MemberAt(t, a, b, v, k) && White(t, b, c)
      && if k + 1 == |v.members| then c == j else c < |t| && t[c] == ',' && MembersAt(t, c + 1, j, v, k + 1);
    WhiteThenMark(t, b, c);
    MemberComplete(t, a, b, v, k);
    WhiteThenKey(t, i, a);
    MembersTurn(t, i, a, b, c, m, acc);
    assert acc + [m] == v.members[..k + 1];
    if k + 1 == |v.members| {
      assert v.members[..k + 1] == v.members;
    } else {
      MembersComplete(t, c + 1, j, v, k + 1, acc + [m]);
    }
  }

  lemma MembersTurn(t: Chars, i: nat, a: nat, e: nat, f: nat, m: Member, acc: seq<Member>)
    requires SkipWs(t, i) == a && ParseMember(t, a) == Ok((m, e)) && SkipWs(t, e) == f
    ensures ParseMembers(t, i, acc) ==
            if Peek(t, f) == Some(',') then ParseMembers(t, f + 1, acc + [m])
            else if Peek(t, f) == Some('}') then Ok((Obj(acc + [m]), f + 1))
            else Err(ParseError(ExpectedCommaOrBrace, f))
  {
    hide ParseMember, SkipWs;
  }

  /** The parser accepts exactly the texts that denote a value, and yields that value: it is strict
      and complete with respect to the grammar, and no text denotes two values. */
  lemma ParsesExactlyTheGrammar(t: Chars, v: Json)
    ensures Parse(t) == Ok(v) <==> Denotes(t, v)
  {
    hide ParseValue, ValueAt;
    if Parse(t) == Ok(v) {
      var a := SkipWs(t, 0);
      var b := ParseValue(t, a).value.1;
      SkippedIsWhite(t, 0);
      SkippedIsWhite(t, b);
      ValueSound(t, a);
    }
    if Denotes(t, v) {
      var a: nat, b: nat :| White(t, 0, a) && ValueAt(t, a, b, v) && White(t, b, |t|);
      WhiteThenValue(t, 0, a, b, v);
      WhiteThenMark(t, b, |t|);
      ValueComplete(t, a, b, v);
    }
  }

  lemma NoTextIsAmbiguous(t: Chars, v: Json, w: Json)
    requires Denotes(t, v) && Denotes(t, w)
    ensures v == w
  {
    hide Denotes, Parse;
    ParsesExactlyTheGrammar(t, v);
    ParsesExactlyTheGrammar(t, w);
  }
}
