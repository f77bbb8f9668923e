/** The printed text of a value, put together from the texts of its parts: line breaks, indentation,
    commas, colons and escapes; and the tables of characters the format rests on. */
module JsonLayout {
  import opened Base
  import opened Decimal
  import opened Sequences
  import opened Json

  // ----- characters

  /** The sixteen digits, once in lower and once in upper case. */
  const LOWER: Chars := "0123456789abcdef"
  const UPPER: Chars := "0123456789ABCDEF"

  /** Digits are printed in lower case and read in either. */
  lemma HexDigitsAre(d: nat, c: Char8)
    requires d < 16
    ensures HexChar(d) == LOWER[d]
    ensures HexValue(c) == Some(d) <==> c == LOWER[d] || c == UPPER[d]
    ensures HexValue(c).Some? ==> HexValue(c).value < 16
  {
  }

  /** White space is what the C locale calls so: tab, line feed, vertical tab, form feed, carriage
      return and space. */
  lemma SpacesAre(c: Char8)
    ensures IsSpace(c) <==> c as int in {9, 10, 11, 12, 13, 32}
  {
  }

  /** Section 3 of RFC 3629: one byte below 0x80; else a leading byte that tells the number of bytes,
      then bytes that begin with the bits 10, the rest being the code, in no more bytes than it takes. */
  predicate EncodesAs(code: nat, s: Chars) {
    || (code < 0x80 && |s| == 1 && s[0] as int == code)
    || (0x80 <= code < 0x800 && |s| == 2 && 0xC0 <= s[0] as int < 0xE0 && 0x80 <= s[1] as int < 0xC0
        && code == (s[0] as int - 0xC0) * 64 + (s[1] as int - 0x80))
    || (0x800 <= code < 0x1_0000 && |s| == 3 && 0xE0 <= s[0] as int < 0xF0
        && 0x80 <= s[1] as int < 0xC0 && 0x80 <= s[2] as int < 0xC0
        && code == (s[0] as int - 0xE0) * 4096 + (s[1] as int - 0x80) * 64 + (s[2] as int - 0x80))
  }

  /** A code point below 0x10000 is encoded so, and there is only one such encoding; a surrogate is
      encoded like any other code. */
  lemma Utf8Encodes(code: nat, s: Chars)
    requires code < 0x1_0000
    ensures EncodesAs(code, s) <==> s == Utf8(code)
  {
    if 0x80 <= code < 0x800 {
      TwoBytes(code, s);
    } else if code >= 0x800 {
      ThreeBytes(code, s);
    }
  }

  lemma SplitBits(n: int, high: int, low: int)
    requires 0 <= low < 64
    ensures n == high * 64 + low <==> high == n / 64 && low == n % 64
  {
  }

  lemma TwoBytes(code: nat, s: Chars)
    requires 0x80 <= code < 0x800
    ensures EncodesAs(code, s) <==> s == Utf8(code)
  {
    SplitBits(code, code / 64, code % 64);
    if EncodesAs(code, s) {
      SplitBits(code, s[0] as int - 0xC0, s[1] as int - 0x80);
    }
  }

  lemma ThreeBytes(code: nat, s: Chars)
    requires 0x800 <= code < 0x1_0000
    ensures EncodesAs(code, s) <==> s == Utf8(code)
  {
    var rest := code / 64;
    assert rest / 64 == code / 4096;
    SplitBits(code, rest, code % 64);
    SplitBits(rest, rest / 64, rest % 64);
    if EncodesAs(code, s) {
      var high, mid, low := s[0] as int - 0xE0, s[1] as int - 0x80, s[2] as int - 0x80;
      assert code == (high * 64 + mid) * 64 + low;
      SplitBits(code, high * 64 + mid, low);
      SplitBits(rest, high, mid);
    }
  }

  // ----- strings

  /** How a character stands in a string: the seven named escapes, four hexadecimal digits for the other
      control characters, and else as it is. */
  function Escaped(c: Char8): Chars {
    if c == '\"' then "\\\""
    else if c == '\\' then "\\\\"
    else if c as int == 8 then "\\b"
    else if c as int == 9 then "\\t"
    else if c as int == 10 then "\\n"
    else if c as int == 12 then "\\f"
    else if c as int == 13 then "\\r"
    else if c as int < 32 then "\\u00" + [LOWER[c as int / 16], LOWER[c as int % 16]]
    else [c]
  }

  function EscapedAll(s: Chars): Chars {
    if s == [] then [] else Escaped(s[0]) + EscapedAll(s[1..])
  }

  function Quoted(s: Chars): Chars {
    "\"" + EscapedAll(s) + "\""
  }

  lemma PutCharIs(out: Chars, c: Char8)
    ensures PutChar(out, c) == out + Escaped(c)
  {
    if c as int < 32 {
      HexDigitsAre(c as int / 16, c);
      HexDigitsAre(c as int % 16, c);
      assert ['\\', 'u', '0', '0', HexChar(c as int / 16), HexChar(c as int % 16)] ==
             "\\u00" + [LOWER[c as int / 16], LOWER[c as int % 16]];
    }
  }

  lemma {:induction false} PutCharsIs(out: Chars, s: Chars)
    ensures PutChars(out, s) == out + EscapedAll(s)
    decreases |s|
  {
    hide PutChar, Escaped;
    if s == [] {
    } else {
      PutCharIs(out, s[0]);
      PutCharsIs(PutChar(out, s[0]), s[1..]);
      assert out + Escaped(s[0]) + EscapedAll(s[1..]) == out + (Escaped(s[0]) + EscapedAll(s[1..]));
    }
  }

  lemma PutStringIs(out: Chars, s: Chars)
    ensures PutString(out, s) == out + Quoted(s)
  {
    PutCharsIs(out + ['\"'], s);
  }

  // ----- numbers

  /** `s` is the integer in decimal notation: a minus sign if it is negative, then digits without a
      leading zero that have its magnitude by their places. */
  predicate Numeral(n: int, s: Chars) {
    if n < 0 then |s| > 1 && s[0] == '-' && Natural(-n, s[1..]) else Natural(n, s)
  }

  predicate Natural(n: int, s: Chars) {
    && s != [] && (forall i :: 0 <= i < |s| ==> 48 <= s[i] as int <= 57)
    && (|s| > 1 ==> s[0] as int != 48) && PlaceValue(s) == n
  }

  function NumberText(n: int): Chars {
    PutInteger([], n)
  }

  lemma NumberTextIsNumeral(out: Chars, n: int)
    ensures PutInteger(out, n) == out + NumberText(n) && Numeral(n, NumberText(n))
  {
    hide PlaceValue, Digits, Natural;
    if n < 0 {
      DigitsAreNatural(-n);
      Append(out, ['-'], Digits(-n));
    } else {
      DigitsAreNatural(n);
      Append(out, [], Digits(n));
    }
  }

  lemma Append(out: Chars, sign: Chars, digits: Chars)
    ensures out + sign + digits == out + ([] + sign + digits)
    ensures ([] + sign + digits)[|sign|..] == digits && out + digits == out + ([] + digits)
  {
  }

  lemma DigitsAreNatural(m: nat)
    ensures Natural(m, Digits(m)) && Digits(m) != []
  {
    hide PlaceValue, Digits;
    DigitsRead(m);
    DecimalIsPlaceValue(Digits(m));
  }

  /** An integer has one notation of this kind: the one printed. */
  lemma NumeralIsUnique(n: int, s: Chars)
    ensures Numeral(n, s) <==> s == NumberText(n)
  {
    hide Natural, Digits;
    NumberTextIsNumeral([], n);
    if Numeral(n, s) {
      if n < 0 {
        NaturalIsDigits(-n, s[1..]);
        assert s == ['-'] + s[1..];
        assert [] + ['-'] + Digits(-n) == ['-'] + Digits(-n);
      } else {
        NaturalIsNatural(n, s);
        NaturalIsDigits(n, s);
        assert [] + Digits(n) == Digits(n);
      }
    }
  }

  lemma NaturalIsNatural(n: int, s: Chars)
    requires Natural(n, s)
    ensures n >= 0
  {
    DecimalIsPlaceValue(s);
  }

  lemma {:induction false} NaturalIsDigits(n: nat, s: Chars)
    requires Natural(n, s)
    ensures s == Digits(n)
    decreases |s|
  {
    hide PlaceValue;
    var k := |s| - 1;
    DecimalIsPlaceValue(s);
    assert s == s[..k] + [s[k]];
    if k == 0 {
      assert s[..0] == [];
    } else {
      var front := s[..k];
      DecimalIsPlaceValue(front);
      NaturalIsDigits(n / 10, front);
      DigitsRead(n / 10);
    }
  }

  // ----- values

  function Blanks(n: nat): Chars {
    seq(n, _ => ' ')
  }

  /** A line break followed by `indent` blanks for each level; nothing in a compact layout. */
  function NewLine(lay: Layout, depth: nat): Chars {
    if lay.indent < 0 then "" else "\n" + Blanks(lay.indent * depth)
  }

  /** The parts in order, a comma between any two. */
  function Joined(parts: seq<Chars>): Chars {
    if parts == [] then "" else if |parts| == 1 then parts[0] else parts[0] + "," + Joined(parts[1..])
  }

  function Bracketed(open: Char8, parts: seq<Chars>, close: Char8, lay: Layout, depth: nat): Chars {
    [open] + Joined(parts) + (if parts == [] then "" else NewLine(lay, depth)) + [close]
  }

  /** The text of a value that stands `depth` levels deep. */
  function TextOf(v: Json, lay: Layout, depth: nat): Chars
    decreases v, 1
  {
    match v
    case Null => "null"
    case Bool(b) => if b then "true" else "false"
    case Int(i) => NumberText(i)
    case UInt(u) => NumberText(u)
    case Float(token) => token
    case Str(s) => Quoted(s)
    case Arr(_) => Bracketed('[', ElemTexts(v, lay, depth), ']', lay, depth)
    case Obj(_) => Bracketed('{', MemberTexts(v, lay, depth), '}', lay, depth)
  }

  /** The texts of the elements, each on its own line. */
  function ElemTexts(v: Json, lay: Layout, depth: nat): seq<Chars>
    requires v.Arr?
    decreases v, 0
  {
    seq(|v.elems|, i requires 0 <= i < |v.elems| => NewLine(lay, depth + 1) + TextOf(v.elems[i], lay, depth + 1))
  }

  function MemberTexts(v: Json, lay: Layout, depth: nat): seq<Chars>
    requires v.Obj?
    decreases v, 0
  {
    seq(|v.members|, i requires 0 <= i < |v.members| =>
      NewLine(lay, depth + 1) + Quoted(v.members[i].key) + (if lay.spaced then ": " else ":")
      + TextOf(v.members[i].value, lay, depth + 1))
  }

  lemma {:induction false} SpacesAreBlanks(n: nat)
    ensures Spaces(n) == Blanks(n)
  {
    if n == 0 {
    } else {
      SpacesAreBlanks(n - 1);
    }
  }

  lemma BreakIs(out: Chars, lay: Layout, depth: nat)
    ensures Break(out, lay, depth) == out + NewLine(lay, depth)
  {
    if lay.indent >= 0 {
      Product(lay.indent, depth);
      SpacesAreBlanks(lay.indent * depth);
    }
  }

  lemma Product(a: int, b: nat)
    requires a >= 0
    ensures a * b >= 0
  {
  }

  lemma {:induction false} PutIs(out: Chars, v: Json, lay: Layout, depth: nat)
    ensures Put(out, v, lay, depth) == out + TextOf(v, lay, depth)
    decreases v, Width(v) + 1
  {
    hide PutString, PutInteger, Quoted, Break, NewLine, Joined;
    match v {
      case Int(i) => NumberTextIsNumeral(out, i);
      case UInt(u) => NumberTextIsNumeral(out, u);
      case Str(s) => PutStringIs(out, s);
      case Arr(es) =>
        var parts := ElemTexts(v, lay, depth);
        if es == [] {
          NothingJoined();
          assert out + ['[', ']'] == out + TextOf(v, lay, depth);
        } else {
          PutElemsIs(out + ['['], v, 0, lay, depth);
          assert parts[0..] == parts;
          BreakIs(out + ['['] + Joined(parts), lay, depth);
          Reassociated(out, '[', Joined(parts), NewLine(lay, depth), ']');
        }
      case Obj(ms) =>
        var parts := MemberTexts(v, lay, depth);
        if ms == [] {
          NothingJoined();
          assert out + ['{', '}'] == out + TextOf(v, lay, depth);
        } else {
          PutMembersIs(out + ['{'], v, 0, lay, depth);
          assert parts[0..] == parts;
          BreakIs(out + ['{'] + Joined(parts), lay, depth);
          Reassociated(out, '{', Joined(parts), NewLine(lay, depth), '}');
        }
      case _ =>
    }
  }

  lemma NothingJoined()
    ensures Joined([]) == ""
  {
  }

  lemma Reassociated(out: Chars, open: Char8, inner: Chars, end: Chars, close: Char8)
    ensures out + [open] + inner + end + [close] == out + ([open] + inner + end + [close])
  {
  }

  lemma {:induction false} PutElemsIs(out: Chars, v: Json, i: nat, lay: Layout, depth: nat)
    requires v.Arr? && i < |v.elems|
    ensures PutElems(out, v, i, lay, depth) == out + Joined(ElemTexts(v, lay, depth)[i..])
    decreases v, |v.elems| - i
  {
    hide Put, TextOf, Break, NewLine;
    var parts := ElemTexts(v, lay, depth);
    BreakIs(out, lay, depth + 1);
    PutIs(Break(out, lay, depth + 1), v.elems[i], lay, depth + 1);
    assert out + NewLine(lay, depth + 1) + TextOf(v.elems[i], lay, depth + 1) == out + parts[i];
    if i + 1 == |v.elems| {
      assert parts[i..] == [parts[i]];
    } else {
      PutElemsIs(out + parts[i] + [','], v, i + 1, lay, depth);
      JoinStep(out, parts, i);
    }
  }

  lemma JoinStep(out: Chars, parts: seq<Chars>, i: nat)
    requires i + 1 < |parts|
    ensures out + parts[i] + [','] + Joined(parts[i + 1..]) == out + Joined(parts[i..])
  {
    assert parts[i..][1..] == parts[i + 1..];
  }

  lemma {:induction false} PutMembersIs(out: Chars, v: Json, i: nat, lay: Layout, depth: nat)
    requires v.Obj? && i < |v.members|
    ensures PutMembers(out, v, i, lay, depth) == out + Joined(MemberTexts(v, lay, depth)[i..])
    decreases v, |v.members| - i
  {
    hide Put, TextOf, Break, NewLine, Quoted, PutString, Joined;
    var parts, m := MemberTexts(v, lay, depth), v.members[i];
    BreakIs(out, lay, depth + 1);
    PutStringIs(Break(out, lay, depth + 1), m.key);
    var colon := if lay.spaced then ": " else ":";
    var front := out + NewLine(lay, depth + 1) + Quoted(m.key);
    assert Colon(front, lay) == front + colon;
    PutIs(front + colon, m.value, lay, depth + 1);
    assert front + colon + TextOf(m.value, lay, depth + 1) == out + parts[i];
    if i + 1 == |v.members| {
      assert parts[i..] == [parts[i]];
      OneJoined(parts[i]);
    } else {
      PutMembersIs(out + parts[i] + [','], v, i + 1, lay, depth);
      JoinStep(out, parts, i);
    }
  }

  lemma OneJoined(part: Chars)
    ensures Joined([part]) == part
  {
  }

  /** The text of a value is that of its parts put together; a space follows each colon exactly when the
      text is indented and not sorted. */
  lemma PrintedText(v: Json, sortKeys: bool, indent: int)
    ensures ToString(v, sortKeys, indent) ==
            TextOf(if sortKeys then Canon(v) else v, Layout(indent, indent >= 0 && !sortKeys), 0)
  {
    hide Put, TextOf, Canon;
    var u, lay := if sortKeys then Canon(v) else v, Layout(indent, indent >= 0 && !sortKeys);
    PutIs([], u, lay, 0);
    assert [] + TextOf(u, lay, 0) == TextOf(u, lay, 0);
  }
}
