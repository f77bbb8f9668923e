/** JSON values, their printed text and the strict parser, as functions of text and position. */
module Json {
  import opened Base
  import opened Decimal
  import opened Sequences
  import opened Sorting

  /** `Float` is a double, represented by its text: the token it was parsed from, or what the library
      prints for it ("null" if it is not finite). A parsed token stays as it is; the program prints
      the double anew, so for a token that is not in the library's own form, such as 1.50, the text
      printed here is not the program's. Members keep their insertion order. */
  datatype Json =
    | Null | Bool(b: bool) | Int(i: i64) | UInt(u: u64) | Float(token: Chars) | Str(s: Chars)
    | Arr(elems: seq<Json>) | Obj(members: seq<Member>)

  datatype Member = Member(key: Chars, value: Json)

  // ----- canonical order

  predicate CharLess(a: Char8, b: Char8) {
    a < b
  }

  predicate KeyBefore(a: Member, b: Member) {
    LexLess(a.key, b.key, CharLess)
  }

  function SortMembers(ms: seq<Member>): seq<Member> {
    Sort(ms, KeyBefore)
  }

  /** The value with the members of every object sorted by key. */
  function Canon(v: Json): Json
    decreases v
  {
    match v
    case Arr(es) => Arr(seq(|es|, i requires 0 <= i < |es| => Canon(es[i])))
    case Obj(ms) => Obj(SortMembers(seq(|ms|, i requires 0 <= i < |ms| => Member(ms[i].key, Canon(ms[i].value)))))
    case _ => v
  }

  predicate DistinctKeys(ms: seq<Member>) {
    forall i, j :: 0 <= i < j < |ms| ==> ms[i].key != ms[j].key
  }

  /** No object holds a key twice. */
  predicate WellKeyed(v: Json)
    decreases v
  {
    match v
    case Arr(es) => forall i :: 0 <= i < |es| ==> WellKeyed(es[i])
    case Obj(ms) => DistinctKeys(ms) && forall i :: 0 <= i < |ms| ==> WellKeyed(ms[i].value)
    case _ => true
  }

  /** What the text of a double reads as: a double if it has fraction or exponent, but an integer
      if it has neither, and null if it says so. */
  function TokenValue(token: Chars): Option<Json> {
    if token == "null" then Some(Null)
    else
      match ParseNumber(token, 0)
      case Err(_) => None
      case Ok((v, end)) => if end == |token| then Some(v) else None
  }

  /** The texts of all doubles can be read, as those the library prints can. */
  predicate Readable(v: Json)
    decreases v
  {
    match v
    case Float(token) => TokenValue(token).Some?
    case Arr(es) => forall i :: 0 <= i < |es| ==> Readable(es[i])
    case Obj(ms) => forall i :: 0 <= i < |ms| ==> Readable(ms[i].value)
    case _ => true
  }

  /** Some double in the value is negative zero. */
  predicate HasNegativeZero(v: Json)
    decreases v
  {
    match v
    case Float(token) => token == "-0"
    case Arr(es) => exists i :: 0 <= i < |es| && HasNegativeZero(es[i])
    case Obj(ms) => exists i :: 0 <= i < |ms| && HasNegativeZero(ms[i].value)
    case _ => false
  }

  /** The value as the parser types it: a number without fraction and exponent is an integer,
      signed if it fits. */
  function Retyped(v: Json): Json
    decreases v
  {
    match v
    case UInt(u) => if u < TWO64 / 2 then Int(u) else v
    case Float(token) => if TokenValue(token).Some? then TokenValue(token).value else v
    case Arr(es) => Arr(seq(|es|, i requires 0 <= i < |es| => Retyped(es[i])))
    case Obj(ms) => Obj(seq(|ms|, i requires 0 <= i < |ms| => Member(ms[i].key, Retyped(ms[i].value))))
    case _ => v
  }

  // ----- printing

  /** `indent` below zero is compact; `spaced` puts a space behind colons. */
  datatype Layout = Layout(indent: int, spaced: bool)

  function HexChar(d: nat): Char8
    requires d < 16
  {
    if d < 10 then DigitChar(d) else (d - 10 + 'a' as int) as char
  }

  function PutChar(out: Chars, c: Char8): Chars {
    if c == '\"' then out + ['\\', '\"']
    else if c == '\\' then out + ['\\', '\\']
    else if c as int == 8 then out + ['\\', 'b']
    else if c as int == 12 then out + ['\\', 'f']
    else if c == '\n' then out + ['\\', 'n']
    else if c == '\r' then out + ['\\', 'r']
    else if c == '\t' then out + ['\\', 't']
    else if c as int < 0x20 then out + ['\\', 'u', '0', '0', HexChar(c as int / 16), HexChar(c as int % 16)]
    else out + [c]
  }

  function PutChars(out: Chars, s: Chars): Chars
    decreases |s|
  {
    if s == [] then out else PutChars(PutChar(out, s[0]), s[1..])
  }

  function PutString(out: Chars, s: Chars): Chars {
    PutChars(out + ['\"'], s) + ['\"']
  }

  function PutInteger(out: Chars, n: int): Chars {
    if n < 0 then out + ['-'] + Digits(-n) else out + Digits(n)
  }

  function Spaces(n: int): Chars
    decreases n
  {
    if n <= 0 then [] else Spaces(n - 1) + [' ']
  }

  /** A line break and the indentation of `depth`, unless the layout is compact. */
  function Break(out: Chars, lay: Layout, depth: nat): Chars {
    if lay.indent >= 0 then out + ['\n'] + Spaces(lay.indent * depth) else out
  }

  function Colon(out: Chars, lay: Layout): Chars {
    if lay.spaced then out + [':', ' '] else out + [':']
  }

  function Width(v: Json): nat {
    match v
    case Arr(es) => |es|
    case Obj(ms) => |ms|
    case _ => 0
  }

  function Put(out: Chars, v: Json, lay: Layout, depth: nat): Chars
    decreases v, Width(v) + 1
  {
    match v
    case Null => out + "null"
    case Bool(b) => if b then out + "true" else out + "false"
    case Int(i) => PutInteger(out, i)
    case UInt(u) => PutInteger(out, u)
    case Float(token) => out + token
    case Str(s) => PutString(out, s)
    case Arr(es) =>
      if es == [] then out + ['[', ']']
      else Break(PutElems(out + ['['], v, 0, lay, depth), lay, depth) + [']']
    case Obj(ms) =>
      if ms == [] then out + ['{', '}']
      else Break(PutMembers(out + ['{'], v, 0, lay, depth), lay, depth) + ['}']
  }

  /** The elements from `i` on, with commas between. */
  function PutElems(out: Chars, v: Json, i: nat, lay: Layout, depth: nat): Chars
    requires v.Arr? && i < |v.elems|
    decreases v, |v.elems| - i
  {
    var next := Put(Break(out, lay, depth + 1), v.elems[i], lay, depth + 1);
    if i + 1 == |v.elems| then next else PutElems(next + [','], v, i + 1, lay, depth)
  }

  function PutMembers(out: Chars, v: Json, i: nat, lay: Layout, depth: nat): Chars
    requires v.Obj? && i < |v.members|
    decreases v, |v.members| - i
  {
    var m := v.members[i];
    var next := Put(Colon(PutString(Break(out, lay, depth + 1), m.key), lay), m.value, lay, depth + 1);
    if i + 1 == |v.members| then next else PutMembers(next + [','], v, i + 1, lay, depth)
  }

  // ----- parsing

  datatype Problem =
    | TrailingCharacters | UnexpectedEnd | UnexpectedCharacter | ExpectedCharacter(c: char) | ExpectedWord(w: Chars)
    | UnterminatedString | UnterminatedEscape | UnterminatedUnicode | InvalidUnicode | InvalidEscape
    | ControlCharacter | ExpectedCommaOrBracket | ExpectedKey | ExpectedCommaOrBrace | InvalidNumber
    | InvalidFraction | InvalidExponent | IntegerOutOfRange

  /** What is wrong and the position the parser had reached. */
  datatype ParseError = ParseError(problem: Problem, pos: nat)

  type Parsed<T> = Result<(T, nat), ParseError>

  /** The character at a position, or none at the end. */
  function Peek(t: Chars, pos: nat): Option<char> {
    if pos < |t| then Some(t[pos]) else None
  }

  predicate IsSpace(c: char) {
    c == ' ' || 9 <= c as int <= 13
  }

  function SkipWs(t: Chars, pos: nat): (p: nat)
    ensures pos <= p && (pos <= |t| ==> p <= |t|)
    decreases |t| - pos
  {
    if pos < |t| && IsSpace(t[pos]) then SkipWs(t, pos + 1) else pos
  }

  function SkipDigits(t: Chars, pos: nat): (p: nat)
    ensures pos <= p && (pos <= |t| ==> p <= |t|)
    decreases |t| - pos
  {
    if pos < |t| && IsDigit(t[pos]) then SkipDigits(t, pos + 1) else pos
  }

  function Expect(t: Chars, pos: nat, c: char): (r: Result<nat, ParseError>)
    ensures r.Ok? ==> r.value == pos + 1 <= |t|
  {
    if Peek(t, pos) == Some(c) then Ok(pos + 1) else Err(ParseError(ExpectedCharacter(c), pos))
  }

  function ParseWord(t: Chars, pos: nat, w: Chars, v: Json): (r: Parsed<Json>)
    ensures r.Ok? ==> r.value.1 == pos + |w| <= |t|
  {
    if pos + |w| <= |t| && t[pos..pos + |w|] == w then Ok((v, pos + |w|)) else Err(ParseError(ExpectedWord(w), pos))
  }

  /** The value of a hexadecimal digit of either case. */
  function HexValue(c: char): Option<nat> {
    if IsDigit(c) then Some(c as int - '0' as int)
    else if 'a' <= c <= 'f' then Some(c as int - 'a' as int + 10)
    else if 'A' <= c <= 'F' then Some(c as int - 'A' as int + 10)
    else None
  }

  /** UTF-8 of a code point below 0x10000; surrogates are encoded like any other. */
  function Utf8(code: nat): Chars
    requires code < 0x1_0000
  {
    if code < 0x80 then [code as char]
    else if code < 0x800 then [(0xC0 + code / 64) as char, (0x80 + code % 64) as char]
    else [(0xE0 + code / 4096) as char, (0x80 + code / 64 % 64) as char, (0x80 + code % 64) as char]
  }

  /** The four digits of a unicode escape; `k` are left and `code` is read. */
  function ParseHex(t: Chars, pos: nat, k: nat, code: nat): (r: Parsed<nat>)
    requires pos + k <= |t|
    ensures r.Ok? ==> r.value.0 < (code + 1) * Sixteen(k) && r.value.1 == pos + k
    decreases k
  {
    if k == 0 then Ok((code, pos))
    else
      match HexValue(t[pos])
      case None => Err(ParseError(InvalidUnicode, pos + 1))
      case Some(d) =>
        ScaledUp(code, d, Sixteen(k - 1));
        ParseHex(t, pos + 1, k - 1, code * 16 + d)
  }

  /** Sixteen to the power of `k`. */
  function Sixteen(k: nat): (p: nat)
    ensures k == 4 ==> p == 0x1_0000
  {
    if k == 0 then 1 else if k == 1 then 16 else if k == 2 then 256 else if k == 3 then 4096 else 16 * Sixteen(k - 1)
  }

  lemma ScaledUp(code: nat, d: nat, p: nat)
    requires d < 16
    ensures (code * 16 + d + 1) * p <= (code + 1) * (16 * p)
  {
    assert (code * 16 + d + 1) * p <= ((code + 1) * 16) * p;
  }

  /** What an escape stands for; `pos` is behind the backslash. */
  function ParseEscape(t: Chars, pos: nat): (r: Parsed<Chars>)
    ensures r.Ok? ==> pos < r.value.1 <= |t|
  {
    if pos >= |t| then Err(ParseError(UnterminatedEscape, pos))
    else
      var e := t[pos];
      if e == '\"' then Ok((['\"'], pos + 1))
      else if e == '\\' then Ok((['\\'], pos + 1))
      else if e == '/' then Ok((['/'], pos + 1))
      else if e == 'b' then Ok(([8 as char], pos + 1))
      else if e == 'f' then Ok(([12 as char], pos + 1))
      else if e == 'n' then Ok((['\n'], pos + 1))
      else if e == 'r' then Ok((['\r'], pos + 1))
      else if e == 't' then Ok((['\t'], pos + 1))
      else if e == 'u' then
        if pos + 5 > |t| then Err(ParseError(UnterminatedUnicode, pos + 1))
        else
          var (code, p) :- ParseHex(t, pos + 1, 4, 0);
          assert code < Sixteen(4);
          Ok((Utf8(code), p))
      else Err(ParseError(InvalidEscape, pos + 1))
  }

  /** The rest of a string behind its opening quote. */
  function ParseChars(t: Chars, pos: nat, acc: Chars): (r: Parsed<Chars>)
    ensures r.Ok? ==> pos < r.value.1 <= |t|
    decreases |t| - pos
  {
    if pos >= |t| then Err(ParseError(UnterminatedString, pos))
    else
      var c := t[pos];
      if c == '\"' then Ok((acc, pos + 1))
      else if c == '\\' then
        var (s, p) :- ParseEscape(t, pos + 1);
        ParseChars(t, p, acc + s)
      else if c as int < 0x20 then Err(ParseError(ControlCharacter, pos + 1))
      else ParseChars(t, pos + 1, acc + [c])
  }

  function ParseString(t: Chars, pos: nat): (r: Parsed<Chars>)
    ensures r.Ok? ==> pos < r.value.1 <= |t|
  {
    var p :- Expect(t, pos, '\"');
    ParseChars(t, p, [])
  }

  /** Signed if it fits, else unsigned; `end` is where the parser stands. */
  function IntegerOf(token: Chars, end: nat): Result<Json, ParseError> {
    if token != [] && token[0] == '-' then
      var n: int := DecimalValue(token[1..]);
      if n <= TWO64 / 2 then Ok(Int(-n)) else Err(ParseError(IntegerOutOfRange, end))
    else
      var n := DecimalValue(token);
      if n < TWO64 / 2 then Ok(Int(n))
      else if n < TWO64 then Ok(UInt(n))
      else Err(ParseError(IntegerOutOfRange, end))
  }

  predicate DigitAt(t: Chars, pos: nat) {
    pos < |t| && IsDigit(t[pos])
  }

  /** Behind the integer digits of a number. */
  function IntegerPart(t: Chars, pos: nat): (r: Result<nat, ParseError>)
    ensures r.Ok? ==> pos < r.value <= |t|
  {
    if Peek(t, pos) == Some('0') then Ok(pos + 1)
    else if DigitAt(t, pos) then Ok(SkipDigits(t, pos + 1))
    else Err(ParseError(InvalidNumber, pos))
  }

  /** Behind a fraction, if there is one. */
  function Fraction(t: Chars, pos: nat): (r: Result<nat, ParseError>)
    ensures r.Ok? ==> pos <= r.value && (pos <= |t| ==> r.value <= |t|)
  {
    if Peek(t, pos) != Some('.') then Ok(pos)
    else if !DigitAt(t, pos + 1) then Err(ParseError(InvalidFraction, pos + 1))
    else Ok(SkipDigits(t, pos + 1))
  }

  /** Behind an exponent, if there is one. */
  function Exponent(t: Chars, pos: nat): (r: Result<nat, ParseError>)
    ensures r.Ok? ==> pos <= r.value && (pos <= |t| ==> r.value <= |t|)
  {
    if Peek(t, pos) != Some('e') && Peek(t, pos) != Some('E') then Ok(pos)
    else
      var p := if Peek(t, pos + 1) == Some('+') || Peek(t, pos + 1) == Some('-') then pos + 2 else pos + 1;
      if !DigitAt(t, p) then Err(ParseError(InvalidExponent, p)) else Ok(SkipDigits(t, p))
  }

  function ParseNumber(t: Chars, pos: nat): (r: Parsed<Json>)
    ensures r.Ok? ==> pos < r.value.1 <= |t|
  {
    var p :- IntegerPart(t, if Peek(t, pos) == Some('-') then pos + 1 else pos);
    var q :- Fraction(t, p);
    var end :- Exponent(t, q);
    if end == p then
      var v :- IntegerOf(t[pos..end], end);
      Ok((v, end))
    else Ok((Float(t[pos..end]), end))
  }

  function ParseValue(t: Chars, pos: nat): (r: Parsed<Json>)
    ensures r.Ok? ==> pos < r.value.1 <= |t|
    decreases |t| - pos, 1
  {
    if pos >= |t| then Err(ParseError(UnexpectedEnd, pos))
    else
      var c := t[pos];
      if c == '{' then ParseObject(t, pos)
      else if c == '[' then ParseArray(t, pos)
      else if c == '\"' then
        var (s, p) :- ParseString(t, pos);
        Ok((Str(s), p))
      else if c == 't' then ParseWord(t, pos, "true", Bool(true))
      else if c == 'f' then ParseWord(t, pos, "false", Bool(false))
      else if c == 'n' then ParseWord(t, pos, "null", Null)
      else if c == '-' || IsDigit(c) then ParseNumber(t, pos)
      else Err(ParseError(UnexpectedCharacter, pos))
  }

  function ParseArray(t: Chars, pos: nat): (r: Parsed<Json>)
    requires pos < |t|
    ensures r.Ok? ==> pos < r.value.1 <= |t|
    decreases |t| - pos, 0
  {
    var p :- Expect(t, pos, '[');
    var q := SkipWs(t, p);
    if Peek(t, q) == Some(']') then Ok((Arr([]), q + 1)) else ParseElems(t, q, [])
  }

  /** Elements up to the closing bracket, after those in `acc`. */
  function ParseElems(t: Chars, pos: nat, acc: seq<Json>): (r: Parsed<Json>)
    ensures r.Ok? ==> pos < r.value.1 <= |t|
    decreases |t| - pos, 2
  {
    var (v, p) :- ParseValue(t, SkipWs(t, pos));
    var q := SkipWs(t, p);
    if Peek(t, q) == Some(',') then ParseElems(t, q + 1, acc + [v])
    else if Peek(t, q) == Some(']') then Ok((Arr(acc + [v]), q + 1))
    else Err(ParseError(ExpectedCommaOrBracket, q))
  }

  function ParseObject(t: Chars, pos: nat): (r: Parsed<Json>)
    requires pos < |t|
    ensures r.Ok? ==> pos < r.value.1 <= |t|
    decreases |t| - pos, 0
  {
    var p :- Expect(t, pos, '{');
    var q := SkipWs(t, p);
    if Peek(t, q) == Some('}') then Ok((Obj([]), q + 1)) else ParseMembers(t, q, [])
  }

  /** A key, a colon and a value. */
  function ParseMember(t: Chars, pos: nat): (r: Parsed<Member>)
    ensures r.Ok? ==> pos < r.value.1 <= |t|
    decreases |t| - pos, 2
  {
    if Peek(t, pos) != Some('\"') then Err(ParseError(ExpectedKey, pos))
    else
      var (key, p) :- ParseString(t, pos);
      var c :- Expect(t, SkipWs(t, p), ':');
      var (v, e) :- ParseValue(t, SkipWs(t, c));
      Ok((Member(key, v), e))
  }

  /** Members up to the closing brace; a repeated key is kept like any other. */
  function ParseMembers(t: Chars, pos: nat, acc: seq<Member>): (r: Parsed<Json>)
    ensures r.Ok? ==> pos < r.value.1 <= |t|
    decreases |t| - pos, 3
  {
    var (m, e) :- ParseMember(t, SkipWs(t, pos));
    var q := SkipWs(t, e);
    if Peek(t, q) == Some(',') then ParseMembers(t, q + 1, acc + [m])
    else if Peek(t, q) == Some('}') then Ok((Obj(acc + [m]), q + 1))
    else Err(ParseError(ExpectedCommaOrBrace, q))
  }

  /** One value and nothing else but white space. */
  function Parse(t: Chars): Result<Json, ParseError> {
    var (v, p) :- ParseValue(t, SkipWs(t, 0));
    var end := SkipWs(t, p);
    if end == |t| then Ok(v) else Err(ParseError(TrailingCharacters, end))
  }

  /** The printed text; canonical when sorted. */
  function ToString(v: Json, sortKeys: bool, indent: int): Chars {
    Put([], if sortKeys then Canon(v) else v, Layout(indent, indent >= 0 && !sortKeys), 0)
  }
}
