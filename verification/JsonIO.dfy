/** The writer, which appends to a growing text, and the parser object, which advances a position
    through a text. Each is proved to do what the functions on text and position describe. */
module JsonIO {
  import opened Base
  import opened Decimal
  import opened Sequences
  import opened Sorting
  import opened Json
  import opened JsonLaws

  /** What is printed: the value, in canonical order if sorting. */
  function Shown(v: Json, sortKeys: bool): Json {
    if sortKeys then Canon(v) else v
  }

  function LayoutOf(sortKeys: bool, indent: int): Layout {
    Layout(indent, indent >= 0 && !sortKeys)
  }

  lemma ShownArray(v: Json, sortKeys: bool)
    requires v.Arr?
    ensures Shown(v, sortKeys).Arr? && |Shown(v, sortKeys).elems| == |v.elems|
    ensures forall i :: 0 <= i < |v.elems| ==> Shown(v, sortKeys).elems[i] == Shown(v.elems[i], sortKeys)
  {
    CanonParts(v);
  }

  /** Sorting the members of an object and then showing each value, or showing first and sorting
      then, comes to the same; the sorted copy holds nothing but members of the object. */
  lemma ShownObject(v: Json, items: seq<Member>, sortKeys: bool)
    requires v.Obj? && items == if sortKeys then SortMembers(v.members) else v.members
    ensures Shown(v, sortKeys).Obj? && |Shown(v, sortKeys).members| == |items| == |v.members|
    ensures forall i :: 0 <= i < |items| ==>
                          Shown(v, sortKeys).members[i] ==
                            Member(items[i].key, Shown(items[i].value, sortKeys)) && items[i] in v.members
  {
    hide Canon, Sort, KeyBefore;
    if sortKeys {
      CanonParts(v);
      KeyOrder();
      SortSorts(v.members, KeyBefore);
      assert |items| == |multiset(items)| == |v.members|;
      CanonMemberKeepsOrder();
      MapSort(CanonMember, v.members, KeyBefore, KeyBefore);
      forall i | 0 <= i < |items|
        ensures items[i] in v.members
      {
        assert items[i] in multiset(items);
      }
    }
  }

  class Sink {
    var out: Chars

    constructor ()
      ensures out == []
    {
      out := [];
    }

    method AppendString(s: Chars)
      modifies this
      ensures out == PutString(old(out), s)
    {
      out := out + ['\"'];
      var i := 0;
      ghost var goal := PutChars(out, s);
      assert s[0..] == s;
      while i < |s|
        invariant 0 <= i <= |s| && PutChars(out, s[i..]) == goal
      {
        assert s[i..][1..] == s[i + 1..];
        AppendChar(s[i]);
        i := i + 1;
      }
      assert s[i..] == [];
      out := out + ['\"'];
    }

    /** One character, escaped where it must be. */
    method AppendChar(c: Char8)
      modifies this
      ensures out == PutChar(old(out), c)
    {
      if c == '\"' { out := out + ['\\', '\"']; }
      else if c == '\\' { out := out + ['\\', '\\']; }
      else if c as int == 8 { out := out + ['\\', 'b']; }
      else if c as int == 12 { out := out + ['\\', 'f']; }
      else if c == '\n' { out := out + ['\\', 'n']; }
      else if c == '\r' { out := out + ['\\', 'r']; }
      else if c == '\t' { out := out + ['\\', 't']; }
      else if c as int < 0x20 { out := out + ['\\', 'u', '0', '0', HexChar(c as int / 16), HexChar(c as int % 16)]; }
      else { out := out + [c]; }
    }

    /** A line break and indentation, unless the layout is compact. */
    method NewLine(indent: int, depth: nat)
      modifies this
      ensures forall lay: Layout :: lay.indent == indent ==> out == Break(old(out), lay, depth)
    {
      if indent >= 0 {
        out := out + ['\n'];
        var width := indent * depth;
        var start := out;
        assert start + Spaces(0) == start;
        for i := 0 to width
          invariant out == start + Spaces(i)
        {
          assert start + Spaces(i) + [' '] == start + (Spaces(i) + [' ']);
          out := out + [' '];
        }
      }
    }

    /** A key, its colon and its value, on a line of their own unless the layout is compact. */
    method WriteMember(m: Member, sortKeys: bool, indent: int, depth: nat)
      modifies this
      ensures
        var lay := LayoutOf(sortKeys, indent);
        out == Put(BeforeMember(old(out), m.key, lay, depth), Shown(m.value, sortKeys), lay, depth + 1)
      decreases m.value, 2
    {
      hide Put, Break, PutString, Shown;
      NewLine(indent, depth + 1);
      AppendString(m.key);
      if indent >= 0 && !sortKeys {
        assert out + [':'] + [' '] == out + [':', ' '];
      }
      out := out + [':'];
      if indent >= 0 && !sortKeys {
        out := out + [' '];
      }
      WriteValue(m.value, sortKeys, indent, depth + 1);
    }

    method WriteObject(v: Json, sortKeys: bool, indent: int, depth: nat)
      requires v.Obj?
      modifies this
      ensures out == Put(old(out), Shown(v, sortKeys), LayoutOf(sortKeys, indent), depth)
      decreases v, 0
    {
      hide Canon, Sort, Break, PutString, Colon, Shown;
      ghost var w, lay := Shown(v, sortKeys), LayoutOf(sortKeys, indent);
      var items := v.members;
      if sortKeys {
        items := SortMembers(items);
      }
      ShownObject(v, items, sortKeys);
      ghost var before := out;
      out := out + ['{'];
      ghost var start := out;
      for i := 0 to |items|
        invariant 0 < i < |items| ==> PutMembers(start, w, 0, lay, depth) == PutMembers(out + [','], w, i, lay, depth)
        invariant 0 < i == |items| ==> out == PutMembers(start, w, 0, lay, depth)
        invariant i == 0 ==> out == start
      {
        if i > 0 {
          out := out + [','];
        }
        MemberIsSmaller(v, items[i]);
        WriteMember(items[i], sortKeys, indent, depth);
      }
      if indent >= 0 && items != [] {
        NewLine(indent, depth);
      }
      out := out + ['}'];
      assert items == [] ==> before + ['{'] + ['}'] == before + ['{', '}'];
      Compact(lay, depth);
    }

    method WriteValue(v: Json, sortKeys: bool, indent: int, depth: nat)
      modifies this
      ensures out == Put(old(out), Shown(v, sortKeys), LayoutOf(sortKeys, indent), depth)
      decreases v, 1
    {
      hide Sort, Break, PutString, PutInteger;
      match v {
        case Null => out := out + "null";
        case Bool(b) =>
          if b {
            out := out + "true";
          } else {
            out := out + "false";
          }
        case Int(n) => out := PutInteger(out, n);
        case UInt(n) => out := PutInteger(out, n);
        case Float(token) => out := out + token;
        case Str(s) => AppendString(s);
        case Arr(_) => WriteArray(v, sortKeys, indent, depth);
        case Obj(_) => WriteObject(v, sortKeys, indent, depth);
      }
    }

    method WriteArray(v: Json, sortKeys: bool, indent: int, depth: nat)
      requires v.Arr?
      modifies this
      ensures out == Put(old(out), Shown(v, sortKeys), LayoutOf(sortKeys, indent), depth)
      decreases v, 0
    {
      hide Canon, Break, Shown;
      ghost var w, lay := Shown(v, sortKeys), LayoutOf(sortKeys, indent);
      ShownArray(v, sortKeys);
      ghost var before := out;
      out := out + ['['];
      ghost var start := out;
      for i := 0 to |v.elems|
        invariant 0 < i < |v.elems| ==> PutElems(start, w, 0, lay, depth) == PutElems(out + [','], w, i, lay, depth)
        invariant 0 < i == |v.elems| ==> out == PutElems(start, w, 0, lay, depth)
        invariant i == 0 ==> out == start
      {
        if i > 0 {
          out := out + [','];
        }
        NewLine(indent, depth + 1);
        WriteValue(v.elems[i], sortKeys, indent, depth + 1);
      }
      if indent >= 0 && v.elems != [] {
        NewLine(indent, depth);
      }
      out := out + [']'];
      assert v.elems == [] ==> before + ['['] + [']'] == before + ['[', ']'];
      Compact(lay, depth);
    }
  }

  lemma Compact(lay: Layout, depth: nat)
    ensures lay.indent < 0 ==> forall out: Chars :: Break(out, lay, depth) == out
  {
  }

  lemma MemberIsSmaller(v: Json, m: Member)
    requires v.Obj? && m in v.members
    ensures m.value < v
  {
  }

  /** The canonical or pretty text of a value. */
  method Render(v: Json, sortKeys: bool, indent: int) returns (text: Chars)
    ensures text == ToString(v, sortKeys, indent)
  {
    hide Put, Canon;
    var sink := new Sink();
    sink.WriteValue(v, sortKeys, indent, 0);
    text := sink.out;
  }

  /** The outcome `r` of a parsing function is what a method returned and where it left off. */
  predicate Did<T(==)>(r: Parsed<T>, res: Result<T, ParseError>, pos: nat) {
    r == match res case Ok(v) => Ok((v, pos)) case Err(e) => Err(e)
  }

  class Parser {
    const text: Chars
    var pos: nat

    constructor (text: Chars)
      ensures this.text == text && pos == 0
    {
      this.text := text;
      pos := 0;
    }

    method SkipWhite()
      requires pos <= |text|
      modifies this
      ensures pos == SkipWs(text, old(pos))
    {
      while pos < |text| && IsSpace(text[pos])
        invariant pos <= |text| && SkipWs(text, pos) == SkipWs(text, old(pos))
        decreases |text| - pos
      {
        pos := pos + 1;
      }
    }

    method SkipDigitRun()
      requires pos <= |text|
      modifies this
      ensures pos == SkipDigits(text, old(pos))
    {
      while pos < |text| && IsDigit(text[pos])
        invariant pos <= |text| && SkipDigits(text, pos) == SkipDigits(text, old(pos))
        decreases |text| - pos
      {
        pos := pos + 1;
      }
    }

    method ExpectChar(c: char) returns (res: Status<ParseError>)
      modifies this
      ensures Expect(text, old(pos), c) == match res case Passed => Ok(pos) case Failed(e) => Err(e)
    {
      if pos >= |text| || text[pos] != c {
        return Failed(ParseError(ExpectedCharacter(c), pos));
      }
      pos := pos + 1;
      return Passed;
    }

    method Word(w: Chars, v: Json) returns (res: Result<Json, ParseError>)
      modifies this
      ensures Did(ParseWord(text, old(pos), w, v), res, pos)
    {
      if pos + |w| > |text| || text[pos..pos + |w|] != w {
        return Err(ParseError(ExpectedWord(w), pos));
      }
      pos := pos + |w|;
      return Ok(v);
    }

    method UnicodeEscape() returns (res: Result<nat, ParseError>)
      requires pos + 4 <= |text|
      modifies this
      ensures Did(ParseHex(text, old(pos), 4, 0), res, pos)
      ensures res.Ok? ==> res.value < 0x1_0000
    {
      var code: nat := 0;
      for i := 0 to 4
        invariant pos == old(pos) + i
        invariant ParseHex(text, pos, 4 - i, code) == ParseHex(text, old(pos), 4, 0)
      {
        var h := text[pos];
        pos := pos + 1;
        var d := HexValue(h);
        if d.None? {
          return Err(ParseError(InvalidUnicode, pos));
        }
        code := code * 16 + d.value;
      }
      assert code < Sixteen(4);
      return Ok(code);
    }

    method Escape() returns (res: Result<Chars, ParseError>)
      requires pos <= |text|
      modifies this
      ensures Did(ParseEscape(text, old(pos)), res, pos)
    {
      hide ParseHex, Utf8;
      if pos >= |text| {
        return Err(ParseError(UnterminatedEscape, pos));
      }
      var e := text[pos];
      pos := pos + 1;
      if e == '\"' { return Ok(['\"']); }
      if e == '\\' { return Ok(['\\']); }
      if e == '/' { return Ok(['/']); }
      if e == 'b' { return Ok([8 as char]); }
      if e == 'f' { return Ok([12 as char]); }
      if e == 'n' { return Ok(['\n']); }
      if e == 'r' { return Ok(['\r']); }
      if e == 't' { return Ok(['\t']); }
      if e == 'u' {
        if pos + 4 > |text| {
          return Err(ParseError(UnterminatedUnicode, pos));
        }
        var code :- UnicodeEscape();
        return Ok(Utf8(code));
      }
      return Err(ParseError(InvalidEscape, pos));
    }

    method QuotedString() returns (res: Result<Chars, ParseError>)
      requires pos <= |text|
      modifies this
      ensures Did(ParseString(text, old(pos)), res, pos)
    {
      hide ParseEscape;
      ghost var goal := ParseString(text, pos);
      :- ExpectChar('\"');
      var out: Chars := [];
      while true
        invariant old(pos) < pos <= |text| && ParseChars(text, pos, out) == goal
        decreases |text| - pos
      {
        if pos >= |text| {
          return Err(ParseError(UnterminatedString, pos));
        }
        var c := text[pos];
        pos := pos + 1;
        if c == '\"' {
          return Ok(out);
        }
        if c == '\\' {
          var s :- Escape();
          out := out + s;
        } else if c as int < 0x20 {
          return Err(ParseError(ControlCharacter, pos));
        } else {
          out := out + [c];
        }
      }
    }

    method IntegerDigits() returns (res: Status<ParseError>)
      requires pos <= |text|
      modifies this
      ensures IntegerPart(text, old(pos)) == match res case Passed => Ok(pos) case Failed(e) => Err(e)
    {
      if Peek(text, pos) == Some('0') {
        pos := pos + 1;
      } else if DigitAt(text, pos) {
        pos := pos + 1;
        SkipDigitRun();
      } else {
        return Failed(ParseError(InvalidNumber, pos));
      }
      return Passed;
    }

    method FractionDigits() returns (res: Status<ParseError>)
      requires pos <= |text|
      modifies this
      ensures Fraction(text, old(pos)) == match res case Passed => Ok(pos) case Failed(e) => Err(e)
    {
      if Peek(text, pos) == Some('.') {
        pos := pos + 1;
        if !DigitAt(text, pos) {
          return Failed(ParseError(InvalidFraction, pos));
        }
        SkipDigitRun();
      }
      return Passed;
    }

    method ExponentDigits() returns (res: Status<ParseError>)
      requires pos <= |text|
      modifies this
      ensures Exponent(text, old(pos)) == match res case Passed => Ok(pos) case Failed(e) => Err(e)
    {
      if Peek(text, pos) == Some('e') || Peek(text, pos) == Some('E') {
        pos := pos + 1;
        if Peek(text, pos) == Some('+') || Peek(text, pos) == Some('-') {
          pos := pos + 1;
        }
        if !DigitAt(text, pos) {
          return Failed(ParseError(InvalidExponent, pos));
        }
        SkipDigitRun();
      }
      return Passed;
    }

    method Number() returns (res: Result<Json, ParseError>)
      requires pos <= |text|
      modifies this
      ensures Did(ParseNumber(text, old(pos)), res, pos)
    {
      hide IntegerOf, IntegerPart, Fraction, Exponent;
      var start := pos;
      if Peek(text, pos) == Some('-') {
        pos := pos + 1;
      }
      :- IntegerDigits();
      var end := pos;
      :- FractionDigits();
      :- ExponentDigits();
      var isFloat := pos != end;
      if isFloat {
        return Ok(Float(text[start..pos]));
      }
      var v :- IntegerOf(text[start..pos], pos);
      return Ok(v);
    }

    method ParseAny() returns (res: Result<Json, ParseError>)
      requires pos <= |text|
      modifies this
      ensures Did(ParseValue(text, old(pos)), res, pos)
      decreases |text| - pos, 1
    {
      hide ParseString, ParseNumber;
      if pos >= |text| {
        return Err(ParseError(UnexpectedEnd, pos));
      }
      var c := text[pos];
      if c == '{' {
        res := ObjectAt();
      } else if c == '[' {
        res := ArrayAt();
      } else if c == '\"' {
        var s :- QuotedString();
        return Ok(Str(s));
      } else if c == 't' {
        res := Word("true", Bool(true));
      } else if c == 'f' {
        res := Word("false", Bool(false));
      } else if c == 'n' {
        res := Word("null", Null);
      } else if c == '-' || IsDigit(c) {
        res := Number();
      } else {
        return Err(ParseError(UnexpectedCharacter, pos));
      }
    }

    method ArrayAt() returns (res: Result<Json, ParseError>)
      requires pos < |text|
      modifies this
      ensures Did(ParseArray(text, old(pos)), res, pos)
      decreases |text| - pos, 0
    {
      hide ParseValue;
      ghost var goal := ParseArray(text, pos);
      :- ExpectChar('[');
      SkipWhite();
      if Peek(text, pos) == Some(']') {
        pos := pos + 1;
        return Ok(Arr([]));
      }
      var elems: seq<Json> := [];
      while true
        invariant old(pos) < pos <= |text| && ParseElems(text, pos, elems) == goal
        decreases |text| - pos
      {
        ghost var at := pos;
        SkipWhite();
        var v :- ParseAny();
        elems := elems + [v];
        SkipWhite();
        if Peek(text, pos) == Some(',') {
          pos := pos + 1;
        } else if Peek(text, pos) == Some(']') {
          pos := pos + 1;
          return Ok(Arr(elems));
        } else {
          return Err(ParseError(ExpectedCommaOrBracket, pos));
        }
      }
    }

    method ObjectAt() returns (res: Result<Json, ParseError>)
      requires pos < |text|
      modifies this
      ensures Did(ParseObject(text, old(pos)), res, pos)
      decreases |text| - pos, 0
    {
      hide ParseMember;
      ghost var goal := ParseObject(text, pos);
      :- ExpectChar('{');
      SkipWhite();
      if Peek(text, pos) == Some('}') {
        pos := pos + 1;
        return Ok(Obj([]));
      }
      var members: seq<Member> := [];
      while true
        invariant old(pos) < pos <= |text| && ParseMembers(text, pos, members) == goal
        decreases |text| - pos
      {
        SkipWhite();
        var m :- MemberAt();
        members := members + [m];
        SkipWhite();
        if Peek(text, pos) == Some(',') {
          pos := pos + 1;
        } else if Peek(text, pos) == Some('}') {
          pos := pos + 1;
          return Ok(Obj(members));
        } else {
          return Err(ParseError(ExpectedCommaOrBrace, pos));
        }
      }
    }

    method MemberAt() returns (res: Result<Member, ParseError>)
      requires pos <= |text|
      modifies this
      ensures Did(ParseMember(text, old(pos)), res, pos)
      decreases |text| - pos, 2
    {
      hide ParseValue, ParseString;
      if Peek(text, pos) != Some('\"') {
        return Err(ParseError(ExpectedKey, pos));
      }
      var key :- QuotedString();
      SkipWhite();
      :- ExpectChar(':');
      SkipWhite();
      var v :- ParseAny();
      return Ok(Member(key, v));
    }

    method ParseAll() returns (res: Result<Json, ParseError>)
      requires pos == 0
      modifies this
      ensures res == Parse(text)
    {
      hide ParseValue;
      SkipWhite();
      var v :- ParseAny();
      SkipWhite();
      if pos != |text| {
        return Err(ParseError(TrailingCharacters, pos));
      }
      return Ok(v);
    }
  }
}
