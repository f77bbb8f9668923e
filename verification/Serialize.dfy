/** The primitives of the binary codec. `Put...` appends the encoding of a value to a buffer;
    `Get...` reads one from a position and returns it with the position behind it. */
module Serialize {
  import opened Base
  import opened Bytes
  import opened Model
  import opened Sequences

  datatype CodecError = TruncatedData | CorruptData | UnknownVersion | TrailingData

  type Read<T> = Result<(T, nat), CodecError>

  const MAX_STRING: nat := 64 * 1024 * 1024

  // ----- writing

  function PutU8(buf: seq<byte>, v: byte): seq<byte> {
    buf + [v]
  }

  function PutU32(buf: seq<byte>, v: u32): seq<byte> {
    buf + LE(v, 4)
  }

  function PutU64(buf: seq<byte>, v: u64): seq<byte> {
    buf + LE(v, 8)
  }

  function PutI64(buf: seq<byte>, v: i64): seq<byte> {
    PutU64(buf, v % TWO64)
  }

  function PutBool(buf: seq<byte>, v: bool): seq<byte> {
    PutU8(buf, if v then 1 else 0)
  }

  function CharBytes(s: Chars): (b: seq<byte>)
    ensures |b| == |s|
  {
    seq(|s|, i requires 0 <= i < |s| => s[i] as int)
  }

  function PutStr(buf: seq<byte>, s: Text): seq<byte> {
    PutU32(buf, |s|) + CharBytes(s)
  }

  function PutMany<T>(buf: seq<byte>, v: seq<T>, put: (seq<byte>, T) -> seq<byte>): seq<byte>
    decreases |v|
  {
    if v == [] then buf else PutMany(put(buf, v[0]), v[1..], put)
  }

  /** The element count is cast to 32 bits. */
  function PutVec<T>(buf: seq<byte>, v: seq<T>, put: (seq<byte>, T) -> seq<byte>): seq<byte> {
    PutMany(PutU32(buf, |v| % TWO32), v, put)
  }

  function PutOption<T>(buf: seq<byte>, o: Option<T>, put: (seq<byte>, T) -> seq<byte>): seq<byte> {
    if o.Some? then put(PutBool(buf, true), o.value) else PutBool(buf, false)
  }

  function PutReason(buf: seq<byte>, r: Reason): seq<byte> {
    PutStr(PutU64(buf, r.candidateId), r.text)
  }

  function PutValue(buf: seq<byte>, v: Value<Pattern>): seq<byte> {
    match v
    case NoValue => PutU8(buf, 0)
    case Int(i) => PutI64(PutU8(buf, 1), i)
    case UInt(u) => PutU64(PutU8(buf, 2), u)
    case Double(d) => PutU64(PutU8(buf, 3), d)
    case Bool(b) => PutBool(PutU8(buf, 4), b)
    case Str(s) => PutStr(PutU8(buf, 5), s)
  }

  // ----- reading

  function GetLE(data: seq<byte>, pos: nat, k: nat): (r: Read<nat>)
    ensures r.Ok? ==> r.value.0 < Pow256(k)
  {
    if pos + k > |data| then Err(TruncatedData)
    else
      LEOfFromLE(data[pos..pos + k]);
      Ok((FromLE(data[pos..pos + k]), pos + k))
  }

  function GetU8(data: seq<byte>, pos: nat): Read<byte> {
    if pos + 1 > |data| then Err(TruncatedData) else Ok((data[pos], pos + 1))
  }

  function GetU32(data: seq<byte>, pos: nat): Read<u32> {
    Pow256Words();
    var (v, p) :- GetLE(data, pos, 4);
    Ok((v, p))
  }

  function GetU64(data: seq<byte>, pos: nat): Read<u64> {
    Pow256Words();
    var (v, p) :- GetLE(data, pos, 8);
    Ok((v, p))
  }

  /** Two's complement. */
  function GetI64(data: seq<byte>, pos: nat): Read<i64> {
    var (v, p) :- GetU64(data, pos);
    Ok((if v < TWO64 / 2 then v else v - TWO64, p))
  }

  function GetBool(data: seq<byte>, pos: nat): Read<bool> {
    var (v, p) :- GetU8(data, pos);
    Ok((v != 0, p))
  }

  function BytesChars(b: seq<byte>): (s: Chars)
    ensures |s| == |b|
  {
    seq(|b|, i requires 0 <= i < |b| => b[i] as char)
  }

  function GetStr(data: seq<byte>, pos: nat): Read<Text> {
    var (len, p) :- GetU32(data, pos);
    if len > MAX_STRING then Err(CorruptData)
    else if p + len > |data| then Err(TruncatedData)
    else Ok((BytesChars(data[p..p + len]), p + len))
  }

  function GetMany<T>(data: seq<byte>, pos: nat, n: nat, get: (seq<byte>, nat) -> Read<T>): (r: Read<seq<T>>)
    ensures r.Ok? ==> |r.value.0| == n
    decreases n
  {
    if n == 0 then Ok(([], pos))
    else
      var (x, p) :- get(data, pos);
      var (xs, q) :- GetMany(data, p, n - 1, get);
      Ok(([x] + xs, q))
  }

  function GetVec<T>(data: seq<byte>, pos: nat, get: (seq<byte>, nat) -> Read<T>): Read<seq<T>> {
    var (n, p) :- GetU32(data, pos);
    GetMany(data, p, n, get)
  }

  function GetOption<T>(data: seq<byte>, pos: nat, get: (seq<byte>, nat) -> Read<T>): Read<Option<T>> {
    var (has, p) :- GetBool(data, pos);
    if has then
      var (x, q) :- get(data, p);
      Ok((Some(x), q))
    else Ok((None, p))
  }

  /** Assignment to a key of an ordered map. */
  function Assign(m: ReasonMap, r: Reason): (n: ReasonMap)
    ensures |m| <= |n| <= |m| + 1
    ensures forall e :: e in n ==> e == r || e in m
    decreases |m|
  {
    if m == [] || r.candidateId < m[0].candidateId then [r] + m
    else if r.candidateId == m[0].candidateId then [r] + m[1..]
    else
      var rest := Assign(m[1..], r);
      HeadIsLeast(m);
      ConsAscends(m[0], rest);
      [m[0]] + rest
  }

  lemma HeadIsLeast(m: ReasonMap)
    requires m != []
    ensures forall e :: e in m[1..] ==> m[0].candidateId < e.candidateId
  {
    forall e | e in m[1..]
      ensures m[0].candidateId < e.candidateId
    {
      var i :| 0 <= i < |m[1..]| && m[1..][i] == e;
      assert m[i + 1] == e;
    }
  }

  lemma ConsAscends(e: Reason, m: ReasonMap)
    requires forall x :: x in m ==> e.candidateId < x.candidateId
    ensures Ascending([e] + m)
  {
  }

  function GetReasons(data: seq<byte>, pos: nat, n: nat, m: ReasonMap): (r: Read<ReasonMap>)
    ensures r.Ok? ==> |r.value.0| <= |m| + n
    decreases n
  {
    if n == 0 then Ok((m, pos))
    else
      var (id, p) :- GetU64(data, pos);
      var (text, q) :- GetStr(data, p);
      GetReasons(data, q, n - 1, Assign(m, Reason(id, text)))
  }

  function GetReasonMap(data: seq<byte>, pos: nat): Read<ReasonMap> {
    var (n, p) :- GetU32(data, pos);
    GetReasons(data, p, n, [])
  }

  function GetValue(data: seq<byte>, pos: nat): Read<Value<Pattern>> {
    var (k, p) :- GetU8(data, pos);
    match k
    case 0 => Ok((NoValue, p))
    case 1 => var (i, q) :- GetI64(data, p); Ok((Int(i), q))
    case 2 => var (u, q) :- GetU64(data, p); Ok((UInt(u), q))
    case 3 => var (d, q) :- GetU64(data, p); Ok((Double(d), q))
    case 4 => var (b, q) :- GetBool(data, p); Ok((Bool(b), q))
    case 5 => var (s, q) :- GetStr(data, p); Ok((Str(s), q))
    case _ => Err(CorruptData)
  }

  // ----- what reading back means

  /** Reading gives `x` and ends at `end` when everything written fits the reader's limits; otherwise
      it fails or gives something else. */
  predicate Reads<T(==)>(fits: bool, r: Read<T>, x: T, end: nat) {
    if fits then r == Ok((x, end)) else r.Err? || r.value.0 != x
  }

  predicate FitsStr(s: Text) {
    |s| <= MAX_STRING
  }

  predicate AllFit<T(==)>(v: seq<T>, fits: T -> bool) {
    forall x :: x in v ==> fits(x)
  }

  predicate FitsVec<T(==)>(v: seq<T>, fits: T -> bool) {
    |v| < TWO32 && AllFit(v, fits)
  }

  predicate FitsOption<T>(o: Option<T>, fits: T -> bool) {
    o.Some? ==> fits(o.value)
  }

  predicate FitsValue(v: Value<Pattern>) {
    v.Str? ==> FitsStr(v.s)
  }

  predicate FitsReason(r: Reason) {
    FitsStr(r.text)
  }

  predicate FitsReasonMap(m: ReasonMap) {
    |m| < TWO32 && AllFit(m, FitsReason)
  }

  function MapOption<T, U>(f: T -> U, o: Option<T>): Option<U> {
    if o.Some? then Some(f(o.value)) else None
  }

  lemma U8Reads(b: seq<byte>, v: byte, data: seq<byte>)
    requires PutU8(b, v) <= data
    ensures b <= data && Reads(true, GetU8(data, |b|), v, |PutU8(b, v)|)
  {
  }

  lemma LEReads(b: seq<byte>, v: nat, k: nat, data: seq<byte>)
    requires b + LE(v, k) <= data && v < Pow256(k)
    ensures b <= data && GetLE(data, |b|, k) == Ok((v, |b| + k))
  {
    assert (b + LE(v, k))[|b|..] == LE(v, k);
    assert data[|b|..|b| + k] == LE(v, k);
    FromLEOfLE(v, k);
  }

  lemma U32Reads(b: seq<byte>, v: u32, data: seq<byte>)
    requires PutU32(b, v) <= data
    ensures b <= data && Reads(true, GetU32(data, |b|), v, |PutU32(b, v)|)
  {
    Pow256Words();
    LEReads(b, v, 4, data);
  }

  lemma U64Reads(b: seq<byte>, v: u64, data: seq<byte>)
    requires PutU64(b, v) <= data
    ensures b <= data && Reads(true, GetU64(data, |b|), v, |PutU64(b, v)|)
  {
    Pow256Words();
    LEReads(b, v, 8, data);
  }

  lemma I64Reads(b: seq<byte>, v: i64, data: seq<byte>)
    requires PutI64(b, v) <= data
    ensures b <= data && Reads(true, GetI64(data, |b|), v, |PutI64(b, v)|)
  {
    U64Reads(b, v % TWO64, data);
  }

  lemma BoolReads(b: seq<byte>, v: bool, data: seq<byte>)
    requires PutBool(b, v) <= data
    ensures b <= data && Reads(true, GetBool(data, |b|), v, |PutBool(b, v)|)
  {
    U8Reads(b, if v then 1 else 0, data);
  }

  lemma CharsOfBytes(s: Chars)
    ensures BytesChars(CharBytes(s)) == s
  {
  }

  lemma StrReads(b: seq<byte>, s: Text, data: seq<byte>)
    requires PutStr(b, s) <= data
    ensures b <= data && Reads(FitsStr(s), GetStr(data, |b|), s, |PutStr(b, s)|)
    ensures !FitsStr(s) ==> GetStr(data, |b|) == Err(CorruptData)
  {
    var c := PutU32(b, |s|);
    assert c <= PutStr(b, s);
    U32Reads(b, |s|, data);
    assert data[|c|..|c| + |s|] == CharBytes(s) by {
      assert PutStr(b, s)[|c|..] == CharBytes(s);
    }
    CharsOfBytes(s);
  }

  /** What one element's encoding guarantees, wherever it is written. */
  ghost predicate ElementReads<T(!new)>(x: T, put: (seq<byte>, T) -> seq<byte>, get: (seq<byte>, nat) -> Read<T>,
                                        erase: T -> T, fits: T -> bool, data: seq<byte>)
  {
    forall b {:trigger put(b, x)} :: put(b, x) <= data ==>
      b <= data && Reads(fits(x), get(data, |b|), erase(x), |put(b, x)|)
  }

  lemma AllFitCons<T>(x: T, v: seq<T>, fits: T -> bool)
    ensures AllFit([x] + v, fits) == (fits(x) && AllFit(v, fits))
  {
    assert x in [x] + v;
    assert forall y :: y in v ==> y in [x] + v;
  }

  function Cons<T>(head: Read<T>, tail: Read<seq<T>>): Read<seq<T>> {
    var (x, _) :- head;
    var (xs, q) :- tail;
    Ok(([x] + xs, q))
  }

  lemma ConsReads<T>(headFits: bool, head: Read<T>, x: T, p: nat, tailFits: bool, tail: Read<seq<T>>,
                     xs: seq<T>, end: nat)
    requires Reads(headFits, head, x, p)
    requires head == Ok((x, p)) ==> Reads(tailFits, tail, xs, end)
    ensures Reads(headFits && tailFits, Cons(head, tail), [x] + xs, end)
  {
    var r := Cons(head, tail);
    if r.Ok? && r.value.0 == [x] + xs {
      assert r.value.0[0] == x && r.value.0[1..] == xs;
    }
  }

  lemma {:induction false} ManyReads<T(!new)>(b: seq<byte>, v: seq<T>, put: (seq<byte>, T) -> seq<byte>,
                                              get: (seq<byte>, nat) -> Read<T>, erase: T -> T,
                                              fits: T -> bool, data: seq<byte>)
    requires PutMany(b, v, put) <= data
    requires forall x :: x in v ==> ElementReads(x, put, get, erase, fits, data)
    ensures b <= data
    ensures Reads(AllFit(v, fits), GetMany(data, |b|, |v|, get), MapSeq(erase, v), |PutMany(b, v, put)|)
    decreases |v|
  {
    if v != [] {
      hide AllFit, Reads;
      var x, rest := v[0], v[1..];
      var c := put(b, x);
      assert v == [x] + rest;
      ManyReads(c, rest, put, get, erase, fits, data);
      assert ElementReads(x, put, get, erase, fits, data);
      var head := get(data, |b|);
      var tail := if head.Ok? then GetMany(data, head.value.1, |rest|, get) else Err(TruncatedData);
      ConsReads(fits(x), head, erase(x), |c|, AllFit(rest, fits), tail, MapSeq(erase, rest), |PutMany(b, v, put)|);
      assert GetMany(data, |b|, |v|, get) == Cons(head, tail);
      assert MapSeq(erase, v) == [erase(x)] + MapSeq(erase, rest);
      AllFitCons(x, rest, fits);
    } else {
      assert MapSeq(erase, v) == [];
    }
  }

  /** Where erasing an element does not change its encoding, erasing the elements of a vector does not either. */
  lemma {:induction false} ManyRewritten<T(!new)>(b: seq<byte>, v: seq<T>, put: (seq<byte>, T) -> seq<byte>,
                                                    erase: T -> T)
    requires forall c, x :: x in v ==> put(c, erase(x)) == put(c, x)
    ensures PutMany(b, MapSeq(erase, v), put) == PutMany(b, v, put)
    decreases |v|
  {
    if v == [] {
    } else {
      assert v[0] in v;
      ManyRewritten(put(b, v[0]), v[1..], put, erase);
      assert MapSeq(erase, v)[1..] == MapSeq(erase, v[1..]);
    }
  }

  lemma VecRewritten<T(!new)>(b: seq<byte>, v: seq<T>, put: (seq<byte>, T) -> seq<byte>, erase: T -> T)
    requires forall c, x :: x in v ==> put(c, erase(x)) == put(c, x)
    ensures PutVec(b, MapSeq(erase, v), put) == PutVec(b, v, put)
  {
    ManyRewritten(PutU32(b, |v| % TWO32), v, put, erase);
  }

  lemma VecReads<T(!new)>(b: seq<byte>, v: seq<T>, put: (seq<byte>, T) -> seq<byte>,
                          get: (seq<byte>, nat) -> Read<T>, erase: T -> T, fits: T -> bool, data: seq<byte>)
    requires PutVec(b, v, put) <= data
    requires forall x :: x in v ==> ElementReads(x, put, get, erase, fits, data)
    ensures b <= data && Reads(FitsVec(v, fits), GetVec(data, |b|, get), MapSeq(erase, v), |PutVec(b, v, put)|)
  {
    ManyReads(PutU32(b, |v| % TWO32), v, put, get, erase, fits, data);
    U32Reads(b, |v| % TWO32, data);
  }

  lemma OptionReads<T(!new)>(b: seq<byte>, o: Option<T>, put: (seq<byte>, T) -> seq<byte>,
                             get: (seq<byte>, nat) -> Read<T>, erase: T -> T, fits: T -> bool, data: seq<byte>)
    requires PutOption(b, o, put) <= data
    requires o.Some? ==> ElementReads(o.value, put, get, erase, fits, data)
    ensures b <= data && Reads(FitsOption(o, fits), GetOption(data, |b|, get), MapOption(erase, o),
            |PutOption(b, o, put)|)
  {
    BoolReads(b, o.Some?, data);
  }

  lemma ValueReads(b: seq<byte>, v: Value<Pattern>, data: seq<byte>)
    requires PutValue(b, v) <= data
    ensures b <= data && Reads(FitsValue(v), GetValue(data, |b|), v, |PutValue(b, v)|)
  {
    match v
    case NoValue => U8Reads(b, 0, data);
    case Int(i) => I64Reads(PutU8(b, 1), i, data); U8Reads(b, 1, data);
    case UInt(u) => U64Reads(PutU8(b, 2), u, data); U8Reads(b, 2, data);
    case Double(d) => U64Reads(PutU8(b, 3), d, data); U8Reads(b, 3, data);
    case Bool(x) => BoolReads(PutU8(b, 4), x, data); U8Reads(b, 4, data);
    case Str(s) => StrReads(PutU8(b, 5), s, data); U8Reads(b, 5, data);
  }

  /** A key above all present ones is assigned at the end. */
  lemma {:induction false} AssignLast(m: ReasonMap, r: Reason)
    requires forall e :: e in m ==> e.candidateId < r.candidateId
    ensures Assign(m, r) == m + [r]
    decreases |m|
  {
    if m == [] {
    } else {
      assert m[0] in m;
      AssignLast(m[1..], r);
    }
  }

  lemma AppendAscends(done: ReasonMap, e: Reason, rest: seq<Reason>)
    requires Ascending(done + ([e] + rest))
    ensures Ascending(done + [e]) && Assign(done, e) == done + [e]
  {
    var m := done + ([e] + rest);
    assert done + [e] == m[..|done| + 1];
    forall x | x in done
      ensures x.candidateId < e.candidateId
    {
      var i :| 0 <= i < |done| && done[i] == x;
      assert m[i] == x && m[|done|] == e;
    }
    AssignLast(done, e);
  }

  /** Reading entries on top of the first part of the map gives the whole map. */
  lemma {:induction false} ReasonsRead(b: seq<byte>, done: ReasonMap, rest: seq<Reason>, data: seq<byte>)
    requires Ascending(done + rest) && PutMany(b, rest, PutReason) <= data
    ensures b <= data
    ensures var r := GetReasons(data, |b|, |rest|, done);
            if AllFit(rest, FitsReason) then r == Ok((done + rest, |PutMany(b, rest, PutReason)|)) else r.Err?
    decreases |rest|
  {
    if rest == [] {
      assert done + rest == done;
    } else {
      hide Assign, AllFit;
      var e, tail := rest[0], rest[1..];
      var c := PutU64(b, e.candidateId);
      assert rest == [e] + tail;
      assert (done + [e]) + tail == done + rest;
      AppendAscends(done, e, tail);
      ReasonsRead(PutStr(c, e.text), done + [e], tail, data);
      StrReads(c, e.text, data);
      U64Reads(b, e.candidateId, data);
      AllFitCons(e, tail, FitsReason);
    }
  }

  lemma ReasonMapReads(b: seq<byte>, m: ReasonMap, data: seq<byte>)
    requires PutVec(b, m, PutReason) <= data
    ensures b <= data && Reads(FitsReasonMap(m), GetReasonMap(data, |b|), m, |PutVec(b, m, PutReason)|)
  {
    hide PutU32, GetU32, GetReasons, PutMany, AllFit, Assign, PutReason;
    var c := PutU32(b, |m| % TWO32);
    if |m| < TWO32 {
      assert [] + m == m;
      ReasonsRead(c, [], m, data);
      U32Reads(b, |m|, data);
    } else {
      PutManyExtends(c, m);
      U32Reads(b, |m| % TWO32, data);
    }
  }

  lemma {:induction false} PutManyExtends(b: seq<byte>, m: seq<Reason>)
    ensures b <= PutMany(b, m, PutReason)
    decreases |m|
  {
    if m == [] {
    } else {
      PutManyExtends(PutReason(b, m[0]), m[1..]);
      assert b <= PutReason(b, m[0]);
    }
  }
}
