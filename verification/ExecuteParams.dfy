/**
 The binary parameters of COM_STMT_EXECUTE: a NULL bitmap, a flag, optional type
 metadata, and the values of the parameters that are not NULL.
 */
module ExecuteParams {
  import opened Wire
  import Scanner

  const TYPE_TINY: byte := 0x01
  const TYPE_SHORT: byte := 0x02
  const TYPE_LONG: byte := 0x03
  const TYPE_FLOAT: byte := 0x04
  const TYPE_DOUBLE: byte := 0x05
  const TYPE_NULL: byte := 0x06
  const TYPE_LONGLONG: byte := 0x08
  const TYPE_INT24: byte := 0x09
  const TYPE_YEAR: byte := 0x0D
  const TYPE_VARCHAR: byte := 0x0F
  const TYPE_BIT: byte := 0x10
  const TYPE_VAR_STRING: byte := 0xFD
  const TYPE_STRING: byte := 0xFE
  const UNSIGNED_FLAG: byte := 0x80

  datatype ParamType = ParamType(typeCode: byte, unsigned: bool)

  /** A float is kept as its IEEE 754 bytes. */
  datatype Value = Null | Integer(i: int) | Float(bits: Bytes) | Text(bytes: Bytes)

  datatype Parameter = Parameter(paramType: ParamType, value: Value, literal: string)

  datatype StmtExecute = StmtExecute(statementId: nat, flags: byte, iterationCount: nat, payload: Bytes)

  datatype Decoded = Decoded(nullBitmap: Bytes, newParamsBound: bool, types: seq<ParamType>, parameters: seq<Parameter>)

  /** The decimal text of a float, None when it is not finite. */
  type FloatText = Bytes -> Option<string>

  ghost predicate PrintsNumbers(floatText: FloatText) {
    forall bits :: floatText(bits).Some? ==> Scanner.IsNumber(floatText(bits).value)
  }

  // ---------------------------------------------------------------------------
  // Literals
  // ---------------------------------------------------------------------------

  function Digit(d: nat): char
    requires d < 16
  {
    "0123456789abcdef"[d]
  }

  function NatText(n: nat): string {
    if n < 10 then [Digit(n)] else NatText(n / 10) + [Digit(n % 10)]
  }

  function IntText(i: int): string {
    if i < 0 then "-" + NatText(-i) else NatText(i)
  }

  function HexText(b: Bytes): string {
    if b == [] then "" else [Digit(b[0] / 16), Digit(b[0] % 16)] + HexText(b[1..])
  }

  function HexLiteral(b: Bytes): string {
    "X'" + HexText(b) + "'"
  }

  function DigitValue(c: char): (d: nat)
    requires Scanner.IsHexDigit(c)
    ensures d < 16 && Digit(d) == c
  {
    if Scanner.IsDigit(c) then c as int - '0' as int else 10 + (c as int - 'a' as int)
  }

  lemma DigitReadsBack(d: nat)
    requires d < 16
    ensures Scanner.IsHexDigit(Digit(d)) && DigitValue(Digit(d)) == d
  {
  }

  /** The number a decimal text denotes. */
  function NatValue(s: string): nat
    requires forall i :: 0 <= i < |s| ==> Scanner.IsDigit(s[i])
  {
    if s == "" then 0 else 10 * NatValue(s[..|s| - 1]) + DigitValue(s[|s| - 1])
  }

  lemma {:induction false} NatTextReadsBack(n: nat)
    ensures NatText(n) != [] && forall i :: 0 <= i < |NatText(n)| ==> Scanner.IsDigit(NatText(n)[i])
    ensures NatValue(NatText(n)) == n
  {
    if n >= 10 {
      NatTextReadsBack(n / 10);
      DigitReadsBack(n % 10);
      assert NatText(n)[..|NatText(n)| - 1] == NatText(n / 10);
    } else {
      DigitReadsBack(n);
      assert NatText(n)[..0] == "";
    }
  }

  function FromHex(s: string): Bytes
    requires AreHexPairs(s)
  {
    if s == "" then [] else [16 * DigitValue(s[0]) + DigitValue(s[1])] + FromHex(s[2..])
  }

  predicate AreHexPairs(s: string) {
    |s| % 2 == 0 && forall i :: 0 <= i < |s| ==> Scanner.IsHexDigit(s[i])
  }

  lemma HexPairReadsBack(x: byte, tail: string)
    requires AreHexPairs(tail)
    ensures var s := [Digit(x / 16), Digit(x % 16)] + tail; AreHexPairs(s) && FromHex(s) == [x] + FromHex(tail)
  {
    var s := [Digit(x / 16), Digit(x % 16)] + tail;
    DigitReadsBack(x / 16);
    DigitReadsBack(x % 16);
    assert s[2..] == tail;
    assert forall i :: 2 <= i < |s| ==> s[i] == tail[i - 2];
  }

  lemma {:induction false} HexTextReadsBack(b: Bytes)
    ensures AreHexPairs(HexText(b)) && FromHex(HexText(b)) == b
  {
    if b != [] {
      HexTextReadsBack(b[1..]);
      HexPairReadsBack(b[0], HexText(b[1..]));
      DropOne(b, 0);
    }
  }

  lemma {:induction false} DigitsArePlain(s: string)
    requires forall i :: 0 <= i < |s| ==> Scanner.IsDigit(s[i])
    ensures Scanner.IsPlain(s)
  {
    if s != [] {
      DigitsArePlain(s[1..]);
    }
  }

  lemma IntTextIsNumber(i: int)
    ensures Scanner.IsNumber(IntText(i))
  {
    var digits := NatText(if i < 0 then -i else i);
    NatTextReadsBack(if i < 0 then -i else i);
    DigitsArePlain(digits);
    assert ("-" + digits)[1..] == digits;
  }

  lemma HexLiteralIsLiteral(b: Bytes)
    ensures Scanner.IsHexLiteral(HexLiteral(b))
  {
    HexTextReadsBack(b);
  }

  // ---------------------------------------------------------------------------
  // One value
  // ---------------------------------------------------------------------------

  /** The width of an integer type, 0 for other types. */
  function IntSize(typeCode: byte): nat {
    if typeCode == TYPE_TINY then 1
    else if typeCode == TYPE_SHORT || typeCode == TYPE_YEAR then 2
    else if typeCode == TYPE_LONG || typeCode == TYPE_INT24 then 4
    else if typeCode == TYPE_LONGLONG then 8
    else 0
  }

  function FloatSize(typeCode: byte): nat {
    if typeCode == TYPE_FLOAT then 4 else if typeCode == TYPE_DOUBLE then 8 else 0
  }

  predicate IsTextType(typeCode: byte) {
    typeCode == TYPE_VARCHAR || typeCode == TYPE_VAR_STRING || typeCode == TYPE_STRING || typeCode == TYPE_BIT
  }

  /** The types the proxy agrees to inspect. */
  predicate IsInspectable(t: ParamType) {
    && (t.unsigned ==> IntSize(t.typeCode) > 0)
    && (IntSize(t.typeCode) > 0 || FloatSize(t.typeCode) > 0 || IsTextType(t.typeCode) || t.typeCode == TYPE_NULL)
  }

  function ReadLenencBytes(b: Bytes): (r: Option<(Bytes, nat)>)
    ensures r.Some? ==> r.value.1 <= |b|
  {
    var header := ReadLenenc(b);
    if header.None? then None
    else
      var (size, start) := header.value;
      if start + size > |b| then None else Some((b[start..start + size], start + size))
  }

  /** The value in front of b and how many bytes it takes. */
  function DecodeOne(floatText: FloatText, b: Bytes, t: ParamType): (r: Option<(Parameter, nat)>)
    ensures r.Some? ==> r.value.1 <= |b|
  {
    var intSize, floatSize := IntSize(t.typeCode), FloatSize(t.typeCode);
    if intSize > 0 then
      if |b| < intSize then None
      else
        var v := FromLE(b[..intSize]);
        var i := if t.unsigned then v else Signed(v, intSize);
        Some((Parameter(t, Integer(i), IntText(i)), intSize))
    else if t.unsigned then None
    else if floatSize > 0 then
      if |b| < floatSize || floatText(b[..floatSize]).None? then None
      else Some((Parameter(t, Float(b[..floatSize]), floatText(b[..floatSize]).value), floatSize))
    else if IsTextType(t.typeCode) then
      var text := ReadLenencBytes(b);
      if text.None? then None
      else Some((Parameter(t, Text(text.value.0), HexLiteral(text.value.0)), text.value.1))
    else None
  }

  lemma DecodedIsLiteral(floatText: FloatText, b: Bytes, t: ParamType)
    requires PrintsNumbers(floatText) && DecodeOne(floatText, b, t).Some?
    ensures Scanner.IsLiteral(DecodeOne(floatText, b, t).value.0.literal)
  {
    match DecodeOne(floatText, b, t).value.0.value {
      case Integer(i) => IntTextIsNumber(i);
      case Text(bytes) => HexLiteralIsLiteral(bytes);
      case Float(bits) =>
    }
  }

  /** The value read does not depend on what follows it. */
  lemma DecodeOneIsStable(floatText: FloatText, a: Bytes, b: Bytes, t: ParamType)
    requires DecodeOne(floatText, a, t).Some?
    ensures DecodeOne(floatText, a + b, t) == DecodeOne(floatText, a, t)
  {
    var n := DecodeOne(floatText, a, t).value.1;
    assert (a + b)[..n] == a[..n];
    if IntSize(t.typeCode) == 0 && FloatSize(t.typeCode) == 0 {
      LenencIsStable(a, b);
      var (size, start) := ReadLenenc(a).value;
      assert (a + b)[start..n] == a[start..n];
    }
  }

  lemma DecodeOneUsesItsBytes(floatText: FloatText, b: Bytes, t: ParamType)
    requires DecodeOne(floatText, b, t).Some?
    ensures var (p, n) := DecodeOne(floatText, b, t).value;
      DecodeOne(floatText, b[..n], t) == Some((p, n))
  {
    var n := DecodeOne(floatText, b, t).value.1;
    assert b[..n][..n] == b[..n];
    if IntSize(t.typeCode) == 0 && FloatSize(t.typeCode) == 0 {
      LenencBytesUseTheirBytes(b);
    }
  }

  lemma LenencBytesUseTheirBytes(b: Bytes)
    requires ReadLenencBytes(b).Some?
    ensures ReadLenencBytes(b[..ReadLenencBytes(b).value.1]) == ReadLenencBytes(b)
  {
    var n := ReadLenencBytes(b).value.1;
    var (size, start) := ReadLenenc(b).value;
    assert b[..n][1..start] == b[1..start];
    assert b[..n][start..n] == b[start..n];
  }

  // ---------------------------------------------------------------------------
  // The bitmap
  // ---------------------------------------------------------------------------

  function Pow2(n: nat): (p: nat)
    ensures p >= 1
  {
    if n == 0 then 1 else 2 * Pow2(n - 1)
  }

  predicate Bit(b: nat, k: nat) {
    if k == 0 then b % 2 == 1 else Bit(b / 2, k - 1)
  }

  predicate NullBit(bitmap: Bytes, i: nat)
    requires i < 8 * |bitmap|
  {
    Bit(bitmap[i / 8], i % 8)
  }

  function PackBits(bits: seq<bool>): (b: nat)
    ensures b < Pow2(|bits|)
  {
    if bits == [] then 0 else (if bits[0] then 1 else 0) + 2 * PackBits(bits[1..])
  }

  lemma {:induction false} PackedBit(bits: seq<bool>, k: nat)
    ensures Bit(PackBits(bits), k) == (k < |bits| && bits[k])
    decreases |bits| + k
  {
    if k > 0 {
      if bits == [] {
        PackedBit([], k - 1);
      } else {
        PackedBit(bits[1..], k - 1);
        assert PackBits(bits) / 2 == PackBits(bits[1..]);
      }
    }
  }

  /** A number below 2^r has no bit from r on. */
  lemma {:induction false} NoHighBit(b: nat, r: nat, k: nat)
    requires b < Pow2(r) && r <= k
    ensures !Bit(b, k)
    decreases k
  {
    if k > 0 {
      if r > 0 {
        NoHighBit(b / 2, r - 1, k - 1);
      } else {
        NoHighBit(0, 0, k - 1);
      }
    }
  }

  lemma Pow2Values()
    ensures Pow2(8) == 256 && Pow2(0) == 1
    ensures forall r :: 0 <= r <= 8 ==> Pow2(r) <= 256
  {
    assert Pow2(3) == 8 && Pow2(5) == 32;
    assert Pow2(6) == 64 && Pow2(7) == 128;
  }

  function Min(a: nat, b: nat): nat {
    if a < b then a else b
  }

  /** Bit i of the bitmap, low bits first, says whether parameter i is NULL. */
  function Bitmap(nulls: seq<bool>): (bitmap: Bytes)
    ensures |bitmap| == (|nulls| + 7) / 8
    decreases |nulls|
  {
    if nulls == [] then []
    else
      var n := Min(8, |nulls|);
      Pow2Values();
      [PackBits(nulls[..n])] + Bitmap(nulls[n..])
  }

  lemma {:induction false} BitmapBit(nulls: seq<bool>, i: nat)
    requires i < 8 * |Bitmap(nulls)|
    ensures NullBit(Bitmap(nulls), i) == (i < |nulls| && nulls[i])
    decreases |nulls|
  {
    var n := Min(8, |nulls|);
    if i < 8 {
      PackedBit(nulls[..n], i);
    } else {
      BitmapBit(nulls[n..], i - 8);
      assert Bitmap(nulls)[i / 8] == Bitmap(nulls[n..])[(i - 8) / 8];
    }
  }

  /** The check on the last byte: no bit is set from the parameter count on. */
  predicate LastByteFits(bitmap: Bytes, count: nat)
    requires bitmap != []
  {
    count % 8 == 0 || bitmap[|bitmap| - 1] < Pow2(count % 8)
  }

  lemma NoSpareBit(bitmap: Bytes, count: nat, i: nat)
    requires bitmap != [] && |bitmap| == (count + 7) / 8 && LastByteFits(bitmap, count)
    requires count <= i < 8 * |bitmap|
    ensures !NullBit(bitmap, i)
  {
    NoHighBit(bitmap[i / 8], count % 8, i % 8);
  }

  lemma SpareBitsAreClear(bitmap: Bytes, count: nat)
    requires bitmap != [] && |bitmap| == (count + 7) / 8 && LastByteFits(bitmap, count)
    ensures forall i :: count <= i < 8 * |bitmap| ==> !NullBit(bitmap, i)
  {
    forall i | count <= i < 8 * |bitmap|
      ensures !NullBit(bitmap, i)
    {
      NoSpareBit(bitmap, count, i);
    }
  }

  lemma {:induction false} BitmapFits(nulls: seq<bool>)
    requires nulls != []
    ensures LastByteFits(Bitmap(nulls), |nulls|)
    decreases |nulls|
  {
    if |nulls| > 8 {
      BitmapFits(nulls[8..]);
      assert (|nulls| - 8) % 8 == |nulls| % 8;
      var bitmap := Bitmap(nulls);
      assert bitmap[|bitmap| - 1] == Bitmap(nulls[8..])[|bitmap| - 2];
    } else {
      assert nulls[..|nulls|] == nulls;
    }
  }

  // ---------------------------------------------------------------------------
  // Type metadata
  // ---------------------------------------------------------------------------

  /** Two bytes a parameter: type code and flags; only the unsigned flag is known. */
  function ParseTypes(b: Bytes): (r: Option<seq<ParamType>>)
    requires |b| % 2 == 0
    ensures r.Some? ==> |r.value| == |b| / 2
  {
    if b == [] then Some([])
    else if b[1] != 0 && b[1] != UNSIGNED_FLAG then None
    else
      var rest := ParseTypes(b[2..]);
      if rest.None? then None else Some([ParamType(b[0], b[1] == UNSIGNED_FLAG)] + rest.value)
  }

  function TypeBytes(types: seq<ParamType>): (b: Bytes)
    ensures |b| == 2 * |types|
  {
    if types == [] then []
    else [types[0].typeCode, if types[0].unsigned then UNSIGNED_FLAG else 0] + TypeBytes(types[1..])
  }

  lemma {:induction false} TypesReadBack(types: seq<ParamType>)
    ensures ParseTypes(TypeBytes(types)) == Some(types)
  {
    if types != [] {
      TypesReadBack(types[1..]);
      assert TypeBytes(types)[2..] == TypeBytes(types[1..]);
      assert [types[0]] + types[1..] == types;
    }
  }

  lemma {:induction false} TypesWriteBack(b: Bytes)
    requires |b| % 2 == 0 && ParseTypes(b).Some?
    ensures TypeBytes(ParseTypes(b).value) == b
  {
    if b != [] {
      TypesWriteBack(b[2..]);
      assert ParseTypes(b).value[1..] == ParseTypes(b[2..]).value;
    }
  }

  // ---------------------------------------------------------------------------
  // The whole payload
  // ---------------------------------------------------------------------------

  /** NULL takes no bytes: by its bit, or by its type. */
  predicate IsNull(bitmap: Bytes, i: nat, t: ParamType)
    requires i < 8 * |bitmap|
  {
    NullBit(bitmap, i) || t.typeCode == TYPE_NULL
  }

  /** Parameters i, i + 1, ... read from b, which they use up. */
  function DecodeFrom(floatText: FloatText, bitmap: Bytes, types: seq<ParamType>, i: nat,
                      b: Bytes): (r: Option<seq<Parameter>>)
    requires i <= |types| <= 8 * |bitmap|
    ensures r.Some? ==> |r.value| == |types| - i
    decreases |types| - i
  {
    if i == |types| then
      if b == [] then Some([]) else None
    else if !IsInspectable(types[i]) then None
    else if IsNull(bitmap, i, types[i]) then
      Prepend(Parameter(types[i], Null, "NULL"), DecodeFrom(floatText, bitmap, types, i + 1, b))
    else
      var one := DecodeOne(floatText, b, types[i]);
      if one.None? then None
      else Prepend(one.value.0, DecodeFrom(floatText, bitmap, types, i + 1, b[one.value.1..]))
  }

  function Prepend(p: Parameter, rest: Option<seq<Parameter>>): (r: Option<seq<Parameter>>) {
    if rest.None? then None else Some([p] + rest.value)
  }

  predicate HasSupportedHeader(e: StmtExecute) {
    e.iterationCount == 1 && (e.flags == 0 || e.flags == 1 || e.flags == 2 || e.flags == 4)
  }

  /** The types in force: sent with this execution, or kept from an earlier one. */
  function TypesInForce(payload: Bytes, count: nat, previous: Option<seq<ParamType>>)
    : (r: Option<(seq<ParamType>, nat)>)
    requires |payload| > (count + 7) / 8
    ensures r.Some? ==> |r.value.0| == count && r.value.1 <= |payload|
  {
    var start := (count + 7) / 8 + 1;
    if payload[start - 1] == 1 then
      if start + 2 * count > |payload| then None
      else
        var types := ParseTypes(payload[start..start + 2 * count]);
        if types.None? then None else Some((types.value, start + 2 * count))
    else if payload[start - 1] == 0 && previous.Some? && |previous.value| == count then
      Some((previous.value, start))
    else None
  }

  function Decode(floatText: FloatText, e: StmtExecute, count: nat, previous: Option<seq<ParamType>>)
    : (r: Option<Decoded>)
  {
    var payload := e.payload;
    var size := (count + 7) / 8;
    if !HasSupportedHeader(e) then None
    else if count == 0 then
      if payload == [] then Some(Decoded([], false, [], [])) else None
    else if |payload| < size + 1 || !LastByteFits(payload[..size], count) then None
    else
      var inForce := TypesInForce(payload, count, previous);
      if inForce.None? then None
      else
        var (types, offset) := inForce.value;
        var parameters := DecodeFrom(floatText, payload[..size], types, 0, payload[offset..]);
        if parameters.None? then None
        else Some(Decoded(payload[..size], payload[size] == 1, types, parameters.value))
  }

  /** The source's parser, loop by loop; None where it raises. */
  method ParseStmtExecuteParameters(floatText: FloatText, e: StmtExecute, count: nat, previous: Option<seq<ParamType>>)
    returns (r: Option<Decoded>)
    ensures r == Decode(floatText, e, count, previous)
  {
    if e.iterationCount != 1 || !(e.flags == 0 || e.flags == 1 || e.flags == 2 || e.flags == 4) {
      return None;
    }
    var payload := e.payload;
    if count == 0 {
      if payload != [] {
        return None;
      }
      return Some(Decoded([], false, [], []));
    }
    var bitmapSize := (count + 7) / 8;
    if |payload| < bitmapSize + 1 {
      return None;
    }
    var nullBitmap := payload[..bitmapSize];
    if !LastByteFits(nullBitmap, count) {
      return None;
    }
    var inForce := ReadTypesInForce(payload, count, previous);
    if inForce.None? {
      return None;
    }
    var (types, offset) := inForce.value;
    var parameters := ReadParameters(floatText, nullBitmap, types, payload, offset);
    if parameters.None? {
      return None;
    }
    return Some(Decoded(nullBitmap, payload[bitmapSize] == 1, types, parameters.value));
  }

  method ReadTypesInForce(payload: Bytes, count: nat, previous: Option<seq<ParamType>>)
    returns (r: Option<(seq<ParamType>, nat)>)
    requires |payload| > (count + 7) / 8
    ensures r == TypesInForce(payload, count, previous)
  {
    var offset := (count + 7) / 8;
    var flag := payload[offset];
    offset := offset + 1;
    if flag != 0 && flag != 1 {
      return None;
    }
    if flag == 1 {
      var typesEnd := offset + 2 * count;
      if typesEnd > |payload| {
        return None;
      }
      var types := ReadTypes(payload[offset..typesEnd], count);
      return if |types| < count then None else Some((types, typesEnd));
    }
    if previous.None? || |previous.value| != count {
      return None;
    }
    return Some((previous.value, offset));
  }

  /** The parameter loop, which must end at the last byte of the payload. */
  method ReadParameters(floatText: FloatText, bitmap: Bytes, types: seq<ParamType>, payload: Bytes, start: nat)
    returns (r: Option<seq<Parameter>>)
    requires |types| <= 8 * |bitmap| && start <= |payload|
    ensures r == DecodeFrom(floatText, bitmap, types, 0, payload[start..])
  {
    var offset: nat := start;
    var parameters: seq<Parameter> := [];
    ghost var whole := DecodeFrom(floatText, bitmap, types, 0, payload[start..]);
    PrependedNothing(whole);
    for index := 0 to |types|
      invariant offset <= |payload|
      invariant whole == ReadOn(floatText, bitmap, types, index, payload, offset, parameters)
    {
      var t := types[index];
      if !IsInspectable(t) {
        return None;
      }
      DecodeNext(floatText, bitmap, types, index, payload, offset, parameters);
      if IsNull(bitmap, index, t) {
        parameters := parameters + [Parameter(t, Null, "NULL")];
      } else {
        var one := DecodeOne(floatText, payload[offset..], t);
        if one.None? {
          return None;
        }
        var (parameter, used) := one.value;
        parameters, offset := parameters + [parameter], offset + used;
      }
    }
    DecodeLast(floatText, bitmap, types, payload, offset, parameters);
    if offset != |payload| {
      return None;
    }
    return Some(parameters);
  }

  /** The end of that loop. */
  lemma DecodeLast(floatText: FloatText, bitmap: Bytes, types: seq<ParamType>, payload: Bytes, offset: nat,
                   parameters: seq<Parameter>)
    requires |types| <= 8 * |bitmap| && offset <= |payload|
    ensures ReadOn(floatText, bitmap, types, |types|, payload, offset, parameters)
         == if offset == |payload| then Some(parameters) else None
  {
    assert parameters + [] == parameters;
  }

  /** What the loop returns from a given turn on. */
  ghost function ReadOn(floatText: FloatText, bitmap: Bytes, types: seq<ParamType>, i: nat, payload: Bytes, offset: nat,
                        parameters: seq<Parameter>): Option<seq<Parameter>>
    requires i <= |types| <= 8 * |bitmap| && offset <= |payload|
  {
    PrependAll(parameters, DecodeFrom(floatText, bitmap, types, i, payload[offset..]))
  }

  /** One turn of that loop. */
  lemma DecodeNext(floatText: FloatText, bitmap: Bytes, types: seq<ParamType>, i: nat, payload: Bytes, offset: nat,
                   parameters: seq<Parameter>)
    requires i < |types| <= 8 * |bitmap| && offset <= |payload|
    ensures var read := ReadOn(floatText, bitmap, types, i, payload, offset, parameters);
      if !IsInspectable(types[i]) then read == None
      else if IsNull(bitmap, i, types[i]) then
        read == ReadOn(floatText, bitmap, types, i + 1, payload, offset,
                       parameters + [Parameter(types[i], Null, "NULL")])
      else
        var one := DecodeOne(floatText, payload[offset..], types[i]);
        if one.None? then read == None
        else read == ReadOn(floatText, bitmap, types, i + 1, payload, offset + one.value.1, parameters + [one.value.0])
  {
    if IsNull(bitmap, i, types[i]) {
      PrependedTwice(parameters, Parameter(types[i], Null, "NULL"),
                     DecodeFrom(floatText, bitmap, types, i + 1, payload[offset..]));
    } else {
      var one := DecodeOne(floatText, payload[offset..], types[i]);
      if one.Some? {
        assert payload[offset..][one.value.1..] == payload[offset + one.value.1..];
        PrependedTwice(parameters, one.value.0,
                       DecodeFrom(floatText, bitmap, types, i + 1, payload[offset + one.value.1..]));
      }
    }
  }

  lemma PrependedNothing(rest: Option<seq<Parameter>>)
    ensures PrependAll([], rest) == rest
  {
    if rest.Some? {
      assert [] + rest.value == rest.value;
    }
  }

  function PrependAll(ps: seq<Parameter>, rest: Option<seq<Parameter>>): (r: Option<seq<Parameter>>) {
    if rest.None? then None else Some(ps + rest.value)
  }

  lemma PrependedTwice(ps: seq<Parameter>, p: Parameter, rest: Option<seq<Parameter>>)
    ensures PrependAll(ps, Prepend(p, rest)) == PrependAll(ps + [p], rest)
  {
    if rest.Some? {
      assert ps + ([p] + rest.value) == (ps + [p]) + rest.value;
    }
  }

  /** The type loop; a shorter result marks an unsupported flag. */
  method ReadTypes(b: Bytes, count: nat) returns (types: seq<ParamType>)
    requires |b| == 2 * count
    ensures if ParseTypes(b).Some? then types == ParseTypes(b).value else |types| < count
  {
    types := [];
    assert b[0..] == b && ParseTypes(b).Some? ==> [] + ParseTypes(b).value == ParseTypes(b).value;
    for index := 0 to count
      invariant |types| == index
      invariant var rest := ParseTypes(b[2 * index..]);
        ParseTypes(b) == if rest.None? then None else Some(types + rest.value)
    {
      var rest := b[2 * index..];
      if rest[1] != 0 && rest[1] != UNSIGNED_FLAG {
        return;
      }
      ghost var tail := ParseTypes(rest[2..]);
      assert rest[2..] == b[2 * (index + 1)..];
      var t := ParamType(b[2 * index], b[2 * index + 1] == UNSIGNED_FLAG);
      if tail.Some? {
        assert types + ([t] + tail.value) == (types + [t]) + tail.value;
      }
      types := types + [t];
    }
    assert types + [] == types;
  }

  // ---------------------------------------------------------------------------
  // What an accepted payload looks like
  // ---------------------------------------------------------------------------

  /** The bytes of parameter i: none for NULL, otherwise exactly the encoding of its value. */
  predicate IsChunk(floatText: FloatText, bitmap: Bytes, i: nat, p: Parameter, chunk: Bytes)
    requires i < 8 * |bitmap|
  {
    && IsInspectable(p.paramType)
    && if IsNull(bitmap, i, p.paramType) then chunk == [] && p == Parameter(p.paramType, Null, "NULL")
       else DecodeOne(floatText, chunk, p.paramType) == Some((p, |chunk|))
  }

  predicate AreChunks(floatText: FloatText, bitmap: Bytes, i: nat, ps: seq<Parameter>, chunks: seq<Bytes>)
    requires i + |ps| <= 8 * |bitmap|
    decreases |ps|
  {
    && |chunks| == |ps|
    && (ps == []
        || (IsChunk(floatText, bitmap, i, ps[0], chunks[0])
            && AreChunks(floatText, bitmap, i + 1, ps[1..], chunks[1..])))
  }

  function TypesOf(ps: seq<Parameter>): (types: seq<ParamType>)
    ensures |types| == |ps|
  {
    if ps == [] then [] else [ps[0].paramType] + TypesOf(ps[1..])
  }

  /** Bitmap, flag, types if they are sent, and the values one after another: nothing else. */
  predicate IsLayout(floatText: FloatText, payload: Bytes, count: nat, previous: Option<seq<ParamType>>, d: Decoded,
                     chunks: seq<Bytes>) {
    && |d.parameters| == count > 0
    && d.types == TypesOf(d.parameters)
    && |d.nullBitmap| == (count + 7) / 8
    && LastByteFits(d.nullBitmap, count)
    && (!d.newParamsBound ==> previous == Some(d.types))
    && AreChunks(floatText, d.nullBitmap, 0, d.parameters, chunks)
    && payload == d.nullBitmap + Metadata(d.newParamsBound, d.types) + Flatten(chunks)
  }

  function Metadata(newParamsBound: bool, types: seq<ParamType>): Bytes {
    if newParamsBound then [1] + TypeBytes(types) else [0]
  }

  /** The first parameter read, and its share of the bytes. */
  lemma FirstChunk(floatText: FloatText, bitmap: Bytes, types: seq<ParamType>, i: nat,
                   b: Bytes) returns (p: Parameter, used: nat)
    requires i < |types| <= 8 * |bitmap|
    requires DecodeFrom(floatText, bitmap, types, i, b).Some?
    ensures used <= |b| && p.paramType == types[i] && IsChunk(floatText, bitmap, i, p, b[..used])
    ensures DecodeFrom(floatText, bitmap, types, i, b)
         == Prepend(p, DecodeFrom(floatText, bitmap, types, i + 1, b[used..]))
  {
    if IsNull(bitmap, i, types[i]) {
      p, used := Parameter(types[i], Null, "NULL"), 0;
      assert b[0..] == b;
    } else {
      p, used := DecodeOne(floatText, b, types[i]).value.0, DecodeOne(floatText, b, types[i]).value.1;
      DecodeOneUsesItsBytes(floatText, b, types[i]);
    }
  }

  lemma FirstAndTail(floatText: FloatText, bitmap: Bytes, types: seq<ParamType>, i: nat, b: Bytes, ps: seq<Parameter>)
    returns (p: Parameter, used: nat, tail: seq<Parameter>)
    requires i < |types| <= 8 * |bitmap| && DecodeFrom(floatText, bitmap, types, i, b) == Some(ps)
    ensures used <= |b| && ps == [p] + tail && i + |ps| <= 8 * |bitmap| && IsChunk(floatText, bitmap, i, p, b[..used])
    ensures DecodeFrom(floatText, bitmap, types, i + 1, b[used..]) == Some(tail)
  {
    p, used := FirstChunk(floatText, bitmap, types, i, b);
    tail := DecodeFrom(floatText, bitmap, types, i + 1, b[used..]).value;
  }

  lemma {:induction false} ValuesHaveChunks(floatText: FloatText, bitmap: Bytes, types: seq<ParamType>, i: nat,
                                            b: Bytes, ps: seq<Parameter>)
    returns (chunks: seq<Bytes>)
    requires i <= |types| <= 8 * |bitmap|
    requires DecodeFrom(floatText, bitmap, types, i, b) == Some(ps)
    ensures i + |ps| <= 8 * |bitmap| && AreChunks(floatText, bitmap, i, ps, chunks) && Flatten(chunks) == b
    decreases |types| - i
  {
    if i == |types| {
      chunks := [];
    } else {
      var p, used, tail := FirstAndTail(floatText, bitmap, types, i, b, ps);
      var rest := ValuesHaveChunks(floatText, bitmap, types, i + 1, b[used..], tail);
      ConsShare(floatText, bitmap, i, p, tail, b, used, rest);
      chunks := [b[..used]] + rest;
    }
  }

  lemma ConsShare(floatText: FloatText, bitmap: Bytes, i: nat, p: Parameter, ps: seq<Parameter>, b: Bytes, used: nat,
                  chunks: seq<Bytes>)
    requires i + 1 + |ps| <= 8 * |bitmap| && used <= |b|
    requires IsChunk(floatText, bitmap, i, p, b[..used]) && AreChunks(floatText, bitmap, i + 1, ps, chunks)
    requires Flatten(chunks) == b[used..]
    ensures AreChunks(floatText, bitmap, i, [p] + ps, [b[..used]] + chunks) && Flatten([b[..used]] + chunks) == b
  {
    ConsChunk(floatText, bitmap, i, p, ps, b[..used], chunks);
    TakeDrop(b, used);
  }

  lemma {:induction false} ValuesHaveTypes(floatText: FloatText, bitmap: Bytes, types: seq<ParamType>, i: nat, b: Bytes)
    requires i <= |types| <= 8 * |bitmap|
    requires DecodeFrom(floatText, bitmap, types, i, b).Some?
    ensures TypesOf(DecodeFrom(floatText, bitmap, types, i, b).value) == types[i..]
    decreases |types| - i
  {
    if i < |types| {
      var p, used := FirstChunk(floatText, bitmap, types, i, b);
      ValuesHaveTypes(floatText, bitmap, types, i + 1, b[used..]);
      var rest := DecodeFrom(floatText, bitmap, types, i + 1, b[used..]).value;
      assert ([p] + rest)[1..] == rest;
      DropOne(types, i);
    }
  }

  lemma ConsChunk(floatText: FloatText, bitmap: Bytes, i: nat, p: Parameter, ps: seq<Parameter>, chunk: Bytes,
                  chunks: seq<Bytes>)
    requires i + 1 + |ps| <= 8 * |bitmap|
    requires IsChunk(floatText, bitmap, i, p, chunk) && AreChunks(floatText, bitmap, i + 1, ps, chunks)
    ensures AreChunks(floatText, bitmap, i, [p] + ps, [chunk] + chunks)
    ensures Flatten([chunk] + chunks) == chunk + Flatten(chunks)
  {
    assert ([p] + ps)[1..] == ps && ([chunk] + chunks)[1..] == chunks;
  }

  lemma {:induction false} ChunksAreRead(floatText: FloatText, bitmap: Bytes, types: seq<ParamType>, i: nat,
                                         ps: seq<Parameter>, chunks: seq<Bytes>)
    requires i <= |types| <= 8 * |bitmap| && TypesOf(ps) == types[i..]
    requires AreChunks(floatText, bitmap, i, ps, chunks)
    ensures DecodeFrom(floatText, bitmap, types, i, Flatten(chunks)) == Some(ps)
    decreases |ps|
  {
    if ps != [] {
      assert types[i] == types[i..][0] == ps[0].paramType;
      assert types[i + 1..] == types[i..][1..] == TypesOf(ps[1..]);
      ChunksAreRead(floatText, bitmap, types, i + 1, ps[1..], chunks[1..]);
      var rest := Flatten(chunks[1..]);
      assert [ps[0]] + ps[1..] == ps;
      if IsNull(bitmap, i, types[i]) {
        assert [] + rest == rest;
      } else {
        DecodeOneIsStable(floatText, chunks[0], rest, types[i]);
        assert (chunks[0] + rest)[|chunks[0]|..] == rest;
      }
    }
  }

  lemma CutThree(a: Bytes, b: Bytes, c: Bytes)
    ensures var all := a + b + c;
      all[..|a|] == a && all[|a|..|a| + |b|] == b && all[|a| + |b|..] == c
  {
  }

  lemma MetadataIsRead(bitmap: Bytes, newParamsBound: bool, types: seq<ParamType>, body: Bytes,
                       previous: Option<seq<ParamType>>)
    requires |bitmap| == (|types| + 7) / 8 && (!newParamsBound ==> previous == Some(types))
    ensures var payload := bitmap + Metadata(newParamsBound, types) + body;
      && (payload[|bitmap|] == 1 <==> newParamsBound)
      && TypesInForce(payload, |types|, previous) == Some((types, |bitmap| + |Metadata(newParamsBound, types)|))
  {
    var metadata := Metadata(newParamsBound, types);
    var payload := bitmap + metadata + body;
    CutThree(bitmap, metadata, body);
    assert payload[|bitmap|] == payload[|bitmap|..|bitmap| + |metadata|][0] == metadata[0];
    if newParamsBound {
      assert payload[|bitmap| + 1..|bitmap| + |metadata|] == metadata[1..] == TypeBytes(types);
      TypesReadBack(types);
    }
  }

  lemma MetadataWasSent(payload: Bytes, count: nat, previous: Option<seq<ParamType>>)
    requires |payload| > (count + 7) / 8 && TypesInForce(payload, count, previous).Some?
    ensures var (types, offset) := TypesInForce(payload, count, previous).value;
      var size := (count + 7) / 8;
      && size < offset && payload[size..offset] == Metadata(payload[size] == 1, types)
      && (payload[size] != 1 ==> previous == Some(types))
  {
    var (types, offset) := TypesInForce(payload, count, previous).value;
    var size := (count + 7) / 8;
    SplitHead(payload, size, offset);
    if payload[size] == 1 {
      TypesWriteBack(payload[size + 1..offset]);
    }
  }

  /** Every accepted payload is laid out like that, to its last byte. */
  lemma AcceptedHasLayout(floatText: FloatText, e: StmtExecute, count: nat,
                          previous: Option<seq<ParamType>>) returns (chunks: seq<Bytes>)
    requires count > 0 && Decode(floatText, e, count, previous).Some?
    ensures HasSupportedHeader(e)
    ensures IsLayout(floatText, e.payload, count, previous, Decode(floatText, e, count, previous).value, chunks)
    ensures var bitmap := Decode(floatText, e, count, previous).value.nullBitmap;
      forall i :: count <= i < 8 * |bitmap| ==> !NullBit(bitmap, i)
  {
    SpareBitsAreClear(e.payload[..(count + 7) / 8], count);
    var payload, size := e.payload, (count + 7) / 8;
    var (types, offset) := TypesInForce(payload, count, previous).value;
    MetadataWasSent(payload, count, previous);
    var ps := Decode(floatText, e, count, previous).value.parameters;
    chunks := ValuesHaveChunks(floatText, payload[..size], types, 0, payload[offset..], ps);
    ValuesHaveTypes(floatText, payload[..size], types, 0, payload[offset..]);
    assert types[0..] == types;
    JoinThree(payload, size, offset);
  }

  lemma JoinThree(b: Bytes, i: nat, j: nat)
    requires i <= j <= |b|
    ensures b == b[..i] + b[i..j] + b[j..]
  {
  }

  /** And everything laid out like that is accepted, with that result. */
  lemma LayoutIsAccepted(floatText: FloatText, e: StmtExecute, count: nat, previous: Option<seq<ParamType>>,
                         d: Decoded, chunks: seq<Bytes>)
    requires HasSupportedHeader(e) && IsLayout(floatText, e.payload, count, previous, d, chunks)
    ensures Decode(floatText, e, count, previous) == Some(d)
  {
    MetadataIsRead(d.nullBitmap, d.newParamsBound, d.types, Flatten(chunks), previous);
    CutThree(d.nullBitmap, Metadata(d.newParamsBound, d.types), Flatten(chunks));
    assert d.types[0..] == d.types;
    ChunksAreRead(floatText, d.nullBitmap, d.types, 0, d.parameters, chunks);
  }

  // ---------------------------------------------------------------------------
  // Decoding inverts encoding
  // ---------------------------------------------------------------------------

  /** The values a client can send for a type. */
  predicate IsEncodable(floatText: FloatText, t: ParamType, v: Value) {
    && IsInspectable(t)
    && match v
       case Null => true
       case Integer(i) =>
         var size := IntSize(t.typeCode);
         size > 0 && if t.unsigned then 0 <= i < Pow256(size) else 0 <= 2 * i + Pow256(size) && 2 * i < Pow256(size)
       case Float(bits) => IntSize(t.typeCode) == 0 && |bits| == FloatSize(t.typeCode) > 0 && floatText(bits).Some?
       case Text(bytes) => IsTextType(t.typeCode) && |bytes| < 0x1_0000_0000_0000_0000
  }

  function EncodeValue(floatText: FloatText, t: ParamType, v: Value): Bytes
    requires IsEncodable(floatText, t, v)
  {
    match v
    case Null => []
    case Integer(i) =>
      var size := IntSize(t.typeCode);
      ToLE(if t.unsigned then i else Unsigned(i, size), size)
    case Float(bits) => bits
    case Text(bytes) => WriteLenenc(|bytes|) + bytes
  }

  function LiteralOf(floatText: FloatText, v: Value): string
    requires v.Float? ==> floatText(v.bits).Some?
  {
    match v
    case Null => "NULL"
    case Integer(i) => IntText(i)
    case Float(bits) => floatText(bits).value
    case Text(bytes) => HexLiteral(bytes)
  }

  datatype Bound = Bound(paramType: ParamType, value: Value)

  predicate AreEncodable(floatText: FloatText, bound: seq<Bound>) {
    forall i :: 0 <= i < |bound| ==> IsEncodable(floatText, bound[i].paramType, bound[i].value)
  }

  function ParametersOf(floatText: FloatText, bound: seq<Bound>): (ps: seq<Parameter>)
    requires AreEncodable(floatText, bound)
    ensures |ps| == |bound|
    ensures forall i :: 0 <= i < |ps| ==> ps[i].paramType == bound[i].paramType && ps[i].value == bound[i].value
  {
    seq(|bound|, i requires 0 <= i < |bound| =>
      Parameter(bound[i].paramType, bound[i].value, LiteralOf(floatText, bound[i].value)))
  }

  function ChunksOf(floatText: FloatText, bound: seq<Bound>): (chunks: seq<Bytes>)
    requires AreEncodable(floatText, bound)
    ensures |chunks| == |bound|
  {
    seq(|bound|, i requires 0 <= i < |bound| => EncodeValue(floatText, bound[i].paramType, bound[i].value))
  }

  function NullsOf(bound: seq<Bound>): (nulls: seq<bool>)
    ensures |nulls| == |bound|
  {
    seq(|bound|, i requires 0 <= i < |bound| => bound[i].value.Null?)
  }

  /** The payload a client sends for some bound values, with their types or without. */
  function Encode(floatText: FloatText, bound: seq<Bound>, sendTypes: bool): Bytes
    requires AreEncodable(floatText, bound)
  {
    if bound == [] then []
    else
      Bitmap(NullsOf(bound)) + Metadata(sendTypes, TypesOf(ParametersOf(floatText, bound)))
        + Flatten(ChunksOf(floatText, bound))
  }

  lemma EncodedValueIsRead(floatText: FloatText, t: ParamType, v: Value)
    requires IsEncodable(floatText, t, v) && !v.Null?
    ensures var b := EncodeValue(floatText, t, v);
      DecodeOne(floatText, b, t) == Some((Parameter(t, v, LiteralOf(floatText, v)), |b|))
  {
    var b := EncodeValue(floatText, t, v);
    match v {
      case Integer(i) =>
        assert b[..IntSize(t.typeCode)] == b;
      case Float(bits) =>
        assert b[..FloatSize(t.typeCode)] == b;
      case Text(bytes) => WrittenBytesAreRead(bytes);
    }
  }

  lemma WrittenBytesAreRead(bytes: Bytes)
    requires |bytes| < 0x1_0000_0000_0000_0000
    ensures var b := WriteLenenc(|bytes|) + bytes; ReadLenencBytes(b) == Some((bytes, |b|))
  {
    var head := WriteLenenc(|bytes|);
    LenencReadsBack(|bytes|, bytes);
    assert (head + bytes)[|head|..|head + bytes|] == bytes;
  }

  lemma {:induction false} EncodedAreChunks(floatText: FloatText, bitmap: Bytes, bound: seq<Bound>, i: nat)
    requires AreEncodable(floatText, bound) && i <= |bound| <= 8 * |bitmap|
    requires forall k :: 0 <= k < |bound| ==> NullBit(bitmap, k) == bound[k].value.Null?
    ensures AreChunks(floatText, bitmap, i, ParametersOf(floatText, bound)[i..], ChunksOf(floatText, bound)[i..])
    decreases |bound| - i
  {
    if i < |bound| {
      var (t, v) := (bound[i].paramType, bound[i].value);
      var ps, chunks := ParametersOf(floatText, bound)[i..], ChunksOf(floatText, bound)[i..];
      assert NullBit(bitmap, i) == v.Null?;
      if !v.Null? {
        EncodedValueIsRead(floatText, t, v);
      }
      assert IsChunk(floatText, bitmap, i, ps[0], chunks[0]);
      EncodedAreChunks(floatText, bitmap, bound, i + 1);
      DropOne(ParametersOf(floatText, bound), i);
      DropOne(ChunksOf(floatText, bound), i);
      assert ps[1..] == ParametersOf(floatText, bound)[i + 1..] && chunks[1..] == ChunksOf(floatText, bound)[i + 1..];
    }
  }

  /** For every number of parameters, NULL pattern and supported types, decoding returns what was encoded. */
  lemma DecodeInvertsEncode(floatText: FloatText, bound: seq<Bound>, sendTypes: bool, e: StmtExecute,
                            previous: Option<seq<ParamType>>)
    requires AreEncodable(floatText, bound) && HasSupportedHeader(e)
    requires e.payload == Encode(floatText, bound, sendTypes)
    requires !sendTypes ==> previous == Some(TypesOf(ParametersOf(floatText, bound)))
    ensures var d := Decode(floatText, e, |bound|, previous);
      d.Some? && d.value.parameters == ParametersOf(floatText, bound)
  {
    if bound != [] {
      var ps, chunks := ParametersOf(floatText, bound), ChunksOf(floatText, bound);
      var nulls := NullsOf(bound);
      var bitmap := Bitmap(nulls);
      forall k | 0 <= k < |bound|
        ensures NullBit(bitmap, k) == bound[k].value.Null?
      {
        BitmapBit(nulls, k);
      }
      BitmapFits(nulls);
      EncodedAreChunks(floatText, bitmap, bound, 0);
      assert ps[0..] == ps && chunks[0..] == chunks;
      LayoutIsAccepted(floatText, e, |bound|, previous, Decoded(bitmap, sendTypes, TypesOf(ps), ps), chunks);
    }
  }

  /** Reusing kept types reads the same parameters, or refuses alike, as sending those types again. */
  lemma CachedTypesAreEquivalent(floatText: FloatText, e: StmtExecute, bitmap: Bytes, types: seq<ParamType>,
                                 body: Bytes, previous: Option<seq<ParamType>>)
    requires |types| > 0 && |bitmap| == (|types| + 7) / 8
    ensures var reused := e.(payload := bitmap + Metadata(false, types) + body);
      var resent := e.(payload := bitmap + Metadata(true, types) + body);
      var a := Decode(floatText, reused, |types|, Some(types));
      var b := Decode(floatText, resent, |types|, previous);
      a.None? == b.None? && (a.Some? ==> a.value.(newParamsBound := true) == b.value)
  {
    MetadataIsRead(bitmap, false, types, body, Some(types));
    MetadataIsRead(bitmap, true, types, body, previous);
    CutThree(bitmap, Metadata(false, types), body);
    CutThree(bitmap, Metadata(true, types), body);
  }

  lemma ChunkIsLiteral(floatText: FloatText, bitmap: Bytes, i: nat, p: Parameter, chunk: Bytes)
    requires PrintsNumbers(floatText) && i < 8 * |bitmap| && IsChunk(floatText, bitmap, i, p, chunk)
    ensures Scanner.IsLiteral(p.literal)
  {
    if !IsNull(bitmap, i, p.paramType) {
      DecodedIsLiteral(floatText, chunk, p.paramType);
    }
  }

  lemma ConsLiteral(p: Parameter, ps: seq<Parameter>)
    requires Scanner.IsLiteral(p.literal) && Scanner.AllLiterals(Literals(ps))
    ensures Scanner.AllLiterals(Literals([p] + ps))
  {
    assert Literals([p] + ps) == [p.literal] + Literals(ps);
  }

  lemma {:induction false} ChunksAreLiterals(floatText: FloatText, bitmap: Bytes, i: nat, ps: seq<Parameter>,
                                             chunks: seq<Bytes>)
    requires PrintsNumbers(floatText) && i + |ps| <= 8 * |bitmap| && AreChunks(floatText, bitmap, i, ps, chunks)
    ensures Scanner.AllLiterals(Literals(ps))
    decreases |ps|
  {
    if ps != [] {
      ChunkIsLiteral(floatText, bitmap, i, ps[0], chunks[0]);
      ChunksAreLiterals(floatText, bitmap, i + 1, ps[1..], chunks[1..]);
      ConsLiteral(ps[0], ps[1..]);
      DropOne(ps, 0);
    }
  }

  /** Every literal the decoder produces has one of the shapes the scanner knows. */
  lemma DecodedAreLiterals(floatText: FloatText, bitmap: Bytes, types: seq<ParamType>, i: nat, b: Bytes)
    requires PrintsNumbers(floatText) && i <= |types| <= 8 * |bitmap|
    requires DecodeFrom(floatText, bitmap, types, i, b).Some?
    ensures Scanner.AllLiterals(Literals(DecodeFrom(floatText, bitmap, types, i, b).value))
  {
    var ps := DecodeFrom(floatText, bitmap, types, i, b).value;
    var chunks := ValuesHaveChunks(floatText, bitmap, types, i, b, ps);
    ChunksAreLiterals(floatText, bitmap, i, ps, chunks);
  }

  function Literals(ps: seq<Parameter>): (literals: seq<string>)
    ensures |literals| == |ps|
  {
    seq(|ps|, i requires 0 <= i < |ps| => ps[i].literal)
  }

  /** The inspected SQL of any accepted execution contains no placeholder and scans as itself. */
  lemma InspectedSqlIsStable(floatText: FloatText, e: StmtExecute, count: nat, previous: Option<seq<ParamType>>,
                             template: string)
    requires PrintsNumbers(floatText) && Decode(floatText, e, count, previous).Some?
    requires Scanner.Fill(template, Scanner.Sql, Literals(Decode(floatText, e, count, previous).value.parameters)).Some?
    ensures var literals := Literals(Decode(floatText, e, count, previous).value.parameters);
      var sql := Scanner.Fill(template, Scanner.Sql, literals).value;
      Scanner.Fill(sql, Scanner.Sql, []) == Some(sql)
  {
    var d := Decode(floatText, e, count, previous).value;
    if count > 0 {
      var (types, offset) := TypesInForce(e.payload, count, previous).value;
      DecodedAreLiterals(floatText, d.nullBitmap, types, 0, e.payload[offset..]);
    }
    Scanner.RescanIsIdentity(template, Literals(d.parameters));
  }
}
