/**
 The frontend messages of the PostgreSQL extended-query protocol (section 55.7 of the
 PostgreSQL 16 documentation), read strictly. A reader returns what it read and the bytes
 after it, and is shown to accept exactly what the matching writer writes.
 */
module PgMessages {
  import opened Wire
  import Utf8

  /** What was read, and the bytes after it. */
  datatype Reading<+T> = Truncated | Read(value: T, rest: Bytes)

  // ---------------------------------------------------------------------------
  // Strings
  // ---------------------------------------------------------------------------

  /** The position of the first zero byte, or the length when there is none. */
  function FindZero(b: Bytes): (i: nat)
    ensures i <= |b| && (i < |b| ==> b[i] == 0)
    ensures forall j :: 0 <= j < i ==> b[j] != 0
  {
    if b == [] || b[0] == 0 then 0 else 1 + FindZero(b[1..])
  }

  function ReadCString(b: Bytes): Reading<string> {
    var end := FindZero(b);
    if end == |b| then Truncated
    else
      var text := Utf8.Decode(b[..end]);
      if text.None? then Truncated else Read(text.value, b[end + 1..])
  }

  /** Text that can be sent NUL-terminated. */
  predicate IsName(s: string) {
    0 as char !in s
  }

  function CString(s: string): Bytes {
    Utf8.Encode(s) + [0]
  }

  lemma ZeroAfter(b: Bytes, rest: Bytes)
    requires 0 !in b
    ensures FindZero(b + ([0] + rest)) == |b|
  {
    var all := b + ([0] + rest);
    assert all[|b|] == 0;
    assert forall j :: 0 <= j < |b| ==> all[j] == b[j] && b[j] != 0;
  }

  lemma JoinZero(b: Bytes, rest: Bytes)
    ensures (b + [0]) + rest == b + ([0] + rest)
    ensures var all := b + ([0] + rest); all[..|b|] == b && all[|b| + 1..] == rest
  {
    var all := b + ([0] + rest);
    assert all[|b| + 1..] == rest;
  }

  lemma CStringReads(s: string, rest: Bytes)
    requires IsName(s)
    ensures ReadCString(CString(s) + rest) == Read(s, rest)
  {
    Utf8.EncodeKeepsNul(s);
    Utf8.DecodeEncode(s);
    ZeroAfter(Utf8.Encode(s), rest);
    JoinZero(Utf8.Encode(s), rest);
  }

  lemma CStringWasWritten(b: Bytes)
    requires ReadCString(b).Read?
    ensures var r := ReadCString(b); IsName(r.value) && b == CString(r.value) + r.rest
  {
    var end, r := FindZero(b), ReadCString(b);
    Utf8.EncodeDecode(b[..end]);
    Utf8.EncodeKeepsNul(r.value);
    TakeDrop(b, end);
    DropOne(b, end);
    JoinZero(b[..end], r.rest);
  }

  lemma CStringIsExact(b: Bytes, s: string, rest: Bytes)
    ensures ReadCString(b) == Read(s, rest) <==> IsName(s) && b == CString(s) + rest
  {
    if ReadCString(b).Read? {
      CStringWasWritten(b);
    }
    if IsName(s) {
      CStringReads(s, rest);
    }
  }

  // ---------------------------------------------------------------------------
  // Integers
  // ---------------------------------------------------------------------------

  /** A signed big-endian integer of n bytes. */
  function ReadInt(b: Bytes, n: nat): Reading<int> {
    if |b| < n then Truncated else Read(Signed(FromBE(b[..n]), n), b[n..])
  }

  predicate FitsInt(i: int, n: nat) {
    0 <= 2 * i + Pow256(n) && 2 * i < Pow256(n)
  }

  function WriteInt(i: int, n: nat): (b: Bytes)
    requires FitsInt(i, n)
    ensures |b| == n
  {
    ToBE(Unsigned(i, n), n)
  }

  lemma UnsignedInverts(v: nat, n: nat)
    requires v < Pow256(n)
    ensures FitsInt(Signed(v, n), n) && Unsigned(Signed(v, n), n) == v
  {
  }

  lemma IntIsExact(b: Bytes, n: nat, i: int, rest: Bytes)
    ensures ReadInt(b, n) == Read(i, rest) <==> FitsInt(i, n) && b == WriteInt(i, n) + rest
  {
    if |b| >= n {
      UnsignedInverts(FromBE(b[..n]), n);
      ToBEInverts(b[..n]);
      TakeDrop(b, n);
    }
    if FitsInt(i, n) {
      assert (WriteInt(i, n) + rest)[..n] == WriteInt(i, n) && (WriteInt(i, n) + rest)[n..] == rest;
    }
  }

  /** A count: a 16-bit integer that is not negative. */
  function ReadCount(b: Bytes): Reading<nat> {
    var r := ReadInt(b, 2);
    if r.Truncated? || r.value < 0 then Truncated else Read(r.value, r.rest)
  }

  predicate IsCount(n: int) {
    0 <= n < 0x8000
  }

  function WriteCount(n: nat): (b: Bytes)
    requires IsCount(n)
    ensures |b| == 2
  {
    Pow256Values();
    WriteInt(n, 2)
  }

  lemma CountIsExact(b: Bytes, n: nat, rest: Bytes)
    ensures ReadCount(b) == Read(n, rest) <==> IsCount(n) && b == WriteCount(n) + rest
  {
    Pow256Values();
    IntIsExact(b, 2, n, rest);
  }

  /** A fixed number of bytes. */
  function ReadBytes(b: Bytes, n: nat): Reading<Bytes> {
    if |b| < n then Truncated else Read(b[..n], b[n..])
  }

  lemma BytesAreExact(b: Bytes, n: nat, bytes: Bytes, rest: Bytes)
    ensures ReadBytes(b, n) == Read(bytes, rest) <==> |bytes| == n && b == bytes + rest
  {
    if |b| >= n {
      TakeDrop(b, n);
    }
  }

  // ---------------------------------------------------------------------------
  // Parse
  // ---------------------------------------------------------------------------

  datatype ParseMessage = ParseMessage(statementName: string, query: string)

  function ParseParse(b: Bytes): Option<ParseMessage> {
    var name := ReadCString(b);
    if name.Truncated? then None
    else
      var query := ReadCString(name.rest);
      if query.Truncated? then None
      else
        var count := ReadCount(query.rest);
        if count.Truncated? || |count.rest| != 4 * count.value then None
        else Some(ParseMessage(name.value, query.value))
  }

  /** oids: four bytes for each parameter type the client names. */
  predicate IsParse(m: ParseMessage, oids: Bytes) {
    IsName(m.statementName) && IsName(m.query) && |oids| % 4 == 0 && IsCount(|oids| / 4)
  }

  function WriteParse(m: ParseMessage, oids: Bytes): Bytes
    requires IsParse(m, oids)
  {
    CString(m.statementName) + (CString(m.query) + (WriteCount(|oids| / 4) + oids))
  }

  lemma ParseReads(m: ParseMessage, oids: Bytes)
    requires IsParse(m, oids)
    ensures ParseParse(WriteParse(m, oids)) == Some(m)
  {
    var tail := WriteCount(|oids| / 4) + oids;
    CStringReads(m.statementName, CString(m.query) + tail);
    CStringReads(m.query, tail);
    CountIsExact(tail, |oids| / 4, oids);
  }

  lemma ParseWasWritten(b: Bytes) returns (oids: Bytes)
    requires ParseParse(b).Some?
    ensures var m := ParseParse(b).value; IsParse(m, oids) && b == WriteParse(m, oids)
  {
    var name := ReadCString(b);
    var query := ReadCString(name.rest);
    var count := ReadCount(query.rest);
    oids := count.rest;
    CStringWasWritten(b);
    CStringWasWritten(name.rest);
    CountIsExact(query.rest, count.value, count.rest);
    QuarterOf(count.value, |oids|);
  }

  lemma QuarterOf(n: nat, length: nat)
    requires length == 4 * n
    ensures length % 4 == 0 && length / 4 == n
  {
  }

  /** Accepted exactly when written: no trailing bytes, nothing left out. */
  lemma ParseIsExact(b: Bytes, m: ParseMessage)
    ensures ParseParse(b) == Some(m) <==> exists oids :: IsParse(m, oids) && b == WriteParse(m, oids)
  {
    if ParseParse(b) == Some(m) {
      var oids := ParseWasWritten(b);
      assert IsParse(m, oids) && b == WriteParse(m, oids);
    }
    forall oids | IsParse(m, oids) && b == WriteParse(m, oids)
      ensures ParseParse(b) == Some(m)
    {
      ParseReads(m, oids);
    }
  }

  // ---------------------------------------------------------------------------
  // Bind
  // ---------------------------------------------------------------------------

  datatype BindMessage = BindMessage(
    portalName: string, statementName: string,
    values: seq<Option<Bytes>>, formatCodes: seq<int>, resultCodes: seq<int>)

  predicate IsCode(code: int) {
    code == 0 || code == 1
  }

  predicate AreCodes(codes: seq<int>) {
    forall i :: 0 <= i < |codes| ==> IsCode(codes[i])
  }

  /** n format codes. */
  function ReadCodes(b: Bytes, n: nat): Reading<seq<int>> {
    if n == 0 then Read([], b)
    else
      var code := ReadInt(b, 2);
      if code.Truncated? || !IsCode(code.value) then Truncated
      else
        var others := ReadCodes(code.rest, n - 1);
        if others.Truncated? then Truncated else Read([code.value] + others.value, others.rest)
  }

  function WriteCodes(codes: seq<int>): (b: Bytes)
    requires AreCodes(codes)
    ensures |b| == 2 * |codes|
  {
    if codes == [] then []
    else
      Pow256Values();
      assert IsCode(codes[0]) && AreCodes(codes[1..]);
      WriteInt(codes[0], 2) + WriteCodes(codes[1..])
  }

  lemma {:induction false} CodesRead(codes: seq<int>, rest: Bytes)
    requires AreCodes(codes)
    ensures ReadCodes(WriteCodes(codes) + rest, |codes|) == Read(codes, rest)
  {
    if codes == [] {
      assert [] + rest == rest;
    } else {
      var tail := codes[1..];
      assert IsCode(codes[0]) && AreCodes(tail);
      Pow256Values();
      Assoc(WriteInt(codes[0], 2), WriteCodes(tail), rest);
      IntIsExact(WriteCodes(codes) + rest, 2, codes[0], WriteCodes(tail) + rest);
      CodesRead(tail, rest);
      assert [codes[0]] + tail == codes;
    }
  }

  lemma {:induction false} CodesWereWritten(b: Bytes, n: nat)
    requires ReadCodes(b, n).Read?
    ensures var r := ReadCodes(b, n); |r.value| == n && AreCodes(r.value) && b == WriteCodes(r.value) + r.rest
  {
    if n == 0 {
      assert [] + b == b;
    } else {
      var code := ReadInt(b, 2);
      var others := ReadCodes(code.rest, n - 1);
      CodesWereWritten(code.rest, n - 1);
      Pow256Values();
      IntIsExact(b, 2, code.value, code.rest);
      Assoc(WriteInt(code.value, 2), WriteCodes(others.value), others.rest);
      assert ([code.value] + others.value)[1..] == others.value;
    }
  }

  /** A count and that many format codes. */
  function ReadCodeList(b: Bytes): Reading<seq<int>> {
    var count := ReadCount(b);
    if count.Truncated? then Truncated else ReadCodes(count.rest, count.value)
  }

  predicate IsCodeList(codes: seq<int>) {
    AreCodes(codes) && IsCount(|codes|)
  }

  function WriteCodeList(codes: seq<int>): Bytes
    requires IsCodeList(codes)
  {
    WriteCount(|codes|) + WriteCodes(codes)
  }

  lemma CodeListReads(codes: seq<int>, rest: Bytes)
    requires IsCodeList(codes)
    ensures ReadCodeList(WriteCodeList(codes) + rest) == Read(codes, rest)
  {
    Assoc(WriteCount(|codes|), WriteCodes(codes), rest);
    CountIsExact(WriteCodeList(codes) + rest, |codes|, WriteCodes(codes) + rest);
    CodesRead(codes, rest);
  }

  lemma CodeListWasWritten(b: Bytes)
    requires ReadCodeList(b).Read?
    ensures var r := ReadCodeList(b); IsCodeList(r.value) && b == WriteCodeList(r.value) + r.rest
  {
    var count, r := ReadCount(b), ReadCodeList(b);
    CountIsExact(b, count.value, count.rest);
    CodesWereWritten(count.rest, count.value);
    Assoc(WriteCount(|r.value|), WriteCodes(r.value), r.rest);
  }

  /** One parameter: length -1 for NULL, otherwise that many bytes. */
  function ReadValue(b: Bytes): Reading<Option<Bytes>> {
    var length := ReadInt(b, 4);
    if length.Truncated? || length.value < -1 then Truncated
    else if length.value == -1 then Read(None, length.rest)
    else
      var bytes := ReadBytes(length.rest, length.value);
      if bytes.Truncated? then Truncated else Read(Some(bytes.value), bytes.rest)
  }

  predicate IsValue(v: Option<Bytes>) {
    v.Some? ==> |v.value| < 0x8000_0000
  }

  function WriteValue(v: Option<Bytes>): (b: Bytes)
    requires IsValue(v)
    ensures |b| >= 4
  {
    Pow256Values();
    if v.None? then WriteInt(-1, 4) else WriteInt(|v.value|, 4) + v.value
  }

  lemma ValueReads(v: Option<Bytes>, rest: Bytes)
    requires IsValue(v)
    ensures ReadValue(WriteValue(v) + rest) == Read(v, rest)
  {
    Pow256Values();
    if v.None? {
      IntIsExact(WriteValue(v) + rest, 4, -1, rest);
    } else {
      Assoc(WriteInt(|v.value|, 4), v.value, rest);
      IntIsExact(WriteValue(v) + rest, 4, |v.value|, v.value + rest);
      BytesAreExact(v.value + rest, |v.value|, v.value, rest);
    }
  }

  lemma ValueWasWritten(b: Bytes)
    requires ReadValue(b).Read?
    ensures var r := ReadValue(b); IsValue(r.value) && b == WriteValue(r.value) + r.rest
  {
    Pow256Values();
    var length, r := ReadInt(b, 4), ReadValue(b);
    IntIsExact(b, 4, length.value, length.rest);
    if r.value.Some? {
      BytesAreExact(length.rest, length.value, r.value.value, r.rest);
      Assoc(WriteInt(length.value, 4), r.value.value, r.rest);
    }
  }

  function ReadValues(b: Bytes, n: nat): Reading<seq<Option<Bytes>>> {
    if n == 0 then Read([], b)
    else
      var value := ReadValue(b);
      if value.Truncated? then Truncated
      else
        var others := ReadValues(value.rest, n - 1);
        if others.Truncated? then Truncated else Read([value.value] + others.value, others.rest)
  }

  predicate AreValues(values: seq<Option<Bytes>>) {
    forall i :: 0 <= i < |values| ==> IsValue(values[i])
  }

  function WriteValues(values: seq<Option<Bytes>>): Bytes
    requires AreValues(values)
  {
    if values == [] then []
    else
      assert IsValue(values[0]) && AreValues(values[1..]);
      WriteValue(values[0]) + WriteValues(values[1..])
  }

  lemma {:induction false} ValuesRead(values: seq<Option<Bytes>>, rest: Bytes)
    requires AreValues(values)
    ensures ReadValues(WriteValues(values) + rest, |values|) == Read(values, rest)
  {
    if values == [] {
      assert [] + rest == rest;
    } else {
      var tail := values[1..];
      assert IsValue(values[0]) && AreValues(tail);
      Assoc(WriteValue(values[0]), WriteValues(tail), rest);
      ValueReads(values[0], WriteValues(tail) + rest);
      ValuesRead(tail, rest);
      assert [values[0]] + tail == values;
    }
  }

  lemma {:induction false} ValuesWereWritten(b: Bytes, n: nat)
    requires ReadValues(b, n).Read?
    ensures var r := ReadValues(b, n); |r.value| == n && AreValues(r.value) && b == WriteValues(r.value) + r.rest
  {
    if n == 0 {
      assert [] + b == b;
    } else {
      var value := ReadValue(b);
      var others := ReadValues(value.rest, n - 1);
      ValueWasWritten(b);
      ValuesWereWritten(value.rest, n - 1);
      Assoc(WriteValue(value.value), WriteValues(others.value), others.rest);
      assert ([value.value] + others.value)[1..] == others.value;
    }
  }

  /** No code: all text. One code: for all. Otherwise one for each. */
  function ResolveFormatCodes(codes: seq<int>, count: nat): (r: Option<seq<int>>)
    ensures r.Some? ==> |r.value| == count
    ensures r.Some? <==> |codes| <= 1 || |codes| == count
  {
    if |codes| == 0 then Some(seq(count, _ => 0))
    else if |codes| == 1 then Some(seq(count, _ => codes[0]))
    else if |codes| != count then None
    else Some(codes)
  }

  function ParseBind(b: Bytes): Option<BindMessage> {
    var portal := ReadCString(b);
    if portal.Truncated? then None
    else
      var statement := ReadCString(portal.rest);
      if statement.Truncated? then None
      else
        var codes := ReadCodeList(statement.rest);
        if codes.Truncated? then None else ParseBindValues(portal.value, statement.value, codes.value, codes.rest)
  }

  /** From the parameter count on. */
  function ParseBindValues(portal: string, statement: string, codes: seq<int>, b: Bytes): Option<BindMessage> {
    var count := ReadCount(b);
    if count.Truncated? then None
    else
      var values := ReadValues(count.rest, count.value);
      if values.Truncated? then None
      else
        var results := ReadCodeList(values.rest);
        if results.Truncated? || results.rest != [] then None
        else
          var resolved := ResolveFormatCodes(codes, count.value);
          if resolved.None? then None
          else Some(BindMessage(portal, statement, values.value, resolved.value, results.value))
  }

  predicate IsBind(m: BindMessage, codes: seq<int>) {
    && IsName(m.portalName) && IsName(m.statementName)
    && IsCodeList(codes) && IsCodeList(m.resultCodes)
    && AreValues(m.values) && IsCount(|m.values|)
    && ResolveFormatCodes(codes, |m.values|) == Some(m.formatCodes)
  }

  function WriteBindValues(m: BindMessage): Bytes
    requires IsCodeList(m.resultCodes) && AreValues(m.values) && IsCount(|m.values|)
  {
    WriteCount(|m.values|) + (WriteValues(m.values) + (WriteCodeList(m.resultCodes) + []))
  }

  function WriteBind(m: BindMessage, codes: seq<int>): Bytes
    requires IsBind(m, codes)
  {
    CString(m.portalName) + (CString(m.statementName) + (WriteCodeList(codes) + WriteBindValues(m)))
  }

  lemma BindValuesRead(m: BindMessage, codes: seq<int>)
    requires IsBind(m, codes)
    ensures ParseBindValues(m.portalName, m.statementName, codes, WriteBindValues(m)) == Some(m)
  {
    var results := WriteCodeList(m.resultCodes) + [];
    CountIsExact(WriteBindValues(m), |m.values|, WriteValues(m.values) + results);
    ValuesRead(m.values, results);
    CodeListReads(m.resultCodes, []);
  }

  lemma BindReads(m: BindMessage, codes: seq<int>)
    requires IsBind(m, codes)
    ensures ParseBind(WriteBind(m, codes)) == Some(m)
  {
    CStringReads(m.portalName, CString(m.statementName) + (WriteCodeList(codes) + WriteBindValues(m)));
    CStringReads(m.statementName, WriteCodeList(codes) + WriteBindValues(m));
    CodeListReads(codes, WriteBindValues(m));
    BindValuesRead(m, codes);
  }

  lemma BindValuesWereWritten(portal: string, statement: string, codes: seq<int>, b: Bytes)
    requires ParseBindValues(portal, statement, codes, b).Some?
    ensures var m := ParseBindValues(portal, statement, codes, b).value;
      && m.portalName == portal && m.statementName == statement
      && IsCodeList(m.resultCodes) && AreValues(m.values) && IsCount(|m.values|)
      && b == WriteBindValues(m) && ResolveFormatCodes(codes, |m.values|) == Some(m.formatCodes)
  {
    var count := ReadCount(b);
    var values := ReadValues(count.rest, count.value);
    CountIsExact(b, count.value, count.rest);
    ValuesWereWritten(count.rest, count.value);
    CodeListWasWritten(values.rest);
  }

  lemma BindWasWritten(b: Bytes) returns (codes: seq<int>)
    requires ParseBind(b).Some?
    ensures var m := ParseBind(b).value; IsBind(m, codes) && b == WriteBind(m, codes)
  {
    var portal := ReadCString(b);
    var statement := ReadCString(portal.rest);
    var list := ReadCodeList(statement.rest);
    codes := list.value;
    CStringWasWritten(b);
    CStringWasWritten(portal.rest);
    CodeListWasWritten(statement.rest);
    BindValuesWereWritten(portal.value, statement.value, codes, list.rest);
  }

  /** Accepted exactly when written, with one format code resolved for every value. */
  lemma BindIsExact(b: Bytes, m: BindMessage)
    ensures ParseBind(b) == Some(m) <==> exists codes :: IsBind(m, codes) && b == WriteBind(m, codes)
    ensures ParseBind(b) == Some(m) ==> |m.formatCodes| == |m.values| && AreCodes(m.formatCodes)
  {
    if ParseBind(b) == Some(m) {
      var codes := BindWasWritten(b);
      assert IsBind(m, codes) && b == WriteBind(m, codes);
    }
    forall codes | IsBind(m, codes) && b == WriteBind(m, codes)
      ensures ParseBind(b) == Some(m)
    {
      BindReads(m, codes);
    }
  }

  // The loop over the parameter values, with the source's moving offset.

  function PrependValues(values: seq<Option<Bytes>>, others: Reading<seq<Option<Bytes>>>): Reading<seq<Option<Bytes>>> {
    if others.Truncated? then Truncated else Read(values + others.value, others.rest)
  }

  lemma ReadNextValue(values: seq<Option<Bytes>>, b: Bytes, n: nat)
    requires n > 0
    ensures PrependValues(values, ReadValues(b, n)) ==
      var value := ReadValue(b);
      if value.Truncated? then Truncated else PrependValues(values + [value.value], ReadValues(value.rest, n - 1))
  {
    var value := ReadValue(b);
    if value.Read? {
      var others := ReadValues(value.rest, n - 1);
      if others.Read? {
        Assoc(values, [value.value], others.value);
      }
    }
  }

  lemma DropTwice(b: Bytes, i: nat, j: nat)
    requires i <= i + j <= |b|
    ensures b[i..][j..] == b[i + j..] && b[i..][..j] == b[i..i + j]
  {
  }

  lemma PrependNoValues(others: Reading<seq<Option<Bytes>>>)
    ensures PrependValues([], others) == others
  {
    if others.Read? {
      assert [] + others.value == others.value;
    }
  }

  /** One value and the offset after it; None where the source raises. */
  method ReadBindValue(payload: Bytes, start: nat) returns (r: Option<(Option<Bytes>, nat)>)
    requires start <= |payload|
    ensures r.Some? ==> start <= r.value.1 <= |payload|
    ensures ReadValue(payload[start..]) == if r.None? then Truncated else Read(r.value.0, payload[r.value.1..])
  {
    if |payload| - start < 4 {
      return None;
    }
    DropTwice(payload, start, 4);
    var length := Signed(FromBE(payload[start..start + 4]), 4);
    var offset := start + 4;
    if length == -1 {
      return Some((None, offset));
    }
    if length < -1 || |payload| - offset < length {
      return None;
    }
    DropTwice(payload, offset, length);
    return Some((Some(payload[offset..offset + length]), offset + length));
  }

  /** The values and the offset after them; None where the source raises. */
  method ReadBindValues(payload: Bytes, start: nat, count: nat) returns (r: Option<(seq<Option<Bytes>>, nat)>)
    requires start <= |payload|
    ensures r.Some? ==> start <= r.value.1 <= |payload|
    ensures ReadValues(payload[start..], count) == if r.None? then Truncated else Read(r.value.0, payload[r.value.1..])
  {
    var values: seq<Option<Bytes>> := [];
    var offset := start;
    PrependNoValues(ReadValues(payload[start..], count));
    for i := 0 to count
      invariant start <= offset <= |payload|
      invariant ReadValues(payload[start..], count) == PrependValues(values, ReadValues(payload[offset..], count - i))
    {
      ReadNextValue(values, payload[offset..], count - i);
      var value := ReadBindValue(payload, offset);
      if value.None? {
        return None;
      }
      values := values + [value.value.0];
      offset := value.value.1;
    }
    assert values + [] == values;
    return Some((values, offset));
  }

  method ParseBindMessage(payload: Bytes) returns (r: Option<BindMessage>)
    ensures r == ParseBind(payload)
  {
    var portal := ReadCString(payload);
    if portal.Truncated? {
      return None;
    }
    var statement := ReadCString(portal.rest);
    if statement.Truncated? {
      return None;
    }
    var codes := ReadCodeList(statement.rest);
    if codes.Truncated? {
      return None;
    }
    var count := ReadCount(codes.rest);
    if count.Truncated? {
      return None;
    }
    var values := ReadBindValues(count.rest, 0, count.value);
    assert count.rest[0..] == count.rest;
    if values.None? {
      return None;
    }
    var results := ReadCodeList(count.rest[values.value.1..]);
    if results.Truncated? || results.rest != [] {
      return None;
    }
    var resolved := ResolveFormatCodes(codes.value, count.value);
    return if resolved.None? then None
           else Some(BindMessage(portal.value, statement.value, values.value.0, resolved.value, results.value));
  }

  // ---------------------------------------------------------------------------
  // Execute and Close
  // ---------------------------------------------------------------------------

  datatype ExecuteMessage = ExecuteMessage(portalName: string, maxRows: nat)

  function ParseExecute(b: Bytes): Option<ExecuteMessage> {
    var portal := ReadCString(b);
    if portal.Truncated? then None
    else
      var maxRows := ReadInt(portal.rest, 4);
      if maxRows.Truncated? || maxRows.value < 0 || maxRows.rest != [] then None
      else Some(ExecuteMessage(portal.value, maxRows.value))
  }

  predicate IsExecute(m: ExecuteMessage) {
    IsName(m.portalName) && m.maxRows < 0x8000_0000
  }

  function WriteExecute(m: ExecuteMessage): Bytes
    requires IsExecute(m)
  {
    Pow256Values();
    CString(m.portalName) + (WriteInt(m.maxRows, 4) + [])
  }

  /** Accepted exactly when written: re-encoding an accepted Execute gives it back. */
  lemma ExecuteIsExact(b: Bytes, m: ExecuteMessage)
    ensures ParseExecute(b) == Some(m) <==> IsExecute(m) && b == WriteExecute(m)
  {
    Pow256Values();
    var portal := ReadCString(b);
    if portal.Read? {
      CStringWasWritten(b);
      IntIsExact(portal.rest, 4, m.maxRows, []);
    }
    if IsExecute(m) {
      CStringReads(m.portalName, WriteInt(m.maxRows, 4) + []);
      IntIsExact(WriteInt(m.maxRows, 4) + [], 4, m.maxRows, []);
    }
  }

  datatype CloseMessage = CloseStatement(name: string) | ClosePortal(name: string)

  function ParseClose(b: Bytes): Option<CloseMessage> {
    if b == [] || !(b[0] == 0x53 || b[0] == 0x50) then None
    else
      var name := ReadCString(b[1..]);
      if name.Truncated? || name.rest != [] then None
      else if b[0] == 0x53 then Some(CloseStatement(name.value))
      else Some(ClosePortal(name.value))
  }

  function WriteClose(m: CloseMessage): Bytes {
    [if m.CloseStatement? then 0x53 else 0x50] + (CString(m.name) + [])
  }

  lemma CloseIsExact(b: Bytes, m: CloseMessage)
    ensures ParseClose(b) == Some(m) <==> IsName(m.name) && b == WriteClose(m)
  {
    if b != [] {
      CStringIsExact(b[1..], m.name, []);
      assert b == [b[0]] + b[1..];
    }
    assert WriteClose(m)[1..] == CString(m.name) + [];
  }
}
