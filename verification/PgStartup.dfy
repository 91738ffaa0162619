/** The first message of a PostgreSQL connection, and the two answers the proxy writes itself. */
module PgStartup {
  import opened Wire
  import opened Framing
  import opened PgMessages
  import Utf8

  // ---------------------------------------------------------------------------
  // Framing the startup message
  // ---------------------------------------------------------------------------

  datatype Push = Waiting(buffer: Bytes) | Startup(raw: Bytes) | Refused

  function DeclaredLength(b: Bytes): int
    requires |b| >= 4
  {
    Signed(FromBE(b[..4]), 4)
  }

  /** The first four bytes announce a message the framer takes. */
  predicate IsAnnounced(limit: nat, b: Bytes) {
    |b| >= 4 && 8 <= DeclaredLength(b) <= limit
  }

  function PushStartup(limit: nat, buffer: Bytes, chunk: Bytes): Push {
    var all := buffer + chunk;
    if |all| < 4 then Waiting(all)
    else if !IsAnnounced(limit, all) then Refused
    else if |all| < DeclaredLength(all) then Waiting(all)
    else if |all| == DeclaredLength(all) then Startup(all)
    else Refused
  }

  /** Chunk after chunk until the message is there or refused. */
  function PushAllStartup(limit: nat, buffer: Bytes, chunks: seq<Bytes>): Push
    decreases |chunks|
  {
    if chunks == [] then Waiting(buffer)
    else
      var pushed := PushStartup(limit, buffer, chunks[0]);
      if pushed.Waiting? then PushAllStartup(limit, pushed.buffer, chunks[1..]) else pushed
  }

  predicate IsUnfinished(limit: nat, buffer: Bytes) {
    |buffer| < 4 || (IsAnnounced(limit, buffer) && |buffer| < DeclaredLength(buffer))
  }

  /** Some chunk ends exactly where the message does. */
  predicate HasBoundary(at: int, buffer: Bytes, chunks: seq<Bytes>) {
    exists k :: 0 < k <= |chunks| && |buffer| + |Flatten(chunks[..k])| == at
  }

  lemma BoundaryLater(at: int, buffer: Bytes, chunks: seq<Bytes>)
    requires chunks != []
    ensures HasBoundary(at, buffer, chunks)
       <==> |buffer + chunks[0]| == at || HasBoundary(at, buffer + chunks[0], chunks[1..])
  {
    forall k | 0 < k <= |chunks|
      ensures |Flatten(chunks[..k])| == |chunks[0]| + |Flatten(chunks[1..][..k - 1])|
    {
      assert chunks[..k][1..] == chunks[1..][..k - 1];
    }
    assert Flatten(chunks[1..][..0]) == [];
    if |buffer + chunks[0]| == at {
      assert |buffer| + |Flatten(chunks[..1])| == at;
    }
    if HasBoundary(at, buffer, chunks) {
      var k :| 0 < k <= |chunks| && |buffer| + |Flatten(chunks[..k])| == at;
      assert k > 1 ==> |buffer + chunks[0]| + |Flatten(chunks[1..][..k - 1])| == at;
    }
    if HasBoundary(at, buffer + chunks[0], chunks[1..]) {
      var k :| 0 < k <= |chunks[1..]| && |buffer + chunks[0]| + |Flatten(chunks[1..][..k])| == at;
      assert |buffer| + |Flatten(chunks[..k + 1])| == at;
    }
  }

  /**
   Unlike the message framer this one depends on how the stream is cut: an announced message
   that has arrived in full is taken exactly when some read ended at its last byte.
   */
  lemma {:induction false} StartupNeedsABoundary(limit: nat, buffer: Bytes, chunks: seq<Bytes>)
    requires IsUnfinished(limit, buffer)
    requires var stream := buffer + Flatten(chunks); IsAnnounced(limit, stream) && |stream| >= DeclaredLength(stream)
    ensures var stream := buffer + Flatten(chunks);
      var length := DeclaredLength(stream);
      PushAllStartup(limit, buffer, chunks)
      == if HasBoundary(length, buffer, chunks) then Startup(stream[..length]) else Refused
    decreases |chunks|
  {
    var stream := buffer + Flatten(chunks);
    var length := DeclaredLength(stream);
    assert buffer + [] == buffer;
    if chunks != [] {
      var first := buffer + chunks[0];
      Assoc(buffer, chunks[0], Flatten(chunks[1..]));
      BoundaryLater(length, buffer, chunks);
      assert stream[..|first|] == first;
      if |first| >= 4 {
        assert first[..4] == stream[..4];
      }
      if |first| < length {
        StartupNeedsABoundary(limit, first, chunks[1..]);
      } else if |first| > length {
        NoBoundaryBefore(length, first, chunks[1..]);
      }
    }
  }

  /** One stream, an empty startup message and a byte more: taken when a read ends between them, refused in one read. */
  lemma TheCutDecides(limit: nat)
    requires limit >= 8
    ensures var message: Bytes := [0, 0, 0, 8, 0, 0, 0, 0];
      && PushAllStartup(limit, [], [message, [0]]) == Startup(message)
      && PushAllStartup(limit, [], [message + [0]]) == Refused
      && Flatten([message, [0]]) == Flatten([message + [0]])
  {
    var message: Bytes := [0, 0, 0, 8, 0, 0, 0, 0];
    var word: Bytes := [0, 0, 0, 8];
    assert message[..4] == word && (message + [0])[..4] == word && word[..3] == [0, 0, 0] && word[..3][..2] == [0, 0];
    assert FromBE([0, 0, 0]) == 0 by {
      assert FromBE([0]) == 0 && [0, 0][..1] == [0] && FromBE([0, 0]) == 0;
    }
    Pow256Values();
    assert FromBE(word) == 8;
    assert [] + message == message && [] + (message + [0]) == message + [0];
    assert Flatten([message + [0]]) == message + [0];
    assert [message, [0]][1..] == [[0]] && Flatten([[0]]) == [0];
  }

  lemma NoBoundaryBefore(at: int, buffer: Bytes, chunks: seq<Bytes>)
    requires |buffer| > at
    ensures !HasBoundary(at, buffer, chunks)
  {
  }

  class StartupFramer {
    var buffer: Bytes
    const maxMessageBytes: nat

    constructor (maxMessageBytes: nat)
      requires maxMessageBytes >= 8
      ensures buffer == [] && this.maxMessageBytes == maxMessageBytes
    {
      buffer := [];
      this.maxMessageBytes := maxMessageBytes;
    }

    /** failed is the source's exception. */
    method Push(chunk: Bytes) returns (failed: bool, raw: Option<Bytes>)
      modifies this
      ensures var pushed := PushStartup(maxMessageBytes, old(buffer), chunk);
        && failed == pushed.Refused?
        && raw == (if pushed.Startup? then Some(pushed.raw) else None)
        && buffer == if pushed.Startup? then [] else old(buffer) + chunk
    {
      buffer := buffer + chunk;
      if |buffer| < 4 {
        return false, None;
      }
      var declaredLength := Signed(FromBE(buffer[..4]), 4);
      if declaredLength < 8 || declaredLength > maxMessageBytes {
        return true, None;
      }
      if |buffer| < declaredLength {
        return false, None;
      }
      if |buffer| != declaredLength {
        return true, None;
      }
      raw := Some(buffer);
      buffer := [];
      return false, raw;
    }
  }

  // ---------------------------------------------------------------------------
  // Its parameters
  // ---------------------------------------------------------------------------

  type Parameters = map<string, string>

  function ReadParameters(b: Bytes, params: Parameters): Option<Parameters>
    decreases |b|
  {
    var key := ReadCString(b);
    if key.Truncated? then None
    else if key.value == "" then Some(params)
    else
      var value := ReadCString(key.rest);
      if value.Truncated? then None else ReadParameters(value.rest, params[key.value := value.value])
  }

  function StartupParams(raw: Bytes): Option<Parameters> {
    if |raw| < 9 || DeclaredLength(raw) != |raw| then None else ReadParameters(raw[8..], map[])
  }

  predicate ArePairs(pairs: seq<(string, string)>) {
    forall i :: 0 <= i < |pairs| ==> pairs[i].0 != "" && IsName(pairs[i].0) && IsName(pairs[i].1)
  }

  function WritePairs(pairs: seq<(string, string)>, rest: Bytes): Bytes {
    if pairs == [] then CString("") + rest
    else CString(pairs[0].0) + (CString(pairs[0].1) + WritePairs(pairs[1..], rest))
  }

  /** Each pair in order; a repeated key keeps its last value. */
  function Collect(pairs: seq<(string, string)>, params: Parameters): Parameters {
    if pairs == [] then params else Collect(pairs[1..], params[pairs[0].0 := pairs[0].1])
  }

  lemma {:induction false} WrittenPairsAreRead(pairs: seq<(string, string)>, rest: Bytes, params: Parameters)
    requires ArePairs(pairs)
    ensures ReadParameters(WritePairs(pairs, rest), params) == Some(Collect(pairs, params))
  {
    if pairs == [] {
      CStringReads("", rest);
    } else {
      var tail := WritePairs(pairs[1..], rest);
      assert ArePairs(pairs[1..]);
      CStringReads(pairs[0].0, CString(pairs[0].1) + tail);
      CStringReads(pairs[0].1, tail);
      WrittenPairsAreRead(pairs[1..], rest, params[pairs[0].0 := pairs[0].1]);
    }
  }

  lemma OnePairMore(key: string, value: string, pairs: seq<(string, string)>, rest: Bytes, params: Parameters)
    ensures WritePairs([(key, value)] + pairs, rest) == CString(key) + (CString(value) + WritePairs(pairs, rest))
    ensures Collect([(key, value)] + pairs, params) == Collect(pairs, params[key := value])
    ensures ArePairs(pairs) && key != "" && IsName(key) && IsName(value) ==> ArePairs([(key, value)] + pairs)
  {
    assert ([(key, value)] + pairs)[1..] == pairs;
  }

  lemma {:induction false} ReadPairsWereWritten(b: Bytes,
                                                params: Parameters) returns (pairs: seq<(string, string)>, rest: Bytes)
    requires ReadParameters(b, params).Some?
    ensures ArePairs(pairs) && b == WritePairs(pairs, rest) && ReadParameters(b, params) == Some(Collect(pairs, params))
    decreases |b|
  {
    var key := ReadCString(b);
    CStringWasWritten(b);
    if key.value == "" {
      pairs, rest := [], key.rest;
    } else {
      var value := ReadCString(key.rest);
      CStringWasWritten(key.rest);
      var others;
      others, rest := ReadPairsWereWritten(value.rest, params[key.value := value.value]);
      OnePairMore(key.value, value.value, others, rest, params);
      pairs := [(key.value, value.value)] + others;
    }
  }

  /** Accepted exactly when the length is right and pairs and a terminator follow; what comes after those is ignored. */
  lemma StartupParamsAreExact(raw: Bytes, params: Parameters)
    requires |raw| >= 9
    ensures StartupParams(raw) == Some(params)
       <==> DeclaredLength(raw) == |raw|
            && exists pairs, rest ::
                 ArePairs(pairs) && raw[8..] == WritePairs(pairs, rest) && Collect(pairs, map[]) == params
  {
    if StartupParams(raw) == Some(params) {
      var pairs, rest := ReadPairsWereWritten(raw[8..], map[]);
      assert ArePairs(pairs) && raw[8..] == WritePairs(pairs, rest) && Collect(pairs, map[]) == params;
    }
    forall pairs, rest | ArePairs(pairs) && raw[8..] == WritePairs(pairs, rest) && Collect(pairs, map[]) == params
      ensures ReadParameters(raw[8..], map[]) == Some(params)
    {
      WrittenPairsAreRead(pairs, rest, map[]);
    }
  }

  /** The loop that fills the dictionary; None where the source raises. */
  method ParseStartupParams(raw: Bytes) returns (r: Option<Parameters>)
    ensures r == StartupParams(raw)
  {
    if |raw| < 9 || DeclaredLength(raw) != |raw| {
      return None;
    }
    var rest, params: Parameters := raw[8..], map[];
    while rest != []
      invariant ReadParameters(rest, params) == StartupParams(raw)
      decreases |rest|
    {
      var key := ReadCString(rest);
      if key.Truncated? {
        return None;
      }
      if key.value == "" {
        return Some(params);
      }
      var value := ReadCString(key.rest);
      if value.Truncated? {
        return None;
      }
      params := params[key.value := value.value];
      rest := value.rest;
    }
    return None;
  }

  // ---------------------------------------------------------------------------
  // The proxy's own answers
  // ---------------------------------------------------------------------------

  /** The three transaction states of ReadyForQuery. */
  datatype TransactionStatus = Idle | InTransaction | InFailedTransaction

  function StatusByte(status: TransactionStatus): byte {
    match status
    case Idle => 0x49
    case InTransaction => 0x54
    case InFailedTransaction => 0x45
  }

  function ParseReadyForQueryStatus(payload: Bytes): Option<TransactionStatus> {
    if payload == [0x49] then Some(Idle)
    else if payload == [0x54] then Some(InTransaction)
    else if payload == [0x45] then Some(InFailedTransaction)
    else None
  }

  function BuildMessage(kind: byte, body: Bytes): (raw: Bytes)
    requires |body| + 4 < 0x8000_0000
  {
    Pow256Values();
    [kind] + (WriteInt(|body| + 4, 4) + body)
  }

  function BuildReadyForQuery(status: TransactionStatus): Bytes {
    BuildMessage(0x5A, [StatusByte(status)])
  }

  type ShortText = s: string | |Utf8.Encode(s)| <= 0x4000_0000 witness ""

  /** S, C and M fields: severity ERROR, the SQLSTATE, the message. */
  function BuildErrorResponse(sqlState: seq<byte>, text: ShortText): Bytes
    requires |sqlState| == 5
  {
    BuildMessage(0x45,
      [0x53, 0x45, 0x52, 0x52, 0x4F, 0x52, 0] + ([0x43] + sqlState + [0]) + ([0x4D] + CString(text)) + [0])
  }

  /** A built message is one frame, of its kind, around its body. */
  lemma BuiltMessageIsFrame(kind: byte, body: Bytes, limit: nat)
    requires |body| + 5 <= limit && |body| + 4 < 0x8000_0000 && kind < 0x80
    ensures var raw := BuildMessage(kind, body);
      IsFrame(Postgres(limit), raw) && MessageOf(raw) == Message(kind as char, body, raw)
  {
    Pow256Values();
    var raw := BuildMessage(kind, body);
    assert raw[1..5] == WriteInt(|body| + 4, 4);
    assert raw[5..] == body;
  }

  lemma ReadyForQueryReadsBack(status: TransactionStatus, limit: nat)
    requires limit >= 6
    ensures var raw := BuildReadyForQuery(status);
      && IsFrame(Postgres(limit), raw) && MessageOf(raw).kind == 'Z'
      && ParseReadyForQueryStatus(MessageOf(raw).payload) == Some(status)
  {
    BuiltMessageIsFrame(0x5A, [StatusByte(status)], limit);
  }
}
