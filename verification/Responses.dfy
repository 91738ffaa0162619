/**
 The backend packets the proxy has to understand, and the grammar of a well-formed
 response written from the sender's side.
 */
module Responses {
  import opened Wire

  const CLIENT_PROTOCOL_41: nat := 0x200
  const CLIENT_TRANSACTIONS: nat := 0x2000
  const CLIENT_DEPRECATE_EOF: nat := 0x100_0000
  const MARIADB_CLIENT_CACHE_METADATA: nat := 0x10_0000_0000

  const SERVER_STATUS_IN_TRANS: nat := 0x0001
  const SERVER_STATUS_AUTOCOMMIT: nat := 0x0002
  const SERVER_MORE_RESULTS_EXISTS: nat := 0x0008
  const SERVER_STATUS_IN_TRANS_READONLY: nat := 0x2000

  const OK_MARKER: byte := 0x00
  const EOF_MARKER: byte := 0xFE
  const ERR_MARKER: byte := 0xFF
  const LOCAL_INFILE_MARKER: byte := 0xFB
  const MAX_PACKET: nat := 0xFF_FFFF

  predicate DeprecateEof(caps: nat) {
    Has(caps, CLIENT_DEPRECATE_EOF)
  }

  /** The server status of an OK packet; None where the source raises. */
  function ParseOkStatus(payload: Bytes, caps: nat): Option<nat> {
    if payload == [] || (payload[0] != OK_MARKER && payload[0] != EOF_MARKER) then None
    else
      var affected := ReadLenenc(payload[1..]);
      if affected.None? then None
      else
        var rest := payload[1 + affected.value.1..];
        var lastInsert := ReadLenenc(rest);
        if lastInsert.None? then None else StatusField(rest[lastInsert.value.1..], caps)
  }

  /** The status behind the two counters, with the warning count when protocol 4.1 is in use. */
  function StatusField(rest: Bytes, caps: nat): Option<nat> {
    if Has(caps, CLIENT_PROTOCOL_41) then
      if |rest| < 4 then None else Some(FromLE(rest[..2]))
    else if Has(caps, CLIENT_TRANSACTIONS) then
      if |rest| < 2 then None else Some(FromLE(rest[..2]))
    else None
  }

  predicate IsEofShaped(payload: Bytes) {
    payload != [] && payload[0] == EOF_MARKER && |payload| < 9
  }

  function ParseEofStatus(payload: Bytes, caps: nat): Option<nat> {
    if !IsEofShaped(payload) || !Has(caps, CLIENT_PROTOCOL_41) || |payload| < 5 then None
    else Some(FromLE(payload[3..5]))
  }

  /** The column count and whether column definitions follow. */
  function ParseResultSetHeader(payload: Bytes, caps: nat): (r: Option<(nat, bool)>)
    ensures r.Some? ==> r.value.0 > 0
  {
    var count := ReadLenenc(payload);
    if count.None? || count.value.0 == 0 then None
    else
      var rest := payload[count.value.1..];
      if Has(caps, MARIADB_CLIENT_CACHE_METADATA) then
        if |rest| != 1 || rest[0] > 1 then None else Some((count.value.0, rest[0] == 1))
      else
        if rest != [] then None else Some((count.value.0, true))
  }

  datatype PrepareOk = PrepareOk(statementId: nat, columnCount: nat, parameterCount: nat, warningCount: nat)

  function ParsePrepareOk(payload: Bytes): Option<PrepareOk> {
    if |payload| < 12 || payload[0] != OK_MARKER then None
    else Some(PrepareOk(FromLE(payload[1..5]), FromLE(payload[5..7]), FromLE(payload[7..9]), FromLE(payload[10..12])))
  }

  // ---------------------------------------------------------------------------
  // Packets as a server writes them
  // ---------------------------------------------------------------------------

  /** Counters, status and warnings of an OK packet; info is whatever text follows. */
  datatype OkFields = OkFields(affectedRows: nat, lastInsertId: nat, status: nat, warnings: nat, info: Bytes)

  predicate IsOkFields(f: OkFields) {
    && f.affectedRows < 0x1_0000_0000_0000_0000 && f.lastInsertId < 0x1_0000_0000_0000_0000
    && f.status < 0x1_0000 && f.warnings < 0x1_0000
  }

  function StatusBytes(status: nat, warnings: nat): (b: Bytes)
    requires status < 0x1_0000 && warnings < 0x1_0000
    ensures |b| == 4
  {
    Pow256Values();
    ToLE(status, 2) + ToLE(warnings, 2)
  }

  function OkPacket(marker: byte, f: OkFields): (b: Bytes)
    requires IsOkFields(f)
    ensures b != [] && b[0] == marker
  {
    [marker] + (WriteLenenc(f.affectedRows)
                + (WriteLenenc(f.lastInsertId) + (StatusBytes(f.status, f.warnings) + f.info)))
  }

  function EofPacket(status: nat, warnings: nat): (b: Bytes)
    requires status < 0x1_0000 && warnings < 0x1_0000
    ensures |b| == 5 && b[0] == EOF_MARKER
  {
    [EOF_MARKER] + StatusBytes(warnings, status)
  }

  function ErrPacket(rest: Bytes): Bytes {
    [ERR_MARKER] + rest
  }

  function HeaderPacket(columns: nat, sent: bool, caps: nat): Bytes
    requires columns < 0x1_0000_0000_0000_0000
  {
    WriteLenenc(columns) + if Has(caps, MARIADB_CLIENT_CACHE_METADATA) then [if sent then 1 else 0] else []
  }

  function PrepareOkPacket(p: PrepareOk, rest: Bytes): Bytes
    requires p.statementId < 0x1_0000_0000 && p.columnCount < 0x1_0000 && p.parameterCount < 0x1_0000
    requires p.warningCount < 0x1_0000
  {
    Pow256Values();
    [OK_MARKER] + ToLE(p.statementId, 4) + ToLE(p.columnCount, 2) + ToLE(p.parameterCount, 2) + [0]
      + ToLE(p.warningCount, 2) + rest
  }

  lemma StatusIsRead(status: nat, warnings: nat, info: Bytes, caps: nat)
    requires status < 0x1_0000 && warnings < 0x1_0000
    requires Has(caps, CLIENT_PROTOCOL_41)
    ensures StatusField(StatusBytes(status, warnings) + info, caps) == Some(status)
  {
    Pow256Values();
    assert (StatusBytes(status, warnings) + info)[..2] == ToLE(status, 2);
  }

  /** Whatever the size of the two counters, the status is looked for right behind them. */
  lemma CountersAreSkipped(marker: byte, affectedRows: nat, lastInsertId: nat, rest: Bytes, caps: nat)
    requires marker == OK_MARKER || marker == EOF_MARKER
    requires affectedRows < 0x1_0000_0000_0000_0000 && lastInsertId < 0x1_0000_0000_0000_0000
    ensures ParseOkStatus([marker] + (WriteLenenc(affectedRows) + (WriteLenenc(lastInsertId) + rest)), caps)
         == StatusField(rest, caps)
  {
    var afterAffected := WriteLenenc(lastInsertId) + rest;
    var packet := [marker] + (WriteLenenc(affectedRows) + afterAffected);
    assert packet[1..] == WriteLenenc(affectedRows) + afterAffected;
    LenencReadsBack(affectedRows, afterAffected);
    assert packet[1 + |WriteLenenc(affectedRows)|..] == afterAffected;
    LenencReadsBack(lastInsertId, rest);
    assert afterAffected[|WriteLenenc(lastInsertId)|..] == rest;
  }

  /** Before protocol 4.1 the status comes without a warning count, when transactions are negotiated. */
  lemma OlderOkIsRead(marker: byte, f: OkFields, caps: nat)
    requires IsOkFields(f) && (marker == OK_MARKER || marker == EOF_MARKER)
    requires !Has(caps, CLIENT_PROTOCOL_41) && Has(caps, CLIENT_TRANSACTIONS)
    ensures ParseOkStatus(OlderOkPacket(marker, f), caps) == Some(f.status)
  {
    Pow256Values();
    CountersAreSkipped(marker, f.affectedRows, f.lastInsertId, ToLE(f.status, 2) + f.info, caps);
    assert (ToLE(f.status, 2) + f.info)[..2] == ToLE(f.status, 2);
  }

  function OlderOkPacket(marker: byte, f: OkFields): Bytes
    requires IsOkFields(f)
  {
    Pow256Values();
    [marker] + (WriteLenenc(f.affectedRows) + (WriteLenenc(f.lastInsertId) + (ToLE(f.status, 2) + f.info)))
  }

  /** An OK packet tells its status, whatever the size of its counters. */
  lemma OkIsRead(marker: byte, f: OkFields, caps: nat)
    requires IsOkFields(f) && (marker == OK_MARKER || marker == EOF_MARKER)
    requires Has(caps, CLIENT_PROTOCOL_41)
    ensures ParseOkStatus(OkPacket(marker, f), caps) == Some(f.status)
  {
    CountersAreSkipped(marker, f.affectedRows, f.lastInsertId, StatusBytes(f.status, f.warnings) + f.info, caps);
    StatusIsRead(f.status, f.warnings, f.info, caps);
  }

  lemma EofIsRead(status: nat, warnings: nat, caps: nat)
    requires status < 0x1_0000 && warnings < 0x1_0000
    requires Has(caps, CLIENT_PROTOCOL_41)
    ensures ParseEofStatus(EofPacket(status, warnings), caps) == Some(status)
  {
    Pow256Values();
    assert EofPacket(status, warnings)[3..5] == ToLE(status, 2);
  }

  lemma HeaderIsRead(columns: nat, sent: bool, caps: nat)
    requires 0 < columns < 0x1_0000_0000_0000_0000
    requires sent || Has(caps, MARIADB_CLIENT_CACHE_METADATA)
    ensures var h := HeaderPacket(columns, sent, caps);
      && ParseResultSetHeader(h, caps) == Some((columns, sent))
      && h != [] && h[0] != OK_MARKER && h[0] != ERR_MARKER && h[0] != LOCAL_INFILE_MARKER
  {
    var tail := if Has(caps, MARIADB_CLIENT_CACHE_METADATA) then [if sent then 1 else 0] else [];
    LenencReadsBack(columns, tail);
    assert HeaderPacket(columns, sent, caps)[|WriteLenenc(columns)|..] == tail;
  }

  lemma PrepareOkIsRead(p: PrepareOk, rest: Bytes)
    requires p.statementId < 0x1_0000_0000 && p.columnCount < 0x1_0000 && p.parameterCount < 0x1_0000
    requires p.warningCount < 0x1_0000
    ensures ParsePrepareOk(PrepareOkPacket(p, rest)) == Some(p)
  {
    Pow256Values();
    var b := PrepareOkPacket(p, rest);
    assert b[1..5] == ToLE(p.statementId, 4);
    assert b[5..7] == ToLE(p.columnCount, 2);
    assert b[7..9] == ToLE(p.parameterCount, 2);
    assert b[10..12] == ToLE(p.warningCount, 2);
  }

  // ---------------------------------------------------------------------------
  // Responses
  // ---------------------------------------------------------------------------

  /** One element of a response to a query or an execution. */
  datatype Reply =
    | OkReply(fields: OkFields)
    | ErrReply(rest: Bytes)
    | ResultSet(columns: nat, definitions: Option<seq<Bytes>>, eof: (nat, nat), rows: seq<Bytes>, end: RowsEnd)

  datatype RowsEnd = EndOfRows(fields: OkFields) | RowsError(rest: Bytes)

  /** A column definition: never empty and never mistaken for an error. */
  predicate IsDefinition(b: Bytes) {
    b != [] && b[0] != ERR_MARKER
  }

  /** A row that is not shaped like the packet that ends the rows. */
  predicate IsRow(b: Bytes, caps: nat) {
    && b != [] && b[0] != ERR_MARKER
    && if DeprecateEof(caps) then b[0] != EOF_MARKER else !IsEofShaped(b)
  }

  predicate IsReply(r: Reply, caps: nat) {
    match r
    case OkReply(fields) => IsOkFields(fields)
    case ErrReply(rest) => true
    case ResultSet(columns, definitions, eof, rows, end) =>
      && 0 < columns < 0x1_0000_0000_0000_0000
      && (definitions.None? ==> Has(caps, MARIADB_CLIENT_CACHE_METADATA))
      && (definitions.Some? ==>
            |definitions.value| == columns && forall d :: d in definitions.value ==> IsDefinition(d))
      && eof.0 < 0x1_0000 && eof.1 < 0x1_0000
      && (forall row :: row in rows ==> IsRow(row, caps))
      && (end.EndOfRows? ==> IsOkFields(end.fields))
  }

  /** Whether the reply announces another one. */
  predicate AnnouncesMore(r: Reply) {
    match r
    case OkReply(fields) => Has(fields.status, SERVER_MORE_RESULTS_EXISTS)
    case ErrReply(_) => false
    case ResultSet(_, _, _, _, end) => end.EndOfRows? && Has(end.fields.status, SERVER_MORE_RESULTS_EXISTS)
  }

  /** A chain of replies: each but the last announces the next one. */
  predicate IsResponse(replies: seq<Reply>, caps: nat) {
    && replies != []
    && IsReply(replies[0], caps)
    && if AnnouncesMore(replies[0]) then IsResponse(replies[1..], caps) else |replies| == 1
  }

  function EndPacket(end: RowsEnd, caps: nat): Bytes
    requires end.EndOfRows? ==> IsOkFields(end.fields)
  {
    match end
    case RowsError(rest) => ErrPacket(rest)
    case EndOfRows(fields) =>
      if DeprecateEof(caps) then OkPacket(EOF_MARKER, fields) else EofPacket(fields.status, fields.warnings)
  }

  /** What follows the header: definitions, the packet that ends them, rows, and the end. */
  function Body(r: Reply, caps: nat): seq<Bytes>
    requires r.ResultSet? && IsReply(r, caps)
  {
    (if r.definitions.Some? then r.definitions.value else [])
    + ((if DeprecateEof(caps) then [] else [EofPacket(r.eof.0, r.eof.1)])
    + (r.rows + [EndPacket(r.end, caps)]))
  }

  function Packets(r: Reply, caps: nat): seq<Bytes>
    requires IsReply(r, caps)
  {
    match r
    case OkReply(fields) => [OkPacket(OK_MARKER, fields)]
    case ErrReply(rest) => [ErrPacket(rest)]
    case ResultSet(columns, definitions, _, _, _) => [HeaderPacket(columns, definitions.Some?, caps)] + Body(r, caps)
  }

  /** All the packets of a response. */
  function ResponsePackets(replies: seq<Reply>, caps: nat): (packets: seq<Bytes>)
    requires IsResponse(replies, caps)
    ensures packets != []
  {
    Packets(replies[0], caps) + if AnnouncesMore(replies[0]) then ResponsePackets(replies[1..], caps) else []
  }

  // ---------------------------------------------------------------------------
  // Real rows are rows
  // ---------------------------------------------------------------------------

  function TextCell(cell: Option<Bytes>): (b: Bytes)
    requires cell.Some? ==> |cell.value| < 0x1_0000_0000_0000_0000
    ensures b != []
  {
    if cell.None? then [0xFB] else WriteLenenc(|cell.value|) + cell.value
  }

  /** A text row that fits in one packet starts with a NULL mark or a short length. */
  lemma TextRowIsRow(first: Option<Bytes>, others: Bytes, caps: nat)
    requires first.Some? ==> |first.value| < 0x1_0000_0000_0000_0000
    requires |TextCell(first) + others| < MAX_PACKET
    ensures IsRow(TextCell(first) + others, caps)
  {
    var row := TextCell(first) + others;
    assert row[0] == TextCell(first)[0];
    if first.Some? {
      assert |first.value| < MAX_PACKET;
    }
  }

  lemma BinaryRowIsRow(values: Bytes, caps: nat)
    ensures IsRow([0x00] + values, caps)
  {
    assert ([0x00] + values)[0] == 0x00;
  }
}
