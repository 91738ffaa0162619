/**
 What the proxy does with one client command, as a function: the session after it,
 what goes to the backend, what goes to the client. Classification, row estimation
 and confirmation are the policy's answers about the SQL it is shown.
 */
module Dispatch {
  import opened Wire
  import opened Framing
  import opened Assembler
  import opened ExecuteParams
  import opened Tracker
  import opened Session
  import Scanner
  import Utf8

  const COM_QUIT: byte := 0x01
  const COM_INIT_DB: byte := 0x02
  const COM_QUERY: byte := 0x03
  const COM_PING: byte := 0x0E
  const COM_STMT_PREPARE: byte := 0x16
  const COM_STMT_EXECUTE: byte := 0x17
  const COM_STMT_SEND_LONG_DATA: byte := 0x18
  const COM_STMT_CLOSE: byte := 0x19
  const COM_STMT_RESET: byte := 0x1A

  const MARIADB_STMT_ID_LAST: nat := 0xFFFF_FFFF

  datatype Mode = Strict | Balanced | Permissive

  /** Why a command is answered by the proxy itself. */
  datatype Refusal = StateError | ProtocolGap | PolicyDenial

  /** The text of an error message; it leaves room for the rest of the packet. */
  type ErrorText = b: Bytes | |b| <= 0xFF_FF00 witness []

  datatype Policy = Policy(
    mode: Mode,
    unparseable: string -> bool,
    approve: string -> bool,
    text: Refusal -> ErrorText,
    floatText: FloatText)

  /** The SQL shown to the policy: a query's own text, or a template with its literals. */
  datatype Inspected = Nothing | Query(sql: string) | Execution(template: string, literals: seq<string>)

  datatype Effect =
    | Effect(next: State, toBackend: seq<Bytes>, toClient: seq<Bytes>, inspected: Inspected)
    | Wait
    | Crash(next: State, toBackend: seq<Bytes>, error: Error)

  function ErrorCode(r: Refusal): nat {
    if r.ProtocolGap? then 1235 else 1148
  }

  /** SQLSTATE "0A000" for a gap, "42000" otherwise, in ASCII. */
  function SqlState(r: Refusal): Bytes {
    if r.ProtocolGap? then [0x30, 0x41, 0x30, 0x30, 0x30] else [0x34, 0x32, 0x30, 0x30, 0x30]
  }

  function ErrorPayload(r: Refusal, text: ErrorText): (payload: Bytes)
    ensures |payload| == 9 + |text| && payload[0] == 0xFF
  {
    Pow256Values();
    [0xFF] + ToLE(ErrorCode(r), 2) + [0x23] + SqlState(r) + text
  }

  function ErrorPacket(r: Refusal, text: ErrorText, sequenceId: byte): Bytes {
    BuildPacket(ErrorPayload(r, text), sequenceId).value
  }

  function NextSequenceId(m: LogicalMessage): byte {
    (m.lastSequenceId + 1) % 256
  }

  function Refuse(s: State, m: LogicalMessage, policy: Policy, r: Refusal): Effect {
    Effect(s, [], [ErrorPacket(r, policy.text(r), NextSequenceId(m))], Nothing)
  }

  function Forward(s: State, m: LogicalMessage, inspected: Inspected): Effect {
    Effect(s, [m.rawPackets], [], inspected)
  }

  /** Traffic that cannot be inspected: only the permissive mode lets it through. */
  function Gap(s: State, m: LogicalMessage, policy: Policy): Effect {
    if policy.mode.Permissive? then Forward(s, m, Nothing) else Refuse(s, m, policy, ProtocolGap)
  }

  function TextOf(body: Bytes): Option<string> {
    if body == [] then None else Utf8.Decode(body)
  }

  function ParseStmtExecute(body: Bytes): Option<StmtExecute> {
    if |body| < 9 then None
    else Some(StmtExecute(FromLE(body[..4]), body[4], FromLE(body[5..9]), body[9..]))
  }

  // ---------------------------------------------------------------------------
  // Command by command
  // ---------------------------------------------------------------------------

  function DispatchQuery(s: State, m: LogicalMessage, body: Bytes, policy: Policy): Effect {
    var begun := BeginCommandResponse(s, QueryCommand);
    if begun.Raised? then Refuse(s, m, policy, StateError)
    else
      var sql := TextOf(body);
      if sql.None? then Gap(FailCommandForward(begun.next), m, policy)
      else if policy.approve(sql.value) then Forward(begun.next, m, Query(sql.value))
      else Refuse(FailCommandForward(begun.next), m, policy, PolicyDenial)
  }

  function DispatchInitDb(s: State, m: LogicalMessage, body: Bytes, policy: Policy): Effect {
    var database := TextOf(body);
    if database.None? then Gap(s, m, policy)
    else
      var begun := BeginDatabaseChange(s, database.value);
      if begun.Raised? then Gap(s, m, policy) else Forward(begun.next, m, Nothing)
  }

  function DispatchPing(s: State, m: LogicalMessage, body: Bytes, policy: Policy): Effect {
    var begun := BeginPing(s);
    if body != [] || begun.Raised? then Refuse(s, m, policy, StateError) else Forward(begun.next, m, Nothing)
  }

  function DispatchPrepare(s: State, m: LogicalMessage, body: Bytes, policy: Policy): Effect {
    var sql := TextOf(body);
    if sql.None? then Gap(s, m, policy)
    else
      var begun := BeginStatementPrepare(s, sql.value);
      if begun.Raised? then Gap(s, m, policy) else Forward(begun.next, m, Nothing)
  }

  function DispatchClose(s: State, m: LogicalMessage, body: Bytes, policy: Policy): Effect {
    if HasPending(s) then Refuse(s, m, policy, StateError)
    else if |body| < 4 then Gap(s, m, policy)
    else Forward(ClosePreparedStatement(s, FromLE(body[..4])), m, Nothing)
  }

  /** An execution has been let through: its types are kept for the next one. */
  function AfterForward(s: State, m: LogicalMessage, statement: Prepared, d: Decoded, inspected: Inspected): Effect {
    var registered := RegisterParameterTypes(s, statement.statementId, d.types);
    if registered.Raised? then Crash(registered.next, [m.rawPackets], registered.error)
    else Forward(registered.next, m, inspected)
  }

  function ExecuteStatement(s: State, m: LogicalMessage, e: StmtExecute, statement: Prepared, policy: Policy): Effect {
    var decoded := Decode(policy.floatText, e, statement.parameterCount, statement.parameterTypes);
    if statement.longData != {} || decoded.None? then Gap(s, m, policy)
    else
      var literals := Literals(decoded.value.parameters);
      var sql := Scanner.Fill(statement.sql, Scanner.Sql, literals);
      if sql.None? then Gap(s, m, policy)
      else
        var begun := BeginCommandResponse(s, ExecuteCommand);
        if begun.Raised? then Crash(FailCommandForward(s), [], begun.error)
        else if policy.unparseable(sql.value) then
          if policy.mode.Permissive? then AfterForward(begun.next, m, statement, decoded.value, Nothing)
          else Refuse(FailCommandForward(begun.next), m, policy, ProtocolGap)
        else if policy.approve(sql.value) then
          AfterForward(begun.next, m, statement, decoded.value, Execution(statement.sql, literals))
        else Refuse(FailCommandForward(begun.next), m, policy, PolicyDenial)
  }

  function ExecuteFound(s: State, m: LogicalMessage, e: StmtExecute, found: Found, policy: Policy): Effect {
    match found
    case NoStatement => Refuse(s, m, policy, StateError)
    case Missing(_) => Gap(s, m, policy)
    case Statement(statement) => ExecuteStatement(s, m, e, statement, policy)
  }

  function DispatchExecute(s: State, m: LogicalMessage, body: Bytes, policy: Policy): Effect {
    var e := ParseStmtExecute(body);
    if e.None? then Gap(s, m, policy)
    else if e.value.statementId != MARIADB_STMT_ID_LAST then
      ExecuteFound(s, m, e.value, GetPreparedStatement(s, e.value.statementId), policy)
    else if s.prepare.sql.None? then ExecuteFound(s, m, e.value, GetLastPreparedStatement(s), policy)
    else if s.prepare.event.None? then Gap(s, m, policy)
    else if s.prepare.event.value then ExecuteFound(s, m, e.value, PreparedAfterWait(s), policy)
    else Wait
  }

  /** A waiting pipelined execution goes on when the prepare's event is set. */
  function ResumeExecute(s: State, m: LogicalMessage, policy: Policy): Effect
    requires m.payload != []
  {
    var e := ParseStmtExecute(m.payload[1..]);
    if e.None? then Gap(s, m, policy) else ExecuteFound(s, m, e.value, PreparedAfterWait(s), policy)
  }

  function DispatchLongData(s: State, m: LogicalMessage, body: Bytes, policy: Policy): Effect {
    if |body| < 6 then Gap(s, m, policy)
    else
      var marked := MarkLongData(s, FromLE(body[..4]), FromLE(body[4..6]));
      if marked.Raised? || !policy.mode.Permissive? then Gap(s, m, policy) else Forward(marked.next, m, Nothing)
  }

  function DispatchReset(s: State, m: LogicalMessage, body: Bytes, policy: Policy): Effect {
    if |body| != 4 then Refuse(s, m, policy, StateError)
    else
      var begun := BeginStatementReset(s, FromLE(body));
      if begun.Raised? then Refuse(s, m, policy, StateError) else Forward(begun.next, m, Nothing)
  }

  /** An execution of the last statement may be sent before that statement's prepare is answered. */
  predicate IsPipelinedExecute(s: State, m: LogicalMessage) {
    && m.payload != [] && m.payload[0] == COM_STMT_EXECUTE
    && |m.payload| >= 5 && FromLE(m.payload[1..][..4]) == MARIADB_STMT_ID_LAST
    && s.prepare.sql.Some?
  }

  function Dispatch(s: State, m: LogicalMessage, policy: Policy): Effect {
    if m.payload == [] then Gap(s, m, policy)
    else
      var code, body := m.payload[0], m.payload[1..];
      if HasPending(s) && code != COM_QUIT && !IsPipelinedExecute(s, m) then Refuse(s, m, policy, StateError)
      else if code == COM_QUERY then DispatchQuery(s, m, body, policy)
      else if code == COM_INIT_DB then DispatchInitDb(s, m, body, policy)
      else if code == COM_QUIT then Forward(s.(closing := true), m, Nothing)
      else if code == COM_PING then DispatchPing(s, m, body, policy)
      else if code == COM_STMT_PREPARE then DispatchPrepare(s, m, body, policy)
      else if code == COM_STMT_CLOSE then DispatchClose(s, m, body, policy)
      else if code == COM_STMT_EXECUTE then DispatchExecute(s, m, body, policy)
      else if code == COM_STMT_SEND_LONG_DATA then DispatchLongData(s, m, body, policy)
      else if code == COM_STMT_RESET then DispatchReset(s, m, body, policy)
      else Gap(s, m, policy)
  }

  // ---------------------------------------------------------------------------
  // Forward verbatim or refuse without a trace
  // ---------------------------------------------------------------------------

  /** One whole ERR packet that answers the message. */
  predicate IsErrorAnswer(raw: Bytes, m: LogicalMessage) {
    && IsFrame(Framing.MySql(MAX_PACKET_PAYLOAD + 4), raw)
    && PacketOf(raw).sequenceId == NextSequenceId(m)
    && |PacketOf(raw).payload| >= 9 && PacketOf(raw).payload[0] == 0xFF
  }

  predicate IsForward(effect: Effect, m: LogicalMessage) {
    effect.Effect? && effect.toBackend == [m.rawPackets] && effect.toClient == []
  }

  predicate IsRefusal(effect: Effect, s: State, m: LogicalMessage) {
    && effect.Effect? && effect.toBackend == [] && |effect.toClient| == 1 && IsErrorAnswer(effect.toClient[0], m)
    && effect.next == s
  }

  lemma RefuseIsRefusal(s: State, m: LogicalMessage, policy: Policy, r: Refusal)
    ensures IsRefusal(Refuse(s, m, policy, r), s, m)
  {
    BuiltPacketReadsBack(MAX_PACKET_PAYLOAD + 4, ErrorPayload(r, policy.text(r)), NextSequenceId(m));
  }

  /** A command begun and given up leaves the session as it was, because nothing was pending. */
  lemma GivingUpRestores(s: State, command: Command)
    requires IsTracked(s.tracker) && BeginCommandResponse(s, command).Done?
    ensures FailCommandForward(BeginCommandResponse(s, command).next) == s
  {
  }

  lemma ExecuteStatementIsAllOrNothing(s: State, m: LogicalMessage, e: StmtExecute, statement: Prepared, policy: Policy)
    requires IsTracked(s.tracker) && AreWellFormed(s.registry.statements) && !HasPending(s)
    requires s.registry.statements.Items >= {(statement.statementId, statement)}
    ensures var effect := ExecuteStatement(s, m, e, statement, policy);
      IsForward(effect, m) || IsRefusal(effect, s, m)
  {
    GivingUpRestores(s, ExecuteCommand);
    assert (statement.statementId, statement) in s.registry.statements.Items;
    RefuseIsRefusal(s, m, policy, ProtocolGap);
    RefuseIsRefusal(s, m, policy, PolicyDenial);
  }

  lemma ExecuteFoundIsAllOrNothing(s: State, m: LogicalMessage, e: StmtExecute, found: Found, policy: Policy)
    requires IsTracked(s.tracker) && AreWellFormed(s.registry.statements) && !HasPending(s)
    requires found.Statement? ==>
        exists id :: id in s.registry.statements && s.registry.statements[id] == found.statement
    ensures var effect := ExecuteFound(s, m, e, found, policy);
      IsForward(effect, m) || IsRefusal(effect, s, m)
  {
    RefuseIsRefusal(s, m, policy, StateError);
    RefuseIsRefusal(s, m, policy, ProtocolGap);
    if found.Statement? {
      var id :| id in s.registry.statements && s.registry.statements[id] == found.statement;
      assert IsWellFormed(id, found.statement);
      assert (id, found.statement) in s.registry.statements.Items;
      ExecuteStatementIsAllOrNothing(s, m, e, found.statement, policy);
    }
  }

  predicate IsAllOrNothing(effect: Effect, s: State, m: LogicalMessage) {
    IsForward(effect, m) || IsRefusal(effect, s, m)
  }

  lemma QueryIsAllOrNothing(s: State, m: LogicalMessage, body: Bytes, policy: Policy)
    requires IsTracked(s.tracker)
    ensures IsAllOrNothing(DispatchQuery(s, m, body, policy), s, m)
  {
    RefuseIsRefusal(s, m, policy, StateError);
    RefuseIsRefusal(s, m, policy, ProtocolGap);
    RefuseIsRefusal(s, m, policy, PolicyDenial);
    if !HasPending(s) {
      GivingUpRestores(s, QueryCommand);
    }
  }

  lemma ExecuteIsAllOrNothing(s: State, m: LogicalMessage, body: Bytes, policy: Policy)
    requires IsTracked(s.tracker) && AreWellFormed(s.registry.statements)
    requires HasPending(s) ==> s.prepare.sql.Some? && s.prepare.event == Some(false)
    requires HasPending(s) && ParseStmtExecute(body).Some? ==>
        ParseStmtExecute(body).value.statementId == MARIADB_STMT_ID_LAST
    ensures var effect := DispatchExecute(s, m, body, policy); effect.Wait? || IsAllOrNothing(effect, s, m)
  {
    RefuseIsRefusal(s, m, policy, ProtocolGap);
    var e := ParseStmtExecute(body);
    if e.Some? && !HasPending(s) {
      ExecuteFoundIsAllOrNothing(s, m, e.value, GetPreparedStatement(s, e.value.statementId), policy);
      ExecuteFoundIsAllOrNothing(s, m, e.value, GetLastPreparedStatement(s), policy);
    }
  }

  lemma GapIsAllOrNothing(s: State, m: LogicalMessage, policy: Policy)
    ensures IsAllOrNothing(Gap(s, m, policy), s, m)
  {
    RefuseIsRefusal(s, m, policy, ProtocolGap);
  }

  lemma ConnectionCommandsAreAllOrNothing(s: State, m: LogicalMessage, body: Bytes, policy: Policy)
    ensures IsAllOrNothing(DispatchInitDb(s, m, body, policy), s, m)
    ensures IsAllOrNothing(DispatchPing(s, m, body, policy), s, m)
  {
    RefuseIsRefusal(s, m, policy, StateError);
    GapIsAllOrNothing(s, m, policy);
  }

  lemma StatementCommandsAreAllOrNothing(s: State, m: LogicalMessage, body: Bytes, policy: Policy)
    ensures IsAllOrNothing(DispatchPrepare(s, m, body, policy), s, m)
    ensures IsAllOrNothing(DispatchClose(s, m, body, policy), s, m)
    ensures IsAllOrNothing(DispatchLongData(s, m, body, policy), s, m)
    ensures IsAllOrNothing(DispatchReset(s, m, body, policy), s, m)
  {
    RefuseIsRefusal(s, m, policy, StateError);
    GapIsAllOrNothing(s, m, policy);
  }

  /**
   In every mode a command either reaches the backend as it came, once, with nothing
   said to the client, or is answered by one ERR packet and leaves no trace in the session.
   */
  lemma DispatchIsAllOrNothing(s: State, m: LogicalMessage, policy: Policy)
    requires IsTracked(s.tracker) && AreWellFormed(s.registry.statements)
    requires s.prepare.sql.Some? ==> s.prepare.event == Some(false)
    ensures var effect := Dispatch(s, m, policy); effect.Wait? || IsAllOrNothing(effect, s, m)
  {
    if m.payload == [] {
      GapIsAllOrNothing(s, m, policy);
    } else if HasPending(s) && m.payload[0] != COM_QUIT && !IsPipelinedExecute(s, m) {
      RefuseIsRefusal(s, m, policy, StateError);
    } else {
      AcceptedIsAllOrNothing(s, m, policy);
    }
  }

  /** A command the pending test lets through. */
  lemma AcceptedIsAllOrNothing(s: State, m: LogicalMessage, policy: Policy)
    requires IsTracked(s.tracker) && AreWellFormed(s.registry.statements)
    requires s.prepare.sql.Some? ==> s.prepare.event == Some(false)
    requires m.payload != [] && (!HasPending(s) || m.payload[0] == COM_QUIT || IsPipelinedExecute(s, m))
    ensures var effect := Dispatch(s, m, policy); effect.Wait? || IsAllOrNothing(effect, s, m)
  {
    var code, body := m.payload[0], m.payload[1..];
    if code == COM_QUERY {
      QueryIsAllOrNothing(s, m, body, policy);
    } else if code == COM_STMT_EXECUTE {
      ExecuteIsAllOrNothing(s, m, body, policy);
    } else if code == COM_INIT_DB || code == COM_PING {
      ConnectionCommandsAreAllOrNothing(s, m, body, policy);
    } else if code == COM_STMT_PREPARE || code == COM_STMT_CLOSE || code == COM_STMT_SEND_LONG_DATA
              || code == COM_STMT_RESET {
      StatementCommandsAreAllOrNothing(s, m, body, policy);
    } else {
      GapIsAllOrNothing(s, m, policy);
    }
  }

  /** The same for an execution that had to wait, from the state in which its wait ended. */
  lemma ResumeIsAllOrNothing(s: State, m: LogicalMessage, policy: Policy)
    requires IsTracked(s.tracker) && AreWellFormed(s.registry.statements) && !HasPending(s) && m.payload != []
    ensures IsAllOrNothing(ResumeExecute(s, m, policy), s, m)
  {
    RefuseIsRefusal(s, m, policy, ProtocolGap);
    var e := ParseStmtExecute(m.payload[1..]);
    if e.Some? {
      ExecuteFoundIsAllOrNothing(s, m, e.value, PreparedAfterWait(s), policy);
    }
  }
}
