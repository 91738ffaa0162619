/**
 The dispatcher as the source has it: it changes the session in place and writes to the two
 streams as it goes. Each method is proved to do what its function in module Dispatch says.
 */
module Dispatcher {
  import opened Wire
  import opened Assembler
  import opened ExecuteParams
  import opened Tracker
  import opened Session
  import opened SessionState
  import opened Streams
  import opened Dispatch
  import Scanner

  datatype Outcome = Forwarded | Refused | Waiting | Threw(error: Error)

  /** The session and both streams have gone from their old contents to what the effect says. */
  twostate predicate Performed(effect: Effect, outcome: Outcome, session: MySqlSessionState, backend: StreamWriter,
                               client: StreamWriter)
    reads session, backend, client
  {
    match effect
    case Wait =>
      outcome == Waiting && session.View() == old(session.View())
      && backend.written == old(backend.written) && client.written == old(client.written)
    case Crash(next, toBackend, error) =>
      outcome == Threw(error) && session.View() == next
      && backend.written == old(backend.written) + toBackend && client.written == old(client.written)
    case Effect(next, toBackend, toClient, _) =>
      outcome == (if toBackend == [] then Refused else Forwarded) && session.View() == next
      && backend.written == old(backend.written) + toBackend && client.written == old(client.written) + toClient
  }

  method SendRefusal(message: LogicalMessage, refusal: Refusal, policy: Policy, client: StreamWriter)
    modifies client
    ensures client.written
         == old(client.written) + [ErrorPacket(refusal, policy.text(refusal), NextSequenceId(message))]
  {
    client.Write(ErrorPacket(refusal, policy.text(refusal), NextSequenceId(message)));
  }

  method BlockProtocolStateError(message: LogicalMessage, policy: Policy, session: MySqlSessionState,
                                 backend: StreamWriter, client: StreamWriter)
    returns (outcome: Outcome)
    requires backend != client
    modifies client
    ensures Performed(Refuse(old(session.View()), message, policy, StateError), outcome, session, backend, client)
  {
    SendRefusal(message, StateError, policy, client);
    return Refused;
  }

  method HandleProtocolGap(message: LogicalMessage, policy: Policy, session: MySqlSessionState, backend: StreamWriter,
                           client: StreamWriter)
    returns (outcome: Outcome)
    requires backend != client
    modifies backend, client
    ensures Performed(Gap(old(session.View()), message, policy), outcome, session, backend, client)
  {
    if policy.mode.Permissive? {
      backend.Write(message.rawPackets);
      return Forwarded;
    }
    SendRefusal(message, ProtocolGap, policy, client);
    return Refused;
  }

  /** Policy has been asked about a query or an execution; its answer decides which stream is written. */
  method ForwardOrDeny(message: LogicalMessage, approved: bool, policy: Policy, backend: StreamWriter,
                       client: StreamWriter)
    requires backend != client
    modifies backend, client
    ensures backend.written == old(backend.written) + if approved then [message.rawPackets] else []
    ensures client.written
         == old(client.written)
          + if approved then [] else [ErrorPacket(PolicyDenial, policy.text(PolicyDenial), NextSequenceId(message))]
  {
    if approved {
      backend.Write(message.rawPackets);
    } else {
      SendRefusal(message, PolicyDenial, policy, client);
    }
  }

  method HandleCommandQuery(message: LogicalMessage, body: Bytes, policy: Policy, session: MySqlSessionState,
                            backend: StreamWriter, client: StreamWriter)
    returns (outcome: Outcome)
    requires backend != client
    modifies session, backend, client
    ensures Performed(DispatchQuery(old(session.View()), message, body, policy), outcome, session, backend, client)
  {
    var error := session.BeginCommandResponse(QueryCommand);
    if error.Some? {
      outcome := BlockProtocolStateError(message, policy, session, backend, client);
      return;
    }
    var sql := TextOf(body);
    if sql.None? {
      session.FailCommandForward();
      outcome := HandleProtocolGap(message, policy, session, backend, client);
      return;
    }
    var approved := policy.approve(sql.value);
    ForwardOrDeny(message, approved, policy, backend, client);
    if !approved {
      session.FailCommandForward();
    }
    return if approved then Forwarded else Refused;
  }

  method HandleInitDb(message: LogicalMessage, body: Bytes, policy: Policy, session: MySqlSessionState,
                      backend: StreamWriter, client: StreamWriter)
    returns (outcome: Outcome)
    requires backend != client
    modifies session, backend, client
    ensures Performed(DispatchInitDb(old(session.View()), message, body, policy), outcome, session, backend, client)
  {
    var database := TextOf(body);
    if database.None? {
      outcome := HandleProtocolGap(message, policy, session, backend, client);
      return;
    }
    var error := session.BeginDatabaseChange(database.value);
    if error.Some? {
      outcome := HandleProtocolGap(message, policy, session, backend, client);
      return;
    }
    backend.Write(message.rawPackets);
    return Forwarded;
  }

  method HandlePing(message: LogicalMessage, body: Bytes, policy: Policy, session: MySqlSessionState,
                    backend: StreamWriter, client: StreamWriter)
    returns (outcome: Outcome)
    requires backend != client
    modifies session, backend, client
    ensures Performed(DispatchPing(old(session.View()), message, body, policy), outcome, session, backend, client)
  {
    if body != [] {
      outcome := BlockProtocolStateError(message, policy, session, backend, client);
      return;
    }
    var error := session.BeginPing();
    if error.Some? {
      outcome := BlockProtocolStateError(message, policy, session, backend, client);
      return;
    }
    backend.Write(message.rawPackets);
    return Forwarded;
  }

  method HandlePrepare(message: LogicalMessage, body: Bytes, policy: Policy, session: MySqlSessionState,
                       backend: StreamWriter, client: StreamWriter)
    returns (outcome: Outcome)
    requires backend != client
    modifies session, backend, client
    ensures Performed(DispatchPrepare(old(session.View()), message, body, policy), outcome, session, backend, client)
  {
    var sql := TextOf(body);
    if sql.None? {
      outcome := HandleProtocolGap(message, policy, session, backend, client);
      return;
    }
    var error := session.BeginStatementPrepare(sql.value);
    if error.Some? {
      outcome := HandleProtocolGap(message, policy, session, backend, client);
      return;
    }
    backend.Write(message.rawPackets);
    return Forwarded;
  }

  method HandleClose(message: LogicalMessage, body: Bytes, policy: Policy, session: MySqlSessionState,
                     backend: StreamWriter, client: StreamWriter)
    returns (outcome: Outcome)
    requires backend != client
    modifies session, backend, client
    ensures Performed(DispatchClose(old(session.View()), message, body, policy), outcome, session, backend, client)
  {
    if session.HasPendingLifecycleOperation() {
      outcome := BlockProtocolStateError(message, policy, session, backend, client);
      return;
    }
    if |body| < 4 {
      outcome := HandleProtocolGap(message, policy, session, backend, client);
      return;
    }
    session.ClosePreparedStatement(FromLE(body[..4]));
    backend.Write(message.rawPackets);
    return Forwarded;
  }

  method HandleLongData(message: LogicalMessage, body: Bytes, policy: Policy, session: MySqlSessionState,
                        backend: StreamWriter, client: StreamWriter)
    returns (outcome: Outcome)
    requires backend != client
    modifies session, backend, client
    ensures Performed(DispatchLongData(old(session.View()), message, body, policy), outcome, session, backend, client)
  {
    if |body| < 6 {
      outcome := HandleProtocolGap(message, policy, session, backend, client);
      return;
    }
    var id, parameterId := FromLE(body[..4]), FromLE(body[4..6]);
    var found := session.GetPreparedStatement(id);
    if !found.Statement? || parameterId >= found.statement.parameterCount {
      outcome := HandleProtocolGap(message, policy, session, backend, client);
      return;
    }
    outcome := HandleProtocolGap(message, policy, session, backend, client);
    if outcome.Forwarded? {
      var _ := session.MarkStatementLongData(id, parameterId);
    }
  }

  method HandleReset(message: LogicalMessage, body: Bytes, policy: Policy, session: MySqlSessionState,
                     backend: StreamWriter, client: StreamWriter)
    returns (outcome: Outcome)
    requires backend != client
    modifies session, backend, client
    ensures Performed(DispatchReset(old(session.View()), message, body, policy), outcome, session, backend, client)
  {
    if |body| != 4 {
      outcome := BlockProtocolStateError(message, policy, session, backend, client);
      return;
    }
    var error := session.BeginStatementReset(FromLE(body));
    if error.Some? {
      outcome := BlockProtocolStateError(message, policy, session, backend, client);
      return;
    }
    backend.Write(message.rawPackets);
    return Forwarded;
  }

  /** An execution has been sent on: keep its types. */
  method KeepParameterTypes(message: LogicalMessage, statement: Prepared, d: Decoded, inspected: Inspected,
                            session: MySqlSessionState, backend: StreamWriter, client: StreamWriter)
    returns (outcome: Outcome)
    requires backend != client
    modifies session, backend
    ensures Performed(AfterForward(old(session.View()), message, statement, d, inspected), outcome, session, backend,
                      client)
  {
    backend.Write(message.rawPackets);
    var error := session.RegisterStatementParameterTypes(statement.statementId, d.types);
    return if error.Some? then Threw(error.value) else Forwarded;
  }

  /** The reconstructed SQL of an execution, or nothing where decoding or rewriting raises. */
  method Inspect(e: StmtExecute, statement: Prepared,
                 policy: Policy) returns (inspection: Option<(Decoded, seq<string>, string)>)
    ensures var decoded := Decode(policy.floatText, e, statement.parameterCount, statement.parameterTypes);
      if statement.longData != {} || decoded.None? then inspection == None
      else
        var literals := Literals(decoded.value.parameters);
        var sql := Scanner.Fill(statement.sql, Scanner.Sql, literals);
        inspection == if sql.None? then None else Some((decoded.value, literals, sql.value))
  {
    if statement.longData != {} {
      return None;
    }
    var decoded := ParseStmtExecuteParameters(policy.floatText, e, statement.parameterCount, statement.parameterTypes);
    if decoded.None? {
      return None;
    }
    var literals := Literals(decoded.value.parameters);
    var sql := Scanner.ReconstructStmtExecuteSql(statement.sql, literals);
    return if sql.None? then None else Some((decoded.value, literals, sql.value));
  }

  method HandleExecution(message: LogicalMessage, e: StmtExecute, statement: Prepared, policy: Policy,
                         session: MySqlSessionState, backend: StreamWriter, client: StreamWriter)
    returns (outcome: Outcome)
    requires backend != client
    modifies session, backend, client
    ensures Performed(ExecuteStatement(old(session.View()), message, e, statement, policy), outcome, session, backend,
                      client)
  {
    var inspection := Inspect(e, statement, policy);
    if inspection.None? {
      outcome := HandleProtocolGap(message, policy, session, backend, client);
      return;
    }
    var (decoded, literals, sql) := inspection.value;
    var error := session.BeginCommandResponse(ExecuteCommand);
    if error.Some? {
      session.FailCommandForward();
      return Threw(error.value);
    }
    if policy.unparseable(sql) {
      if policy.mode.Permissive? {
        outcome := KeepParameterTypes(message, statement, decoded, Nothing, session, backend, client);
        return;
      }
      SendRefusal(message, ProtocolGap, policy, client);
      session.FailCommandForward();
      return Refused;
    }
    if policy.approve(sql) {
      outcome := KeepParameterTypes(message, statement, decoded, Execution(statement.sql, literals), session, backend,
                                    client);
      return;
    }
    SendRefusal(message, PolicyDenial, policy, client);
    session.FailCommandForward();
    return Refused;
  }

  method HandleFound(message: LogicalMessage, e: StmtExecute, found: Found, policy: Policy,
                     session: MySqlSessionState, backend: StreamWriter, client: StreamWriter)
    returns (outcome: Outcome)
    requires backend != client
    modifies session, backend, client
    ensures Performed(ExecuteFound(old(session.View()), message, e, found, policy), outcome, session, backend, client)
  {
    match found {
      case NoStatement => outcome := BlockProtocolStateError(message, policy, session, backend, client);
      case Missing(_) => outcome := HandleProtocolGap(message, policy, session, backend, client);
      case Statement(statement) => outcome := HandleExecution(message, e, statement, policy, session, backend, client);
    }
  }

  /** A pipelined execution stops here until the prepare's event is set. */
  method HandleExecute(message: LogicalMessage, body: Bytes, policy: Policy, session: MySqlSessionState,
                       backend: StreamWriter, client: StreamWriter)
    returns (outcome: Outcome)
    requires backend != client
    modifies session, backend, client
    ensures Performed(DispatchExecute(old(session.View()), message, body, policy), outcome, session, backend, client)
  {
    var e := ParseStmtExecute(body);
    if e.None? {
      outcome := HandleProtocolGap(message, policy, session, backend, client);
      return;
    }
    var found;
    if e.value.statementId != MARIADB_STMT_ID_LAST {
      found := session.GetPreparedStatement(e.value.statementId);
    } else if session.pendingStatementSql.None? {
      found := session.GetLastPreparedStatement();
    } else if session.pendingPrepareEvent.None? {
      outcome := HandleProtocolGap(message, policy, session, backend, client);
      return;
    } else if session.pendingPrepareEvent.value {
      found := session.StatementAfterPrepare();
    } else {
      return Waiting;
    }
    outcome := HandleFound(message, e.value, found, policy, session, backend, client);
  }

  /** What follows the wait. */
  method ResumePipelinedExecute(message: LogicalMessage, policy: Policy, session: MySqlSessionState,
                                backend: StreamWriter, client: StreamWriter)
    returns (outcome: Outcome)
    requires backend != client
    modifies session, backend, client
    requires message.payload != []
    ensures Performed(ResumeExecute(old(session.View()), message, policy), outcome, session, backend, client)
  {
    var e := ParseStmtExecute(message.payload[1..]);
    if e.None? {
      outcome := HandleProtocolGap(message, policy, session, backend, client);
      return;
    }
    var found := session.StatementAfterPrepare();
    outcome := HandleFound(message, e.value, found, policy, session, backend, client);
  }

  method DispatchAuthenticatedCommand(message: LogicalMessage, policy: Policy, session: MySqlSessionState,
                                      backend: StreamWriter, client: StreamWriter)
    returns (outcome: Outcome)
    requires backend != client
    modifies session, backend, client
    ensures Performed(Dispatch.Dispatch(old(session.View()), message, policy), outcome, session, backend, client)
  {
    if message.payload == [] {
      outcome := HandleProtocolGap(message, policy, session, backend, client);
      return;
    }
    var code, body := message.payload[0], message.payload[1..];
    var pipelined :=
      && code == COM_STMT_EXECUTE && |body| >= 4 && FromLE(body[..4]) == MARIADB_STMT_ID_LAST
      && session.pendingStatementSql.Some?;
    if session.HasPendingLifecycleOperation() && code != COM_QUIT && !pipelined {
      outcome := BlockProtocolStateError(message, policy, session, backend, client);
    } else if code == COM_QUERY {
      outcome := HandleCommandQuery(message, body, policy, session, backend, client);
    } else if code == COM_INIT_DB {
      outcome := HandleInitDb(message, body, policy, session, backend, client);
    } else if code == COM_QUIT {
      session.MarkClosing();
      backend.Write(message.rawPackets);
      outcome := Forwarded;
    } else if code == COM_PING {
      outcome := HandlePing(message, body, policy, session, backend, client);
    } else if code == COM_STMT_PREPARE {
      outcome := HandlePrepare(message, body, policy, session, backend, client);
    } else if code == COM_STMT_CLOSE {
      outcome := HandleClose(message, body, policy, session, backend, client);
    } else if code == COM_STMT_EXECUTE {
      outcome := HandleExecute(message, body, policy, session, backend, client);
    } else if code == COM_STMT_SEND_LONG_DATA {
      outcome := HandleLongData(message, body, policy, session, backend, client);
    } else if code == COM_STMT_RESET {
      outcome := HandleReset(message, body, policy, session, backend, client);
    } else {
      outcome := HandleProtocolGap(message, policy, session, backend, client);
    }
  }
}
