/** The PostgreSQL session object and its message handlers, changing state and streams in place. */
module PgSession {
  import opened Wire
  import opened Framing
  import opened MapSum
  import opened PgMessages
  import opened PgStartup
  import opened PgConnection
  import opened PgFrontend
  import opened Streams

  class ConnectionState {
    var transactionStatus: TransactionStatus
    var extendedErrorPending: bool
    var preparedStatements: Prepared
    var portals: Portals
    const maxItems: nat
    const maxStateBytes: nat

    ghost function View(): Connection
      reads this
    {
      Connection(transactionStatus, extendedErrorPending, preparedStatements, portals, maxItems, maxStateBytes)
    }

    constructor (maxItems: nat, maxStateBytes: nat)
      ensures View() == Fresh(maxItems, maxStateBytes)
    {
      transactionStatus, extendedErrorPending := Idle, false;
      preparedStatements, portals := map[], map[];
      this.maxItems, this.maxStateBytes := maxItems, maxStateBytes;
    }

    method CountStateBytes() returns (total: nat)
      ensures total == StateBytes(View())
    {
      var statementBytes := AddUp(preparedStatements, StatementWeight);
      var portalBytes := AddUp(portals, PortalWeight);
      return statementBytes + portalBytes;
    }

    /** accepted is false where the source raises; the state is then as it was. */
    method RegisterStatement(name: string, query: string) returns (accepted: bool)
      modifies this`preparedStatements, this`portals
      ensures var r := PgConnection.RegisterStatement(old(View()), name, query);
        accepted == r.Some? && View() == if accepted then r.value else old(View())
    {
      if name !in preparedStatements && |preparedStatements| >= maxItems {
        return false;
      }
      var projected: int := CountStateBytes();
      TotalUpdate(preparedStatements, StatementWeight, name, query);
      if name in preparedStatements {
        projected := projected - StatementWeight(name, preparedStatements[name]);
      }
      projected := projected + StatementWeight(name, query);
      if projected > maxStateBytes {
        return false;
      }
      if name == "" {
        portals := Unbound(portals, "");
      }
      preparedStatements := preparedStatements[name := query];
      return true;
    }

    method RegisterPortal(bind: BindMessage) returns (accepted: bool)
      modifies this`portals
      ensures var r := PgConnection.RegisterPortal(old(View()), bind);
        accepted == r.Some? && View() == if accepted then r.value else old(View())
    {
      if bind.portalName !in portals && |portals| >= maxItems {
        return false;
      }
      var projected: int := CountStateBytes();
      TotalUpdate(portals, PortalWeight, bind.portalName, bind);
      if bind.portalName in portals {
        projected := projected - PortalWeight(bind.portalName, portals[bind.portalName]);
      }
      projected := projected + PortalWeight(bind.portalName, bind);
      if projected > maxStateBytes {
        return false;
      }
      portals := portals[bind.portalName := bind];
      return true;
    }

    method CloseStatement(name: string)
      modifies this`preparedStatements, this`portals
      ensures View() == PgConnection.CloseStatement(old(View()), name)
    {
      preparedStatements := preparedStatements - {name};
      portals := Unbound(portals, name);
    }

    method ClosePortal(name: string)
      modifies this`portals
      ensures View() == PgConnection.ClosePortal(old(View()), name)
    {
      portals := portals - {name};
    }

    method UpdateTransactionStatus(status: TransactionStatus)
      modifies this`transactionStatus, this`portals
      ensures View() == PgConnection.UpdateTransactionStatus(old(View()), status)
    {
      transactionStatus := status;
      if status == Idle {
        portals := map[];
      }
    }
  }

  function AllBytes(answers: seq<Answer>): seq<Bytes> {
    seq(|answers|, i requires 0 <= i < |answers| => AnswerBytes(answers[i]))
  }

  /** The session and both streams have gone from their old contents to what the effect says. */
  twostate predicate Performed(effect: Effect, m: Message, state: ConnectionState, backend: StreamWriter,
                               client: StreamWriter)
    reads state, backend, client
  {
    && state.View() == effect.next
    && backend.written == old(backend.written) + (if effect.forwarded then [m.raw] else [])
    && client.written == old(client.written) + AllBytes(effect.answers)
  }

  lemma OneAndTwo(a: Answer, b: Answer)
    ensures AllBytes([]) == [] && AllBytes([a]) == [AnswerBytes(a)]
    ensures AllBytes([a, b]) == [AnswerBytes(a)] + [AnswerBytes(b)]
  {
  }

  method RefuseSimple(m: Message, policy: Policy, reason: Reason, state: ConnectionState, backend: StreamWriter,
                      client: StreamWriter)
    requires backend != client
    modifies client
    ensures Performed(RefuseQuery(old(state.View()), policy, reason), m, state, backend, client)
  {
    ghost var error, ready := ErrorAnswer(reason, policy.text(reason)), ReadyAnswer(state.transactionStatus);
    OneAndTwo(error, ready);
    Assoc(client.written, [AnswerBytes(error)], [AnswerBytes(ready)]);
    client.Write(AnswerBytes(ErrorAnswer(reason, policy.text(reason))));
    client.Write(AnswerBytes(ReadyAnswer(state.transactionStatus)));
  }

  method Refuse(m: Message, policy: Policy, reason: Reason, state: ConnectionState, backend: StreamWriter,
                client: StreamWriter)
    requires backend != client
    modifies state`extendedErrorPending, client
    ensures Performed(RefuseExtended(old(state.View()), policy, reason), m, state, backend, client)
  {
    ghost var error := ErrorAnswer(reason, policy.text(reason));
    OneAndTwo(error, error);
    client.Write(AnswerBytes(ErrorAnswer(reason, policy.text(reason))));
    state.extendedErrorPending := true;
  }

  method HandleProtocolGap(m: Message, policy: Policy, extendedRecovery: bool, state: ConnectionState,
                           backend: StreamWriter, client: StreamWriter)
    requires backend != client
    modifies state`extendedErrorPending, backend, client
    ensures var was := old(state.View());
      Performed(if extendedRecovery then ExtendedGap(was, policy) else QueryGap(was, policy), m, state, backend, client)
  {
    if policy.mode.Permissive? {
      backend.Write(m.raw);
    } else if extendedRecovery {
      Refuse(m, policy, ProtocolGap, state, backend, client);
    } else {
      RefuseSimple(m, policy, ProtocolGap, state, backend, client);
    }
  }

  method HandleSimpleQuery(m: Message, policy: Policy, state: ConnectionState, backend: StreamWriter,
                           client: StreamWriter)
    requires backend != client
    modifies state, backend, client
    ensures Performed(HandleQuery(old(state.View()), m, policy), m, state, backend, client)
  {
    var sql := QueryText(m.payload);
    if sql.None? {
      HandleProtocolGap(m, policy, false, state, backend, client);
    } else if policy.approve(sql.value) {
      backend.Write(m.raw);
    } else {
      RefuseSimple(m, policy, PolicyDenial, state, backend, client);
    }
  }

  method HandleParseMessage(m: Message, policy: Policy, state: ConnectionState, backend: StreamWriter,
                            client: StreamWriter)
    requires backend != client
    modifies state, backend, client
    ensures Performed(HandleParse(old(state.View()), m, policy), m, state, backend, client)
  {
    var parsed := ParseParse(m.payload);
    var accepted := false;
    if parsed.Some? {
      accepted := state.RegisterStatement(parsed.value.statementName, parsed.value.query);
    }
    if accepted {
      backend.Write(m.raw);
    } else {
      HandleProtocolGap(m, policy, true, state, backend, client);
    }
  }

  method HandleBindMessage(m: Message, policy: Policy, state: ConnectionState, backend: StreamWriter,
                           client: StreamWriter)
    requires backend != client
    modifies state, backend, client
    ensures Performed(HandleBind(old(state.View()), m, policy), m, state, backend, client)
  {
    var bind := ParseBindMessage(m.payload);
    var accepted := false;
    if bind.Some? {
      accepted := state.RegisterPortal(bind.value);
    }
    if accepted {
      backend.Write(m.raw);
    } else {
      HandleProtocolGap(m, policy, true, state, backend, client);
    }
  }

  method HandleExecuteMessage(m: Message, policy: Policy, state: ConnectionState, backend: StreamWriter,
                              client: StreamWriter)
    requires backend != client
    modifies state, backend, client
    ensures Performed(HandleExecute(old(state.View()), m, policy), m, state, backend, client)
  {
    var execute := ParseExecute(m.payload);
    if execute.None? || execute.value.portalName !in state.portals {
      HandleProtocolGap(m, policy, true, state, backend, client);
      return;
    }
    var bind := state.portals[execute.value.portalName];
    if bind.statementName !in state.preparedStatements {
      HandleProtocolGap(m, policy, true, state, backend, client);
    } else if policy.approvePortal(state.preparedStatements[bind.statementName], bind) {
      backend.Write(m.raw);
    } else {
      Refuse(m, policy, PolicyDenial, state, backend, client);
    }
  }

  method HandleCloseMessage(m: Message, policy: Policy, state: ConnectionState, backend: StreamWriter,
                            client: StreamWriter)
    requires backend != client
    modifies state, backend, client
    ensures Performed(HandleClose(old(state.View()), m, policy), m, state, backend, client)
  {
    match ParseClose(m.payload) {
      case None => HandleProtocolGap(m, policy, true, state, backend, client);
      case Some(CloseStatement(name)) =>
        state.CloseStatement(name);
        backend.Write(m.raw);
      case Some(ClosePortal(name)) =>
        state.ClosePortal(name);
        backend.Write(m.raw);
    }
  }

  method HandleFrontendMessage(m: Message, policy: Policy, state: ConnectionState, backend: StreamWriter,
                               client: StreamWriter)
    requires backend != client
    modifies state, backend, client
    ensures Performed(Handle(old(state.View()), m, policy), m, state, backend, client)
  {
    if state.extendedErrorPending {
      if m.kind == 'S' {
        backend.Write(m.raw);
        state.extendedErrorPending := false;
      } else if m.kind == 'X' {
        backend.Write(m.raw);
      }
    } else if m.kind == 'Q' {
      HandleSimpleQuery(m, policy, state, backend, client);
    } else if m.kind == 'P' {
      HandleParseMessage(m, policy, state, backend, client);
    } else if m.kind == 'B' {
      HandleBindMessage(m, policy, state, backend, client);
    } else if m.kind == 'E' {
      HandleExecuteMessage(m, policy, state, backend, client);
    } else if m.kind == 'C' {
      HandleCloseMessage(m, policy, state, backend, client);
    } else {
      backend.Write(m.raw);
    }
  }

  // ---------------------------------------------------------------------------
  // From the backend
  // ---------------------------------------------------------------------------

  /** The statuses that a read's ReadyForQuery messages tell, up to one that is malformed. */
  datatype Statuses = Statuses(told: seq<TransactionStatus>, malformed: bool)

  function StatusesOf(frames: seq<Bytes>): Statuses
    requires forall i :: 0 <= i < |frames| ==> |frames[i]| >= 5
  {
    if frames == [] then Statuses([], false)
    else
      var m := MessageOf(frames[0]);
      if m.kind != 'Z' then StatusesOf(frames[1..])
      else
        var status := ParseReadyForQueryStatus(m.payload);
        if status.None? then Statuses([], true)
        else
          var others := StatusesOf(frames[1..]);
          others.(told := [status.value] + others.told)
  }

  function StatusEvents(statuses: seq<TransactionStatus>): seq<Event> {
    seq(|statuses|, i requires 0 <= i < |statuses| => FromBackend(statuses[i]))
  }

  lemma OneStatusMore(c: Connection, status: TransactionStatus, statuses: seq<TransactionStatus>)
    ensures PgFrontend.After(c, StatusEvents([status] + statuses))
         == PgFrontend.After(PgConnection.UpdateTransactionStatus(c, status), StatusEvents(statuses))
  {
    assert StatusEvents([status] + statuses)[1..] == StatusEvents(statuses);
  }

  lemma {:induction false} FramesAreLong(limit: nat, frames: seq<Bytes>)
    requires AreFrames(Postgres(limit), frames)
    ensures forall i :: 0 <= i < |frames| ==> |frames[i]| >= 5
  {
    if frames != [] {
      FramesAreLong(limit, frames[1..]);
    }
  }

  /** The statuses in a read's messages, one after another; false at the first malformed one. */
  method TrackStatuses(messages: seq<Message>, ghost frames: seq<Bytes>, state: ConnectionState)
    returns (accepted: bool)
    requires AreMessages(frames, messages)
    modifies state
    ensures accepted == !StatusesOf(frames).malformed
    ensures state.View() == PgFrontend.After(old(state.View()), StatusEvents(StatusesOf(frames).told))
  {
    ghost var start := state.View();
    for i := 0 to |messages|
      invariant StatusesOf(frames).malformed == StatusesOf(frames[i..]).malformed
      invariant PgFrontend.After(start, StatusEvents(StatusesOf(frames).told))
             == PgFrontend.After(state.View(), StatusEvents(StatusesOf(frames[i..]).told))
    {
      assert frames[i..][1..] == frames[i + 1..];
      if messages[i].kind == 'Z' {
        var status := ParseReadyForQueryStatus(messages[i].payload);
        if status.None? {
          return false;
        }
        OneStatusMore(state.View(), status.value, StatusesOf(frames[i + 1..]).told);
        state.UpdateTransactionStatus(status.value);
      }
    }
    return true;
  }

  /**
   A read from the backend reaches the client as it came, once its statuses are known; a malformed
   status or a failed cut closes the connection, with the statuses before it taken over.
   */
  method PipeBackendChunk(chunk: Bytes, framer: MessageFramer, state: ConnectionState, client: StreamWriter)
    returns (open: bool)
    requires framer.Valid()
    modifies framer, state, client
    ensures var f := Frames(Postgres(framer.maxMessageBytes), old(framer.buffer) + chunk);
      && framer.buffer == f.rest
      && (f.failed ==> !open && state.View() == old(state.View()))
      && (!f.failed ==> framer.Valid() && forall i :: 0 <= i < |f.frames| ==> |f.frames[i]| >= 5)
      && (!f.failed ==> open == !StatusesOf(f.frames).malformed)
      && (!f.failed ==> state.View() == PgFrontend.After(old(state.View()), StatusEvents(StatusesOf(f.frames).told)))
      && client.written == old(client.written) + (if open then [chunk] else [])
  {
    ghost var f := Frames(Postgres(framer.maxMessageBytes), framer.buffer + chunk);
    var messages := framer.Push(chunk);
    if messages.None? {
      return false;
    }
    FramesAreWhole(Postgres(framer.maxMessageBytes), old(framer.buffer) + chunk);
    FramesAreLong(framer.maxMessageBytes, f.frames);
    open := TrackStatuses(messages.value, f.frames, state);
    if open {
      client.Write(chunk);
    }
  }
}
