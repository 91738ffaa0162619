/** The backend side as the source has it: login and session changed in place, packets passed to the client. */
module BackendRouter {
  import opened Wire
  import opened Responses
  import opened Tracker
  import opened Session
  import opened SessionState
  import opened Routing
  import opened Login
  import opened Streams

  class MySqlAuthState {
    var database: string
    var phase: AuthPhase
    var capabilityFlags: nat

    ghost function View(): Auth
      reads this
    {
      Auth(phase, capabilityFlags, database)
    }

    constructor (database: string)
      ensures View() == Auth(WaitingForClient, 0, database)
    {
      this.database, phase, capabilityFlags := database, WaitingForClient, 0;
    }

    /** accepted is false where the source raises. */
    method AcceptClientResponse(response: Handshake) returns (accepted: bool)
      modifies this
      ensures var r := Login.AcceptClientResponse(old(View()), response);
        accepted == r.AcceptedResponse? && View() == if accepted then r.next else old(View())
    {
      if phase != WaitingForClient {
        return false;
      }
      capabilityFlags := response.caps;
      if response.isSslRequest {
        phase := TlsRejected;
        return true;
      }
      if response.database.Some? && response.database.value != "" {
        database := response.database.value;
      }
      phase := Authenticating;
      return true;
    }

    /** None where the source raises. */
    method AcceptBackendPacket(payload: Bytes) returns (packet: Option<AuthPacket>)
      modifies this`phase
      ensures
        if old(phase) != Authenticating || payload == [] then packet == None && phase == old(phase)
        else packet == Some(Classify(payload)) && phase == AfterAnswer(Classify(payload))
    {
      if phase != Authenticating || payload == [] {
        return None;
      }
      var kind := Classify(payload);
      if kind == AuthOk {
        phase := Authenticated;
      } else if kind == AuthError {
        phase := LoginFailed;
      }
      return Some(kind);
    }
  }

  class MySqlBackendState {
    const auth: MySqlAuthState
    const session: MySqlSessionState
    var phase: Phase

    ghost function View(): Backend
      reads this, auth, session
    {
      Backend(auth.View(), phase, session.View())
    }

    constructor (auth: MySqlAuthState, session: MySqlSessionState)
      ensures this.auth == auth && this.session == session && phase == Authentication
    {
      this.auth, this.session, phase := auth, session, Authentication;
    }

    /** The transaction status of an OK packet; false where the source raises. */
    method UpdateTransactionStatusFromOk(payload: Bytes) returns (read: bool)
      modifies session
      ensures var r := StatusFromOk(old(session.View()), payload, auth.capabilityFlags);
        read == r.Routed? && session.View() == r.next
    {
      if !Has(auth.capabilityFlags, CLIENT_PROTOCOL_41) && !Has(auth.capabilityFlags, CLIENT_TRANSACTIONS) {
        return true;
      }
      var status := ParseOkStatus(payload, auth.capabilityFlags);
      if status.None? {
        return false;
      }
      session.UpdateTransactionStatus(status.value);
      return true;
    }

    /** The tail shared by the three acknowledgments. */
    method FinishAcknowledgment(ghost completed: Step<bool>, error: Option<Error>, payload: Bytes)
      returns (routed: bool)
      requires session.View() == completed.next && error == ErrorOf(completed)
      modifies session
      ensures var r := RouteAcknowledgment(completed, payload, auth.capabilityFlags);
        routed == r.Routed? && session.View() == r.next
    {
      if error.Some? {
        return false;
      }
      if payload != [] && payload[0] == OK_MARKER {
        routed := UpdateTransactionStatusFromOk(payload);
        return;
      }
      return true;
    }

    method RouteToPrepare(payload: Bytes, client: StreamWriter, raw: Bytes) returns (routed: bool)
      modifies session, client
      ensures var r := RoutePrepare(old(session.View()), payload, auth.capabilityFlags);
        && routed == r.Routed? && session.View() == r.next
        && client.written == old(client.written) + if routed then [raw] else []
    {
      if payload != [] && payload[0] == ERR_MARKER {
        client.Write(raw);
        session.FailStatementPrepare();
        return true;
      }
      if session.pendingPreparedStatementId.Some? {
        var last, error := session.ConsumeStatementPrepareMetadata(payload, auth.capabilityFlags);
        if error.Some? {
          session.FailStatementPrepare();
          return false;
        }
        client.Write(raw);
        routed := FinishIfLast(last);
        return;
      }
      if payload != [] && payload[0] == OK_MARKER {
        routed := RouteToPrepareOk(payload, client, raw);
        return;
      }
      session.FailStatementPrepare();
      return false;
    }

    method RouteToPrepareOk(payload: Bytes, client: StreamWriter, raw: Bytes) returns (routed: bool)
      requires payload != [] && payload[0] == OK_MARKER && session.pendingPreparedStatementId.None?
      modifies session, client
      ensures var r := RoutePrepare(old(session.View()), payload, auth.capabilityFlags);
        && routed == r.Routed? && session.View() == r.next
        && client.written == old(client.written) + if routed then [raw] else []
    {
      var ok := ParsePrepareOk(payload);
      if ok.None? {
        return false;
      }
      var error := session.AcceptStatementPrepareOk(
        ok.value.statementId, ok.value.parameterCount, ok.value.columnCount, DeprecateEof(auth.capabilityFlags));
      if error.Some? {
        return false;
      }
      client.Write(raw);
      routed := FinishIfLast(session.pendingPrepareMetadataPackets == 0);
    }

    method FinishIfLast(last: bool) returns (finished: bool)
      modifies session
      ensures var r := FinishAfterForward(old(session.View()), last);
        finished == r.Routed? && session.View() == r.next
    {
      if !last {
        return true;
      }
      var error := session.FinishStatementPrepareResponse();
      return error.None?;
    }

    /** The first three of the router's tests. */
    method RouteToAcknowledgment(payload: Bytes) returns (routed: bool)
      requires session.pendingPing || session.pendingStatementResetId.Some? || session.pendingDatabase.Some?
      modifies session
      ensures var r := Route(old(session.View()), payload, auth.capabilityFlags);
        routed == r.Routed? && session.View() == r.next
    {
      ghost var before := session.View();
      if session.pendingPing {
        var _, error := session.CompletePing(payload);
        routed := FinishAcknowledgment(CompletePing(before, payload), error, payload);
      } else if session.pendingStatementResetId.Some? {
        var _, error := session.CompleteStatementReset(payload);
        routed := FinishAcknowledgment(CompleteStatementReset(before, payload), error, payload);
      } else {
        var _, error := session.CompleteDatabaseChange(payload);
        routed := FinishAcknowledgment(CompleteDatabaseChange(before, payload), error, payload);
      }
    }

    /** One packet for the session, tested in the source's order. */
    method RouteToSession(payload: Bytes, client: StreamWriter, raw: Bytes) returns (routed: bool)
      modifies session, client
      ensures var r := Route(old(session.View()), payload, auth.capabilityFlags);
        && routed == r.Routed? && session.View() == r.next
        && client.written == old(client.written) + if routed then [raw] else []
    {
      if session.pendingPing || session.pendingStatementResetId.Some? || session.pendingDatabase.Some? {
        routed := RouteToAcknowledgment(payload);
      } else if session.pendingStatementSql.Some? {
        routed := RouteToPrepare(payload, client, raw);
        return;
      } else if session.pendingCommandResponse.Some? {
        var error := session.AcceptCommandResponsePacket(payload, auth.capabilityFlags);
        routed := error.None?;
      } else {
        routed := true;
      }
      if routed {
        client.Write(raw);
      }
    }

    /** delivered is false where the source raises. */
    method RouteBackendPacket(payload: Bytes, raw: Bytes, client: StreamWriter) returns (delivered: bool)
      modifies this, auth, session, client
      ensures var r := Deliver(old(View()), payload);
        && delivered == r.Delivered? && View() == r.next
        && client.written == old(client.written) + if r.Undelivered? then [] else [raw]
    {
      if phase == Closed {
        return false;
      }
      if phase == Authentication {
        var kind := auth.AcceptBackendPacket(payload);
        if kind.None? {
          return false;
        }
        client.Write(raw);
        if kind.value == AuthOk {
          var read := UpdateTransactionStatusFromOk(payload);
          if !read {
            return false;
          }
          phase := CommandResponse;
        } else if kind.value == AuthError {
          phase := Closed;
        }
        return true;
      }
      delivered := RouteToSession(payload, client, raw);
    }
  }
}
