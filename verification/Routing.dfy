/** What the proxy does with one backend packet once the client is logged in. */
module Routing {
  import opened Wire
  import opened Responses
  import opened Tracker
  import opened Session

  /** Routed: the packet goes to the client. RouteError: the source raises and the connection ends. */
  datatype Routing = Routed(next: State) | RouteError(next: State, error: Error)

  /** The pending operation a packet is taken to answer. */
  datatype Tag = NoTag | PingTag | ResetTag | DatabaseTag | PrepareTag | CommandTag

  /** The router's order of tests. */
  function TagOf(s: State): Tag {
    if s.pendingPing then PingTag
    else if s.pendingReset.Some? then ResetTag
    else if s.pendingDatabase.Some? then DatabaseTag
    else if s.prepare.sql.Some? then PrepareTag
    else if s.tracker.pending.Some? then CommandTag
    else NoTag
  }

  /** The transaction status an OK packet tells, when the capabilities include one. */
  function StatusFromOk(s: State, payload: Bytes, caps: nat): Routing {
    if !Has(caps, CLIENT_PROTOCOL_41) && !Has(caps, CLIENT_TRANSACTIONS) then Routed(s)
    else
      var status := ParseOkStatus(payload, caps);
      if status.None? then RouteError(s, BadPacket) else Routed(UpdateTransactionStatus(s, status.value))
  }

  function RouteAcknowledgment(completed: Step<bool>, payload: Bytes, caps: nat): Routing {
    if completed.Raised? then RouteError(completed.next, completed.error)
    else if payload != [] && payload[0] == OK_MARKER then StatusFromOk(completed.next, payload, caps)
    else Routed(completed.next)
  }

  /** The packet has been forwarded; the prepare is finished if this was its last one. */
  function FinishAfterForward(s: State, last: bool): Routing {
    if !last then Routed(s)
    else
      var finished := FinishStatementPrepare(s);
      if finished.Raised? then RouteError(finished.next, finished.error) else Routed(finished.next)
  }

  ghost function RoutePrepare(s: State, payload: Bytes, caps: nat): Routing {
    if payload != [] && payload[0] == ERR_MARKER then Routed(FailStatementPrepare(s))
    else if s.prepare.id.Some? then
      var consumed := ConsumePrepareMetadata(s, payload, caps);
      if consumed.Raised? then RouteError(FailStatementPrepare(consumed.next), consumed.error)
      else FinishAfterForward(consumed.next, consumed.value)
    else if payload != [] && payload[0] == OK_MARKER then
      var ok := ParsePrepareOk(payload);
      if ok.None? then RouteError(s, BadPacket)
      else
        var accepted := AcceptStatementPrepareOk(s, ok.value.statementId, ok.value.parameterCount,
                                                 ok.value.columnCount, DeprecateEof(caps));
        if accepted.Raised? then RouteError(accepted.next, accepted.error)
        else FinishAfterForward(accepted.next, accepted.next.prepare.metadataPackets == 0)
    else RouteError(FailStatementPrepare(s), UnexpectedResponse)
  }

  ghost function RouteAs(tag: Tag, s: State, payload: Bytes, caps: nat): Routing {
    match tag
    case PingTag => RouteAcknowledgment(CompletePing(s, payload), payload, caps)
    case ResetTag => RouteAcknowledgment(CompleteStatementReset(s, payload), payload, caps)
    case DatabaseTag => RouteAcknowledgment(CompleteDatabaseChange(s, payload), payload, caps)
    case PrepareTag => RoutePrepare(s, payload, caps)
    case CommandTag =>
      var accepted := AcceptCommandResponse(s, payload, caps);
      if accepted.Raised? then RouteError(accepted.next, accepted.error) else Routed(accepted.next)
    case NoTag => Routed(s)
  }

  ghost function Route(s: State, payload: Bytes, caps: nat): Routing {
    RouteAs(TagOf(s), s, payload, caps)
  }

  /** Exactly the operation of that tag is pending. */
  predicate Only(s: State, tag: Tag) {
    && (s.pendingPing <==> tag.PingTag?)
    && (s.pendingReset.Some? <==> tag.ResetTag?)
    && (s.pendingDatabase.Some? <==> tag.DatabaseTag?)
    && (s.prepare.sql.Some? <==> tag.PrepareTag?)
    && (s.tracker.pending.Some? <==> tag.CommandTag?)
  }

  /** A prepare under way and the event a pipelined execution waits for. */
  predicate IsPreparing(p: Prepare) {
    && (p.sql.Some? ==> p.event == Some(false))
    && (p.sql.None? ==> p.id.None?)
    && (p.id.None? ==> p.metadataKinds == [])
  }

  lemma FailKeeps(s: State)
    requires IsKept(s)
    ensures IsKept(FailStatementPrepare(s))
  {
    OperationKeeps(s, OpFailPrepare);
  }

  lemma ConsumeKeeps(s: State, payload: Bytes, caps: nat)
    requires IsKept(s)
    ensures IsKept(ConsumePrepareMetadata(s, payload, caps).next)
  {
    OperationKeeps(s, OpConsumeMetadata(payload, caps));
  }

  lemma AcceptOkKeeps(s: State, id: nat, parameterCount: nat, columnCount: nat, deprecateEof: bool)
    requires IsKept(s)
    ensures IsKept(AcceptStatementPrepareOk(s, id, parameterCount, columnCount, deprecateEof).next)
  {
    OperationKeeps(s, OpAcceptPrepareOk(id, parameterCount, columnCount, deprecateEof));
  }

  lemma FinishKeeps(s: State, last: bool)
    requires IsKept(s)
    ensures IsKept(FinishAfterForward(s, last).next)
  {
    OperationKeeps(s, OpFinishPrepare);
  }

  lemma AcknowledgmentKeeps(completed: Step<bool>, payload: Bytes, caps: nat)
    requires IsKept(completed.next)
    ensures IsKept(RouteAcknowledgment(completed, payload, caps).next)
  {
  }

  lemma RoutePrepareKeepsSession(s: State, payload: Bytes, caps: nat)
    requires IsKept(s)
    ensures IsKept(RoutePrepare(s, payload, caps).next)
  {
    if payload != [] && payload[0] == ERR_MARKER {
      FailKeeps(s);
    } else if s.prepare.id.Some? {
      var consumed := ConsumePrepareMetadata(s, payload, caps);
      ConsumeKeeps(s, payload, caps);
      if consumed.Raised? {
        FailKeeps(consumed.next);
      } else {
        FinishKeeps(consumed.next, consumed.value);
      }
    } else if payload != [] && payload[0] == OK_MARKER {
      PrepareOkKeepsSession(s, payload, caps);
    } else {
      FailKeeps(s);
    }
  }

  lemma PrepareOkKeepsSession(s: State, payload: Bytes, caps: nat)
    requires IsKept(s) && s.prepare.id.None? && payload != [] && payload[0] == OK_MARKER
    ensures IsKept(RoutePrepare(s, payload, caps).next)
  {
    var ok := ParsePrepareOk(payload);
    if ok.Some? {
      AcceptOkKeeps(s, ok.value.statementId, ok.value.parameterCount, ok.value.columnCount, DeprecateEof(caps));
      var accepted := AcceptStatementPrepareOk(s, ok.value.statementId, ok.value.parameterCount, ok.value.columnCount,
                                               DeprecateEof(caps)).next;
      FinishKeeps(accepted, accepted.prepare.metadataPackets == 0);
    }
  }

  lemma ResetCompletionKeeps(s: State, payload: Bytes)
    requires IsKept(s)
    ensures IsKept(CompleteStatementReset(s, payload).next)
  {
    OperationKeeps(s, OpCompleteReset(payload));
  }

  /** Only the tracker, or only what the session does not limit, has changed. */
  lemma SameRegistryKeeps(s: State, next: State)
    requires IsKept(s) && next.registry == s.registry && next.prepare == s.prepare && IsTracked(next.tracker)
    ensures IsKept(next)
  {
  }

  /** Whatever the packet, and whether routing raises or not, the session keeps its limits and countdowns. */
  lemma RouteKeepsSession(s: State, payload: Bytes, caps: nat)
    requires IsKept(s)
    ensures IsKept(Route(s, payload, caps).next)
  {
    match TagOf(s) {
      case PingTag => SameRegistryKeeps(s, Route(s, payload, caps).next);
      case ResetTag =>
        ResetCompletionKeeps(s, payload);
        AcknowledgmentKeeps(CompleteStatementReset(s, payload), payload, caps);
      case DatabaseTag => SameRegistryKeeps(s, Route(s, payload, caps).next);
      case PrepareTag => RoutePrepareKeepsSession(s, payload, caps);
      case CommandTag =>
        TrackKeeps(s.tracker, payload, caps);
        SameRegistryKeeps(s, Route(s, payload, caps).next);
      case NoTag =>
    }
  }

  /** When one operation is pending, any order of the router's tests finds it. */
  lemma RouterOrderIsIrrelevant(s: State, tag: Tag, payload: Bytes, caps: nat)
    requires Only(s, tag)
    ensures TagOf(s) == tag && Route(s, payload, caps) == RouteAs(tag, s, payload, caps)
    ensures forall other :: Only(s, other) ==> other == tag
  {
  }
}
