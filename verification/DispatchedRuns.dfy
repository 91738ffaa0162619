/**
 Runs against any backend at all, in every mode: whatever commands the client sends and whatever
 packets the backend answers, some of the session's errors cannot be raised.
 */
module DispatchedRuns {
  import opened Wire
  import opened Tracker
  import opened Session
  import opened Routing
  import opened Dispatch
  import opened Assembler
  import opened ExecuteParams

  /** A command, a pipelined execution whose wait ended, or a packet from the backend. */
  datatype Happening =
    | Command(message: LogicalMessage, policy: Policy)
    | Resumed(message: LogicalMessage, policy: Policy)
    | Packet(payload: Bytes, caps: nat)

  function AfterEffect(s: State, effect: Effect): State {
    match effect
    case Wait => s
    case Crash(next, _, _) => next
    case Effect(next, _, _, _) => next
  }

  ghost function Happened(s: State, h: Happening): State {
    match h
    case Command(m, policy) => AfterEffect(s, Dispatch.Dispatch(s, m, policy))
    case Resumed(m, policy) => if m.payload == [] then s else AfterEffect(s, ResumeExecute(s, m, policy))
    case Packet(payload, caps) => Route(s, payload, caps).next
  }

  ghost function AllHappened(s: State, hs: seq<Happening>): State
    decreases |hs|
  {
    if hs == [] then s else AllHappened(Happened(s, hs[0]), hs[1..])
  }

  /** Between packets a successful prepare always has metadata to come. */
  predicate IsCounting(p: Prepare) {
    p.id.Some? ==> p.sql.Some? && p.metadataPackets > 0
  }

  predicate IsResetListed(s: State) {
    s.pendingReset.Some? ==> s.pendingReset.value in s.registry.statements
  }

  ghost predicate IsSound(s: State) {
    IsKept(s) && IsCounting(s.prepare) && IsResetListed(s)
  }

  // ---------------------------------------------------------------------------
  // Commands
  // ---------------------------------------------------------------------------

  lemma QueryKeeps(s: State, m: LogicalMessage, body: Bytes, policy: Policy)
    requires IsSound(s)
    ensures IsSound(AfterEffect(s, DispatchQuery(s, m, body, policy)))
  {
    SameRegistryKeeps(s, AfterEffect(s, DispatchQuery(s, m, body, policy)));
  }

  lemma InitDbKeeps(s: State, m: LogicalMessage, body: Bytes, policy: Policy)
    requires IsSound(s)
    ensures IsSound(AfterEffect(s, DispatchInitDb(s, m, body, policy)))
  {
    SameRegistryKeeps(s, AfterEffect(s, DispatchInitDb(s, m, body, policy)));
  }

  lemma PingKeeps(s: State, m: LogicalMessage, body: Bytes, policy: Policy)
    requires IsSound(s)
    ensures IsSound(AfterEffect(s, DispatchPing(s, m, body, policy)))
  {
    SameRegistryKeeps(s, AfterEffect(s, DispatchPing(s, m, body, policy)));
  }

  lemma ResetKeeps(s: State, m: LogicalMessage, body: Bytes, policy: Policy)
    requires IsSound(s)
    ensures IsSound(AfterEffect(s, DispatchReset(s, m, body, policy)))
  {
    SameRegistryKeeps(s, AfterEffect(s, DispatchReset(s, m, body, policy)));
  }

  lemma PrepareKeeps(s: State, m: LogicalMessage, body: Bytes, policy: Policy)
    requires IsSound(s)
    ensures IsSound(AfterEffect(s, DispatchPrepare(s, m, body, policy)))
  {
    if TextOf(body).Some? {
      OperationKeeps(s, OpBeginPrepare(TextOf(body).value));
    }
  }

  lemma CloseKeeps(s: State, m: LogicalMessage, body: Bytes, policy: Policy)
    requires IsSound(s)
    ensures IsSound(AfterEffect(s, DispatchClose(s, m, body, policy)))
  {
    if |body| >= 4 {
      OperationKeeps(s, OpClose(FromLE(body[..4])));
    }
  }

  lemma LongDataKeeps(s: State, m: LogicalMessage, body: Bytes, policy: Policy)
    requires IsSound(s)
    ensures IsSound(AfterEffect(s, DispatchLongData(s, m, body, policy)))
  {
    if |body| >= 6 {
      MarkKeeps(s, FromLE(body[..4]), FromLE(body[4..6]));
    }
  }

  lemma MarkKeeps(s: State, id: nat, parameterId: nat)
    requires IsSound(s)
    ensures IsSound(MarkLongData(s, id, parameterId).next)
  {
    OperationKeeps(s, OpMarkLongData(id, parameterId));
  }

  lemma StatementKeeps(s: State, m: LogicalMessage, e: StmtExecute, statement: Prepared, policy: Policy)
    requires IsSound(s)
    ensures IsSound(AfterEffect(s, ExecuteStatement(s, m, e, statement, policy)))
  {
    StatementOutcomes(s, m, e, statement, policy);
    OutcomeKeeps(s, statement, Decode(policy.floatText, e, statement.parameterCount, statement.parameterTypes),
                 AfterEffect(s, ExecuteStatement(s, m, e, statement, policy)));
  }

  lemma TypesKeep(s: State, id: nat, types: seq<ParamType>)
    requires IsSound(s)
    ensures IsSound(RegisterParameterTypes(s, id, types).next)
  {
    OperationKeeps(s, OpRegisterTypes(id, types));
  }

  /** An execution is given up before or after it was begun, or its types are registered. */
  lemma StatementOutcomes(s: State, m: LogicalMessage, e: StmtExecute, statement: Prepared, policy: Policy)
    ensures IsOutcome(s, statement, Decode(policy.floatText, e, statement.parameterCount, statement.parameterTypes),
                      AfterEffect(s, ExecuteStatement(s, m, e, statement, policy)))
  {
  }

  predicate IsOutcome(s: State, statement: Prepared, decoded: Option<Decoded>, after: State) {
    var begun := BeginCommandResponse(s, ExecuteCommand).next;
    || after == s || after == FailCommandForward(s) || after == FailCommandForward(begun)
    || (decoded.Some? && after == RegisterParameterTypes(begun, statement.statementId, decoded.value.types).next)
  }

  lemma OutcomeKeeps(s: State, statement: Prepared, decoded: Option<Decoded>, after: State)
    requires IsSound(s) && IsOutcome(s, statement, decoded, after)
    ensures IsSound(after)
  {
    var begun := BeginCommandResponse(s, ExecuteCommand).next;
    BegunKeeps(s);
    BegunKeeps(begun);
    if decoded.Some? {
      TypesKeep(begun, statement.statementId, decoded.value.types);
    }
  }

  lemma BegunKeeps(s: State)
    requires IsSound(s)
    ensures IsSound(BeginCommandResponse(s, ExecuteCommand).next) && IsSound(FailCommandForward(s))
  {
    SameRegistryKeeps(s, BeginCommandResponse(s, ExecuteCommand).next);
    SameRegistryKeeps(s, FailCommandForward(s));
  }

  lemma FoundKeeps(s: State, m: LogicalMessage, e: StmtExecute, found: Found, policy: Policy)
    requires IsSound(s)
    ensures IsSound(AfterEffect(s, ExecuteFound(s, m, e, found, policy)))
  {
    if found.Statement? {
      StatementKeeps(s, m, e, found.statement, policy);
    }
  }

  lemma ExecuteKeeps(s: State, m: LogicalMessage, body: Bytes, policy: Policy)
    requires IsSound(s)
    ensures IsSound(AfterEffect(s, DispatchExecute(s, m, body, policy)))
  {
    var e := ParseStmtExecute(body);
    if e.Some? {
      if e.value.statementId != MARIADB_STMT_ID_LAST {
        FoundKeeps(s, m, e.value, GetPreparedStatement(s, e.value.statementId), policy);
      } else if s.prepare.sql.None? {
        FoundKeeps(s, m, e.value, GetLastPreparedStatement(s), policy);
      } else {
        FoundKeeps(s, m, e.value, PreparedAfterWait(s), policy);
      }
    }
  }

  lemma CommandKeeps(s: State, m: LogicalMessage, policy: Policy)
    requires IsSound(s)
    ensures IsSound(AfterEffect(s, Dispatch.Dispatch(s, m, policy)))
  {
    if m.payload != [] {
      var code, body := m.payload[0], m.payload[1..];
      if code == COM_QUERY {
        QueryKeeps(s, m, body, policy);
      } else if code == COM_STMT_EXECUTE {
        ExecuteKeeps(s, m, body, policy);
      } else if code == COM_INIT_DB {
        InitDbKeeps(s, m, body, policy);
      } else if code == COM_PING {
        PingKeeps(s, m, body, policy);
      } else {
        StatementCommandKeeps(s, m, policy);
      }
    }
  }

  lemma StatementCommandKeeps(s: State, m: LogicalMessage, policy: Policy)
    requires IsSound(s) && m.payload != [] && m.payload[0] != COM_QUERY && m.payload[0] != COM_STMT_EXECUTE
    requires m.payload[0] != COM_INIT_DB && m.payload[0] != COM_PING
    ensures IsSound(AfterEffect(s, Dispatch.Dispatch(s, m, policy)))
  {
    var code, body := m.payload[0], m.payload[1..];
    if code == COM_STMT_PREPARE {
      PrepareKeeps(s, m, body, policy);
    } else if code == COM_STMT_CLOSE {
      CloseKeeps(s, m, body, policy);
    } else if code == COM_STMT_SEND_LONG_DATA {
      LongDataKeeps(s, m, body, policy);
    } else if code == COM_STMT_RESET {
      ResetKeeps(s, m, body, policy);
    }
  }

  // ---------------------------------------------------------------------------
  // Packets
  // ---------------------------------------------------------------------------

  lemma AcknowledgmentKeepsPrepare(s: State, payload: Bytes, caps: nat)
    requires TagOf(s) != PrepareTag
    ensures Route(s, payload, caps).next.prepare == s.prepare
  {
  }

  lemma AcknowledgmentKeepsReset(s: State, payload: Bytes, caps: nat)
    requires TagOf(s) != PrepareTag && IsResetListed(s)
    ensures IsResetListed(Route(s, payload, caps).next)
  {
  }

  lemma MetadataKeepsCounting(s: State, payload: Bytes, caps: nat)
    requires IsSound(s) && s.prepare.id.Some?
    ensures IsCounting(RoutePrepare(s, payload, caps).next.prepare)
  {
  }

  lemma PrepareOkKeepsCounting(s: State, payload: Bytes, caps: nat)
    requires s.prepare.id.None?
    ensures IsCounting(RoutePrepare(s, payload, caps).next.prepare)
  {
  }

  lemma PrepareKeepsNoReset(s: State, payload: Bytes, caps: nat)
    requires s.pendingReset.None?
    ensures RoutePrepare(s, payload, caps).next.pendingReset.None?
  {
  }

  lemma PacketKeeps(s: State, payload: Bytes, caps: nat)
    requires IsSound(s)
    ensures IsSound(Route(s, payload, caps).next)
  {
    RouteKeepsSession(s, payload, caps);
    if TagOf(s) == PrepareTag {
      if s.prepare.id.Some? {
        MetadataKeepsCounting(s, payload, caps);
      } else {
        PrepareOkKeepsCounting(s, payload, caps);
      }
      PrepareKeepsNoReset(s, payload, caps);
    } else {
      AcknowledgmentKeepsPrepare(s, payload, caps);
      AcknowledgmentKeepsReset(s, payload, caps);
    }
  }

  lemma {:induction false} HappeningsKeep(s: State, hs: seq<Happening>)
    requires IsSound(s)
    ensures IsSound(AllHappened(s, hs))
    decreases |hs|
  {
    if hs != [] {
      match hs[0] {
        case Command(m, policy) => CommandKeeps(s, m, policy);
        case Resumed(m, policy) =>
          if m.payload != [] && ParseStmtExecute(m.payload[1..]).Some? {
            FoundKeeps(s, m, ParseStmtExecute(m.payload[1..]).value, PreparedAfterWait(s), policy);
          }
        case Packet(payload, caps) => PacketKeeps(s, payload, caps);
      }
      HappeningsKeep(Happened(s, hs[0]), hs[1..]);
    }
  }

  // ---------------------------------------------------------------------------
  // Errors that cannot be raised
  // ---------------------------------------------------------------------------

  /** The errors left to a backend that breaks the protocol, or whose statement does not fit. */
  predicate IsBackendsFault(error: Error) {
    || error.RegistryFull? || error.StateTooLarge? || error.EmptyResponse? || error.UnexpectedResponse?
    || error.EmptyMetadata? || error.ExpectedEof? || error.MetadataError? || error.BadPacket?
    || error.LocalInfile?
  }

  lemma PrepareErrors(s: State, payload: Bytes, caps: nat)
    requires IsSound(s) && s.prepare.sql.Some?
    ensures var r := RoutePrepare(s, payload, caps); r.RouteError? ==> IsBackendsFault(r.error)
  {
  }

  lemma RouteErrors(s: State, payload: Bytes, caps: nat)
    requires IsSound(s)
    ensures var r := Route(s, payload, caps); r.RouteError? ==> IsBackendsFault(r.error)
  {
    match TagOf(s) {
      case PrepareTag => PrepareErrors(s, payload, caps);
      case CommandTag => TrackKeeps(s.tracker, payload, caps);
      case _ =>
    }
  }

  /**
   Whatever the client and the backend do, no packet meets an extra metadata packet, a missing
   kind, an unfinished count, an unknown stage or statement, or an operation that is not pending.
   */
  lemma OnlyTheBackendIsToBlame(database: string, maxStatements: nat, maxBytes: nat, hs: seq<Happening>,
                                payload: Bytes, caps: nat)
    ensures var r := Route(AllHappened(Fresh(database, maxStatements, maxBytes), hs), payload, caps);
      r.RouteError? ==> IsBackendsFault(r.error)
  {
    FreshIsKept(database, maxStatements, maxBytes);
    HappeningsKeep(Fresh(database, maxStatements, maxBytes), hs);
    RouteErrors(AllHappened(Fresh(database, maxStatements, maxBytes), hs), payload, caps);
  }

  /** An execution that reuses cached types of another number. */
  predicate IsStoredCountMismatch(payload: Bytes, count: nat, previous: Option<seq<ParamType>>) {
    count > 0 && |payload| > (count + 7) / 8 && payload[(count + 7) / 8] == 0 && previous.Some?
      && |previous.value| != count
  }

  /** No execution finds cached types of another number than its statement's parameters. */
  lemma StoredCountAlwaysMatches(database: string, maxStatements: nat, maxBytes: nat, hs: seq<Happening>,
                                 payload: Bytes)
    ensures var s := AllHappened(Fresh(database, maxStatements, maxBytes), hs);
      forall found ::
        (found == GetLastPreparedStatement(s) || found == PreparedAfterWait(s)
         || exists id :: found == GetPreparedStatement(s, id)) ==>
        found.Statement? ==>
          !IsStoredCountMismatch(payload, found.statement.parameterCount, found.statement.parameterTypes)
  {
    var s := AllHappened(Fresh(database, maxStatements, maxBytes), hs);
    FreshIsKept(database, maxStatements, maxBytes);
    HappeningsKeep(Fresh(database, maxStatements, maxBytes), hs);
    assert AreWellFormed(s.registry.statements);
    assert forall id :: id in s.registry.statements ==> IsWellFormed(id, s.registry.statements[id]);
  }
}
