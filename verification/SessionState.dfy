/**
 The session object itself: fields updated in place, each method proved to do to the
 fields exactly what its function in module Session does to the state.
 */
module SessionState {
  import opened Wire
  import opened Responses
  import opened Tracker
  import opened ExecuteParams
  import opened MapSum
  import opened Session
  import Utf8

  class MySqlSessionState {
    var database: string
    const maxPreparedStatements: nat
    const maxStateBytes: nat
    var pendingDatabase: Option<string>
    var pendingStatementSql: Option<string>
    var pendingPrepareEvent: Option<bool>
    var pendingPreparedStatementId: Option<nat>
    var pendingPrepareMetadataPackets: nat
    var pendingPrepareMetadataKinds: seq<Kind>
    var lastPreparedStatementId: Option<nat>
    var lastPrepareFailed: bool
    var pendingPing: bool
    var pendingStatementResetId: Option<nat>
    var pendingCommandResponse: Option<Command>
    var commandResponseStage: Stage
    var responseColumnsRemaining: nat
    var preparedStatements: Statements
    var serverStatusFlags: Option<nat>
    var transactionActive: bool
    var transactionReadOnly: bool
    var autocommit: bool
    var closing: bool

    ghost function View(): State
      reads this
    {
      State(
        database, pendingDatabase, pendingPing, pendingStatementResetId,
        PrepareView(),
        TrackerView(),
        RegistryView(),
        TransactionView(),
        closing)
    }

    ghost function TrackerView(): Tracker
      reads this`pendingCommandResponse, this`commandResponseStage, this`responseColumnsRemaining
    {
      Tracker(pendingCommandResponse, commandResponseStage, responseColumnsRemaining)
    }

    ghost function TransactionView(): Transaction
      reads this`serverStatusFlags, this`transactionActive, this`transactionReadOnly, this`autocommit
    {
      Transaction(serverStatusFlags, transactionActive, transactionReadOnly, autocommit)
    }

    ghost function PrepareView(): Prepare
      reads this`pendingStatementSql, this`pendingPrepareEvent, this`pendingPreparedStatementId,
        this`pendingPrepareMetadataPackets, this`pendingPrepareMetadataKinds, this`lastPrepareFailed
    {
      Prepare(pendingStatementSql, pendingPrepareEvent, pendingPreparedStatementId,
              pendingPrepareMetadataPackets, pendingPrepareMetadataKinds, lastPrepareFailed)
    }

    ghost function RegistryView(): Registry
      reads this`preparedStatements, this`lastPreparedStatementId
    {
      Registry(maxPreparedStatements, maxStateBytes, preparedStatements, lastPreparedStatementId)
    }

    constructor (database: string, maxPreparedStatements: nat, maxStateBytes: nat)
      ensures View() == Fresh(database, maxPreparedStatements, maxStateBytes)
    {
      this.database := database;
      this.maxPreparedStatements, this.maxStateBytes := maxPreparedStatements, maxStateBytes;
      pendingDatabase, pendingPing, pendingStatementResetId := None, false, None;
      pendingStatementSql, pendingPrepareEvent, pendingPreparedStatementId := None, None, None;
      pendingPrepareMetadataPackets, pendingPrepareMetadataKinds := 0, [];
      lastPreparedStatementId, lastPrepareFailed := None, false;
      pendingCommandResponse, commandResponseStage, responseColumnsRemaining := None, Initial, 0;
      preparedStatements := map[];
      serverStatusFlags, transactionActive, transactionReadOnly, autocommit := None, false, false, true;
      closing := false;
    }

    predicate HasPendingLifecycleOperation()
      reads this
      ensures HasPendingLifecycleOperation() <==> HasPending(View())
    {
      || pendingDatabase.Some?
      || pendingStatementSql.Some?
      || pendingPing
      || pendingStatementResetId.Some?
      || pendingCommandResponse.Some?
    }

    method RequirePreparedCapacity(id: nat, sql: string) returns (error: Option<Error>)
      ensures error == CapacityError(View().registry, id, sql)
    {
      if id !in preparedStatements && |preparedStatements| >= maxPreparedStatements {
        return Some(RegistryFull);
      }
      var current: int := AddUp(preparedStatements, SqlWeight);
      ReplacedBytes(preparedStatements, id, Prepared(id, sql, 0, 0, None, {}));
      if id in preparedStatements {
        current := current - |Utf8.Encode(preparedStatements[id].sql)|;
      }
      if current + |Utf8.Encode(sql)| > maxStateBytes {
        return Some(StateTooLarge);
      }
      return None;
    }

    method BeginDatabaseChange(name: string) returns (error: Option<Error>)
      modifies this`pendingDatabase
      ensures var r := Session.BeginDatabaseChange(old(View()), name); View() == r.next && error == ErrorOf(r)
    {
      var normalized := Strip(name);
      if normalized == "" {
        return Some(EmptyDatabaseName);
      }
      if HasPendingLifecycleOperation() {
        return Some(AlreadyPending);
      }
      pendingDatabase := Some(normalized);
      return None;
    }

    method CompleteDatabaseChange(payload: Bytes) returns (changed: bool, error: Option<Error>)
      modifies this`pendingDatabase, this`database
      ensures var r := Session.CompleteDatabaseChange(old(View()), payload);
        View() == r.next && error == ErrorOf(r) && (r.Done? ==> changed == r.value)
    {
      changed, error := false, None;
      if pendingDatabase.None? {
        return false, Some(NoDatabaseChange);
      }
      if payload == [] {
        pendingDatabase := None;
        return false, Some(EmptyResponse);
      }
      var marker := payload[0];
      if marker == OK_MARKER {
        database := pendingDatabase.value;
        pendingDatabase := None;
        return true, None;
      }
      pendingDatabase := None;
      if marker == ERR_MARKER {
        return false, None;
      }
      return false, Some(UnexpectedResponse);
    }

    /** Starting or settling a prepare writes these six fields together. */
    method WritePrepare(sql: Option<string>, event: Option<bool>, failed: bool)
      modifies this`pendingStatementSql, this`pendingPrepareEvent, this`pendingPreparedStatementId,
        this`pendingPrepareMetadataPackets, this`pendingPrepareMetadataKinds, this`lastPrepareFailed
      ensures PrepareView() == Prepare(sql, event, None, 0, [], failed)
    {
      pendingStatementSql := sql;
      pendingPrepareEvent := event;
      pendingPreparedStatementId := None;
      pendingPrepareMetadataPackets, pendingPrepareMetadataKinds := 0, [];
      lastPrepareFailed := failed;
    }

    method BeginStatementPrepare(sql: string) returns (error: Option<Error>)
      modifies this`pendingStatementSql, this`pendingPrepareEvent, this`pendingPreparedStatementId,
        this`pendingPrepareMetadataPackets, this`pendingPrepareMetadataKinds, this`lastPrepareFailed
      ensures var r := Session.BeginStatementPrepare(old(View()), sql); View() == r.next && error == ErrorOf(r)
    {
      var normalized := Strip(sql);
      if normalized == "" {
        return Some(EmptySql);
      }
      if HasPendingLifecycleOperation() {
        return Some(AlreadyPending);
      }
      StartPrepare(normalized);
      return None;
    }

    method StartPrepare(sql: string)
      modifies this`pendingStatementSql, this`pendingPrepareEvent, this`pendingPreparedStatementId,
        this`pendingPrepareMetadataPackets, this`pendingPrepareMetadataKinds, this`lastPrepareFailed
      ensures View() == old(View()).(prepare := Prepare(Some(sql), Some(false), None, 0, [], false))
    {
      WritePrepare(Some(sql), Some(false), false);
    }

    method CompleteStatementPrepare(id: nat, parameterCount: nat, columnCount: nat) returns (error: Option<Error>)
      modifies this`pendingStatementSql, this`pendingPrepareEvent, this`pendingPreparedStatementId,
        this`pendingPrepareMetadataPackets, this`pendingPrepareMetadataKinds, this`lastPrepareFailed,
        this`lastPreparedStatementId, this`preparedStatements
      ensures var r := Session.CompleteStatementPrepare(old(View()), id, parameterCount, columnCount);
        View() == r.next && error == ErrorOf(r)
    {
      if pendingStatementSql.None? {
        return Some(NoPrepare);
      }
      var full := RequirePreparedCapacity(id, pendingStatementSql.value);
      if full.Some? {
        return full;
      }
      StoreCompleted(Prepared(id, pendingStatementSql.value, parameterCount, columnCount, None, {}));
      return None;
    }

    method StoreCompleted(statement: Prepared)
      modifies this`pendingStatementSql, this`pendingPrepareEvent, this`pendingPreparedStatementId,
        this`pendingPrepareMetadataPackets, this`pendingPrepareMetadataKinds, this`lastPrepareFailed,
        this`lastPreparedStatementId, this`preparedStatements
      ensures View() == Session.WithCompleted(old(View()), statement)
    {
      RecordCompleted(statement);
    }

    /** The statement is stored as the last one, and the prepare is over. */
    method RecordCompleted(statement: Prepared)
      modifies this`pendingStatementSql, this`pendingPrepareEvent, this`pendingPreparedStatementId,
        this`pendingPrepareMetadataPackets, this`pendingPrepareMetadataKinds, this`lastPrepareFailed,
        this`lastPreparedStatementId, this`preparedStatements
      ensures PrepareView() == Settled(old(PrepareView()), false)
      ensures RegistryView() == old(RegistryView()).(
        statements := old(preparedStatements)[statement.statementId := statement], last := Some(statement.statementId))
    {
      preparedStatements := preparedStatements[statement.statementId := statement];
      RememberLast(Some(statement.statementId));
      SettlePrepare(false);
    }

    method FailStatementPrepare()
      modifies this`pendingStatementSql, this`pendingPrepareEvent, this`pendingPreparedStatementId,
        this`pendingPrepareMetadataPackets, this`pendingPrepareMetadataKinds, this`lastPrepareFailed,
        this`lastPreparedStatementId, this`preparedStatements
      ensures View() == Session.FailStatementPrepare(old(View()))
    {
      RecordFailure();
    }

    /** The prepare has failed: forget it and wake whoever waits. */
    method RecordFailure()
      modifies this`pendingStatementSql, this`pendingPrepareEvent, this`pendingPreparedStatementId,
        this`pendingPrepareMetadataPackets, this`pendingPrepareMetadataKinds, this`lastPrepareFailed,
        this`lastPreparedStatementId, this`preparedStatements
      ensures PrepareView() == Settled(old(PrepareView()), true)
      ensures RegistryView() == Session.FailStatementPrepare(old(View())).registry
    {
      DropUnfinishedPrepare();
      SettlePrepare(true);
    }

    method DropUnfinishedPrepare()
      modifies this`preparedStatements, this`lastPreparedStatementId
      ensures RegistryView() == Session.FailStatementPrepare(old(View())).registry
    {
      if pendingPreparedStatementId.Some? {
        preparedStatements := preparedStatements - {pendingPreparedStatementId.value};
      } else {
        assert preparedStatements - {} == preparedStatements;
      }
      lastPreparedStatementId := None;
    }

    method AcceptStatementPrepareOk(id: nat, parameterCount: nat, columnCount: nat,
                                    deprecateEof: bool) returns (error: Option<Error>)
      modifies this`preparedStatements, this`pendingPreparedStatementId,
        this`pendingPrepareMetadataPackets, this`pendingPrepareMetadataKinds
      ensures var r := Session.AcceptStatementPrepareOk(old(View()), id, parameterCount, columnCount, deprecateEof);
        View() == r.next && error == ErrorOf(r)
    {
      if pendingStatementSql.None? {
        return Some(NoPrepare);
      }
      if pendingPreparedStatementId.Some? {
        return Some(DuplicatePrepareOk);
      }
      var full := RequirePreparedCapacity(id, pendingStatementSql.value);
      if full.Some? {
        return full;
      }
      StorePrepared(Prepared(id, pendingStatementSql.value, parameterCount, columnCount, None, {}));
      var kinds := ExpectedMetadata(parameterCount, columnCount, deprecateEof);
      ExpectMetadata(id, kinds);
      return None;
    }

    method StorePrepared(statement: Prepared)
      modifies this`preparedStatements
      ensures View() == Put(old(View()), statement.statementId, statement)
    {
      preparedStatements := preparedStatements[statement.statementId := statement];
    }

    method ExpectMetadata(id: nat, kinds: seq<Kind>)
      modifies this`pendingPreparedStatementId, this`pendingPrepareMetadataPackets, this`pendingPrepareMetadataKinds
      ensures View()
           == old(View()).(prepare :=
                old(PrepareView()).(id := Some(id), metadataKinds := kinds, metadataPackets := |kinds|))
    {
      pendingPreparedStatementId := Some(id);
      pendingPrepareMetadataKinds := kinds;
      pendingPrepareMetadataPackets := |kinds|;
    }

    static method ExpectedMetadata(parameterCount: nat, columnCount: nat, deprecateEof: bool) returns (kinds: seq<Kind>)
      ensures kinds == MetadataKinds(parameterCount, columnCount, deprecateEof)
    {
      kinds := seq(parameterCount, _ => ParameterKind);
      if parameterCount > 0 && !deprecateEof {
        kinds := kinds + [EofKind];
      }
      assert kinds == Group(ParameterKind, parameterCount, deprecateEof);
      var columns := seq(columnCount, _ => ColumnKind);
      if columnCount > 0 && !deprecateEof {
        columns := columns + [EofKind];
      }
      assert columns == Group(ColumnKind, columnCount, deprecateEof);
      kinds := kinds + columns;
    }

    method ConsumeStatementPrepareMetadata(payload: Bytes, caps: nat) returns (last: bool, error: Option<Error>)
      modifies this`pendingPrepareMetadataKinds, this`pendingPrepareMetadataPackets
      ensures var r := ConsumePrepareMetadata(old(View()), payload, caps);
        View() == r.next && error == ErrorOf(r) && (r.Done? ==> last == r.value)
    {
      if pendingPreparedStatementId.None? {
        return false, Some(NoMetadataPending);
      }
      if pendingPrepareMetadataPackets == 0 {
        return false, Some(ExtraMetadata);
      }
      if payload == [] {
        return false, Some(EmptyMetadata);
      }
      if pendingPrepareMetadataKinds == [] {
        return false, Some(MissingKind);
      }
      var kind := pendingPrepareMetadataKinds[0];
      if kind == EofKind {
        if payload[0] != EOF_MARKER || |payload| >= 9 {
          return false, Some(ExpectedEof);
        }
        if Has(caps, CLIENT_PROTOCOL_41) && ParseEofStatus(payload, caps).None? {
          return false, Some(BadPacket);
        }
      } else if payload[0] == ERR_MARKER {
        return false, Some(MetadataError);
      }
      pendingPrepareMetadataKinds := pendingPrepareMetadataKinds[1..];
      pendingPrepareMetadataPackets := pendingPrepareMetadataPackets - 1;
      return pendingPrepareMetadataPackets == 0, None;
    }

    method FinishStatementPrepareResponse() returns (error: Option<Error>)
      modifies this`pendingStatementSql, this`pendingPrepareEvent, this`pendingPreparedStatementId,
        this`pendingPrepareMetadataPackets, this`pendingPrepareMetadataKinds, this`lastPrepareFailed,
        this`lastPreparedStatementId
      ensures var r := FinishStatementPrepare(old(View())); View() == r.next && error == ErrorOf(r)
    {
      if pendingPreparedStatementId.None? {
        return Some(NoPrepareResponse);
      }
      if pendingPrepareMetadataPackets != 0 {
        return Some(IncompleteMetadata);
      }
      RecordPrepared();
      return None;
    }

    /** The prepare has succeeded: remember its id and wake whoever waits. */
    method RecordPrepared()
      modifies this`pendingStatementSql, this`pendingPrepareEvent, this`pendingPreparedStatementId,
        this`pendingPrepareMetadataPackets, this`pendingPrepareMetadataKinds, this`lastPrepareFailed,
        this`lastPreparedStatementId
      ensures PrepareView() == Settled(old(PrepareView()), false)
      ensures RegistryView() == old(RegistryView()).(last := old(pendingPreparedStatementId))
    {
      RememberLast(pendingPreparedStatementId);
      SettlePrepare(false);
    }

    method SettlePrepare(failed: bool)
      modifies this`pendingStatementSql, this`pendingPrepareEvent, this`pendingPreparedStatementId,
        this`pendingPrepareMetadataPackets, this`pendingPrepareMetadataKinds, this`lastPrepareFailed
      ensures PrepareView() == Settled(old(PrepareView()), failed)
    {
      WritePrepare(None, if pendingPrepareEvent.Some? then Some(true) else None, failed);
    }

    method RememberLast(id: Option<nat>)
      modifies this`lastPreparedStatementId
      ensures RegistryView() == old(RegistryView()).(last := id)
    {
      lastPreparedStatementId := id;
    }

    /** What follows the wait in wait_for_statement_prepare. */
    method StatementAfterPrepare() returns (found: Found)
      ensures found == PreparedAfterWait(View())
    {
      if lastPrepareFailed {
        return NoStatement;
      }
      if lastPreparedStatementId.None? {
        return Missing(PrepareWithoutId);
      }
      found := GetPreparedStatement(lastPreparedStatementId.value);
    }

    method GetLastPreparedStatement() returns (found: Found)
      ensures found == Session.GetLastPreparedStatement(View())
    {
      if lastPreparedStatementId.None? {
        return Missing(NoReusableStatement);
      }
      found := GetPreparedStatement(lastPreparedStatementId.value);
    }

    method GetPreparedStatement(id: nat) returns (found: Found)
      ensures found == Session.GetPreparedStatement(View(), id)
    {
      return if id in preparedStatements then Statement(preparedStatements[id]) else Missing(UnknownStatement);
    }

    method ClosePreparedStatement(id: nat)
      modifies this`preparedStatements, this`lastPreparedStatementId
      ensures View() == Session.ClosePreparedStatement(old(View()), id)
    {
      preparedStatements := preparedStatements - {id};
      if lastPreparedStatementId == Some(id) {
        lastPreparedStatementId := None;
      }
    }

    method RegisterStatementParameterTypes(id: nat, types: seq<ParamType>) returns (error: Option<Error>)
      modifies this`preparedStatements
      ensures var r := RegisterParameterTypes(old(View()), id, types); View() == r.next && error == ErrorOf(r)
    {
      var found := GetPreparedStatement(id);
      if !found.Statement? {
        return Some(found.error);
      }
      if |types| != found.statement.parameterCount {
        return Some(TypeCountMismatch);
      }
      preparedStatements := preparedStatements[id := found.statement.(parameterTypes := Some(types), longData := {})];
      return None;
    }

    method MarkStatementLongData(id: nat, parameterId: nat) returns (error: Option<Error>)
      modifies this`preparedStatements
      ensures var r := MarkLongData(old(View()), id, parameterId); View() == r.next && error == ErrorOf(r)
    {
      var found := GetPreparedStatement(id);
      if !found.Statement? {
        return Some(found.error);
      }
      if parameterId >= found.statement.parameterCount {
        return Some(ParameterOutOfRange);
      }
      var marked := found.statement.(longData := found.statement.longData + {parameterId});
      preparedStatements := preparedStatements[id := marked];
      return None;
    }

    method ResetPreparedStatement(id: nat) returns (error: Option<Error>)
      modifies this`preparedStatements
      ensures var r := Session.ResetPreparedStatement(old(View()), id); View() == r.next && error == ErrorOf(r)
    {
      var found := GetPreparedStatement(id);
      if !found.Statement? {
        return Some(found.error);
      }
      preparedStatements := preparedStatements[id := found.statement.(parameterTypes := None, longData := {})];
      return None;
    }

    method BeginPing() returns (error: Option<Error>)
      modifies this`pendingPing
      ensures var r := Session.BeginPing(old(View())); View() == r.next && error == ErrorOf(r)
    {
      if HasPendingLifecycleOperation() {
        return Some(AlreadyPending);
      }
      pendingPing := true;
      return None;
    }

    method CompletePing(payload: Bytes) returns (alive: bool, error: Option<Error>)
      modifies this`pendingPing
      ensures var r := Session.CompletePing(old(View()), payload);
        View() == r.next && error == ErrorOf(r) && (r.Done? ==> alive == r.value)
    {
      if !pendingPing {
        return false, Some(NoPing);
      }
      pendingPing := false;
      if payload == [] {
        return false, Some(EmptyResponse);
      }
      if payload[0] == OK_MARKER {
        return true, None;
      }
      return false, if payload[0] == ERR_MARKER then None else Some(UnexpectedResponse);
    }

    method FailPing()
      modifies this`pendingPing
      ensures View() == Session.FailPing(old(View()))
    {
      pendingPing := false;
    }

    method FailStatementReset()
      modifies this`pendingStatementResetId
      ensures View() == Session.FailStatementReset(old(View()))
    {
      pendingStatementResetId := None;
    }

    method BeginStatementReset(id: nat) returns (error: Option<Error>)
      modifies this`pendingStatementResetId
      ensures var r := Session.BeginStatementReset(old(View()), id); View() == r.next && error == ErrorOf(r)
    {
      if HasPendingLifecycleOperation() {
        return Some(AlreadyPending);
      }
      var found := GetPreparedStatement(id);
      if !found.Statement? {
        return Some(found.error);
      }
      pendingStatementResetId := Some(id);
      return None;
    }

    method CompleteStatementReset(payload: Bytes) returns (done: bool, error: Option<Error>)
      modifies this`pendingStatementResetId, this`preparedStatements
      ensures var r := Session.CompleteStatementReset(old(View()), payload);
        View() == r.next && error == ErrorOf(r) && (r.Done? ==> done == r.value)
    {
      var id := pendingStatementResetId;
      if id.None? {
        return false, Some(NoReset);
      }
      pendingStatementResetId := None;
      if payload == [] {
        return false, Some(EmptyResponse);
      }
      if payload[0] == OK_MARKER {
        error := ResetPreparedStatement(id.value);
        return true, error;
      }
      return false, if payload[0] == ERR_MARKER then None else Some(UnexpectedResponse);
    }

    method BeginCommandResponse(command: Command) returns (error: Option<Error>)
      modifies this`pendingCommandResponse, this`commandResponseStage, this`responseColumnsRemaining
      ensures var r := Session.BeginCommandResponse(old(View()), command); View() == r.next && error == ErrorOf(r)
    {
      if HasPendingLifecycleOperation() {
        return Some(AlreadyPending);
      }
      WriteTracker(Some(command), Initial, 0);
      return None;
    }

    method FailCommandForward()
      modifies this`pendingCommandResponse, this`commandResponseStage, this`responseColumnsRemaining
      ensures View() == Session.FailCommandForward(old(View()))
    {
      WriteTracker(None, Initial, 0);
    }

    method WriteTracker(pending: Option<Command>, stage: Stage, columnsRemaining: nat)
      modifies this`pendingCommandResponse, this`commandResponseStage, this`responseColumnsRemaining
      ensures TrackerView() == Tracker(pending, stage, columnsRemaining)
    {
      pendingCommandResponse, commandResponseStage, responseColumnsRemaining := pending, stage, columnsRemaining;
    }

    method UpdateTransactionStatus(status: nat)
      modifies this`serverStatusFlags, this`transactionActive, this`transactionReadOnly, this`autocommit
      ensures View() == Session.UpdateTransactionStatus(old(View()), status)
    {
      WriteTransaction(
        status, Has(status, SERVER_STATUS_IN_TRANS),
        Has(status, SERVER_STATUS_IN_TRANS_READONLY), Has(status, SERVER_STATUS_AUTOCOMMIT));
    }

    method WriteTransaction(status: nat, active: bool, readOnly: bool, autocommit: bool)
      modifies this`serverStatusFlags, this`transactionActive, this`transactionReadOnly, this`autocommit
      ensures TransactionView() == Transaction(Some(status), active, readOnly, autocommit)
    {
      serverStatusFlags := Some(status);
      transactionActive := active;
      transactionReadOnly := readOnly;
      this.autocommit := autocommit;
    }

    method FinishOrContinueResponse(status: nat)
      modifies this`pendingCommandResponse, this`commandResponseStage, this`responseColumnsRemaining
      ensures View() == old(View()).(tracker := FinishOrContinue(old(View()).tracker, status))
    {
      if Has(status, SERVER_MORE_RESULTS_EXISTS) {
        commandResponseStage, responseColumnsRemaining := Initial, 0;
        return;
      }
      FailCommandForward();
    }

    method AcceptCommandResponsePacket(payload: Bytes, caps: nat) returns (error: Option<Error>)
      modifies this`pendingCommandResponse, this`commandResponseStage, this`responseColumnsRemaining,
        this`serverStatusFlags, this`transactionActive, this`transactionReadOnly, this`autocommit
      ensures var r := AcceptCommandResponse(old(View()), payload, caps); View() == r.next && error == ErrorOf(r)
    {
      if pendingCommandResponse.None? {
        return Some(NoCommand);
      }
      if payload == [] {
        FailCommandForward();
        return Some(EmptyResponse);
      }
      if payload[0] == ERR_MARKER {
        FailCommandForward();
        return None;
      }
      match commandResponseStage {
        case Initial => error := AcceptInitialPacket(payload, caps);
        case Metadata => error := AcceptMetadataPacket(caps);
        case MetadataEof => error := AcceptMetadataEof(payload, caps);
        case Rows => error := AcceptRowPacket(payload, caps);
        case Other(_) =>
          FailCommandForward();
          return Some(UnknownStage);
      }
    }

    method AcceptInitialPacket(payload: Bytes, caps: nat) returns (error: Option<Error>)
      requires payload != []
      modifies this`pendingCommandResponse, this`commandResponseStage, this`responseColumnsRemaining,
        this`serverStatusFlags, this`transactionActive, this`transactionReadOnly, this`autocommit
      ensures var r := Followed(old(View()), TrackInitial(old(TrackerView()), payload, caps));
        View() == r.next && error == ErrorOf(r)
    {
      if payload[0] == OK_MARKER {
        error := AcceptStatus(ParseOkStatus(payload, caps));
        return;
      }
      if payload[0] == LOCAL_INFILE_MARKER {
        FailCommandForward();
        return Some(LocalInfile);
      }
      var header := ParseResultSetHeader(payload, caps);
      if header.None? {
        return Some(BadPacket);
      }
      if header.value.1 {
        WriteTracker(pendingCommandResponse, Metadata, header.value.0);
      } else {
        WriteTracker(pendingCommandResponse, if DeprecateEof(caps) then Rows else MetadataEof, 0);
      }
      return None;
    }

    /** The status of the packet that ends a reply: another reply follows, or the command is answered. */
    method AcceptStatus(status: Option<nat>) returns (error: Option<Error>)
      modifies this`pendingCommandResponse, this`commandResponseStage, this`responseColumnsRemaining,
        this`serverStatusFlags, this`transactionActive, this`transactionReadOnly, this`autocommit
      ensures var r := Followed(old(View()), if status.None? then Failed(old(TrackerView()), BadPacket)
                                             else Accepted(FinishOrContinue(old(TrackerView()), status.value), status));
        View() == r.next && error == ErrorOf(r)
    {
      if status.None? {
        return Some(BadPacket);
      }
      UpdateTransactionStatus(status.value);
      FinishOrContinueResponse(status.value);
      return None;
    }

    method AcceptMetadataPacket(caps: nat) returns (error: Option<Error>)
      modifies this`pendingCommandResponse, this`commandResponseStage, this`responseColumnsRemaining
      ensures var r := Followed(old(View()), TrackMetadata(old(TrackerView()), caps));
        View() == r.next && error == ErrorOf(r)
    {
      if responseColumnsRemaining == 0 {
        FailCommandForward();
        return Some(UnexpectedMetadata);
      }
      responseColumnsRemaining := responseColumnsRemaining - 1;
      if responseColumnsRemaining == 0 {
        commandResponseStage := if DeprecateEof(caps) then Rows else MetadataEof;
      }
      return None;
    }

    method AcceptMetadataEof(payload: Bytes, caps: nat) returns (error: Option<Error>)
      modifies this`commandResponseStage, this`serverStatusFlags, this`transactionActive, this`transactionReadOnly,
               this`autocommit
      ensures var r := Followed(old(View()), TrackMetadataEof(old(TrackerView()), payload, caps));
        View() == r.next && error == ErrorOf(r)
    {
      var status := ParseEofStatus(payload, caps);
      if status.None? {
        return Some(BadPacket);
      }
      UpdateTransactionStatus(status.value);
      commandResponseStage := Rows;
      return None;
    }

    method AcceptRowPacket(payload: Bytes, caps: nat) returns (error: Option<Error>)
      requires payload != []
      modifies this`pendingCommandResponse, this`commandResponseStage, this`responseColumnsRemaining,
        this`serverStatusFlags, this`transactionActive, this`transactionReadOnly, this`autocommit
      ensures var r := Followed(old(View()), TrackRow(old(TrackerView()), payload, caps));
        View() == r.next && error == ErrorOf(r)
    {
      if !DeprecateEof(caps) {
        if payload[0] != EOF_MARKER || |payload| >= 9 {
          return None;
        }
        error := AcceptStatus(ParseEofStatus(payload, caps));
        return;
      }
      if payload[0] != EOF_MARKER {
        return None;
      }
      error := AcceptStatus(ParseOkStatus(payload, caps));
    }

    method MarkClosing()
      modifies this`closing
      ensures View() == old(View()).(closing := true)
    {
      closing := true;
    }
  }
}
