/**
 The state the proxy keeps for one authenticated MySQL session, and every operation
 on it as a function from the state before to the state after. An operation that
 raises says so and also gives the state it leaves.
 */
module Session {
  import opened Wire
  import opened Responses
  import opened Tracker
  import opened ExecuteParams
  import opened MapSum
  import Scanner
  import Utf8

  datatype Prepared = Prepared(
    statementId: nat, sql: string, parameterCount: nat, columnCount: nat,
    parameterTypes: Option<seq<ParamType>>, longData: set<nat>)

  type Statements = map<nat, Prepared>

  /** The prepared statements, their limits, and the one prepared last. */
  datatype Registry = Registry(maxStatements: nat, maxBytes: nat, statements: Statements, last: Option<nat>)

  datatype Kind = ParameterKind | ColumnKind | EofKind

  /** A COM_STMT_PREPARE under way; event tells a waiting execution that it is over. */
  datatype Prepare = Prepare(
    sql: Option<string>, event: Option<bool>, id: Option<nat>,
    metadataPackets: nat, metadataKinds: seq<Kind>, failed: bool)

  datatype Transaction = Transaction(flags: Option<nat>, active: bool, readOnly: bool, autocommit: bool)

  datatype State = State(
    database: string, pendingDatabase: Option<string>, pendingPing: bool, pendingReset: Option<nat>,
    prepare: Prepare, tracker: Tracker, registry: Registry, transaction: Transaction, closing: bool)

  datatype Step<+T> = Done(next: State, value: T) | Raised(next: State, error: Error)

  function ErrorOf<T>(r: Step<T>): Option<Error> {
    if r.Raised? then Some(r.error) else None
  }

  function Fresh(database: string, maxStatements: nat, maxBytes: nat): State {
    State(database, None, false, None, Prepare(None, None, None, 0, [], false), IDLE,
          Registry(maxStatements, maxBytes, map[], None), Transaction(None, false, false, true), false)
  }

  predicate HasPending(s: State) {
    s.pendingDatabase.Some? || s.prepare.sql.Some? || s.pendingPing || s.pendingReset.Some? || s.tracker.pending.Some?
  }

  /** Python's str.strip(). */
  function Strip(s: string): (r: string)
    ensures |r| <= |s|
  {
    if s == "" then ""
    else if Scanner.IsSpace(s[0]) then Strip(s[1..])
    else if Scanner.IsSpace(s[|s| - 1]) then Strip(s[..|s| - 1])
    else s
  }

  // ---------------------------------------------------------------------------
  // Registry limits
  // ---------------------------------------------------------------------------

  function SqlWeight(id: nat, statement: Prepared): nat {
    |Utf8.Encode(statement.sql)|
  }

  ghost function SqlBytes(statements: Statements): nat {
    Total(statements, SqlWeight)
  }

  /** The error of a registration that does not fit, counting a replaced statement as removed. */
  ghost function CapacityError(r: Registry, id: nat, sql: string): Option<Error> {
    if id !in r.statements && |r.statements| >= r.maxStatements then Some(RegistryFull)
    else if SqlBytes(r.statements - {id}) + |Utf8.Encode(sql)| > r.maxBytes then Some(StateTooLarge)
    else None
  }

  ghost predicate IsBounded(r: Registry) {
    |r.statements| <= r.maxStatements && SqlBytes(r.statements) <= r.maxBytes
  }

  function Put(s: State, id: nat, statement: Prepared): State {
    s.(registry := s.registry.(statements := s.registry.statements[id := statement]))
  }

  // ---------------------------------------------------------------------------
  // COM_INIT_DB
  // ---------------------------------------------------------------------------

  function BeginDatabaseChange(s: State, database: string): Step<()> {
    if Strip(database) == "" then Raised(s, EmptyDatabaseName)
    else if HasPending(s) then Raised(s, AlreadyPending)
    else Done(s.(pendingDatabase := Some(Strip(database))), ())
  }

  function CompleteDatabaseChange(s: State, payload: Bytes): Step<bool> {
    var cleared := s.(pendingDatabase := None);
    if s.pendingDatabase.None? then Raised(s, NoDatabaseChange)
    else if payload == [] then Raised(cleared, EmptyResponse)
    else if payload[0] == OK_MARKER then Done(cleared.(database := s.pendingDatabase.value), true)
    else if payload[0] == ERR_MARKER then Done(cleared, false)
    else Raised(cleared, UnexpectedResponse)
  }

  // ---------------------------------------------------------------------------
  // COM_STMT_PREPARE
  // ---------------------------------------------------------------------------

  function BeginStatementPrepare(s: State, sql: string): Step<()> {
    if Strip(sql) == "" then Raised(s, EmptySql)
    else if HasPending(s) then Raised(s, AlreadyPending)
    else Done(s.(prepare := Prepare(Some(Strip(sql)), Some(false), None, 0, [], false)), ())
  }

  /** The prepare is over; whoever waits for it is woken. */
  function Settled(p: Prepare, failed: bool): Prepare {
    Prepare(None, if p.event.None? then None else Some(true), None, 0, [], failed)
  }

  /** Registration and end of a prepare in one step. */
  ghost function CompleteStatementPrepare(s: State, id: nat, parameterCount: nat, columnCount: nat): Step<Prepared> {
    if s.prepare.sql.None? then Raised(s, NoPrepare)
    else
      var full := CapacityError(s.registry, id, s.prepare.sql.value);
      if full.Some? then Raised(s, full.value)
      else
        var statement := Prepared(id, s.prepare.sql.value, parameterCount, columnCount, None, {});
        Done(WithCompleted(s, statement), statement)
  }

  function WithCompleted(s: State, statement: Prepared): State {
    s.(registry := s.registry.(statements := s.registry.statements[statement.statementId := statement],
                               last := Some(statement.statementId)),
       prepare := Settled(s.prepare, false))
  }

  function FailStatementPrepare(s: State): State {
    var abandoned := if s.prepare.id.Some? then {s.prepare.id.value} else {};
    s.(registry := s.registry.(statements := s.registry.statements - abandoned, last := None),
       prepare := Settled(s.prepare, true))
  }

  /** One definition a parameter and a column, each group closed by an EOF unless those are deprecated. */
  function MetadataKinds(parameterCount: nat, columnCount: nat, deprecateEof: bool): seq<Kind> {
    Group(ParameterKind, parameterCount, deprecateEof) + Group(ColumnKind, columnCount, deprecateEof)
  }

  function Group(kind: Kind, count: nat, deprecateEof: bool): (kinds: seq<Kind>)
    ensures |kinds| == count + if count > 0 && !deprecateEof then 1 else 0
  {
    seq(count, _ => kind) + if count > 0 && !deprecateEof then [EofKind] else []
  }

  ghost function AcceptStatementPrepareOk(s: State, id: nat, parameterCount: nat, columnCount: nat,
                                          deprecateEof: bool): Step<Prepared> {
    if s.prepare.sql.None? then Raised(s, NoPrepare)
    else if s.prepare.id.Some? then Raised(s, DuplicatePrepareOk)
    else
      var full := CapacityError(s.registry, id, s.prepare.sql.value);
      if full.Some? then Raised(s, full.value)
      else
        var statement := Prepared(id, s.prepare.sql.value, parameterCount, columnCount, None, {});
        var kinds := MetadataKinds(parameterCount, columnCount, deprecateEof);
        var prepare := s.prepare.(id := Some(id), metadataKinds := kinds, metadataPackets := |kinds|);
        Done(Put(s, id, statement).(prepare := prepare), statement)
  }

  /** The error of a metadata packet of the expected kind. */
  function MetadataPacketError(kind: Kind, payload: Bytes, caps: nat): Option<Error>
    requires payload != []
  {
    if kind == EofKind then
      if !IsEofShaped(payload) then Some(ExpectedEof)
      else if Has(caps, CLIENT_PROTOCOL_41) && ParseEofStatus(payload, caps).None? then Some(BadPacket)
      else None
    else if payload[0] == ERR_MARKER then Some(MetadataError)
    else None
  }

  /** True when this was the last metadata packet. */
  function ConsumePrepareMetadata(s: State, payload: Bytes, caps: nat): Step<bool> {
    var p := s.prepare;
    if p.id.None? then Raised(s, NoMetadataPending)
    else if p.metadataPackets == 0 then Raised(s, ExtraMetadata)
    else if payload == [] then Raised(s, EmptyMetadata)
    else if p.metadataKinds == [] then Raised(s, MissingKind)
    else
      var error := MetadataPacketError(p.metadataKinds[0], payload, caps);
      if error.Some? then Raised(s, error.value)
      else
        var left := p.metadataPackets - 1;
        Done(s.(prepare := p.(metadataKinds := p.metadataKinds[1..], metadataPackets := left)), left == 0)
  }

  function FinishStatementPrepare(s: State): Step<()> {
    if s.prepare.id.None? then Raised(s, NoPrepareResponse)
    else if s.prepare.metadataPackets != 0 then Raised(s, IncompleteMetadata)
    else Done(s.(registry := s.registry.(last := s.prepare.id), prepare := Settled(s.prepare, false)), ())
  }

  // ---------------------------------------------------------------------------
  // The registry
  // ---------------------------------------------------------------------------

  datatype Found = Statement(statement: Prepared) | NoStatement | Missing(error: Error)

  function GetPreparedStatement(s: State, id: nat): Found {
    if id in s.registry.statements then Statement(s.registry.statements[id]) else Missing(UnknownStatement)
  }

  function GetLastPreparedStatement(s: State): Found {
    if s.registry.last.None? then Missing(NoReusableStatement) else GetPreparedStatement(s, s.registry.last.value)
  }

  /** What a waiting pipelined execution finds when the prepare is over. */
  function PreparedAfterWait(s: State): Found {
    if s.prepare.failed then NoStatement
    else if s.registry.last.None? then Missing(PrepareWithoutId)
    else GetPreparedStatement(s, s.registry.last.value)
  }

  function ClosePreparedStatement(s: State, id: nat): State {
    var last := if s.registry.last == Some(id) then None else s.registry.last;
    s.(registry := s.registry.(statements := s.registry.statements - {id}, last := last))
  }

  function RegisterParameterTypes(s: State, id: nat, types: seq<ParamType>): Step<()> {
    if id !in s.registry.statements then Raised(s, UnknownStatement)
    else if |types| != s.registry.statements[id].parameterCount then Raised(s, TypeCountMismatch)
    else Done(Put(s, id, s.registry.statements[id].(parameterTypes := Some(types), longData := {})), ())
  }

  function MarkLongData(s: State, id: nat, parameterId: nat): Step<()> {
    if id !in s.registry.statements then Raised(s, UnknownStatement)
    else if parameterId >= s.registry.statements[id].parameterCount then Raised(s, ParameterOutOfRange)
    else
      var statement := s.registry.statements[id];
      Done(Put(s, id, statement.(longData := statement.longData + {parameterId})), ())
  }

  function ResetPreparedStatement(s: State, id: nat): Step<()> {
    if id !in s.registry.statements then Raised(s, UnknownStatement)
    else Done(Put(s, id, s.registry.statements[id].(parameterTypes := None, longData := {})), ())
  }

  // ---------------------------------------------------------------------------
  // COM_PING, COM_STMT_RESET, queries and executions
  // ---------------------------------------------------------------------------

  function BeginPing(s: State): Step<()> {
    if HasPending(s) then Raised(s, AlreadyPending) else Done(s.(pendingPing := true), ())
  }

  function CompletePing(s: State, payload: Bytes): Step<bool> {
    var cleared := s.(pendingPing := false);
    if !s.pendingPing then Raised(s, NoPing)
    else if payload == [] then Raised(cleared, EmptyResponse)
    else if payload[0] == OK_MARKER then Done(cleared, true)
    else if payload[0] == ERR_MARKER then Done(cleared, false)
    else Raised(cleared, UnexpectedResponse)
  }

  function FailPing(s: State): State {
    s.(pendingPing := false)
  }

  function BeginStatementReset(s: State, id: nat): Step<()> {
    if HasPending(s) then Raised(s, AlreadyPending)
    else if id !in s.registry.statements then Raised(s, UnknownStatement)
    else Done(s.(pendingReset := Some(id)), ())
  }

  function CompleteStatementReset(s: State, payload: Bytes): Step<bool> {
    var cleared := s.(pendingReset := None);
    if s.pendingReset.None? then Raised(s, NoReset)
    else if payload == [] then Raised(cleared, EmptyResponse)
    else if payload[0] == OK_MARKER then
      var reset := ResetPreparedStatement(cleared, s.pendingReset.value);
      if reset.Raised? then Raised(reset.next, reset.error) else Done(reset.next, true)
    else if payload[0] == ERR_MARKER then Done(cleared, false)
    else Raised(cleared, UnexpectedResponse)
  }

  function FailStatementReset(s: State): State {
    s.(pendingReset := None)
  }

  function BeginCommandResponse(s: State, command: Command): Step<()> {
    if HasPending(s) then Raised(s, AlreadyPending) else Done(s.(tracker := Tracker(Some(command), Initial, 0)), ())
  }

  function FailCommandForward(s: State): State {
    s.(tracker := IDLE)
  }

  function UpdateTransactionStatus(s: State, status: nat): State {
    s.(transaction := Transaction(
      Some(status), Has(status, SERVER_STATUS_IN_TRANS),
      Has(status, SERVER_STATUS_IN_TRANS_READONLY), Has(status, SERVER_STATUS_AUTOCOMMIT)))
  }

  function AcceptCommandResponse(s: State, payload: Bytes, caps: nat): Step<()> {
    Followed(s, Track(s.tracker, payload, caps))
  }

  /** The session after the tracker has taken a packet. */
  function Followed(s: State, t: Tracking): Step<()> {
    match t
    case Failed(next, error) => Raised(s.(tracker := next), error)
    case Accepted(next, status) =>
      Done((if status.Some? then UpdateTransactionStatus(s, status.value) else s).(tracker := next), ())
  }

  // ---------------------------------------------------------------------------
  // What every operation keeps
  // ---------------------------------------------------------------------------

  datatype Op =
    | OpBeginDatabase(database: string) | OpCompleteDatabase(payload: Bytes)
    | OpBeginPrepare(sql: string) | OpFailPrepare
    | OpAcceptPrepareOk(id: nat, parameterCount: nat, columnCount: nat, deprecateEof: bool)
    | OpConsumeMetadata(payload: Bytes, caps: nat) | OpFinishPrepare
    | OpCompletePrepare(id: nat, parameterCount: nat, columnCount: nat)
    | OpClose(id: nat) | OpRegisterTypes(id: nat, types: seq<ParamType>)
    | OpMarkLongData(id: nat, parameterId: nat) | OpReset(id: nat)
    | OpBeginPing | OpCompletePing(payload: Bytes) | OpFailPing
    | OpBeginReset(id: nat) | OpCompleteReset(payload: Bytes) | OpFailReset
    | OpBeginCommand(command: Command) | OpFailCommand
    | OpAcceptResponse(payload: Bytes, caps: nat) | OpUpdateStatus(status: nat) | OpMarkClosing

  /** The state after one operation, whether it raises or not. */
  ghost function After(s: State, op: Op): State {
    match op
    case OpBeginDatabase(database) => BeginDatabaseChange(s, database).next
    case OpCompleteDatabase(payload) => CompleteDatabaseChange(s, payload).next
    case OpBeginPrepare(sql) => BeginStatementPrepare(s, sql).next
    case OpFailPrepare => FailStatementPrepare(s)
    case OpAcceptPrepareOk(id, p, c, deprecateEof) => AcceptStatementPrepareOk(s, id, p, c, deprecateEof).next
    case OpConsumeMetadata(payload, caps) => ConsumePrepareMetadata(s, payload, caps).next
    case OpFinishPrepare => FinishStatementPrepare(s).next
    case OpCompletePrepare(id, p, c) => CompleteStatementPrepare(s, id, p, c).next
    case OpFailPing => FailPing(s)
    case OpFailReset => FailStatementReset(s)
    case OpClose(id) => ClosePreparedStatement(s, id)
    case OpRegisterTypes(id, types) => RegisterParameterTypes(s, id, types).next
    case OpMarkLongData(id, parameterId) => MarkLongData(s, id, parameterId).next
    case OpReset(id) => ResetPreparedStatement(s, id).next
    case OpBeginPing => BeginPing(s).next
    case OpCompletePing(payload) => CompletePing(s, payload).next
    case OpBeginReset(id) => BeginStatementReset(s, id).next
    case OpCompleteReset(payload) => CompleteStatementReset(s, payload).next
    case OpBeginCommand(command) => BeginCommandResponse(s, command).next
    case OpFailCommand => FailCommandForward(s)
    case OpAcceptResponse(payload, caps) => AcceptCommandResponse(s, payload, caps).next
    case OpUpdateStatus(status) => UpdateTransactionStatus(s, status)
    case OpMarkClosing => s.(closing := true)
  }

  ghost function AfterAll(s: State, ops: seq<Op>): State
    decreases |ops|
  {
    if ops == [] then s else AfterAll(After(s, ops[0]), ops[1..])
  }

  predicate IsWellFormed(id: nat, statement: Prepared) {
    && statement.statementId == id
    && (statement.parameterTypes.Some? ==> |statement.parameterTypes.value| == statement.parameterCount)
    && forall i :: i in statement.longData ==> i < statement.parameterCount
  }

  predicate AreWellFormed(statements: Statements) {
    forall id :: id in statements ==> IsWellFormed(id, statements[id])
  }

  /** Limits, countdowns and registry: kept by every operation, whoever calls it and however it ends. */
  ghost predicate IsKept(s: State) {
    && IsBounded(s.registry)
    && AreWellFormed(s.registry.statements)
    && IsTracked(s.tracker)
    && s.prepare.metadataPackets == |s.prepare.metadataKinds|
  }

  lemma FreshIsKept(database: string, maxStatements: nat, maxBytes: nat)
    ensures IsKept(Fresh(database, maxStatements, maxBytes))
  {
    TotalOfNone(SqlWeight);
  }

  /** Replacing a statement changes the byte sum by that statement only. */
  lemma ReplacedBytes(statements: Statements, id: nat, statement: Prepared)
    ensures SqlBytes(statements[id := statement]) == SqlBytes(statements - {id}) + |Utf8.Encode(statement.sql)|
    ensures SqlBytes(statements)
         == SqlBytes(statements - {id}) + if id in statements then |Utf8.Encode(statements[id].sql)| else 0
  {
    TotalUpdate(statements, SqlWeight, id, statement);
  }

  lemma RemovalKeepsLimits(r: Registry, ids: set<nat>)
    requires IsBounded(r)
    ensures IsBounded(r.(statements := r.statements - ids))
  {
    TotalOfPart(r.statements, r.statements - ids, SqlWeight);
  }

  /** Changing anything but the text of a registered statement keeps the limits. */
  lemma EditKeepsLimits(r: Registry, id: nat, statement: Prepared)
    requires IsBounded(r) && id in r.statements && statement.sql == r.statements[id].sql
    ensures IsBounded(r.(statements := r.statements[id := statement]))
  {
    ReplacedBytes(r.statements, id, statement);
    assert r.statements[id := statement].Keys == r.statements.Keys;
  }

  /** A registration is accepted exactly when the registry stays within its limits. */
  lemma RegistrationFits(r: Registry, id: nat, statement: Prepared)
    requires IsBounded(r)
    ensures CapacityError(r, id, statement.sql).None? <==> IsBounded(r.(statements := r.statements[id := statement]))
  {
    ReplacedBytes(r.statements, id, statement);
    SizeUpdate(r.statements, id, statement);
  }

  /** A rejected registration changes nothing. */
  lemma RejectedRegistrationChangesNothing(s: State, id: nat, p: nat, c: nat, deprecateEof: bool)
    requires IsBounded(s.registry) && s.prepare.sql.Some? && s.prepare.id.None?
    ensures var r := AcceptStatementPrepareOk(s, id, p, c, deprecateEof);
      var statement := Prepared(id, s.prepare.sql.value, p, c, None, {});
      && (r.Raised? ==> r.next == s)
      && (r.Done? <==> IsBounded(Put(s, id, statement).registry))
  {
    RegistrationFits(s.registry, id, Prepared(id, s.prepare.sql.value, p, c, None, {}));
  }

  /** The operations that touch the registered statements. */
  predicate ChangesStatements(op: Op) {
    || op.OpFailPrepare? || op.OpAcceptPrepareOk? || op.OpCompletePrepare? || op.OpClose? || op.OpRegisterTypes?
    || op.OpMarkLongData? || op.OpReset? || op.OpCompleteReset?
  }

  lemma OthersKeepStatements(s: State, op: Op)
    requires !ChangesStatements(op)
    ensures After(s, op).registry.(last := s.registry.last) == s.registry
  {
  }

  lemma OperationKeepsLimits(s: State, op: Op)
    requires IsBounded(s.registry)
    ensures IsBounded(After(s, op).registry)
  {
    match op {
      case OpFailPrepare => FailKeepsLimits(s);
      case OpAcceptPrepareOk(id, p, c, deprecateEof) => AcceptKeepsLimits(s, id, p, c, deprecateEof);
      case OpCompletePrepare(id, p, c) => CompleteKeepsLimits(s, id, p, c);
      case OpClose(id) => RemovalKeepsLimits(s.registry, {id});
      case _ => LaterOperationKeepsLimits(s, op);
    }
  }

  /** The operations that neither add a statement nor take one away. */
  lemma LaterOperationKeepsLimits(s: State, op: Op)
    requires IsBounded(s.registry)
    requires !op.OpFailPrepare? && !op.OpAcceptPrepareOk? && !op.OpCompletePrepare? && !op.OpClose?
    ensures IsBounded(After(s, op).registry)
  {
    match op {
      case OpRegisterTypes(id, types) => TypesKeepLimits(s, id, types);
      case OpMarkLongData(id, parameterId) => LongDataKeepsLimits(s, id, parameterId);
      case OpReset(id) => ResetKeepsLimits(s, id);
      case OpCompleteReset(payload) => CompleteResetKeepsLimits(s, payload);
      case _ => OthersKeepStatements(s, op);
    }
  }

  lemma FailKeepsLimits(s: State)
    requires IsBounded(s.registry)
    ensures IsBounded(FailStatementPrepare(s).registry)
  {
    RemovalKeepsLimits(s.registry, if s.prepare.id.Some? then {s.prepare.id.value} else {});
  }

  lemma AcceptKeepsLimits(s: State, id: nat, p: nat, c: nat, deprecateEof: bool)
    requires IsBounded(s.registry)
    ensures IsBounded(AcceptStatementPrepareOk(s, id, p, c, deprecateEof).next.registry)
  {
    if s.prepare.sql.Some? {
      RegistrationFits(s.registry, id, Prepared(id, s.prepare.sql.value, p, c, None, {}));
    }
  }

  lemma CompleteKeepsLimits(s: State, id: nat, p: nat, c: nat)
    requires IsBounded(s.registry)
    ensures IsBounded(CompleteStatementPrepare(s, id, p, c).next.registry)
  {
    if s.prepare.sql.Some? {
      RegistrationFits(s.registry, id, Prepared(id, s.prepare.sql.value, p, c, None, {}));
    }
  }

  lemma CompleteResetKeepsLimits(s: State, payload: Bytes)
    requires IsBounded(s.registry)
    ensures IsBounded(CompleteStatementReset(s, payload).next.registry)
  {
    if s.pendingReset.Some? {
      ResetKeepsLimits(s.(pendingReset := None), s.pendingReset.value);
    }
  }

  lemma TypesKeepLimits(s: State, id: nat, types: seq<ParamType>)
    requires IsBounded(s.registry)
    ensures IsBounded(RegisterParameterTypes(s, id, types).next.registry)
  {
    var r := s.registry;
    if id in r.statements {
      EditKeepsLimits(r, id, r.statements[id].(parameterTypes := Some(types), longData := {}));
    }
  }

  lemma LongDataKeepsLimits(s: State, id: nat, parameterId: nat)
    requires IsBounded(s.registry)
    ensures IsBounded(MarkLongData(s, id, parameterId).next.registry)
  {
    var r := s.registry;
    if id in r.statements {
      EditKeepsLimits(r, id, r.statements[id].(longData := r.statements[id].longData + {parameterId}));
    }
  }

  lemma ResetKeepsLimits(s: State, id: nat)
    requires IsBounded(s.registry)
    ensures IsBounded(ResetPreparedStatement(s, id).next.registry)
  {
    var r := s.registry;
    if id in r.statements {
      EditKeepsLimits(r, id, r.statements[id].(parameterTypes := None, longData := {}));
    }
  }

  /** Countdown and stage of the answers under way. */
  predicate IsTracking(s: State) {
    IsTracked(s.tracker) && s.prepare.metadataPackets == |s.prepare.metadataKinds|
  }

  predicate ChangesPrepare(op: Op) {
    op.OpBeginPrepare? || op.OpFailPrepare? || op.OpAcceptPrepareOk? || op.OpConsumeMetadata? || op.OpFinishPrepare?
      || op.OpCompletePrepare?
  }

  lemma PrepareOperationKeepsTracking(s: State, op: Op)
    requires IsTracking(s) && ChangesPrepare(op)
    ensures IsTracking(After(s, op))
  {
  }

  lemma OtherOperationKeepsPrepare(s: State, op: Op)
    requires !ChangesPrepare(op)
    ensures After(s, op).prepare == s.prepare
  {
  }

  lemma OtherOperationKeepsTracker(s: State, op: Op)
    requires IsTracked(s.tracker) && !ChangesPrepare(op)
    ensures IsTracked(After(s, op).tracker)
  {
    if op.OpAcceptResponse? {
      TrackKeeps(s.tracker, op.payload, op.caps);
    }
  }

  lemma OperationKeepsTracking(s: State, op: Op)
    requires IsTracking(s)
    ensures IsTracking(After(s, op))
  {
    if ChangesPrepare(op) {
      PrepareOperationKeepsTracking(s, op);
    } else {
      OtherOperationKeepsPrepare(s, op);
      OtherOperationKeepsTracker(s, op);
    }
  }

  lemma PutKeepsStatements(s: State, id: nat, statement: Prepared)
    requires AreWellFormed(s.registry.statements) && IsWellFormed(id, statement)
    ensures AreWellFormed(Put(s, id, statement).registry.statements)
  {
  }

  lemma ResetKeepsStatements(s: State, id: nat)
    requires AreWellFormed(s.registry.statements)
    ensures AreWellFormed(ResetPreparedStatement(s, id).next.registry.statements)
  {
    if id in s.registry.statements {
      assert IsWellFormed(id, s.registry.statements[id]);
    }
  }

  lemma EditKeepsStatements(s: State, op: Op)
    requires AreWellFormed(s.registry.statements) && (op.OpRegisterTypes? || op.OpMarkLongData?)
    ensures AreWellFormed(After(s, op).registry.statements)
  {
    if op.id in s.registry.statements {
      assert IsWellFormed(op.id, s.registry.statements[op.id]);
    }
  }

  lemma RegistrationKeepsStatements(s: State, op: Op)
    requires AreWellFormed(s.registry.statements) && (op.OpAcceptPrepareOk? || op.OpCompletePrepare?)
    ensures AreWellFormed(After(s, op).registry.statements)
  {
    if s.prepare.sql.Some? {
      PutKeepsStatements(s, op.id, Prepared(op.id, s.prepare.sql.value, op.parameterCount, op.columnCount, None, {}));
    }
  }

  lemma OperationKeepsStatements(s: State, op: Op)
    requires AreWellFormed(s.registry.statements)
    ensures AreWellFormed(After(s, op).registry.statements)
  {
    match op {
      case OpAcceptPrepareOk(_, _, _, _) => RegistrationKeepsStatements(s, op);
      case OpCompletePrepare(_, _, _) => RegistrationKeepsStatements(s, op);
      case OpRegisterTypes(_, _) => EditKeepsStatements(s, op);
      case OpMarkLongData(_, _) => EditKeepsStatements(s, op);
      case OpReset(id) => ResetKeepsStatements(s, id);
      case OpCompleteReset(payload) =>
        if s.pendingReset.Some? {
          ResetKeepsStatements(s.(pendingReset := None), s.pendingReset.value);
        }
      case OpFailPrepare => FailKeepsStatements(s);
      case OpClose(_) => RemovalKeepsStatements(s, op.id);
      case _ => OthersKeepStatements(s, op);
    }
  }

  lemma FailKeepsStatements(s: State)
    requires AreWellFormed(s.registry.statements)
    ensures AreWellFormed(FailStatementPrepare(s).registry.statements)
  {
  }

  lemma RemovalKeepsStatements(s: State, id: nat)
    requires AreWellFormed(s.registry.statements)
    ensures AreWellFormed(ClosePreparedStatement(s, id).registry.statements)
  {
  }

  lemma OperationKeeps(s: State, op: Op)
    requires IsKept(s)
    ensures IsKept(After(s, op))
  {
    OperationKeepsLimits(s, op);
    OperationKeepsTracking(s, op);
    OperationKeepsStatements(s, op);
  }

  /** After any operations whatever, accepted or rejected. */
  lemma {:induction false} OperationsKeep(s: State, ops: seq<Op>)
    requires IsKept(s)
    ensures IsKept(AfterAll(s, ops))
    decreases |ops|
  {
    if ops != [] {
      OperationKeeps(s, ops[0]);
      OperationsKeep(After(s, ops[0]), ops[1..]);
    }
  }
}
