/**
 Whole runs: a client, the proxy's session, and a server that takes the forwarded
 commands in order and answers each with a well-formed response of its choice.
 */
module ProxyRuns {
  import opened Wire
  import opened Responses
  import opened Tracker
  import opened Session
  import opened Routing
  import opened Dispatch
  import opened Assembler
  import opened ExecuteParams
  import Scanner

  // ---------------------------------------------------------------------------
  // The server
  // ---------------------------------------------------------------------------

  datatype Answer = OkAnswer(fields: OkFields) | ErrAnswer(rest: Bytes)

  /** The packets the server still owes for the command it has taken. */
  datatype Owed =
    | NoDebt
    | Acknowledgment(tag: Tag, answer: Answer)
    | PrepareError(rest: Bytes)
    | PrepareSuccess(ok: PrepareOk, rest: Bytes, metadata: seq<Bytes>)
    | PrepareMetadata(id: nat, kinds: seq<Kind>, packets: seq<Bytes>)
    | Response(remaining: Remaining)

  /** A forwarded command, with what the policy that let it through was shown. */
  datatype Parcel = Parcel(message: LogicalMessage, inspected: Inspected, policy: Policy)

  /** What the server keeps of a statement's parameters: how many, and the types last sent for them. */
  datatype Binding = Binding(count: nat, types: Option<seq<ParamType>>)

  /** The live statements with the SQL they were prepared from and their parameters, and the one prepared last. */
  datatype Server = Server(
    live: map<nat, string>, bindings: map<nat, Binding>, last: Option<nat>, inbox: seq<Parcel>, owed: Owed)

  /** How the server answers the command it takes. */
  datatype Choice =
    | Acknowledge(answer: Answer)
    | RejectPrepare(rest: Bytes)
    | AcceptPrepare(ok: PrepareOk, rest: Bytes, metadata: seq<Bytes>)
    | Respond(replies: seq<Reply>)

  /**
   caps: the negotiated capabilities. closesLast: whether COM_STMT_CLOSE of 0xFFFFFFFF
   closes the statement prepared last, as COM_STMT_EXECUTE runs it.
   */
  datatype World = World(caps: nat, closesLast: bool)

  const CLIENT_COMPRESS: nat := 0x20
  const CLIENT_OPTIONAL_RESULTSET_METADATA: nat := 0x200_0000
  const CLIENT_ZSTD_COMPRESSION_ALGORITHM: nat := 0x400_0000
  const CLIENT_QUERY_ATTRIBUTES: nat := 0x800_0000
  const MARIADB_CLIENT_PROGRESS: nat := 0x1_0000_0000

  /** The protocol this server speaks: 4.1, its packets not compressed, its commands and answers in their plain form. */
  predicate IsPlainProtocol(caps: nat) {
    && Has(caps, CLIENT_PROTOCOL_41)
    && !Has(caps, CLIENT_COMPRESS) && !Has(caps, CLIENT_ZSTD_COMPRESSION_ALGORITHM)
    && !Has(caps, CLIENT_QUERY_ATTRIBUTES) && !Has(caps, CLIENT_OPTIONAL_RESULTSET_METADATA)
    && !Has(caps, MARIADB_CLIENT_PROGRESS)
  }

  datatype System = System(session: State, waiting: Option<LogicalMessage>, server: Server, ended: Option<Error>)

  datatype Event =
    | ClientSends(message: LogicalMessage, policy: Policy)
    | WaitEnds(policy: Policy)
    | ServerTakes(choice: Choice)
    | ServerSends

  ghost function CodeOf(m: LogicalMessage): byte {
    if m.payload == [] then 0 else m.payload[0]
  }

  ghost function BodyOf(m: LogicalMessage): Bytes {
    if m.payload == [] then [] else m.payload[1..]
  }

  /** What kind of answer a command is owed. */
  ghost function OwedTag(m: LogicalMessage): Tag {
    var code := CodeOf(m);
    if code == COM_QUERY || code == COM_STMT_EXECUTE then CommandTag
    else if code == COM_INIT_DB then DatabaseTag
    else if code == COM_PING then PingTag
    else if code == COM_STMT_RESET then ResetTag
    else if code == COM_STMT_PREPARE then PrepareTag
    else NoTag
  }

  ghost predicate IsEofPacket(b: Bytes) {
    exists status, warnings :: status < 0x1_0000 && warnings < 0x1_0000 && b == EofPacket(status, warnings)
  }

  ghost predicate IsMetadataPacket(kind: Kind, b: Bytes) {
    if kind.EofKind? then IsEofPacket(b) else IsDefinition(b)
  }

  ghost predicate IsMetadata(kinds: seq<Kind>, packets: seq<Bytes>) {
    |packets| == |kinds| && forall i :: 0 <= i < |kinds| ==> IsMetadataPacket(kinds[i], packets[i])
  }

  ghost predicate IsPrepareOk(ok: PrepareOk) {
    && ok.statementId < MARIADB_STMT_ID_LAST
    && ok.columnCount < 0x1_0000 && ok.parameterCount < 0x1_0000 && ok.warningCount < 0x1_0000
  }

  /** The choices a well-formed server has for a command. */
  ghost predicate MayChoose(world: World, server: Server, m: LogicalMessage, choice: Choice) {
    match OwedTag(m)
    case NoTag => true
    case CommandTag => choice.Respond? && IsResponse(choice.replies, world.caps)
    case PrepareTag =>
      || choice.RejectPrepare?
      || (choice.AcceptPrepare? && IsPrepareOk(choice.ok) && choice.ok.statementId !in server.live
          && IsMetadata(MetadataKinds(choice.ok.parameterCount, choice.ok.columnCount, DeprecateEof(world.caps)),
                        choice.metadata))
    case _ => choice.Acknowledge? && (choice.answer.OkAnswer? ==> IsOkFields(choice.answer.fields))
  }

  /** 0xFFFFFFFF stands for the statement prepared last. */
  ghost function Resolve(last: Option<nat>, id: nat): Option<nat> {
    if id == MARIADB_STMT_ID_LAST then last else Some(id)
  }

  ghost function CloseAtServer(world: World, server: Server, id: nat): Server {
    var target := if world.closesLast then Resolve(server.last, id) else Some(id);
    if target.None? then server
    else server.(live := server.live - {target.value}, bindings := server.bindings - {target.value},
                 last := if server.last == target then None else server.last)
  }

  ghost function PrepareAtServer(server: Server, m: LogicalMessage, choice: Choice): Server {
    match choice
    case AcceptPrepare(ok, rest, metadata) =>
      var sql := TextOf(BodyOf(m));
      server.(live := server.live[ok.statementId := if sql.None? then "" else sql.value],
              bindings := server.bindings[ok.statementId := Binding(ok.parameterCount, None)],
              last := Some(ok.statementId), owed := PrepareSuccess(ok, rest, metadata))
    case RejectPrepare(rest) => server.(last := None, owed := PrepareError(rest))
    case _ => server
  }

  /** The types an execution leaves behind: those it sends, or else those it found. */
  ghost function TypesAfter(e: StmtExecute, b: Binding): Option<seq<ParamType>> {
    if b.count == 0 then Some([])
    else if |e.payload| <= (b.count + 7) / 8 then b.types
    else
      var inForce := TypesInForce(e.payload, b.count, b.types);
      if inForce.None? then b.types else Some(inForce.value.0)
  }

  ghost function ExecuteAtServer(server: Server, m: LogicalMessage): Server {
    var e := ParseStmtExecute(BodyOf(m));
    if CodeOf(m) != COM_STMT_EXECUTE || e.None? then server
    else
      var target := Resolve(server.last, e.value.statementId);
      if target.None? || target.value !in server.bindings then server
      else
        var b := server.bindings[target.value];
        server.(bindings := server.bindings[target.value := b.(types := TypesAfter(e.value, b))])
  }

  /** The server takes the first command in its inbox. */
  ghost function TakeFirst(world: World, server: Server, choice: Choice): Server
    requires server.inbox != []
  {
    var m := server.inbox[0].message;
    var rest := server.(inbox := server.inbox[1..]);
    match OwedTag(m)
    case NoTag =>
      if CodeOf(m) == COM_STMT_CLOSE && |BodyOf(m)| >= 4 then CloseAtServer(world, rest, FromLE(BodyOf(m)[..4]))
      else rest
    case CommandTag =>
      if choice.Respond? then ExecuteAtServer(rest, m).(owed := Response(Replies(choice.replies))) else rest
    case PrepareTag => PrepareAtServer(rest, m, choice)
    case tag => if choice.Acknowledge? then rest.(owed := Acknowledgment(tag, choice.answer)) else rest
  }

  ghost predicate IsOwed(world: World, owed: Owed) {
    match owed
    case NoDebt => true
    case Acknowledgment(tag, answer) =>
      (tag.PingTag? || tag.ResetTag? || tag.DatabaseTag?) && (answer.OkAnswer? ==> IsOkFields(answer.fields))
    case PrepareError(_) => true
    case PrepareSuccess(ok, _, metadata) =>
      IsPrepareOk(ok)
        && IsMetadata(MetadataKinds(ok.parameterCount, ok.columnCount, DeprecateEof(world.caps)), metadata)
    case PrepareMetadata(_, kinds, packets) => kinds != [] && IsMetadata(kinds, packets)
    case Response(remaining) => IsRemaining(remaining, world.caps) && !remaining.Over?
  }

  ghost function PacketToSend(world: World, owed: Owed): Bytes
    requires IsOwed(world, owed) && owed != NoDebt
  {
    match owed
    case Acknowledgment(_, answer) =>
      (match answer case OkAnswer(fields) => OkPacket(OK_MARKER, fields) case ErrAnswer(rest) => ErrPacket(rest))
    case PrepareError(rest) => ErrPacket(rest)
    case PrepareSuccess(ok, rest, _) => PrepareOkPacket(ok, rest)
    case PrepareMetadata(_, _, packets) => packets[0]
    case Response(remaining) => NextPacket(remaining, world.caps)
  }

  ghost function OwedMetadata(id: nat, kinds: seq<Kind>, packets: seq<Bytes>): Owed {
    if kinds == [] then NoDebt else PrepareMetadata(id, kinds, packets)
  }

  ghost function OwedAfterSend(world: World, owed: Owed): Owed
    requires IsOwed(world, owed) && owed != NoDebt
  {
    match owed
    case PrepareSuccess(ok, _, metadata) =>
      OwedMetadata(ok.statementId, MetadataKinds(ok.parameterCount, ok.columnCount, DeprecateEof(world.caps)), metadata)
    case PrepareMetadata(id, kinds, packets) => OwedMetadata(id, kinds[1..], packets[1..])
    case Response(remaining) =>
      var next := Advance(remaining, world.caps);
      if next.Over? then NoDebt else Response(next)
    case _ => NoDebt
  }

  // ---------------------------------------------------------------------------
  // Steps and runs
  // ---------------------------------------------------------------------------

  /** The effect of a dispatched command on the system. */
  ghost function Apply(sys: System, m: LogicalMessage, policy: Policy, effect: Effect): System {
    match effect
    case Wait => sys.(waiting := Some(m))
    case Crash(next, _, error) => sys.(session := next, waiting := None, ended := Some(error))
    case Effect(next, toBackend, _, inspected) =>
      var inbox := if toBackend == [] then sys.server.inbox else sys.server.inbox + [Parcel(m, inspected, policy)];
      sys.(session := next, waiting := None, server := sys.server.(inbox := inbox))
  }

  ghost function SendStep(world: World, sys: System): System
    requires IsOwed(world, sys.server.owed) && sys.server.owed != NoDebt
  {
    match Route(sys.session, PacketToSend(world, sys.server.owed), world.caps)
    case RouteError(next, error) => sys.(session := next, ended := Some(error))
    case Routed(next) => sys.(session := next, server := sys.server.(owed := OwedAfterSend(world, sys.server.owed)))
  }

  /** Which events can happen; a policy may be anything but permissive. */
  ghost predicate IsEnabled(world: World, sys: System, e: Event) {
    && sys.ended.None?
    && match e
       case ClientSends(_, policy) => sys.waiting.None? && !policy.mode.Permissive?
       case WaitEnds(policy) =>
         sys.waiting.Some? && sys.session.prepare.event == Some(true) && sys.waiting.value.payload != []
           && !policy.mode.Permissive?
       case ServerTakes(choice) =>
         && sys.server.owed == NoDebt && sys.server.inbox != []
         && MayChoose(world, sys.server, sys.server.inbox[0].message, choice)
       case ServerSends => sys.server.owed != NoDebt && IsOwed(world, sys.server.owed)
  }

  ghost function Next(world: World, sys: System, e: Event): System
    requires IsEnabled(world, sys, e)
  {
    match e
    case ClientSends(m, policy) => Apply(sys, m, policy, Dispatch.Dispatch(sys.session, m, policy))
    case WaitEnds(policy) =>
      Apply(sys, sys.waiting.value, policy, ResumeExecute(sys.session, sys.waiting.value, policy))
    case ServerTakes(choice) => sys.(server := TakeFirst(world, sys.server, choice))
    case ServerSends => SendStep(world, sys)
  }

  /** The system after a sequence of events, each possible when it happens. */
  ghost function Run(world: World, sys: System, events: seq<Event>): Option<System>
    decreases |events|
  {
    if events == [] then Some(sys)
    else if !IsEnabled(world, sys, events[0]) then None
    else Run(world, Next(world, sys, events[0]), events[1..])
  }

  /** A session as it is after login: fresh but for the transaction status. */
  predicate IsNew(s: State) {
    s == Fresh(s.database, s.registry.maxStatements, s.registry.maxBytes).(transaction := s.transaction)
  }

  ghost function Start(session: State): System {
    System(session, None, Server(map[], map[], None, [], NoDebt), None)
  }

  // ---------------------------------------------------------------------------
  // The invariant
  // ---------------------------------------------------------------------------

  ghost function TagOfDebt(owed: Owed): Tag {
    match owed
    case NoDebt => NoTag
    case Acknowledgment(tag, _) => tag
    case Response(_) => CommandTag
    case _ => PrepareTag
  }

  ghost predicate AllQuits(inbox: seq<Parcel>) {
    forall i :: 0 <= i < |inbox| ==> CodeOf(inbox[i].message) == COM_QUIT
  }

  ghost predicate IsClose(m: LogicalMessage) {
    CodeOf(m) == COM_STMT_CLOSE && |BodyOf(m)| >= 4
  }

  ghost function ClosedId(m: LogicalMessage): nat
    requires IsClose(m)
  {
    FromLE(BodyOf(m)[..4])
  }

  /** Closes and quits, then at most one command that is owed an answer, then quits. */
  ghost predicate IsOrderly(inbox: seq<Parcel>) {
    inbox == [] ||
    if OwedTag(inbox[0].message) == NoTag then
      (IsClose(inbox[0].message) || CodeOf(inbox[0].message) == COM_QUIT) && IsOrderly(inbox[1..])
    else AllQuits(inbox[1..])
  }

  /** The one command in the inbox that is owed an answer. */
  ghost function Outstanding(inbox: seq<Parcel>): Option<Parcel> {
    if inbox == [] then None
    else if OwedTag(inbox[0].message) != NoTag then Some(inbox[0])
    else Outstanding(inbox[1..])
  }

  ghost function ExpectedTag(server: Server): Tag {
    if server.owed != NoDebt then TagOfDebt(server.owed)
    else
      var sent := Outstanding(server.inbox);
      if sent.None? then NoTag else OwedTag(sent.value.message)
  }

  /** The session is where the command that is still in the inbox put it. */
  ghost predicate IsBegun(s: State, m: LogicalMessage) {
    var code := CodeOf(m);
    && (code == COM_QUERY ==> s.tracker == Tracker(Some(QueryCommand), Initial, 0))
    && (code == COM_STMT_EXECUTE ==> s.tracker == Tracker(Some(ExecuteCommand), Initial, 0))
    && (code == COM_STMT_PREPARE ==>
          s.prepare.id.None? && TextOf(BodyOf(m)).Some? && s.prepare.sql == Some(Strip(TextOf(BodyOf(m)).value)))
  }

  /** The session is where the packets sent so far have brought it. */
  ghost predicate IsAnswering(world: World, s: State, server: Server) {
    match server.owed
    case PrepareError(_) => s.prepare.id.None?
    case PrepareSuccess(ok, _, _) =>
      && s.prepare.id.None?
      && ok.statementId in server.live && server.last == Some(ok.statementId)
      && s.prepare.sql == Some(Strip(server.live[ok.statementId]))
    case PrepareMetadata(id, kinds, _) =>
      s.prepare.id == Some(id) && s.prepare.metadataKinds == kinds && server.last == Some(id)
        && id in s.registry.statements
    case Response(remaining) =>
      s.tracker.pending.Some? && s.tracker == TrackerFor(remaining, s.tracker.pending.value, world.caps)
    case _ => true
  }

  /** At most one command is outstanding, and the session waits for exactly its answer. */
  ghost predicate IsCorrelated(world: World, s: State, server: Server) {
    && IsOwed(world, server.owed)
    && IsOrderly(server.inbox)
    && (server.owed != NoDebt ==> AllQuits(server.inbox))
    && Only(s, ExpectedTag(server))
    && IsAnswering(world, s, server)
    && (server.owed == NoDebt && Outstanding(server.inbox).Some? ==>
          IsBegun(s, Outstanding(server.inbox).value.message))
  }

  /** A statement being prepared is live before the proxy hears of it. */
  ghost function UnannouncedId(owed: Owed): Option<nat> {
    if owed.PrepareSuccess? then Some(owed.ok.statementId) else None
  }

  ghost predicate SameSql(statements: Statements, live: map<nat, string>, except: Option<nat>) {
    forall id :: id in statements && id in live && Some(id) != except ==> Strip(live[id]) == statements[id].sql
  }

  ghost predicate NoneClosed(statements: Statements, inbox: seq<Parcel>) {
    forall i :: 0 <= i < |inbox| && IsClose(inbox[i].message) ==> ClosedId(inbox[i].message) !in statements
  }

  /** An execution on its way will run, if anything, the template that was inspected. */
  ghost predicate WillRunInspected(live: map<nat, string>, last: Option<nat>, parcel: Parcel) {
    CodeOf(parcel.message) == COM_STMT_EXECUTE ==>
      var e := ParseStmtExecute(BodyOf(parcel.message));
      && e.Some? && parcel.inspected.Execution?
      && var target := Resolve(last, e.value.statementId);
         target.Some? && target.value in live ==> Strip(live[target.value]) == parcel.inspected.template
  }

  ghost predicate AllWillRunInspected(live: map<nat, string>, last: Option<nat>, inbox: seq<Parcel>) {
    forall i :: 0 <= i < |inbox| ==> WillRunInspected(live, last, inbox[i])
  }

  /** The proxy's statements are the server's. */
  ghost predicate IsRefinement(world: World, s: State, server: Server) {
    && SameSql(s.registry.statements, server.live, UnannouncedId(server.owed))
    && (!world.closesLast ==> s.registry.statements.Keys <= server.live.Keys)
    && (!world.closesLast && server.owed.PrepareSuccess? ==> server.owed.ok.statementId !in s.registry.statements)
    && (forall id :: id in s.registry.statements ==> id < MARIADB_STMT_ID_LAST)
    && NoneClosed(s.registry.statements, server.inbox)
    && (s.registry.last.Some? ==> s.registry.last.value in s.registry.statements)
    && (s.registry.last.Some? && TagOfDebt(server.owed) != PrepareTag ==>
          server.last == s.registry.last || (world.closesLast && server.last.None?))
    && AllWillRunInspected(server.live, server.last, server.inbox)
  }

  /** What a pipelined execution waits for is still coming, or has come. */
  ghost predicate IsWaiting(s: State, waiting: Option<LogicalMessage>) {
    waiting.Some? ==>
      && CodeOf(waiting.value) == COM_STMT_EXECUTE
      && ParseStmtExecute(BodyOf(waiting.value)).Some?
      && ParseStmtExecute(BodyOf(waiting.value)).value.statementId == MARIADB_STMT_ID_LAST
      && (Only(s, PrepareTag) || (Only(s, NoTag) && s.prepare.event == Some(true)))
  }

  ghost predicate IsInvariant(world: World, sys: System) {
    && IsKept(sys.session)
    && IsPreparing(sys.session.prepare)
    && (sys.session.pendingReset.Some? ==> sys.session.pendingReset.value in sys.session.registry.statements)
    && IsWaiting(sys.session, sys.waiting)
    && IsCorrelated(world, sys.session, sys.server)
    && IsRefinement(world, sys.session, sys.server)
  }

  lemma StartIsInvariant(world: World, session: State)
    requires IsNew(session)
    ensures IsInvariant(world, Start(session))
  {
    FreshIsKept(session.database, session.registry.maxStatements, session.registry.maxBytes);
  }

  // ---------------------------------------------------------------------------
  // The inbox
  // ---------------------------------------------------------------------------

  lemma {:induction false} AppendKeepsOrder(inbox: seq<Parcel>, x: Parcel)
    requires IsOrderly(inbox)
    requires CodeOf(x.message) == COM_QUIT
      || (Outstanding(inbox).None? && (IsClose(x.message) || OwedTag(x.message) != NoTag))
    ensures IsOrderly(inbox + [x])
    ensures Outstanding(inbox + [x])
         == if Outstanding(inbox).Some? then Outstanding(inbox)
            else if OwedTag(x.message) != NoTag then Some(x)
            else None
  {
    if inbox == [] {
      assert (inbox + [x])[1..] == [];
    } else {
      assert (inbox + [x])[1..] == inbox[1..] + [x];
      if OwedTag(inbox[0].message) == NoTag {
        AppendKeepsOrder(inbox[1..], x);
      }
    }
  }

  lemma {:induction false} QuitsOweNothing(inbox: seq<Parcel>)
    requires AllQuits(inbox)
    ensures Outstanding(inbox).None? && IsOrderly(inbox)
  {
    if inbox != [] {
      assert CodeOf(inbox[0].message) == COM_QUIT;
      QuitsOweNothing(inbox[1..]);
    }
  }

  /** With nothing pending, nothing is outstanding either. */
  lemma NothingPendingNothingOwed(world: World, s: State, server: Server)
    requires IsCorrelated(world, s, server) && !HasPending(s)
    ensures server.owed == NoDebt && Outstanding(server.inbox).None? && ExpectedTag(server) == NoTag
  {
    OutstandingIsOwed(server.inbox);
  }

  lemma {:induction false} OutstandingIsOwed(inbox: seq<Parcel>)
    ensures Outstanding(inbox).Some? ==> OwedTag(Outstanding(inbox).value.message) != NoTag
  {
    if inbox != [] {
      OutstandingIsOwed(inbox[1..]);
    }
  }

  // ---------------------------------------------------------------------------
  // Commands
  // ---------------------------------------------------------------------------

  /** Same statements with the same SQL; their types may have changed. */
  ghost predicate SameStatements(a: Statements, b: Statements) {
    a.Keys == b.Keys && forall id :: id in a ==> a[id].sql == b[id].sql
  }

  /** A session in which a command has just begun. */
  ghost predicate HasBegun(s: State, next: State, m: LogicalMessage) {
    && OwedTag(m) != NoTag
    && Only(next, OwedTag(m)) && IsBegun(next, m) && IsPreparing(next.prepare)
    && (next.pendingReset.Some? ==> next.pendingReset.value in next.registry.statements)
    && SameStatements(s.registry.statements, next.registry.statements)
    && next.registry.last == s.registry.last
  }

  /** A forwarded execution: begun, approved as inspected, its types kept. */
  lemma ExecuteForwards(s: State, m: LogicalMessage, e: StmtExecute, statement: Prepared,
                        policy: Policy) returns (d: Decoded)
    requires !policy.mode.Permissive?
    requires IsForward(ExecuteStatement(s, m, e, statement, policy), m)
    ensures Decode(policy.floatText, e, statement.parameterCount, statement.parameterTypes) == Some(d)
    ensures BeginCommandResponse(s, ExecuteCommand).Done?
    ensures var registered := RegisterParameterTypes(BeginCommandResponse(s, ExecuteCommand).next,
                                                     statement.statementId, d.types);
      registered.Done? && ExecuteStatement(s, m, e, statement, policy).next == registered.next
    ensures ExecuteStatement(s, m, e, statement, policy).inspected == Execution(statement.sql, Literals(d.parameters))
    ensures var sql := Scanner.Fill(statement.sql, Scanner.Sql, Literals(d.parameters));
      sql.Some? && policy.approve(sql.value) && !policy.unparseable(sql.value)
  {
    d := Decode(policy.floatText, e, statement.parameterCount, statement.parameterTypes).value;
  }

  lemma ExecuteKeepsSession(s: State, id: nat, types: seq<ParamType>)
    requires IsKept(s)
    ensures IsKept(RegisterParameterTypes(BeginCommandResponse(s, ExecuteCommand).next, id, types).next)
  {
    OperationKeeps(s, OpBeginCommand(ExecuteCommand));
    OperationKeeps(BeginCommandResponse(s, ExecuteCommand).next, OpRegisterTypes(id, types));
  }

  lemma ExecuteHasBegun(s: State, m: LogicalMessage, e: StmtExecute, statement: Prepared, policy: Policy)
    requires IsKept(s) && IsPreparing(s.prepare) && !HasPending(s)
    requires statement.statementId in s.registry.statements && s.registry.statements[statement.statementId] == statement
    requires !policy.mode.Permissive? && CodeOf(m) == COM_STMT_EXECUTE
    requires IsForward(ExecuteStatement(s, m, e, statement, policy), m)
    ensures var effect := ExecuteStatement(s, m, e, statement, policy);
      && HasBegun(s, effect.next, m) && IsKept(effect.next)
      && effect.inspected.Execution? && effect.inspected.template == statement.sql
  {
    var d := ExecuteForwards(s, m, e, statement, policy);
    ExecuteKeepsSession(s, statement.statementId, d.types);
  }

  /** The statement a dispatched or resumed execution is about. */
  ghost function Executed(s: State, m: LogicalMessage): Found {
    var e := ParseStmtExecute(BodyOf(m));
    if e.None? then NoStatement
    else if e.value.statementId != MARIADB_STMT_ID_LAST then GetPreparedStatement(s, e.value.statementId)
    else GetLastPreparedStatement(s)
  }

  /** With nothing pending, dispatching an execution is executing that statement. */
  lemma DispatchedExecute(s: State, m: LogicalMessage, policy: Policy)
    requires !HasPending(s) && CodeOf(m) == COM_STMT_EXECUTE && !policy.mode.Permissive?
    requires IsForward(Dispatch.Dispatch(s, m, policy), m)
    ensures Executed(s, m).Statement?
    ensures Dispatch.Dispatch(s, m, policy)
         == ExecuteStatement(s, m, ParseStmtExecute(BodyOf(m)).value, Executed(s, m).statement, policy)
  {
  }

  lemma ResumedExecute(s: State, m: LogicalMessage, policy: Policy)
    requires CodeOf(m) == COM_STMT_EXECUTE && !policy.mode.Permissive?
    requires ParseStmtExecute(BodyOf(m)).Some? && ParseStmtExecute(BodyOf(m)).value.statementId == MARIADB_STMT_ID_LAST
    requires IsForward(ResumeExecute(s, m, policy), m)
    ensures Executed(s, m).Statement?
    ensures ResumeExecute(s, m, policy)
         == ExecuteStatement(s, m, ParseStmtExecute(BodyOf(m)).value, Executed(s, m).statement, policy)
  {
  }

  /** Any other forwarded command that is owed an answer. */
  lemma CommandHasBegun(s: State, m: LogicalMessage, policy: Policy)
    requires IsKept(s) && IsPreparing(s.prepare) && !HasPending(s) && !policy.mode.Permissive?
    requires OwedTag(m) != NoTag && CodeOf(m) != COM_STMT_EXECUTE
    requires IsForward(Dispatch.Dispatch(s, m, policy), m)
    ensures HasBegun(s, Dispatch.Dispatch(s, m, policy).next, m)
    ensures IsKept(Dispatch.Dispatch(s, m, policy).next)
  {
    if CodeOf(m) == COM_QUERY {
      QueryHasBegun(s, m, policy);
    } else if CodeOf(m) == COM_STMT_PREPARE {
      PrepareHasBegun(s, m, policy);
    } else {
      AcknowledgedHasBegun(s, m, policy);
    }
  }

  lemma QueryHasBegun(s: State, m: LogicalMessage, policy: Policy)
    requires IsKept(s) && IsPreparing(s.prepare) && !HasPending(s) && !policy.mode.Permissive?
    requires CodeOf(m) == COM_QUERY && IsForward(DispatchQuery(s, m, BodyOf(m), policy), m)
    ensures var next := DispatchQuery(s, m, BodyOf(m), policy).next; HasBegun(s, next, m) && IsKept(next)
  {
    OperationKeeps(s, OpBeginCommand(QueryCommand));
  }

  lemma PrepareHasBegun(s: State, m: LogicalMessage, policy: Policy)
    requires IsKept(s) && IsPreparing(s.prepare) && !HasPending(s) && !policy.mode.Permissive?
    requires CodeOf(m) == COM_STMT_PREPARE && IsForward(DispatchPrepare(s, m, BodyOf(m), policy), m)
    ensures var next := DispatchPrepare(s, m, BodyOf(m), policy).next; HasBegun(s, next, m) && IsKept(next)
  {
    OperationKeeps(s, OpBeginPrepare(TextOf(BodyOf(m)).value));
  }

  /** Pings, statement resets and changes of database. */
  lemma AcknowledgedHasBegun(s: State, m: LogicalMessage, policy: Policy)
    requires IsKept(s) && IsPreparing(s.prepare) && !HasPending(s) && !policy.mode.Permissive?
    requires CodeOf(m) == COM_INIT_DB || CodeOf(m) == COM_PING || CodeOf(m) == COM_STMT_RESET
    requires IsForward(Dispatch.Dispatch(s, m, policy), m)
    ensures HasBegun(s, Dispatch.Dispatch(s, m, policy).next, m)
    ensures IsKept(Dispatch.Dispatch(s, m, policy).next)
  {
    if CodeOf(m) == COM_INIT_DB {
      InitDbHasBegun(s, m, policy);
    } else if CodeOf(m) == COM_PING {
      PingHasBegun(s, m, policy);
    } else {
      ResetHasBegun(s, m, policy);
    }
  }

  lemma InitDbHasBegun(s: State, m: LogicalMessage, policy: Policy)
    requires IsKept(s) && IsPreparing(s.prepare) && !HasPending(s) && !policy.mode.Permissive?
    requires CodeOf(m) == COM_INIT_DB && IsForward(DispatchInitDb(s, m, BodyOf(m), policy), m)
    ensures var next := DispatchInitDb(s, m, BodyOf(m), policy).next; HasBegun(s, next, m) && IsKept(next)
  {
  }

  lemma PingHasBegun(s: State, m: LogicalMessage, policy: Policy)
    requires IsKept(s) && IsPreparing(s.prepare) && !HasPending(s) && !policy.mode.Permissive?
    requires CodeOf(m) == COM_PING && IsForward(DispatchPing(s, m, BodyOf(m), policy), m)
    ensures var next := DispatchPing(s, m, BodyOf(m), policy).next; HasBegun(s, next, m) && IsKept(next)
  {
  }

  lemma ResetHasBegun(s: State, m: LogicalMessage, policy: Policy)
    requires IsKept(s) && IsPreparing(s.prepare) && !HasPending(s) && !policy.mode.Permissive?
    requires CodeOf(m) == COM_STMT_RESET && IsForward(DispatchReset(s, m, BodyOf(m), policy), m)
    ensures var next := DispatchReset(s, m, BodyOf(m), policy).next; HasBegun(s, next, m) && IsKept(next)
  {
  }

  // ---------------------------------------------------------------------------
  // Commands join the inbox
  // ---------------------------------------------------------------------------

  ghost function Joined(sys: System, next: State, parcel: Parcel): System {
    sys.(session := next, waiting := None, server := sys.server.(inbox := sys.server.inbox + [parcel]))
  }

  /** A longer inbox is as good as its parts. */
  lemma JoinedInbox(statements: Statements, live: map<nat, string>, last: Option<nat>, inbox: seq<Parcel>,
                    parcel: Parcel)
    ensures AllWillRunInspected(live, last, inbox + [parcel])
         <==> AllWillRunInspected(live, last, inbox) && WillRunInspected(live, last, parcel)
    ensures NoneClosed(statements, inbox + [parcel])
       <==> NoneClosed(statements, inbox) && (IsClose(parcel.message) ==> ClosedId(parcel.message) !in statements)
    ensures AllQuits(inbox + [parcel]) <==> AllQuits(inbox) && CodeOf(parcel.message) == COM_QUIT
  {
    var joined := inbox + [parcel];
    assert joined[|inbox|] == parcel;
    assert forall i :: 0 <= i < |inbox| ==> joined[i] == inbox[i];
  }

  lemma CommandJoinsCorrelation(world: World, sys: System, parcel: Parcel, next: State)
    requires IsCorrelated(world, sys.session, sys.server) && !HasPending(sys.session)
    requires HasBegun(sys.session, next, parcel.message)
    ensures IsCorrelated(world, next, Joined(sys, next, parcel).server)
  {
    NothingPendingNothingOwed(world, sys.session, sys.server);
    AppendKeepsOrder(sys.server.inbox, parcel);
  }

  lemma CommandJoinsRefinement(world: World, sys: System, parcel: Parcel, next: State)
    requires IsRefinement(world, sys.session, sys.server) && sys.server.owed == NoDebt
    requires HasBegun(sys.session, next, parcel.message)
    requires WillRunInspected(sys.server.live, sys.server.last, parcel)
    ensures IsRefinement(world, next, Joined(sys, next, parcel).server)
  {
    JoinedInbox(next.registry.statements, sys.server.live, sys.server.last, sys.server.inbox, parcel);
  }

  /** A command that is owed an answer joins the inbox. */
  lemma CommandJoins(world: World, sys: System, parcel: Parcel, next: State)
    requires IsInvariant(world, sys) && !HasPending(sys.session)
    requires HasBegun(sys.session, next, parcel.message) && IsKept(next)
    requires WillRunInspected(sys.server.live, sys.server.last, parcel)
    ensures IsInvariant(world, Joined(sys, next, parcel))
  {
    NothingPendingNothingOwed(world, sys.session, sys.server);
    CommandJoinsCorrelation(world, sys, parcel, next);
    CommandJoinsRefinement(world, sys, parcel, next);
  }

  /** A quit joins the inbox at any time. */
  lemma QuitJoins(world: World, sys: System, parcel: Parcel)
    requires IsInvariant(world, sys) && CodeOf(parcel.message) == COM_QUIT
    ensures IsInvariant(world, Joined(sys, sys.session.(closing := true), parcel))
  {
    QuitJoinsCorrelation(world, sys, parcel);
    JoinedInbox(sys.session.registry.statements, sys.server.live, sys.server.last, sys.server.inbox, parcel);
  }

  lemma QuitJoinsCorrelation(world: World, sys: System, parcel: Parcel)
    requires IsCorrelated(world, sys.session, sys.server) && CodeOf(parcel.message) == COM_QUIT
    ensures var next := sys.session.(closing := true); IsCorrelated(world, next, Joined(sys, next, parcel).server)
  {
    AppendedQuit(sys.server.inbox, parcel);
  }

  lemma AppendedQuit(inbox: seq<Parcel>, parcel: Parcel)
    requires IsOrderly(inbox) && CodeOf(parcel.message) == COM_QUIT
    ensures IsOrderly(inbox + [parcel]) && Outstanding(inbox + [parcel]) == Outstanding(inbox)
    ensures AllQuits(inbox) ==> AllQuits(inbox + [parcel])
  {
    AppendKeepsOrder(inbox, parcel);
  }

  lemma CloseJoinsCorrelation(world: World, sys: System, parcel: Parcel)
    requires IsCorrelated(world, sys.session, sys.server) && !HasPending(sys.session) && IsClose(parcel.message)
    ensures var next := ClosePreparedStatement(sys.session, ClosedId(parcel.message));
      IsCorrelated(world, next, Joined(sys, next, parcel).server)
  {
    NothingPendingNothingOwed(world, sys.session, sys.server);
    AppendKeepsOrder(sys.server.inbox, parcel);
  }

  lemma CloseJoinsRefinement(world: World, sys: System, parcel: Parcel)
    requires IsRefinement(world, sys.session, sys.server) && sys.server.owed == NoDebt && IsClose(parcel.message)
    ensures var next := ClosePreparedStatement(sys.session, ClosedId(parcel.message));
      IsRefinement(world, next, Joined(sys, next, parcel).server)
  {
    var next := ClosePreparedStatement(sys.session, ClosedId(parcel.message));
    JoinedInbox(next.registry.statements, sys.server.live, sys.server.last, sys.server.inbox, parcel);
  }

  lemma CloseKeepsSession(s: State, id: nat)
    requires IsKept(s)
    ensures IsKept(ClosePreparedStatement(s, id))
  {
    OperationKeeps(s, OpClose(id));
  }

  /** A close leaves the registry at once and joins the inbox. */
  lemma CloseJoins(world: World, sys: System, parcel: Parcel)
    requires IsInvariant(world, sys) && !HasPending(sys.session) && IsClose(parcel.message)
    ensures IsInvariant(world, Joined(sys, ClosePreparedStatement(sys.session, ClosedId(parcel.message)), parcel))
  {
    NothingPendingNothingOwed(world, sys.session, sys.server);
    CloseKeepsSession(sys.session, ClosedId(parcel.message));
    CloseJoinsCorrelation(world, sys, parcel);
    CloseJoinsRefinement(world, sys, parcel);
  }

  /** The template of a forwarded execution is the server's, if the server still has the statement. */
  lemma ExecutedIsTheServers(world: World, sys: System, m: LogicalMessage, inspected: Inspected, policy: Policy)
    requires IsRefinement(world, sys.session, sys.server) && sys.server.owed == NoDebt
    requires ParseStmtExecute(BodyOf(m)).Some? && Executed(sys.session, m).Statement?
    requires inspected.Execution? && inspected.template == Executed(sys.session, m).statement.sql
    ensures WillRunInspected(sys.server.live, sys.server.last, Parcel(m, inspected, policy))
  {
  }

  lemma ExecuteJoins(world: World, sys: System, m: LogicalMessage, policy: Policy)
    requires IsInvariant(world, sys) && !HasPending(sys.session) && !policy.mode.Permissive?
    requires CodeOf(m) == COM_STMT_EXECUTE && ParseStmtExecute(BodyOf(m)).Some? && Executed(sys.session, m).Statement?
    requires IsForward(ExecuteStatement(sys.session, m, ParseStmtExecute(BodyOf(m)).value,
                                        Executed(sys.session, m).statement, policy), m)
    ensures var effect := ExecuteStatement(sys.session, m, ParseStmtExecute(BodyOf(m)).value,
                                           Executed(sys.session, m).statement, policy);
      IsInvariant(world, Joined(sys, effect.next, Parcel(m, effect.inspected, policy)))
  {
    var statement := Executed(sys.session, m).statement;
    var effect := ExecuteStatement(sys.session, m, ParseStmtExecute(BodyOf(m)).value, statement, policy);
    ExecuteHasBegun(sys.session, m, ParseStmtExecute(BodyOf(m)).value, statement, policy);
    NothingPendingNothingOwed(world, sys.session, sys.server);
    ExecutedIsTheServers(world, sys, m, effect.inspected, policy);
    CommandJoins(world, sys, Parcel(m, effect.inspected, policy), effect.next);
  }

  lemma OtherCommandJoins(world: World, sys: System, m: LogicalMessage, policy: Policy)
    requires IsInvariant(world, sys) && !HasPending(sys.session) && !policy.mode.Permissive?
    requires CodeOf(m) != COM_STMT_EXECUTE && OwedTag(m) != NoTag
    requires IsForward(Dispatch.Dispatch(sys.session, m, policy), m)
    ensures var effect := Dispatch.Dispatch(sys.session, m, policy);
      IsInvariant(world, Joined(sys, effect.next, Parcel(m, effect.inspected, policy)))
  {
    var effect := Dispatch.Dispatch(sys.session, m, policy);
    CommandHasBegun(sys.session, m, policy);
    CommandJoins(world, sys, Parcel(m, effect.inspected, policy), effect.next);
  }

  /** What can be forwarded, outside the permissive mode. */
  lemma ForwardedIsKnown(s: State, m: LogicalMessage, policy: Policy)
    requires !policy.mode.Permissive? && IsForward(Dispatch.Dispatch(s, m, policy), m)
    requires s.prepare.sql.Some? ==> s.prepare.event == Some(false)
    ensures
      if CodeOf(m) == COM_QUIT then Dispatch.Dispatch(s, m, policy).next == s.(closing := true)
      else
        && !HasPending(s)
        && if IsClose(m) then Dispatch.Dispatch(s, m, policy).next == ClosePreparedStatement(s, ClosedId(m))
           else OwedTag(m) != NoTag
  {
  }

  lemma ForwardKeeps(world: World, sys: System, m: LogicalMessage, policy: Policy)
    requires IsInvariant(world, sys) && !policy.mode.Permissive?
    requires IsForward(Dispatch.Dispatch(sys.session, m, policy), m)
    ensures var effect := Dispatch.Dispatch(sys.session, m, policy);
      IsInvariant(world, Joined(sys, effect.next, Parcel(m, effect.inspected, policy)))
  {
    var parcel := Parcel(m, Dispatch.Dispatch(sys.session, m, policy).inspected, policy);
    ForwardedIsKnown(sys.session, m, policy);
    if CodeOf(m) == COM_QUIT {
      QuitJoins(world, sys, parcel);
    } else if IsClose(m) {
      CloseJoins(world, sys, parcel);
    } else if CodeOf(m) == COM_STMT_EXECUTE {
      DispatchedExecute(sys.session, m, policy);
      ExecuteJoins(world, sys, m, policy);
    } else {
      OtherCommandJoins(world, sys, m, policy);
    }
  }

  lemma WaitIsPipelined(s: State, m: LogicalMessage, policy: Policy)
    requires Dispatch.Dispatch(s, m, policy) == Wait
    ensures s.prepare.sql.Some? && CodeOf(m) == COM_STMT_EXECUTE
    ensures ParseStmtExecute(BodyOf(m)).Some? && ParseStmtExecute(BodyOf(m)).value.statementId == MARIADB_STMT_ID_LAST
  {
    OnlyExecutesWait(s, m, policy);
    ExecuteWaits(s, m, BodyOf(m), policy);
  }

  lemma OnlyExecutesWait(s: State, m: LogicalMessage, policy: Policy)
    requires Dispatch.Dispatch(s, m, policy) == Wait
    ensures CodeOf(m) == COM_STMT_EXECUTE && DispatchExecute(s, m, BodyOf(m), policy) == Wait
  {
    NoOtherWaits(s, m, BodyOf(m), policy);
  }

  lemma NoOtherWaits(s: State, m: LogicalMessage, body: Bytes, policy: Policy)
    ensures !DispatchQuery(s, m, body, policy).Wait? && !DispatchInitDb(s, m, body, policy).Wait?
    ensures !DispatchPing(s, m, body, policy).Wait? && !DispatchPrepare(s, m, body, policy).Wait?
    ensures !DispatchClose(s, m, body, policy).Wait? && !DispatchLongData(s, m, body, policy).Wait?
    ensures !DispatchReset(s, m, body, policy).Wait? && !Gap(s, m, policy).Wait?
  {
  }

  lemma ExecuteWaits(s: State, m: LogicalMessage, body: Bytes, policy: Policy)
    requires DispatchExecute(s, m, body, policy) == Wait
    ensures s.prepare.sql.Some? && ParseStmtExecute(body).Some?
    ensures ParseStmtExecute(body).value.statementId == MARIADB_STMT_ID_LAST
  {
  }

  lemma ClientKeeps(world: World, sys: System, m: LogicalMessage, policy: Policy)
    requires IsInvariant(world, sys) && IsEnabled(world, sys, ClientSends(m, policy))
    ensures var next := Next(world, sys, ClientSends(m, policy)); IsInvariant(world, next) && next.ended.None?
  {
    var effect := Dispatch.Dispatch(sys.session, m, policy);
    DispatchIsAllOrNothing(sys.session, m, policy);
    if IsForward(effect, m) {
      ForwardKeeps(world, sys, m, policy);
    } else if effect.Wait? {
      WaitIsPipelined(sys.session, m, policy);
    }
  }

  lemma WaitEndKeeps(world: World, sys: System, policy: Policy)
    requires IsInvariant(world, sys) && IsEnabled(world, sys, WaitEnds(policy))
    ensures var next := Next(world, sys, WaitEnds(policy)); IsInvariant(world, next) && next.ended.None?
  {
    var m := sys.waiting.value;
    ResumeIsAllOrNothing(sys.session, m, policy);
    if IsForward(ResumeExecute(sys.session, m, policy), m) {
      ResumedExecute(sys.session, m, policy);
      ExecuteJoins(world, sys, m, policy);
    }
  }

  // ---------------------------------------------------------------------------
  // The server takes a command
  // ---------------------------------------------------------------------------

  lemma {:induction false} FirstIsTaken(inbox: seq<Parcel>)
    requires inbox != [] && IsOrderly(inbox)
    ensures IsOrderly(inbox[1..])
    ensures OwedTag(inbox[0].message) != NoTag ==> AllQuits(inbox[1..]) && Outstanding(inbox) == Some(inbox[0])
    ensures OwedTag(inbox[0].message) == NoTag ==>
      Outstanding(inbox[1..]) == Outstanding(inbox)
        && (IsClose(inbox[0].message) || CodeOf(inbox[0].message) == COM_QUIT)
  {
    if OwedTag(inbox[0].message) != NoTag {
      QuitsOweNothing(inbox[1..]);
    }
  }

  lemma ShorterInbox(statements: Statements, live: map<nat, string>, last: Option<nat>, inbox: seq<Parcel>)
    requires inbox != []
    ensures AllWillRunInspected(live, last, inbox) ==> AllWillRunInspected(live, last, inbox[1..])
    ensures NoneClosed(statements, inbox) ==> NoneClosed(statements, inbox[1..])
    ensures AllQuits(inbox) ==> AllQuits(inbox[1..])
  {
    assert forall i :: 0 <= i < |inbox[1..]| ==> inbox[1..][i] == inbox[i + 1];
  }

  /** Closing at the server leaves every template on its way the same, or gone. */
  lemma ClosingKeepsTemplates(world: World, server: Server, id: nat, inbox: seq<Parcel>)
    requires AllWillRunInspected(server.live, server.last, inbox)
    ensures var closed := CloseAtServer(world, server, id); AllWillRunInspected(closed.live, closed.last, inbox)
  {
    var closed := CloseAtServer(world, server, id);
    forall i | 0 <= i < |inbox|
      ensures WillRunInspected(closed.live, closed.last, inbox[i])
    {
      assert WillRunInspected(server.live, server.last, inbox[i]);
    }
  }

  lemma TakenCloseKeepsRefinement(world: World, s: State, server: Server, id: nat)
    requires IsRefinement(world, s, server) && server.owed == NoDebt && id !in s.registry.statements
    ensures IsRefinement(world, s, CloseAtServer(world, server, id))
  {
    ClosingKeepsTemplates(world, server, id, server.inbox);
  }

  lemma RestKeepsRefinement(world: World, s: State, server: Server)
    requires IsRefinement(world, s, server) && server.inbox != []
    ensures IsRefinement(world, s, server.(inbox := server.inbox[1..]))
  {
    ShorterInbox(s.registry.statements, server.live, server.last, server.inbox);
  }

  /** Commands without an answer: closes and quits. */
  lemma TakeUnansweredKeeps(world: World, sys: System, choice: Choice)
    requires IsInvariant(world, sys) && IsEnabled(world, sys, ServerTakes(choice))
    requires OwedTag(sys.server.inbox[0].message) == NoTag
    ensures IsInvariant(world, sys.(server := TakeFirst(world, sys.server, choice)))
  {
    var m := sys.server.inbox[0].message;
    FirstIsTaken(sys.server.inbox);
    RestKeepsRefinement(world, sys.session, sys.server);
    if IsClose(m) {
      TakenCloseKeepsRefinement(world, sys.session, sys.server.(inbox := sys.server.inbox[1..]), ClosedId(m));
    }
  }

  lemma TakeAnsweredKeepsCorrelation(world: World, s: State, server: Server, choice: Choice)
    requires IsCorrelated(world, s, server) && server.owed == NoDebt && server.inbox != []
    requires OwedTag(server.inbox[0].message) != NoTag && MayChoose(world, server, server.inbox[0].message, choice)
    ensures IsCorrelated(world, s, TakeFirst(world, server, choice))
  {
    FirstIsTaken(server.inbox);
    QuitsOweNothing(server.inbox[1..]);
  }

  lemma TakeAnsweredKeepsRefinement(world: World, s: State, server: Server, choice: Choice)
    requires IsRefinement(world, s, server) && server.owed == NoDebt && server.inbox != [] && IsOrderly(server.inbox)
    requires OwedTag(server.inbox[0].message) != NoTag && MayChoose(world, server, server.inbox[0].message, choice)
    ensures IsRefinement(world, s, TakeFirst(world, server, choice))
  {
    FirstIsTaken(server.inbox);
    RestKeepsRefinement(world, s, server);
    var after := TakeFirst(world, server, choice);
    forall i | 0 <= i < |after.inbox|
      ensures WillRunInspected(after.live, after.last, after.inbox[i])
    {
      assert CodeOf(after.inbox[i].message) == COM_QUIT;
    }
  }

  lemma TakeKeeps(world: World, sys: System, choice: Choice)
    requires IsInvariant(world, sys) && IsEnabled(world, sys, ServerTakes(choice))
    ensures IsInvariant(world, Next(world, sys, ServerTakes(choice)))
  {
    if OwedTag(sys.server.inbox[0].message) == NoTag {
      TakeUnansweredKeeps(world, sys, choice);
    } else {
      TakeAnsweredKeepsCorrelation(world, sys.session, sys.server, choice);
      TakeAnsweredKeepsRefinement(world, sys.session, sys.server, choice);
    }
  }

  // ---------------------------------------------------------------------------
  // The server sends a packet
  // ---------------------------------------------------------------------------

  ghost predicate IsSending(world: World, sys: System) {
    IsOwed(world, sys.server.owed) && sys.server.owed != NoDebt && Has(world.caps, CLIENT_PROTOCOL_41)
  }

  ghost function AfterSend(world: World, server: Server): Server
    requires IsOwed(world, server.owed) && server.owed != NoDebt
  {
    server.(owed := OwedAfterSend(world, server.owed))
  }

  /** What routing must give for the run to go on. */
  ghost predicate IsRoutedTo(world: World, sys: System, next: State) {
    && IsSending(world, sys)
    && Route(sys.session, PacketToSend(world, sys.server.owed), world.caps) == Routed(next)
    && IsPreparing(next.prepare)
    && IsAnswering(world, next, AfterSend(world, sys.server))
    && Only(next, TagOfDebt(OwedAfterSend(world, sys.server.owed)))
    && IsRefinement(world, next, AfterSend(world, sys.server))
    && (next.pendingReset.Some? ==> next.pendingReset.value in next.registry.statements)
    && (Only(sys.session, PrepareTag) && Only(next, NoTag) ==> next.prepare.event == Some(true))
  }

  lemma MetadataLeft(world: World, id: nat, kinds: seq<Kind>, packets: seq<Bytes>)
    requires IsMetadata(kinds, packets)
    ensures IsOwed(world, OwedMetadata(id, kinds, packets))
    ensures kinds != [] ==> IsMetadata(kinds[1..], packets[1..])
  {
    if kinds != [] {
      forall i | 0 <= i < |kinds[1..]|
        ensures IsMetadataPacket(kinds[1..][i], packets[1..][i])
      {
        assert IsMetadataPacket(kinds[i + 1], packets[i + 1]);
      }
    }
  }

  lemma OwedAfterSendIsOwed(world: World, owed: Owed)
    requires IsOwed(world, owed) && owed != NoDebt
    ensures IsOwed(world, OwedAfterSend(world, owed))
  {
    match owed {
      case PrepareSuccess(ok, _, metadata) =>
        MetadataLeft(world, ok.statementId, MetadataKinds(ok.parameterCount, ok.columnCount, DeprecateEof(world.caps)),
                     metadata);
      case PrepareMetadata(id, kinds, packets) =>
        MetadataLeft(world, id, kinds, packets);
        MetadataLeft(world, id, kinds[1..], packets[1..]);
      case Response(remaining) => AdvanceKeeps(remaining, world.caps);
      case _ =>
    }
  }

  lemma RoutedKeeps(world: World, sys: System, next: State)
    requires IsInvariant(world, sys) && IsRoutedTo(world, sys, next)
    ensures IsInvariant(world, SendStep(world, sys))
  {
    OwedAfterSendIsOwed(world, sys.server.owed);
    QuitsOweNothing(sys.server.inbox);
    RouteKeepsSession(sys.session, PacketToSend(world, sys.server.owed), world.caps);
  }

  /** Packets that prepare nothing leave the statements alone. */
  lemma SameStatementsKeepRefinement(world: World, s: State, next: State, server: Server, owed: Owed)
    requires IsRefinement(world, s, server)
    requires SameStatements(s.registry.statements, next.registry.statements) && next.registry.last == s.registry.last
    requires TagOfDebt(server.owed) != PrepareTag && TagOfDebt(owed) != PrepareTag
    ensures IsRefinement(world, next, server.(owed := owed))
  {
  }

  /** A well-formed acknowledgment is routed, with at most the transaction status changed. */
  lemma AcknowledgmentIsRead(completed: Step<bool>, answer: Answer, caps: nat)
    requires completed.Done? && Has(caps, CLIENT_PROTOCOL_41) && (answer.OkAnswer? ==> IsOkFields(answer.fields))
    ensures var payload :=
        match answer {
          case OkAnswer(fields) => OkPacket(OK_MARKER, fields)
          case ErrAnswer(rest) => ErrPacket(rest)
        };
      var r := RouteAcknowledgment(completed, payload, caps);
      r.Routed? && r.next == completed.next.(transaction := r.next.transaction)
  {
    if answer.OkAnswer? {
      OkIsRead(OK_MARKER, answer.fields, caps);
    }
  }

  /** An OK or ERR for a ping, a reset or a change of database. */
  lemma AcknowledgmentIsRouted(world: World, sys: System) returns (next: State)
    requires IsInvariant(world, sys) && IsSending(world, sys) && sys.server.owed.Acknowledgment?
    ensures IsRoutedTo(world, sys, next)
  {
    var s, payload := sys.session, PacketToSend(world, sys.server.owed);
    var completed := Completed(s, sys.server.owed.tag, payload);
    CompletedAcknowledgment(s, sys.server.owed.tag, payload);
    AcknowledgmentIsRead(completed, sys.server.owed.answer, world.caps);
    next := Route(s, payload, world.caps).next;
    SameStatementsKeepRefinement(world, s, next, sys.server, NoDebt);
  }

  ghost function Completed(s: State, tag: Tag, payload: Bytes): Step<bool> {
    match tag
    case PingTag => CompletePing(s, payload)
    case ResetTag => CompleteStatementReset(s, payload)
    case _ => CompleteDatabaseChange(s, payload)
  }

  lemma CompletedAcknowledgment(s: State, tag: Tag, payload: Bytes)
    requires Only(s, tag) && (tag.PingTag? || tag.ResetTag? || tag.DatabaseTag?)
    requires payload != [] && (payload[0] == OK_MARKER || payload[0] == ERR_MARKER)
    requires s.pendingReset.Some? ==> s.pendingReset.value in s.registry.statements
    ensures var completed := Completed(s, tag, payload);
      && completed.Done? && Only(completed.next, NoTag)
      && SameStatements(s.registry.statements, completed.next.registry.statements)
      && completed.next.registry.last == s.registry.last && completed.next.prepare == s.prepare
  {
  }

  lemma PrepareErrorIsRouted(world: World, sys: System) returns (next: State)
    requires IsInvariant(world, sys) && IsSending(world, sys) && sys.server.owed.PrepareError?
    ensures IsRoutedTo(world, sys, next)
  {
    next := FailStatementPrepare(sys.session);
    assert sys.session.registry.statements - {} == sys.session.registry.statements;
  }

  lemma MetadataIsRouted(world: World, sys: System) returns (next: State)
    requires IsInvariant(world, sys) && IsSending(world, sys) && sys.server.owed.PrepareMetadata?
    ensures IsRoutedTo(world, sys, next)
  {
    MetadataIsFollowed(sys.session, sys.server.owed.kinds, sys.server.owed.packets[0], world.caps);
    next := WithoutFirstKind(sys.session);
    RememberedIsRefined(world, sys.session, sys.server);
  }

  /** One metadata packet fewer to come; after the last one the prepare is over. */
  ghost function WithoutFirstKind(s: State): State
    requires s.prepare.metadataKinds != [] && s.prepare.metadataPackets > 0
  {
    if s.prepare.metadataPackets > 1 then
      s.(prepare := s.prepare.(metadataKinds := s.prepare.metadataKinds[1..],
                               metadataPackets := s.prepare.metadataPackets - 1))
    else s.(registry := s.registry.(last := s.prepare.id), prepare := Settled(s.prepare, false))
  }

  lemma MetadataIsFollowed(s: State, kinds: seq<Kind>, payload: Bytes, caps: nat)
    requires Only(s, PrepareTag) && s.prepare.id.Some? && Has(caps, CLIENT_PROTOCOL_41)
    requires kinds != [] && s.prepare.metadataKinds == kinds && s.prepare.metadataPackets == |kinds|
    requires IsMetadataPacket(kinds[0], payload)
    ensures Route(s, payload, caps) == Routed(WithoutFirstKind(s))
  {
    if kinds[0].EofKind? {
      var status, warnings :| status < 0x1_0000 && warnings < 0x1_0000 && payload == EofPacket(status, warnings);
      EofIsRead(status, warnings, caps);
    }
  }

  lemma RememberedIsRefined(world: World, s: State, server: Server)
    requires IsKept(s) && IsCorrelated(world, s, server) && IsRefinement(world, s, server)
    requires server.owed.PrepareMetadata?
    ensures IsRefinement(world, WithoutFirstKind(s), AfterSend(world, server))
  {
  }

  /** A response's next packet moves the tracker, and at most the transaction status. */
  lemma ResponsePacketIsFollowed(s: State, remaining: Remaining, caps: nat)
    requires Only(s, CommandTag) && s.tracker == TrackerFor(remaining, s.tracker.pending.value, caps)
    requires IsRemaining(remaining, caps) && !remaining.Over? && Has(caps, CLIENT_PROTOCOL_41)
    ensures var r := Route(s, NextPacket(remaining, caps), caps);
      && r.Routed?
      && r.next == s.(tracker := TrackerFor(Advance(remaining, caps), s.tracker.pending.value, caps),
                      transaction := r.next.transaction)
  {
    PacketIsRecognised(remaining, s.tracker.pending.value, caps);
  }

  lemma TrackedIsAnswering(world: World, sys: System, next: State)
    requires IsInvariant(world, sys) && IsSending(world, sys) && sys.server.owed.Response?
    requires sys.session.tracker.pending.Some?
    requires next == sys.session.(
      tracker := TrackerFor(Advance(sys.server.owed.remaining, world.caps), sys.session.tracker.pending.value,
                            world.caps),
      transaction := next.transaction)
    ensures IsAnswering(world, next, AfterSend(world, sys.server))
    ensures Only(next, TagOfDebt(OwedAfterSend(world, sys.server.owed)))
  {
  }

  lemma ResponseIsRouted(world: World, sys: System) returns (next: State)
    requires IsInvariant(world, sys) && IsSending(world, sys) && sys.server.owed.Response?
    ensures IsRoutedTo(world, sys, next)
  {
    var s, remaining := sys.session, sys.server.owed.remaining;
    ResponsePacketIsFollowed(s, remaining, world.caps);
    next := Route(s, NextPacket(remaining, world.caps), world.caps).next;
    TrackedIsAnswering(world, sys, next);
    SameStatementsKeepRefinement(world, s, next, sys.server, OwedAfterSend(world, sys.server.owed));
  }

  /** The session once a prepared statement that fits has been announced. */
  ghost function Announced(s: State, ok: PrepareOk, caps: nat): State
    requires s.prepare.sql.Some?
  {
    var id, kinds := ok.statementId, MetadataKinds(ok.parameterCount, ok.columnCount, DeprecateEof(caps));
    var stored := Put(s, id, Prepared(id, s.prepare.sql.value, ok.parameterCount, ok.columnCount, None, {}));
    if kinds == [] then stored.(registry := stored.registry.(last := Some(id)), prepare := Settled(s.prepare, false))
    else stored.(prepare := s.prepare.(id := Some(id), metadataKinds := kinds, metadataPackets := |kinds|))
  }

  lemma PrepareOkIsAnnounced(s: State, ok: PrepareOk, rest: Bytes, caps: nat)
    requires Only(s, PrepareTag) && s.prepare.id.None? && s.prepare.metadataKinds == [] && IsPrepareOk(ok)
    ensures var full := CapacityError(s.registry, ok.statementId, s.prepare.sql.value);
      Route(s, PrepareOkPacket(ok, rest), caps)
      == if full.Some? then RouteError(s, full.value) else Routed(Announced(s, ok, caps))
  {
    PrepareOkIsRead(ok, rest);
  }

  lemma AnnouncedIsCorrelated(world: World, s: State, server: Server)
    requires IsCorrelated(world, s, server) && IsPreparing(s.prepare) && server.owed.PrepareSuccess?
    ensures var next, owed := Announced(s, server.owed.ok, world.caps), OwedAfterSend(world, server.owed);
      && IsPreparing(next.prepare) && IsAnswering(world, next, AfterSend(world, server)) && Only(next, TagOfDebt(owed))
      && (owed == NoDebt ==> next.prepare.event == Some(true))
  {
  }

  lemma AnnouncedIsRefined(world: World, s: State, server: Server)
    requires IsCorrelated(world, s, server) && IsRefinement(world, s, server) && server.owed.PrepareSuccess?
    ensures IsRefinement(world, Announced(s, server.owed.ok, world.caps), AfterSend(world, server))
  {
    var id, live := server.owed.ok.statementId, server.live;
    var before, after := s.registry.statements, Announced(s, server.owed.ok, world.caps).registry.statements;
    forall other | other in after && other in live
      ensures Strip(live[other]) == after[other].sql
    {
      assert other != id ==> Some(other) != UnannouncedId(server.owed) && after[other] == before[other];
    }
    assert forall i :: 0 <= i < |server.inbox| ==> !IsClose(server.inbox[i].message);
  }

  /** The one thing that can end a run: the statement does not fit in the registry. */
  lemma PrepareSuccessIsRouted(world: World, sys: System) returns (next: State)
    requires IsInvariant(world, sys) && IsSending(world, sys) && sys.server.owed.PrepareSuccess?
    ensures var ok := sys.server.owed.ok;
      var full := CapacityError(sys.session.registry, ok.statementId, sys.session.prepare.sql.value);
      if full.Some? then
        Route(sys.session, PacketToSend(world, sys.server.owed), world.caps) == RouteError(next, full.value)
      else IsRoutedTo(world, sys, next)
  {
    var s, ok := sys.session, sys.server.owed.ok;
    PrepareOkIsAnnounced(s, ok, sys.server.owed.rest, world.caps);
    AnnouncedIsCorrelated(world, s, sys.server);
    AnnouncedIsRefined(world, s, sys.server);
    var full := CapacityError(s.registry, ok.statementId, s.prepare.sql.value);
    next := if full.Some? then s else Announced(s, ok, world.caps);
  }

  ghost predicate IsCapacityError(error: Option<Error>) {
    error == Some(RegistryFull) || error == Some(StateTooLarge)
  }

  lemma PacketIsRouted(world: World, sys: System) returns (next: State)
    requires IsInvariant(world, sys) && IsSending(world, sys) && !sys.server.owed.PrepareSuccess?
    ensures IsRoutedTo(world, sys, next)
  {
    match sys.server.owed {
      case Acknowledgment(_, _) => next := AcknowledgmentIsRouted(world, sys);
      case PrepareError(_) => next := PrepareErrorIsRouted(world, sys);
      case PrepareMetadata(_, _, _) => next := MetadataIsRouted(world, sys);
      case Response(_) => next := ResponseIsRouted(world, sys);
    }
  }

  lemma AnnouncementKeeps(world: World, sys: System)
    requires IsInvariant(world, sys) && IsSending(world, sys) && sys.server.owed.PrepareSuccess? && sys.ended.None?
    ensures var next := SendStep(world, sys);
      if next.ended.None? then IsInvariant(world, next) else IsCapacityError(next.ended)
  {
    var next := PrepareSuccessIsRouted(world, sys);
    if IsRoutedTo(world, sys, next) {
      RoutedKeeps(world, sys, next);
    }
  }

  /** A packet is routed, or it announces a statement that does not fit and the connection ends. */
  lemma SendKeeps(world: World, sys: System)
    requires IsInvariant(world, sys) && IsSending(world, sys) && sys.ended.None?
    ensures var next := SendStep(world, sys);
      if next.ended.None? then IsInvariant(world, next) else IsCapacityError(next.ended)
  {
    if sys.server.owed.PrepareSuccess? {
      AnnouncementKeeps(world, sys);
    } else {
      var next := PacketIsRouted(world, sys);
      RoutedKeeps(world, sys, next);
    }
  }

  // ---------------------------------------------------------------------------
  // Every run
  // ---------------------------------------------------------------------------

  lemma EventKeeps(world: World, sys: System, e: Event)
    requires IsPlainProtocol(world.caps) && IsInvariant(world, sys) && IsEnabled(world, sys, e)
    ensures var next := Next(world, sys, e);
      if next.ended.None? then IsInvariant(world, next) else IsCapacityError(next.ended)
  {
    match e {
      case ClientSends(m, policy) => ClientKeeps(world, sys, m, policy);
      case WaitEnds(policy) => WaitEndKeeps(world, sys, policy);
      case ServerTakes(choice) => TakeKeeps(world, sys, choice);
      case ServerSends => SendKeeps(world, sys);
    }
  }

  /** Over every run the invariant holds until the connection ends, and only a full registry ends it. */
  lemma {:induction false} RunKeeps(world: World, sys: System, events: seq<Event>)
    requires IsPlainProtocol(world.caps) && sys.ended.None? && IsInvariant(world, sys)
    requires Run(world, sys, events).Some?
    ensures var end := Run(world, sys, events).value;
      if end.ended.None? then IsInvariant(world, end) else IsCapacityError(end.ended)
    decreases |events|
  {
    if events != [] {
      var next := Next(world, sys, events[0]);
      EventKeeps(world, sys, events[0]);
      if next.ended.None? {
        RunKeeps(world, next, events[1..]);
      }
    }
  }
}
