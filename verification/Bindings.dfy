/**
 The parameter types the proxy keeps are the server's, so that an execution which sends no
 types is decoded by the server into the very values that were inspected.
 */
module Bindings {
  import opened Wire
  import opened Responses
  import opened Tracker
  import opened Session
  import opened Routing
  import opened Dispatch
  import opened Assembler
  import opened ExecuteParams
  import opened ProxyRuns
  import opened RunTheorems
  import opened Stripping
  import Scanner

  // ---------------------------------------------------------------------------
  // Decoding with the server's types
  // ---------------------------------------------------------------------------

  /** A payload accepted without cached types sends its own. */
  lemma SentTypesSuffice(floatText: FloatText, e: StmtExecute, count: nat, types: Option<seq<ParamType>>)
    requires Decode(floatText, e, count, None).Some?
    ensures Decode(floatText, e, count, types) == Decode(floatText, e, count, None)
  {
    if count > 0 {
      SentTypesAreInForce(e.payload, count, types);
    }
  }

  lemma SentTypesAreInForce(payload: Bytes, count: nat, types: Option<seq<ParamType>>)
    requires |payload| > (count + 7) / 8 && TypesInForce(payload, count, None).Some?
    ensures TypesInForce(payload, count, types) == TypesInForce(payload, count, None)
  {
  }

  /** The server's types need only be the proxy's where the proxy has any. */
  lemma ServerDecodesAlike(floatText: FloatText, e: StmtExecute, statement: Prepared, b: Binding)
    requires Decode(floatText, e, statement.parameterCount, statement.parameterTypes).Some?
    requires b.count == statement.parameterCount
    requires statement.parameterTypes.Some? ==> b.types == statement.parameterTypes
    ensures Decode(floatText, e, b.count, b.types)
         == Decode(floatText, e, statement.parameterCount, statement.parameterTypes)
  {
    if statement.parameterTypes.None? {
      SentTypesSuffice(floatText, e, b.count, b.types);
    }
  }

  lemma DecodedLeavesItsTypes(floatText: FloatText, e: StmtExecute, b: Binding)
    requires Decode(floatText, e, b.count, b.types).Some?
    ensures TypesAfter(e, b) == Some(Decode(floatText, e, b.count, b.types).value.types)
  {
  }

  // ---------------------------------------------------------------------------
  // The invariant
  // ---------------------------------------------------------------------------

  /** The statement that an execution on its way is about. */
  ghost function ExecuteTarget(server: Server): Option<nat> {
    var sent := Outstanding(server.inbox);
    if server.owed != NoDebt || sent.None? || CodeOf(sent.value.message) != COM_STMT_EXECUTE then None
    else
      var e := ParseStmtExecute(BodyOf(sent.value.message));
      if e.None? then None else Resolve(server.last, e.value.statementId)
  }

  ghost predicate IsSameBinding(statement: Prepared, b: Binding, targeted: bool) {
    b.count == statement.parameterCount
      && (statement.parameterTypes.Some? && !targeted ==> b.types == statement.parameterTypes)
  }

  /** The server will decode the parcel's literals, and be left with the types the proxy has kept. */
  ghost predicate WillDecode(statements: Statements, id: nat, b: Binding, parcel: Parcel) {
    var e := ParseStmtExecute(BodyOf(parcel.message));
    && e.Some? && parcel.inspected.Execution? && id in statements
    && var d := Decode(parcel.policy.floatText, e.value, b.count, b.types);
       d.Some? && Literals(d.value.parameters) == parcel.inspected.literals
         && statements[id].parameterTypes == Some(d.value.types)
  }

  ghost predicate AreSameBindings(statements: Statements, bindings: map<nat, Binding>, except: Option<nat>,
                                  target: Option<nat>) {
    forall id :: id in statements && id in bindings && Some(id) != except ==>
      IsSameBinding(statements[id], bindings[id], target == Some(id))
  }

  /** When the server has no last statement, it does not have the proxy's last one either. */
  ghost predicate IsLastGone(s: State, server: Server) {
    s.registry.last.Some? && TagOfDebt(server.owed) != PrepareTag && server.last.None? ==>
      s.registry.last.value !in server.bindings
  }

  ghost predicate IsAligned(s: State, server: Server) {
    && server.bindings.Keys == server.live.Keys
    && IsLastGone(s, server)
    && AreSameBindings(s.registry.statements, server.bindings, UnannouncedId(server.owed), ExecuteTarget(server))
    && (ExecuteTarget(server).Some? && ExecuteTarget(server).value in server.bindings ==>
          WillDecode(s.registry.statements, ExecuteTarget(server).value, server.bindings[ExecuteTarget(server).value],
                     Outstanding(server.inbox).value))
    && (server.owed.PrepareSuccess? ==>
          var id := server.owed.ok.statementId;
            id in server.bindings && server.bindings[id].count == server.owed.ok.parameterCount)
  }

  // ---------------------------------------------------------------------------
  // Commands join
  // ---------------------------------------------------------------------------

  ghost function Added(server: Server, parcel: Parcel): Server {
    server.(inbox := server.inbox + [parcel])
  }

  lemma QuitKeepsAlignment(s: State, server: Server, parcel: Parcel)
    requires IsAligned(s, server) && IsOrderly(server.inbox) && CodeOf(parcel.message) == COM_QUIT
    ensures IsAligned(s.(closing := true), Added(server, parcel))
  {
    AppendKeepsOrder(server.inbox, parcel);
  }

  lemma CloseKeepsAlignment(s: State, server: Server, parcel: Parcel)
    requires IsAligned(s, server) && IsOrderly(server.inbox) && server.owed == NoDebt && Outstanding(server.inbox).None?
    requires IsClose(parcel.message)
    ensures IsAligned(ClosePreparedStatement(s, ClosedId(parcel.message)), Added(server, parcel))
  {
    AppendKeepsOrder(server.inbox, parcel);
  }

  /** Any command but an execution: the registry is as it was. */
  lemma CommandKeepsAlignment(s: State, next: State, server: Server, parcel: Parcel)
    requires IsAligned(s, server) && IsOrderly(server.inbox) && server.owed == NoDebt && Outstanding(server.inbox).None?
    requires OwedTag(parcel.message) != NoTag && CodeOf(parcel.message) != COM_STMT_EXECUTE
    requires next.registry == s.registry
    ensures IsAligned(next, Added(server, parcel))
  {
    AppendKeepsOrder(server.inbox, parcel);
  }

  lemma CommandKeepsRegistry(s: State, m: LogicalMessage, policy: Policy)
    requires !HasPending(s) && !policy.mode.Permissive? && OwedTag(m) != NoTag && CodeOf(m) != COM_STMT_EXECUTE
    requires IsForward(Dispatch.Dispatch(s, m, policy), m)
    ensures Dispatch.Dispatch(s, m, policy).next.registry == s.registry
  {
  }

  /**
   The server, if it has a statement of that number at all, takes an execution to be about the statement inspected.
   */
  lemma ExecutedIsTargeted(world: World, s: State, server: Server, m: LogicalMessage)
    requires IsKept(s) && IsRefinement(world, s, server) && server.owed == NoDebt
    requires ParseStmtExecute(BodyOf(m)).Some? && Executed(s, m).Statement?
    ensures var target := Resolve(server.last, ParseStmtExecute(BodyOf(m)).value.statementId);
      var statement := Executed(s, m).statement;
      && statement.statementId in s.registry.statements && s.registry.statements[statement.statementId] == statement
      && (if target.Some? then target.value == statement.statementId
          else IsLastGone(s, server) ==> statement.statementId !in server.bindings)
  {
  }

  /** The statement's types become those the server will be left with. */
  lemma KeptTypesAlign(s: State, next: State, server: Server, parcel: Parcel, statement: Prepared, d: Decoded)
    requires IsAligned(s, server) && IsOrderly(server.inbox) && server.owed == NoDebt && Outstanding(server.inbox).None?
    requires CodeOf(parcel.message) == COM_STMT_EXECUTE && ParseStmtExecute(BodyOf(parcel.message)).Some?
    requires statement.statementId in s.registry.statements && s.registry.statements[statement.statementId] == statement
    requires next.registry.last == s.registry.last
    requires next.registry.statements
         == s.registry.statements[statement.statementId := statement.(parameterTypes := Some(d.types), longData := {})]
    requires parcel.inspected == Execution(statement.sql, Literals(d.parameters))
    requires Decode(parcel.policy.floatText, ParseStmtExecute(BodyOf(parcel.message)).value, statement.parameterCount,
                    statement.parameterTypes) == Some(d)
    requires var target := Resolve(server.last, ParseStmtExecute(BodyOf(parcel.message)).value.statementId);
      if target.Some? then target.value == statement.statementId else statement.statementId !in server.bindings
    ensures IsAligned(next, Added(server, parcel))
  {
    var e, id := ParseStmtExecute(BodyOf(parcel.message)).value, statement.statementId;
    AppendKeepsOrder(server.inbox, parcel);
    if id in server.bindings {
      ServerDecodesAlike(parcel.policy.floatText, e, statement, server.bindings[id]);
    }
  }

  lemma ExecuteKeepsAlignment(world: World, sys: System, m: LogicalMessage, policy: Policy)
    requires IsInvariant(world, sys) && IsAligned(sys.session, sys.server) && !HasPending(sys.session)
    requires !policy.mode.Permissive?
    requires CodeOf(m) == COM_STMT_EXECUTE && ParseStmtExecute(BodyOf(m)).Some? && Executed(sys.session, m).Statement?
    requires IsForward(ExecuteStatement(sys.session, m, ParseStmtExecute(BodyOf(m)).value,
                                        Executed(sys.session, m).statement, policy), m)
    ensures var effect := ExecuteStatement(sys.session, m, ParseStmtExecute(BodyOf(m)).value,
                                           Executed(sys.session, m).statement, policy);
      IsAligned(effect.next, Added(sys.server, Parcel(m, effect.inspected, policy)))
  {
    var s, e, statement := sys.session, ParseStmtExecute(BodyOf(m)).value, Executed(sys.session, m).statement;
    var effect := ExecuteStatement(s, m, e, statement, policy);
    var d := ExecuteForwards(s, m, e, statement, policy);
    NothingPendingNothingOwed(world, s, sys.server);
    ExecutedIsTargeted(world, s, sys.server, m);
    KeptTypesAlign(s, effect.next, sys.server, Parcel(m, effect.inspected, policy), statement, d);
  }

  lemma ForwardKeepsAlignment(world: World, sys: System, m: LogicalMessage, policy: Policy)
    requires IsInvariant(world, sys) && IsAligned(sys.session, sys.server) && !policy.mode.Permissive?
    requires IsForward(Dispatch.Dispatch(sys.session, m, policy), m)
    ensures var effect := Dispatch.Dispatch(sys.session, m, policy);
      IsAligned(effect.next, Added(sys.server, Parcel(m, effect.inspected, policy)))
  {
    var s, effect := sys.session, Dispatch.Dispatch(sys.session, m, policy);
    var parcel := Parcel(m, effect.inspected, policy);
    ForwardedIsKnown(s, m, policy);
    if CodeOf(m) == COM_QUIT {
      QuitKeepsAlignment(s, sys.server, parcel);
    } else {
      NothingPendingNothingOwed(world, s, sys.server);
      if IsClose(m) {
        CloseKeepsAlignment(s, sys.server, parcel);
      } else if CodeOf(m) == COM_STMT_EXECUTE {
        DispatchedExecute(s, m, policy);
        ExecuteKeepsAlignment(world, sys, m, policy);
      } else {
        CommandKeepsRegistry(s, m, policy);
        CommandKeepsAlignment(s, effect.next, sys.server, parcel);
      }
    }
  }

  // ---------------------------------------------------------------------------
  // The server takes a command
  // ---------------------------------------------------------------------------

  lemma ClosingKeepsAlignment(world: World, s: State, server: Server, id: nat)
    requires IsAligned(s, server) && server.owed == NoDebt
    requires s.registry.last.Some? && server.last.Some? ==> server.last == s.registry.last
    ensures IsAligned(s, CloseAtServer(world, server, id))
  {
  }

  lemma RestKeepsAlignment(s: State, server: Server)
    requires IsAligned(s, server) && server.inbox != [] && IsOrderly(server.inbox)
    requires OwedTag(server.inbox[0].message) == NoTag
    ensures IsAligned(s, server.(inbox := server.inbox[1..]))
  {
    FirstIsTaken(server.inbox);
  }

  lemma TakenExecuteKeepsAlignment(s: State, server: Server, replies: seq<Reply>)
    requires IsAligned(s, server) && server.owed == NoDebt && server.inbox != [] && IsOrderly(server.inbox)
    requires CodeOf(server.inbox[0].message) == COM_STMT_EXECUTE
    ensures var after := ExecuteAtServer(server.(inbox := server.inbox[1..]), server.inbox[0].message);
      IsAligned(s, after.(owed := Response(Replies(replies))))
  {
    FirstIsTaken(server.inbox);
    var target := ExecuteTarget(server);
    if target.Some? && target.value in server.bindings {
      var parcel := server.inbox[0];
      DecodedLeavesItsTypes(parcel.policy.floatText, ParseStmtExecute(BodyOf(parcel.message)).value,
                            server.bindings[target.value]);
    }
  }

  lemma TakenOtherKeepsAlignment(world: World, s: State, server: Server, choice: Choice)
    requires IsAligned(s, server) && server.owed == NoDebt && server.inbox != [] && IsOrderly(server.inbox)
    requires CodeOf(server.inbox[0].message) != COM_STMT_EXECUTE && OwedTag(server.inbox[0].message) != NoTag
    requires MayChoose(world, server, server.inbox[0].message, choice)
    ensures IsAligned(s, TakeFirst(world, server, choice))
  {
    FirstIsTaken(server.inbox);
  }

  lemma TakeKeepsAlignment(world: World, sys: System, choice: Choice)
    requires IsInvariant(world, sys) && IsAligned(sys.session, sys.server) && IsEnabled(world, sys, ServerTakes(choice))
    ensures IsAligned(sys.session, TakeFirst(world, sys.server, choice))
  {
    var s, server, m := sys.session, sys.server, sys.server.inbox[0].message;
    if OwedTag(m) == NoTag {
      RestKeepsAlignment(s, server);
      if IsClose(m) {
        ClosingKeepsAlignment(world, s, server.(inbox := server.inbox[1..]), ClosedId(m));
      }
    } else if CodeOf(m) == COM_STMT_EXECUTE {
      TakenExecuteKeepsAlignment(s, server, choice.replies);
    } else {
      TakenOtherKeepsAlignment(world, s, server, choice);
    }
  }

  // ---------------------------------------------------------------------------
  // The server sends a packet
  // ---------------------------------------------------------------------------

  /** Statements may be forgotten and their types too, but nothing else changes about them. */
  ghost predicate IsNoMore(after: Statements, before: Statements, except: Option<nat>) {
    forall id :: id in after && Some(id) != except ==>
      && id in before && after[id].parameterCount == before[id].parameterCount
      && (after[id].parameterTypes.Some? ==> after[id].parameterTypes == before[id].parameterTypes)
  }

  ghost predicate IsNewBinding(statements: Statements, ok: PrepareOk) {
    ok.statementId in statements && statements[ok.statementId].parameterCount == ok.parameterCount
      && statements[ok.statementId].parameterTypes.None?
  }

  lemma SentKeepsAlignment(world: World, s: State, next: State, server: Server)
    requires IsAligned(s, server) && IsOwed(world, server.owed) && server.owed != NoDebt && AllQuits(server.inbox)
    requires IsNoMore(next.registry.statements, s.registry.statements, UnannouncedId(server.owed))
    requires server.owed.PrepareSuccess? ==> IsNewBinding(next.registry.statements, server.owed.ok)
    requires IsLastGone(next, AfterSend(world, server))
    ensures IsAligned(next, AfterSend(world, server))
  {
    QuitsOweNothing(server.inbox);
  }

  lemma CompletionHasNoMore(s: State, tag: Tag, payload: Bytes)
    ensures IsNoMore(Completed(s, tag, payload).next.registry.statements, s.registry.statements, None)
  {
  }

  lemma AcknowledgmentHasNoMore(completed: Step<bool>, payload: Bytes, caps: nat)
    ensures RouteAcknowledgment(completed, payload, caps).next.registry == completed.next.registry
  {
  }

  lemma PrepareHasNoMore(s: State, payload: Bytes, caps: nat)
    requires s.prepare.id.Some? || payload == [] || payload[0] != OK_MARKER
    ensures IsNoMore(RoutePrepare(s, payload, caps).next.registry.statements, s.registry.statements, None)
  {
  }

  lemma AnnouncedHasNoMore(s: State, ok: PrepareOk, rest: Bytes, caps: nat)
    requires Only(s, PrepareTag) && s.prepare.id.None? && s.prepare.metadataKinds == [] && IsPrepareOk(ok)
    requires Route(s, PrepareOkPacket(ok, rest), caps).Routed?
    ensures var next := Route(s, PrepareOkPacket(ok, rest), caps).next;
      IsNoMore(next.registry.statements, s.registry.statements, Some(ok.statementId))
        && IsNewBinding(next.registry.statements, ok)
  {
    PrepareOkIsAnnounced(s, ok, rest, caps);
  }

  lemma RoutedHasNoMore(world: World, sys: System, next: State)
    requires IsInvariant(world, sys) && IsSending(world, sys)
    requires Route(sys.session, PacketToSend(world, sys.server.owed), world.caps) == Routed(next)
    ensures IsNoMore(next.registry.statements, sys.session.registry.statements, UnannouncedId(sys.server.owed))
    ensures sys.server.owed.PrepareSuccess? ==> IsNewBinding(next.registry.statements, sys.server.owed.ok)
  {
    var s, owed, payload := sys.session, sys.server.owed, PacketToSend(world, sys.server.owed);
    RouterOrderIsIrrelevant(s, TagOfDebt(owed), payload, world.caps);
    match owed {
      case Acknowledgment(tag, _) =>
        CompletionHasNoMore(s, tag, payload);
        AcknowledgmentHasNoMore(Completed(s, tag, payload), payload, world.caps);
      case Response(remaining) => ResponsePacketIsFollowed(s, remaining, world.caps);
      case PrepareSuccess(ok, rest, _) => AnnouncedHasNoMore(s, ok, rest, world.caps);
      case _ => PrepareHasNoMore(s, payload, world.caps);
    }
  }

  /** A packet outside a prepare leaves the last statement alone. */
  lemma RoutedKeepsLast(world: World, sys: System, next: State)
    requires IsInvariant(world, sys) && IsSending(world, sys) && TagOfDebt(sys.server.owed) != PrepareTag
    requires Route(sys.session, PacketToSend(world, sys.server.owed), world.caps) == Routed(next)
    ensures next.registry.last == sys.session.registry.last
  {
    var s, owed, payload := sys.session, sys.server.owed, PacketToSend(world, sys.server.owed);
    RouterOrderIsIrrelevant(s, TagOfDebt(owed), payload, world.caps);
    if owed.Response? {
      ResponsePacketIsFollowed(s, owed.remaining, world.caps);
    } else {
      AcknowledgmentHasNoMore(Completed(s, owed.tag, payload), payload, world.caps);
    }
  }

  /** At the end of a prepare the server's last statement is the proxy's, or neither has one. */
  lemma PreparedLast(world: World, sys: System, next: State)
    requires IsInvariant(world, sys) && IsSending(world, sys) && TagOfDebt(sys.server.owed) == PrepareTag
    requires Route(sys.session, PacketToSend(world, sys.server.owed), world.caps) == Routed(next)
    ensures next.registry.last.Some? && OwedAfterSend(world, sys.server.owed) == NoDebt ==> sys.server.last.Some?
  {
    var s, owed, payload := sys.session, sys.server.owed, PacketToSend(world, sys.server.owed);
    if owed.PrepareError? {
      RouterOrderIsIrrelevant(s, PrepareTag, payload, world.caps);
    }
  }

  lemma SendKeepsAlignment(world: World, sys: System)
    requires IsInvariant(world, sys) && IsSending(world, sys) && IsAligned(sys.session, sys.server)
    requires sys.ended.None? && SendStep(world, sys).ended.None?
    ensures IsAligned(SendStep(world, sys).session, SendStep(world, sys).server)
  {
    var next := SendStep(world, sys).session;
    RoutedHasNoMore(world, sys, next);
    if TagOfDebt(sys.server.owed) == PrepareTag {
      PreparedLast(world, sys, next);
    } else {
      RoutedKeepsLast(world, sys, next);
    }
    SentKeepsAlignment(world, sys.session, next, sys.server);
  }

  // ---------------------------------------------------------------------------
  // Every run
  // ---------------------------------------------------------------------------

  lemma EventKeepsAlignment(world: World, sys: System, e: Event)
    requires IsPlainProtocol(world.caps) && IsInvariant(world, sys) && IsAligned(sys.session, sys.server)
    requires IsEnabled(world, sys, e)
    ensures var next := Next(world, sys, e); next.ended.None? ==> IsAligned(next.session, next.server)
  {
    match e {
      case ClientSends(m, policy) =>
        DispatchIsAllOrNothing(sys.session, m, policy);
        if IsForward(Dispatch.Dispatch(sys.session, m, policy), m) {
          ForwardKeepsAlignment(world, sys, m, policy);
        }
      case WaitEnds(policy) => ResumeKeepsAlignment(world, sys, policy);
      case ServerTakes(choice) => TakeKeepsAlignment(world, sys, choice);
      case ServerSends =>
        if SendStep(world, sys).ended.None? {
          SendKeepsAlignment(world, sys);
        }
    }
  }

  lemma ResumeKeepsAlignment(world: World, sys: System, policy: Policy)
    requires IsInvariant(world, sys) && IsAligned(sys.session, sys.server) && IsEnabled(world, sys, WaitEnds(policy))
    ensures var next := Next(world, sys, WaitEnds(policy)); IsAligned(next.session, next.server)
  {
    var m := sys.waiting.value;
    ResumeIsAllOrNothing(sys.session, m, policy);
    if IsForward(ResumeExecute(sys.session, m, policy), m) {
      ResumedExecute(sys.session, m, policy);
      ExecuteKeepsAlignment(world, sys, m, policy);
    }
  }

  lemma {:induction false} RunKeepsAlignment(world: World, sys: System, events: seq<Event>)
    requires IsPlainProtocol(world.caps) && sys.ended.None? && IsInvariant(world, sys)
    requires IsAligned(sys.session, sys.server)
    requires Run(world, sys, events).Some? && Run(world, sys, events).value.ended.None?
    ensures var end := Run(world, sys, events).value; IsAligned(end.session, end.server)
    decreases |events|
  {
    if events != [] {
      var next := Next(world, sys, events[0]);
      EventKeeps(world, sys, events[0]);
      EventKeepsAlignment(world, sys, events[0]);
      if next.ended.None? {
        RunKeepsAlignment(world, next, events[1..]);
      }
    }
  }

  lemma ReachedIsAligned(world: World, sys: System)
    requires IsPlainProtocol(world.caps) && IsReached(world, sys)
    ensures IsAligned(sys.session, sys.server)
  {
    var session, events :| IsNew(session) && Run(world, Start(session), events) == Some(sys);
    StartIsInvariant(world, session);
    RunKeepsAlignment(world, Start(session), events);
  }

  /** The statement a command in front of the inbox is about, if the server has it. */
  ghost function Target(server: Server, m: LogicalMessage): Option<nat> {
    var e := ParseStmtExecute(BodyOf(m));
    if e.None? then None
    else
      var target := Resolve(server.last, e.value.statementId);
      if target.Some? && target.value in server.live && target.value in server.bindings then target else None
  }

  /**
   The SQL the server runs for an execution: its own template, filled with the values it decodes with its own types.
   */
  ghost function SqlRun(server: Server, m: LogicalMessage, floatText: FloatText): Option<string> {
    var target := Target(server, m);
    if target.None? then None
    else
      var b := server.bindings[target.value];
      var d := Decode(floatText, ParseStmtExecute(BodyOf(m)).value, b.count, b.types);
      if d.None? then None else Scanner.Fill(server.live[target.value], Scanner.Sql, Literals(d.value.parameters))
  }

  /** The SQL that policy was shown for an execution. */
  ghost function SqlShown(parcel: Parcel): Option<string> {
    if !parcel.inspected.Execution? then None
    else Scanner.Fill(parcel.inspected.template, Scanner.Sql, parcel.inspected.literals)
  }

  /**
   What the server decodes are the literals inspected, and its template is the one inspected, as the client sent it.
   */
  lemma InspectedIsDecoded(world: World, sys: System)
    requires IsPlainProtocol(world.caps) && IsReached(world, sys)
    requires sys.server.owed == NoDebt && sys.server.inbox != []
    requires CodeOf(sys.server.inbox[0].message) == COM_STMT_EXECUTE
    requires Target(sys.server, sys.server.inbox[0].message).Some?
    ensures var parcel := sys.server.inbox[0];
      var template := sys.server.live[Target(sys.server, parcel.message).value];
      && parcel.inspected.Execution? && Strip(template) == parcel.inspected.template
      && SqlRun(sys.server, parcel.message, parcel.policy.floatText)
        == Scanner.Fill(template, Scanner.Sql, parcel.inspected.literals)
  {
    ReachedIsAligned(world, sys);
    ServerRunsWhatWasInspected(world, sys);
    assert ExecuteTarget(sys.server) == Target(sys.server, sys.server.inbox[0].message);
  }

  /**
   The SQL the server runs is the SQL that was approved: for any execution the server takes whose
   statement it has, its own template filled with the values it decodes under its own types is the
   text the policy was shown and approved, but for white space around it; and it has no placeholder left.
   */
  lemma ServerRunsApprovedSql(world: World, sys: System)
    requires IsPlainProtocol(world.caps) && IsReached(world, sys)
    requires sys.server.owed == NoDebt && sys.server.inbox != []
    requires CodeOf(sys.server.inbox[0].message) == COM_STMT_EXECUTE
    requires Target(sys.server, sys.server.inbox[0].message).Some?
    ensures var policy, shown := sys.server.inbox[0].policy, SqlShown(sys.server.inbox[0]);
      var sql := SqlRun(sys.server, sys.server.inbox[0].message, policy.floatText);
      && sql.Some? && shown.Some? && Strip(sql.value) == Strip(shown.value)
      && policy.approve(shown.value) && !policy.unparseable(shown.value)
      && (PrintsNumbers(policy.floatText) ==> Scanner.Fill(sql.value, Scanner.Sql, []) == sql)
  {
    var parcel := sys.server.inbox[0];
    InspectedIsDecoded(world, sys);
    ReachedIsApproved(world, sys);
    assert IsApproved(parcel);
    var template := sys.server.live[Target(sys.server, parcel.message).value];
    FilledAlikeStripped(template, parcel.inspected.literals);
    if PrintsNumbers(parcel.policy.floatText) {
      SentLiteralsAreStable(parcel.policy, ParseStmtExecute(BodyOf(parcel.message)).value, template,
                            parcel.inspected.literals);
    }
  }
}
