/**
 What holds on every run of the proxy between a client and a well-formed server, outside
 the permissive mode and with the plain protocol 4.1 negotiated.
 */
module RunTheorems {
  import opened Wire
  import opened Responses
  import opened Tracker
  import opened Session
  import opened Routing
  import opened Dispatch
  import opened Assembler
  import opened ExecuteParams
  import opened ProxyRuns
  import Scanner

  /** The system is where some run from a fresh session brings it, still connected. */
  ghost predicate IsReached(world: World, sys: System) {
    && sys.ended.None?
    && exists session, events :: IsNew(session) && Run(world, Start(session), events) == Some(sys)
  }

  lemma ReachedIsInvariant(world: World, sys: System)
    requires IsPlainProtocol(world.caps) && IsReached(world, sys)
    ensures IsInvariant(world, sys)
  {
    var session, events :| IsNew(session) && Run(world, Start(session), events) == Some(sys);
    StartIsInvariant(world, session);
    RunKeeps(world, Start(session), events);
  }

  /** No packet of a well-formed server ever raises, but for a statement that does not fit. */
  lemma OnlyAFullRegistryEndsARun(world: World, session: State, events: seq<Event>)
    requires IsPlainProtocol(world.caps) && IsNew(session) && Run(world, Start(session), events).Some?
    ensures var ended := Run(world, Start(session), events).value.ended;
      ended == None || ended == Some(RegistryFull) || ended == Some(StateTooLarge)
  {
    StartIsInvariant(world, session);
    RunKeeps(world, Start(session), events);
  }

  // ---------------------------------------------------------------------------
  // One command at a time
  // ---------------------------------------------------------------------------

  /** How many commands in the inbox are owed an answer. */
  ghost function AwaitingAnswer(inbox: seq<Parcel>): nat {
    if inbox == [] then 0 else (if OwedTag(inbox[0].message) != NoTag then 1 else 0) + AwaitingAnswer(inbox[1..])
  }

  lemma {:induction false} QuitsAwaitNothing(inbox: seq<Parcel>)
    requires AllQuits(inbox)
    ensures AwaitingAnswer(inbox) == 0
  {
    if inbox != [] {
      assert CodeOf(inbox[0].message) == COM_QUIT;
      QuitsAwaitNothing(inbox[1..]);
    }
  }

  lemma {:induction false} AtMostOneAwaits(inbox: seq<Parcel>)
    requires IsOrderly(inbox)
    ensures AwaitingAnswer(inbox) == if Outstanding(inbox).Some? then 1 else 0
    ensures Outstanding(inbox).Some? ==> OwedTag(Outstanding(inbox).value.message) != NoTag
  {
    if inbox != [] {
      if OwedTag(inbox[0].message) == NoTag {
        AtMostOneAwaits(inbox[1..]);
      } else {
        QuitsAwaitNothing(inbox[1..]);
      }
    }
  }

  /**
   At most one command awaits its answer, the session has exactly that operation pending,
   and whatever order the router tests in, it takes the next packet for that answer.
   */
  lemma OneCommandAtATime(world: World, sys: System)
    requires IsPlainProtocol(world.caps) && IsReached(world, sys)
    ensures AwaitingAnswer(sys.server.inbox) + (if sys.server.owed == NoDebt then 0 else 1)
         == if HasPending(sys.session) then 1 else 0
    ensures forall tag :: Only(sys.session, tag) <==> tag == ExpectedTag(sys.server)
    ensures forall payload ::
      Route(sys.session, payload, world.caps) == RouteAs(ExpectedTag(sys.server), sys.session, payload, world.caps)
  {
    ReachedIsInvariant(world, sys);
    AtMostOneAwaits(sys.server.inbox);
    if sys.server.owed != NoDebt {
      QuitsAwaitNothing(sys.server.inbox);
    }
  }

  /** The packets still to come for the command that is being answered. */
  ghost function PacketsOwed(world: World, owed: Owed): nat
    requires IsOwed(world, owed)
  {
    match owed
    case NoDebt => 0
    case PrepareSuccess(ok, _, _) => 1 + |MetadataKinds(ok.parameterCount, ok.columnCount, DeprecateEof(world.caps))|
    case PrepareMetadata(_, kinds, _) => |kinds|
    case Response(remaining) => |PacketsLeft(remaining, world.caps)|
    case _ => 1
  }

  lemma SendingPaysOnePacket(world: World, owed: Owed)
    requires IsOwed(world, owed) && owed != NoDebt
    ensures IsOwed(world, OwedAfterSend(world, owed))
    ensures PacketsOwed(world, OwedAfterSend(world, owed)) == PacketsOwed(world, owed) - 1
    ensures OwedAfterSend(world, owed) == NoDebt <==> PacketsOwed(world, owed) == 1
  {
    OwedAfterSendIsOwed(world, owed);
    if owed.Response? {
      AdvanceTakesNext(owed.remaining, world.caps);
      if !Advance(owed.remaining, world.caps).Over? {
        AdvanceTakesNext(Advance(owed.remaining, world.caps), world.caps);
      }
    }
  }

  lemma PendingWhileOwed(world: World, s: State, server: Server)
    requires IsCorrelated(world, s, server) && AllQuits(server.inbox)
    ensures HasPending(s) <==> server.owed != NoDebt
  {
    QuitsOweNothing(server.inbox);
  }

  lemma SentStays(world: World, sys: System)
    requires IsInvariant(world, sys) && IsSending(world, sys) && sys.ended.None? && SendStep(world, sys).ended.None?
    ensures IsCorrelated(world, SendStep(world, sys).session, AfterSend(world, sys.server))
  {
    SendKeeps(world, sys);
  }

  /** A command stays pending until the last packet of its answer, and not beyond. */
  lemma LastPacketClears(world: World, sys: System)
    requires IsPlainProtocol(world.caps) && IsReached(world, sys) && IsEnabled(world, sys, ServerSends)
    requires Next(world, sys, ServerSends).ended.None?
    ensures HasPending(sys.session)
    ensures HasPending(Next(world, sys, ServerSends).session) <==> PacketsOwed(world, sys.server.owed) > 1
  {
    ReachedIsInvariant(world, sys);
    PendingWhileOwed(world, sys.session, sys.server);
    SentStays(world, sys);
    PendingWhileOwed(world, SendStep(world, sys).session, AfterSend(world, sys.server));
    SendingPaysOnePacket(world, sys.server.owed);
  }

  /** A successful prepare takes its own packet, one per definition, and one EOF for each group that has any. */
  lemma PrepareTakesExactly(world: World, ok: PrepareOk, rest: Bytes, metadata: seq<Bytes>)
    requires IsOwed(world, PrepareSuccess(ok, rest, metadata))
    ensures var eofs :=
        if DeprecateEof(world.caps) then 0
        else (if ok.parameterCount > 0 then 1 else 0) + (if ok.columnCount > 0 then 1 else 0);
      PacketsOwed(world, PrepareSuccess(ok, rest, metadata)) == 1 + ok.parameterCount + ok.columnCount + eofs
  {
  }

  // ---------------------------------------------------------------------------
  // No deadlock
  // ---------------------------------------------------------------------------

  /** A choice the server always has. */
  ghost function SomeChoice(m: LogicalMessage): Choice {
    match OwedTag(m)
    case CommandTag => Respond([ErrReply([])])
    case PrepareTag => RejectPrepare([])
    case _ => Acknowledge(ErrAnswer([]))
  }

  lemma SomeChoiceIsOpen(world: World, server: Server, m: LogicalMessage)
    ensures MayChoose(world, server, m, SomeChoice(m))
  {
  }

  /** While a command is pending or a pipelined execution waits, some event other than the client's can happen. */
  lemma NothingWaitsForever(world: World, sys: System, policy: Policy)
    requires IsPlainProtocol(world.caps) && IsReached(world, sys) && !policy.mode.Permissive?
    requires HasPending(sys.session) || sys.waiting.Some?
    ensures exists e: Event :: !e.ClientSends? && IsEnabled(world, sys, e)
  {
    ReachedIsInvariant(world, sys);
    if sys.server.owed != NoDebt {
      assert IsEnabled(world, sys, ServerSends);
    } else if HasPending(sys.session) {
      var choice := SomeChoice(sys.server.inbox[0].message);
      SomeChoiceIsOpen(world, sys.server, sys.server.inbox[0].message);
      assert IsEnabled(world, sys, ServerTakes(choice));
    } else {
      assert IsEnabled(world, sys, WaitEnds(policy));
    }
  }

  // ---------------------------------------------------------------------------
  // The inspected SQL is the SQL that runs
  // ---------------------------------------------------------------------------

  /** The template the server takes an execution to be about, if it has that statement. */
  ghost function TemplateRun(server: Server, m: LogicalMessage): Option<string> {
    var e := ParseStmtExecute(BodyOf(m));
    if e.None? then None
    else
      var target := Resolve(server.last, e.value.statementId);
      if target.None? || target.value !in server.live then None else Some(server.live[target.value])
  }

  /** When the server takes an execution, what it runs is the template that was inspected. */
  lemma ServerRunsWhatWasInspected(world: World, sys: System)
    requires IsPlainProtocol(world.caps) && IsReached(world, sys)
    requires sys.server.inbox != [] && CodeOf(sys.server.inbox[0].message) == COM_STMT_EXECUTE
    ensures var parcel := sys.server.inbox[0];
      var template := TemplateRun(sys.server, parcel.message);
      parcel.inspected.Execution? && (template.Some? ==> Strip(template.value) == parcel.inspected.template)
  {
    ReachedIsInvariant(world, sys);
    assert WillRunInspected(sys.server.live, sys.server.last, sys.server.inbox[0]);
  }

  /** The policy saw the text of a query, or a template with the literals sent for it, and approved. */
  ghost predicate IsApproved(parcel: Parcel) {
    var code, body := CodeOf(parcel.message), BodyOf(parcel.message);
    && (code == COM_QUERY ==>
          TextOf(body).Some? && parcel.inspected == Query(TextOf(body).value)
            && parcel.policy.approve(TextOf(body).value))
    && (code == COM_STMT_EXECUTE ==>
          && parcel.inspected.Execution? && ParseStmtExecute(body).Some?
          && AreSentLiterals(parcel.policy, ParseStmtExecute(body).value, parcel.inspected.literals)
          && var sql := Scanner.Fill(parcel.inspected.template, Scanner.Sql, parcel.inspected.literals);
             sql.Some? && parcel.policy.approve(sql.value) && !parcel.policy.unparseable(sql.value))
  }

  /** The literals are what an execution's payload decodes to, under some number of parameters and cached types. */
  ghost predicate AreSentLiterals(policy: Policy, e: StmtExecute, literals: seq<string>) {
    exists count, previous ::
      Decode(policy.floatText, e, count, previous).Some?
        && Literals(Decode(policy.floatText, e, count, previous).value.parameters) == literals
  }

  lemma ForwardedExecuteIsApproved(s: State, m: LogicalMessage, e: StmtExecute, found: Found, policy: Policy)
    requires !policy.mode.Permissive? && ParseStmtExecute(BodyOf(m)) == Some(e)
    requires CodeOf(m) == COM_STMT_EXECUTE && IsForward(ExecuteFound(s, m, e, found, policy), m)
    ensures IsApproved(Parcel(m, ExecuteFound(s, m, e, found, policy).inspected, policy))
  {
    var d := ExecuteForwards(s, m, e, found.statement, policy);
    assert Decode(policy.floatText, e, found.statement.parameterCount, found.statement.parameterTypes) == Some(d);
  }

  lemma DispatchedIsApproved(s: State, m: LogicalMessage, policy: Policy)
    requires !policy.mode.Permissive? && IsForward(Dispatch.Dispatch(s, m, policy), m)
    ensures IsApproved(Parcel(m, Dispatch.Dispatch(s, m, policy).inspected, policy))
  {
    if CodeOf(m) == COM_STMT_EXECUTE {
      var e := ParseStmtExecute(BodyOf(m)).value;
      var found :| Dispatch.Dispatch(s, m, policy) == ExecuteFound(s, m, e, found, policy);
      ForwardedExecuteIsApproved(s, m, e, found, policy);
    }
  }

  lemma ResumedIsApproved(s: State, m: LogicalMessage, policy: Policy)
    requires !policy.mode.Permissive? && CodeOf(m) == COM_STMT_EXECUTE && IsForward(ResumeExecute(s, m, policy), m)
    ensures IsApproved(Parcel(m, ResumeExecute(s, m, policy).inspected, policy))
  {
    ForwardedExecuteIsApproved(s, m, ParseStmtExecute(BodyOf(m)).value, PreparedAfterWait(s), policy);
  }

  ghost predicate AreApproved(inbox: seq<Parcel>) {
    forall i :: 0 <= i < |inbox| ==> IsApproved(inbox[i])
  }

  /** A command that is let through joins the inbox approved. */
  lemma ForwardedIsApproved(sys: System, m: LogicalMessage, policy: Policy, effect: Effect)
    requires AreApproved(sys.server.inbox) && (effect.Wait? || IsAllOrNothing(effect, sys.session, m))
    requires IsForward(effect, m) ==> IsApproved(Parcel(m, effect.inspected, policy))
    ensures AreApproved(Apply(sys, m, policy, effect).server.inbox)
  {
  }

  lemma ClientKeepsApproval(world: World, sys: System, m: LogicalMessage, policy: Policy)
    requires IsInvariant(world, sys) && IsEnabled(world, sys, ClientSends(m, policy)) && AreApproved(sys.server.inbox)
    ensures AreApproved(Next(world, sys, ClientSends(m, policy)).server.inbox)
  {
    var effect := Dispatch.Dispatch(sys.session, m, policy);
    DispatchIsAllOrNothing(sys.session, m, policy);
    if IsForward(effect, m) {
      DispatchedIsApproved(sys.session, m, policy);
    }
    ForwardedIsApproved(sys, m, policy, effect);
  }

  lemma WaitEndKeepsApproval(world: World, sys: System, policy: Policy)
    requires IsInvariant(world, sys) && IsEnabled(world, sys, WaitEnds(policy)) && AreApproved(sys.server.inbox)
    ensures AreApproved(Next(world, sys, WaitEnds(policy)).server.inbox)
  {
    var m := sys.waiting.value;
    var effect := ResumeExecute(sys.session, m, policy);
    ResumeIsAllOrNothing(sys.session, m, policy);
    if IsForward(effect, m) {
      ResumedIsApproved(sys.session, m, policy);
    }
    ForwardedIsApproved(sys, m, policy, effect);
  }

  lemma TakenKeepsApproval(world: World, sys: System, choice: Choice)
    requires sys.server.inbox != [] && AreApproved(sys.server.inbox)
    ensures AreApproved(TakeFirst(world, sys.server, choice).inbox)
  {
    assert TakeFirst(world, sys.server, choice).inbox == sys.server.inbox[1..];
  }

  lemma EventKeepsApproval(world: World, sys: System, e: Event)
    requires IsInvariant(world, sys) && IsEnabled(world, sys, e) && AreApproved(sys.server.inbox)
    ensures AreApproved(Next(world, sys, e).server.inbox)
  {
    match e {
      case ClientSends(m, policy) => ClientKeepsApproval(world, sys, m, policy);
      case WaitEnds(policy) => WaitEndKeepsApproval(world, sys, policy);
      case ServerTakes(choice) => TakenKeepsApproval(world, sys, choice);
      case ServerSends =>
    }
  }

  lemma {:induction false} RunKeepsApproval(world: World, sys: System, events: seq<Event>)
    requires IsPlainProtocol(world.caps) && sys.ended.None? && IsInvariant(world, sys) && AreApproved(sys.server.inbox)
    requires Run(world, sys, events).Some? && Run(world, sys, events).value.ended.None?
    ensures AreApproved(Run(world, sys, events).value.server.inbox)
    decreases |events|
  {
    if events != [] {
      var next := Next(world, sys, events[0]);
      EventKeeps(world, sys, events[0]);
      EventKeepsApproval(world, sys, events[0]);
      if next.ended.None? {
        RunKeepsApproval(world, next, events[1..]);
      }
    }
  }

  lemma ReachedIsApproved(world: World, sys: System)
    requires IsPlainProtocol(world.caps) && IsReached(world, sys)
    ensures AreApproved(sys.server.inbox)
  {
    var session, events :| IsNew(session) && Run(world, Start(session), events) == Some(sys);
    StartIsInvariant(world, session);
    RunKeepsApproval(world, Start(session), events);
  }

  lemma SentLiteralsAreStable(policy: Policy, e: StmtExecute, template: string, literals: seq<string>)
    requires AreSentLiterals(policy, e, literals) && PrintsNumbers(policy.floatText)
    requires Scanner.Fill(template, Scanner.Sql, literals).Some?
    ensures var sql := Scanner.Fill(template, Scanner.Sql, literals).value;
      Scanner.Fill(sql, Scanner.Sql, []) == Some(sql)
  {
    var count, previous :|
      Decode(policy.floatText, e, count, previous).Some?
        && Literals(Decode(policy.floatText, e, count, previous).value.parameters) == literals;
    InspectedSqlIsStable(policy.floatText, e, count, previous, template);
  }

  /** When the server takes a query, the policy approved its text; module Bindings says it for an execution. */
  lemma ServerRunsApprovedQuery(world: World, sys: System)
    requires IsPlainProtocol(world.caps) && IsReached(world, sys)
    requires sys.server.inbox != [] && CodeOf(sys.server.inbox[0].message) == COM_QUERY
    ensures var sql := TextOf(BodyOf(sys.server.inbox[0].message));
      sql.Some? && sys.server.inbox[0].policy.approve(sql.value)
  {
    ReachedIsApproved(world, sys);
    assert IsApproved(sys.server.inbox[0]);
  }

  // ---------------------------------------------------------------------------
  // The registry is the server's
  // ---------------------------------------------------------------------------

  ghost predicate ClosesLast(m: LogicalMessage) {
    IsClose(m) && ClosedId(m) == MARIADB_STMT_ID_LAST
  }

  ghost predicate SendsNoLastClose(events: seq<Event>) {
    forall i :: 0 <= i < |events| && events[i].ClientSends? ==> !ClosesLast(events[i].message)
  }

  ghost predicate HoldsNoLastClose(sys: System) {
    && (forall i :: 0 <= i < |sys.server.inbox| ==> !ClosesLast(sys.server.inbox[i].message))
    && (sys.waiting.Some? ==> !ClosesLast(sys.waiting.value))
  }

  /** Without such a close, a server that honours it and one that does not act alike. */
  lemma SameStep(world: World, sys: System, e: Event)
    requires HoldsNoLastClose(sys) && IsEnabled(world, sys, e)
    ensures var other := world.(closesLast := false);
      IsEnabled(other, sys, e) && Next(other, sys, e) == Next(world, sys, e)
  {
    assert sys.server.inbox != [] ==> !ClosesLast(sys.server.inbox[0].message);
  }

  lemma AppliedHoldsNoLastClose(sys: System, m: LogicalMessage, policy: Policy, effect: Effect)
    requires HoldsNoLastClose(sys) && !ClosesLast(m)
    ensures HoldsNoLastClose(Apply(sys, m, policy, effect))
  {
  }

  lemma TakenHoldsNoLastClose(world: World, sys: System, choice: Choice)
    requires HoldsNoLastClose(sys) && sys.server.inbox != []
    ensures HoldsNoLastClose(sys.(server := TakeFirst(world, sys.server, choice)))
  {
    assert TakeFirst(world, sys.server, choice).inbox == sys.server.inbox[1..];
  }

  lemma StillNoLastClose(world: World, sys: System, e: Event)
    requires HoldsNoLastClose(sys) && IsEnabled(world, sys, e) && (e.ClientSends? ==> !ClosesLast(e.message))
    ensures HoldsNoLastClose(Next(world, sys, e))
  {
    match e {
      case ClientSends(m, policy) => AppliedHoldsNoLastClose(sys, m, policy, Dispatch.Dispatch(sys.session, m, policy));
      case WaitEnds(policy) =>
        AppliedHoldsNoLastClose(sys, sys.waiting.value, policy, ResumeExecute(sys.session, sys.waiting.value, policy));
      case ServerTakes(choice) => TakenHoldsNoLastClose(world, sys, choice);
      case ServerSends =>
    }
  }

  lemma {:induction false} SameRun(world: World, sys: System, events: seq<Event>)
    requires HoldsNoLastClose(sys) && SendsNoLastClose(events)
    requires Run(world, sys, events).Some?
    ensures Run(world.(closesLast := false), sys, events) == Run(world, sys, events)
    decreases |events|
  {
    if events != [] {
      SameStep(world, sys, events[0]);
      StillNoLastClose(world, sys, events[0]);
      SameRun(world, Next(world, sys, events[0]), events[1..]);
    }
  }

  /**
   Every statement in the proxy's registry is live at the server with the SQL the client sent,
   and the last one prepared is the server's last one, as long as no COM_STMT_CLOSE of
   0xFFFFFFFF reaches a server that closes its last statement for it.
   */
  lemma RegistryIsTheServers(world: World, session: State, events: seq<Event>)
    requires IsPlainProtocol(world.caps) && (world.closesLast ==> SendsNoLastClose(events))
    requires IsNew(session) && Run(world, Start(session), events).Some?
    requires Run(world, Start(session), events).value.ended.None?
    ensures var sys := Run(world, Start(session), events).value;
      var registry, live := sys.session.registry, sys.server.live;
      && (forall id :: id in registry.statements ==> id in live && registry.statements[id].sql == Strip(live[id]))
      && (registry.last.Some? ==> registry.last.value in registry.statements)
      && (registry.last.Some? && sys.session.prepare.sql.None? ==> sys.server.last == registry.last)
  {
    var start := Start(session);
    if world.closesLast {
      SameRun(world, start, events);
    }
    var plain := world.(closesLast := false);
    StartIsInvariant(plain, session);
    RunKeeps(plain, start, events);
    RegistryAgrees(plain, Run(plain, start, events).value);
  }

  lemma RegistryAgrees(world: World, sys: System)
    requires !world.closesLast && IsInvariant(world, sys)
    ensures var registry, live := sys.session.registry, sys.server.live;
      && (forall id :: id in registry.statements ==> id in live && registry.statements[id].sql == Strip(live[id]))
      && (registry.last.Some? ==> registry.last.value in registry.statements)
      && (registry.last.Some? && sys.session.prepare.sql.None? ==> sys.server.last == registry.last)
  {
  }
}
