/**
 Exactly when the proxy's registry comes to name a statement the server no longer has: only
 when the server closes its last statement for a close of 0xFFFFFFFF, which the proxy does not resolve.
 */
module LiveRegistry {
  import opened Session
  import opened Routing
  import opened Dispatch
  import opened Assembler
  import opened ProxyRuns
  import opened RunTheorems
  import opened Bindings

  ghost predicate IsLive(sys: System) {
    sys.session.registry.statements.Keys <= sys.server.live.Keys
  }

  /** The server is about to close its last statement, which the proxy still has, for a close of 0xFFFFFFFF. */
  ghost predicate ClosesListedLast(world: World, sys: System, e: Event) {
    && e.ServerTakes? && world.closesLast && sys.server.inbox != [] && ClosesLast(sys.server.inbox[0].message)
    && sys.server.last.Some? && sys.server.last.value in sys.session.registry.statements
  }

  lemma AppliedKeepsLive(sys: System, m: LogicalMessage, policy: Policy, effect: Effect)
    requires IsLive(sys) && !effect.Crash?
    requires effect.Effect? ==> effect.next.registry.statements.Keys <= sys.session.registry.statements.Keys
    ensures IsLive(Apply(sys, m, policy, effect))
  {
  }

  lemma ClientListsNoMore(world: World, sys: System, m: LogicalMessage, policy: Policy)
    requires IsInvariant(world, sys) && !policy.mode.Permissive?
    ensures var effect := Dispatch.Dispatch(sys.session, m, policy);
      !effect.Crash?
        && (effect.Effect? ==> effect.next.registry.statements.Keys <= sys.session.registry.statements.Keys)
  {
    var s, effect := sys.session, Dispatch.Dispatch(sys.session, m, policy);
    DispatchIsAllOrNothing(s, m, policy);
    if IsForward(effect, m) {
      ForwardedIsKnown(s, m, policy);
      if CodeOf(m) == COM_STMT_EXECUTE {
        DispatchedExecute(s, m, policy);
        ExecuteListsNoMore(world, sys, m, policy);
      } else if OwedTag(m) != NoTag {
        CommandHasBegun(s, m, policy);
      }
    }
  }

  lemma ExecuteListsNoMore(world: World, sys: System, m: LogicalMessage, policy: Policy)
    requires IsInvariant(world, sys) && !HasPending(sys.session) && !policy.mode.Permissive?
    requires CodeOf(m) == COM_STMT_EXECUTE && ParseStmtExecute(BodyOf(m)).Some? && Executed(sys.session, m).Statement?
    requires IsForward(ExecuteStatement(sys.session, m, ParseStmtExecute(BodyOf(m)).value,
                                        Executed(sys.session, m).statement, policy), m)
    ensures var effect := ExecuteStatement(sys.session, m, ParseStmtExecute(BodyOf(m)).value,
                                           Executed(sys.session, m).statement, policy);
      effect.next.registry.statements.Keys <= sys.session.registry.statements.Keys
  {
    ExecuteHasBegun(sys.session, m, ParseStmtExecute(BodyOf(m)).value, Executed(sys.session, m).statement, policy);
  }

  lemma ResumedListsNoMore(world: World, sys: System, policy: Policy)
    requires IsInvariant(world, sys) && IsEnabled(world, sys, WaitEnds(policy))
    ensures var effect := ResumeExecute(sys.session, sys.waiting.value, policy);
      !effect.Crash?
        && (effect.Effect? ==> effect.next.registry.statements.Keys <= sys.session.registry.statements.Keys)
  {
    var m := sys.waiting.value;
    ResumeIsAllOrNothing(sys.session, m, policy);
    if IsForward(ResumeExecute(sys.session, m, policy), m) {
      ResumedExecute(sys.session, m, policy);
      ExecuteListsNoMore(world, sys, m, policy);
    }
  }

  /** What one close leaves at the server. */
  lemma ClosedKeepsLive(world: World, statements: Statements, server: Server, id: nat)
    requires statements.Keys <= server.live.Keys && id !in statements
    ensures statements.Keys <= CloseAtServer(world, server, id).live.Keys
       <==> !(world.closesLast && id == MARIADB_STMT_ID_LAST && server.last.Some? && server.last.value in statements)
  {
  }

  lemma TakenKeepsListedLive(world: World, statements: Statements, server: Server, choice: Choice)
    requires server.inbox != [] && statements.Keys <= server.live.Keys
    requires IsClose(server.inbox[0].message) ==> ClosedId(server.inbox[0].message) !in statements
    ensures statements.Keys <= TakeFirst(world, server, choice).live.Keys
       <==> !(world.closesLast && ClosesLast(server.inbox[0].message) && server.last.Some?
              && server.last.value in statements)
  {
    var m := server.inbox[0].message;
    if IsClose(m) {
      ClosedKeepsLive(world, statements, server.(inbox := server.inbox[1..]), ClosedId(m));
    } else {
      TakenOtherKeepsLive(world, server, choice);
    }
  }

  lemma TakenOtherKeepsLive(world: World, server: Server, choice: Choice)
    requires server.inbox != [] && !IsClose(server.inbox[0].message)
    ensures server.live.Keys <= TakeFirst(world, server, choice).live.Keys
  {
  }

  lemma FirstCloseIsUnlisted(world: World, sys: System)
    requires IsInvariant(world, sys) && sys.server.inbox != [] && IsClose(sys.server.inbox[0].message)
    ensures ClosedId(sys.server.inbox[0].message) !in sys.session.registry.statements
  {
  }

  /** Exactly which event makes the registry name a statement the server no longer has. */
  lemma EventKeepsRegistryLive(world: World, sys: System, e: Event)
    requires IsPlainProtocol(world.caps) && IsInvariant(world, sys) && IsEnabled(world, sys, e) && IsLive(sys)
    requires Next(world, sys, e).ended.None?
    ensures IsLive(Next(world, sys, e)) <==> !ClosesListedLast(world, sys, e)
  {
    match e {
      case ServerTakes(choice) =>
        if IsClose(sys.server.inbox[0].message) {
          FirstCloseIsUnlisted(world, sys);
        }
        TakenKeepsListedLive(world, sys.session.registry.statements, sys.server, choice);
      case ServerSends => SentKeepsLive(world, sys);
      case ClientSends(m, policy) =>
        ClientListsNoMore(world, sys, m, policy);
        AppliedKeepsLive(sys, m, policy, Dispatch.Dispatch(sys.session, m, policy));
      case WaitEnds(policy) =>
        ResumedListsNoMore(world, sys, policy);
        AppliedKeepsLive(sys, sys.waiting.value, policy, ResumeExecute(sys.session, sys.waiting.value, policy));
    }
  }

  lemma SentKeepsLive(world: World, sys: System)
    requires IsInvariant(world, sys) && IsSending(world, sys) && IsLive(sys) && SendStep(world, sys).ended.None?
    requires sys.ended.None?
    ensures IsLive(SendStep(world, sys))
  {
    RoutedHasNoMore(world, sys, SendStep(world, sys).session);
  }

  ghost predicate NeverClosesListedLast(world: World, sys: System, events: seq<Event>)
    requires Run(world, sys, events).Some?
    decreases |events|
  {
    events == []
    || (!ClosesListedLast(world, sys, events[0])
        && NeverClosesListedLast(world, Next(world, sys, events[0]), events[1..]))
  }

  /**
   Without such an event every statement the proxy lists is live, over every run, whatever the server does with
   0xFFFFFFFF.
   */
  lemma {:induction false} RunKeepsRegistryLive(world: World, sys: System, events: seq<Event>)
    requires IsPlainProtocol(world.caps) && IsInvariant(world, sys) && IsLive(sys) && sys.ended.None?
    requires Run(world, sys, events).Some? && Run(world, sys, events).value.ended.None?
    requires NeverClosesListedLast(world, sys, events)
    ensures IsLive(Run(world, sys, events).value)
    decreases |events|
  {
    if events != [] {
      var next := Next(world, sys, events[0]);
      EventKeeps(world, sys, events[0]);
      if next.ended.None? {
        EventKeepsRegistryLive(world, sys, events[0]);
        RunKeepsRegistryLive(world, next, events[1..]);
      }
    }
  }
}
