/**
 A run in which the registry comes to name a statement the server no longer has: a prepare,
 then a COM_STMT_CLOSE of 0xFFFFFFFF, to a server that closes its last statement for it.
 */
module LastCloseRun {
  import opened Wire
  import opened Responses
  import opened Session
  import opened Routing
  import opened Dispatch
  import opened Assembler
  import opened ProxyRuns
  import MapSum
  import Utf8

  const WORLD := World(CLIENT_PROTOCOL_41, true)
  const PREPARE_A: LogicalMessage := LogicalMessage(0, 0, [COM_STMT_PREPARE, 0x61], [], 1)
  const CLOSE_LAST: LogicalMessage := LogicalMessage(0, 0, [COM_STMT_CLOSE, 0xFF, 0xFF, 0xFF, 0xFF], [], 1)
  const STATEMENT := Prepared(1, "a", 0, 0, None, {})
  const BINDING := Binding(0, None)
  const ANSWER := PrepareOk(1, 0, 0, 0)
  const ACCEPTED := AcceptPrepare(ANSWER, [], [])

  ghost const FRESH := Start(Fresh("", 1, 1))

  lemma RunCons(world: World, sys: System, e: Event, events: seq<Event>)
    requires IsEnabled(world, sys, e)
    ensures Run(world, sys, [e] + events) == Run(world, Next(world, sys, e), events)
  {
    assert ([e] + events)[1..] == events;
  }

  ghost function Preparing(): State {
    FRESH.session.(prepare := Prepare(Some("a"), Some(false), None, 0, [], false))
  }

  ghost function PreparedState(): State {
    FRESH.session.(
      registry := Registry(1, 1, map[1 := STATEMENT], Some(1)),
      prepare := Prepare(None, Some(true), None, 0, [], false))
  }

  // The run: the prepare is sent, taken and answered, then the close is sent and taken.

  ghost function PrepareSent(policy: Policy): System {
    System(Preparing(), None, Server(map[], map[], None, [Parcel(PREPARE_A, Nothing, policy)], NoDebt), None)
  }

  ghost function PrepareTaken(): System {
    System(Preparing(), None,
           Server(map[1 := "a"], map[1 := BINDING], Some(1), [], PrepareSuccess(ANSWER, [], [])), None)
  }

  ghost function PrepareAnswered(): System {
    System(PreparedState(), None, Server(map[1 := "a"], map[1 := BINDING], Some(1), [], NoDebt), None)
  }

  ghost function CloseSent(policy: Policy): System {
    var parcel := Parcel(CLOSE_LAST, Nothing, policy);
    System(PreparedState(), None, Server(map[1 := "a"], map[1 := BINDING], Some(1), [parcel], NoDebt), None)
  }

  ghost function CloseTaken(): System {
    System(PreparedState(), None, Server(map[], map[], None, [], NoDebt), None)
  }

  lemma TextOfA()
    ensures TextOf([0x61]) == Some("a") && Utf8.Encode("a") == [0x61] && Strip("a") == "a"
  {
    Utf8.DecodeEncode("a");
  }

  lemma PrepareIsForwarded(policy: Policy)
    requires !policy.mode.Permissive?
    ensures IsEnabled(WORLD, FRESH, ClientSends(PREPARE_A, policy))
    ensures Next(WORLD, FRESH, ClientSends(PREPARE_A, policy)) == PrepareSent(policy)
  {
    assert PREPARE_A.payload[1..] == [0x61];
    TextOfA();
  }

  lemma PrepareIsTaken(policy: Policy)
    ensures IsEnabled(WORLD, PrepareSent(policy), ServerTakes(ACCEPTED))
    ensures Next(WORLD, PrepareSent(policy), ServerTakes(ACCEPTED)) == PrepareTaken()
  {
    assert PREPARE_A.payload[1..] == [0x61];
    TextOfA();
    var none: map<nat, string> := map[];
    assert none[1 := "a"] == map[1 := "a"];
  }

  lemma FirstStatementFits()
    ensures CapacityError(FRESH.session.registry, 1, "a").None?
  {
    var none: Statements := map[];
    assert none - {1} == none;
    MapSum.TotalOfNone(SqlWeight);
    TextOfA();
  }

  lemma AnnouncedIsPrepared()
    ensures Announced(Preparing(), ANSWER, WORLD.caps) == PreparedState()
  {
    var none: Statements := map[];
    assert none[1 := STATEMENT] == map[1 := STATEMENT];
  }

  lemma SendRoutes(world: World, sys: System, next: State)
    requires sys.ended.None? && sys.server.owed != NoDebt && IsOwed(world, sys.server.owed)
    requires Route(sys.session, PacketToSend(world, sys.server.owed), world.caps) == Routed(next)
    ensures IsEnabled(world, sys, ServerSends)
    ensures Next(world, sys, ServerSends)
         == sys.(session := next, server := sys.server.(owed := OwedAfterSend(world, sys.server.owed)))
  {
  }

  lemma AnswerIsOwed()
    ensures IsOwed(WORLD, PrepareSuccess(ANSWER, [], []))
    ensures OwedAfterSend(WORLD, PrepareSuccess(ANSWER, [], [])) == NoDebt
  {
  }

  lemma PrepareIsAnswered()
    ensures IsEnabled(WORLD, PrepareTaken(), ServerSends)
    ensures Next(WORLD, PrepareTaken(), ServerSends) == PrepareAnswered()
  {
    AnswerIsOwed();
    FirstStatementFits();
    AnnouncedIsPrepared();
    PrepareOkIsAnnounced(Preparing(), ANSWER, [], WORLD.caps);
    SendRoutes(WORLD, PrepareTaken(), PreparedState());
  }

  lemma CloseIsForwarded(policy: Policy)
    requires !policy.mode.Permissive?
    ensures IsEnabled(WORLD, PrepareAnswered(), ClientSends(CLOSE_LAST, policy))
    ensures Next(WORLD, PrepareAnswered(), ClientSends(CLOSE_LAST, policy)) == CloseSent(policy)
  {
    LastIdBytes();
    assert PreparedState().registry.statements - {MARIADB_STMT_ID_LAST} == PreparedState().registry.statements;
  }

  lemma LastIdBytes()
    ensures CLOSE_LAST.payload[1..][..4] == [0xFF, 0xFF, 0xFF, 0xFF]
    ensures FromLE([0xFF, 0xFF, 0xFF, 0xFF]) == MARIADB_STMT_ID_LAST
  {
    var b: Bytes := [0xFF, 0xFF, 0xFF, 0xFF];
    assert FromLE(b[3..]) == 0xFF;
    assert FromLE(b[2..]) == 0xFFFF;
    assert FromLE(b[1..]) == 0xFF_FFFF;
  }

  lemma CloseIsTaken(policy: Policy, choice: Choice)
    ensures IsEnabled(WORLD, CloseSent(policy), ServerTakes(choice))
    ensures Next(WORLD, CloseSent(policy), ServerTakes(choice)) == CloseTaken()
  {
    LastIdBytes();
    var live := map[1 := "a"];
    assert live - {1} == map[];
    assert CLOSE_LAST.payload[1..] == [0xFF, 0xFF, 0xFF, 0xFF];
  }

  /** The proxy still lists statement 1; the server has nothing left. */
  lemma RegistryCanOutliveItsStatement(policy: Policy) returns (events: seq<Event>)
    requires !policy.mode.Permissive?
    ensures var end := Run(WORLD, FRESH, events);
      && end.Some? && end.value.ended.None?
      && 1 in end.value.session.registry.statements && end.value.server.live == map[]
  {
    PrepareIsForwarded(policy);
    PrepareIsTaken(policy);
    PrepareIsAnswered();
    CloseIsForwarded(policy);
    CloseIsTaken(policy, ACCEPTED);
    var taken := [ServerTakes(ACCEPTED)] + [];
    var closed := [ClientSends(CLOSE_LAST, policy)] + taken;
    var answered := [ServerSends] + closed;
    var prepared := [ServerTakes(ACCEPTED)] + answered;
    RunCons(WORLD, CloseSent(policy), ServerTakes(ACCEPTED), []);
    RunCons(WORLD, PrepareAnswered(), ClientSends(CLOSE_LAST, policy), taken);
    RunCons(WORLD, PrepareTaken(), ServerSends, closed);
    RunCons(WORLD, PrepareSent(policy), ServerTakes(ACCEPTED), answered);
    RunCons(WORLD, FRESH, ClientSends(PREPARE_A, policy), prepared);
    events := [ClientSends(PREPARE_A, policy)] + prepared;
  }
}
