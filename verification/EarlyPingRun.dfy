/**
 A run in which a client gets its answers in the wrong order: it sends a ping behind a prepare without waiting for
 the answer, and the refusal of the ping comes first.
 */
module EarlyPingRun {
  import opened Wire
  import opened Dispatch
  import opened Assembler
  import opened ProxyRuns
  import opened Ledgers
  import opened AnswerOrder
  import opened LastCloseRun

  const PING: LogicalMessage := LogicalMessage(0, 0, [COM_PING], [], 1)

  lemma PingIsRefused(policy: Policy)
    requires !policy.mode.Permissive?
    ensures IsEnabled(WORLD, PrepareSent(policy), ClientSends(PING, policy))
    ensures Next(WORLD, PrepareSent(policy), ClientSends(PING, policy)) == PrepareSent(policy)
    ensures EntriesOfEvent(WORLD, PrepareSent(policy), ClientSends(PING, policy)) == [Refused]
  {
  }

  lemma EntriesCons(world: World, sys: System, e: Event, events: seq<Event>)
    requires IsEnabled(world, sys, e) && Run(world, Next(world, sys, e), events).Some?
    ensures Run(world, sys, [e] + events) == Run(world, Next(world, sys, e), events)
    ensures EntriesOf(world, sys, [e] + events)
         == EntriesOfEvent(world, sys, e) + EntriesOf(world, Next(world, sys, e), events)
  {
    assert ([e] + events)[1..] == events;
  }

  lemma PrepareIsPassed(policy: Policy)
    requires !policy.mode.Permissive? && IsEnabled(WORLD, FRESH, ClientSends(PREPARE_A, policy))
    ensures EntriesOfEvent(WORLD, FRESH, ClientSends(PREPARE_A, policy)) == [Passed]
  {
    assert PREPARE_A.payload[1..] == [0x61];
    TextOfA();
  }

  /** The server takes the prepare and answers it. */
  lemma PrepareIsTold(policy: Policy)
    requires !policy.mode.Permissive?
    ensures var events := [ServerTakes(ACCEPTED)] + ([ServerSends] + []);
      && Run(WORLD, PrepareSent(policy), events) == Some(PrepareAnswered())
      && EntriesOf(WORLD, PrepareSent(policy), events) == [Told(true)]
  {
    PrepareIsTaken(policy);
    PrepareIsAnswered();
    AnswerIsOwed();
    EntriesCons(WORLD, PrepareTaken(), ServerSends, []);
    EntriesCons(WORLD, PrepareSent(policy), ServerTakes(ACCEPTED), [ServerSends] + []);
    assert EntriesOf(WORLD, PrepareAnswered(), []) == [] && [Told(true)] + [] == [Told(true)];
    assert [] + [Told(true)] == [Told(true)];
  }

  /** Message 1 is answered before message 0. */
  lemma RefusalOvertakesTheAnswer(policy: Policy) returns (events: seq<Event>)
    requires !policy.mode.Permissive?
    ensures Run(WORLD, FRESH, events) == Some(PrepareAnswered())
    ensures var entries := EntriesOf(WORLD, FRESH, events);
      MayBookAll(BLANK, entries) && BookAll(BLANK, entries) == Ledger(2, [], [1, 0])
  {
    PrepareIsForwarded(policy);
    PrepareIsPassed(policy);
    PingIsRefused(policy);
    PrepareIsTold(policy);
    var taken := [ServerTakes(ACCEPTED)] + ([ServerSends] + []);
    var pinged := [ClientSends(PING, policy)] + taken;
    EntriesCons(WORLD, PrepareSent(policy), ClientSends(PING, policy), taken);
    EntriesCons(WORLD, FRESH, ClientSends(PREPARE_A, policy), pinged);
    assert [Passed] + ([Refused] + [Told(true)]) == [Passed, Refused, Told(true)];
    BookThree();
    events := [ClientSends(PREPARE_A, policy)] + pinged;
  }

  lemma BookThree()
    ensures MayBookAll(BLANK, [Passed, Refused, Told(true)])
    ensures BookAll(BLANK, [Passed, Refused, Told(true)]) == Ledger(2, [], [1, 0])
  {
    var passed, refused := Ledger(1, [0], []), Ledger(2, [0], [1]);
    assert Book(BLANK, Passed) == passed && Book(passed, Refused) == refused;
    assert [Passed, Refused, Told(true)][1..] == [Refused, Told(true)] && [Refused, Told(true)][1..] == [Told(true)];
    assert BookAll(refused, [Told(true)]) == Ledger(2, [], [1, 0]);
  }
}
