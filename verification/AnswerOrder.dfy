/**
 In which order a MySQL client gets its answers. A command refused while the answer to an earlier one is on its way
 is answered at once, in front of that answer or in the middle of it.
 */
module AnswerOrder {
  import opened Session
  import opened Routing
  import opened Dispatch
  import opened Assembler
  import opened ProxyRuns
  import opened RunTheorems
  import opened Ledgers

  /** What a dispatched command is booked as; one that waits is booked when its wait ends. */
  ghost function EntriesOfEffect(m: LogicalMessage, effect: Effect): seq<Entry> {
    if !effect.Effect? then []
    else if effect.toClient != [] then [Refused]
    else if OwedTag(m) != NoTag then [Passed]
    else [Unanswered]
  }

  ghost function EntriesOfEvent(world: World, sys: System, e: Event): seq<Entry>
    requires IsEnabled(world, sys, e)
  {
    match e
    case ClientSends(m, policy) => EntriesOfEffect(m, Dispatch.Dispatch(sys.session, m, policy))
    case WaitEnds(policy) => EntriesOfEffect(sys.waiting.value, ResumeExecute(sys.session, sys.waiting.value, policy))
    case ServerTakes(_) => []
    case ServerSends => [Told(OwedAfterSend(world, sys.server.owed) == NoDebt)]
  }

  ghost function EntriesOf(world: World, sys: System, events: seq<Event>): seq<Entry>
    requires Run(world, sys, events).Some?
    decreases |events|
  {
    if events == [] then []
    else EntriesOfEvent(world, sys, events[0]) + EntriesOf(world, Next(world, sys, events[0]), events[1..])
  }

  /** The server owes the client something exactly while the session has something pending. */
  predicate IsBooked(s: State, l: Ledger) {
    IsLedger(l) && |l.owing| == if HasPending(s) then 1 else 0
  }

  // ---------------------------------------------------------------------------
  // One event
  // ---------------------------------------------------------------------------

  ghost predicate IsBookedBy(s: State, l: Ledger, entries: seq<Entry>) {
    || (entries == [] && IsBooked(s, l))
    || (|entries| == 1 && MayBook(l, entries[0]) && !entries[0].Silent? && IsBooked(s, Book(l, entries[0])))
  }

  lemma PendingIsExpected(world: World, sys: System)
    requires IsInvariant(world, sys)
    ensures HasPending(sys.session) <==> ExpectedTag(sys.server) != NoTag
  {
    OutstandingIsOwed(sys.server.inbox);
  }

  /** A command that goes to the server for an answer is the first to be pending; no other changes what is. */
  predicate IsPendingAs(s: State, next: State, tag: Tag) {
    if tag != NoTag then !HasPending(s) && HasPending(next) else HasPending(next) == HasPending(s)
  }

  lemma EffectIsBooked(s: State, next: State, m: LogicalMessage, effect: Effect, l: Ledger)
    requires IsBooked(s, l)
    requires effect.Wait? || IsRefusal(effect, s, m) ==> next == s
    requires IsForward(effect, m) ==> IsPendingAs(s, next, OwedTag(m))
    requires effect.Wait? || IsAllOrNothing(effect, s, m)
    ensures IsBookedBy(next, l, EntriesOfEffect(m, effect))
  {
  }

  lemma JoinedIsPending(world: World, sys: System, next: State, parcel: Parcel)
    requires IsInvariant(world, sys) && !HasPending(sys.session) && OwedTag(parcel.message) != NoTag
    requires IsInvariant(world, ProxyRuns.Joined(sys, next, parcel))
    ensures HasPending(next)
  {
    NothingPendingNothingOwed(world, sys.session, sys.server);
    AppendKeepsOrder(sys.server.inbox, parcel);
    PendingIsExpected(world, ProxyRuns.Joined(sys, next, parcel));
  }

  lemma ForwardIsPending(world: World, sys: System, m: LogicalMessage, policy: Policy)
    requires IsInvariant(world, sys) && !policy.mode.Permissive?
    requires IsForward(Dispatch.Dispatch(sys.session, m, policy), m)
    ensures IsPendingAs(sys.session, Dispatch.Dispatch(sys.session, m, policy).next, OwedTag(m))
  {
    var effect := Dispatch.Dispatch(sys.session, m, policy);
    ForwardedIsKnown(sys.session, m, policy);
    if OwedTag(m) != NoTag {
      ForwardKeeps(world, sys, m, policy);
      JoinedIsPending(world, sys, effect.next, Parcel(m, effect.inspected, policy));
    }
  }

  lemma ClientIsBooked(world: World, sys: System, m: LogicalMessage, policy: Policy, l: Ledger)
    requires IsInvariant(world, sys) && IsEnabled(world, sys, ClientSends(m, policy)) && IsBooked(sys.session, l)
    ensures IsBookedBy(Next(world, sys, ClientSends(m, policy)).session, l,
                       EntriesOfEvent(world, sys, ClientSends(m, policy)))
  {
    var effect := Dispatch.Dispatch(sys.session, m, policy);
    DispatchIsAllOrNothing(sys.session, m, policy);
    if IsForward(effect, m) {
      ForwardIsPending(world, sys, m, policy);
    }
    EffectIsBooked(sys.session, Next(world, sys, ClientSends(m, policy)).session, m, effect, l);
  }

  lemma ResumedIsPending(world: World, sys: System, m: LogicalMessage, policy: Policy)
    requires IsInvariant(world, sys) && !HasPending(sys.session) && !policy.mode.Permissive?
    requires CodeOf(m) == COM_STMT_EXECUTE && ParseStmtExecute(BodyOf(m)).Some?
    requires ParseStmtExecute(BodyOf(m)).value.statementId == MARIADB_STMT_ID_LAST
    requires IsForward(ResumeExecute(sys.session, m, policy), m)
    ensures HasPending(ResumeExecute(sys.session, m, policy).next)
  {
    var effect := ResumeExecute(sys.session, m, policy);
    ResumedExecute(sys.session, m, policy);
    ExecuteJoins(world, sys, m, policy);
    JoinedIsPending(world, sys, effect.next, Parcel(m, effect.inspected, policy));
  }

  lemma WaitEndIsBooked(world: World, sys: System, policy: Policy, l: Ledger)
    requires IsInvariant(world, sys) && IsEnabled(world, sys, WaitEnds(policy)) && IsBooked(sys.session, l)
    ensures l.owing == []
    ensures IsBookedBy(Next(world, sys, WaitEnds(policy)).session, l, EntriesOfEvent(world, sys, WaitEnds(policy)))
  {
    var m := sys.waiting.value;
    var effect := ResumeExecute(sys.session, m, policy);
    ResumeIsAllOrNothing(sys.session, m, policy);
    if IsForward(effect, m) {
      ResumedIsPending(world, sys, m, policy);
    }
    EffectIsBooked(sys.session, Next(world, sys, WaitEnds(policy)).session, m, effect, l);
  }

  lemma PacketIsBooked(s: State, next: State, last: bool, l: Ledger)
    requires IsBooked(s, l) && HasPending(s) && (HasPending(next) <==> !last)
    ensures IsBookedBy(next, l, [Told(last)])
  {
  }

  /** Sending leaves the session pending exactly until the server owes nothing. */
  lemma SendLeavesPending(world: World, sys: System)
    requires IsInvariant(world, sys) && IsEnabled(world, sys, ServerSends)
    requires IsInvariant(world, SendStep(world, sys)) && SendStep(world, sys).ended.None?
    ensures HasPending(sys.session)
    ensures HasPending(SendStep(world, sys).session) <==> OwedAfterSend(world, sys.server.owed) != NoDebt
  {
    PendingIsExpected(world, sys);
    PendingIsExpected(world, SendStep(world, sys));
    QuitsOweNothing(sys.server.inbox);
  }

  lemma SendIsBooked(world: World, sys: System, l: Ledger)
    requires IsPlainProtocol(world.caps) && IsInvariant(world, sys) && IsEnabled(world, sys, ServerSends)
    requires IsBooked(sys.session, l) && Next(world, sys, ServerSends).ended.None?
    ensures IsBookedBy(Next(world, sys, ServerSends).session, l, EntriesOfEvent(world, sys, ServerSends))
  {
    SendKeeps(world, sys);
    SendLeavesPending(world, sys);
    PacketIsBooked(sys.session, SendStep(world, sys).session, OwedAfterSend(world, sys.server.owed) == NoDebt, l);
  }

  lemma EventIsBooked(world: World, sys: System, e: Event, l: Ledger)
    requires IsPlainProtocol(world.caps) && IsInvariant(world, sys) && IsEnabled(world, sys, e)
    requires IsBooked(sys.session, l) && Next(world, sys, e).ended.None?
    ensures IsBookedBy(Next(world, sys, e).session, l, EntriesOfEvent(world, sys, e))
  {
    match e {
      case ClientSends(m, policy) => ClientIsBooked(world, sys, m, policy, l);
      case WaitEnds(policy) => WaitEndIsBooked(world, sys, policy, l);
      case ServerTakes(choice) =>
      case ServerSends => SendIsBooked(world, sys, l);
    }
  }

  // ---------------------------------------------------------------------------
  // Runs
  // ---------------------------------------------------------------------------

  lemma NotYetEnded(world: World, sys: System, events: seq<Event>)
    requires events != [] && Run(world, sys, events).Some? && Run(world, sys, events).value.ended.None?
    ensures IsEnabled(world, sys, events[0]) && Next(world, sys, events[0]).ended.None?
    ensures Run(world, Next(world, sys, events[0]), events[1..]) == Run(world, sys, events)
  {
    var next, rest := Next(world, sys, events[0]), events[1..];
    assert rest == [] || IsEnabled(world, next, rest[0]);
  }

  lemma {:induction false} RunIsBooked(world: World, sys: System, events: seq<Event>, l: Ledger)
    requires IsPlainProtocol(world.caps) && IsInvariant(world, sys) && IsBooked(sys.session, l)
    requires Run(world, sys, events).Some? && Run(world, sys, events).value.ended.None?
    ensures var entries := EntriesOf(world, sys, events);
      MayBookAll(l, entries) && !HasSilent(entries)
      && IsBooked(Run(world, sys, events).value.session, BookAll(l, entries))
    decreases |events|
  {
    if events != [] {
      var next, few := Next(world, sys, events[0]), EntriesOfEvent(world, sys, events[0]);
      NotYetEnded(world, sys, events);
      EventKeeps(world, sys, events[0]);
      EventIsBooked(world, sys, events[0], l);
      RunIsBooked(world, next, events[1..], BookFew(l, few));
      BookJoins(l, few, EntriesOf(world, next, events[1..]));
    }
  }

  /**
   Over every run, once every answer has come: the client got its answers whole and in the order of its commands
   exactly when no command was refused while an answer was on its way.
   */
  lemma AnswersComeInOrder(world: World, session: State, events: seq<Event>)
    requires IsPlainProtocol(world.caps) && IsNew(session) && Run(world, Start(session), events).Some?
    requires Run(world, Start(session), events).value.ended.None?
    ensures var entries, end := EntriesOf(world, Start(session), events), Run(world, Start(session), events).value;
      && MayBookAll(BLANK, entries) && IsBooked(end.session, BookAll(BLANK, entries))
      && (!HasInterruption(BLANK, entries) ==> IsInOrder(BookAll(BLANK, entries).told))
      && (!HasPending(end.session) ==>
            (IsInOrder(BookAll(BLANK, entries).told) <==> !HasInterruption(BLANK, entries)))
  {
    var entries := EntriesOf(world, Start(session), events);
    StartIsInvariant(world, session);
    RunIsBooked(world, Start(session), events, BLANK);
    OrderIsPunctuality(BLANK, entries);
    if !HasInterruption(BLANK, entries) {
      NothingInterruptedNothingLate(BLANK, entries);
    } else if BookAll(BLANK, entries).owing == [] {
      OrderIsPatience(BLANK, entries);
    }
  }

  /** A client that sends a command while one is pending only if that is a pipelined execution that can wait. */
  ghost predicate IsStepwise(world: World, sys: System, events: seq<Event>)
    requires Run(world, sys, events).Some?
    decreases |events|
  {
    events == []
    || (&& (events[0].ClientSends? && HasPending(sys.session) ==>
              Dispatch.Dispatch(sys.session, events[0].message, events[0].policy) == Wait)
        && IsStepwise(world, Next(world, sys, events[0]), events[1..]))
  }

  lemma StepwiseEvent(world: World, sys: System, e: Event, l: Ledger)
    requires IsInvariant(world, sys) && IsEnabled(world, sys, e) && IsBooked(sys.session, l)
    requires e.ClientSends? && HasPending(sys.session) ==> Dispatch.Dispatch(sys.session, e.message, e.policy) == Wait
    ensures EntriesOfEvent(world, sys, e) != [] ==> !Interrupts(l, EntriesOfEvent(world, sys, e)[0])
  {
    if e.WaitEnds? {
      WaitEndIsBooked(world, sys, e.policy, l);
    }
  }

  /** No answer of such a client is interrupted: the end of a pipelined execution's wait interrupts nothing. */
  lemma {:induction false} StepwiseIsUninterrupted(world: World, sys: System, events: seq<Event>, l: Ledger)
    requires IsPlainProtocol(world.caps) && IsInvariant(world, sys) && IsBooked(sys.session, l)
    requires Run(world, sys, events).Some? && Run(world, sys, events).value.ended.None?
    requires IsStepwise(world, sys, events)
    ensures MayBookAll(l, EntriesOf(world, sys, events)) && !HasInterruption(l, EntriesOf(world, sys, events))
    decreases |events|
  {
    if events != [] {
      var next, few := Next(world, sys, events[0]), EntriesOfEvent(world, sys, events[0]);
      NotYetEnded(world, sys, events);
      EventKeeps(world, sys, events[0]);
      EventIsBooked(world, sys, events[0], l);
      StepwiseEvent(world, sys, events[0], l);
      StepwiseIsUninterrupted(world, next, events[1..], BookFew(l, few));
      BookJoins(l, few, EntriesOf(world, next, events[1..]));
    }
  }

  /** On every run, whatever the policy: a second command that does not wait and is no quit interrupts the first. */
  lemma EarlyCommandInterrupts(world: World, sys: System, m: LogicalMessage, policy: Policy, l: Ledger)
    requires IsPlainProtocol(world.caps) && IsReached(world, sys) && IsBooked(sys.session, l)
    requires HasPending(sys.session) && IsEnabled(world, sys, ClientSends(m, policy))
    requires CodeOf(m) != COM_QUIT && Dispatch.Dispatch(sys.session, m, policy) != Wait
    ensures EntriesOfEvent(world, sys, ClientSends(m, policy)) == [Refused] && Interrupts(l, Refused)
    ensures IsOverdue(Book(l, Refused))
  {
    ReachedIsInvariant(world, sys);
    DispatchIsAllOrNothing(sys.session, m, policy);
    if IsForward(Dispatch.Dispatch(sys.session, m, policy), m) {
      ForwardedIsKnown(sys.session, m, policy);
    }
    OverdueByInterruption(l, Refused);
  }
}
