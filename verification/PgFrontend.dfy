/**
 What the proxy does with one frontend message, and what that adds up to over whole sessions:
 after an error it reports, everything but Sync and Terminate is dropped until Sync.
 */
module PgFrontend {
  import opened Wire
  import opened Framing
  import opened PgMessages
  import opened PgStartup
  import opened PgConnection
  import Utf8

  datatype Mode = Strict | Balanced | Permissive

  datatype Reason = ProtocolGap | PolicyDenial

  /**
   The answers of classification, estimation, policy and confirmation: about the text of a
   simple query, and about the text behind a portal with the parameters bound to it.
   */
  datatype Policy = Policy(
    mode: Mode,
    approve: string -> bool,
    approvePortal: (string, BindMessage) -> bool,
    text: Reason -> ShortText)

  /** A message the proxy writes to the client itself. */
  datatype Answer = ErrorAnswer(reason: Reason, text: ShortText) | ReadyAnswer(status: TransactionStatus)

  /** forwarded: the message goes to the backend as it came, once. */
  datatype Effect = Effect(next: Connection, forwarded: bool, answers: seq<Answer>)

  /** SQLSTATE 0A000 for a gap, 42000 for a policy decision. */
  function AnswerBytes(a: Answer): Bytes {
    match a
    case ErrorAnswer(reason, text) =>
      var sqlState := if reason.ProtocolGap? then [0x30, 0x41, 0x30, 0x30, 0x30] else [0x34, 0x32, 0x30, 0x30, 0x30];
      BuildErrorResponse(sqlState, text)
    case ReadyAnswer(status) => BuildReadyForQuery(status)
  }

  function Forward(c: Connection): Effect {
    Effect(c, true, [])
  }

  /** A refused simple query ends with ReadyForQuery at once. */
  function RefuseQuery(c: Connection, policy: Policy, reason: Reason): Effect {
    Effect(c, false, [ErrorAnswer(reason, policy.text(reason)), ReadyAnswer(c.status)])
  }

  /** A refused extended message makes the proxy skip to Sync, which the backend answers. */
  function RefuseExtended(c: Connection, policy: Policy, reason: Reason): Effect {
    Effect(c.(recovering := true), false, [ErrorAnswer(reason, policy.text(reason))])
  }

  function QueryGap(c: Connection, policy: Policy): Effect {
    if policy.mode.Permissive? then Forward(c) else RefuseQuery(c, policy, ProtocolGap)
  }

  function ExtendedGap(c: Connection, policy: Policy): Effect {
    if policy.mode.Permissive? then Forward(c) else RefuseExtended(c, policy, ProtocolGap)
  }

  function QueryText(payload: Bytes): Option<string> {
    if payload == [] || payload[|payload| - 1] != 0 then None else Utf8.Decode(payload[..|payload| - 1])
  }

  function HandleQuery(c: Connection, m: Message, policy: Policy): Effect {
    var sql := QueryText(m.payload);
    if sql.None? then QueryGap(c, policy)
    else if policy.approve(sql.value) then Forward(c)
    else RefuseQuery(c, policy, PolicyDenial)
  }

  ghost function HandleParse(c: Connection, m: Message, policy: Policy): Effect {
    var parsed := ParseParse(m.payload);
    if parsed.None? then ExtendedGap(c, policy)
    else
      var registered := RegisterStatement(c, parsed.value.statementName, parsed.value.query);
      if registered.None? then ExtendedGap(c, policy) else Forward(registered.value)
  }

  ghost function HandleBind(c: Connection, m: Message, policy: Policy): Effect {
    var bind := ParseBind(m.payload);
    if bind.None? then ExtendedGap(c, policy)
    else
      var registered := RegisterPortal(c, bind.value);
      if registered.None? then ExtendedGap(c, policy) else Forward(registered.value)
  }

  function HandleExecute(c: Connection, m: Message, policy: Policy): Effect {
    var execute := ParseExecute(m.payload);
    if execute.None? || execute.value.portalName !in c.portals then ExtendedGap(c, policy)
    else
      var bind := c.portals[execute.value.portalName];
      if bind.statementName !in c.statements then ExtendedGap(c, policy)
      else if policy.approvePortal(c.statements[bind.statementName], bind) then Forward(c)
      else RefuseExtended(c, policy, PolicyDenial)
  }

  function HandleClose(c: Connection, m: Message, policy: Policy): Effect {
    match ParseClose(m.payload)
    case None => ExtendedGap(c, policy)
    case Some(CloseStatement(name)) => Forward(PgConnection.CloseStatement(c, name))
    case Some(ClosePortal(name)) => Forward(PgConnection.ClosePortal(c, name))
  }

  ghost function Handle(c: Connection, m: Message, policy: Policy): Effect {
    if c.recovering then
      if m.kind == 'S' then Forward(c.(recovering := false))
      else if m.kind == 'X' then Forward(c)
      else Effect(c, false, [])
    else if m.kind == 'Q' then HandleQuery(c, m, policy)
    else if m.kind == 'P' then HandleParse(c, m, policy)
    else if m.kind == 'B' then HandleBind(c, m, policy)
    else if m.kind == 'E' then HandleExecute(c, m, policy)
    else if m.kind == 'C' then HandleClose(c, m, policy)
    else Forward(c)
  }

  // ---------------------------------------------------------------------------
  // Sessions
  // ---------------------------------------------------------------------------

  /** A message from the client, or the transaction status the backend tells with ReadyForQuery. */
  datatype Event = FromClient(message: Message, policy: Policy) | FromBackend(status: TransactionStatus)

  ghost function React(c: Connection, e: Event): Effect {
    match e
    case FromClient(message, policy) => Handle(c, message, policy)
    case FromBackend(status) => Effect(UpdateTransactionStatus(c, status), false, [])
  }

  ghost function After(c: Connection, events: seq<Event>): Connection
    decreases |events|
  {
    if events == [] then c else After(React(c, events[0]).next, events[1..])
  }

  predicate IsFromClient(e: Event, kind: char) {
    e.FromClient? && e.message.kind == kind
  }

  function One(b: bool): nat {
    if b then 1 else 0
  }

  /** How many answers are ReadyForQuery. */
  function Readies(answers: seq<Answer>): nat {
    if answers == [] then 0 else One(answers[0].ReadyAnswer?) + Readies(answers[1..])
  }

  /** How many answers are errors. */
  function Errors(answers: seq<Answer>): nat {
    if answers == [] then 0 else One(answers[0].ErrorAnswer?) + Errors(answers[1..])
  }

  /** A simple query and a function call are cycles of their own, answered with one ReadyForQuery. */
  predicate IsOwnCycle(e: Event) {
    IsFromClient(e, 'Q') || IsFromClient(e, 'F')
  }

  /** Forwarded Syncs, queries and function calls: a backend that does not skip answers each with one ReadyForQuery. */
  ghost function ForwardedCycles(c: Connection, events: seq<Event>): nat
    decreases |events|
  {
    if events == [] then 0
    else
      var effect := React(c, events[0]);
      One((IsFromClient(events[0], 'S') || IsOwnCycle(events[0])) && effect.forwarded)
      + ForwardedCycles(effect.next, events[1..])
  }

  /** ReadyForQuery messages the proxy writes itself. */
  ghost function FabricatedReadies(c: Connection, events: seq<Event>): nat
    decreases |events|
  {
    if events == [] then 0
    else Readies(React(c, events[0]).answers) + FabricatedReadies(React(c, events[0]).next, events[1..])
  }

  /** Syncs, and queries and function calls that arrive outside recovery. */
  ghost function ReceivedCycles(c: Connection, events: seq<Event>): nat
    decreases |events|
  {
    if events == [] then 0
    else
      One(IsFromClient(events[0], 'S') || (IsOwnCycle(events[0]) && !c.recovering))
      + ReceivedCycles(React(c, events[0]).next, events[1..])
  }

  lemma Counted(a: Answer, b: Answer)
    ensures Readies([]) == 0 && Readies([a]) == One(a.ReadyAnswer?)
    ensures Readies([a, b]) == One(a.ReadyAnswer?) + One(b.ReadyAnswer?)
    ensures Errors([]) == 0 && Errors([a]) == One(a.ErrorAnswer?)
    ensures Errors([a, b]) == One(a.ErrorAnswer?) + One(b.ErrorAnswer?)
  {
    assert [a, b][1..] == [b] && [a][1..] == [] && [b][1..] == [];
  }

  /** The messages that the proxy reads besides simple queries. */
  predicate IsExtended(kind: char) {
    kind == 'P' || kind == 'B' || kind == 'E' || kind == 'C'
  }

  /** What the proxy says to the client, and what follows from it. */
  ghost predicate IsAnswered(c: Connection, m: Message, effect: Effect) {
    || (effect.answers == [] && (effect.next.recovering ==> c.recovering)
        && (effect.forwarded || (c.recovering && m.kind != 'S' && effect.next == c)))
    || (!c.recovering && m.kind == 'Q' && !effect.forwarded && effect.next == c
        && |effect.answers| == 2 && effect.answers[0].ErrorAnswer? && effect.answers[1] == ReadyAnswer(c.status))
    || (!c.recovering && IsExtended(m.kind) && !effect.forwarded && effect.next == c.(recovering := true)
        && |effect.answers| == 1 && effect.answers[0].ErrorAnswer?)
  }

  lemma RefusalsAreAnswered(c: Connection, m: Message, policy: Policy, reason: Reason)
    requires !c.recovering
    ensures m.kind == 'Q' ==> IsAnswered(c, m, RefuseQuery(c, policy, reason))
    ensures IsExtended(m.kind) ==> IsAnswered(c, m, RefuseExtended(c, policy, reason))
  {
  }

  lemma QueryIsAnswered(c: Connection, m: Message, policy: Policy)
    requires !c.recovering && m.kind == 'Q'
    ensures IsAnswered(c, m, HandleQuery(c, m, policy))
  {
    RefusalsAreAnswered(c, m, policy, ProtocolGap);
    RefusalsAreAnswered(c, m, policy, PolicyDenial);
  }

  lemma ParseIsAnswered(c: Connection, m: Message, policy: Policy)
    requires !c.recovering && IsExtended(m.kind)
    ensures IsAnswered(c, m, HandleParse(c, m, policy))
  {
    RefusalsAreAnswered(c, m, policy, ProtocolGap);
    RefusalsAreAnswered(c, m, policy, PolicyDenial);
  }

  lemma BindIsAnswered(c: Connection, m: Message, policy: Policy)
    requires !c.recovering && IsExtended(m.kind)
    ensures IsAnswered(c, m, HandleBind(c, m, policy))
  {
    RefusalsAreAnswered(c, m, policy, ProtocolGap);
    RefusalsAreAnswered(c, m, policy, PolicyDenial);
  }

  lemma ExecuteIsAnswered(c: Connection, m: Message, policy: Policy)
    requires !c.recovering && IsExtended(m.kind)
    ensures IsAnswered(c, m, HandleExecute(c, m, policy))
  {
    RefusalsAreAnswered(c, m, policy, ProtocolGap);
    RefusalsAreAnswered(c, m, policy, PolicyDenial);
  }

  lemma CloseIsAnswered(c: Connection, m: Message, policy: Policy)
    requires !c.recovering && IsExtended(m.kind)
    ensures IsAnswered(c, m, HandleClose(c, m, policy))
  {
    RefusalsAreAnswered(c, m, policy, ProtocolGap);
    RefusalsAreAnswered(c, m, policy, PolicyDenial);
  }

  lemma HandledIsAnswered(c: Connection, m: Message, policy: Policy)
    ensures IsAnswered(c, m, Handle(c, m, policy))
  {
    if !c.recovering {
      if m.kind == 'Q' {
        QueryIsAnswered(c, m, policy);
      } else if m.kind == 'P' {
        ParseIsAnswered(c, m, policy);
      } else if m.kind == 'B' {
        BindIsAnswered(c, m, policy);
      } else if m.kind == 'E' {
        ExecuteIsAnswered(c, m, policy);
      } else if m.kind == 'C' {
        CloseIsAnswered(c, m, policy);
      }
    }
  }

  lemma AnsweredIsCounted(c: Connection, m: Message, effect: Effect)
    requires IsAnswered(c, m, effect) && (c.recovering ==> (effect.forwarded <==> m.kind == 'S' || m.kind == 'X'))
    ensures One((m.kind == 'S' || m.kind == 'Q' || m.kind == 'F') && effect.forwarded) + Readies(effect.answers)
         == One(m.kind == 'S' || ((m.kind == 'Q' || m.kind == 'F') && !c.recovering))
    ensures Errors(effect.answers) == Readies(effect.answers) + One(!c.recovering && effect.next.recovering)
  {
    if effect.answers != [] {
      var first, last := effect.answers[0], effect.answers[|effect.answers| - 1];
      Counted(first, last);
      assert effect.answers == [first] || effect.answers == [first, last];
    }
  }

  lemma StepConserves(c: Connection, e: Event)
    ensures One((IsFromClient(e, 'S') || IsOwnCycle(e)) && React(c, e).forwarded) + Readies(React(c, e).answers)
         == One(IsFromClient(e, 'S') || (IsOwnCycle(e) && !c.recovering))
    ensures Errors(React(c, e).answers)
         == Readies(React(c, e).answers) + One(!c.recovering && React(c, e).next.recovering)
  {
    if e.FromClient? {
      HandledIsAnswered(c, e.message, e.policy);
      if c.recovering {
        SkippedOrSent(c, e.message, e.policy);
      }
      AnsweredIsCounted(c, e.message, React(c, e));
    }
  }

  /**
   Of the cycles the client opens, each but those dropped in recovery goes to the backend or is closed by one
   ReadyForQuery of the proxy's own, and the proxy closes no others.
   */
  lemma {:induction false} ReadyForQueryIsConserved(c: Connection, events: seq<Event>)
    ensures ForwardedCycles(c, events) + FabricatedReadies(c, events) == ReceivedCycles(c, events)
    decreases |events|
  {
    if events != [] {
      StepConserves(c, events[0]);
      ReadyForQueryIsConserved(React(c, events[0]).next, events[1..]);
    }
  }

  ghost predicate HasNoSync(events: seq<Event>) {
    forall i :: 0 <= i < |events| ==> !IsFromClient(events[i], 'S')
  }

  /** What the backend receives, and what the client is told, event by event. */
  ghost function Sent(c: Connection, events: seq<Event>): seq<Message>
    decreases |events|
  {
    if events == [] then []
    else
      (if events[0].FromClient? && React(c, events[0]).forwarded then [events[0].message] else [])
      + Sent(React(c, events[0]).next, events[1..])
  }

  ghost function Told(c: Connection, events: seq<Event>): seq<Answer>
    decreases |events|
  {
    if events == [] then [] else React(c, events[0]).answers + Told(React(c, events[0]).next, events[1..])
  }

  /** What a client message cannot change while the proxy skips to Sync; only the backend can clear the portals. */
  lemma {:induction false} SkippedUntilSync(c: Connection, events: seq<Event>)
    requires c.recovering && HasNoSync(events)
    ensures After(c, events).recovering && After(c, events).statements == c.statements
    ensures After(c, events).portals == c.portals || After(c, events).portals == map[]
    ensures (forall i :: 0 <= i < |events| ==> events[i].FromClient?) ==> After(c, events) == c
    ensures forall m :: m in Sent(c, events) ==> m.kind == 'X'
    ensures Told(c, events) == []
    decreases |events|
  {
    if events != [] {
      assert !IsFromClient(events[0], 'S');
      SkippedUntilSync(React(c, events[0]).next, events[1..]);
    }
  }

  lemma {:induction false} EventsJoin(c: Connection, first: seq<Event>, more: seq<Event>)
    ensures After(c, first + more) == After(After(c, first), more)
    decreases |first|
  {
    if first == [] {
      assert first + more == more;
    } else {
      assert (first + more)[1..] == first[1..] + more;
      EventsJoin(React(c, first[0]).next, first[1..], more);
    }
  }

  lemma {:induction false} SentJoins(c: Connection, first: seq<Event>, more: seq<Event>)
    ensures Sent(c, first + more) == Sent(c, first) + Sent(After(c, first), more)
    decreases |first|
  {
    if first == [] {
      assert first + more == more && [] + Sent(c, more) == Sent(c, more);
    } else {
      var e, next := first[0], React(c, first[0]).next;
      assert (first + more)[1..] == first[1..] + more;
      SentJoins(next, first[1..], more);
      var sent := if e.FromClient? && React(c, e).forwarded then [e.message] else [];
      Assoc(sent, Sent(next, first[1..]), Sent(After(c, first), more));
    }
  }

  lemma {:induction false} ToldJoins(c: Connection, first: seq<Event>, more: seq<Event>)
    ensures Told(c, first + more) == Told(c, first) + Told(After(c, first), more)
    decreases |first|
  {
    if first == [] {
      assert first + more == more && [] + Told(c, more) == Told(c, more);
    } else {
      var next := React(c, first[0]).next;
      assert (first + more)[1..] == first[1..] + more;
      ToldJoins(next, first[1..], more);
      Assoc(React(c, first[0]).answers, Told(next, first[1..]), Told(After(c, first), more));
    }
  }

  /** A skip lasts exactly to the next Sync: that one is forwarded, and from then on messages are handled again. */
  lemma RecoveryEndsWithSync(c: Connection, skipped: seq<Event>, m: Message, policy: Policy)
    requires c.recovering && HasNoSync(skipped) && m.kind == 'S'
    ensures var events := skipped + [FromClient(m, policy)];
      && !After(c, events).recovering && After(c, events).statements == c.statements
      && Told(c, events) == []
      && exists quits :: Sent(c, events) == quits + [m] && forall q :: q in quits ==> q.kind == 'X'
  {
    var e := FromClient(m, policy);
    SkippedUntilSync(c, skipped);
    EventsJoin(c, skipped, [e]);
    SentJoins(c, skipped, [e]);
    ToldJoins(c, skipped, [e]);
    assert [e][1..] == [];
    assert Sent(After(c, skipped), [e]) == [m] && Told(After(c, skipped), [e]) == [];
  }

  /** How often the session starts to skip. */
  ghost function Recoveries(c: Connection, events: seq<Event>): nat
    decreases |events|
  {
    if events == [] then 0
    else One(!c.recovering && React(c, events[0]).next.recovering) + Recoveries(React(c, events[0]).next, events[1..])
  }

  ghost function FabricatedErrors(c: Connection, events: seq<Event>): nat
    decreases |events|
  {
    if events == [] then 0
    else Errors(React(c, events[0]).answers) + FabricatedErrors(React(c, events[0]).next, events[1..])
  }

  /** Each error the proxy reports either comes with its own ReadyForQuery or starts one skip to Sync. */
  lemma {:induction false} ErrorsArePaired(c: Connection, events: seq<Event>)
    ensures FabricatedErrors(c, events) == FabricatedReadies(c, events) + Recoveries(c, events)
    decreases |events|
  {
    if events != [] {
      StepConserves(c, events[0]);
      ErrorsArePaired(React(c, events[0]).next, events[1..]);
    }
  }

  // ---------------------------------------------------------------------------
  // Registries and refusals
  // ---------------------------------------------------------------------------

  /** A message is forwarded, dropped in recovery, or refused; only a forwarded one changes the registries. */
  lemma RefusalChangesNothing(c: Connection, m: Message, policy: Policy)
    ensures var effect := Handle(c, m, policy);
      && (!effect.forwarded ==> effect.next.(recovering := c.recovering) == c)
      && (effect.forwarded ==> effect.answers == [])
      && (!effect.forwarded && !c.recovering ==> effect.answers != [] && effect.answers[0].ErrorAnswer?)
      && (!effect.forwarded && effect.answers == [] <==> c.recovering && m.kind != 'S' && m.kind != 'X')
  {
    HandledIsAnswered(c, m, policy);
    if c.recovering {
      SkippedOrSent(c, m, policy);
    }
  }

  lemma SkippedOrSent(c: Connection, m: Message, policy: Policy)
    requires c.recovering
    ensures Handle(c, m, policy).answers == [] && (Handle(c, m, policy).forwarded <==> m.kind == 'S' || m.kind == 'X')
  {
  }

  /** The registry operation a client message amounts to. */
  ghost function Operation(c: Connection, m: Message): Option<Op> {
    if c.recovering then None
    else if m.kind == 'P' && ParseParse(m.payload).Some? then
      var p := ParseParse(m.payload).value;
      Some(OpRegisterStatement(p.statementName, p.query))
    else if m.kind == 'B' && ParseBind(m.payload).Some? then Some(OpRegisterPortal(ParseBind(m.payload).value))
    else if m.kind == 'C' then
      (match ParseClose(m.payload)
       case None => None
       case Some(CloseStatement(name)) => Some(OpCloseStatement(name))
       case Some(ClosePortal(name)) => Some(OpClosePortal(name)))
    else None
  }

  ghost function OperationOf(c: Connection, e: Event): Option<Op> {
    match e
    case FromClient(message, _) => Operation(c, message)
    case FromBackend(status) => Some(OpUpdateStatus(status))
  }

  lemma ParseIsAnOperation(c: Connection, m: Message, policy: Policy)
    ensures var parsed := ParseParse(m.payload);
      HandleParse(c, m, policy).next.(recovering := c.recovering)
      == if parsed.None? then c
         else PgConnection.After(c, OpRegisterStatement(parsed.value.statementName, parsed.value.query))
  {
  }

  lemma BindIsAnOperation(c: Connection, m: Message, policy: Policy)
    ensures var bind := ParseBind(m.payload);
      HandleBind(c, m, policy).next.(recovering := c.recovering)
      == if bind.None? then c else PgConnection.After(c, OpRegisterPortal(bind.value))
  {
  }

  lemma CloseIsAnOperation(c: Connection, m: Message, policy: Policy)
    ensures HandleClose(c, m, policy).next.(recovering := c.recovering)
      == match ParseClose(m.payload)
         case None => c
         case Some(CloseStatement(name)) => PgConnection.CloseStatement(c, name)
         case Some(ClosePortal(name)) => PgConnection.ClosePortal(c, name)
  {
  }

  /** Whatever else happens, the registries change by the operation of the message. */
  lemma ReactIsAnOperation(c: Connection, e: Event)
    ensures var op := OperationOf(c, e);
      React(c, e).next.(recovering := c.recovering) == if op.None? then c else PgConnection.After(c, op.value)
  {
    if e.FromClient? && !c.recovering {
      var m, policy := e.message, e.policy;
      if m.kind == 'P' {
        ParseIsAnOperation(c, m, policy);
      } else if m.kind == 'B' {
        BindIsAnOperation(c, m, policy);
      } else if m.kind == 'C' {
        CloseIsAnOperation(c, m, policy);
      }
    }
  }

  lemma ReactKeepsBounds(c: Connection, e: Event)
    requires IsBounded(c)
    ensures IsBounded(React(c, e).next)
  {
    var op := OperationOf(c, e);
    ReactIsAnOperation(c, e);
    if op.Some? {
      OperationKeepsBounds(c, op.value);
    }
  }

  lemma {:induction false} EventsKeepBounds(c: Connection, events: seq<Event>)
    requires IsBounded(c)
    ensures IsBounded(After(c, events))
    decreases |events|
  {
    if events != [] {
      ReactKeepsBounds(c, events[0]);
      EventsKeepBounds(React(c, events[0]).next, events[1..]);
    }
  }

  /** Over any session from its start both registries stay within their limits. */
  lemma SessionKeepsBounds(maxItems: nat, maxBytes: nat, events: seq<Event>)
    ensures IsBounded(After(Fresh(maxItems, maxBytes), events))
  {
    FreshIsBounded(maxItems, maxBytes);
    EventsKeepBounds(Fresh(maxItems, maxBytes), events);
  }

  // ---------------------------------------------------------------------------
  // Execute is judged by the query in force at Bind
  // ---------------------------------------------------------------------------

  ghost function BoundNext(c: Connection, bound: Bound, e: Event): Bound {
    var op := OperationOf(c, e);
    if op.None? then bound else BoundAfter(c, bound, op.value)
  }

  /** The query in force at the last accepted Bind of each portal, over a session. */
  ghost function BoundBy(c: Connection, bound: Bound, events: seq<Event>): Bound
    decreases |events|
  {
    if events == [] then bound else BoundBy(React(c, events[0]).next, BoundNext(c, bound, events[0]), events[1..])
  }

  /** Every Parse of the session leaves the meaning of the portals bound at that moment alone. */
  ghost predicate ParsesSafely(c: Connection, events: seq<Event>)
    decreases |events|
  {
    events == [] ||
    (&& (var op := OperationOf(c, events[0]);
         op.Some? && op.value.OpRegisterStatement? ==> IsSafeParse(c, op.value.name, op.value.query))
     && ParsesSafely(React(c, events[0]).next, events[1..]))
  }

  lemma StepKeepsRefinement(c: Connection, bound: Bound, e: Event)
    requires Refines(c, bound)
    requires var op := OperationOf(c, e);
      op.Some? && op.value.OpRegisterStatement? ==> IsSafeParse(c, op.value.name, op.value.query)
    ensures Refines(React(c, e).next, BoundNext(c, bound, e))
  {
    var op := OperationOf(c, e);
    ReactIsAnOperation(c, e);
    if op.Some? {
      OperationKeepsRefinement(c, bound, op.value);
    }
  }

  lemma {:induction false} SessionKeepsRefinement(c: Connection, bound: Bound, events: seq<Event>)
    requires Refines(c, bound) && ParsesSafely(c, events)
    ensures Refines(After(c, events), BoundBy(c, bound, events))
    decreases |events|
  {
    if events != [] {
      StepKeepsRefinement(c, bound, events[0]);
      SessionKeepsRefinement(React(c, events[0]).next, BoundNext(c, bound, events[0]), events[1..]);
    }
  }

  /**
   Over any session whose Parses are safe: an Execute is forwarded exactly when policy approves
   the query that was in force when its portal was bound, with the parameters bound then.
   */
  lemma ExecuteIsJudgedByItsBind(maxItems: nat, maxBytes: nat, events: seq<Event>, m: Message, policy: Policy)
    requires ParsesSafely(Fresh(maxItems, maxBytes), events) && !policy.mode.Permissive?
    requires m.kind == 'E' && ParseExecute(m.payload).Some? && !After(Fresh(maxItems, maxBytes), events).recovering
    ensures var c, bound := After(Fresh(maxItems, maxBytes), events), BoundBy(Fresh(maxItems, maxBytes), map[], events);
      var portal := ParseExecute(m.payload).value.portalName;
      Handle(c, m, policy).forwarded
      <==> portal in c.portals && portal in bound && bound[portal].query.Some?
           && policy.approvePortal(bound[portal].query.value, bound[portal].bind)
  {
    SessionKeepsRefinement(Fresh(maxItems, maxBytes), map[], events);
  }

  /** A client that binds registered statements and never parses a name again while it is registered. */
  ghost predicate IsDisciplinedSession(c: Connection, events: seq<Event>)
    decreases |events|
  {
    events == [] ||
    (&& (var op := OperationOf(c, events[0]); op.Some? ==> IsDisciplined(c, op.value))
     && IsDisciplinedSession(React(c, events[0]).next, events[1..]))
  }

  /** Such a client parses safely. */
  lemma {:induction false} DisciplineIsSafe(c: Connection, events: seq<Event>)
    requires IsLinked(c) && IsDisciplinedSession(c, events)
    ensures ParsesSafely(c, events) && IsLinked(After(c, events))
    decreases |events|
  {
    if events != [] {
      var op := OperationOf(c, events[0]);
      ReactIsAnOperation(c, events[0]);
      if op.Some? {
        DisciplineKeepsLinks(c, op.value);
      }
      DisciplineIsSafe(React(c, events[0]).next, events[1..]);
    }
  }
}
