/**
 Whole connections over bytes, from the server's greeting on. The server asks for the packets its login
 needs; the proxy passes on whatever the client sends until it has routed the server's OK, and the runs of
 module WireRuns follow. What has been passed on without being asked for is what the server takes first.
 */
module LoginRuns {
  import opened Wire
  import opened Framing
  import opened Assembler
  import opened Session
  import opened Routing
  import opened Dispatch
  import opened ExecuteParams
  import opened Login
  import opened Relay
  import opened ProxyRuns
  import opened RunTheorems
  import opened Bindings
  import opened WireRuns
  import Scanner

  /**
   The server while it logs the client in. asked: how many packets it has asked for, the handshake response
   among them; taken: how many of those it has read; unread: what the proxy has passed on besides;
   inFlight: its own packets that the proxy has not passed on; over: it has sent OK or ERR.
   */
  datatype Door = Door(
    greeted: bool, asked: nat, taken: nat, unread: seq<Packet>, inFlight: seq<Bytes>, over: bool)

  /** heard: all bytes of the client that were read before the proxy routed the server's OK. */
  datatype Conversation = Conversation(link: Link, door: Door, heard: Bytes)

  datatype Turn =
    | ClientSpeaks(chunk: Bytes)
    | PacketPassed(policy: Policy)
    | ServerReads
    | ServerSpeaks(raw: Bytes, asks: bool)
    | ServerHeard(chunk: Bytes)
    | Commanded(event: LinkEvent)

  ghost const NEW_SERVER := Server(map[], map[], None, [], NoDebt)

  ghost function Opening(database: string, maxStatements: nat, maxBytes: nat): Conversation {
    var client := Client(false, FreshBackend(Fresh(database, maxStatements, maxBytes)), EMPTY);
    Conversation(Link(client, [], [], [], None, NEW_SERVER, false), Door(false, 0, 0, [], [], false), [])
  }

  // ---------------------------------------------------------------------------
  // Turns
  // ---------------------------------------------------------------------------

  /** OK and ERR end the login. */
  predicate IsVerdict(raw: Bytes) {
    |raw| > 4 && (raw[4] == 0x00 || raw[4] == 0xFF)
  }

  ghost predicate IsPacket(setting: Setting, raw: Bytes) {
    IsFrame(MySql(setting.limit), raw) && |raw| >= 4
  }

  /**
   A server greets first, and speaks again when it has read all it asked for. It takes commands only behind
   what it was passed before its OK.
   */
  ghost predicate IsPossible(setting: Setting, v: Conversation, turn: Turn) {
    var l, d := v.link, v.door;
    && !l.broken
    && match turn
       case ClientSpeaks(_) => !TakesCommands(l.client) && l.queue == []
       case PacketPassed(_) => !TakesCommands(l.client) && l.queue != []
       case ServerReads => d.taken < d.asked && d.unread != []
       case ServerSpeaks(raw, asks) =>
         && IsPacket(setting, raw) && !d.over
         && (if d.greeted then d.taken == d.asked && (IsVerdict(raw) ==> !asks) else asks)
       case ServerHeard(chunk) => !TakesCommands(l.client) && l.backendBuffer + chunk <= Flatten(d.inFlight)
       case Commanded(event) =>
         && IsInCommand(setting, l.client.backend) && TakesCommands(l.client)
         && IsOpen(setting, l, event) && (event.CommandTaken? ==> d.unread == [])
  }

  ghost function HearClient(setting: Setting, v: Conversation, chunk: Bytes): Conversation {
    v.(link := ReadFromClient(setting, v.link, chunk), heard := v.heard + chunk)
  }

  ghost function PassPacket(setting: Setting, v: Conversation, policy: Policy): Conversation
    requires v.link.queue != []
  {
    var l, d := v.link, v.door;
    var passed := Take(setting.limit, l.client, l.queue[0], policy, setting.greeting);
    v.(link := l.(client := passed.next, queue := l.queue[1..], broken := passed.fate.Failed?),
       door := if passed.toBackend == [] then d else d.(unread := d.unread + [l.queue[0]]))
  }

  ghost function Speak(d: Door, raw: Bytes, asks: bool): Door {
    d.(greeted := true, asked := if asks then d.asked + 1 else d.asked, inFlight := d.inFlight + [raw],
       over := d.greeted && IsVerdict(raw))
  }

  ghost function HearServer(setting: Setting, v: Conversation, chunk: Bytes): Conversation {
    var l, d := v.link, v.door;
    var r := ReadBackend(setting.limit, l.backendBuffer, l.client.seen, l.client.backend, chunk);
    var k := |r.passed.toClient|;
    v.(link := l.(client := l.client.(seen := r.passed.seen, backend := r.passed.next), backendBuffer := r.buffer,
                  broken := r.passed.failed),
       door := d.(inFlight := if k <= |d.inFlight| then d.inFlight[k..] else []))
  }

  ghost function Proceed(setting: Setting, v: Conversation, turn: Turn): Conversation
    requires IsPossible(setting, v, turn)
  {
    match turn
    case ClientSpeaks(chunk) => HearClient(setting, v, chunk)
    case PacketPassed(policy) => PassPacket(setting, v, policy)
    case ServerReads => v.(door := v.door.(taken := v.door.taken + 1, unread := v.door.unread[1..]))
    case ServerSpeaks(raw, asks) => v.(door := Speak(v.door, raw, asks))
    case ServerHeard(chunk) => HearServer(setting, v, chunk)
    case Commanded(event) => v.(link := LinkNext(setting, v.link, event))
  }

  ghost function Converse(setting: Setting, v: Conversation, turns: seq<Turn>): Option<Conversation>
    decreases |turns|
  {
    if turns == [] then Some(v)
    else if !IsPossible(setting, v, turns[0]) then None
    else Converse(setting, Proceed(setting, v, turns[0]), turns[1..])
  }

  // ---------------------------------------------------------------------------
  // The login keeps its books
  // ---------------------------------------------------------------------------

  ghost predicate IsUnused(b: Backend) {
    Login.IsLoggedIn(b) && IsNew(b.session) && Only(b.session, NoTag)
  }

  /** The server's packets on their way: behind its verdict there is nothing. */
  ghost predicate IsDoor(setting: Setting, d: Door, seen: bool) {
    && AreAllFrames(setting.limit, d.inFlight) && HasHeaders(d.inFlight)
    && (!d.greeted ==> d.inFlight == [] && !seen && !d.over)
    && (d.greeted && !seen ==> d.inFlight != [])
    && d.taken <= d.asked && (d.over ==> d.taken == d.asked)
    && forall i :: (if seen then 0 else 1) <= i < |d.inFlight| && IsVerdict(d.inFlight[i]) ==>
         i == |d.inFlight| - 1 && d.over
  }

  /** The packets cut from the client's bytes. */
  ghost function PacketsHeard(setting: Setting, heard: Bytes): nat {
    |Frames(MySql(setting.limit), heard).frames|
  }

  /** Every packet of the client has been read by the server, or passed on, or is still to be passed on. */
  ghost predicate IsCounted(setting: Setting, v: Conversation) {
    PacketsHeard(setting, v.heard) == v.door.taken + |v.door.unread| + |v.link.queue|
  }

  ghost predicate IsCut(setting: Setting, v: Conversation) {
    var f := Frames(MySql(setting.limit), v.heard);
    !f.failed && f.rest == v.link.clientBuffer && AreCutPackets(setting.limit, v.link.queue)
  }

  /** Until the proxy has routed the OK. */
  ghost predicate IsAtDoor(setting: Setting, v: Conversation) {
    var l := v.link;
    && setting.limit >= 4 && l.waiting.None? && l.server == NEW_SERVER && l.client.partial == EMPTY
    && IsUnused(l.client.backend) && !l.client.backend.phase.CommandResponse?
    && IsDoor(setting, v.door, l.client.seen) && IsCut(setting, v)
    && (l.client.backend.phase.Authentication? ==> IsCounted(setting, v))
  }

  /** When the proxy has just routed it. */
  ghost predicate IsLetIn(setting: Setting, v: Conversation) {
    var l := v.link;
    && setting.limit >= 4 && l.waiting.None? && l.server == NEW_SERVER && l.client.partial == EMPTY
    && IsUnused(l.client.backend) && TakesCommands(l.client) && AreCutPackets(setting.limit, l.queue)
    && v.door.over && v.door.taken == v.door.asked && v.door.inFlight == []
  }

  /** From then on; what is known of the session holds for the capabilities the client asked for. */
  ghost predicate IsInside(setting: Setting, v: Conversation) {
    var l := v.link;
    && setting.limit >= 4 && TakesCommands(l.client)
    && v.door.over && v.door.taken == v.door.asked && v.door.inFlight == []
    && (IsInCommand(setting, l.client.backend) ==>
          IsSound(setting, l) && IsReached(setting.world, AsSystem(l)))
  }

  ghost predicate IsOnCourse(setting: Setting, v: Conversation) {
    !v.link.broken ==> IsAtDoor(setting, v) || IsInside(setting, v)
  }

  lemma OpeningIsAtDoor(setting: Setting, database: string, maxStatements: nat, maxBytes: nat)
    requires setting.limit >= 4
    ensures IsAtDoor(setting, Opening(database, maxStatements, maxBytes))
  {
    FreshIsKept(database, maxStatements, maxBytes);
  }

  lemma LoginStepKeepsUnused(b: Backend, e: LoginEvent)
    requires IsUnused(b) && NextLogin(b, e).Delivered?
    ensures IsUnused(NextLogin(b, e).next)
  {
    LoginStepKeeps(b, e);
  }

  /** Until the first command the session stays as login leaves it, whatever the backend sends. */
  lemma {:induction false} LoginKeepsUnused(b: Backend, events: seq<LoginEvent>)
    requires IsUnused(b) && RunLogin(b, events).Some?
    ensures IsUnused(RunLogin(b, events).value)
    decreases |events|
  {
    if events != [] {
      LoginStepKeepsUnused(b, events[0]);
      LoginKeepsUnused(NextLogin(b, events[0]).next, events[1..]);
    }
  }

  lemma HeardIsCut(setting: Setting, v: Conversation, chunk: Bytes)
    requires IsAtDoor(setting, v) && v.link.queue == []
    ensures var next := HearClient(setting, v, chunk); next.link.broken || IsAtDoor(setting, next)
  {
    var p := MySql(setting.limit);
    var f := Frames(p, v.link.clientBuffer + chunk);
    FramesContinue(p, v.heard, chunk);
    if !f.failed {
      FramesAreWhole(p, v.link.clientBuffer + chunk);
      FramesAreAllFrames(setting.limit, f.frames);
    }
  }

  lemma PassedIsCounted(setting: Setting, v: Conversation, policy: Policy)
    requires IsAtDoor(setting, v) && v.link.queue != []
    ensures var next := PassPacket(setting, v, policy); next.link.broken || IsAtDoor(setting, next)
  {
    var handshake := setting.greeting.read(v.link.queue[0].payload);
    if v.link.client.backend.auth.phase == WaitingForClient && handshake.Some? {
      LoginStepKeepsUnused(v.link.client.backend, ClientResponds(handshake.value));
    }
  }

  /** Packets of the login leave the session new, and only an OK brings the commands. */
  lemma {:induction false} DeliveredAtDoor(seen: bool, b: Backend, raws: seq<Bytes>)
    requires HasHeaders(raws) && IsUnused(b) && !b.phase.CommandResponse? && !DeliverAll(seen, b, raws).failed
    requires forall i :: (if seen then 0 else 1) <= i < |raws| - 1 ==> !IsVerdict(raws[i])
    ensures var p := DeliverAll(seen, b, raws);
      && IsUnused(p.next) && p.seen == (seen || raws != [])
      && (p.next.phase.CommandResponse? ==>
            b.phase.Authentication? && (if seen then 0 else 1) < |raws| && IsVerdict(raws[|raws| - 1]))
    decreases |raws|
  {
    if raws != [] {
      if seen {
        LoginStepKeepsUnused(b, BackendSends(raws[0][4..]));
        var next := Deliver(b, raws[0][4..]).next;
        if next.phase.CommandResponse? {
          assert raws[0][4..][0] == raws[0][4];
          assert raws[1..] == [];
        } else {
          DeliveredAtDoor(true, next, raws[1..]);
        }
      } else {
        DeliveredAtDoor(true, b, raws[1..]);
      }
    }
  }

  /** What the cut takes of the server's stream, and what it leaves. */
  lemma ServerIsCut(setting: Setting, v: Conversation, chunk: Bytes) returns (k: nat)
    requires IsAtDoor(setting, v) && v.link.backendBuffer + chunk <= Flatten(v.door.inFlight)
    requires !v.link.broken && !HearServer(setting, v, chunk).link.broken
    ensures k <= |v.door.inFlight|
    ensures var next := HearServer(setting, v, chunk);
      var p := DeliverAll(v.link.client.seen, v.link.client.backend, v.door.inFlight[..k]);
      && !p.failed && next.door == v.door.(inFlight := v.door.inFlight[k..])
      && next.link == v.link.(client := v.link.client.(seen := p.seen, backend := p.next),
                              backendBuffer := next.link.backendBuffer)
      && (k == |v.door.inFlight| ==> next.link.backendBuffer == [])
  {
    var raws, stream := v.door.inFlight, v.link.backendBuffer + chunk;
    k := BeginningIsCut(setting.limit, raws, stream);
    BackendIsTransparent(v.link.client.seen, v.link.client.backend, raws[..k]);
    FramesAreExact(MySql(setting.limit), stream);
    if k == |raws| {
      assert raws[..k] == raws;
    }
  }

  lemma HeardAtDoor(setting: Setting, v: Conversation, chunk: Bytes)
    requires IsAtDoor(setting, v) && v.link.backendBuffer + chunk <= Flatten(v.door.inFlight)
    requires !v.link.broken && !HearServer(setting, v, chunk).link.broken
    ensures var next := HearServer(setting, v, chunk);
      && next.door.unread == v.door.unread && next.link.queue == v.link.queue && next.heard == v.heard
      && next.door.asked == v.door.asked
      && if next.link.client.backend.phase.CommandResponse? then IsLetIn(setting, next) && IsCounted(setting, v)
         else IsAtDoor(setting, next)
  {
    var next := HearServer(setting, v, chunk);
    var k := ServerIsCut(setting, v, chunk);
    var seen, raws := v.link.client.seen, v.door.inFlight;
    DoorGoesOn(setting, v.door, seen, k);
    DeliveredAtDoor(seen, v.link.client.backend, raws[..k]);
    if next.link.client.backend.phase.CommandResponse? {
      assert raws[..k][k - 1] == raws[k - 1] && IsVerdict(raws[k - 1]);
    }
  }

  lemma DoorGoesOn(setting: Setting, d: Door, seen: bool, k: nat)
    requires IsDoor(setting, d, seen) && k <= |d.inFlight|
    ensures IsDoor(setting, d.(inFlight := d.inFlight[k..]), seen || k > 0)
    ensures HasHeaders(d.inFlight[..k])
    ensures forall i :: (if seen then 0 else 1) <= i < k - 1 ==> !IsVerdict(d.inFlight[..k][i])
  {
    var rest := d.inFlight[k..];
    assert forall i :: 0 <= i < |rest| ==> rest[i] == d.inFlight[i + k];
  }

  lemma LetInIsInside(setting: Setting, v: Conversation)
    requires IsLetIn(setting, v)
    ensures IsInside(setting, v)
  {
    NothingIsFramed(setting.limit);
    StartIsReached(setting, v.link);
  }

  lemma StartIsReached(setting: Setting, l: Link)
    requires IsUnused(l.client.backend) && l.waiting.None? && l.server == NEW_SERVER
    ensures IsReached(setting.world, AsSystem(l))
  {
    assert AsSystem(l) == Start(l.client.backend.session);
    assert Run(setting.world, Start(l.client.backend.session), []) == Some(AsSystem(l));
  }

  lemma ReachedGoesOn(world: World, sys: System, events: seq<Event>, next: System)
    requires IsReached(world, sys) && Run(world, sys, events) == Some(next) && next.ended.None?
    ensures IsReached(world, next)
  {
    var session, before :| IsNew(session) && Run(world, Start(session), before) == Some(sys);
    RunsJoin(world, Start(session), before, events);
  }

  lemma CommandedIsInside(setting: Setting, v: Conversation, event: LinkEvent)
    requires IsInside(setting, v) && IsInCommand(setting, v.link.client.backend) && IsOpen(setting, v.link, event)
    ensures var next := LinkNext(setting, v.link, event); next.broken || IsInside(setting, v.(link := next))
  {
    if !LinkNext(setting, v.link, event).broken {
      var events := LinkStepIsRun(setting, v.link, event);
      ReachedGoesOn(setting.world, AsSystem(v.link), events, AsSystem(LinkNext(setting, v.link, event)));
    }
  }

  lemma SpokenAtDoor(setting: Setting, d: Door, seen: bool, raw: Bytes, asks: bool)
    requires IsDoor(setting, d, seen) && IsPacket(setting, raw) && !d.over
    requires if d.greeted then d.taken == d.asked && (IsVerdict(raw) ==> !asks) else asks
    ensures IsDoor(setting, Speak(d, raw, asks), seen)
  {
  }

  lemma ServerHeardKeeps(setting: Setting, v: Conversation, chunk: Bytes)
    requires IsAtDoor(setting, v) && v.link.backendBuffer + chunk <= Flatten(v.door.inFlight) && !v.link.broken
    ensures IsOnCourse(setting, HearServer(setting, v, chunk))
  {
    var next := HearServer(setting, v, chunk);
    if !next.link.broken {
      HeardAtDoor(setting, v, chunk);
      if next.link.client.backend.phase.CommandResponse? {
        LetInIsInside(setting, next);
      }
    }
  }

  lemma LoginTurnKeeps(setting: Setting, v: Conversation, turn: Turn)
    requires IsAtDoor(setting, v) && IsPossible(setting, v, turn) && !turn.Commanded?
    ensures IsOnCourse(setting, Proceed(setting, v, turn))
  {
    match turn {
      case ClientSpeaks(chunk) => HeardIsCut(setting, v, chunk);
      case PacketPassed(policy) => PassedIsCounted(setting, v, policy);
      case ServerReads =>
      case ServerSpeaks(raw, asks) => SpokenAtDoor(setting, v.door, v.link.client.seen, raw, asks);
      case ServerHeard(chunk) => ServerHeardKeeps(setting, v, chunk);
    }
  }

  lemma TurnKeeps(setting: Setting, v: Conversation, turn: Turn)
    requires IsOnCourse(setting, v) && IsPossible(setting, v, turn)
    ensures IsOnCourse(setting, Proceed(setting, v, turn))
  {
    if turn.Commanded? {
      CommandedIsInside(setting, v, turn.event);
    } else {
      LoginTurnKeeps(setting, v, turn);
    }
  }

  lemma {:induction false} ConverseKeeps(setting: Setting, v: Conversation, turns: seq<Turn>)
    requires IsOnCourse(setting, v) && Converse(setting, v, turns).Some?
    ensures IsOnCourse(setting, Converse(setting, v, turns).value)
    decreases |turns|
  {
    if turns != [] {
      TurnKeeps(setting, v, turns[0]);
      ConverseKeeps(setting, Proceed(setting, v, turns[0]), turns[1..]);
    }
  }

  // ---------------------------------------------------------------------------
  // What is left over when the login is accepted
  // ---------------------------------------------------------------------------

  ghost predicate IsTurnedInto(setting: Setting, v: Conversation, database: string, maxStatements: nat, maxBytes: nat,
                               turns: seq<Turn>) {
    Converse(setting, Opening(database, maxStatements, maxBytes), turns) == Some(v)
  }

  /** Where some turns bring a fresh connection, still open. */
  ghost predicate IsConversation(setting: Setting, v: Conversation) {
    && setting.limit >= 4 && !v.link.broken
    && exists database, maxStatements, maxBytes, turns ::
         IsTurnedInto(setting, v, database, maxStatements, maxBytes, turns)
  }

  lemma ConversationIsOnCourse(setting: Setting, v: Conversation)
    requires IsConversation(setting, v)
    ensures IsAtDoor(setting, v) || IsInside(setting, v)
  {
    var database, maxStatements, maxBytes, turns :|
      IsTurnedInto(setting, v, database, maxStatements, maxBytes, turns);
    OpeningIsAtDoor(setting, database, maxStatements, maxBytes);
    ConverseKeeps(setting, Opening(database, maxStatements, maxBytes), turns);
  }

  /**
   When the server's OK is routed, nothing that nobody inspected is left for the server and nothing waits at the
   proxy exactly when the client has sent as many packets as the server had asked for.
   */
  lemma NothingIsLeftOver(setting: Setting, v: Conversation, chunk: Bytes)
    requires IsConversation(setting, v) && IsPossible(setting, v, ServerHeard(chunk))
    requires var next := Proceed(setting, v, ServerHeard(chunk)).link; !next.broken && TakesCommands(next.client)
    ensures var next := Proceed(setting, v, ServerHeard(chunk));
      && (next.door.unread == [] && next.link.queue == [] <==> PacketsHeard(setting, v.heard) == v.door.asked)
      && (next.door.unread == [] <==> PacketsHeard(setting, v.heard) - |v.link.queue| == v.door.asked)
  {
    ConversationIsOnCourse(setting, v);
    HeardAtDoor(setting, v, chunk);
  }

  /** A client that sends no packet before the server has asked for it. Waiting for the OK is part of that. */
  ghost predicate IsPatient(setting: Setting, v: Conversation, turns: seq<Turn>)
    requires Converse(setting, v, turns).Some?
    decreases |turns|
  {
    turns == []
    || (&& (turns[0].ClientSpeaks? ==> PacketsHeard(setting, v.heard + turns[0].chunk) <= v.door.asked)
        && IsPatient(setting, Proceed(setting, v, turns[0]), turns[1..]))
  }

  ghost predicate HeardNoMoreThanAsked(setting: Setting, v: Conversation) {
    !v.link.broken ==>
      if TakesCommands(v.link.client) then v.door.unread == [] else PacketsHeard(setting, v.heard) <= v.door.asked
  }

  lemma PatientServerHeard(setting: Setting, v: Conversation, chunk: Bytes)
    requires IsAtDoor(setting, v) && v.link.backendBuffer + chunk <= Flatten(v.door.inFlight) && !v.link.broken
    requires PacketsHeard(setting, v.heard) <= v.door.asked
    ensures HeardNoMoreThanAsked(setting, HearServer(setting, v, chunk))
  {
    if !HearServer(setting, v, chunk).link.broken {
      HeardAtDoor(setting, v, chunk);
    }
  }

  lemma PatientLoginTurn(setting: Setting, v: Conversation, turn: Turn)
    requires IsAtDoor(setting, v) && IsPossible(setting, v, turn) && !turn.Commanded?
    requires PacketsHeard(setting, v.heard) <= v.door.asked
    requires turn.ClientSpeaks? ==> PacketsHeard(setting, v.heard + turn.chunk) <= v.door.asked
    ensures HeardNoMoreThanAsked(setting, Proceed(setting, v, turn))
  {
    match turn {
      case ClientSpeaks(chunk) => HeardIsCut(setting, v, chunk);
      case PacketPassed(policy) => PassedIsCounted(setting, v, policy);
      case ServerReads =>
      case ServerSpeaks(raw, asks) =>
      case ServerHeard(chunk) => PatientServerHeard(setting, v, chunk);
    }
  }

  lemma PatientTurn(setting: Setting, v: Conversation, turn: Turn)
    requires IsOnCourse(setting, v) && HeardNoMoreThanAsked(setting, v) && IsPossible(setting, v, turn)
    requires turn.ClientSpeaks? ==> PacketsHeard(setting, v.heard + turn.chunk) <= v.door.asked
    ensures HeardNoMoreThanAsked(setting, Proceed(setting, v, turn))
  {
    if turn.Commanded? {
      CommandedIsInside(setting, v, turn.event);
    } else {
      PatientLoginTurn(setting, v, turn);
    }
  }

  /** Whatever server and reads, a patient client leaves the server nothing to take but inspected commands. */
  lemma {:induction false} PatientClientIsInspected(setting: Setting, v: Conversation, turns: seq<Turn>)
    requires IsOnCourse(setting, v) && HeardNoMoreThanAsked(setting, v)
    requires Converse(setting, v, turns).Some? && IsPatient(setting, v, turns)
    ensures HeardNoMoreThanAsked(setting, Converse(setting, v, turns).value)
    decreases |turns|
  {
    if turns != [] {
      TurnKeeps(setting, v, turns[0]);
      PatientTurn(setting, v, turns[0]);
      PatientClientIsInspected(setting, Proceed(setting, v, turns[0]), turns[1..]);
    }
  }

  // ---------------------------------------------------------------------------
  // What the server takes was approved
  // ---------------------------------------------------------------------------

  /** The server's OK is routed and nothing was passed on that it had not asked for. */
  ghost predicate IsWellBegun(setting: Setting, v: Conversation) {
    && IsConversation(setting, v) && TakesCommands(v.link.client) && IsInCommand(setting, v.link.client.backend)
    && v.door.unread == []
  }

  /** A patient client's connection is well begun however its bytes and the server's are cut into reads. */
  lemma PatientIsWellBegun(setting: Setting, database: string, maxStatements: nat, maxBytes: nat, turns: seq<Turn>)
    requires setting.limit >= 4
    requires var run := Converse(setting, Opening(database, maxStatements, maxBytes), turns);
      && run.Some? && IsPatient(setting, Opening(database, maxStatements, maxBytes), turns)
      && !run.value.link.broken && TakesCommands(run.value.link.client)
      && IsInCommand(setting, run.value.link.client.backend)
    ensures IsWellBegun(setting, Converse(setting, Opening(database, maxStatements, maxBytes), turns).value)
  {
    var start := Opening(database, maxStatements, maxBytes);
    OpeningIsAtDoor(setting, database, maxStatements, maxBytes);
    PatientClientIsInspected(setting, start, turns);
    assert IsTurnedInto(setting, Converse(setting, start, turns).value, database, maxStatements, maxBytes, turns);
  }

  /**
   From the greeting on, over any reads of the client's stream and of the server's, of any size and in any
   order: when the server takes an execution whose statement it has, the bytes forwarded for it
   read back as that command and nothing else, and the SQL it runs is the SQL that was approved.
   */
  lemma BytesRunApprovedSql(setting: Setting, v: Conversation)
    requires IsWellBegun(setting, v) && IsPlainProtocol(setting.world.caps)
    requires v.link.server.owed == NoDebt && v.link.server.inbox != []
    requires CodeOf(v.link.server.inbox[0].message) == COM_STMT_EXECUTE
    requires Target(v.link.server, v.link.server.inbox[0].message).Some?
    ensures IsReadBack(setting.limit, v.link.server.inbox[0].message)
    ensures var first := v.link.server.inbox[0];
      var sql, shown := SqlRun(v.link.server, first.message, first.policy.floatText), SqlShown(first);
      && sql.Some? && shown.Some? && Strip(sql.value) == Strip(shown.value)
      && first.policy.approve(shown.value) && !first.policy.unparseable(shown.value)
      && (PrintsNumbers(first.policy.floatText) ==> Scanner.Fill(sql.value, Scanner.Sql, []) == sql)
  {
    ConversationIsOnCourse(setting, v);
    ServerRunsApprovedSql(setting.world, AsSystem(v.link));
  }

  /** And each query it takes, read back from its bytes, was approved as it stands. */
  lemma BytesRunApprovedQuery(setting: Setting, v: Conversation)
    requires IsWellBegun(setting, v) && IsPlainProtocol(setting.world.caps)
    requires v.link.server.inbox != [] && CodeOf(v.link.server.inbox[0].message) == COM_QUERY
    ensures IsReadBack(setting.limit, v.link.server.inbox[0].message)
    ensures var first := v.link.server.inbox[0];
      var sql := TextOf(BodyOf(first.message)); sql.Some? && first.policy.approve(sql.value)
  {
    ConversationIsOnCourse(setting, v);
    ServerRunsApprovedQuery(setting.world, AsSystem(v.link));
  }
}
