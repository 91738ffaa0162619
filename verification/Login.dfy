/**
 The login that comes before the first command: whose turn it is, and when the backend's
 packets stop being part of the login and become answers to commands.
 */
module Login {
  import opened Wire
  import opened Session
  import opened Routing

  datatype AuthPhase = WaitingForClient | Authenticating | Authenticated | LoginFailed | TlsRejected

  datatype Phase = Authentication | CommandResponse | Closed

  datatype AuthPacket = AuthOk | AuthError | AuthSwitch | AuthMoreData | AuthOther

  /** What the client's handshake response says. */
  datatype Handshake = Handshake(caps: nat, database: Option<string>, isSslRequest: bool)

  datatype Auth = Auth(phase: AuthPhase, caps: nat, database: string)

  datatype Backend = Backend(auth: Auth, phase: Phase, session: State)

  /** The client's packet was accepted, or refused because it came at the wrong time. */
  datatype Accepting = AcceptedResponse(next: Auth) | BadPhase

  /** One backend packet: passed to the client, or the source raises; then the packet may have been passed already. */
  datatype Delivery = Delivered(next: Backend) | Undelivered(next: Backend) | DeliveredThenRaised(next: Backend)

  function Classify(payload: Bytes): AuthPacket
    requires payload != []
  {
    if payload[0] == 0x00 then AuthOk
    else if payload[0] == 0xFF then AuthError
    else if payload[0] == 0xFE then AuthSwitch
    else if payload[0] == 0x01 then AuthMoreData
    else AuthOther
  }

  function AcceptClientResponse(a: Auth, h: Handshake): Accepting {
    if a.phase != WaitingForClient then BadPhase
    else if h.isSslRequest then AcceptedResponse(a.(caps := h.caps, phase := TlsRejected))
    else
      var database := if h.database.Some? && h.database.value != "" then h.database.value else a.database;
      AcceptedResponse(Auth(Authenticating, h.caps, database))
  }

  /** The phase after the backend's answer to the login. */
  function AfterAnswer(packet: AuthPacket): AuthPhase {
    match packet
    case AuthOk => Authenticated
    case AuthError => LoginFailed
    case _ => Authenticating
  }

  function DeliverLogin(b: Backend, payload: Bytes): Delivery {
    if b.auth.phase != Authenticating || payload == [] then Undelivered(b)
    else
      var packet := Classify(payload);
      var answered := b.(auth := b.auth.(phase := AfterAnswer(packet)));
      match packet
      case AuthOk =>
        (match StatusFromOk(b.session, payload, b.auth.caps)
         case RouteError(_, _) => DeliveredThenRaised(answered)
         case Routed(session) => Delivered(answered.(session := session, phase := CommandResponse)))
      case AuthError => Delivered(answered.(phase := Closed))
      case _ => Delivered(answered)
  }

  ghost function Deliver(b: Backend, payload: Bytes): Delivery {
    match b.phase
    case Closed => Undelivered(b)
    case Authentication => DeliverLogin(b, payload)
    case CommandResponse =>
      (match Route(b.session, payload, b.auth.caps)
       case RouteError(session, _) => Undelivered(b.(session := session))
       case Routed(session) => Delivered(b.(session := session)))
  }

  // ---------------------------------------------------------------------------
  // Every login
  // ---------------------------------------------------------------------------

  datatype LoginEvent = ClientResponds(handshake: Handshake) | BackendSends(payload: Bytes)

  /** The client's response also sets the session's database, and a TLS request closes the connection. */
  function Respond(b: Backend, h: Handshake): Backend {
    match AcceptClientResponse(b.auth, h)
    case BadPhase => b
    case AcceptedResponse(auth) =>
      if h.isSslRequest then b.(auth := auth, phase := Closed)
      else b.(auth := auth, session := b.session.(database := auth.database))
  }

  ghost function NextLogin(b: Backend, e: LoginEvent): Delivery {
    match e
    case ClientResponds(handshake) => Delivered(Respond(b, handshake))
    case BackendSends(payload) => Deliver(b, payload)
  }

  /** None once something raised: the connection is over. */
  ghost function RunLogin(b: Backend, events: seq<LoginEvent>): Option<Backend>
    decreases |events|
  {
    if events == [] then Some(b)
    else
      var step := NextLogin(b, events[0]);
      if step.Delivered? then RunLogin(step.next, events[1..]) else None
  }

  function FreshBackend(session: State): Backend {
    Backend(Auth(WaitingForClient, 0, session.database), Authentication, session)
  }

  /** Commands are answered exactly when the backend has accepted the login, with nothing pending from before. */
  ghost predicate IsLoggedIn(b: Backend) {
    && IsKept(b.session)
    && (b.phase.CommandResponse? <==> b.auth.phase.Authenticated?)
    && (b.phase.Closed? <==> b.auth.phase.LoginFailed? || b.auth.phase.TlsRejected?)
    && (b.phase.Authentication? ==> Only(b.session, NoTag))
  }

  lemma LoginStepKeeps(b: Backend, e: LoginEvent)
    requires IsLoggedIn(b)
    ensures var step := NextLogin(b, e); step.Delivered? ==> IsLoggedIn(step.next)
  {
    if e.BackendSends? && b.phase.CommandResponse? {
      RouteKeepsSession(b.session, e.payload, b.auth.caps);
    }
  }

  lemma {:induction false} LoginKeeps(b: Backend, events: seq<LoginEvent>)
    requires IsLoggedIn(b) && RunLogin(b, events).Some?
    ensures IsLoggedIn(RunLogin(b, events).value)
    decreases |events|
  {
    if events != [] {
      LoginStepKeeps(b, events[0]);
      LoginKeeps(NextLogin(b, events[0]).next, events[1..]);
    }
  }

  /** Whatever arrives, in whatever order, commands are taken exactly once the backend accepted the login. */
  lemma CommandsFollowTheLogin(database: string, maxStatements: nat, maxBytes: nat, events: seq<LoginEvent>)
    requires RunLogin(FreshBackend(Fresh(database, maxStatements, maxBytes)), events).Some?
    ensures IsLoggedIn(RunLogin(FreshBackend(Fresh(database, maxStatements, maxBytes)), events).value)
  {
    FreshIsKept(database, maxStatements, maxBytes);
    LoginKeeps(FreshBackend(Fresh(database, maxStatements, maxBytes)), events);
  }

  ghost predicate SomeOkAmong(events: seq<LoginEvent>) {
    exists i :: 0 <= i < |events| && events[i].BackendSends? && events[i].payload != [] && events[i].payload[0] == 0x00
  }

  /** No login succeeds without an OK packet from the backend. */
  lemma {:induction false} NoLoginWithoutOk(b: Backend, events: seq<LoginEvent>)
    requires b.phase.Authentication? && !b.auth.phase.Authenticated? && IsLoggedIn(b)
    requires RunLogin(b, events).Some? && RunLogin(b, events).value.phase.CommandResponse?
    ensures SomeOkAmong(events)
    decreases |events|
  {
    if events != [] {
      var next := NextLogin(b, events[0]).next;
      LoginStepKeeps(b, events[0]);
      if next.phase.Authentication? {
        NoLoginWithoutOk(next, events[1..]);
        var i :| 0 <= i < |events[1..]| && events[1..][i].BackendSends? && events[1..][i].payload != []
          && events[1..][i].payload[0] == 0x00;
        assert events[i + 1] == events[1..][i];
      } else if next.phase.Closed? {
        ClosedStaysClosed(next, events[1..]);
      } else {
        assert events[0].BackendSends?;
      }
    }
  }

  lemma {:induction false} ClosedStaysClosed(b: Backend, events: seq<LoginEvent>)
    requires b.phase.Closed? && b.auth.phase != WaitingForClient && RunLogin(b, events).Some?
    ensures RunLogin(b, events).value == b
    decreases |events|
  {
    if events != [] {
      ClosedStaysClosed(b, events[1..]);
    }
  }
}
