/**
 A client that does not wait for the end of the login: the packet it sends behind its handshake response is
 passed on as part of the login, and the server takes it as a command that nobody inspected.
 */
module HastyClient {
  import opened Wire
  import opened Framing
  import opened Responses
  import opened Routing
  import opened Dispatch
  import opened Login
  import opened Relay
  import opened ProxyRuns
  import opened WireRuns
  import opened LoginRuns

  /** One packet of each: the server's greeting and OK, the client's response and the command right behind it. */
  datatype Packets = Packets(greeting: Bytes, response: Bytes, command: Bytes, ok: Bytes)

  ghost predicate ArePackets(setting: Setting, p: Packets) {
    && setting.limit >= 4
    && IsPacket(setting, p.greeting) && IsPacket(setting, p.response) && IsPacket(setting, p.command)
    && IsPacket(setting, p.ok)
  }

  ghost function Turns(p: Packets, policy: Policy): seq<Turn> {
    [ServerSpeaks(p.greeting, true), ServerHeard(p.greeting), ClientSpeaks(p.response + p.command),
     PacketPassed(policy), PacketPassed(policy), ServerReads, ServerSpeaks(p.ok, false), ServerHeard(p.ok)]
  }

  ghost function Fetched(v: Conversation, seen: bool, backend: Backend): Conversation {
    v.(link := v.link.(client := v.link.client.(seen := seen, backend := backend)), door := v.door.(inFlight := []))
  }

  lemma OneFrame(limit: nat, raw: Bytes)
    requires limit >= 4 && IsFrame(MySql(limit), raw)
    ensures Frames(MySql(limit), [] + raw) == Framed([raw], [], false) && Flatten([raw]) == raw
  {
    FramesInvertConcatenation(MySql(limit), [raw], []);
    assert [] + raw == raw && Flatten([raw]) == raw && raw + [] == raw;
  }

  lemma TwoFrames(limit: nat, first: Bytes, second: Bytes)
    requires limit >= 4 && IsFrame(MySql(limit), first) && IsFrame(MySql(limit), second)
    ensures Frames(MySql(limit), [] + (first + second)) == Framed([first, second], [], false)
  {
    FramesInvertConcatenation(MySql(limit), [first, second], []);
    assert [first, second][1..] == [second] && Flatten([second]) == second;
    assert Flatten([first, second]) + [] == [] + (first + second);
  }

  lemma OneDelivery(seen: bool, b: Backend, raw: Bytes)
    requires |raw| >= 4 && (seen ==> Deliver(b, raw[4..]).Delivered?)
    ensures HasHeaders([raw])
    ensures DeliverAll(seen, b, [raw]) == Passed(true, if seen then Deliver(b, raw[4..]).next else b, [raw], false)
  {
    var next := if seen then Deliver(b, raw[4..]).next else b;
    assert [raw][1..] == [] && [raw] + [] == [raw];
    assert DeliverAll(true, next, []) == Passed(true, next, [], false);
  }

  lemma GreetingIsHeard(setting: Setting, v: Conversation, raw: Bytes)
    requires setting.limit >= 4 && IsPacket(setting, raw) && !v.link.broken && !TakesCommands(v.link.client)
    requires v.link.backendBuffer == [] && v.door.inFlight == [raw] && !v.link.client.seen
    ensures IsPossible(setting, v, ServerHeard(raw))
    ensures Proceed(setting, v, ServerHeard(raw)) == Fetched(v, true, v.link.client.backend)
  {
    OneFrame(setting.limit, raw);
    OneDelivery(v.link.client.seen, v.link.client.backend, raw);
  }

  lemma OkIsHeard(setting: Setting, v: Conversation, raw: Bytes)
    requires setting.limit >= 4 && IsPacket(setting, raw) && !v.link.broken && !TakesCommands(v.link.client)
    requires v.link.backendBuffer == [] && v.door.inFlight == [raw] && v.link.client.seen
    requires Deliver(v.link.client.backend, raw[4..]).Delivered?
    ensures IsPossible(setting, v, ServerHeard(raw))
    ensures Proceed(setting, v, ServerHeard(raw)) == Fetched(v, true, Deliver(v.link.client.backend, raw[4..]).next)
  {
    OneFrame(setting.limit, raw);
    OneDelivery(v.link.client.seen, v.link.client.backend, raw);
  }

  lemma {:induction false} TurnsFollow(setting: Setting, v: Conversation, turn: Turn, more: seq<Turn>)
    requires IsPossible(setting, v, turn)
    ensures Converse(setting, v, [turn] + more) == Converse(setting, Proceed(setting, v, turn), more)
  {
    assert ([turn] + more)[1..] == more;
  }

  // ---------------------------------------------------------------------------
  // The states on the way
  // ---------------------------------------------------------------------------

  ghost function Greeted(v: Conversation): Conversation {
    v.(link := v.link.(client := v.link.client.(seen := true)), door := Door(true, 1, 0, [], [], false))
  }

  ghost function Spoken(v: Conversation, p: Packets): Conversation
    requires |p.response| >= 4 && |p.command| >= 4
  {
    var greeted := Greeted(v);
    greeted.(link := greeted.link.(queue := [PacketOf(p.response), PacketOf(p.command)]),
             heard := p.response + p.command)
  }

  /** The response and the command have both been passed on. */
  ghost function PassedOn(v: Conversation, p: Packets, h: Handshake): Conversation
    requires |p.response| >= 4 && |p.command| >= 4
  {
    var spoken := Spoken(v, p);
    var backend := Login.Respond(v.link.client.backend, h);
    spoken.(link := spoken.link.(client := spoken.link.client.(backend := backend), queue := []),
            door := spoken.door.(unread := [PacketOf(p.response), PacketOf(p.command)]))
  }

  /** The server has read the response and accepted the login. */
  ghost function LetIn(v: Conversation, p: Packets, h: Handshake): Conversation
    requires |p.response| >= 4 && |p.command| >= 4 && |p.ok| >= 4
  {
    var passed := PassedOn(v, p, h);
    var backend := passed.link.client.backend;
    passed.(link := passed.link.(client := passed.link.client.(backend := Deliver(backend, p.ok[4..]).next)),
            door := Door(true, 1, 1, [PacketOf(p.command)], [], true))
  }

  lemma GreetingFirst(setting: Setting, v: Conversation, p: Packets, more: seq<Turn>)
    requires ArePackets(setting, p) && !v.link.broken && !TakesCommands(v.link.client)
    requires v.door == Door(false, 0, 0, [], [], false) && v.link.backendBuffer == [] && !v.link.client.seen
    ensures Converse(setting, v, [ServerSpeaks(p.greeting, true)] + ([ServerHeard(p.greeting)] + more))
         == Converse(setting, Greeted(v), more)
  {
    var greeting := Proceed(setting, v, ServerSpeaks(p.greeting, true));
    assert [] + [p.greeting] == [p.greeting];
    TurnsFollow(setting, v, ServerSpeaks(p.greeting, true), [ServerHeard(p.greeting)] + more);
    GreetingIsHeard(setting, greeting, p.greeting);
    TurnsFollow(setting, greeting, ServerHeard(p.greeting), more);
  }

  lemma TwoAreCut(setting: Setting, l: Link, p: Packets)
    requires ArePackets(setting, p) && l.clientBuffer == [] && !l.broken
    ensures ReadFromClient(setting, l, p.response + p.command)
         == l.(queue := [PacketOf(p.response), PacketOf(p.command)])
  {
    TwoFrames(setting.limit, p.response, p.command);
    assert PacketsOf([p.response, p.command]) == [PacketOf(p.response), PacketOf(p.command)];
  }

  lemma ClientNext(setting: Setting, v: Conversation, p: Packets, more: seq<Turn>)
    requires ArePackets(setting, p) && !v.link.broken && v.link.client.backend.phase.Authentication?
    requires v.link.queue == [] && v.link.clientBuffer == [] && v.heard == []
    ensures Converse(setting, Greeted(v), [ClientSpeaks(p.response + p.command)] + more)
         == Converse(setting, Spoken(v, p), more)
  {
    TwoAreCut(setting, Greeted(v).link, p);
    assert [] + (p.response + p.command) == p.response + p.command;
    TurnsFollow(setting, Greeted(v), ClientSpeaks(p.response + p.command), more);
  }

  lemma BothArePassedOn(setting: Setting, v: Conversation, p: Packets, h: Handshake, policy: Policy, more: seq<Turn>)
    requires ArePackets(setting, p) && !v.link.broken && v.link.client.backend.phase.Authentication?
    requires v.link.client.backend.auth.phase == WaitingForClient
    requires setting.greeting.read(p.response[4..]) == Some(h) && !h.isSslRequest
    ensures Converse(setting, Spoken(v, p), [PacketPassed(policy)] + ([PacketPassed(policy)] + more))
         == Converse(setting, PassedOn(v, p, h), more)
  {
    var spoken, first := Spoken(v, p), FirstPassed(v, p, h);
    ResponseIsPassedOn(setting, v, p, h, policy);
    TurnsFollow(setting, spoken, PacketPassed(policy), [PacketPassed(policy)] + more);
    CommandIsPassedOn(setting, v, p, h, policy);
    TurnsFollow(setting, first, PacketPassed(policy), more);
  }

  /** The response has been passed on, and the command has not. */
  ghost function FirstPassed(v: Conversation, p: Packets, h: Handshake): Conversation
    requires |p.response| >= 4 && |p.command| >= 4
  {
    var passed := PassedOn(v, p, h);
    passed.(link := passed.link.(queue := [PacketOf(p.command)]),
            door := passed.door.(unread := [PacketOf(p.response)]))
  }

  lemma ResponseIsPassedOn(setting: Setting, v: Conversation, p: Packets, h: Handshake, policy: Policy)
    requires |p.response| >= 4 && |p.command| >= 4 && !v.link.broken && v.link.client.backend.phase.Authentication?
    requires v.link.client.backend.auth.phase == WaitingForClient
    requires setting.greeting.read(p.response[4..]) == Some(h) && !h.isSslRequest
    ensures PassPacket(setting, Spoken(v, p), policy) == FirstPassed(v, p, h)
  {
    assert Spoken(v, p).link.queue[1..] == [PacketOf(p.command)];
    assert [] + [PacketOf(p.response)] == [PacketOf(p.response)];
  }

  lemma CommandIsPassedOn(setting: Setting, v: Conversation, p: Packets, h: Handshake, policy: Policy)
    requires |p.response| >= 4 && |p.command| >= 4 && !v.link.broken && v.link.client.backend.phase.Authentication?
    requires v.link.client.backend.auth.phase == WaitingForClient && !h.isSslRequest
    ensures PassPacket(setting, FirstPassed(v, p, h), policy) == PassedOn(v, p, h)
  {
    assert FirstPassed(v, p, h).link.queue[1..] == [];
    assert [PacketOf(p.response)] + [PacketOf(p.command)] == [PacketOf(p.response), PacketOf(p.command)];
  }

  lemma OkLast(setting: Setting, v: Conversation, p: Packets, h: Handshake)
    requires ArePackets(setting, p) && !v.link.broken && v.link.client.backend.phase.Authentication?
    requires v.link.client.backend.auth.phase == WaitingForClient && !h.isSslRequest && v.link.backendBuffer == []
    requires |p.ok| > 4 && p.ok[4] == OK_MARKER
    requires StatusFromOk(Login.Respond(v.link.client.backend, h).session, p.ok[4..], h.caps).Routed?
    ensures Converse(setting, PassedOn(v, p, h),
                     [ServerReads] + ([ServerSpeaks(p.ok, false)] + ([ServerHeard(p.ok)] + [])))
         == Some(LetIn(v, p, h))
  {
    var passed := PassedOn(v, p, h);
    var taken := passed.(door := Door(true, 1, 1, [PacketOf(p.command)], [], false));
    TurnsFollow(setting, passed, ServerReads, [ServerSpeaks(p.ok, false)] + ([ServerHeard(p.ok)] + []));
    assert passed.door.unread[1..] == [PacketOf(p.command)];
    OkIsTaken(setting, taken, p);
    assert Fetched(taken.(door := Speak(taken.door, p.ok, false)), true,
                   Deliver(taken.link.client.backend, p.ok[4..]).next) == LetIn(v, p, h);
  }

  lemma OkIsTaken(setting: Setting, v: Conversation, p: Packets)
    requires ArePackets(setting, p) && !v.link.broken && v.link.client.seen && v.link.backendBuffer == []
    requires !TakesCommands(v.link.client) && Deliver(v.link.client.backend, p.ok[4..]).Delivered?
    requires v.door == Door(true, 1, 1, [PacketOf(p.command)], [], false)
    ensures Converse(setting, v, [ServerSpeaks(p.ok, false)] + ([ServerHeard(p.ok)] + []))
         == Some(Fetched(v.(door := Speak(v.door, p.ok, false)), true, Deliver(v.link.client.backend, p.ok[4..]).next))
  {
    var sent := v.(door := Speak(v.door, p.ok, false));
    assert sent.door.inFlight == [p.ok];
    TurnsFollow(setting, v, ServerSpeaks(p.ok, false), [ServerHeard(p.ok)] + []);
    OkIsHeard(setting, sent, p.ok);
    TurnsFollow(setting, sent, ServerHeard(p.ok), []);
  }

  lemma LetInTakesCommands(v: Conversation, p: Packets, h: Handshake)
    requires |p.response| >= 4 && |p.command| >= 4 && |p.ok| > 4 && p.ok[4] == OK_MARKER
    requires v.link.client.backend.phase.Authentication? && v.link.client.backend.auth.phase == WaitingForClient
    requires Only(v.link.client.backend.session, NoTag) && !h.isSslRequest
    requires StatusFromOk(Login.Respond(v.link.client.backend, h).session, p.ok[4..], h.caps).Routed?
    ensures var l := LetIn(v, p, h).link;
      && TakesCommands(l.client) && l.client.backend.auth.caps == h.caps && Only(l.client.backend.session, NoTag)
  {
  }

  lemma OpeningTakesOk(b: Backend, p: Packets, h: Handshake)
    requires |p.ok| > 4 && Has(h.caps, CLIENT_PROTOCOL_41) && ParseOkStatus(p.ok[4..], h.caps).Some?
    ensures StatusFromOk(Login.Respond(b, h).session, p.ok[4..], h.caps).Routed?
  {
  }

  /** Nothing has happened yet. */
  ghost predicate IsUntouched(v: Conversation) {
    && !v.link.broken && !v.link.client.seen && v.link.queue == [] && v.link.clientBuffer == [] && v.heard == []
    && v.door == Door(false, 0, 0, [], [], false) && v.link.backendBuffer == []
    && v.link.client.backend.phase.Authentication? && v.link.client.backend.auth.phase == WaitingForClient
  }

  lemma UpToTheCommand(setting: Setting, v: Conversation, p: Packets, more: seq<Turn>)
    requires ArePackets(setting, p) && IsUntouched(v)
    ensures Converse(setting, v, [ServerSpeaks(p.greeting, true)] + ([ServerHeard(p.greeting)]
                                 + ([ClientSpeaks(p.response + p.command)] + more)))
         == Converse(setting, Spoken(v, p), more)
  {
    GreetingFirst(setting, v, p, [ClientSpeaks(p.response + p.command)] + more);
    ClientNext(setting, v, p, more);
  }

  lemma FromTheCommand(setting: Setting, v: Conversation, p: Packets, h: Handshake, policy: Policy)
    requires ArePackets(setting, p) && |p.ok| > 4 && p.ok[4] == OK_MARKER && IsUntouched(v)
    requires setting.greeting.read(p.response[4..]) == Some(h) && !h.isSslRequest
    requires StatusFromOk(Login.Respond(v.link.client.backend, h).session, p.ok[4..], h.caps).Routed?
    ensures Converse(setting, Spoken(v, p), TurnsFromTheCommand(p, policy)) == Some(LetIn(v, p, h))
  {
    var end := [ServerReads] + ([ServerSpeaks(p.ok, false)] + ([ServerHeard(p.ok)] + []));
    BothArePassedOn(setting, v, p, h, policy, end);
    OkLast(setting, v, p, h);
  }

  ghost function TurnsFromTheCommand(p: Packets, policy: Policy): seq<Turn> {
    [PacketPassed(policy)] + ([PacketPassed(policy)]
      + ([ServerReads] + ([ServerSpeaks(p.ok, false)] + ([ServerHeard(p.ok)] + []))))
  }

  lemma AllTurns(p: Packets, policy: Policy)
    ensures Turns(p, policy)
         == [ServerSpeaks(p.greeting, true)] + ([ServerHeard(p.greeting)]
            + ([ClientSpeaks(p.response + p.command)] + TurnsFromTheCommand(p, policy)))
  {
  }

  lemma HastyTurns(setting: Setting, v: Conversation, p: Packets, h: Handshake, policy: Policy)
    requires ArePackets(setting, p) && |p.ok| > 4 && p.ok[4] == OK_MARKER && IsUntouched(v)
    requires setting.greeting.read(p.response[4..]) == Some(h) && !h.isSslRequest
    requires StatusFromOk(Login.Respond(v.link.client.backend, h).session, p.ok[4..], h.caps).Routed?
    ensures Converse(setting, v, Turns(p, policy)) == Some(LetIn(v, p, h))
  {
    AllTurns(p, policy);
    UpToTheCommand(setting, v, p, TurnsFromTheCommand(p, policy));
    FromTheCommand(setting, v, p, h, policy);
  }

  /**
   Whatever the command and whatever the policy: sent right behind the handshake response it is the next thing
   the server takes, while the session has nothing pending that the answer could belong to.
   */
  lemma CommandBehindTheResponse(setting: Setting, database: string, maxStatements: nat, maxBytes: nat, p: Packets,
                                 h: Handshake, policy: Policy) returns (v: Conversation)
    requires ArePackets(setting, p) && |p.ok| > 4 && p.ok[4] == OK_MARKER
    requires setting.greeting.read(p.response[4..]) == Some(h) && !h.isSslRequest
    requires Has(h.caps, CLIENT_PROTOCOL_41) && ParseOkStatus(p.ok[4..], h.caps).Some?
    ensures Converse(setting, Opening(database, maxStatements, maxBytes), Turns(p, policy)) == Some(v)
    ensures IsConversation(setting, v) && TakesCommands(v.link.client) && v.link.client.backend.auth.caps == h.caps
    ensures v.door.unread == [PacketOf(p.command)] && Only(v.link.client.backend.session, NoTag)
  {
    var start := Opening(database, maxStatements, maxBytes);
    OpeningTakesOk(start.link.client.backend, p, h);
    HastyTurns(setting, start, p, h, policy);
    LetInTakesCommands(start, p, h);
    v := LetIn(start, p, h);
    assert IsTurnedInto(setting, v, database, maxStatements, maxBytes, Turns(p, policy));
  }

  lemma OkIsPacket(caps: nat) returns (raw: Bytes)
    requires Has(caps, CLIENT_PROTOCOL_41)
    ensures IsFrame(MySql(64), raw) && |raw| > 4 && raw[4] == OK_MARKER && ParseOkStatus(raw[4..], caps).Some?
  {
    var fields := OkFields(0, 0, 2, 0, []);
    OkIsRead(OK_MARKER, fields, caps);
    BuiltPacketReadsBack(64, OkPacket(OK_MARKER, fields), 2);
    raw := BuildPacket(OkPacket(OK_MARKER, fields), 2).value;
  }

  lemma LargerLimit(raw: Bytes, limit: nat)
    requires IsFrame(MySql(64), raw) && limit >= 64
    ensures IsFrame(MySql(limit), raw)
  {
  }

  /** A setting in which any handshake response asks for the plain protocol. */
  function PlainSetting(limit: nat): Setting {
    var h := Handshake(CLIENT_PROTOCOL_41, None, false);
    Setting(World(CLIENT_PROTOCOL_41, false), limit, Greeting((b: Bytes) => Some(h), []))
  }

  lemma PlainIsPlain(limit: nat, response: Bytes)
    ensures IsPlainProtocol(PlainSetting(limit).world.caps) && PlainSetting(limit).limit == limit
    ensures PlainSetting(limit).greeting.read(response) == Some(Handshake(CLIENT_PROTOCOL_41, None, false))
  {
  }

  lemma PacketsAroundQuery(query: Bytes) returns (p: Packets)
    requires |query| < MAX_PACKET_PAYLOAD
    ensures ArePackets(PlainSetting(|query| + 64), p) && PacketOf(p.command).payload == [COM_QUERY] + query
    ensures |p.ok| > 4 && p.ok[4] == OK_MARKER && ParseOkStatus(p.ok[4..], CLIENT_PROTOCOL_41).Some?
  {
    var limit := |query| + 64;
    var ok := OkIsPacket(CLIENT_PROTOCOL_41);
    LargerLimit(ok, limit);
    BuiltPacketReadsBack(limit, [10], 0);
    BuiltPacketReadsBack(limit, [0], 1);
    BuiltPacketReadsBack(limit, [COM_QUERY] + query, 0);
    var command := BuildPacket([COM_QUERY] + query, 0).value;
    p := Packets(BuildPacket([10], 0).value, BuildPacket([0], 1).value, command, ok);
  }

  /** In such a connection any query at all is the server's next command, approved or not. */
  lemma UnapprovedQueryIsNext(query: Bytes, policy: Policy) returns (setting: Setting, v: Conversation)
    requires TextOf(query).Some? && !policy.approve(TextOf(query).value) && |query| < MAX_PACKET_PAYLOAD
    ensures IsPlainProtocol(setting.world.caps) && IsConversation(setting, v) && TakesCommands(v.link.client)
    ensures IsInCommand(setting, v.link.client.backend) && Only(v.link.client.backend.session, NoTag)
    ensures |v.door.unread| == 1 && v.door.unread[0].payload == [COM_QUERY] + query
  {
    setting := PlainSetting(|query| + 64);
    var p := PacketsAroundQuery(query);
    PlainIsPlain(|query| + 64, p.response[4..]);
    v := CommandBehindTheResponse(setting, "d", 1, 1, p, Handshake(CLIENT_PROTOCOL_41, None, false), policy);
  }
}
