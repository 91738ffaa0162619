/** The relay's objects, with both loops over the packets of a read. */
module RelayState {
  import opened Wire
  import opened Framing
  import opened Assembler
  import opened Session
  import opened SessionState
  import opened Dispatch
  import opened Dispatcher
  import opened Login
  import opened BackendRouter
  import opened Streams
  import opened Relay

  class MySqlRelayState {
    const clientFramer: MySqlPacketFramer
    const backendFramer: MySqlPacketFramer
    const commandAssembler: MySqlLogicalMessageAssembler
    const backend: MySqlBackendState
    var initialBackendHandshakeSeen: bool

    ghost predicate Valid()
      reads this, clientFramer, backendFramer, commandAssembler
    {
      && clientFramer != backendFramer && commandAssembler.Valid()
      && clientFramer.Valid() && backendFramer.Valid()
    }

    ghost function ClientView(): Client
      reads this, commandAssembler, backend, backend.auth, backend.session
    {
      Client(initialBackendHandshakeSeen, backend.View(), commandAssembler.View())
    }

    constructor (database: string, maxPacketBytes: nat, maxItems: nat, maxStateBytes: nat)
      requires maxPacketBytes >= 4
      ensures Valid() && fresh(clientFramer) && fresh(backendFramer) && fresh(commandAssembler) && fresh(backend)
      ensures ClientView() == Client(false, FreshBackend(Fresh(database, maxItems, maxStateBytes)), EMPTY)
      ensures clientFramer.buffer == [] && backendFramer.buffer == []
      ensures clientFramer.maxPacketBytes == backendFramer.maxPacketBytes == commandAssembler.maxMessageBytes
           == maxPacketBytes
    {
      clientFramer := new MySqlPacketFramer(maxPacketBytes);
      backendFramer := new MySqlPacketFramer(maxPacketBytes);
      commandAssembler := new MySqlLogicalMessageAssembler(maxPacketBytes);
      var auth := new MySqlAuthState(database);
      var session := new MySqlSessionState(database, maxItems, maxStateBytes);
      backend := new MySqlBackendState(auth, session);
      initialBackendHandshakeSeen := false;
    }

    /** One packet of a read from the backend. */
    method DeliverPacket(packet: Packet, client: StreamWriter) returns (raised: bool)
      requires |packet.raw| >= 4 && packet.payload == packet.raw[4..]
      modifies this`initialBackendHandshakeSeen, backend, backend.auth, backend.session, client
      ensures var p := DeliverAll(old(initialBackendHandshakeSeen), old(backend.View()), [packet.raw]);
        && raised == p.failed && initialBackendHandshakeSeen == p.seen && backend.View() == p.next
        && client.written == old(client.written) + p.toClient
    {
      assert [packet.raw][1..] == [];
      if !initialBackendHandshakeSeen {
        client.Write(packet.raw);
        initialBackendHandshakeSeen := true;
        return false;
      }
      var delivered := backend.RouteBackendPacket(packet.payload, packet.raw, client);
      return !delivered;
    }

    /** raised is the source's exception. */
    method ProcessBackendChunk(chunk: Bytes, client: StreamWriter) returns (raised: bool)
      requires Valid()
      modifies this`initialBackendHandshakeSeen, backendFramer, backend, backend.auth, backend.session, client
      ensures var r := ReadBackend(backendFramer.maxPacketBytes, old(backendFramer.buffer),
                                   old(initialBackendHandshakeSeen), old(backend.View()), chunk);
        && raised == r.passed.failed && backendFramer.buffer == r.buffer
        && initialBackendHandshakeSeen == r.passed.seen && backend.View() == r.passed.next
        && client.written == old(client.written) + r.passed.toClient
      ensures clientFramer.buffer == old(clientFramer.buffer) && (!raised ==> Valid())
    {
      ghost var limit := backendFramer.maxPacketBytes;
      ghost var f := Frames(MySql(limit), backendFramer.buffer + chunk);
      ghost var before, seen := backend.View(), initialBackendHandshakeSeen;
      var packets := backendFramer.Push(chunk);
      if packets.None? {
        return true;
      }
      FramesAreWhole(MySql(limit), old(backendFramer.buffer) + chunk);
      FramesHaveHeaders(limit, f.frames);
      raised := DeliverPackets(packets.value, f.frames, client);
    }

    method DeliverPackets(packets: seq<Packet>, ghost frames: seq<Bytes>, client: StreamWriter) returns (raised: bool)
      requires HasHeaders(frames) && ArePackets(frames, packets)
      modifies this`initialBackendHandshakeSeen, backend, backend.auth, backend.session, client
      ensures var p := DeliverAll(old(initialBackendHandshakeSeen), old(backend.View()), frames);
        && raised == p.failed && initialBackendHandshakeSeen == p.seen && backend.View() == p.next
        && client.written == old(client.written) + p.toClient
    {
      ghost var seen, before := initialBackendHandshakeSeen, backend.View();
      for i := 0 to |packets|
        invariant var p := DeliverAll(seen, before, frames[..i]);
          && !p.failed && initialBackendHandshakeSeen == p.seen && backend.View() == p.next
          && client.written == old(client.written) + p.toClient
      {
        DeliverNext(seen, before, frames, i);
        raised := DeliverPacket(packets[i], client);
        if raised {
          return;
        }
      }
      assert frames[..|packets|] == frames;
      return false;
    }

    /** The client's handshake response. */
    method ProcessLogin(packet: Packet, greeting: Greeting, backendWriter: StreamWriter,
                        clientWriter: StreamWriter) returns (fate: Fate)
      requires backendWriter != clientWriter && backend.auth.phase == WaitingForClient
      modifies backend, backend.auth, backend.session, backendWriter, clientWriter
      ensures DidTake(TakeLogin(old(ClientView()), packet, greeting), fate, backendWriter, clientWriter)
    {
      var handshake := greeting.read(packet.payload);
      if handshake.None? {
        return Failed;
      }
      var _ := backend.auth.AcceptClientResponse(handshake.value);
      if handshake.value.isSslRequest {
        clientWriter.Write(TlsError(greeting.tlsText, (packet.sequenceId + 1) % 256));
        backend.phase := Closed;
        return Going;
      }
      SetDatabase(backend.auth.database);
      backendWriter.Write(packet.raw);
      return Going;
    }

    method SetDatabase(database: string)
      modifies backend.session
      ensures backend.session.View() == old(backend.session.View()).(database := database)
    {
      backend.session.database := database;
    }

    /** The relay and both streams have gone to what was to be taken. */
    twostate predicate DidTake(t: Taken, fate: Fate, backendWriter: StreamWriter, clientWriter: StreamWriter)
      reads this, commandAssembler, backend, backend.auth, backend.session, backendWriter, clientWriter
    {
      && fate == t.fate && ClientView() == t.next
      && backendWriter.written == old(backendWriter.written) + t.toBackend
      && clientWriter.written == old(clientWriter.written) + t.toClient
    }

    method ProcessMessage(message: LogicalMessage, policy: Policy, backendWriter: StreamWriter,
                          clientWriter: StreamWriter) returns (fate: Fate)
      requires backendWriter != clientWriter
      modifies backend.session, backendWriter, clientWriter
      ensures DidTake(TakeMessage(old(ClientView()), message, policy), fate, backendWriter, clientWriter)
    {
      var outcome := DispatchAuthenticatedCommand(message, policy, backend.session, backendWriter, clientWriter);
      match outcome {
        case Waiting => return Suspended(message);
        case Threw(_) => return Failed;
        case _ => return Going;
      }
    }

    method ProcessCommandPacket(packet: Packet, policy: Policy, backendWriter: StreamWriter,
                                clientWriter: StreamWriter) returns (fate: Fate)
      requires backendWriter != clientWriter && commandAssembler.Valid()
      modifies commandAssembler, backend.session, backendWriter, clientWriter
      ensures DidTake(TakeCommandPacket(commandAssembler.maxMessageBytes, old(ClientView()), packet, policy), fate,
                      backendWriter, clientWriter)
      ensures commandAssembler.Valid()
    {
      var failed, message := commandAssembler.PushPacket(packet);
      if failed {
        return Failed;
      }
      if message.None? {
        return Going;
      }
      fate := ProcessMessage(message.value, policy, backendWriter, clientWriter);
    }

    /** One packet of a read from the client, in the source's order of tests. */
    method ProcessClientPacket(packet: Packet, policy: Policy, greeting: Greeting, backendWriter: StreamWriter,
                               clientWriter: StreamWriter)
      returns (fate: Fate)
      requires backendWriter != clientWriter && commandAssembler.Valid()
      modifies commandAssembler, backend, backend.auth, backend.session, backendWriter, clientWriter
      ensures DidTake(Take(commandAssembler.maxMessageBytes, old(ClientView()), packet, policy, greeting), fate,
                      backendWriter, clientWriter)
      ensures commandAssembler.Valid()
    {
      if !initialBackendHandshakeSeen {
        return Failed;
      }
      if backend.auth.phase == WaitingForClient {
        fate := ProcessLogin(packet, greeting, backendWriter, clientWriter);
        return;
      }
      if backend.phase == Authentication {
        backendWriter.Write(packet.raw);
        return Going;
      }
      if backend.phase == Closed {
        return Failed;
      }
      fate := ProcessCommandPacket(packet, policy, backendWriter, clientWriter);
    }

    /** One turn of that loop; t is what the packets before have come to. */
    method ProcessNextPacket(packets: seq<Packet>, i: nat, ghost start: Client, ghost t: Taken, policy: Policy,
                             greeting: Greeting, backendWriter: StreamWriter, clientWriter: StreamWriter,
                             ghost sent: seq<Bytes>, ghost told: seq<Bytes>)
      returns (fate: Fate, ghost u: Taken)
      requires backendWriter != clientWriter && commandAssembler.Valid() && i < |packets|
      requires t == TakeAll(commandAssembler.maxMessageBytes, start, packets[..i], policy, greeting) && t.fate == Going
      requires ClientView() == t.next && backendWriter.written == sent + t.toBackend
      requires clientWriter.written == told + t.toClient
      modifies commandAssembler, backend, backend.auth, backend.session, backendWriter, clientWriter
      ensures commandAssembler.Valid()
      ensures u == TakeAll(commandAssembler.maxMessageBytes, start, packets[..i + 1], policy, greeting)
      ensures fate == u.fate
      ensures ClientView() == u.next && backendWriter.written == sent + u.toBackend
      ensures clientWriter.written == told + u.toClient
    {
      ghost var step := Take(commandAssembler.maxMessageBytes, t.next, packets[i], policy, greeting);
      TakeNext(commandAssembler.maxMessageBytes, start, packets, i, policy, greeting);
      fate := ProcessClientPacket(packets[i], policy, greeting, backendWriter, clientWriter);
      u := Before(t, step);
      Assoc(sent, t.toBackend, step.toBackend);
      Assoc(told, t.toClient, step.toClient);
    }

    /** The loop over a read's packets; left are those behind one that waits or raises. */
    method ProcessClientPackets(packets: seq<Packet>, policy: Policy, greeting: Greeting, backendWriter: StreamWriter,
                                clientWriter: StreamWriter)
      returns (fate: Fate, left: seq<Packet>)
      requires backendWriter != clientWriter && commandAssembler.Valid()
      modifies commandAssembler, backend, backend.auth, backend.session, backendWriter, clientWriter
      ensures DidTake(TakeAll(commandAssembler.maxMessageBytes, old(ClientView()), packets, policy, greeting), fate,
                      backendWriter, clientWriter)
      ensures commandAssembler.Valid() && |left| <= |packets| && left == packets[|packets| - |left|..]
      ensures fate == Going ==> left == []
    {
      ghost var limit, start := commandAssembler.maxMessageBytes, ClientView();
      ghost var sent, told := backendWriter.written, clientWriter.written;
      ghost var t := Taken(start, [], [], Going);
      for i := 0 to |packets|
        invariant commandAssembler.Valid()
        invariant t == TakeAll(limit, start, packets[..i], policy, greeting) && t.fate == Going
        invariant ClientView() == t.next && backendWriter.written == sent + t.toBackend
        invariant clientWriter.written == told + t.toClient
      {
        fate, t := ProcessNextPacket(packets, i, start, t, policy, greeting, backendWriter, clientWriter, sent, told);
        if fate != Going {
          TakingStops(limit, start, packets, i + 1, policy, greeting);
          return fate, packets[i + 1..];
        }
      }
      assert packets[..|packets|] == packets;
      return Going, [];
    }

    method ResumeMessage(message: LogicalMessage, policy: Policy, backendWriter: StreamWriter,
                         clientWriter: StreamWriter)
      returns (fate: Fate)
      requires backendWriter != clientWriter && message.payload != []
      modifies backend.session, backendWriter, clientWriter
      ensures DidTake(TakeEffect(old(ClientView()), message,
                                 ResumeExecute(old(backend.session.View()), message, policy)),
                      fate, backendWriter, clientWriter)
    {
      var outcome := ResumePipelinedExecute(message, policy, backend.session, backendWriter, clientWriter);
      match outcome {
        case Waiting => return Suspended(message);
        case Threw(_) => return Failed;
        case _ => return Going;
      }
    }

    /** The rest of the loop when the wait of an execution is over. */
    method ResumeClient(message: LogicalMessage, left: seq<Packet>, policy: Policy, greeting: Greeting,
                        backendWriter: StreamWriter, clientWriter: StreamWriter)
      returns (fate: Fate, rest: seq<Packet>)
      requires backendWriter != clientWriter && commandAssembler.Valid() && message.payload != []
      modifies commandAssembler, backend, backend.auth, backend.session, backendWriter, clientWriter
      ensures DidTake(TakeResumed(commandAssembler.maxMessageBytes, old(ClientView()), message, left, policy, greeting),
                      fate, backendWriter, clientWriter)
      ensures commandAssembler.Valid() && |rest| <= |left| && rest == left[|left| - |rest|..]
      ensures fate == Going ==> rest == []
    {
      ghost var before := ClientView();
      ghost var first := TakeEffect(before, message, ResumeExecute(backend.session.View(), message, policy));
      fate := ResumeMessage(message, policy, backendWriter, clientWriter);
      if fate != Going {
        return fate, left;
      }
      ghost var sent, told := backendWriter.written, clientWriter.written;
      ghost var others := TakeAll(commandAssembler.maxMessageBytes, first.next, left, policy, greeting);
      assert TakeResumed(commandAssembler.maxMessageBytes, before, message, left, policy, greeting)
          == Before(first, others);
      Assoc(old(backendWriter.written), first.toBackend, others.toBackend);
      Assoc(old(clientWriter.written), first.toClient, others.toClient);
      fate, rest := ProcessClientPackets(left, policy, greeting, backendWriter, clientWriter);
    }

    method CutClientChunk(chunk: Bytes) returns (packets: Option<seq<Packet>>)
      requires clientFramer.Valid()
      modifies clientFramer
      ensures var f := Frames(MySql(clientFramer.maxPacketBytes), old(clientFramer.buffer) + chunk);
        && clientFramer.buffer == f.rest && packets.None? == (f.failed || !HasHeaders(f.frames))
        && (packets.Some? ==> packets.value == PacketsOf(f.frames))
      ensures packets.Some? ==> clientFramer.Valid()
    {
      ghost var limit := clientFramer.maxPacketBytes;
      ghost var f := Frames(MySql(limit), clientFramer.buffer + chunk);
      packets := clientFramer.Push(chunk);
      if packets.Some? {
        FramesAreWhole(MySql(limit), old(clientFramer.buffer) + chunk);
        FramesHaveHeaders(limit, f.frames);
        assert packets.value == PacketsOf(f.frames);
      }
    }

    /** A failed cut takes nothing; otherwise whole packets are taken up to one that waits or raises. */
    method ProcessClientChunk(chunk: Bytes, policy: Policy, greeting: Greeting, backendWriter: StreamWriter,
                              clientWriter: StreamWriter)
      returns (fate: Fate, left: seq<Packet>)
      requires backendWriter != clientWriter && Valid()
      requires clientFramer.maxPacketBytes == commandAssembler.maxMessageBytes
      modifies clientFramer, commandAssembler, backend, backend.auth, backend.session, backendWriter, clientWriter
      ensures commandAssembler.Valid() && backendFramer.buffer == old(backendFramer.buffer)
      ensures fate == Going ==> Valid() && left == []
      ensures var r := ReadClient(clientFramer.maxPacketBytes, old(clientFramer.buffer), old(ClientView()), chunk,
                                  policy, greeting);
        clientFramer.buffer == r.buffer && DidTake(r.taken, fate, backendWriter, clientWriter)
    {
      var packets := CutClientChunk(chunk);
      if packets.None? {
        return Failed, [];
      }
      fate, left := ProcessClientPackets(packets.value, policy, greeting, backendWriter, clientWriter);
    }
  }
}
