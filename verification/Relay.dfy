/**
 The relay: both byte streams cut into packets, the login passed through, commands assembled
 and dispatched, the backend's packets routed.
 */
module Relay {
  import opened Wire
  import opened Framing
  import opened Assembler
  import opened Dispatch
  import opened Login

  predicate HasHeaders(frames: seq<Bytes>) {
    forall i :: 0 <= i < |frames| ==> |frames[i]| >= 4
  }

  lemma {:induction false} FramesHaveHeaders(limit: nat, frames: seq<Bytes>)
    requires AreFrames(MySql(limit), frames)
    ensures HasHeaders(frames)
  {
    if frames != [] {
      FramesHaveHeaders(limit, frames[1..]);
    }
  }

  /** Cutting two reads gives the frames of one read of both. */
  lemma FramesJoin(limit: nat, buffer: Bytes, first: Bytes, more: Bytes)
    requires limit >= 4 && !Frames(MySql(limit), buffer + (first + more)).failed
    ensures var p := MySql(limit);
      var f, whole := Frames(p, buffer + first), Frames(p, buffer + (first + more));
      var g := Frames(p, f.rest + more);
      && !f.failed && !g.failed && g.rest == whole.rest && whole.frames == f.frames + g.frames
      && HasHeaders(f.frames) && HasHeaders(g.frames) && HasHeaders(whole.frames)
  {
    var p := MySql(limit);
    var f := Frames(p, buffer + first);
    Assoc(buffer, first, more);
    FramesContinue(p, buffer + first, more);
    FramesAreWhole(p, buffer + first);
    FramesHaveHeaders(limit, f.frames);
    FramesAreWhole(p, f.rest + more);
    FramesHaveHeaders(limit, Frames(p, f.rest + more).frames);
  }

  // ---------------------------------------------------------------------------
  // From the backend
  // ---------------------------------------------------------------------------

  /** seen: the backend's handshake has been passed to the client. */
  datatype Passed = Passed(seen: bool, next: Backend, toClient: seq<Bytes>, failed: bool)

  function Behind(sent: seq<Bytes>, p: Passed): Passed {
    p.(toClient := sent + p.toClient)
  }

  ghost function DeliverAll(seen: bool, b: Backend, frames: seq<Bytes>): Passed
    requires HasHeaders(frames)
    decreases |frames|
  {
    if frames == [] then Passed(seen, b, [], false)
    else if !seen then Behind([frames[0]], DeliverAll(true, b, frames[1..]))
    else
      match Deliver(b, frames[0][4..])
      case Delivered(next) => Behind([frames[0]], DeliverAll(true, next, frames[1..]))
      case Undelivered(next) => Passed(true, next, [], true)
      case DeliveredThenRaised(next) => Passed(true, next, [frames[0]], true)
  }

  /** While nothing raises the client receives every packet, unchanged and in order. */
  lemma {:induction false} BackendIsTransparent(seen: bool, b: Backend, frames: seq<Bytes>)
    requires HasHeaders(frames) && !DeliverAll(seen, b, frames).failed
    ensures DeliverAll(seen, b, frames).toClient == frames
    decreases |frames|
  {
    if frames != [] {
      var next := if seen then Deliver(b, frames[0][4..]).next else b;
      BackendIsTransparent(true, next, frames[1..]);
      assert [frames[0]] + frames[1..] == frames;
    }
  }

  lemma {:induction false} DeliveryContinues(seen: bool, b: Backend, first: seq<Bytes>, more: seq<Bytes>)
    requires HasHeaders(first) && HasHeaders(more)
    ensures HasHeaders(first + more)
    ensures var p := DeliverAll(seen, b, first);
      DeliverAll(seen, b, first + more) == if p.failed then p else Behind(p.toClient, DeliverAll(p.seen, p.next, more))
    decreases |first|
  {
    if first == [] {
      assert first + more == more && [] + DeliverAll(seen, b, more).toClient == DeliverAll(seen, b, more).toClient;
    } else {
      assert (first + more)[1..] == first[1..] + more;
      var next := if seen then Deliver(b, first[0][4..]).next else b;
      DeliveryContinues(true, next, first[1..], more);
      var p := DeliverAll(true, next, first[1..]);
      Assoc([first[0]], p.toClient, DeliverAll(p.seen, p.next, more).toClient);
    }
  }

  /** The loop's step: one more packet, and the end if it raises. */
  lemma DeliverNext(seen: bool, b: Backend, frames: seq<Bytes>, i: nat)
    requires HasHeaders(frames) && i < |frames| && !DeliverAll(seen, b, frames[..i]).failed
    ensures var p := DeliverAll(seen, b, frames[..i]);
      var step := DeliverAll(p.seen, p.next, [frames[i]]);
      && DeliverAll(seen, b, frames[..i + 1]) == Behind(p.toClient, step)
      && (step.failed ==> DeliverAll(seen, b, frames) == Behind(p.toClient, step))
  {
    DeliveryContinues(seen, b, frames[..i], [frames[i]]);
    assert frames[..i] + [frames[i]] == frames[..i + 1];
    DeliveryContinues(seen, b, frames[..i + 1], frames[i + 1..]);
    assert frames[..i + 1] + frames[i + 1..] == frames;
  }

  /** One read from the backend: cut, then delivered; a cut that fails delivers nothing. */
  datatype BackendRead = BackendRead(buffer: Bytes, passed: Passed)

  ghost function ReadBackend(limit: nat, buffer: Bytes, seen: bool, b: Backend, chunk: Bytes): BackendRead {
    var f := Frames(MySql(limit), buffer + chunk);
    if f.failed || !HasHeaders(f.frames) then BackendRead(f.rest, Passed(seen, b, [], true))
    else BackendRead(f.rest, DeliverAll(seen, b, f.frames))
  }

  ghost function ReadAllBackend(limit: nat, buffer: Bytes, seen: bool, b: Backend, chunks: seq<Bytes>): BackendRead
    decreases |chunks|
  {
    if chunks == [] then BackendRead(buffer, Passed(seen, b, [], false))
    else
      var r := ReadBackend(limit, buffer, seen, b, chunks[0]);
      if r.passed.failed then r
      else
        var others := ReadAllBackend(limit, r.buffer, r.passed.seen, r.passed.next, chunks[1..]);
        others.(passed := Behind(r.passed.toClient, others.passed))
  }

  lemma ReadKeepsUnfinished(limit: nat, buffer: Bytes, seen: bool, b: Backend, chunk: Bytes)
    requires limit >= 4 && !ReadBackend(limit, buffer, seen, b, chunk).passed.failed
    ensures FrontOf(MySql(limit), ReadBackend(limit, buffer, seen, b, chunk).buffer) == NeedMore
  {
    FramesAreWhole(MySql(limit), buffer + chunk);
  }

  /** Two reads end as one read of both. */
  lemma ReadsJoin(limit: nat, buffer: Bytes, seen: bool, b: Backend, first: Bytes, more: Bytes)
    requires limit >= 4
    requires !ReadBackend(limit, buffer, seen, b, first + more).passed.failed
    ensures var r := ReadBackend(limit, buffer, seen, b, first);
      var whole := ReadBackend(limit, buffer, seen, b, first + more);
      && !r.passed.failed
      && var next := ReadBackend(limit, r.buffer, r.passed.seen, r.passed.next, more);
         whole == next.(passed := Behind(r.passed.toClient, next.passed))
  {
    FramesJoin(limit, buffer, first, more);
    var f := Frames(MySql(limit), buffer + first);
    DeliveryContinues(seen, b, f.frames, Frames(MySql(limit), f.rest + more).frames);
  }

  /**
   However the backend's stream is cut into reads, if reading it at once raises nothing then
   the client and the session end the same, and the client has received exactly the bytes of
   the stream but for an unfinished packet.
   */
  lemma {:induction false} BackendReadsAgree(limit: nat, buffer: Bytes, seen: bool, b: Backend, chunks: seq<Bytes>)
    requires limit >= 4 && FrontOf(MySql(limit), buffer) == NeedMore
    requires !ReadBackend(limit, buffer, seen, b, Flatten(chunks)).passed.failed
    ensures ReadAllBackend(limit, buffer, seen, b, chunks) == ReadBackend(limit, buffer, seen, b, Flatten(chunks))
    ensures var r := ReadAllBackend(limit, buffer, seen, b, chunks);
      Flatten(r.passed.toClient) + r.buffer == buffer + Flatten(chunks)
    decreases |chunks|
  {
    var whole := Frames(MySql(limit), buffer + Flatten(chunks));
    FramesAreExact(MySql(limit), buffer + Flatten(chunks));
    BackendIsTransparent(seen, b, whole.frames);
    if chunks == [] {
      assert buffer + [] == buffer;
    } else {
      ReadsJoin(limit, buffer, seen, b, chunks[0], Flatten(chunks[1..]));
      var r := ReadBackend(limit, buffer, seen, b, chunks[0]);
      ReadKeepsUnfinished(limit, buffer, seen, b, chunks[0]);
      BackendReadsAgree(limit, r.buffer, r.passed.seen, r.passed.next, chunks[1..]);
    }
  }

  // ---------------------------------------------------------------------------
  // From the client
  // ---------------------------------------------------------------------------

  /** Reading the handshake response, and the text of the answer to a TLS request. */
  datatype Greeting = Greeting(read: Bytes -> Option<Handshake>, tlsText: ErrorText)

  datatype Client = Client(seen: bool, backend: Backend, partial: Partial)

  /** Going: on to the next packet. Suspended: the message waits for a prepare. Failed: the source raises. */
  datatype Fate = Going | Suspended(message: LogicalMessage) | Failed

  datatype Taken = Taken(next: Client, toBackend: seq<Bytes>, toClient: seq<Bytes>, fate: Fate)

  /** Error 3159 with SQLSTATE HY000. */
  function TlsError(text: ErrorText, sequenceId: byte): Bytes {
    Pow256Values();
    BuildPacket([0xFF] + ToLE(3159, 2) + [0x23, 0x48, 0x59, 0x30, 0x30, 0x30] + text, sequenceId).value
  }

  function TakeLogin(c: Client, packet: Packet, greeting: Greeting): Taken {
    var handshake := greeting.read(packet.payload);
    if handshake.None? then Taken(c, [], [], Failed)
    else
      var next := c.(backend := Login.Respond(c.backend, handshake.value));
      if handshake.value.isSslRequest then
        Taken(next, [], [TlsError(greeting.tlsText, (packet.sequenceId + 1) % 256)], Going)
      else Taken(next, [packet.raw], [], Going)
  }

  function TakeMessage(c: Client, m: LogicalMessage, policy: Policy): Taken {
    TakeEffect(c, m, Dispatch.Dispatch(c.backend.session, m, policy))
  }

  function TakeEffect(c: Client, m: LogicalMessage, effect: Effect): Taken {
    match effect
    case Wait => Taken(c, [], [], Suspended(m))
    case Crash(next, toBackend, _) => Taken(c.(backend := c.backend.(session := next)), toBackend, [], Failed)
    case Effect(next, toBackend, toClient, _) =>
      Taken(c.(backend := c.backend.(session := next)), toBackend, toClient, Going)
  }

  function TakeCommandPacket(limit: nat, c: Client, packet: Packet, policy: Policy): Taken {
    match Assembler.Push(limit, c.partial, packet)
    case Pending(next) => Taken(c.(partial := next), [], [], Going)
    case Complete(m) => TakeMessage(c.(partial := EMPTY), m, policy)
    case _ => Taken(c.(partial := EMPTY), [], [], Failed)
  }

  function Take(limit: nat, c: Client, packet: Packet, policy: Policy, greeting: Greeting): Taken {
    if !c.seen then Taken(c, [], [], Failed)
    else if c.backend.auth.phase == WaitingForClient then TakeLogin(c, packet, greeting)
    else
      match c.backend.phase
      case Authentication => Taken(c, [packet.raw], [], Going)
      case Closed => Taken(c, [], [], Failed)
      case CommandResponse => TakeCommandPacket(limit, c, packet, policy)
  }

  function Before(first: Taken, t: Taken): Taken {
    t.(toBackend := first.toBackend + t.toBackend, toClient := first.toClient + t.toClient)
  }

  /** Packet after packet, up to the first that does not let the next one follow. */
  function TakeAll(limit: nat, c: Client, packets: seq<Packet>, policy: Policy, greeting: Greeting): Taken
    decreases |packets|
  {
    if packets == [] then Taken(c, [], [], Going)
    else
      var first := Take(limit, c, packets[0], policy, greeting);
      if first.fate != Going then first else Before(first, TakeAll(limit, first.next, packets[1..], policy, greeting))
  }

  /** After a wait the execution is taken up again, and then the packets left behind it. */
  function TakeResumed(limit: nat, c: Client, m: LogicalMessage, left: seq<Packet>, policy: Policy, greeting: Greeting)
    : Taken
    requires m.payload != []
  {
    var first := TakeEffect(c, m, ResumeExecute(c.backend.session, m, policy));
    if first.fate != Going then first else Before(first, TakeAll(limit, first.next, left, policy, greeting))
  }

  lemma BeforeAssociates(a: Taken, b: Taken, c: Taken)
    ensures Before(a, Before(b, c)) == Before(Before(a, b), c)
  {
    Assoc(a.toBackend, b.toBackend, c.toBackend);
    Assoc(a.toClient, b.toClient, c.toClient);
  }

  lemma {:induction false} TakingContinues(limit: nat, c: Client, first: seq<Packet>, more: seq<Packet>,
                                           policy: Policy, greeting: Greeting)
    ensures var t := TakeAll(limit, c, first, policy, greeting);
      TakeAll(limit, c, first + more, policy, greeting)
      == if t.fate != Going then t else Before(t, TakeAll(limit, t.next, more, policy, greeting))
    decreases |first|
  {
    if first == [] {
      var t := TakeAll(limit, c, more, policy, greeting);
      assert first + more == more && [] + t.toBackend == t.toBackend && [] + t.toClient == t.toClient;
    } else {
      assert (first + more)[1..] == first[1..] + more;
      var step := Take(limit, c, first[0], policy, greeting);
      if step.fate == Going {
        TakingContinues(limit, step.next, first[1..], more, policy, greeting);
        var t := TakeAll(limit, step.next, first[1..], policy, greeting);
        BeforeAssociates(step, t, TakeAll(limit, t.next, more, policy, greeting));
      }
    }
  }

  lemma TakeSingle(limit: nat, c: Client, packet: Packet, policy: Policy, greeting: Greeting)
    ensures TakeAll(limit, c, [packet], policy, greeting) == Take(limit, c, packet, policy, greeting)
  {
    var first := Take(limit, c, packet, policy, greeting);
    assert [packet][1..] == [];
    assert first.toBackend + [] == first.toBackend && first.toClient + [] == first.toClient;
  }

  /** The loop's step: one more packet. */
  lemma TakeNext(limit: nat, c: Client, packets: seq<Packet>, i: nat, policy: Policy, greeting: Greeting)
    requires i < |packets| && TakeAll(limit, c, packets[..i], policy, greeting).fate == Going
    ensures var t := TakeAll(limit, c, packets[..i], policy, greeting);
      TakeAll(limit, c, packets[..i + 1], policy, greeting)
        == Before(t, Take(limit, t.next, packets[i], policy, greeting))
  {
    var t := TakeAll(limit, c, packets[..i], policy, greeting);
    TakeSingle(limit, t.next, packets[i], policy, greeting);
    TakingContinues(limit, c, packets[..i], [packets[i]], policy, greeting);
    assert packets[..i] + [packets[i]] == packets[..i + 1];
  }

  /** Nothing follows a packet that waits or raises. */
  lemma TakingStops(limit: nat, c: Client, packets: seq<Packet>, i: nat, policy: Policy, greeting: Greeting)
    requires i <= |packets| && TakeAll(limit, c, packets[..i], policy, greeting).fate != Going
    ensures TakeAll(limit, c, packets, policy, greeting) == TakeAll(limit, c, packets[..i], policy, greeting)
  {
    TakeDrop(packets, i);
    TakingContinues(limit, c, packets[..i], packets[i..], policy, greeting);
  }

  function PacketsOf(frames: seq<Bytes>): (packets: seq<Packet>)
    requires HasHeaders(frames)
    ensures ArePackets(frames, packets)
  {
    seq(|frames|, i requires 0 <= i < |frames| => PacketOf(frames[i]))
  }

  lemma PacketsJoin(first: seq<Bytes>, more: seq<Bytes>)
    requires HasHeaders(first) && HasHeaders(more)
    ensures HasHeaders(first + more) && PacketsOf(first + more) == PacketsOf(first) + PacketsOf(more)
  {
  }

  /** What is taken from whole frames, one after another. */
  function TakeFrames(limit: nat, c: Client, frames: seq<Bytes>, policy: Policy, greeting: Greeting): Taken
    requires HasHeaders(frames)
  {
    TakeAll(limit, c, PacketsOf(frames), policy, greeting)
  }

  /** One read from the client: cut, then taken; a cut that fails takes nothing. */
  datatype ClientRead = ClientRead(buffer: Bytes, taken: Taken)

  function ReadClient(limit: nat, buffer: Bytes, c: Client, chunk: Bytes, policy: Policy, greeting: Greeting)
    : ClientRead
  {
    var f := Frames(MySql(limit), buffer + chunk);
    if f.failed || !HasHeaders(f.frames) then ClientRead(f.rest, Taken(c, [], [], Failed))
    else ClientRead(f.rest, TakeFrames(limit, c, f.frames, policy, greeting))
  }

  lemma TakingFramesContinues(limit: nat, c: Client, first: seq<Bytes>, more: seq<Bytes>, policy: Policy,
                              greeting: Greeting)
    requires HasHeaders(first) && HasHeaders(more)
    ensures HasHeaders(first + more)
    ensures var t := TakeFrames(limit, c, first, policy, greeting);
      TakeFrames(limit, c, first + more, policy, greeting)
      == if t.fate != Going then t else Before(t, TakeFrames(limit, t.next, more, policy, greeting))
  {
    PacketsJoin(first, more);
    TakingContinues(limit, c, PacketsOf(first), PacketsOf(more), policy, greeting);
  }

  /**
   The client's stream may be cut anywhere: what is taken from two reads is what is taken from
   one read of both, unless the first read already stops.
   */
  lemma ClientReadsJoin(limit: nat, buffer: Bytes, c: Client, first: Bytes, more: Bytes, policy: Policy,
                        greeting: Greeting)
    requires limit >= 4 && !Frames(MySql(limit), buffer + (first + more)).failed
    ensures var r := ReadClient(limit, buffer, c, first, policy, greeting);
      var whole := ReadClient(limit, buffer, c, first + more, policy, greeting);
      if r.taken.fate != Going then whole.taken == r.taken
      else
        var next := ReadClient(limit, r.buffer, r.taken.next, more, policy, greeting);
        whole == next.(taken := Before(r.taken, next.taken))
  {
    var f := Frames(MySql(limit), buffer + first);
    FramesJoin(limit, buffer, first, more);
    TakingFramesContinues(limit, c, f.frames, Frames(MySql(limit), f.rest + more).frames, policy, greeting);
  }

  /** Before the backend has accepted the login every packet goes through as it came. */
  lemma {:induction false} LoginIsTransparent(limit: nat, c: Client, packets: seq<Packet>, policy: Policy,
                                              greeting: Greeting)
    requires c.seen && c.backend.auth.phase == Authenticating && c.backend.phase == Authentication
    ensures TakeAll(limit, c, packets, policy, greeting)
         == Taken(c, seq(|packets|, i requires 0 <= i < |packets| => packets[i].raw), [], Going)
    decreases |packets|
  {
    if packets != [] {
      LoginIsTransparent(limit, c, packets[1..], policy, greeting);
      var raws := seq(|packets|, i requires 0 <= i < |packets| => packets[i].raw);
      assert raws == [packets[0].raw] + seq(|packets[1..]|, i requires 0 <= i < |packets[1..]| => packets[1..][i].raw);
    }
  }

  predicate TakesCommands(c: Client) {
    c.seen && c.backend.phase == CommandResponse && c.backend.auth.phase == Authenticated
  }

  lemma LastPacketDispatches(limit: nat, c: Client, packet: Packet, m: LogicalMessage, policy: Policy,
                             greeting: Greeting)
    requires TakesCommands(c) && Assembler.Push(limit, c.partial, packet) == Complete(m)
    ensures TakeAll(limit, c, [packet], policy, greeting) == TakeMessage(c.(partial := EMPTY), m, policy)
  {
    TakeSingle(limit, c, packet, policy, greeting);
  }

  lemma MorePacketsFollow(limit: nat, c: Client, packet: Packet, next: Partial, more: seq<Packet>, policy: Policy,
                          greeting: Greeting)
    requires TakesCommands(c) && Assembler.Push(limit, c.partial, packet) == Pending(next)
    ensures TakeAll(limit, c, [packet] + more, policy, greeting)
         == TakeAll(limit, c.(partial := next), more, policy, greeting)
  {
    assert ([packet] + more)[1..] == more;
    PendingIsTaken(limit, c, packet, next, policy, greeting);
    BehindNothing(c.(partial := next), TakeAll(limit, c.(partial := next), more, policy, greeting));
  }

  lemma PendingIsTaken(limit: nat, c: Client, packet: Packet, next: Partial, policy: Policy, greeting: Greeting)
    requires TakesCommands(c) && Assembler.Push(limit, c.partial, packet) == Pending(next)
    ensures Take(limit, c, packet, policy, greeting) == Taken(c.(partial := next), [], [], Going)
  {
  }

  lemma BehindNothing(c: Client, t: Taken)
    ensures Before(Taken(c, [], [], Going), t) == t
  {
    assert [] + t.toBackend == t.toBackend && [] + t.toClient == t.toClient;
  }

  /** A command split over packets by its length is dispatched once, whole, with its packets as they came. */
  lemma {:induction false} SplitCommandIsDispatched(limit: nat, c: Client, payload: Bytes, sequenceId: byte,
                                                    policy: Policy, greeting: Greeting)
    requires TakesCommands(c) && MayFollow(limit, c.partial, payload, sequenceId)
    ensures TakeAll(limit, c, Split(payload, sequenceId), policy, greeting)
         == TakeMessage(c.(partial := EMPTY), Joined(c.partial, payload, sequenceId), policy)
    decreases |payload|
  {
    var packet := Split(payload, sequenceId)[0];
    if |payload| < MAX_PACKET_PAYLOAD {
      PushShort(limit, c.partial, payload, sequenceId);
      LastPacketDispatches(limit, c, packet, Joined(c.partial, payload, sequenceId), policy, greeting);
    } else {
      var (rest, next) := (payload[MAX_PACKET_PAYLOAD..], (sequenceId + 1) % 256);
      PushFull(limit, c.partial, payload, packet, Split(rest, next));
      var pending := Assembler.Push(limit, c.partial, packet).next;
      MorePacketsFollow(limit, c, packet, pending, Split(rest, next), policy, greeting);
      SplitCommandIsDispatched(limit, c.(partial := pending), rest, next, policy, greeting);
    }
  }
}
