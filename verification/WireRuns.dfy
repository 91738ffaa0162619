/**
 Runs over bytes, once the login is over: the client's stream and the server's reach the proxy in reads of
 any size, are cut into packets and assembled into commands, and the runs of module ProxyRuns are what happens.
 */
module WireRuns {
  import opened Wire
  import opened Framing
  import opened Assembler
  import opened Dispatch
  import opened Login
  import opened Relay
  import opened ProxyRuns
  import Scanner

  /**
   client: what the relay has made of the client's packets. clientBuffer and backendBuffer: the bytes of
   unfinished packets. queue: packets of the last read from the client that are still to be taken.
   */
  datatype Link = Link(
    client: Client, clientBuffer: Bytes, queue: seq<Packet>, backendBuffer: Bytes,
    waiting: Option<LogicalMessage>, server: Server, broken: bool)

  /** limit: the largest packet let through, header included, and the largest command. */
  datatype Setting = Setting(world: World, limit: nat, greeting: Greeting)

  datatype LinkEvent =
    | ReadClientBytes(chunk: Bytes)
    | PacketTaken(policy: Policy)
    | WaitIsOver(policy: Policy)
    | CommandTaken(choice: Choice)
    | ReadServerBytes(chunk: Bytes, raws: seq<Bytes>)

  ghost function AsSystem(l: Link): System {
    System(l.client.backend.session, l.waiting, l.server, None)
  }

  // ---------------------------------------------------------------------------
  // The server's bytes
  // ---------------------------------------------------------------------------

  /** Frames around the next packets the server owes, under any sequence ids. */
  ghost predicate IsStreamOf(setting: Setting, owed: Owed, raws: seq<Bytes>)
    decreases |raws|
  {
    raws == []
    || (&& owed != NoDebt && IsOwed(setting.world, owed)
        && IsFrame(MySql(setting.limit), raws[0]) && |raws[0]| >= 4 && raws[0][4..] == PacketToSend(setting.world, owed)
        && IsStreamOf(setting, OwedAfterSend(setting.world, owed), raws[1..]))
  }

  ghost function OwedAfter(setting: Setting, owed: Owed, raws: seq<Bytes>): Owed
    requires IsStreamOf(setting, owed, raws)
    decreases |raws|
  {
    if raws == [] then owed else OwedAfter(setting, OwedAfterSend(setting.world, owed), raws[1..])
  }

  // ---------------------------------------------------------------------------
  // Steps
  // ---------------------------------------------------------------------------

  ghost predicate IsOpen(setting: Setting, l: Link, e: LinkEvent) {
    && !l.broken
    && match e
       case ReadClientBytes(_) => l.waiting.None? && l.queue == []
       case PacketTaken(policy) => l.waiting.None? && l.queue != [] && !policy.mode.Permissive?
       case WaitIsOver(policy) => IsEnabled(setting.world, AsSystem(l), WaitEnds(policy))
       case CommandTaken(choice) => IsEnabled(setting.world, AsSystem(l), ServerTakes(choice))
       case ReadServerBytes(chunk, raws) =>
         IsStreamOf(setting, l.server.owed, raws) && l.backendBuffer + chunk <= Flatten(raws)
  }

  /** What a command dispatched by the relay adds to the server's inbox. */
  ghost function Joining(l: Link, m: LogicalMessage, effect: Effect, policy: Policy): Server {
    if effect.Effect? && effect.toBackend != [] then
      l.server.(inbox := l.server.inbox + [Parcel(m, effect.inspected, policy)])
    else l.server
  }

  ghost function ReadFromClient(setting: Setting, l: Link, chunk: Bytes): Link {
    var f := Frames(MySql(setting.limit), l.clientBuffer + chunk);
    if f.failed || !HasHeaders(f.frames) then l.(clientBuffer := f.rest, broken := true)
    else l.(clientBuffer := f.rest, queue := PacketsOf(f.frames))
  }

  ghost function TakePacket(setting: Setting, l: Link, policy: Policy): Link
    requires l.queue != []
  {
    var taken := Take(setting.limit, l.client, l.queue[0], policy, setting.greeting);
    var pushed := Assembler.Push(setting.limit, l.client.partial, l.queue[0]);
    var server :=
      if pushed.Complete? then
        Joining(l, pushed.message, Dispatch.Dispatch(l.client.backend.session, pushed.message, policy), policy)
      else l.server;
    l.(client := taken.next, queue := l.queue[1..], server := server,
       waiting := if taken.fate.Suspended? then Some(taken.fate.message) else None, broken := taken.fate.Failed?)
  }

  ghost function EndWait(l: Link, policy: Policy): Link
    requires l.waiting.Some? && l.waiting.value.payload != []
  {
    var m := l.waiting.value;
    var effect := ResumeExecute(l.client.backend.session, m, policy);
    var session := if effect.Wait? then l.client.backend.session else effect.next;
    l.(client := l.client.(backend := l.client.backend.(session := session)), server := Joining(l, m, effect, policy),
       waiting := if effect.Wait? then Some(m) else None, broken := effect.Crash?)
  }

  ghost function ReadFromBackend(setting: Setting, l: Link, chunk: Bytes, raws: seq<Bytes>): Link
    requires IsStreamOf(setting, l.server.owed, raws)
  {
    var r := ReadBackend(setting.limit, l.backendBuffer, true, l.client.backend, chunk);
    var sent := if r.passed.failed || |r.passed.toClient| > |raws| then 0 else |r.passed.toClient|;
    StreamPrefix(setting, l.server.owed, raws, sent);
    l.(client := l.client.(backend := r.passed.next), backendBuffer := r.buffer, broken := r.passed.failed,
       server := l.server.(owed := OwedAfter(setting, l.server.owed, raws[..sent])))
  }

  ghost function LinkNext(setting: Setting, l: Link, e: LinkEvent): Link
    requires IsOpen(setting, l, e)
  {
    match e
    case ReadClientBytes(chunk) => ReadFromClient(setting, l, chunk)
    case PacketTaken(policy) => TakePacket(setting, l, policy)
    case WaitIsOver(policy) => EndWait(l, policy)
    case CommandTaken(choice) => l.(server := TakeFirst(setting.world, l.server, choice))
    case ReadServerBytes(chunk, raws) => ReadFromBackend(setting, l, chunk, raws)
  }

  ghost function LinkRun(setting: Setting, l: Link, events: seq<LinkEvent>): Option<Link>
    decreases |events|
  {
    if events == [] then Some(l)
    else if !IsOpen(setting, l, events[0]) then None
    else LinkRun(setting, LinkNext(setting, l, events[0]), events[1..])
  }

  lemma {:induction false} StreamPrefix(setting: Setting, owed: Owed, raws: seq<Bytes>, k: nat)
    requires IsStreamOf(setting, owed, raws) && k <= |raws|
    ensures IsStreamOf(setting, owed, raws[..k])
    decreases k
  {
    if k > 0 {
      StreamPrefix(setting, OwedAfterSend(setting.world, owed), raws[1..], k - 1);
      assert raws[..k][1..] == raws[1..][..k - 1];
    }
  }

  // ---------------------------------------------------------------------------
  // Cutting the server's stream
  // ---------------------------------------------------------------------------

  /** What is shorter than a frame it begins holds no frame. */
  lemma ShortOfAFrame(limit: nat, raw: Bytes, b: Bytes)
    requires IsFrame(MySql(limit), raw) && b <= raw && |b| < |raw|
    ensures FrontOf(MySql(limit), b) == NeedMore
  {
    assert b + raw[|b|..] == raw;
    if FrontOf(MySql(limit), b) != NeedMore {
      FrontIsStable(MySql(limit), b, raw[|b|..]);
    }
  }

  ghost predicate AreAllFrames(limit: nat, raws: seq<Bytes>) {
    forall i :: 0 <= i < |raws| ==> IsFrame(MySql(limit), raws[i])
  }

  /** Of any beginning of a stream of frames the cut takes the frames that are there. */
  lemma {:induction false} BeginningIsCut(limit: nat, raws: seq<Bytes>, b: Bytes) returns (k: nat)
    requires AreAllFrames(limit, raws) && b <= Flatten(raws)
    ensures k <= |raws| && Frames(MySql(limit), b).frames == raws[..k] && !Frames(MySql(limit), b).failed
    decreases |raws|
  {
    k := 0;
    if raws != [] {
      var first, tail := raws[0], Flatten(raws[1..]);
      if |b| < |first| {
        assert b == Flatten(raws)[..|b|] == first[..|b|];
        ShortOfAFrame(limit, first, b);
      } else {
        assert b[..|first|] == first && b[|first|..] <= tail;
        TakeDrop(b, |first|);
        FrontIsStable(MySql(limit), first, b[|first|..]);
        var j := BeginningIsCut(limit, raws[1..], b[|first|..]);
        k := j + 1;
        assert raws[..k] == [first] + raws[1..][..j];
      }
    }
  }

  lemma {:induction false} StreamIsFrames(setting: Setting, owed: Owed, raws: seq<Bytes>)
    requires IsStreamOf(setting, owed, raws)
    ensures AreAllFrames(setting.limit, raws) && HasHeaders(raws)
    decreases |raws|
  {
    if raws != [] {
      StreamIsFrames(setting, OwedAfterSend(setting.world, owed), raws[1..]);
      assert forall i :: 0 < i < |raws| ==> raws[i] == raws[1..][i - 1];
    }
  }

  // ---------------------------------------------------------------------------
  // Deliveries are the server's sends
  // ---------------------------------------------------------------------------

  ghost function Sends(n: nat): seq<Event> {
    if n == 0 then [] else [ServerSends] + Sends(n - 1)
  }

  lemma RunOfOne(world: World, sys: System, e: Event, more: seq<Event>)
    requires IsEnabled(world, sys, e)
    ensures Run(world, sys, [e] + more) == Run(world, Next(world, sys, e), more)
    ensures Run(world, sys, [e]) == Some(Next(world, sys, e))
  {
    assert ([e] + more)[1..] == more && [e][1..] == [];
  }

  lemma {:induction false} RunsJoin(world: World, sys: System, first: seq<Event>, more: seq<Event>)
    requires Run(world, sys, first).Some?
    ensures Run(world, sys, first + more) == Run(world, Run(world, sys, first).value, more)
    decreases |first|
  {
    if first == [] {
      assert first + more == more;
    } else {
      assert (first + more)[1..] == first[1..] + more;
      RunsJoin(world, Next(world, sys, first[0]), first[1..], more);
    }
  }

  /** The backend the relay sees in a session that takes commands. */
  ghost predicate IsInCommand(setting: Setting, b: Backend) {
    b.phase.CommandResponse? && b.auth.phase.Authenticated? && b.auth.caps == setting.world.caps
  }

  /** One packet delivered is one packet sent. */
  lemma DeliveryIsSend(setting: Setting, sys: System, b: Backend)
    requires IsInCommand(setting, b) && sys.session == b.session && sys.ended.None?
    requires sys.server.owed != NoDebt && IsOwed(setting.world, sys.server.owed)
    requires Deliver(b, PacketToSend(setting.world, sys.server.owed)).Delivered?
    ensures var next := Deliver(b, PacketToSend(setting.world, sys.server.owed)).next;
      && IsEnabled(setting.world, sys, ServerSends)
      && Next(setting.world, sys, ServerSends)
         == sys.(session := next.session, server := sys.server.(owed := OwedAfterSend(setting.world, sys.server.owed)))
      && IsInCommand(setting, next)
  {
  }

  lemma FirstDelivery(b: Backend, raws: seq<Bytes>)
    requires raws != [] && HasHeaders(raws) && !DeliverAll(true, b, raws).failed
    ensures Deliver(b, raws[0][4..]).Delivered?
    ensures var rest := DeliverAll(true, Deliver(b, raws[0][4..]).next, raws[1..]);
      DeliverAll(true, b, raws) == Behind([raws[0]], rest) && !rest.failed
  {
  }

  lemma {:induction false} DeliveriesAreSends(setting: Setting, sys: System, b: Backend, raws: seq<Bytes>)
    requires IsInCommand(setting, b) && sys.session == b.session && sys.ended.None?
    requires IsStreamOf(setting, sys.server.owed, raws) && HasHeaders(raws) && !DeliverAll(true, b, raws).failed
    ensures var p := DeliverAll(true, b, raws);
      && p.toClient == raws && IsInCommand(setting, p.next)
      && Run(setting.world, sys, Sends(|raws|))
         == Some(sys.(session := p.next.session,
                      server := sys.server.(owed := OwedAfter(setting, sys.server.owed, raws))))
    decreases |raws|
  {
    if raws != [] {
      var owed := sys.server.owed;
      FirstDelivery(b, raws);
      var next := Deliver(b, PacketToSend(setting.world, owed)).next;
      var after := sys.(session := next.session, server := sys.server.(owed := OwedAfterSend(setting.world, owed)));
      DeliveryIsSend(setting, sys, b);
      RunOfOne(setting.world, sys, ServerSends, Sends(|raws| - 1));
      DeliveriesAreSends(setting, after, next, raws[1..]);
      DropOne(raws, 0);
    }
  }

  // ---------------------------------------------------------------------------
  // What is forwarded reads back
  // ---------------------------------------------------------------------------

  ghost predicate AreCutPackets(limit: nat, packets: seq<Packet>) {
    forall i :: 0 <= i < |packets| ==>
      IsFrame(MySql(limit), packets[i].raw) && |packets[i].raw| >= 4 && packets[i] == PacketOf(packets[i].raw)
  }

  /** The raw packets kept so far are frames, and feeding them gives the same parts again. */
  ghost predicate IsFramedPartial(limit: nat, a: Partial) {
    && AreAllFrames(limit, a.raws) && HasHeaders(a.raws)
    && Feed(limit, EMPTY, PacketsOf(a.raws)) == Fed(a, [], false)
  }

  /** Whoever cuts and assembles the bytes forwarded for a command gets that command, and nothing else. */
  ghost predicate IsReadBack(limit: nat, m: LogicalMessage) {
    var f := Frames(MySql(limit), m.rawPackets);
    !f.failed && f.rest == [] && HasHeaders(f.frames)
      && Feed(limit, EMPTY, PacketsOf(f.frames)) == Fed(EMPTY, [m], false)
  }

  ghost predicate AreReadBack(limit: nat, inbox: seq<Parcel>) {
    forall i :: 0 <= i < |inbox| ==> IsReadBack(limit, inbox[i].message)
  }

  lemma {:induction false} FeedMore(limit: nat, a: Partial, packets: seq<Packet>, packet: Packet)
    requires !Feed(limit, a, packets).failed
    ensures var fed := Feed(limit, a, packets);
      var pushed := Assembler.Push(limit, fed.left, packet);
      && (pushed.Pending? ==> Feed(limit, a, packets + [packet]) == Fed(pushed.next, fed.messages, false))
      && (pushed.Complete? ==> Feed(limit, a, packets + [packet]) == Fed(EMPTY, fed.messages + [pushed.message], false))
    decreases |packets|
  {
    if packets == [] {
      assert packets + [packet] == [packet] + [];
      FeedOne(limit, a, packet, []);
      assert [] + [packet] == [packet];
    } else {
      assert (packets + [packet])[1..] == packets[1..] + [packet];
      var pushed := Assembler.Push(limit, a, packets[0]);
      var next := if pushed.Pending? then pushed.next else EMPTY;
      FeedMore(limit, next, packets[1..], packet);
      if pushed.Complete? {
        JoinOne(pushed.message, Feed(limit, EMPTY, packets[1..]).messages, packets, packet);
      }
    }
  }

  lemma JoinOne<T, U>(message: T, messages: seq<T>, packets: seq<U>, packet: U)
    ensures forall last: T :: ([message] + messages) + [last] == [message] + (messages + [last])
  {
  }

  lemma {:induction false} AllFramesAreFrames(limit: nat, raws: seq<Bytes>)
    requires AreAllFrames(limit, raws)
    ensures AreFrames(MySql(limit), raws)
  {
    if raws != [] {
      AllFramesAreFrames(limit, raws[1..]);
    }
  }

  lemma {:induction false} FramesAreAllFrames(limit: nat, raws: seq<Bytes>)
    requires AreFrames(MySql(limit), raws)
    ensures AreAllFrames(limit, raws)
  {
    if raws != [] {
      FramesAreAllFrames(limit, raws[1..]);
      assert forall i :: 0 < i < |raws| ==> raws[i] == raws[1..][i - 1];
    }
  }

  lemma OneRawMore(limit: nat, raws: seq<Bytes>, packet: Packet)
    requires AreAllFrames(limit, raws) && HasHeaders(raws)
    requires IsFrame(MySql(limit), packet.raw) && |packet.raw| >= 4 && packet == PacketOf(packet.raw)
    ensures AreAllFrames(limit, raws + [packet.raw]) && HasHeaders(raws + [packet.raw])
    ensures PacketsOf(raws + [packet.raw]) == PacketsOf(raws) + [packet]
  {
  }

  /** One packet more keeps the parts readable, or completes a command that reads back. */
  lemma PushReadsBack(limit: nat, a: Partial, packet: Packet)
    requires limit >= 4 && IsFramedPartial(limit, a)
    requires IsFrame(MySql(limit), packet.raw) && |packet.raw| >= 4 && packet == PacketOf(packet.raw)
    ensures var pushed := Assembler.Push(limit, a, packet);
      (pushed.Pending? ==> IsFramedPartial(limit, pushed.next))
        && (pushed.Complete? ==> IsReadBack(limit, pushed.message))
  {
    var pushed, raws := Assembler.Push(limit, a, packet), a.raws + [packet.raw];
    OneRawMore(limit, a.raws, packet);
    FeedMore(limit, EMPTY, PacketsOf(a.raws), packet);
    if pushed.Complete? {
      AllFramesAreFrames(limit, raws);
      FramesInvertConcatenation(MySql(limit), raws, []);
      assert Flatten(raws) + [] == Flatten(raws);
    }
  }

  // ---------------------------------------------------------------------------
  // Every run over bytes is a run
  // ---------------------------------------------------------------------------

  ghost predicate IsSound(setting: Setting, l: Link) {
    && setting.limit >= 4
    && l.client.seen && IsInCommand(setting, l.client.backend)
    && AreCutPackets(setting.limit, l.queue) && IsFramedPartial(setting.limit, l.client.partial)
    && AreReadBack(setting.limit, l.server.inbox)
    && (l.waiting.Some? ==> IsReadBack(setting.limit, l.waiting.value))
  }

  lemma ClientReadIsSound(setting: Setting, l: Link, chunk: Bytes)
    requires IsSound(setting, l) && IsOpen(setting, l, ReadClientBytes(chunk))
    requires !LinkNext(setting, l, ReadClientBytes(chunk)).broken
    ensures var next := LinkNext(setting, l, ReadClientBytes(chunk));
      IsSound(setting, next) && AsSystem(next) == AsSystem(l)
  {
    var f := Frames(MySql(setting.limit), l.clientBuffer + chunk);
    FramesAreWhole(MySql(setting.limit), l.clientBuffer + chunk);
    FramesAreAllFrames(setting.limit, f.frames);
  }

  lemma JoiningReadsBack(setting: Setting, l: Link, m: LogicalMessage, effect: Effect, policy: Policy)
    requires AreReadBack(setting.limit, l.server.inbox) && IsReadBack(setting.limit, m)
    ensures AreReadBack(setting.limit, Joining(l, m, effect, policy).inbox)
  {
  }

  /** A packet that completes a command is that command sent. */
  lemma CompletedIsSent(setting: Setting, l: Link, m: LogicalMessage, policy: Policy)
    requires IsSound(setting, l) && IsOpen(setting, l, PacketTaken(policy))
    requires Assembler.Push(setting.limit, l.client.partial, l.queue[0]) == Complete(m)
    requires !TakePacket(setting, l, policy).broken
    ensures IsEnabled(setting.world, AsSystem(l), ClientSends(m, policy))
    ensures Next(setting.world, AsSystem(l), ClientSends(m, policy)) == AsSystem(TakePacket(setting, l, policy))
    ensures IsInCommand(setting, TakePacket(setting, l, policy).client.backend)
  {
  }

  lemma PacketIsSound(setting: Setting, l: Link, policy: Policy)
    requires IsSound(setting, l) && IsOpen(setting, l, PacketTaken(policy)) && !TakePacket(setting, l, policy).broken
    ensures var next := TakePacket(setting, l, policy); IsSound(setting, next)
  {
    var packet, limit := l.queue[0], setting.limit;
    PushReadsBack(limit, l.client.partial, packet);
    var pushed := Assembler.Push(limit, l.client.partial, packet);
    if pushed.Complete? {
      CompletedIsSound(setting, l, pushed.message, policy);
    }
  }

  lemma CompletedIsSound(setting: Setting, l: Link, m: LogicalMessage, policy: Policy)
    requires IsSound(setting, l) && IsOpen(setting, l, PacketTaken(policy)) && !TakePacket(setting, l, policy).broken
    requires Assembler.Push(setting.limit, l.client.partial, l.queue[0]) == Complete(m) && IsReadBack(setting.limit, m)
    ensures IsSound(setting, TakePacket(setting, l, policy))
  {
    JoiningReadsBack(setting, l, m, Dispatch.Dispatch(l.client.backend.session, m, policy), policy);
    CompletedIsSent(setting, l, m, policy);
    NothingIsFramed(setting.limit);
  }

  lemma NothingIsFramed(limit: nat)
    ensures IsFramedPartial(limit, EMPTY)
  {
    assert PacketsOf([]) == [];
  }

  lemma PacketIsRun(setting: Setting, l: Link, policy: Policy) returns (events: seq<Event>)
    requires IsSound(setting, l) && IsOpen(setting, l, PacketTaken(policy)) && !TakePacket(setting, l, policy).broken
    ensures Run(setting.world, AsSystem(l), events) == Some(AsSystem(TakePacket(setting, l, policy)))
  {
    var pushed := Assembler.Push(setting.limit, l.client.partial, l.queue[0]);
    if pushed.Complete? {
      CompletedIsSent(setting, l, pushed.message, policy);
      RunOfOne(setting.world, AsSystem(l), ClientSends(pushed.message, policy), []);
      events := [ClientSends(pushed.message, policy)];
    } else {
      events := [];
    }
  }

  lemma WaitIsRun(setting: Setting, l: Link, policy: Policy)
    requires IsSound(setting, l) && IsOpen(setting, l, WaitIsOver(policy)) && !EndWait(l, policy).broken
    ensures Next(setting.world, AsSystem(l), WaitEnds(policy)) == AsSystem(EndWait(l, policy))
    ensures IsSound(setting, EndWait(l, policy))
  {
    JoiningReadsBack(setting, l, l.waiting.value, ResumeExecute(l.client.backend.session, l.waiting.value, policy),
                     policy);
  }

  lemma TakenReadsBack(setting: Setting, l: Link, choice: Choice)
    requires l.server.inbox != [] && AreReadBack(setting.limit, l.server.inbox)
    ensures AreReadBack(setting.limit, TakeFirst(setting.world, l.server, choice).inbox)
  {
    assert TakeFirst(setting.world, l.server, choice).inbox == l.server.inbox[1..];
  }

  lemma BackendReadIsRun(setting: Setting, l: Link, chunk: Bytes, raws: seq<Bytes>) returns (k: nat)
    requires IsSound(setting, l) && IsOpen(setting, l, ReadServerBytes(chunk, raws))
    requires !ReadFromBackend(setting, l, chunk, raws).broken
    ensures var next := ReadFromBackend(setting, l, chunk, raws);
      Run(setting.world, AsSystem(l), Sends(k)) == Some(AsSystem(next)) && IsSound(setting, next)
  {
    StreamIsFrames(setting, l.server.owed, raws);
    k := BeginningIsCut(setting.limit, raws, l.backendBuffer + chunk);
    StreamPrefix(setting, l.server.owed, raws, k);
    StreamIsFrames(setting, l.server.owed, raws[..k]);
    DeliveriesAreSends(setting, AsSystem(l), l.client.backend, raws[..k]);
  }

  lemma LinkStepIsRun(setting: Setting, l: Link, e: LinkEvent) returns (events: seq<Event>)
    requires IsSound(setting, l) && IsOpen(setting, l, e) && !LinkNext(setting, l, e).broken
    ensures var next := LinkNext(setting, l, e);
      Run(setting.world, AsSystem(l), events) == Some(AsSystem(next)) && IsSound(setting, next)
  {
    match e {
      case ReadClientBytes(chunk) =>
        ClientReadIsSound(setting, l, chunk);
        events := [];
      case PacketTaken(policy) =>
        PacketIsSound(setting, l, policy);
        events := PacketIsRun(setting, l, policy);
      case WaitIsOver(policy) =>
        WaitIsRun(setting, l, policy);
        RunOfOne(setting.world, AsSystem(l), WaitEnds(policy), []);
        events := [WaitEnds(policy)];
      case CommandTaken(choice) =>
        TakenReadsBack(setting, l, choice);
        RunOfOne(setting.world, AsSystem(l), ServerTakes(choice), []);
        events := [ServerTakes(choice)];
      case ReadServerBytes(chunk, raws) =>
        var k := BackendReadIsRun(setting, l, chunk, raws);
        events := Sends(k);
    }
  }

  /** However both streams are cut into reads, and in whatever order they are taken, what happens is a run. */
  lemma {:induction false} LinkRunIsRun(setting: Setting, l: Link, es: seq<LinkEvent>) returns (events: seq<Event>)
    requires IsSound(setting, l) && !l.broken && LinkRun(setting, l, es).Some? && !LinkRun(setting, l, es).value.broken
    ensures var end := LinkRun(setting, l, es).value;
      Run(setting.world, AsSystem(l), events) == Some(AsSystem(end)) && IsSound(setting, end)
    decreases |es|
  {
    if es == [] {
      events := [];
    } else {
      var next := LinkNext(setting, l, es[0]);
      BrokenStays(setting, next, es[1..]);
      var first := LinkStepIsRun(setting, l, es[0]);
      var more := LinkRunIsRun(setting, next, es[1..]);
      events := first + more;
      RunsJoin(setting.world, AsSystem(l), first, more);
    }
  }

  lemma BrokenStays(setting: Setting, l: Link, es: seq<LinkEvent>)
    requires LinkRun(setting, l, es).Some?
    ensures l.broken ==> LinkRun(setting, l, es).value.broken
  {
  }
}
