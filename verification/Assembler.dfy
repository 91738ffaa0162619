/**
 Logical MySQL messages. A payload of 0xFFFFFF bytes or more travels in several
 packets with consecutive sequence ids; the first shorter packet ends it.
 */
module Assembler {
  import opened Wire
  import opened Framing

  datatype LogicalMessage = LogicalMessage(
    firstSequenceId: byte, lastSequenceId: byte, payload: Bytes, rawPackets: Bytes, packetCount: nat)

  datatype Partial = Partial(
    payloads: seq<Bytes>, raws: seq<Bytes>, first: Option<byte>, last: Option<byte>, count: nat)

  const EMPTY := Partial([], [], None, None, 0)

  datatype Pushed = Pending(next: Partial) | Complete(message: LogicalMessage) | SequenceMismatch | TooLarge

  function Push(limit: nat, a: Partial, packet: Packet): Pushed {
    if a.last.Some? && packet.sequenceId != (a.last.value + 1) % 256 then SequenceMismatch
    else
      var first := if a.first.None? then packet.sequenceId else a.first.value;
      var next := Partial(a.payloads + [packet.payload], a.raws + [packet.raw],
                          Some(first), Some(packet.sequenceId), a.count + 1);
      if |Flatten(next.payloads)| > limit then TooLarge
      else if |packet.payload| == MAX_PACKET_PAYLOAD then Pending(next)
      else Complete(LogicalMessage(first, packet.sequenceId, Flatten(next.payloads), Flatten(next.raws), next.count))
  }

  /** What holds between two packets: only full-size parts are ever kept. */
  predicate IsPartial(limit: nat, a: Partial) {
    && a.count == |a.payloads| == |a.raws|
    && (a.first.None? <==> a.count == 0)
    && (a.last.None? <==> a.count == 0)
    && (a.count > 0 ==> a.last.value == (a.first.value + a.count - 1) % 256)
    && (forall i :: 0 <= i < |a.payloads| ==> |a.payloads[i]| == MAX_PACKET_PAYLOAD)
    && |Flatten(a.payloads)| <= limit
  }

  lemma PushKeepsPartial(limit: nat, a: Partial, packet: Packet)
    requires IsPartial(limit, a)
    ensures var r := Push(limit, a, packet); r.Pending? ==> IsPartial(limit, r.next)
  {
    if a.count > 0 {
      NextInSequence(a.first.value, a.count);
    }
  }

  lemma NextInSequence(first: nat, count: nat)
    requires count > 0
    ensures ((first + count - 1) % 256 + 1) % 256 == (first + count) % 256
  {
  }

  /** Packets pushed one after another; a completed message leaves an empty assembler behind. */
  datatype Fed = Fed(left: Partial, messages: seq<LogicalMessage>, failed: bool)

  function Feed(limit: nat, a: Partial, packets: seq<Packet>): Fed
    decreases |packets|
  {
    if packets == [] then Fed(a, [], false)
    else
      match Push(limit, a, packets[0])
      case Pending(next) => Feed(limit, next, packets[1..])
      case Complete(message) =>
        var rest := Feed(limit, EMPTY, packets[1..]);
        rest.(messages := [message] + rest.messages)
      case SequenceMismatch => Fed(EMPTY, [], true)
      case TooLarge => Fed(EMPTY, [], true)
  }

  function PacketFor(payload: Bytes, sequenceId: byte): Packet
    requires |payload| <= MAX_PACKET_PAYLOAD
  {
    Packet(sequenceId, payload, BuildPacket(payload, sequenceId).value)
  }

  /** How a sender cuts a payload: full packets, then one that is shorter, possibly empty. */
  function Split(payload: Bytes, sequenceId: byte): (packets: seq<Packet>)
    ensures packets != []
    decreases |payload|
  {
    if |payload| < MAX_PACKET_PAYLOAD then [PacketFor(payload, sequenceId)]
    else
      var first, rest := PacketFor(payload[..MAX_PACKET_PAYLOAD], sequenceId), payload[MAX_PACKET_PAYLOAD..];
      [first] + Split(rest, (sequenceId + 1) % 256)
  }

  function RawsOf(packets: seq<Packet>): Bytes {
    if packets == [] then [] else packets[0].raw + RawsOf(packets[1..])
  }

  /** The message packets make that carry payload from sequenceId on, when a holds what came before. */
  function Assembled(a: Partial, payload: Bytes, sequenceId: byte, packets: seq<Packet>): LogicalMessage {
    LogicalMessage(
      if a.first.None? then sequenceId else a.first.value,
      (sequenceId + |packets| - 1) % 256,
      Flatten(a.payloads) + payload,
      Flatten(a.raws) + RawsOf(packets),
      a.count + |packets|)
  }

  function Joined(a: Partial, payload: Bytes, sequenceId: byte): LogicalMessage {
    Assembled(a, payload, sequenceId, Split(payload, sequenceId))
  }

  predicate MayFollow(limit: nat, a: Partial, payload: Bytes, sequenceId: byte) {
    && IsPartial(limit, a)
    && (a.last.Some? ==> sequenceId == (a.last.value + 1) % 256)
    && |Flatten(a.payloads)| + |payload| <= limit
  }

  lemma NextSequence(sequenceId: byte, n: int)
    ensures ((sequenceId + 1) % 256 + n) % 256 == (sequenceId + 1 + n) % 256
  {
  }

  /** A full packet leaves the same task for the rest of the payload. */
  lemma PushFull(limit: nat, a: Partial, payload: Bytes, packet: Packet, tail: seq<Packet>)
    requires MayFollow(limit, a, payload, packet.sequenceId) && |payload| >= MAX_PACKET_PAYLOAD
    requires packet.payload == payload[..MAX_PACKET_PAYLOAD]
    ensures var r := Push(limit, a, packet);
      var (rest, next) := (payload[MAX_PACKET_PAYLOAD..], (packet.sequenceId + 1) % 256);
      && r.Pending? && MayFollow(limit, r.next, rest, next)
      && Assembled(r.next, rest, next, tail) == Assembled(a, payload, packet.sequenceId, [packet] + tail)
  {
    FullIsPending(limit, a, payload, packet);
    PushKeepsPartial(limit, a, packet);
    var r := Push(limit, a, packet);
    CutAndJoin(Flatten(a.payloads), payload, MAX_PACKET_PAYLOAD);
    JoinRaws(Flatten(a.raws), packet, tail);
    NextSequence(packet.sequenceId, |tail| - 1);
    assert Flatten(r.next.payloads) + payload[MAX_PACKET_PAYLOAD..] == Flatten(a.payloads) + payload;
  }

  lemma FullIsPending(limit: nat, a: Partial, payload: Bytes, packet: Packet)
    requires MayFollow(limit, a, payload, packet.sequenceId) && |payload| >= MAX_PACKET_PAYLOAD
    requires packet.payload == payload[..MAX_PACKET_PAYLOAD]
    ensures var r := Push(limit, a, packet);
      && r.Pending? && r.next.count == a.count + 1 && r.next.last == Some(packet.sequenceId)
      && r.next.first == Some(if a.first.None? then packet.sequenceId else a.first.value)
      && Flatten(r.next.payloads) == Flatten(a.payloads) + packet.payload
      && Flatten(r.next.raws) == Flatten(a.raws) + packet.raw
  {
    FlattenOne(a.payloads, packet.payload);
    FlattenOne(a.raws, packet.raw);
  }

  lemma CutAndJoin(before: Bytes, b: Bytes, n: nat)
    requires n <= |b|
    ensures before + b[..n] + b[n..] == before + b
  {
    assert b[..n] + b[n..] == b;
    Assoc(before, b[..n], b[n..]);
  }

  lemma JoinRaws(before: Bytes, packet: Packet, tail: seq<Packet>)
    ensures before + packet.raw + RawsOf(tail) == before + RawsOf([packet] + tail)
  {
    assert ([packet] + tail)[1..] == tail;
    Assoc(before, packet.raw, RawsOf(tail));
  }

  lemma FlattenOne(parts: seq<Bytes>, part: Bytes)
    ensures Flatten(parts + [part]) == Flatten(parts) + part
  {
    FlattenAppend(parts, [part]);
    assert Flatten([part]) == part;
  }

  /** A shorter packet ends the message. */
  lemma PushShort(limit: nat, a: Partial, payload: Bytes, sequenceId: byte)
    requires MayFollow(limit, a, payload, sequenceId) && |payload| < MAX_PACKET_PAYLOAD
    ensures Push(limit, a, Split(payload, sequenceId)[0]) == Complete(Joined(a, payload, sequenceId))
  {
    var packet := PacketFor(payload, sequenceId);
    FlattenOne(a.payloads, payload);
    FlattenOne(a.raws, packet.raw);
    assert RawsOf([packet]) == packet.raw;
  }

  lemma FeedOne(limit: nat, a: Partial, packet: Packet, more: seq<Packet>)
    ensures var pushed := Push(limit, a, packet);
      && (pushed.Pending? ==> Feed(limit, a, [packet] + more) == Feed(limit, pushed.next, more))
      && (pushed.Complete? ==> var rest := Feed(limit, EMPTY, more);
            Feed(limit, a, [packet] + more) == rest.(messages := [pushed.message] + rest.messages))
  {
    assert ([packet] + more)[1..] == more;
  }

  /** Feeding what a sender splits gives exactly the message that was split. */
  lemma {:induction false} FeedSplit(limit: nat, a: Partial, payload: Bytes, sequenceId: byte, more: seq<Packet>)
    requires MayFollow(limit, a, payload, sequenceId)
    ensures var rest := Feed(limit, EMPTY, more);
      Feed(limit, a, Split(payload, sequenceId) + more)
      == rest.(messages := [Joined(a, payload, sequenceId)] + rest.messages)
    decreases |payload|
  {
    var packet := Split(payload, sequenceId)[0];
    if |payload| < MAX_PACKET_PAYLOAD {
      PushShort(limit, a, payload, sequenceId);
      FeedOne(limit, a, packet, more);
    } else {
      var (rest, next) := (payload[MAX_PACKET_PAYLOAD..], (sequenceId + 1) % 256);
      PushFull(limit, a, payload, packet, Split(rest, next));
      FeedOne(limit, a, packet, Split(rest, next) + more);
      FeedSplit(limit, Push(limit, a, packet).next, rest, next, more);
      Assoc([packet], Split(rest, next), more);
    }
  }

  /** Nothing is delivered before the last packet. */
  lemma {:induction false} SplitIsSilent(limit: nat, a: Partial, payload: Bytes, sequenceId: byte, k: nat)
    requires MayFollow(limit, a, payload, sequenceId)
    requires k < |Split(payload, sequenceId)|
    ensures var fed := Feed(limit, a, Split(payload, sequenceId)[..k]);
      !fed.failed && fed.messages == [] && IsPartial(limit, fed.left)
    decreases |payload|
  {
    var packets := Split(payload, sequenceId);
    if k > 0 {
      var (rest, next) := (payload[MAX_PACKET_PAYLOAD..], (sequenceId + 1) % 256);
      PushFull(limit, a, payload, packets[0], Split(rest, next));
      SplitIsSilent(limit, Push(limit, a, packets[0]).next, rest, next, k - 1);
      assert packets[..k][1..] == Split(rest, next)[..k - 1];
    }
  }

  /** A whole conversation: messages sent one after another, each from its own sequence id. */
  datatype Sent = Sent(payload: Bytes, sequenceId: byte)

  function SplitAll(sent: seq<Sent>): seq<Packet> {
    if sent == [] then [] else Split(sent[0].payload, sent[0].sequenceId) + SplitAll(sent[1..])
  }

  lemma {:induction false} AssemblyInvertsSplitting(limit: nat, sent: seq<Sent>)
    requires forall i :: 0 <= i < |sent| ==> |sent[i].payload| <= limit
    ensures Feed(limit, EMPTY, SplitAll(sent))
         == Fed(EMPTY, seq(|sent|, i requires 0 <= i < |sent| => Joined(EMPTY, sent[i].payload, sent[i].sequenceId)),
                false)
  {
    if sent != [] {
      FeedSplit(limit, EMPTY, sent[0].payload, sent[0].sequenceId, SplitAll(sent[1..]));
      AssemblyInvertsSplitting(limit, sent[1..]);
      FirstSent(sent);
    }
  }

  lemma FirstSent(sent: seq<Sent>)
    requires sent != []
    ensures var rest := sent[1..];
      seq(|sent|, i requires 0 <= i < |sent| => Joined(EMPTY, sent[i].payload, sent[i].sequenceId))
      == [Joined(EMPTY, sent[0].payload, sent[0].sequenceId)]
       + seq(|rest|, i requires 0 <= i < |rest| => Joined(EMPTY, rest[i].payload, rest[i].sequenceId))
  {
  }

  class MySqlLogicalMessageAssembler {
    const maxMessageBytes: nat
    var payloadParts: seq<Bytes>
    var rawParts: seq<Bytes>
    var firstSequenceId: Option<byte>
    var lastSequenceId: Option<byte>
    var packetCount: nat

    ghost function View(): Partial
      reads this
    {
      Partial(payloadParts, rawParts, firstSequenceId, lastSequenceId, packetCount)
    }

    ghost predicate Valid()
      reads this
    {
      IsPartial(maxMessageBytes, View())
    }

    constructor (maxMessageBytes: nat)
      requires maxMessageBytes >= 1
      ensures Valid() && View() == EMPTY && this.maxMessageBytes == maxMessageBytes
    {
      this.maxMessageBytes := maxMessageBytes;
      payloadParts, rawParts, firstSequenceId, lastSequenceId, packetCount := [], [], None, None, 0;
    }

    method Reset()
      modifies this
      ensures View() == EMPTY
    {
      payloadParts, rawParts, firstSequenceId, lastSequenceId, packetCount := [], [], None, None, 0;
    }

    /** failed is the source's exception; a message is returned with the packet that ends it. */
    method PushPacket(packet: Packet) returns (failed: bool, message: Option<LogicalMessage>)
      requires Valid()
      modifies this
      ensures Valid()
      ensures match Push(maxMessageBytes, old(View()), packet)
        case Pending(next) => !failed && message == None && View() == next
        case Complete(m) => !failed && message == Some(m) && View() == EMPTY
        case _ => failed && message == None && View() == EMPTY
    {
      ghost var before := View();
      PushKeepsPartial(maxMessageBytes, before, packet);
      if lastSequenceId.Some? {
        var expected := (lastSequenceId.value + 1) % 256;
        if packet.sequenceId != expected {
          Reset();
          return true, None;
        }
      }
      if firstSequenceId.None? {
        firstSequenceId := Some(packet.sequenceId);
      }
      lastSequenceId := Some(packet.sequenceId);
      packetCount := packetCount + 1;
      payloadParts := payloadParts + [packet.payload];
      rawParts := rawParts + [packet.raw];
      if |Flatten(payloadParts)| > maxMessageBytes {
        Reset();
        return true, None;
      }
      if |packet.payload| == MAX_PACKET_PAYLOAD {
        return false, None;
      }
      message := Some(LogicalMessage(
        firstSequenceId.value, lastSequenceId.value, Flatten(payloadParts), Flatten(rawParts), packetCount));
      Reset();
      return false, message;
    }
  }
}
