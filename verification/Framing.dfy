/**
 Cutting a byte stream into frames. Both protocols put a length in a fixed-size
 header; the framers keep the bytes of an unfinished frame between two reads.
 */
module Framing {
  import opened Wire

  const MAX_PACKET_PAYLOAD := 0xFF_FFFF

  /** The header format and the largest frame, header included, that is let through. */
  datatype Protocol = MySql(limit: nat) | Postgres(limit: nat)

  predicate IsProtocol(p: Protocol) {
    p.limit >= HeaderSize(p)
  }

  function HeaderSize(p: Protocol): nat {
    if p.MySql? then 4 else 5
  }

  /** What the front of a buffer holds; a rejected frame may already be taken off it. */
  datatype Front = NeedMore | Reject(consumed: nat) | Frame(size: nat)

  function FrontOf(p: Protocol, buffer: Bytes): (front: Front)
    ensures front.Frame? ==> HeaderSize(p) <= front.size <= |buffer| && front.size <= p.limit
    ensures front.Reject? ==> front.consumed <= |buffer|
  {
    if |buffer| < HeaderSize(p) then NeedMore
    else
      match p
      case MySql(limit) =>
        var total := FromLE(buffer[..3]) + 4;
        if total > limit then Reject(0)
        else if |buffer| < total then NeedMore
        else Frame(total)
      case Postgres(limit) =>
        var length := Signed(FromBE(buffer[1..5]), 4);
        if length < 4 || 1 + length > limit then Reject(0)
        else if |buffer| < 1 + length then NeedMore
        else if buffer[0] >= 0x80 then Reject(1 + length)
        else Frame(1 + length)
  }

  /** The result of cutting a buffer as far as possible. */
  datatype Framed = Framed(frames: seq<Bytes>, rest: Bytes, failed: bool)

  function Frames(p: Protocol, buffer: Bytes): Framed
    decreases |buffer|
  {
    match FrontOf(p, buffer)
    case NeedMore => Framed([], buffer, false)
    case Reject(consumed) => Framed([], buffer[consumed..], true)
    case Frame(size) => After([buffer[..size]], Frames(p, buffer[size..]))
  }

  function After(frames: seq<Bytes>, then_: Framed): Framed {
    then_.(frames := frames + then_.frames)
  }

  /** One turn of a framer's loop. */
  lemma CutFront(p: Protocol, frames: seq<Bytes>, buffer: Bytes)
    ensures var front := FrontOf(p, buffer);
      After(frames, Frames(p, buffer)) ==
      if front.NeedMore? then Framed(frames, buffer, false)
      else if front.Reject? then Framed(frames, buffer[front.consumed..], true)
      else After(frames + [buffer[..front.size]], Frames(p, buffer[front.size..]))
  {
    var front := FrontOf(p, buffer);
    if front.Frame? {
      Assoc(frames, [buffer[..front.size]], Frames(p, buffer[front.size..]).frames);
    } else {
      assert frames + [] == frames;
    }
  }

  predicate IsFrame(p: Protocol, b: Bytes) {
    FrontOf(p, b) == Frame(|b|)
  }

  lemma FrontIsStable(p: Protocol, a: Bytes, b: Bytes)
    requires FrontOf(p, a) != NeedMore
    ensures FrontOf(p, a + b) == FrontOf(p, a)
  {
    assert (a + b)[..3] == a[..3];
    if p.Postgres? {
      assert (a + b)[1..5] == a[1..5];
    }
  }

  lemma FrameInFront(p: Protocol, buffer: Bytes)
    requires FrontOf(p, buffer).Frame?
    ensures IsFrame(p, buffer[..FrontOf(p, buffer).size])
  {
    var frame := buffer[..FrontOf(p, buffer).size];
    assert frame[..3] == buffer[..3];
    if p.Postgres? {
      assert frame[1..5] == buffer[1..5];
    }
  }

  lemma UnfinishedIsShort(p: Protocol, buffer: Bytes)
    requires IsProtocol(p) && FrontOf(p, buffer) == NeedMore
    ensures |buffer| < p.limit
  {
  }

  predicate AreFrames(p: Protocol, frames: seq<Bytes>) {
    frames == [] || (IsFrame(p, frames[0]) && AreFrames(p, frames[1..]))
  }

  lemma JoinFirst(first: Bytes, frames: seq<Bytes>, rest: Bytes)
    ensures Flatten([first] + frames) + rest == first + (Flatten(frames) + rest)
  {
    assert ([first] + frames)[1..] == frames;
    Assoc(first, Flatten(frames), rest);
  }

  /** Nothing is lost or invented. */
  lemma {:induction false} FramesAreExact(p: Protocol, buffer: Bytes)
    requires !Frames(p, buffer).failed
    ensures var f := Frames(p, buffer); Flatten(f.frames) + f.rest == buffer
    decreases |buffer|
  {
    var front := FrontOf(p, buffer);
    if front.Frame? {
      var first, tail := buffer[..front.size], buffer[front.size..];
      var f := Frames(p, tail);
      FramesAreExact(p, tail);
      JoinFirst(first, f.frames, f.rest);
      TakeDrop(buffer, front.size);
    } else {
      assert [] + buffer == buffer;
    }
  }

  /** Every frame is whole, and what is left holds no frame and stays under the limit. */
  lemma {:induction false} FramesAreWhole(p: Protocol, buffer: Bytes)
    requires IsProtocol(p) && !Frames(p, buffer).failed
    ensures var f := Frames(p, buffer);
      AreFrames(p, f.frames) && FrontOf(p, f.rest) == NeedMore && |f.rest| < p.limit
    decreases |buffer|
  {
    var front := FrontOf(p, buffer);
    if front.Frame? {
      FrameInFront(p, buffer);
      FramesAreWhole(p, buffer[front.size..]);
      FlattenAfter(buffer[..front.size], Frames(p, buffer[front.size..]).frames);
    } else {
      UnfinishedIsShort(p, buffer);
    }
  }

  lemma FlattenAfter(first: Bytes, frames: seq<Bytes>)
    ensures Flatten([first] + frames) == first + Flatten(frames)
    ensures forall p :: AreFrames(p, [first] + frames) == (IsFrame(p, first) && AreFrames(p, frames))
  {
    assert ([first] + frames)[1..] == frames;
  }

  /** The only way to cut a stream so: framing undoes the concatenation of whole frames. */
  lemma {:induction false} FramesInvertConcatenation(p: Protocol, frames: seq<Bytes>, rest: Bytes)
    requires AreFrames(p, frames) && FrontOf(p, rest) == NeedMore
    ensures Frames(p, Flatten(frames) + rest) == Framed(frames, rest, false)
  {
    if frames == [] {
      assert [] + rest == rest;
    } else {
      var tail := Flatten(frames[1..]) + rest;
      var buffer := Flatten(frames) + rest;
      assert buffer == frames[0] + tail;
      FrontIsStable(p, frames[0], tail);
      FramesInvertConcatenation(p, frames[1..], rest);
      assert buffer[..|frames[0]|] == frames[0] && buffer[|frames[0]|..] == tail;
      assert [frames[0]] + frames[1..] == frames;
    }
  }

  /** Reading a then b cuts the same frames as reading both at once. */
  lemma {:induction false} FramesContinue(p: Protocol, a: Bytes, b: Bytes)
    ensures var f := Frames(p, a);
      Frames(p, a + b) == if f.failed then f.(rest := f.rest + b) else After(f.frames, Frames(p, f.rest + b))
    decreases |a|
  {
    var front := FrontOf(p, a);
    if front != NeedMore {
      FrontIsStable(p, a, b);
    }
    match front {
      case NeedMore =>
        assert [] + Frames(p, a + b).frames == Frames(p, a + b).frames;
      case Reject(consumed) =>
        assert (a + b)[consumed..] == a[consumed..] + b;
      case Frame(size) =>
        assert (a + b)[..size] == a[..size] && (a + b)[size..] == a[size..] + b;
        FramesContinue(p, a[size..], b);
        var f := Frames(p, a[size..]);
        if !f.failed {
          Assoc([a[..size]], f.frames, Frames(p, f.rest + b).frames);
        }
    }
  }

  /** A sequence of reads; the frames of the read that fails are dropped with it. */
  function PushAll(p: Protocol, buffer: Bytes, chunks: seq<Bytes>): Framed
    decreases |chunks|
  {
    if chunks == [] then Framed([], buffer, false)
    else
      var f := Frames(p, buffer + chunks[0]);
      if f.failed then Framed([], f.rest, true)
      else After(f.frames, PushAll(p, f.rest, chunks[1..]))
  }

  /** However a stream is cut into reads, it is refused or not alike and gives the same frames and leftover. */
  lemma {:induction false} ChunkingIndependence(p: Protocol, buffer: Bytes, chunks: seq<Bytes>)
    requires IsProtocol(p) && FrontOf(p, buffer) == NeedMore
    ensures var whole := Frames(p, buffer + Flatten(chunks));
      var pushed := PushAll(p, buffer, chunks);
      pushed.failed == whole.failed && (!whole.failed ==> pushed == whole)
    decreases |chunks|
  {
    if chunks == [] {
      assert buffer + [] == buffer;
    } else {
      var first := buffer + chunks[0];
      var f := Frames(p, first);
      assert buffer + Flatten(chunks) == first + Flatten(chunks[1..]);
      FramesContinue(p, first, Flatten(chunks[1..]));
      if !f.failed {
        FramesAreWhole(p, first);
        ChunkingIndependence(p, f.rest, chunks[1..]);
      }
    }
  }

  // ---------------------------------------------------------------------------
  // MySQL packets
  // ---------------------------------------------------------------------------

  datatype Packet = Packet(sequenceId: byte, payload: Bytes, raw: Bytes)

  function PacketOf(raw: Bytes): Packet
    requires |raw| >= 4
  {
    Packet(raw[3], raw[4..], raw)
  }

  predicate ArePackets(frames: seq<Bytes>, packets: seq<Packet>) {
    && |packets| == |frames|
    && forall i :: 0 <= i < |frames| ==> |frames[i]| >= 4 && packets[i] == PacketOf(frames[i])
  }

  lemma OnePacketMore(frames: seq<Bytes>, packets: seq<Packet>, raw: Bytes)
    requires ArePackets(frames, packets) && |raw| >= 4
    ensures ArePackets(frames + [raw], packets + [PacketOf(raw)])
  {
  }

  /** None where the source raises ValueError. */
  function BuildPacket(payload: Bytes, sequenceId: int): (raw: Option<Bytes>) {
    if |payload| > MAX_PACKET_PAYLOAD || !(0 <= sequenceId <= 255) then None
    else
      Pow256Values();
      Some(ToLE(|payload|, 3) + [sequenceId] + payload)
  }

  /** A built packet is one frame and reads back as what it was built from. */
  lemma BuiltPacketReadsBack(limit: nat, payload: Bytes, sequenceId: byte)
    requires |payload| <= MAX_PACKET_PAYLOAD && |payload| + 4 <= limit
    ensures var raw := BuildPacket(payload, sequenceId);
      raw.Some? && IsFrame(MySql(limit), raw.value) && PacketOf(raw.value) == Packet(sequenceId, payload, raw.value)
  {
    Pow256Values();
    var raw := BuildPacket(payload, sequenceId).value;
    assert raw[..3] == ToLE(|payload|, 3);
    assert raw[4..] == payload;
  }

  class MySqlPacketFramer {
    var buffer: Bytes
    const maxPacketBytes: nat

    ghost predicate Valid()
      reads this
    {
      IsProtocol(MySql(maxPacketBytes)) && FrontOf(MySql(maxPacketBytes), buffer) == NeedMore
    }

    constructor (maxPacketBytes: nat)
      requires maxPacketBytes >= 4
      ensures Valid() && buffer == [] && this.maxPacketBytes == maxPacketBytes
    {
      this.buffer := [];
      this.maxPacketBytes := maxPacketBytes;
    }

    /** None when the source raises; the buffer is then left as the failed cut left it. */
    method Push(chunk: Bytes) returns (r: Option<seq<Packet>>)
      modifies this`buffer
      ensures var f := Frames(MySql(maxPacketBytes), old(buffer) + chunk);
        && buffer == f.rest
        && r.None? == f.failed
        && (r.Some? ==> ArePackets(f.frames, r.value))
      ensures r.Some? && old(Valid()) ==> Valid()
    {
      buffer := buffer + chunk;
      ghost var p := MySql(maxPacketBytes);
      ghost var all := buffer;
      ghost var frames: seq<Bytes> := [];
      var packets: seq<Packet> := [];
      assert After([], Frames(p, buffer)) == Frames(p, buffer);
      while true
        invariant After(frames, Frames(p, buffer)) == Frames(p, all)
        invariant ArePackets(frames, packets)
        decreases |buffer|
      {
        CutFront(p, frames, buffer);
        if |buffer| < 4 {
          break;
        }
        var totalLength := FromLE(buffer[..3]) + 4;
        if totalLength > maxPacketBytes {
          assert buffer[0..] == buffer;
          return None;
        }
        if |buffer| < totalLength {
          break;
        }
        var raw := buffer[..totalLength];
        buffer := buffer[totalLength..];
        OnePacketMore(frames, packets, raw);
        packets := packets + [PacketOf(raw)];
        frames := frames + [raw];
      }
      if IsProtocol(p) {
        FramesAreWhole(p, all);
      }
      return Some(packets);
    }
  }

  // ---------------------------------------------------------------------------
  // PostgreSQL messages
  // ---------------------------------------------------------------------------

  datatype Message = Message(kind: char, payload: Bytes, raw: Bytes)

  function MessageOf(raw: Bytes): Message
    requires |raw| >= 5
  {
    Message(raw[0] as char, raw[5..], raw)
  }

  predicate AreMessages(frames: seq<Bytes>, messages: seq<Message>) {
    && |messages| == |frames|
    && forall i :: 0 <= i < |frames| ==> |frames[i]| >= 5 && messages[i] == MessageOf(frames[i])
  }

  lemma OneMessageMore(frames: seq<Bytes>, messages: seq<Message>, raw: Bytes)
    requires AreMessages(frames, messages) && |raw| >= 5
    ensures AreMessages(frames + [raw], messages + [MessageOf(raw)])
  {
  }

  class MessageFramer {
    var buffer: Bytes
    const maxMessageBytes: nat

    ghost predicate Valid()
      reads this
    {
      IsProtocol(Postgres(maxMessageBytes)) && FrontOf(Postgres(maxMessageBytes), buffer) == NeedMore
    }

    constructor (maxMessageBytes: nat)
      requires maxMessageBytes >= 5
      ensures Valid() && buffer == [] && this.maxMessageBytes == maxMessageBytes
    {
      this.buffer := [];
      this.maxMessageBytes := maxMessageBytes;
    }

    method Push(chunk: Bytes) returns (r: Option<seq<Message>>)
      modifies this`buffer
      ensures var f := Frames(Postgres(maxMessageBytes), old(buffer) + chunk);
        && buffer == f.rest
        && r.None? == f.failed
        && (r.Some? ==> AreMessages(f.frames, r.value))
      ensures r.Some? && old(Valid()) ==> Valid()
    {
      buffer := buffer + chunk;
      ghost var p := Postgres(maxMessageBytes);
      ghost var all := buffer;
      ghost var frames: seq<Bytes> := [];
      var messages: seq<Message> := [];
      assert After([], Frames(p, buffer)) == Frames(p, buffer);
      while true
        invariant After(frames, Frames(p, buffer)) == Frames(p, all)
        invariant AreMessages(frames, messages)
        decreases |buffer|
      {
        CutFront(p, frames, buffer);
        if |buffer| < 5 {
          break;
        }
        var length := Signed(FromBE(buffer[1..5]), 4);
        if length < 4 || 1 + length > maxMessageBytes {
          assert buffer[0..] == buffer;
          return None;
        }
        var totalSize := 1 + length;
        if |buffer| < totalSize {
          break;
        }
        var raw := buffer[..totalSize];
        buffer := buffer[totalSize..];
        if raw[0] >= 0x80 {
          return None;
        }
        OneMessageMore(frames, messages, raw);
        messages := messages + [MessageOf(raw)];
        frames := frames + [raw];
      }
      if IsProtocol(p) {
        FramesAreWhole(p, all);
      }
      return Some(messages);
    }
  }
}
