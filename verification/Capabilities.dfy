/**
 Capabilities that the proxy passes on with the client's handshake response and does not look at. With them
 what it reads is not what the server reads, so the runs of the other modules are about connections without.
 */
module Capabilities {
  import opened Wire
  import opened Framing
  import opened Assembler
  import opened Tracker
  import opened Session
  import opened Dispatch
  import Utf8

  /** A query under CLIENT_QUERY_ATTRIBUTES that has none: how many attributes, how many sets of them, the text. */
  function QueryWithoutAttributes(sql: string): Bytes {
    [COM_QUERY, 0, 1] + Utf8.Encode(sql)
  }

  /** The text shown to policy has two characters more than the text the server runs. */
  lemma AttributesAreShownAsText(s: State, m: LogicalMessage, sql: string, policy: Policy)
    requires m.payload == QueryWithoutAttributes(sql) && !HasPending(s) && IsTracked(s.tracker)
    ensures IsForward(Dispatch.Dispatch(s, m, policy), m) <==> policy.approve([0 as char, 1 as char] + sql)
  {
    var shown := [0 as char, 1 as char] + sql;
    assert Utf8.Encode(shown) == [0, 1] + Utf8.Encode(sql) by {
      Utf8.EncodeFirst(0 as char, [1 as char] + sql);
      Utf8.EncodeFirst(1 as char, sql);
      assert shown == [0 as char] + ([1 as char] + sql);
    }
    assert m.payload[1..] == Utf8.Encode(shown);
    Utf8.DecodeEncode(shown);
    RefuseIsRefusal(s, m, policy, PolicyDenial);
    GivingUpRestores(s, QueryCommand);
  }

  /** A packet under CLIENT_COMPRESS: its header is followed by the length its body had before compression. */
  function Compressed(body: Bytes, sequenceId: byte, length: nat): Bytes
    requires |body| < 0x100_0000 && length < 0x100_0000
  {
    Pow256Values();
    ToLE(|body|, 3) + [sequenceId] + ToLE(length, 3) + body
  }

  /** The proxy cuts three bytes too few off it, and takes the low byte of that length for the command. */
  lemma CompressedLengthIsTheCommand(limit: nat, body: Bytes, sequenceId: byte, length: nat)
    requires 3 <= |body| < 0x100_0000 && length < 0x100_0000 && |body| + 4 <= limit
    ensures var b := Compressed(body, sequenceId, length);
      && FrontOf(MySql(limit), b) == Frame(|body| + 4)
      && PacketOf(b[..|body| + 4]).payload == ToLE(length, 3) + body[..|body| - 3]
      && PacketOf(b[..|body| + 4]).payload[0] as nat == length % 256
  {
    Pow256Values();
    var b := Compressed(body, sequenceId, length);
    assert b[..3] == ToLE(|body|, 3);
    var tail := ToLE(length, 3) + body;
    assert b == (ToLE(|body|, 3) + [sequenceId]) + tail;
    assert b[4..|body| + 4] == tail[..|body|] == ToLE(length, 3) + body[..|body| - 3];
  }

  /** Whatever the policy, when that byte is 1 the packet goes to the server, as the end of the connection. */
  lemma CompressedPassesForQuit(limit: nat, s: State, policy: Policy, body: Bytes, sequenceId: byte, length: nat)
    requires 3 <= |body| < MAX_PACKET_PAYLOAD && length < 0x100_0000 && |body| + 4 <= limit && length % 256 == 1
    ensures var pushed := Push(limit, EMPTY, PacketOf(Compressed(body, sequenceId, length)[..|body| + 4]));
      pushed.Complete?
      && Dispatch.Dispatch(s, pushed.message, policy) == Forward(s.(closing := true), pushed.message, Nothing)
  {
    var packet := PacketOf(Compressed(body, sequenceId, length)[..|body| + 4]);
    CompressedLengthIsTheCommand(limit, body, sequenceId, length);
    Pow256Values();
    assert Flatten([] + [packet.payload]) == packet.payload;
  }
}
