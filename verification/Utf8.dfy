/** Strict UTF-8, as Python's bytes.decode and str.encode apply it. */
module Utf8 {
  import opened Wire

  predicate IsScalar(u: int) {
    0 <= u < 0xD800 || 0xE000 <= u < 0x11_0000
  }

  function EncodeChar(c: char): (b: Bytes)
    ensures 1 <= |b| <= 4
  {
    var u := c as int;
    if u < 0x80 then [u]
    else if u < 0x800 then [0xC0 + u / 0x40, 0x80 + u % 0x40]
    else if u < 0x1_0000 then [0xE0 + u / 0x1000, 0x80 + u / 0x40 % 0x40, 0x80 + u % 0x40]
    else [0xF0 + u / 0x4_0000, 0x80 + u / 0x1000 % 0x40, 0x80 + u / 0x40 % 0x40, 0x80 + u % 0x40]
  }

  function Encode(s: string): Bytes {
    if s == "" then [] else EncodeChar(s[0]) + Encode(s[1..])
  }

  predicate IsContinuation(b: byte) {
    0x80 <= b < 0xC0
  }

  /** The scalar value and length of the sequence in front, before its range is checked. */
  function Lead(b: Bytes): (r: Option<(nat, nat)>)
    requires b != []
    ensures r.Some? ==> 1 <= r.value.1 <= |b|
  {
    var x: seq<int> := b;
    if b[0] < 0x80 then Some((b[0], 1))
    else if 0xC0 <= b[0] < 0xE0 && |b| >= 2 && IsContinuation(b[1]) then
      Some(((x[0] - 0xC0) * 0x40 + (x[1] - 0x80), 2))
    else if 0xE0 <= b[0] < 0xF0 && |b| >= 3 && IsContinuation(b[1]) && IsContinuation(b[2]) then
      Some(((x[0] - 0xE0) * 0x1000 + (x[1] - 0x80) * 0x40 + (x[2] - 0x80), 3))
    else if 0xF0 <= b[0] < 0xF8 && |b| >= 4 && IsContinuation(b[1]) && IsContinuation(b[2]) && IsContinuation(b[3]) then
      Some(((x[0] - 0xF0) * 0x4_0000 + (x[1] - 0x80) * 0x1000 + (x[2] - 0x80) * 0x40 + (x[3] - 0x80), 4))
    else None
  }

  /** The smallest scalar value a sequence of n bytes may stand for. */
  function Smallest(n: nat): nat {
    if n <= 1 then 0 else if n == 2 then 0x80 else if n == 3 then 0x800 else 0x1_0000
  }

  function DecodeChar(b: Bytes): (r: Option<(char, nat)>)
    requires b != []
    ensures r.Some? ==> 1 <= r.value.1 <= |b|
  {
    var lead := Lead(b);
    if lead.None? || !IsScalar(lead.value.0) || lead.value.0 < Smallest(lead.value.1) then None
    else Some((lead.value.0 as char, lead.value.1))
  }

  function Decode(b: Bytes): Option<string>
    decreases |b|
  {
    if b == [] then Some("")
    else
      var first := DecodeChar(b);
      if first.None? then None
      else
        var rest := Decode(b[first.value.1..]);
        if rest.None? then None else Some([first.value.0] + rest.value)
  }

  lemma Sixes(u: nat)
    ensures u == u / 0x40 * 0x40 + u % 0x40
    ensures u / 0x40 == u / 0x1000 * 0x40 + u / 0x40 % 0x40
    ensures u / 0x1000 == u / 0x4_0000 * 0x40 + u / 0x1000 % 0x40
  {
  }

  /** The lead and continuation bytes written for a character give its scalar value back. */
  lemma LeadOfEncoded(c: char, b: Bytes)
    requires |b| >= |EncodeChar(c)| && b[..|EncodeChar(c)|] == EncodeChar(c)
    ensures Lead(b) == Some((c as int, |EncodeChar(c)|))
  {
    var n := |EncodeChar(c)|;
    Sixes(c as int);
    assert b[0] == b[..n][0];
    if n >= 2 {
      assert b[1] == b[..n][1];
    }
    if n >= 3 {
      assert b[2] == b[..n][2];
    }
    if n == 4 {
      assert b[3] == b[..n][3];
    }
  }

  lemma DecodeEncodedChar(c: char, rest: Bytes)
    ensures DecodeChar(EncodeChar(c) + rest) == Some((c, |EncodeChar(c)|))
  {
    LeadOfEncoded(c, EncodeChar(c) + rest);
  }

  lemma HighAndLow(high: nat, low: nat)
    requires low < 0x40
    ensures (high * 0x40 + low) / 0x40 == high && (high * 0x40 + low) % 0x40 == low
  {
  }

  lemma DivTwice(u: nat)
    ensures u / 0x1000 == u / 0x40 / 0x40 && u / 0x4_0000 == u / 0x40 / 0x40 / 0x40
  {
  }

  lemma TwoByteChar(b: Bytes, c: char)
    requires b != [] && DecodeChar(b) == Some((c, 2))
    ensures EncodeChar(c) == b[..2]
  {
    var x: seq<int> := b;
    HighAndLow(x[0] - 0xC0, x[1] - 0x80);
  }

  lemma ThreeByteChar(b: Bytes, c: char)
    requires b != [] && DecodeChar(b) == Some((c, 3))
    ensures EncodeChar(c) == b[..3]
  {
    var x: seq<int> := b;
    DivTwice(c as int);
    HighAndLow((x[0] - 0xE0) * 0x40 + (x[1] - 0x80), x[2] - 0x80);
    HighAndLow(x[0] - 0xE0, x[1] - 0x80);
  }

  lemma FourByteChar(b: Bytes, c: char)
    requires b != [] && DecodeChar(b) == Some((c, 4))
    ensures EncodeChar(c) == b[..4]
  {
    var x: seq<int> := b;
    DivTwice(c as int);
    HighAndLow(((x[0] - 0xF0) * 0x40 + (x[1] - 0x80)) * 0x40 + (x[2] - 0x80), x[3] - 0x80);
    HighAndLow((x[0] - 0xF0) * 0x40 + (x[1] - 0x80), x[2] - 0x80);
    HighAndLow(x[0] - 0xF0, x[1] - 0x80);
  }

  lemma EncodeDecodedChar(b: Bytes)
    requires b != [] && DecodeChar(b).Some?
    ensures var (c, n) := DecodeChar(b).value; EncodeChar(c) == b[..n]
  {
    var (c, n) := DecodeChar(b).value;
    if n == 2 {
      TwoByteChar(b, c);
    } else if n == 3 {
      ThreeByteChar(b, c);
    } else if n == 4 {
      FourByteChar(b, c);
    }
  }

  lemma EncodeFirst(c: char, rest: string)
    ensures Encode([c] + rest) == EncodeChar(c) + Encode(rest)
  {
    assert ([c] + rest)[1..] == rest;
  }

  lemma DecodeFirst(c: char, rest: Bytes)
    ensures Decode(EncodeChar(c) + rest) == if Decode(rest).None? then None else Some([c] + Decode(rest).value)
  {
    DecodeEncodedChar(c, rest);
    assert (EncodeChar(c) + rest)[|EncodeChar(c)|..] == rest;
  }

  /** Decoding gives back what was encoded. */
  lemma {:induction false} DecodeEncode(s: string)
    ensures Decode(Encode(s)) == Some(s)
  {
    if s != "" {
      DecodeEncode(s[1..]);
      DecodeFirst(s[0], Encode(s[1..]));
      DropOne(s, 0);
    }
  }

  /** A byte string decodes to at most one text, and that text encodes to no other byte string. */
  lemma {:induction false} EncodeDecode(b: Bytes)
    requires Decode(b).Some?
    ensures Encode(Decode(b).value) == b
    decreases |b|
  {
    if b != [] {
      var (c, n) := DecodeChar(b).value;
      EncodeDecodedChar(b);
      EncodeDecode(b[n..]);
      EncodeFirst(c, Decode(b[n..]).value);
      TakeDrop(b, n);
    }
  }

  /** A zero byte in the encoding is a NUL character in the text. */
  lemma {:induction false} EncodeKeepsNul(s: string)
    ensures 0 in Encode(s) <==> 0 as char in s
  {
    if s != "" {
      EncodeKeepsNul(s[1..]);
      assert s == [s[0]] + s[1..];
      var b := EncodeChar(s[0]);
      assert 0 in b <==> s[0] == 0 as char by {
        if s[0] == 0 as char {
          assert b[0] == 0;
        }
      }
    }
  }
}
