/** Bytes, fixed-width integers and the small result types shared by both protocols. */
module Wire {

  datatype Option<+T> = None | Some(value: T)

  type byte = x: int | 0 <= x < 256

  type Bytes = seq<byte>

  function Pow256(n: nat): (p: nat)
    ensures p >= 1
  {
    if n == 0 then 1 else 256 * Pow256(n - 1)
  }

  lemma Pow256Values()
    ensures Pow256(1) == 0x100 && Pow256(2) == 0x1_0000 && Pow256(3) == 0x100_0000
    ensures Pow256(4) == 0x1_0000_0000 && Pow256(8) == 0x1_0000_0000_0000_0000
  {
    assert Pow256(3) == 256 * Pow256(2);
    assert Pow256(5) == 256 * Pow256(4) && Pow256(6) == 256 * Pow256(5);
    assert Pow256(7) == 256 * Pow256(6) && Pow256(8) == 256 * Pow256(7);
  }

  /** The unsigned value of a little-endian byte string. */
  function FromLE(b: Bytes): (v: nat)
    ensures v < Pow256(|b|)
  {
    if b == [] then 0 else b[0] + 256 * FromLE(b[1..])
  }

  function ToLE(v: nat, n: nat): (b: Bytes)
    requires v < Pow256(n)
    ensures |b| == n && FromLE(b) == v
  {
    if n == 0 then [] else [v % 256] + ToLE(v / 256, n - 1)
  }

  lemma LowAndHigh(low: byte, high: nat)
    ensures (low + 256 * high) % 256 == low && (low + 256 * high) / 256 == high
  {
  }

  lemma {:induction false} ToLEInverts(b: Bytes)
    ensures ToLE(FromLE(b), |b|) == b
  {
    if b != [] {
      ToLEInverts(b[1..]);
      LowAndHigh(b[0], FromLE(b[1..]));
      assert b == [b[0]] + b[1..];
    }
  }

  /** The unsigned value of a big-endian byte string. */
  function FromBE(b: Bytes): (v: nat)
    ensures v < Pow256(|b|)
  {
    if b == [] then 0 else 256 * FromBE(b[..|b| - 1]) + b[|b| - 1]
  }

  function ToBE(v: nat, n: nat): (b: Bytes)
    requires v < Pow256(n)
    ensures |b| == n && FromBE(b) == v
  {
    if n == 0 then [] else ToBE(v / 256, n - 1) + [v % 256]
  }

  lemma {:induction false} ToBEInverts(b: Bytes)
    ensures ToBE(FromBE(b), |b|) == b
  {
    if b != [] {
      ToBEInverts(b[..|b| - 1]);
      LowAndHigh(b[|b| - 1], FromBE(b[..|b| - 1]));
      assert b == b[..|b| - 1] + [b[|b| - 1]];
    }
  }

  /** Two's complement reading of an unsigned n-byte value. */
  function Signed(v: nat, n: nat): (i: int)
    requires v < Pow256(n)
  {
    if 2 * v < Pow256(n) then v else v - Pow256(n)
  }

  function Unsigned(i: int, n: nat): (v: nat)
    requires 0 <= 2 * i + Pow256(n) && 2 * i < Pow256(n)
    ensures v < Pow256(n)
    ensures Signed(v, n) == i
  {
    if i >= 0 then i else i + Pow256(n)
  }

  /** Test of one bit of an integer mask; flag is a power of two. */
  predicate Has(mask: nat, flag: nat)
    requires flag > 0
  {
    (mask / flag) % 2 == 1
  }

  lemma Assoc<T>(a: seq<T>, b: seq<T>, c: seq<T>)
    ensures a + (b + c) == (a + b) + c
  {
  }

  lemma TakeDrop<T>(s: seq<T>, n: nat)
    requires n <= |s|
    ensures s[..n] + s[n..] == s
  {
  }

  lemma DropOne<T>(s: seq<T>, i: nat)
    requires i < |s|
    ensures s[i..] == [s[i]] + s[i + 1..]
  {
  }

  lemma SplitHead<T>(s: seq<T>, i: nat, j: nat)
    requires i < j <= |s|
    ensures s[i..j] == [s[i]] + s[i + 1..j]
  {
  }

  function Flatten<T>(parts: seq<seq<T>>): seq<T> {
    if parts == [] then [] else parts[0] + Flatten(parts[1..])
  }

  lemma {:induction false} FlattenAppend<T>(a: seq<seq<T>>, b: seq<seq<T>>)
    ensures Flatten(a + b) == Flatten(a) + Flatten(b)
  {
    if a == [] {
      assert a + b == b;
    } else {
      assert (a + b)[1..] == a[1..] + b;
      FlattenAppend(a[1..], b);
    }
  }

  /** A length-encoded integer and the number of bytes it takes; 0xFB and 0xFF do not start one. */
  function ReadLenenc(b: Bytes): (r: Option<(nat, nat)>)
    ensures r.Some? ==> 1 <= r.value.1 <= |b|
  {
    if b == [] then None
    else if b[0] < 0xFB then Some((b[0], 1))
    else if b[0] == 0xFC && |b| >= 3 then Some((FromLE(b[1..3]), 3))
    else if b[0] == 0xFD && |b| >= 4 then Some((FromLE(b[1..4]), 4))
    else if b[0] == 0xFE && |b| >= 9 then Some((FromLE(b[1..9]), 9))
    else None
  }

  function WriteLenenc(n: nat): (b: Bytes)
    requires n < 0x1_0000_0000_0000_0000
    ensures |b| >= 1
  {
    Pow256Values();
    if n < 0xFB then [n]
    else if n < 0x1_0000 then [0xFC] + ToLE(n, 2)
    else if n < 0x100_0000 then [0xFD] + ToLE(n, 3)
    else [0xFE] + ToLE(n, 8)
  }

  lemma LenencReadsBack(n: nat, rest: Bytes)
    requires n < 0x1_0000_0000_0000_0000
    ensures ReadLenenc(WriteLenenc(n) + rest) == Some((n, |WriteLenenc(n)|))
  {
    Pow256Values();
    var written := WriteLenenc(n);
    var b := written + rest;
    if n >= 0xFB {
      assert b[1..|written|] == written[1..];
    }
  }

  lemma LenencIsStable(a: Bytes, b: Bytes)
    requires ReadLenenc(a).Some?
    ensures ReadLenenc(a + b) == ReadLenenc(a)
  {
    var n := ReadLenenc(a).value.1;
    assert (a + b)[1..n] == a[1..n];
  }
}
