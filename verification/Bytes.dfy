/** Bytes, the 16-bit payload sum and the big-endian fields of a frame. */
module Bytes {
  type Byte = x: int | 0 <= x < 256 witness 0

  type Word = x: int | 0 <= x < 0x1_0000_0000 witness 0

  /** The running uint16_t sum of the payload bytes. */
  function Sum16(data: seq<Byte>): (r: nat)
    ensures r < 0x1_0000
  {
    if data == [] then 0 else (Sum16(data[..|data| - 1]) + data[|data| - 1]) % 0x1_0000
  }

  lemma Sum16Snoc(a: seq<Byte>, b: Byte)
    ensures Sum16(a + [b]) == (Sum16(a) + b) % 0x1_0000
  {
    assert (a + [b])[..|a + [b]| - 1] == a;
  }

  lemma {:induction false} Sum16Append(a: seq<Byte>, b: seq<Byte>)
    ensures Sum16(a + b) == (Sum16(a) + Sum16(b)) % 0x1_0000
  {
    if b == [] {
      assert a + b == a;
    } else {
      Sum16Append(a, b[..|b| - 1]);
      Sum16AppendOneMore(a, b[..|b| - 1], b[|b| - 1]);
      assert b[..|b| - 1] + [b[|b| - 1]] == b;
    }
  }

  lemma Sum16AppendOneMore(a: seq<Byte>, b: seq<Byte>, c: Byte)
    requires Sum16(a + b) == (Sum16(a) + Sum16(b)) % 0x1_0000
    ensures Sum16(a + (b + [c])) == (Sum16(a) + Sum16(b + [c])) % 0x1_0000
  {
    hide Sum16;
    assert a + (b + [c]) == (a + b) + [c];
    Sum16Snoc(a + b, c);
    Sum16Snoc(b, c);
    AddModAssociates(Sum16(a), Sum16(b), c);
  }

  lemma AddModAssociates(x: nat, y: nat, z: nat)
    ensures ((x + y) % 0x1_0000 + z) % 0x1_0000 == (x + (y + z) % 0x1_0000) % 0x1_0000
  {
  }

  /** The four length bytes; the cast to uint32_t keeps the length modulo 2^32. */
  function BE32(n: nat): (r: seq<Byte>)
    ensures |r| == 4
  {
    [n / 0x100_0000 % 256, n / 0x1_0000 % 256, n / 0x100 % 256, n % 256]
  }

  function FromBE32(b: seq<Byte>): (r: nat)
    requires |b| == 4
    ensures r < 0x1_0000_0000
  {
    var b0: int, b1: int, b2: int, b3: int := b[0], b[1], b[2], b[3];
    b0 * 0x100_0000 + b1 * 0x1_0000 + b2 * 0x100 + b3
  }

  function BE16(n: nat): (r: seq<Byte>)
    ensures |r| == 2
  {
    [n / 0x100 % 256, n % 256]
  }

  lemma BE32RoundTrip(n: nat)
    requires n < 0x1_0000_0000
    ensures FromBE32(BE32(n)) == n
  {
    var q1, q2, q3 := n / 0x100, n / 0x1_0000, n / 0x100_0000;
    assert q2 == q1 / 0x100 && q3 == q2 / 0x100 && q3 < 0x100;
    assert n == q1 * 0x100 + n % 0x100 && q1 == q2 * 0x100 + q1 % 0x100 && q2 == q3 * 0x100 + q2 % 0x100;
  }

  function Concat(chunks: seq<seq<Byte>>): seq<Byte> {
    if chunks == [] then [] else Concat(chunks[..|chunks| - 1]) + chunks[|chunks| - 1]
  }
}
