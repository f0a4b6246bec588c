/**
 The frame format `[ type len32 payload sum16 ]`, the receiver as a fold of a
 one-byte step, and an independent reference parser that works on whole strings.
 */
module FrameSpec {
  import opened Bytes

  const OPEN: Byte := 0x5B
  const CLOSE: Byte := 0x5D

  function Header(ty: Byte, length: nat): (r: seq<Byte>)
    ensures |r| == 6
  {
    [OPEN, ty] + BE32(length)
  }

  function Footer(sum: nat): (r: seq<Byte>)
    ensures |r| == 3
  {
    BE16(sum) + [CLOSE]
  }

  function Frame(ty: Byte, payload: seq<Byte>): (r: seq<Byte>)
    ensures |r| == |payload| + 9
  {
    Header(ty, |payload|) + payload + Footer(Sum16(payload))
  }

  // ---------------------------------------------------------------- receiver

  datatype Phase = StartFlag | Type | Length | Data | Checksum | EndFlag

  /** The receiver's fields; `input` is the content of the input ring buffer. */
  datatype Rx = Rx(phase: Phase, ready: bool, expected: nat, msgType: Byte, count: nat, sum: nat, compare: nat,
                   input: seq<Byte>)

  const FRESH := Rx(StartFlag, false, 0, 0, 0, 0, 0, [])

  /** DATA is left, without reading a byte, as soon as the input buffer holds the declared length. */
  function Settle(s: Rx): Rx {
    if s.phase == Data && |s.input| == s.expected then s.(phase := Checksum) else s
  }

  /** More bytes are buffered than declared: no check of a pass can read a byte any more. */
  predicate Stuck(s: Rx) {
    s.phase == Data && |s.input| > s.expected
  }

  /** A byte shifted left to its place in a big-endian field of which `left` more bytes follow. */
  function Placed(b: nat, left: int): nat {
    if left == 0 then b
    else if left == 1 then b * 0x100
    else if left == 2 then b * 0x1_0000
    else b * 0x100_0000
  }

  /** A write of one byte to a full ring buffer is refused. */
  function Push(cap: nat, buffer: seq<Byte>, b: Byte): seq<Byte> {
    if |buffer| < cap then buffer + [b] else buffer
  }

  /** What one received byte does to the receiver, once nothing is left to settle. */
  function Step(cap: nat, s: Rx, b: Byte): Rx {
    match s.phase
    case StartFlag => if b == OPEN then s.(phase := Type) else s
    case Type => s.(msgType := b, phase := Length)
    case Length =>
      var s' := s.(expected := (s.expected + Placed(b, 3 - s.count)) % 0x1_0000_0000, count := s.count + 1);
      if s'.count == 4 then Settle(s'.(count := 0, phase := Data)) else s'
    case Data =>
      if |s.input| < s.expected then
        Settle(s.(sum := (s.sum + b) % 0x1_0000, input := Push(cap, s.input, b)))
      else s
    case Checksum =>
      var s' := s.(compare := (s.compare + Placed(b, 1 - s.count)) % 0x1_0000, count := s.count + 1);
      if s'.count != 2 then s'
      else if s'.compare == s'.sum then s'.(count := 0, phase := EndFlag, compare := 0, sum := 0)
      else FRESH
    case EndFlag =>
      if b == CLOSE then s.(phase := StartFlag, ready := true, expected := 0) else FRESH
  }

  function Feed(cap: nat, s: Rx, data: seq<Byte>): Rx {
    if data == [] then s else Step(cap, Feed(cap, s, data[..|data| - 1]), data[|data| - 1])
  }

  /** Some byte of `data` is the closing flag of an accepted frame. */
  predicate Completes(cap: nat, s: Rx, data: seq<Byte>) {
    data != [] &&
    var n := |data| - 1;
    Completes(cap, s, data[..n]) || (Feed(cap, s, data[..n]).phase == EndFlag && data[n] == CLOSE)
  }

  lemma {:induction false} FeedAppend(cap: nat, s: Rx, a: seq<Byte>, b: seq<Byte>)
    ensures Feed(cap, s, a + b) == Feed(cap, Feed(cap, s, a), b)
    ensures Completes(cap, s, a + b) == (Completes(cap, s, a) || Completes(cap, Feed(cap, s, a), b))
  {
    if b == [] {
      assert a + b == a;
    } else {
      var n := |b| - 1;
      assert (a + b)[..|a + b| - 1] == a + b[..n];
      FeedAppend(cap, s, a, b[..n]);
    }
  }

  /** Splitting a stream at any point does not change what the receiver makes of it. */
  lemma FeedSplit(cap: nat, s: Rx, data: seq<Byte>, k: nat)
    requires k <= |data|
    ensures Feed(cap, s, data) == Feed(cap, Feed(cap, s, data[..k]), data[k..])
    ensures Completes(cap, s, data) ==
              (Completes(cap, s, data[..k]) || Completes(cap, Feed(cap, s, data[..k]), data[k..]))
  {
    assert data == data[..k] + data[k..];
    FeedAppend(cap, s, data[..k], data[k..]);
  }

  /** Between frames the state is exactly FRESH, and DATA never holds as much as it waits for. */
  predicate Clean(s: Rx) {
    !s.ready &&
    match s.phase
    case StartFlag => s == FRESH
    case Type => s == FRESH.(phase := Type)
    case Length => s.expected < 0x1_0000_0000 && s.count < 4 && s.sum == s.compare == 0 && s.input == []
    case Data => |s.input| < s.expected < 0x1_0000_0000 && s.count == s.compare == 0 && s.sum < 0x1_0000
    case Checksum => |s.input| == s.expected < 0x1_0000_0000 && s.count < 2 && s.compare < 0x1_0000 && s.sum < 0x1_0000
    case EndFlag => |s.input| == s.expected && s.count == s.sum == s.compare == 0
  }

  /** Every rejected frame leaves the fresh state; nothing sticks; an accepted one keeps its payload. */
  lemma {:induction false} CleanFeed(cap: nat, s: Rx, data: seq<Byte>)
    requires Clean(s) && !Completes(cap, s, data)
    ensures Clean(Feed(cap, s, data)) && !Stuck(Feed(cap, s, data))
  {
    if data != [] {
      var n := |data| - 1;
      CleanFeed(cap, s, data[..n]);
    }
  }

  // ------------------------------------------------------- reference parser

  datatype Scanned = NotFound | Found(ty: Byte, payload: seq<Byte>, end: nat)

  function Shift(r: Scanned, offset: nat): Scanned {
    if r.Found? then r.(end := r.end + offset) else r
  }

  /**
   The first good frame of a byte string, found by looking at whole frames: noise
   before a flag is skipped one byte at a time, a frame with a wrong sum is skipped
   up to its sum, a frame with a wrong end is skipped up to and with its end. A
   frame that declares more than the input buffer holds swallows the rest.
   */
  function Scan(cap: nat, w: seq<Byte>): (r: Scanned)
    ensures r.Found? ==> 9 <= r.end <= |w| && |r.payload| <= cap
    decreases |w|
  {
    if w == [] then NotFound
    else if w[0] != OPEN then Shift(Scan(cap, w[1..]), 1)
    else if |w| < 6 then NotFound
    else
      var n := FromBE32(w[2..6]);
      if n > cap || |w| < n + 8 then NotFound
      else if w[n + 6..n + 8] != BE16(Sum16(w[6..n + 6])) then Shift(Scan(cap, w[n + 8..]), n + 8)
      else if |w| == n + 8 then NotFound
      else if w[n + 8] != CLOSE then Shift(Scan(cap, w[n + 9..]), n + 9)
      else Found(w[1], w[6..n + 6], n + 9)
  }
}
