/** Whole transmissions: any sizes of reads on one side, any chunks on the other. */
module Transmission {
  import opened Bytes
  import opened FrameSpec
  import opened FrameProofs
  import opened Framing

  /** What is still owed after reads of the given sizes. */
  function AfterReads(owed: seq<Byte>, sizes: seq<nat>): seq<Byte> {
    if sizes == [] then owed
    else
      var rest, n := AfterReads(owed, sizes[..|sizes| - 1]), sizes[|sizes| - 1];
      if n < |rest| then rest[n..] else []
  }

  /** The bytes each read hands out: as many as asked for, as many as there are. */
  function Reads(owed: seq<Byte>, sizes: seq<nat>): seq<seq<Byte>> {
    if sizes == [] then []
    else
      var rest, n := AfterReads(owed, sizes[..|sizes| - 1]), sizes[|sizes| - 1];
      Reads(owed, sizes[..|sizes| - 1]) + [if n < |rest| then rest[..n] else rest]
  }

  function Total(sizes: seq<nat>): nat {
    if sizes == [] then 0 else Total(sizes[..|sizes| - 1]) + sizes[|sizes| - 1]
  }

  /** No byte is lost, repeated or reordered by the sizes of the reads, and each lowers the pending count by its own. */
  lemma {:induction false} ReadsConserveTheFrame(owed: seq<Byte>, sizes: seq<nat>)
    ensures Concat(Reads(owed, sizes)) + AfterReads(owed, sizes) == owed
    ensures |AfterReads(owed, sizes)| == if Total(sizes) < |owed| then |owed| - Total(sizes) else 0
  {
    if sizes != [] {
      var front := sizes[..|sizes| - 1];
      ReadsConserveTheFrame(owed, front);
      var all := Reads(owed, sizes);
      assert all[..|all| - 1] == Reads(owed, front);
    }
  }

  /**
   From one end to the other: a frame read in any sizes until nothing is owed, its
   bytes cut up again in any way, is the same type and payload at a fresh receiver.
   */
  lemma EndToEnd(cap: nat, ty: Byte, payload: seq<Byte>, sizes: seq<nat>, chunks: seq<seq<Byte>>)
    requires |payload| <= cap && |payload| < 0x1_0000_0000
    requires Total(sizes) >= |payload| + 9 && Concat(chunks) == Concat(Reads(Frame(ty, payload), sizes))
    ensures PutAll(cap, FRESH, chunks) == FRESH.(ready := true, msgType := ty, input := payload)
    ensures forall j | 0 <= j < |chunks| :: ChunkBehaves(cap, Frame(ty, payload), chunks, j)
  {
    hide Frame;
    var f := Frame(ty, payload);
    ReadsConserveTheFrame(f, sizes);
    assert Concat(chunks) + [] == Concat(chunks);
    FrameRoundTrip(cap, ty, payload, chunks);
  }

  /** Bytes put into the output buffer while a frame is under way leave it alone only after its payload is out. */
  lemma LateWriteIsHarmlessIffPayloadIsOut(t: Tx, late: seq<Byte>)
    requires TxValid(t)
    ensures Remaining(t.(output := t.output + late)) == Remaining(t)
            <==> late == [] || t.state == Foot || t.state == None
  {
    assert late == [] ==> t.output + late == t.output;
    assert |Remaining(t.(output := t.output + late))| ==
           |Remaining(t)| + if t.state == Foot || t.state == None then 0 else |late|;
  }

  /** Six bytes of what is left of one header and of the whole next one. */
  lemma HeaderOverrunIff(left: seq<Byte>, next: seq<Byte>)
    requires |left| <= 6 == |next|
    ensures (left + next)[..6] == next <==> left == next[..|left|] && next[..6 - |left|] == next[|left|..]
  {
    var k, sent := |left|, (left + next)[..6];
    assert sent == left + next[..6 - k];
    assert next == next[..k] + next[k..];
    if left == next[..k] && next[..6 - k] == next[k..] {
      assert sent == next;
    }
    if sent == next {
      assert left == sent[..k] && next[..6 - k] == sent[k..];
    }
  }

  /**
   For types other than the start flag and payloads of ordinary size that takes nothing left, or all of
   the same header.
   */
  lemma OrdinaryOverrunIff(before: seq<Byte>, next: seq<Byte>, k: nat)
    requires |before| == |next| == 6 && k <= 6 && before[0] == next[0] == OPEN && before[1] != OPEN && next[1] != OPEN
    requires next[2] == next[3] == 0 && next[4] != OPEN
    ensures (before[6 - k..] + next)[..6] == next <==> k == 0 || (k == 6 && before == next)
  {
    var sent := (before[6 - k..] + next)[..6];
    if 0 < k < 6 {
      assert sent[k] == OPEN && sent[0] == before[6 - k];
    }
  }

  lemma HeadersAgreeIff(ty: Byte, n: nat, ty': Byte, n': nat)
    requires n < 0x1_0000_0000 && n' < 0x1_0000_0000
    ensures Header(ty, n) == Header(ty', n') <==> ty == ty' && n == n'
  {
    BE32RoundTrip(n);
    BE32RoundTrip(n');
    hide BE32, FromBE32;
    assert Header(ty, n)[2..] == BE32(n) && Header(ty', n')[2..] == BE32(n');
    assert Header(ty, n)[1] == ty && Header(ty', n')[1] == ty';
  }

  lemma HeaderBytes(ty: Byte, n: nat)
    ensures Header(ty, n)[0] == OPEN && Header(ty, n)[1] == ty
    ensures n < 0x5B00 ==> Header(ty, n)[2] == Header(ty, n)[3] == 0 && Header(ty, n)[4] != OPEN
  {
    assert Header(ty, n)[2] == n / 0x100_0000 % 256 && Header(ty, n)[3] == n / 0x1_0000 % 256;
    assert Header(ty, n)[4] == n / 0x100 % 256;
  }

  lemma SameStart<T>(a: seq<T>, b: seq<T>, middle: seq<T>, end: seq<T>)
    requires |a| == |b|
    ensures a + middle + end == b + middle + end <==> a == b
  {
    assert (a + middle + end)[..|a|] == a && (b + middle + end)[..|b|] == b;
  }

  lemma OrdinaryHeadersOverrunIff(ty0: Byte, n0: nat, k: nat, ty: Byte, n: nat)
    requires k <= 6 && n0 < 0x1_0000_0000 && n < 0x5B00 && ty0 != OPEN && ty != OPEN
    ensures (Header(ty0, n0)[6 - k..] + Header(ty, n))[..6] == Header(ty, n)
            <==> k == 0 || (k == 6 && ty0 == ty && n0 == n)
  {
    hide Header;
    HeaderBytes(ty0, n0);
    HeaderBytes(ty, n);
    OrdinaryOverrunIff(Header(ty0, n0), Header(ty, n), k);
    HeadersAgreeIff(ty0, n0, ty, n);
  }

  /** What goes out when `left` is still in the header buffer is the frame. */
  predicate SentRight(left: seq<Byte>, ty: Byte, output: seq<Byte>) {
    (left + Header(ty, |output|))[..6] + output + Footer(Sum16(output)) == Frame(ty, output)
  }

  lemma SentRightIff(left: seq<Byte>, ty: Byte, output: seq<Byte>)
    ensures SentRight(left, ty, output) <==> (left + Header(ty, |output|))[..6] == Header(ty, |output|)
  {
    hide Header, Footer, Sum16;
    SameStart((left + Header(ty, |output|))[..6], Header(ty, |output|), output, Footer(Sum16(output)));
  }

  /**
   A reset that leaves a part of a header unread: the next frame comes out right if and only if
   that part begins its header and the header repeats it; for types other than the start flag
   itself and payloads of ordinary size that is if nothing was left, or all of the same header.
   */
  lemma ResetSparesTheNextFrameIff(ty0: Byte, n0: nat, k: nat, ty: Byte, output: seq<Byte>)
    requires k <= 6
    ensures var left, next := Header(ty0, n0)[6 - k..], Header(ty, |output|);
            && (SentRight(left, ty, output) <==> left == next[..k] && next[..6 - k] == next[k..])
            && (n0 < 0x1_0000_0000 && |output| < 0x5B00 && ty0 != OPEN && ty != OPEN ==>
                  (SentRight(left, ty, output) <==> k == 0 || (k == 6 && ty0 == ty && n0 == |output|)))
  {
    hide Header, SentRight;
    var left := Header(ty0, n0)[6 - k..];
    HeaderOverrunIff(left, Header(ty, |output|));
    SentRightIff(left, ty, output);
    if n0 < 0x1_0000_0000 && |output| < 0x5B00 && ty0 != OPEN && ty != OPEN {
      OrdinaryHeadersOverrunIff(ty0, n0, k, ty, |output|);
    }
  }
}
