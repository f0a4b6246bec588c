/** The receiver agrees with the reference parser; frames survive any chunking. */
module FrameProofs {
  import opened Bytes
  import opened FrameSpec

  // ------------------------------------------- what each part of a frame does

  /** The state after the declared length has been read. */
  function InData(ty: Byte, n: nat, got: seq<Byte>): Rx {
    Rx(Data, false, n, ty, 0, Sum16(got), 0, got)
  }

  lemma FeedOne(cap: nat, s: Rx, b: Byte)
    ensures Feed(cap, s, [b]) == Step(cap, s, b)
    ensures Completes(cap, s, [b]) == (s.phase == EndFlag && b == CLOSE)
  {
    assert [b][..0] == [];
    assert Feed(cap, s, []) == s && !Completes(cap, s, []);
  }

  lemma FeedSnoc(cap: nat, s: Rx, a: seq<Byte>, b: Byte)
    ensures Feed(cap, s, a + [b]) == Step(cap, Feed(cap, s, a), b)
    ensures Completes(cap, s, a + [b]) == (Completes(cap, s, a) || (Feed(cap, s, a).phase == EndFlag && b == CLOSE))
  {
    assert (a + [b])[..|a + [b]| - 1] == a;
  }

  lemma LengthStep(cap: nat, s: Rx, l: seq<Byte>, k: nat, e: nat)
    requires k < 4 == |l| && s.phase == Length && e + Placed(l[k], 3 - k) < 0x1_0000_0000
    requires Feed(cap, s, l[..k]) == s.(expected := e, count := k) && !Completes(cap, s, l[..k])
    ensures !Completes(cap, s, l[..k + 1])
    ensures Feed(cap, s, l[..k + 1]) ==
            var e' := e + Placed(l[k], 3 - k);
            if k == 3 then Settle(s.(phase := Data, expected := e', count := 0)) else s.(expected := e', count := k + 1)
  {
    hide Feed, Completes;
    FeedSnoc(cap, s, l[..k], l[k]);
    assert l[..k] + [l[k]] == l[..k + 1];
  }

  /** Four length bytes, from whatever the input buffer holds. */
  lemma FeedLength(cap: nat, s: Rx, l: seq<Byte>)
    requires |l| == 4 && s.phase == Length && s.expected == s.count == 0
    ensures Feed(cap, s, l) == Settle(s.(phase := Data, expected := FromBE32(l)))
    ensures forall k | 0 <= k <= 4 :: !Completes(cap, s, l[..k])
  {
    hide Step, Settle;
    assert l[..0] == [];
    var e1 := Placed(l[0], 3);
    var e2 := e1 + Placed(l[1], 2);
    var e3 := e2 + Placed(l[2], 1);
    LengthStep(cap, s, l, 0, 0);
    LengthStep(cap, s, l, 1, e1);
    LengthStep(cap, s, l, 2, e2);
    LengthStep(cap, s, l, 3, e3);
    assert l[..4] == l;
  }

  /** A header read while hunting for a start flag. */
  lemma FeedHeaderFrom(cap: nat, s: Rx, h: seq<Byte>)
    requires |h| == 6 && h[0] == OPEN && s.phase == StartFlag && s.expected == s.count == 0
    ensures Feed(cap, s, h) == Settle(s.(phase := Data, msgType := h[1], expected := FromBE32(h[2..6])))
    ensures forall k | 0 <= k <= 6 :: !Completes(cap, s, h[..k])
  {
    FeedOne(cap, s, h[0]);
    assert h[..1] == [h[0]];
    FeedSnoc(cap, s, h[..1], h[1]);
    assert h[..1] + [h[1]] == h[..2];
    FeedLength(cap, Feed(cap, s, h[..2]), h[2..6]);
    forall k | 2 <= k <= 6 ensures h[..k] == h[..2] + h[2..6][..k - 2] && !Completes(cap, s, h[..k]) {
      assert h[..k] == h[..2] + h[2..6][..k - 2];
      FeedAppend(cap, s, h[..2], h[2..6][..k - 2]);
    }
    assert h == h[..2] + h[2..6];
    FeedAppend(cap, s, h[..2], h[2..6]);
  }

  lemma FeedHeader(cap: nat, h: seq<Byte>)
    requires |h| == 6 && h[0] == OPEN
    ensures Feed(cap, FRESH, h) == Settle(InData(h[1], FromBE32(h[2..6]), []))
    ensures forall k | 0 <= k <= 6 :: !Completes(cap, FRESH, h[..k])
  {
    FeedHeaderFrom(cap, FRESH, h);
  }

  lemma PushStep(cap: nat, ready: bool, ty: Byte, n: nat, sum: nat, input: seq<Byte>, b: Byte)
    requires |input| < n <= cap
    ensures Step(cap, Settle(Rx(Data, ready, n, ty, 0, sum, 0, input)), b)
         == Settle(Rx(Data, ready, n, ty, 0, (sum + b) % 0x1_0000, 0, input + [b]))
    ensures Settle(Rx(Data, ready, n, ty, 0, sum, 0, input)).phase == Data
  {
  }

  lemma MoreStep(cap: nat, ready: bool, ty: Byte, n: nat, left: seq<Byte>, p: seq<Byte>, b: Byte)
    requires |left| + |p| < n <= cap
    ensures Step(cap, Settle(Rx(Data, ready, n, ty, 0, Sum16(p), 0, left + p)), b)
         == Settle(Rx(Data, ready, n, ty, 0, Sum16(p + [b]), 0, left + (p + [b])))
    ensures Settle(Rx(Data, ready, n, ty, 0, Sum16(p), 0, left + p)).phase == Data
  {
    hide Step, Settle, Sum16;
    Sum16Snoc(p, b);
    assert left + p + [b] == left + (p + [b]);
    PushStep(cap, ready, ty, n, Sum16(p), left + p, b);
  }

  /** Payload bytes on top of what the input buffer held before; only they are in the sum. */
  lemma {:induction false} FeedMore(cap: nat, ready: bool, ty: Byte, n: nat, left: seq<Byte>, p: seq<Byte>)
    requires |left| + |p| <= n <= cap
    ensures var s := Settle(Rx(Data, ready, n, ty, 0, 0, 0, left));
            && Feed(cap, s, p) == Settle(Rx(Data, ready, n, ty, 0, Sum16(p), 0, left + p)) && !Completes(cap, s, p)
  {
    hide Step, Settle;
    if p == [] {
      assert left + p == left;
    } else {
      var front := p[..|p| - 1];
      FeedMore(cap, ready, ty, n, left, front);
      MoreStep(cap, ready, ty, n, left, front, p[|p| - 1]);
      assert p == front + [p[|p| - 1]];
    }
  }

  lemma FeedPayload(cap: nat, ty: Byte, n: nat, p: seq<Byte>)
    requires |p| <= n <= cap
    ensures Feed(cap, Settle(InData(ty, n, [])), p) == Settle(InData(ty, n, p))
    ensures !Completes(cap, Settle(InData(ty, n, [])), p)
  {
    hide Feed, Completes, Settle;
    FeedMore(cap, false, ty, n, [], p);
    assert [] + p == p;
  }

  /** A length above the capacity keeps the receiver in DATA whatever arrives. */
  lemma {:induction false} FeedOversize(cap: nat, ty: Byte, n: nat, p: seq<Byte>)
    requires n > cap
    ensures !Completes(cap, InData(ty, n, []), p)
    ensures var s := Feed(cap, InData(ty, n, []), p); s.phase == Data && |s.input| <= cap && s.expected == n && !s.ready
  {
    if p != [] {
      FeedOversize(cap, ty, n, p[..|p| - 1]);
    }
  }

  lemma BE16Matches(c: seq<Byte>, sum: nat)
    requires |c| == 2 && sum < 0x1_0000
    ensures c == BE16(sum) <==> (c[0] as int) * 0x100 + c[1] as int == sum
  {
    var c0: int, c1: int := c[0], c[1];
    assert sum / 0x100 < 0x100;
    assert c0 * 0x100 + c1 == sum ==> c0 == sum / 0x100 && c1 == sum % 0x100;
    assert c == [c[0], c[1]];
  }

  lemma SumSteps(cap: nat, s: Rx, c0: Byte, c1: Byte)
    requires s.phase == Checksum && s.count == s.compare == 0 && s.sum < 0x1_0000
    ensures Step(cap, s, c0) == s.(compare := (c0 as int) * 0x100, count := 1)
    ensures Step(cap, Step(cap, s, c0), c1) ==
            if (c0 as int) * 0x100 + c1 as int == s.sum then s.(phase := EndFlag, sum := 0) else FRESH
  {
  }

  /** The two bytes of the sum. */
  lemma FeedSumFrom(cap: nat, s: Rx, c: seq<Byte>)
    requires |c| == 2 && s.phase == Checksum && s.count == s.compare == 0 && s.sum < 0x1_0000
    ensures Feed(cap, s, c) == if c == BE16(s.sum) then s.(phase := EndFlag, sum := 0) else FRESH
    ensures !Completes(cap, s, c[..1]) && !Completes(cap, s, c)
  {
    hide Step, BE16, Feed, Completes;
    SumSteps(cap, s, c[0], c[1]);
    BE16Matches(c, s.sum);
    FeedOne(cap, s, c[0]);
    assert c[..1] == [c[0]];
    FeedSnoc(cap, s, c[..1], c[1]);
    assert c[..1] + [c[1]] == c;
  }

  lemma FeedSum(cap: nat, ty: Byte, p: seq<Byte>, c: seq<Byte>)
    requires |c| == 2
    ensures var s := Settle(InData(ty, |p|, p));
            && Feed(cap, s, c) == (if c == BE16(Sum16(p)) then Rx(EndFlag, false, |p|, ty, 0, 0, 0, p) else FRESH)
            && !Completes(cap, s, c[..1]) && !Completes(cap, s, c)
  {
    hide Feed, Completes, BE16, Sum16;
    FeedSumFrom(cap, Settle(InData(ty, |p|, p)), c);
  }

  /** Everything up to the closing flag: no completion on the way, and what is left in the receiver. */
  lemma FeedBody(cap: nat, w: seq<Byte>, n: nat)
    requires 6 <= |w| && w[0] == OPEN && n == FromBE32(w[2..6]) <= cap && n + 8 <= |w|
    ensures Feed(cap, FRESH, w[..n + 8]) ==
            if w[n + 6..n + 8] == BE16(Sum16(w[6..n + 6])) then Rx(EndFlag, false, n, w[1], 0, 0, 0, w[6..n + 6])
            else FRESH
    ensures !Completes(cap, FRESH, w[..n + 8])
  {
    hide Feed, Completes, Step, BE16, Sum16, FromBE32, InData, Settle;
    var p := w[6..n + 6];
    FeedHeader(cap, w[..6]);
    assert w[..6][..6] == w[..6];
    assert w[..6][2..6] == w[2..6];
    FeedPayload(cap, w[1], n, p);
    assert w[..n + 6] == w[..6] + p;
    FeedAppend(cap, FRESH, w[..6], p);
    FeedSum(cap, w[1], p, w[n + 6..n + 8]);
    assert w[..n + 8] == w[..n + 6] + w[n + 6..n + 8];
    FeedAppend(cap, FRESH, w[..n + 6], w[n + 6..n + 8]);
  }

  lemma FeedEnd(cap: nat, w: seq<Byte>, n: nat)
    requires n + 9 <= |w| && Feed(cap, FRESH, w[..n + 8]).phase == EndFlag && !Completes(cap, FRESH, w[..n + 8])
    ensures Completes(cap, FRESH, w[..n + 9]) <==> w[n + 8] == CLOSE
    ensures Feed(cap, FRESH, w[..n + 9]) ==
            if w[n + 8] == CLOSE then Feed(cap, FRESH, w[..n + 8]).(phase := StartFlag, ready := true, expected := 0)
            else FRESH
  {
    hide Feed, Completes;
    FeedSnoc(cap, FRESH, w[..n + 8], w[n + 8]);
    assert w[..n + 8] + [w[n + 8]] == w[..n + 9];
  }

  lemma FeedNoise(cap: nat, w: seq<Byte>)
    requires w != [] && w[0] != OPEN
    ensures Feed(cap, FRESH, w[..1]) == FRESH && !Completes(cap, FRESH, w[..1])
  {
    hide Feed, Completes;
    FeedOne(cap, FRESH, w[0]);
    assert w[..1] == [w[0]];
  }

  // -------------------------------------------------- refinement of the parser

  /** What the receiver must have done with `w` for it to agree with the parser. */
  ghost predicate Agrees(cap: nat, w: seq<Byte>) {
    match Scan(cap, w)
    case NotFound => !Completes(cap, FRESH, w)
    case Found(ty, payload, end) =>
      && !Completes(cap, FRESH, w[..end - 1])
      && Completes(cap, FRESH, w[..end])
      && Feed(cap, FRESH, w[..end]) == FRESH.(ready := true, msgType := ty, input := payload)
  }

  lemma SkipAgrees(cap: nat, w: seq<Byte>, k: nat)
    requires 0 < k <= |w| && !Completes(cap, FRESH, w[..k]) && Feed(cap, FRESH, w[..k]) == FRESH
    requires Agrees(cap, w[k..]) && Scan(cap, w) == Shift(Scan(cap, w[k..]), k)
    ensures Agrees(cap, w)
  {
    hide Feed, Completes, Step, Scan;
    assert w == w[..k] + w[k..];
    FeedAppend(cap, FRESH, w[..k], w[k..]);
    var r := Scan(cap, w[k..]);
    if r.Found? {
      assert w[..k + r.end] == w[..k] + w[k..][..r.end];
      FeedAppend(cap, FRESH, w[..k], w[k..][..r.end]);
      assert w[..k + r.end - 1] == w[..k] + w[k..][..r.end - 1];
      FeedAppend(cap, FRESH, w[..k], w[k..][..r.end - 1]);
    }
  }

  lemma PrefixDoesNotComplete(cap: nat, w: seq<Byte>, k: nat)
    requires k <= |w| && !Completes(cap, FRESH, w)
    ensures !Completes(cap, FRESH, w[..k])
  {
    FeedSplit(cap, FRESH, w, k);
  }

  lemma OversizeNeverCompletes(cap: nat, w: seq<Byte>)
    requires 6 <= |w| && w[0] == OPEN && FromBE32(w[2..6]) > cap
    ensures !Completes(cap, FRESH, w)
  {
    FeedHeader(cap, w[..6]);
    assert w[..6][2..6] == w[2..6];
    assert w[..6][..6] == w[..6];
    FeedSplit(cap, FRESH, w, 6);
    FeedOversize(cap, w[1], FromBE32(w[2..6]), w[6..]);
  }

  /** Bytes that stop before the end of a sum: pad them, and cut the padding off again. */
  lemma ShortNeverCompletes(cap: nat, w: seq<Byte>)
    requires w != [] && w[0] == OPEN
    requires |w| < 6 || |w| < FromBE32(w[2..6]) + 8 <= cap + 8
    ensures !Completes(cap, FRESH, w)
  {
    hide Completes, Feed, Step, FromBE32;
    if |w| < 6 {
      var h := w + seq(6 - |w|, _ => 0);
      FeedHeader(cap, h);
      assert h[..|w|] == w;
    } else {
      var n := FromBE32(w[2..6]);
      var full := w + seq(n + 8 - |w|, _ => 0);
      assert full[2..6] == w[2..6];
      FeedBody(cap, full, n);
      assert full[..n + 8] == full && full[..|w|] == w;
      PrefixDoesNotComplete(cap, full, |w|);
    }
  }

  lemma NotFoundAgrees(cap: nat, w: seq<Byte>)
    requires Scan(cap, w) == NotFound && !Completes(cap, FRESH, w)
    ensures Agrees(cap, w)
  {
    hide Scan, Completes, Feed;
  }

  lemma FoundAgrees(cap: nat, w: seq<Byte>, n: nat)
    requires n + 9 <= |w| && Scan(cap, w) == Found(w[1], w[6..n + 6], n + 9) && w[n + 8] == CLOSE
    requires Feed(cap, FRESH, w[..n + 8]) == Rx(EndFlag, false, n, w[1], 0, 0, 0, w[6..n + 6])
             && !Completes(cap, FRESH, w[..n + 8])
    ensures Agrees(cap, w)
  {
    hide Scan, Completes, Feed;
    FeedEnd(cap, w, n);
  }

  lemma AgreesIff(cap: nat, w: seq<Byte>)
    requires Agrees(cap, w)
    ensures Completes(cap, FRESH, w) <==> Scan(cap, w).Found?
  {
    hide Completes, Feed;
    var r := Scan(cap, w);
    if r.Found? {
      FeedSplit(cap, FRESH, w, r.end);
    }
  }

  /** The receiver completes exactly where the reference parser finds the first good frame, with the same result. */
  lemma {:induction false} ReceiverRefinesParser(cap: nat, w: seq<Byte>)
    ensures Agrees(cap, w)
    ensures Completes(cap, FRESH, w) <==> Scan(cap, w).Found?
    decreases |w|
  {
    hide Step, Feed, Completes, Agrees, FromBE32, BE16, Sum16;
    if w == [] {
      NothingCompletes(cap);
      NotFoundAgrees(cap, w);
    } else if w[0] != OPEN {
      FeedNoise(cap, w);
      ReceiverRefinesParser(cap, w[1..]);
      SkipAgrees(cap, w, 1);
    } else if |w| >= 6 && FromBE32(w[2..6]) > cap {
      OversizeNeverCompletes(cap, w);
      NotFoundAgrees(cap, w);
    } else if |w| < 6 || |w| < FromBE32(w[2..6]) + 8 {
      ShortNeverCompletes(cap, w);
      NotFoundAgrees(cap, w);
    } else {
      var n := FromBE32(w[2..6]);
      FeedBody(cap, w, n);
      if w[n + 6..n + 8] != BE16(Sum16(w[6..n + 6])) {
        ReceiverRefinesParser(cap, w[n + 8..]);
        SkipAgrees(cap, w, n + 8);
      } else if |w| == n + 8 {
        assert w[..n + 8] == w;
        NotFoundAgrees(cap, w);
      } else if w[n + 8] == CLOSE {
        FoundAgrees(cap, w, n);
      } else {
        FeedEnd(cap, w, n);
        ReceiverRefinesParser(cap, w[n + 9..]);
        SkipAgrees(cap, w, n + 9);
      }
    }
    AgreesIff(cap, w);
  }

  lemma NothingCompletes(cap: nat)
    ensures !Completes(cap, FRESH, [])
  {
  }

  lemma Parts(h: seq<Byte>, p: seq<Byte>, f: seq<Byte>)
    requires |h| == 6 && |f| == 3
    ensures var w, n := h + p + f, |p|;
            && w[..2] == h[..2] && w[2..6] == h[2..6] && w[6..n + 6] == p
            && w[n + 6..n + 8] == f[..2] && w[n + 8] == f[2]
  {
  }

  lemma Fields(ty: Byte, n: nat, sum: nat)
    ensures Header(ty, n)[..2] == [OPEN, ty] && Header(ty, n)[2..6] == BE32(n)
    ensures Footer(sum)[..2] == BE16(sum) && Footer(sum)[2] == CLOSE
  {
    hide BE32, BE16;
  }

  lemma FrameParts(ty: Byte, payload: seq<Byte>)
    requires |payload| < 0x1_0000_0000
    ensures var w, n := Frame(ty, payload), |payload|;
            && w[0] == OPEN && w[1] == ty && FromBE32(w[2..6]) == n && w[6..n + 6] == payload
            && w[n + 6..n + 8] == BE16(Sum16(payload)) && w[n + 8] == CLOSE
  {
    hide FromBE32, BE32, BE16, Sum16, Header, Footer;
    var w, n := Frame(ty, payload), |payload|;
    Fields(ty, n, Sum16(payload));
    Parts(Header(ty, n), payload, Footer(Sum16(payload)));
    assert w[0] == w[..2][0] && w[1] == w[..2][1];
    BE32RoundTrip(n);
  }

  /** A frame is understood if and only if its payload fits the input buffer. */
  lemma FrameUnderstoodIffItFits(cap: nat, ty: Byte, payload: seq<Byte>)
    requires |payload| < 0x1_0000_0000
    ensures Scan(cap, Frame(ty, payload)) == if |payload| <= cap then Found(ty, payload, |payload| + 9) else NotFound
  {
    FrameParts(ty, payload);
    hide Frame, BE16, FromBE32, Sum16;
  }

  lemma FrameAccepted(cap: nat, ty: Byte, payload: seq<Byte>)
    requires |payload| <= cap && |payload| < 0x1_0000_0000
    ensures var f := Frame(ty, payload);
            && Feed(cap, FRESH, f) == FRESH.(ready := true, msgType := ty, input := payload)
            && Completes(cap, FRESH, f) && !Completes(cap, FRESH, f[..|f| - 1])
  {
    var f := Frame(ty, payload);
    FrameUnderstoodIffItFits(cap, ty, payload);
    ReceiverRefinesParser(cap, f);
    assert f[..|f|] == f;
  }

  /** Garbage that leaves the receiver hunting for a start flag does not hurt the frame that follows it. */
  lemma ResynchronisesAfterGarbage(cap: nat, garbage: seq<Byte>, ty: Byte, payload: seq<Byte>)
    requires |payload| <= cap && |payload| < 0x1_0000_0000
    requires !Completes(cap, FRESH, garbage) && Feed(cap, FRESH, garbage).phase == StartFlag
    ensures Feed(cap, FRESH, garbage + Frame(ty, payload)) == FRESH.(ready := true, msgType := ty, input := payload)
    ensures Completes(cap, FRESH, garbage + Frame(ty, payload))
    ensures !Completes(cap, FRESH, garbage + Frame(ty, payload)[..|payload| + 8])
  {
    var f := Frame(ty, payload);
    CleanFeed(cap, FRESH, garbage);
    FrameAccepted(cap, ty, payload);
    FeedAppend(cap, FRESH, garbage, f);
    FeedAppend(cap, FRESH, garbage, f[..|f| - 1]);
  }

  // ------------------------------------------------------------- chunked input

  /** One putRxData call: nothing is read while a frame waits to be collected. */
  function Put(cap: nat, s: Rx, chunk: seq<Byte>): Rx {
    if s.ready then s else Feed(cap, s, chunk)
  }

  predicate PutAnswer(cap: nat, s: Rx, chunk: seq<Byte>) {
    !s.ready && Completes(cap, s, chunk)
  }

  function PutAll(cap: nat, s: Rx, chunks: seq<seq<Byte>>): Rx {
    if chunks == [] then s else Put(cap, PutAll(cap, s, chunks[..|chunks| - 1]), chunks[|chunks| - 1])
  }

  /** No byte of `chunk` is looked at while the receiver is stuck: the condition under which the call returns. */
  ghost predicate Returns(cap: nat, s: Rx, chunk: seq<Byte>) {
    forall k | 0 <= k < |chunk| :: !Stuck(Feed(cap, s, chunk[..k]))
  }

  /** `w` completes with its last byte and not before, as a frame that fits does. */
  ghost predicate CompletesAtEnd(cap: nat, w: seq<Byte>) {
    w != [] && Completes(cap, FRESH, w) && !Completes(cap, FRESH, w[..|w| - 1])
  }

  /** A part of `w` after the part before it. */
  lemma FeedPart(cap: nat, w: seq<Byte>, from: nat, to: nat)
    requires from <= to <= |w|
    ensures Feed(cap, FRESH, w[..to]) == Feed(cap, Feed(cap, FRESH, w[..from]), w[from..to])
    ensures Completes(cap, FRESH, w[..to])
            == (Completes(cap, FRESH, w[..from]) || Completes(cap, Feed(cap, FRESH, w[..from]), w[from..to]))
  {
    hide Feed, Completes, Step;
    assert w[..to] == w[..from] + w[from..to];
    FeedAppend(cap, FRESH, w[..from], w[from..to]);
  }

  /** On the way through `w` the receiver is not stuck. */
  lemma NeverStuckInside(cap: nat, w: seq<Byte>, from: nat, k: nat)
    requires CompletesAtEnd(cap, w) && from + k < |w|
    ensures !Stuck(Feed(cap, Feed(cap, FRESH, w[..from]), w[from..from + k]))
  {
    hide Feed, Completes, Step, Stuck, Clean;
    FeedPart(cap, w, from, from + k);
    NoEarlyCompletion(cap, w, from + k);
    CleanFresh();
    CleanFeed(cap, FRESH, w[..from + k]);
  }

  lemma CleanFresh()
    ensures Clean(FRESH)
  {
  }

  lemma PartOfPart(w: seq<Byte>, from: nat, to: nat, k: nat)
    requires from <= to <= |w| && k <= to - from
    ensures w[from..to][..k] == w[from..from + k]
  {
  }

  /** The call that is given the bytes from `from` up to `to`. */
  lemma OneChunk(cap: nat, w: seq<Byte>, from: nat, to: nat)
    requires CompletesAtEnd(cap, w) && from <= to <= |w| && from < |w|
    ensures var s := Feed(cap, FRESH, w[..from]);
            && !s.ready && Feed(cap, s, w[from..to]) == Feed(cap, FRESH, w[..to])
            && (Completes(cap, s, w[from..to]) <==> to == |w|)
            && Returns(cap, s, w[from..to])
  {
    hide Step, Feed, Completes, Stuck;
    NoEarlyCompletion(cap, w, from);
    CleanFeed(cap, FRESH, w[..from]);
    FeedPart(cap, w, from, to);
    if to < |w| {
      NoEarlyCompletion(cap, w, to);
    } else {
      assert w[..to] == w;
    }
    forall k | 0 <= k < to - from ensures !Stuck(Feed(cap, Feed(cap, FRESH, w[..from]), w[from..to][..k])) {
      PartOfPart(w, from, to, k);
      NeverStuckInside(cap, w, from, k);
    }
  }

  /** What the chunks that make up the first `fed` bytes of `w` do. */
  lemma {:induction false} ChunksOf(cap: nat, w: seq<Byte>, chunks: seq<seq<Byte>>, fed: nat)
    requires CompletesAtEnd(cap, w) && Feed(cap, FRESH, w).ready && fed <= |w| && Concat(chunks) == w[..fed]
    ensures PutAll(cap, FRESH, chunks) == Feed(cap, FRESH, w[..fed])
    ensures forall j | 0 <= j < |chunks| :: ChunkBehaves(cap, w, chunks, j)
    decreases |chunks|
  {
    assert w[..0] == [] && w[..|w|] == w;
    assert Feed(cap, FRESH, w[..0]) == FRESH;
    hide Step, Feed, Completes;
    if chunks != [] {
      var front, last := chunks[..|chunks| - 1], chunks[|chunks| - 1];
      var from := |Concat(front)|;
      assert Concat(front) == w[..from] && last == w[from..fed];
      ChunksOf(cap, w, front, from);
      forall j | 0 <= j < |chunks| ensures ChunkBehaves(cap, w, chunks, j) {
        if j < |front| {
          assert ChunkBehaves(cap, w, front, j);
          assert front[..j] == chunks[..j] && front[..j + 1] == chunks[..j + 1];
        } else {
          assert chunks[..j] == front && chunks[..j + 1] == chunks;
          if from < |w| {
            OneChunk(cap, w, from, fed);
          }
        }
      }
      if from < |w| {
        OneChunk(cap, w, from, fed);
      }
    }
  }

  /** The j-th call returns, and answers true exactly if its chunk holds the last byte of `w`. */
  ghost predicate ChunkBehaves(cap: nat, w: seq<Byte>, chunks: seq<seq<Byte>>, j: nat)
    requires j < |chunks|
  {
    var s := PutAll(cap, FRESH, chunks[..j]);
    && (PutAnswer(cap, s, chunks[j]) <==> |Concat(chunks[..j])| < |w| == |Concat(chunks[..j + 1])|)
    && (s.ready || Returns(cap, s, chunks[j]))
  }

  /**
   The round trip under any chunking: whatever the chunks of a frame that fits, the
   type and the payload come out, every call returns, and the call that is given the
   closing flag is the only one to answer true.
   */
  lemma FrameRoundTrip(cap: nat, ty: Byte, payload: seq<Byte>, chunks: seq<seq<Byte>>)
    requires |payload| <= cap && |payload| < 0x1_0000_0000
    requires Concat(chunks) == Frame(ty, payload)
    ensures PutAll(cap, FRESH, chunks) == FRESH.(ready := true, msgType := ty, input := payload)
    ensures forall j | 0 <= j < |chunks| :: ChunkBehaves(cap, Frame(ty, payload), chunks, j)
  {
    FrameAccepted(cap, ty, payload);
    var w := Concat(chunks);
    assert w[..|w|] == w;
    ChunksOf(cap, w, chunks, |w|);
  }

  lemma NoEarlyCompletion(cap: nat, w: seq<Byte>, k: nat)
    requires k < |w| && !Completes(cap, FRESH, w[..|w| - 1])
    ensures !Completes(cap, FRESH, w[..k])
  {
    FeedSplit(cap, FRESH, w[..|w| - 1], k);
    assert w[..|w| - 1][..k] == w[..k];
  }

  // ---------------------------------------------- two frames in the same call

  /**
   A second frame may follow in the same call only if it is not shorter: its header
   leaves the receiver stuck, and the call spinning, exactly when its payload is
   shorter than the one still waiting in the input buffer.
   */
  lemma SecondFrameSticksIffShorter(cap: nat, ty1: Byte, p1: seq<Byte>, ty2: Byte, n2: nat)
    requires |p1| <= cap && |p1| < 0x1_0000_0000 && n2 < 0x1_0000_0000
    ensures Stuck(Feed(cap, FRESH, Frame(ty1, p1) + Header(ty2, n2))) <==> n2 < |p1|
  {
    hide Step;
    var f, h := Frame(ty1, p1), Header(ty2, n2);
    FrameAccepted(cap, ty1, p1);
    FeedAppend(cap, FRESH, f, h);
    BE32RoundTrip(n2);
    assert h[2..6] == BE32(n2);
    hide Frame, Header, FromBE32, BE32;
    FeedHeaderFrom(cap, FRESH.(ready := true, msgType := ty1, input := p1), h);
  }

  /** Once stuck the receiver ignores every further byte. */
  lemma {:induction false} StuckForever(cap: nat, s: Rx, data: seq<Byte>)
    requires Stuck(s)
    ensures Feed(cap, s, data) == s && !Completes(cap, s, data)
  {
    if data != [] {
      StuckForever(cap, s, data[..|data| - 1]);
    }
  }
}
