/** What a frame meets when the payload of an earlier one is still in the input buffer. */
module Leftovers {
  import opened Bytes
  import opened Wrappers
  import opened FrameSpec
  import opened FrameProofs

  /** Hunting for a start flag with `input` in the buffer, as after a frame or after its type was handed over. */
  function Between(ready: bool, ty: Byte, input: seq<Byte>): Rx {
    FRESH.(ready := ready, msgType := ty, input := input)
  }

  // ------------------------------------------------- what a reset costs

  /** Since a reset, `n` bytes are enough for what the receiver holds: every payload is behind a header. */
  predicate Paid(s: Rx, n: nat) {
    && s.count < (match s.phase case Length => 4 case Checksum => 2 case _ => 1)
    && if s.input != [] then |s.input| + 6 <= n
       else match s.phase
         case StartFlag => true
         case Type => 1 <= n
         case Length => 2 + s.count <= n
         case _ => 6 <= n
  }

  lemma PaidStep(cap: nat, s: Rx, b: Byte, n: nat)
    requires Paid(s, n)
    ensures Paid(Step(cap, s, b), n + 1)
  {
  }

  lemma {:induction false} PaidFeed(cap: nat, w: seq<Byte>)
    ensures Paid(Feed(cap, FRESH, w), |w|)
  {
    if w != [] {
      hide Paid, Step;
      PaidFeed(cap, w[..|w| - 1]);
      PaidStep(cap, Feed(cap, FRESH, w[..|w| - 1]), w[|w| - 1], |w| - 1);
    } else {
      assert Paid(FRESH, 0);
    }
  }

  lemma StepKeepsOrResets(cap: nat, s: Rx, left: seq<Byte>, b: Byte)
    requires left <= s.input
    ensures left <= Step(cap, s, b).input || Step(cap, s, b) == FRESH
  {
  }

  /** The buffer only grows, until a reset. */
  lemma {:induction false} KeepsOrResets(cap: nat, s: Rx, left: seq<Byte>, w: seq<Byte>)
    requires left <= s.input
    ensures left <= Feed(cap, s, w).input || exists j | 0 < j <= |w| :: Feed(cap, s, w[..j]) == FRESH
  {
    if w != [] {
      hide Step;
      var front := w[..|w| - 1];
      assert w[..|w|] == w;
      KeepsOrResets(cap, s, left, front);
      if left <= Feed(cap, s, front).input {
        StepKeepsOrResets(cap, Feed(cap, s, front), left, w[|w| - 1]);
      } else {
        var j :| 0 < j <= |front| && Feed(cap, s, front[..j]) == FRESH;
        assert front[..j] == w[..j];
      }
    }
  }

  /**
   Too few bytes are left to receive `p` after a reset, and without one the buffer keeps what `p` does
   not begin with.
   */
  lemma NeverAgain(cap: nat, s: Rx, left: seq<Byte>, w: seq<Byte>, p: seq<Byte>)
    requires left <= s.input && !(left <= p) && p != [] && |w| <= |p| + 6
    ensures Feed(cap, s, w).input != p
  {
    hide Feed, Step;
    KeepsOrResets(cap, s, left, w);
    if !(left <= Feed(cap, s, w).input) {
      var j :| 0 < j <= |w| && Feed(cap, s, w[..j]) == FRESH;
      FeedSplit(cap, s, w, j);
      PaidFeed(cap, w[j..]);
    }
  }

  /** A declared length above the capacity is never reached. */
  lemma {:induction false} StaysInData(cap: nat, s: Rx, w: seq<Byte>)
    requires s.phase == Data && |s.input| <= cap < s.expected
    ensures var r := Feed(cap, s, w); r.phase == Data && |r.input| <= cap < r.expected
  {
    if w != [] {
      StaysInData(cap, s, w[..|w| - 1]);
    }
  }

  // ------------------------------------------ the bytes after an early end

  /**
   What becomes of the type when `w` follows a frame whose `n` payload bytes are still in the
   buffer: noise is skipped, and an empty-handed frame of the same length, which finds its
   payload already there and a zero sum, replaces the type. Anything else loses the payload.
   */
  function Trailing(n: nat, ty: Byte, w: seq<Byte>): Option<Byte>
    decreases |w|
  {
    if w == [] then Some(ty)
    else if w[0] != OPEN then Trailing(n, ty, w[1..])
    else if |w| >= 9 && FromBE32(w[2..6]) == n && w[6..9] == [0, 0, CLOSE] then Trailing(n, w[1], w[9..])
    else None
  }

  lemma {:induction false} InHeader(cap: nat, s: Rx, w: seq<Byte>)
    requires 1 <= |w| < 6 && w[0] == OPEN && s.phase == StartFlag && s.count == 0
    ensures var r := Feed(cap, s, w);
            if |w| == 1 then r.phase == Type && r.count == 0 else r.phase == Length && r.count == |w| - 2
  {
    var front := w[..|w| - 1];
    FeedSnoc(cap, s, front, w[|w| - 1]);
    assert front + [w[|w| - 1]] == w;
    if |w| == 1 {
      assert Feed(cap, s, front) == s;
    } else {
      InHeader(cap, s, front);
    }
  }

  lemma NotAgainFromFresh(cap: nat, s: Rx, w: seq<Byte>, k: nat, p: seq<Byte>)
    requires k <= |w| && Feed(cap, s, w[..k]) == FRESH && p != [] && |w| - k <= |p| + 5
    ensures Feed(cap, s, w).input != p
  {
    hide Feed;
    FeedSplit(cap, s, w, k);
    PaidFeed(cap, w[k..]);
  }

  /** After a header that declares another length than the buffer holds. */
  lemma OtherLengthLoses(cap: nat, s: Rx, p: seq<Byte>, n: nat, w: seq<Byte>)
    requires s.phase == Data && s.input == p && s.expected == n != |p| && p != [] && |p| <= cap && |w| <= |p| + 6
    ensures var r := Feed(cap, s, w); r.phase != StartFlag || r.input != p
  {
    if n < |p| {
      StuckForever(cap, s, w);
    } else if n > cap {
      StaysInData(cap, s, w);
    } else if w != [] {
      assert w[..1] == [w[0]];
      FeedOne(cap, s, w[0]);
      FeedSplit(cap, s, w, 1);
      NeverAgain(cap, Step(cap, s, w[0]), p + [w[0]], w[1..], p);
    }
  }

  lemma ZeroSum(c: seq<Byte>)
    requires |c| == 2
    ensures c == BE16(0) <==> c == [0, 0]
  {
  }

  /** After a header that declares the length the buffer holds. */
  lemma SameLengthAgain(cap: nat, s: Rx, p: seq<Byte>, w: seq<Byte>)
    requires s == Rx(Checksum, true, |p|, s.msgType, 0, 0, 0, p) && p != [] && |w| <= |p| + 5
    ensures var r := Feed(cap, s, w);
            if |w| >= 3 && w[..3] == [0, 0, CLOSE] then r == Feed(cap, Between(true, s.msgType, p), w[3..])
            else r.phase != StartFlag || r.input != p
  {
    hide Feed, Step;
    if |w| < 2 {
      SumSteps(cap, s, if w == [] then 0 else w[0], 0);
      if |w| == 1 {
        FeedOne(cap, s, w[0]);
        assert w == [w[0]];
      } else {
        FeedNothing(cap, s);
      }
    } else {
      FeedSumFrom(cap, s, w[..2]);
      ZeroSum(w[..2]);
      if w[..2] != [0, 0] {
        NotAgainFromFresh(cap, s, w, 2, p);
      } else if |w| == 2 {
        assert w == w[..2];
      } else {
        EndStep(cap, s, w);
        if w[2] == CLOSE {
          FeedSplit(cap, s, w, 3);
        } else {
          NotAgainFromFresh(cap, s, w, 3, p);
        }
      }
    }
  }

  lemma FeedNothing(cap: nat, s: Rx)
    ensures Feed(cap, s, []) == s
  {
  }

  lemma EndStep(cap: nat, s: Rx, w: seq<Byte>)
    requires |w| >= 3 && Feed(cap, s, w[..2]).phase == EndFlag
    ensures var e := Feed(cap, s, w[..2]);
            Feed(cap, s, w[..3]) == if w[2] == CLOSE then e.(phase := StartFlag, ready := true, expected := 0)
                                    else FRESH
  {
    hide Feed;
    FeedSnoc(cap, s, w[..2], w[2]);
    assert w[..2] + [w[2]] == w[..3];
  }

  lemma {:induction false} TrailingIff(cap: nat, t: Byte, p: seq<Byte>, ty: Byte, w: seq<Byte>)
    requires p != [] && |p| <= cap && |p| < 0x1_0000_0000 && |w| <= |p| + 5
    ensures Feed(cap, Between(true, t, p), w) == Between(true, ty, p) <==> Trailing(|p|, t, w) == Some(ty)
    decreases |w|
  {
    hide Feed, Step, FromBE32;
    var s := Between(true, t, p);
    if w == [] {
      FeedNothing(cap, s);
    } else if w[0] != OPEN {
      SkipNoise(cap, s, w);
      TrailingIff(cap, t, p, ty, w[1..]);
    } else if |w| < 6 {
      InHeader(cap, s, w);
    } else {
      FeedHeaderFrom(cap, s, w[..6]);
      assert w[..6][2..6] == w[2..6];
      FeedSplit(cap, s, w, 6);
      var n, d := FromBE32(w[2..6]), Feed(cap, s, w[..6]);
      if n != |p| {
        OtherLengthLoses(cap, d, p, n, w[6..]);
      } else {
        SameLengthAgain(cap, d, p, w[6..]);
        if |w| >= 9 {
          assert w[6..][..3] == w[6..9] && w[6..][3..] == w[9..];
          TrailingIff(cap, w[1], p, ty, w[9..]);
        }
      }
    }
  }

  lemma SkipNoise(cap: nat, s: Rx, w: seq<Byte>)
    requires w != [] && w[0] != OPEN && s.phase == StartFlag
    ensures Feed(cap, s, w) == Feed(cap, s, w[1..])
  {
    FeedOne(cap, s, w[0]);
    assert w[..1] == [w[0]];
    FeedSplit(cap, s, w, 1);
  }

  // ----------------------------------------------------- the main theorems

  /**
   The accident by which a frame is understood on leftovers: they begin the payload, the
   payload repeats them, and the sum and the closing flag turn up inside the payload where
   the receiver, short by what it already holds, looks for them.
   */
  predicate Echoes(ty: Byte, left: seq<Byte>, p: seq<Byte>) {
    && left <= p
    && var k := |p| - |left|;
       var rest := p[k..] + Footer(Sum16(p));
       && left + p[..k] == p && rest[..2] == BE16(Sum16(p[..k])) && rest[2] == CLOSE
       && Trailing(|p|, ty, rest[3..]) == Some(ty)
  }

  /** The frame after its header, split where the receiver has as much as was declared. */
  lemma AfterHeader(cap: nat, ready: bool, ty: Byte, left: seq<Byte>, p: seq<Byte>, k: nat)
    requires left != [] && |left| + k == |p| <= cap && |p| < 0x1_0000_0000
    ensures var rest := p[k..] + Footer(Sum16(p)); var w := p + Footer(Sum16(p));
            var r := Feed(cap, Settle(Rx(Data, ready, |p|, ty, 0, 0, 0, left)), w);
            r == Between(true, ty, p) <==>
              && left + p[..k] == p && rest[..2] == BE16(Sum16(p[..k])) && rest[2] == CLOSE
              && Trailing(|p|, ty, rest[3..]) == Some(ty)
  {
    hide Feed, Step, Settle, Footer, BE16, Sum16, Trailing;
    var w, rest, x := p + Footer(Sum16(p)), p[k..] + Footer(Sum16(p)), left + p[..k];
    var s, c := Settle(Rx(Data, ready, |p|, ty, 0, 0, 0, left)), Rx(Checksum, ready, |p|, ty, 0, Sum16(p[..k]), 0, x);
    FeedMore(cap, ready, ty, |p|, left, p[..k]);
    SettleFull(Rx(Data, ready, |p|, ty, 0, Sum16(p[..k]), 0, x));
    assert w[..k] == p[..k] && w[k..] == rest;
    FeedSplit(cap, s, w, k);
    AfterSum(cap, c, p, rest);
    if rest[..2] == BE16(Sum16(p[..k])) && rest[2] == CLOSE {
      if x == p {
        TrailingIff(cap, ty, p, ty, rest[3..]);
      } else {
        assert x <= p ==> x == p;
        NeverAgain(cap, Between(true, ty, x), x, rest[3..], p);
      }
    }
  }

  lemma SettleFull(s: Rx)
    requires s.phase == Data && |s.input| == s.expected
    ensures Settle(s) == s.(phase := Checksum)
  {
  }

  lemma AfterSum(cap: nat, c: Rx, p: seq<Byte>, rest: seq<Byte>)
    requires c.phase == Checksum && c.count == c.compare == 0 && c.sum < 0x1_0000
    requires p != [] && 3 <= |rest| <= |p| + 3
    ensures var r := Feed(cap, c, rest);
            if rest[..2] == BE16(c.sum) && rest[2] == CLOSE
            then r == Feed(cap, Between(true, c.msgType, c.input), rest[3..])
            else r.input != p
  {
    hide Feed, Step, BE16;
    FeedSumFrom(cap, c, rest[..2]);
    if rest[..2] != BE16(c.sum) {
      NotAgainFromFresh(cap, c, rest, 2, p);
    } else {
      EndStep(cap, c, rest);
      if rest[2] != CLOSE {
        NotAgainFromFresh(cap, c, rest, 3, p);
      } else {
        FeedSplit(cap, c, rest, 3);
      }
    }
  }

  /**
   A frame that arrives on leftovers is understood if and only if it fits the buffer and
   there are none, but for the accident. In particular it never is when the leftovers are
   not the beginning of its own payload.
   */
  lemma FrameOnLeftoversIff(cap: nat, ready: bool, t: Byte, left: seq<Byte>, ty: Byte, p: seq<Byte>)
    requires |left| <= cap && |p| < 0x1_0000_0000
    ensures Feed(cap, Between(ready, t, left), Frame(ty, p)) == Between(true, ty, p)
            <==> |p| <= cap && (left == [] || Echoes(ty, left, p))
  {
    hide Feed, Step, Footer, BE16, Sum16, Trailing, FromBE32;
    var s, w := Between(ready, t, left), Frame(ty, p);
    var rest := p + Footer(Sum16(p));
    FrameParts(ty, p);
    FeedHeaderFrom(cap, s, w[..6]);
    assert w[..6][2..6] == w[2..6] && w[6..] == rest;
    FeedSplit(cap, s, w, 6);
    var d := Settle(Rx(Data, ready, |p|, ty, 0, 0, 0, left));
    assert Feed(cap, s, w) == Feed(cap, d, rest);
    if |p| > cap {
      StaysInData(cap, d, rest);
    } else if left == [] {
      AnySumIsSeen(cap, ready, ty, p);
    } else if |left| > |p| {
      StuckForever(cap, d, rest);
    } else if left <= p {
      AfterHeader(cap, ready, ty, left, p, |p| - |left|);
    } else {
      NeverAgain(cap, d, left, rest, p);
    }
  }

  /** From an empty buffer the payload, its sum and the flag are what the receiver waits for. */
  lemma AnySumIsSeen(cap: nat, ready: bool, ty: Byte, p: seq<Byte>)
    requires |p| <= cap && |p| < 0x1_0000_0000
    ensures Feed(cap, Settle(Rx(Data, ready, |p|, ty, 0, 0, 0, [])), p + Footer(Sum16(p))) == Between(true, ty, p)
  {
    hide Feed, Step, Settle, BE16, Sum16;
    var s, f, w := Settle(Rx(Data, ready, |p|, ty, 0, 0, 0, [])), Footer(Sum16(p)), p + Footer(Sum16(p));
    FeedMore(cap, ready, ty, |p|, [], p);
    assert [] + p == p;
    var c := Rx(Checksum, ready, |p|, ty, 0, Sum16(p), 0, p);
    SettleFull(Rx(Data, ready, |p|, ty, 0, Sum16(p), 0, p));
    FeedAppend(cap, s, p, f);
    FeedSumFrom(cap, c, f[..2]);
    assert f[..2] == BE16(Sum16(p)) && f[..3] == f;
    EndStep(cap, c, f);
  }

  /** Leftovers are harmless to every frame exactly if there are none. */
  lemma HarmlessIffEmpty(cap: nat, ready: bool, t: Byte, left: seq<Byte>)
    requires |left| <= cap
    ensures (forall ty, p | |p| <= cap && |p| < 0x1_0000_0000 ::
               Feed(cap, Between(ready, t, left), Frame(ty, p)) == Between(true, ty, p))
            <==> left == []
  {
    hide Feed, Frame, Echoes;
    forall ty, p | |p| <= cap && |p| < 0x1_0000_0000 && left == []
      ensures Feed(cap, Between(ready, t, left), Frame(ty, p)) == Between(true, ty, p)
    {
      FrameOnLeftoversIff(cap, ready, t, left, ty, p);
    }
    if left != [] {
      FrameOnLeftoversIff(cap, ready, t, left, 0, []);
      NothingEchoes(0, left);
    }
  }

  lemma NothingEchoes(ty: Byte, left: seq<Byte>)
    requires left != []
    ensures !Echoes(ty, left, [])
  {
  }

  lemma NoiseTrails(n: nat, ty: Byte, w: seq<Byte>)
    requires w != [] && w[0] != OPEN
    ensures Trailing(n, ty, w) == Trailing(n, ty, w[1..])
  {
  }

  lemma NothingTrails(n: nat, ty: Byte)
    ensures Trailing(n, ty, []) == Some(ty)
  {
  }

  /** The accident does happen. */
  lemma SomethingEchoes(ty: Byte)
    ensures Echoes(ty, [0, 0, CLOSE], [0, 0, CLOSE])
  {
    var p: seq<Byte> := [0, 0, CLOSE];
    assert Sum16([]) == 0;
    Sum16Snoc([], 0);
    Sum16Snoc([0], 0);
    Sum16Snoc([0, 0], CLOSE);
    assert [] + [0] == [0] && [0] + [0] == [0, 0] && [0, 0] + [CLOSE] == p;
    hide Sum16, Trailing;
    assert p[..0] == [] && p[0..] == p;
    var rest := p + Footer(Sum16(p));
    assert rest == [0, 0, CLOSE, 0, 0x5D, CLOSE];
    assert rest[..2] == BE16(0) && rest[3..] == [0, 0x5D, CLOSE];
    NoiseTrails(3, ty, [0, 0x5D, CLOSE]);
    assert [0, 0x5D, CLOSE][1..] == [0x5D, CLOSE];
    NoiseTrails(3, ty, [0x5D, CLOSE]);
    assert [0x5D, CLOSE][1..] == [CLOSE];
    NoiseTrails(3, ty, [CLOSE]);
    assert [CLOSE][1..] == [];
    NothingTrails(3, ty);
  }

  /** Two frames in one call, or in two calls with the type collected in between: when the second is understood. */
  lemma SecondFrameUnderstoodIff(cap: nat, ty1: Byte, p1: seq<Byte>, ty2: Byte, p2: seq<Byte>)
    requires |p1| <= cap && |p1| < 0x1_0000_0000 && |p2| < 0x1_0000_0000
    ensures var ok := |p2| <= cap && (p1 == [] || Echoes(ty2, p1, p2));
            && (Put(cap, FRESH, Frame(ty1, p1) + Frame(ty2, p2)) == Between(true, ty2, p2) <==> ok)
            && (Put(cap, Put(cap, FRESH, Frame(ty1, p1)).(ready := false, msgType := 0), Frame(ty2, p2))
                == Between(true, ty2, p2)
                <==> ok)
  {
    hide Feed, Frame, Echoes;
    FrameAccepted(cap, ty1, p1);
    FeedAppend(cap, FRESH, Frame(ty1, p1), Frame(ty2, p2));
    FrameOnLeftoversIff(cap, true, ty1, p1, ty2, p2);
    FrameOnLeftoversIff(cap, false, 0, p1, ty2, p2);
  }

  lemma {:induction false} NoiseKeepsFresh(cap: nat, w: seq<Byte>)
    requires OPEN !in w
    ensures Feed(cap, FRESH, w) == FRESH
    decreases |w|
  {
    if w != [] {
      SkipNoise(cap, FRESH, w);
      NoiseKeepsFresh(cap, w[1..]);
    }
  }

  /** A second frame of the same length can cost the first: the call answers true, and nothing waits. */
  lemma SecondFrameDestroysFirst(cap: nat, ty1: Byte, p1: seq<Byte>, ty2: Byte, p2: seq<Byte>)
    requires |p1| == |p2| <= cap && |p1| < 0x1_0000_0000
    requires var rest := p2 + Footer(Sum16(p2)); rest[..2] != [0, 0] && OPEN !in rest[2..]
    ensures var w := Frame(ty1, p1) + Frame(ty2, p2); PutAnswer(cap, FRESH, w) && Put(cap, FRESH, w) == FRESH
  {
    hide Feed, Step, Completes, FromBE32, Footer, Sum16;
    var f, g, rest := Frame(ty1, p1), Frame(ty2, p2), p2 + Footer(Sum16(p2));
    FrameAccepted(cap, ty1, p1);
    FeedAppend(cap, FRESH, f, g);
    var s := Between(true, ty1, p1);
    FrameParts(ty2, p2);
    FeedHeaderFrom(cap, s, g[..6]);
    assert g[..6][2..6] == g[2..6] && g[6..] == rest;
    FeedSplit(cap, s, g, 6);
    var c := Rx(Checksum, true, |p2|, ty2, 0, 0, 0, p1);
    FeedSumFrom(cap, c, rest[..2]);
    ZeroSum(rest[..2]);
    FeedSplit(cap, c, rest, 2);
    NoiseKeepsFresh(cap, rest[2..]);
  }
}
