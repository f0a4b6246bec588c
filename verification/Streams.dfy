/**
 Whole streams: a parser of any byte string on any leftovers, with all its frames, and the
 receiver's agreement with it.
 */
module Streams {
  import opened Bytes
  import opened FrameSpec
  import opened FrameProofs
  import opened Leftovers

  /**
   What a byte string comes to: whether a frame was accepted, whether one waits to be collected,
   the type and the bytes in the input buffer if the string ends between two frames.
   */
  datatype Parsed = Parsed(accepted: bool, ready: bool, ty: Byte, left: seq<Byte>, between: bool)

  /** The string ends within a frame, or in one that swallows everything. */
  function Within(ready: bool): Parsed {
    Parsed(false, ready, 0, [], false)
  }

  function WithAccepted(r: Parsed): Parsed {
    r.(accepted := true)
  }

  /**
   Frames are looked at as a whole. What is left in the buffer counts as the beginning of the next
   payload, but not in its sum; a rejected frame empties the buffer and what waits in it, and an
   accepted one leaves its payload there. A frame that declares more than fits, or less than
   is left, swallows the rest.
   */
  function Parse(cap: nat, ready: bool, ty: Byte, left: seq<Byte>, w: seq<Byte>): Parsed
    decreases |w|
  {
    if w == [] then Parsed(false, ready, ty, left, true)
    else if w[0] != OPEN then Parse(cap, ready, ty, left, w[1..])
    else if |w| < 6 then Within(ready)
    else
      var n := FromBE32(w[2..6]);
      if n > cap || n < |left| || |w| < n - |left| + 8 then Within(ready)
      else
        var m := n - |left|;
        if w[m + 6..m + 8] != BE16(Sum16(w[6..m + 6])) then Parse(cap, false, 0, [], w[m + 8..])
        else if |w| == m + 8 then Within(ready)
        else if w[m + 8] != CLOSE then Parse(cap, false, 0, [], w[m + 9..])
        else WithAccepted(Parse(cap, true, w[1], left + w[6..m + 6], w[m + 9..]))
  }

  /** What the receiver has made of `w` is what the parser says. */
  ghost predicate Matches(cap: nat, s: Rx, w: seq<Byte>, r: Parsed) {
    var s' := Feed(cap, s, w);
    && (Completes(cap, s, w) <==> r.accepted) && s'.ready == r.ready && (s'.phase == StartFlag <==> r.between)
    && (r.between ==> s' == Between(r.ready, r.ty, r.left))
  }

  lemma AfterPart(cap: nat, s: Rx, w: seq<Byte>, k: nat, s': Rx, r: Parsed)
    requires k <= |w| && Feed(cap, s, w[..k]) == s' && !Completes(cap, s, w[..k]) && Matches(cap, s', w[k..], r)
    ensures Matches(cap, s, w, r)
  {
    hide Feed, Completes;
    FeedSplit(cap, s, w, k);
  }

  lemma AfterFrame(cap: nat, s: Rx, w: seq<Byte>, k: nat, s': Rx, r: Parsed)
    requires k <= |w| && Feed(cap, s, w[..k]) == s' && Completes(cap, s, w[..k]) && Matches(cap, s', w[k..], r)
    ensures Matches(cap, s, w, WithAccepted(r))
  {
    hide Feed, Completes;
    FeedSplit(cap, s, w, k);
  }

  lemma NothingMatches(cap: nat, ready: bool, ty: Byte, left: seq<Byte>)
    ensures Matches(cap, Between(ready, ty, left), [], Parsed(false, ready, ty, left, true))
  {
  }

  lemma NoiseByte(cap: nat, s: Rx, w: seq<Byte>)
    requires w != [] && w[0] != OPEN && s.phase == StartFlag
    ensures Feed(cap, s, w[..1]) == s && !Completes(cap, s, w[..1])
  {
    FeedOne(cap, s, w[0]);
    assert w[..1] == [w[0]];
  }

  /** A header that is not complete. */
  lemma {:induction false} PartOfHeader(cap: nat, s: Rx, w: seq<Byte>)
    requires 1 <= |w| < 6 && w[0] == OPEN && s.phase == StartFlag && s.count == 0
    ensures Matches(cap, s, w, Within(s.ready))
    ensures var r := Feed(cap, s, w);
            if |w| == 1 then r.phase == Type && r.count == 0 else r.phase == Length && r.count == |w| - 2
  {
    var n := |w| - 1;
    var front := w[..n];
    FeedSnoc(cap, s, front, w[n]);
    assert front + [w[n]] == w;
    if n == 0 {
      FeedNothing(cap, s);
    } else {
      PartOfHeader(cap, s, front);
    }
  }

  lemma Header6(cap: nat, s: Rx, w: seq<Byte>)
    requires |w| >= 6 && w[0] == OPEN && s.phase == StartFlag && s.expected == s.count == 0
    ensures Feed(cap, s, w[..6]) == Settle(s.(phase := Data, msgType := w[1], expected := FromBE32(w[2..6])))
    ensures !Completes(cap, s, w[..6])
  {
    hide Feed, Completes, FromBE32;
    FeedHeaderFrom(cap, s, w[..6]);
    assert w[..6][2..6] == w[2..6] && w[..6][..6] == w[..6];
  }

  /** In DATA for ever: more declared than fits, or less than is there. */
  lemma {:induction false} Swallows(cap: nat, s: Rx, w: seq<Byte>)
    requires s.phase == Data && (|s.input| <= cap < s.expected || s.expected < |s.input|)
    ensures Matches(cap, s, w, Within(s.ready))
    ensures var r := Feed(cap, s, w);
            r.phase == Data && r.expected == s.expected
            && (if s.expected < |s.input| then r.input == s.input else |r.input| <= cap)
  {
    if w != [] {
      Swallows(cap, s, w[..|w| - 1]);
    }
  }

  /** The state once `n` bytes, left over or new, are in the buffer. */
  function InSum(ready: bool, ty: Byte, n: nat, left: seq<Byte>, got: seq<Byte>): Rx {
    Rx(Checksum, ready, n, ty, 0, Sum16(got), 0, left + got)
  }

  /** The payload, and a sum that may be cut off. */
  lemma PartOfBody(cap: nat, ready: bool, ty: Byte, n: nat, left: seq<Byte>, w: seq<Byte>)
    requires |left| <= n <= cap && |w| < n - |left| + 2
    ensures Matches(cap, Settle(Rx(Data, ready, n, ty, 0, 0, 0, left)), w, Within(ready))
  {
    hide Feed, Completes, Step, Settle, Sum16;
    var m, s := n - |left|, Settle(Rx(Data, ready, n, ty, 0, 0, 0, left));
    if |w| < m {
      FeedMore(cap, ready, ty, n, left, w);
      NotFull(Rx(Data, ready, n, ty, 0, Sum16(w), 0, left + w));
    } else {
      var got := w[..m];
      FeedMore(cap, ready, ty, n, left, got);
      SettleFull(Rx(Data, ready, n, ty, 0, Sum16(got), 0, left + got));
      PartOfSum(cap, InSum(ready, ty, n, left, got), w[m..]);
      AfterPart(cap, s, w, m, InSum(ready, ty, n, left, got), Within(ready));
    }
  }

  lemma NotFull(s: Rx)
    requires s.phase == Data && |s.input| != s.expected
    ensures Settle(s) == s
  {
  }

  lemma PartOfSum(cap: nat, s: Rx, c: seq<Byte>)
    requires |c| < 2 && s.phase == Checksum && s.count == s.compare == 0 && s.sum < 0x1_0000
    ensures Matches(cap, s, c, Within(s.ready))
  {
    if c == [] {
      FeedNothing(cap, s);
    } else {
      SumSteps(cap, s, c[0], 0);
      FeedOne(cap, s, c[0]);
      assert c == [c[0]];
    }
  }

  /** The payload and its sum. */
  lemma WholeBody(cap: nat, ready: bool, ty: Byte, n: nat, left: seq<Byte>, w: seq<Byte>)
    requires |left| <= n <= cap && |w| == n - |left| + 2
    ensures var s, m := Settle(Rx(Data, ready, n, ty, 0, 0, 0, left)), n - |left|;
            && !Completes(cap, s, w)
            && Feed(cap, s, w) ==
               if w[m..] == BE16(Sum16(w[..m])) then Rx(EndFlag, ready, n, ty, 0, 0, 0, left + w[..m]) else FRESH
  {
    hide Feed, Completes, Step, Settle, Sum16, BE16;
    var m, s := n - |left|, Settle(Rx(Data, ready, n, ty, 0, 0, 0, left));
    FeedMore(cap, ready, ty, n, left, w[..m]);
    SettleFull(Rx(Data, ready, n, ty, 0, Sum16(w[..m]), 0, left + w[..m]));
    FeedSumFrom(cap, InSum(ready, ty, n, left, w[..m]), w[m..]);
    FeedSplit(cap, s, w, m);
  }

  lemma FlagAfter(cap: nat, s: Rx, w: seq<Byte>, k: nat)
    requires k < |w| && Feed(cap, s, w[..k]).phase == EndFlag && !Completes(cap, s, w[..k])
    ensures var e := Feed(cap, s, w[..k]);
            && (Completes(cap, s, w[..k + 1]) <==> w[k] == CLOSE)
            && Feed(cap, s, w[..k + 1]) ==
               if w[k] == CLOSE then e.(phase := StartFlag, ready := true, expected := 0) else FRESH
  {
    hide Feed, Completes;
    FeedSnoc(cap, s, w[..k], w[k]);
    assert w[..k] + [w[k]] == w[..k + 1];
  }

  lemma FreshIsBetween()
    ensures FRESH == Between(false, 0, [])
  {
  }

  /** A header and a body in front of whatever follows. */
  lemma HeaderAndBody(cap: nat, ready: bool, t: Byte, left: seq<Byte>, w: seq<Byte>)
    requires |w| >= 6 && w[0] == OPEN
    requires var n := FromBE32(w[2..6]); |left| <= n <= cap && n - |left| + 8 <= |w|
    ensures var n := FromBE32(w[2..6]); var m := n - |left|; var s := Between(ready, t, left);
            && !Completes(cap, s, w[..m + 8])
            && Feed(cap, s, w[..m + 8]) == if w[m + 6..m + 8] == BE16(Sum16(w[6..m + 6]))
                                           then Rx(EndFlag, ready, n, w[1], 0, 0, 0, left + w[6..m + 6]) else FRESH
  {
    hide Feed, Completes, Step, Settle, Sum16, BE16, FromBE32;
    var n, s := FromBE32(w[2..6]), Between(ready, t, left);
    var m := n - |left|;
    Header6(cap, s, w);
    var body := w[6..m + 8];
    WholeBody(cap, ready, w[1], n, left, body);
    assert body[..m] == w[6..m + 6] && body[m..] == w[m + 6..m + 8];
    assert w[..m + 8] == w[..6] + body;
    FeedAppend(cap, s, w[..6], body);
  }

  /**
   On any leftovers, for any string, the receiver completes exactly if the parser accepts a
   frame, has one waiting exactly if the parser does, and is in the parser's state between frames.
   */
  lemma {:induction false} ReceiverRefinesStreamParser(cap: nat, ready: bool, t: Byte, left: seq<Byte>, w: seq<Byte>)
    requires |left| <= cap
    ensures Matches(cap, Between(ready, t, left), w, Parse(cap, ready, t, left, w))
    decreases |w|
  {
    hide Feed, Completes, Step, Settle, FromBE32, BE16, Sum16, Matches, WithAccepted;
    var s := Between(ready, t, left);
    if w == [] {
      NothingMatches(cap, ready, t, left);
    } else if w[0] != OPEN {
      NoiseByte(cap, s, w);
      ReceiverRefinesStreamParser(cap, ready, t, left, w[1..]);
      AfterPart(cap, s, w, 1, s, Parse(cap, ready, t, left, w[1..]));
    } else if |w| < 6 {
      PartOfHeader(cap, s, w);
    } else {
      Header6(cap, s, w);
      var n := FromBE32(w[2..6]);
      var d := Rx(Data, ready, n, w[1], 0, 0, 0, left);
      if n > cap || n < |left| {
        NotFull(d);
        Swallows(cap, d, w[6..]);
        AfterPart(cap, s, w, 6, d, Within(ready));
      } else if |w| < n - |left| + 8 {
        PartOfBody(cap, ready, w[1], n, left, w[6..]);
        AfterPart(cap, s, w, 6, Settle(d), Within(ready));
      } else {
        WholeFrame(cap, ready, t, left, w, n);
      }
    }
  }

  lemma {:induction false} WholeFrame(cap: nat, ready: bool, t: Byte, left: seq<Byte>, w: seq<Byte>, n: nat)
    requires |w| >= 6 && w[0] == OPEN && n == FromBE32(w[2..6]) && |left| <= n <= cap && n - |left| + 8 <= |w|
    ensures Matches(cap, Between(ready, t, left), w, Parse(cap, ready, t, left, w))
    decreases |w|, 0
  {
    hide Feed, Completes, Step, FromBE32, BE16, Sum16, Matches, WithAccepted;
    var s, m := Between(ready, t, left), n - |left|;
    HeaderAndBody(cap, ready, t, left, w);
    FreshIsBetween();
    if w[m + 6..m + 8] != BE16(Sum16(w[6..m + 6])) {
      ReceiverRefinesStreamParser(cap, false, 0, [], w[m + 8..]);
      AfterPart(cap, s, w, m + 8, FRESH, Parse(cap, false, 0, [], w[m + 8..]));
    } else if |w| == m + 8 {
      assert w[..m + 8] == w;
      EndOfSum(cap, s, w);
    } else {
      FlagAfter(cap, s, w, m + 8);
      if w[m + 8] != CLOSE {
        ReceiverRefinesStreamParser(cap, false, 0, [], w[m + 9..]);
        AfterPart(cap, s, w, m + 9, FRESH, Parse(cap, false, 0, [], w[m + 9..]));
      } else {
        var got := left + w[6..m + 6];
        ReceiverRefinesStreamParser(cap, true, w[1], got, w[m + 9..]);
        AfterFrame(cap, s, w, m + 9, Between(true, w[1], got), Parse(cap, true, w[1], got, w[m + 9..]));
      }
    }
  }

  lemma EndOfSum(cap: nat, s: Rx, w: seq<Byte>)
    requires !Completes(cap, s, w) && Feed(cap, s, w).phase == EndFlag && Feed(cap, s, w).ready == s.ready
    ensures Matches(cap, s, w, Within(s.ready))
  {
    hide Feed, Completes;
  }

  /**
   When a call answers true and leaves no frame to collect, read off its bytes and those of the calls
   before it since the receiver was last between two frames with none waiting: exactly if the
   parser accepts a frame in them and none waits at their end.
   */
  lemma AnswerLeavesNothingIff(cap: nat, t: Byte, left: seq<Byte>, before: seq<Byte>, call: seq<Byte>)
    requires |left| <= cap && !Parse(cap, false, t, left, before).accepted
    ensures var s, r := Feed(cap, Between(false, t, left), before), Parse(cap, false, t, left, before + call);
            PutAnswer(cap, s, call) && !Put(cap, s, call).ready <==> r.accepted && !r.ready
  {
    var b := Between(false, t, left);
    ReceiverRefinesStreamParser(cap, false, t, left, before);
    ReceiverRefinesStreamParser(cap, false, t, left, before + call);
    NotReadyYet(cap, t, left, before);
    hide Feed, Completes, Parse;
    FeedAppend(cap, b, before, call);
  }

  /** Without an accepted frame none waits. */
  lemma {:induction false} NotReadyYet(cap: nat, t: Byte, left: seq<Byte>, w: seq<Byte>)
    requires !Parse(cap, false, t, left, w).accepted
    ensures !Parse(cap, false, t, left, w).ready
    decreases |w|
  {
    if w != [] {
      if w[0] != OPEN {
        NotReadyYet(cap, t, left, w[1..]);
      } else if |w| >= 6 {
        var n := FromBE32(w[2..6]);
        if |left| <= n <= cap && n - |left| + 8 <= |w| {
          var m := n - |left|;
          if w[m + 6..m + 8] != BE16(Sum16(w[6..m + 6])) {
            NotReadyYet(cap, 0, [], w[m + 8..]);
          } else if |w| > m + 8 && w[m + 8] != CLOSE {
            NotReadyYet(cap, 0, [], w[m + 9..]);
          }
        }
      }
    }
  }
}
