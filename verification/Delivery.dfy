/** From a captured window to what a standard decoder makes of the frame that carries it. */
module Delivery {
  import opened Bytes
  import opened Wrappers
  import opened CaptureSpec
  import opened CaptureProofs
  import opened BufferSize
  import opened ControlSpec
  import FS = FrameSpec
  import FP = FrameProofs
  import T = Transmission
  import D = ScData
  import P = PackerUnit
  import TP = TriggerProofs

  /** The bits of each sample. */
  function Bits(bits: real -> Word, samples: seq<real>): (r: seq<Word>)
    ensures |r| == |samples|
  {
    seq(|samples|, k requires 0 <= k < |samples| => bits(samples[k]))
  }

  function ModeNumber(mode: Mode): Word {
    match mode case Normal => 0 case Continuous => 1 case OneShot => 2
  }

  /** The first `n` channels' full buffers, each under the channel's number. */
  function FullBuffers(c: Core, bits: real -> Word, n: nat): (r: seq<D.Channel>)
    requires n <= |c.chans| <= 0x1_0000_0000
    ensures |r| <= n
  {
    if n == 0 then []
    else
      FullBuffers(c, bits, n - 1)
      + if HasToBePacked(c.cap, c.chans[n - 1]) then [D.Channel(Bits(bits, c.chans[n - 1].swap), n - 1)] else []
  }

  /** The message the packer is given when a window is packed. */
  function MessageOf(c: Core, bits: real -> Word): D.Message
    requires WellFormed(c) && |c.chans| <= 0x1_0000_0000
  {
    D.Message(FullBuffers(c, bits, |c.chans|), Some(c.ts.swap), c.ts.increment,
              if c.tr.hitSwap then Some(D.Trigger(c.tr.active, c.tr.indexSwap, ModeNumber(c.tr.mode))) else None)
  }

  /** What can be read off the configuration: the window size and the numbers of the channels that are captured. */
  predicate WindowFits(c: Core)
    requires |c.chans| <= 0x1_0000_0000
  {
    forall i | 0 <= i < |c.chans| && HasToBePacked(c.cap, c.chans[i]) :: D.LengthComesOutRight(c.cap, i)
  }

  lemma {:induction false} FullBuffersFitIff(c: Core, bits: real -> Word, n: nat)
    requires n <= |c.chans| <= 0x1_0000_0000
    ensures var r := FullBuffers(c, bits, n);
            && (forall j | 0 <= j < |r| :: |r[j].samples| == c.cap && r[j].id < n)
            && ((forall j | 0 <= j < |r| :: D.LengthComesOutRight(|r[j].samples|, r[j].id))
                <==> forall i | 0 <= i < n && HasToBePacked(c.cap, c.chans[i]) :: D.LengthComesOutRight(c.cap, i))
  {
    hide D.LengthComesOutRight;
    if n > 0 {
      FullBuffersFitIff(c, bits, n - 1);
      var front, r := FullBuffers(c, bits, n - 1), FullBuffers(c, bits, n);
      if HasToBePacked(c.cap, c.chans[n - 1]) {
        assert r == front + [r[|front|]];
        assert forall j | 0 <= j < |front| :: r[j] == front[j];
      } else {
        assert r == front;
      }
    }
  }

  /**
   In every reachable state that has something to pack, a standard decoder gets the packed
   message back if and only if the window size and the numbers of the full channels fit.
   */
  lemma WindowDecodesIff(s: Scope, bits: real -> Word)
    requires Inv(s) && AnyToPack(s.core) && |s.core.chans| <= 0x1_0000_0000
    ensures var m := MessageOf(s.core, bits); D.DecodeMessage(D.MessageBytes(m)) == Some(m) <==> WindowFits(s.core)
    ensures var m := MessageOf(s.core, bits); var r := D.DecodeMessage(D.MessageBytes(m));
            r.Some? && r.value.channels == m.channels ==> WindowFits(s.core)
  {
    hide D.DecodeMessage, D.MessageBytes, D.LengthComesOutRight;
    FullBuffersFitIff(s.core, bits, |s.core.chans|);
    D.RoundTripIff(MessageOf(s.core, bits));
  }

  lemma WindowInRange(c: Core, bits: real -> Word)
    requires WellFormed(c) && |c.chans| <= 0x20_0000
    ensures MessageInRange(MessageOf(c, bits), |c.chans|, c.cap)
  {
    FullBuffersFitIff(c, bits, |c.chans|);
  }

  /**
   The message is packed into an output of `capacity`, framed, read in `sizes` to the end and delivered
   in `chunks`.
   */
  ghost predicate Carried(bytes: seq<Byte>, capacity: nat, output: seq<Byte>, sizes: seq<nat>, chunks: seq<seq<Byte>>) {
    && P.Wrote([], bytes, output, capacity, |bytes| <= capacity)
    && T.Total(sizes) >= |output| + 9 && Concat(chunks) == Concat(T.Reads(FS.Frame(SC_DATA, output), sizes))
  }

  // ------------------------------------------ from announcement to packing

  /**
   The window is kept between the two; the increment, and of a trigger the channel and the mode, are
   read when it is packed.
   */
  predicate StillConfigured(c: Core, c': Core) {
    c'.ts.increment == c.ts.increment && (c.tr.hitSwap ==> c'.tr.active == c.tr.active && c'.tr.mode == c.tr.mode)
  }

  lemma {:induction false} SameBuffers(c: Core, c': Core, bits: real -> Word, n: nat)
    requires n <= |c.chans| == |c'.chans| <= 0x1_0000_0000 && c.cap == c'.cap >= 1
             && WindowOf(c).samples == WindowOf(c').samples
    ensures FullBuffers(c, bits, n) == FullBuffers(c', bits, n)
  {
    if n > 0 {
      SameBuffers(c, c', bits, n - 1);
      assert WindowOf(c).samples[n - 1] == WindowOf(c').samples[n - 1];
    }
  }

  /** The message of an unchanged window is unchanged if and only if what else is put into it is. */
  lemma SameWindowSameMessageIff(c: Core, c': Core, bits: real -> Word)
    requires WellFormed(c) && WellFormed(c') && |c.chans| == |c'.chans| <= 0x1_0000_0000 && c.cap == c'.cap
    requires WindowOf(c) == WindowOf(c')
    ensures MessageOf(c', bits) == MessageOf(c, bits) <==> StillConfigured(c, c')
    ensures MessageOf(c', bits).channels == MessageOf(c, bits).channels
  {
    SameBuffers(c, c', bits, |c.chans|);
  }

  /** Events that may come between the announcement of a window and its packing. */
  ghost predicate Between(es: seq<Event>) {
    forall k | 0 <= k < |es| :: !es[k].EvClear? && !es[k].EvStart? && !es[k].EvPack?
  }

  /** An announced window is still there, and the only one, until it is packed. */
  lemma {:induction false} WindowIsKept(s: Scope, es: seq<Event>)
    requires Inv(s) && AllFit(|s.core.chans|, es) && AnyToPack(s.core) && Between(es)
    ensures AnyToPack(Final(s, es).core) && WindowOf(Final(s, es).core) == WindowOf(s.core)
  {
    hide Inv, Apply, WindowOf, AnyToPack;
    if es != [] {
      var front, e := es[..|es| - 1], es[|es| - 1];
      WindowIsKept(s, front);
      FitsAt(Final(s, front), es);
      KeptByEvent(Final(s, front), e);
    }
  }

  lemma KeptByEvent(s: Scope, e: Event)
    requires Inv(s) && Valid(s) && Fits(s, e) && AnyToPack(s.core) && !e.EvClear? && !e.EvStart? && !e.EvPack?
    ensures AnyToPack(Apply(s, e).0.core) && WindowOf(Apply(s, e).0.core) == WindowOf(s.core)
  {
    hide Inv, Valid, Fits, Apply, AnyToPack, WindowOf;
    EventHandsOver(s, e);
    OnlyPackPacks(s, e);
    var (s', o) := Apply(s, e);
    assert [] + Pending(s'.core) == Pending(s'.core);
    assert |Pending(s.core) + SentBy(o)| == |Pending(s'.core)|;
    assert Pending(s.core) + [] == Pending(s.core);
  }

  lemma OnlyPackPacks(s: Scope, e: Event)
    requires Valid(s) && Fits(s, e) && !e.EvPack?
    ensures PackedBy(Apply(s, e).1) == []
  {
  }

  /** Whatever is carried in an output it fits is what the receiver holds at the end. */
  lemma CarriedArrives(bytes: seq<Byte>, capacity: nat, output: seq<Byte>, inputCapacity: nat, sizes: seq<nat>,
                       chunks: seq<seq<Byte>>)
    requires Carried(bytes, capacity, output, sizes, chunks) && |bytes| <= capacity
    requires |output| <= inputCapacity && |output| < 0x1_0000_0000
    ensures var r := FP.PutAll(inputCapacity, FS.FRESH, chunks); r.ready && r.msgType == SC_DATA && r.input == bytes
  {
    assert output == bytes;
    T.EndToEnd(inputCapacity, SC_DATA, output, sizes, chunks);
  }

  /**
   The whole way: a window that was announced in state `s` and packed after the events `es`
   into an output of the computed size, framed, read by the driver in any sizes and delivered
   in any chunks. Its samples, numbers, stamps, increment and trigger are decoded as they
   were when it was announced if and only if the window fits and the increment and, of a
   trigger, channel and mode are still configured as then.
   */
  lemma WindowArrivesIff(s: Scope, es: seq<Event>, bits: real -> Word, addresses: nat, capacity: nat, output: seq<Byte>,
                         inputCapacity: nat, sizes: seq<nat>, chunks: seq<seq<Byte>>)
    requires Inv(s) && AllFit(|s.core.chans|, es) && AnyToPack(s.core) && Between(es)
    requires 1 <= |s.core.chans| <= 0x20_0000 && s.core.cap < MAX_SIZE
    requires CalculateBufferSize(|s.core.chans|, s.core.cap, addresses) <= capacity
    requires |output| <= inputCapacity && |output| < 0x1_0000_0000
    ensures var c := Final(s, es).core;
            Carried(D.MessageBytes(MessageOf(c, bits)), capacity, output, sizes, chunks) ==>
              var r := FP.PutAll(inputCapacity, FS.FRESH, chunks);
              && r.ready && r.msgType == SC_DATA
              && (D.DecodeMessage(r.input) == Some(MessageOf(s.core, bits))
                  <==> WindowFits(s.core) && StillConfigured(s.core, c))
  {
    assert WellFormed(s.core);
    hide Inv, AllFit, Final, Between, AnyToPack, WindowOf;
    var t := Final(s, es);
    WindowIsKept(s, es);
    InvIsWellFormed(t);
    WindowInRange(t.core, bits);
    SameWindowSameMessageIff(s.core, t.core, bits);
    SameWindowFits(s.core, t.core);
    WindowDecodesIff(t, bits);
    var m := MessageOf(t.core, bits);
    hide MessageOf, MessageInRange, D.MessageBytes, D.DecodeMessage, WindowFits, CalculateBufferSize, Carried,
         StillConfigured;
    DataFits(m, |s.core.chans|, s.core.cap, addresses);
    if Carried(D.MessageBytes(m), capacity, output, sizes, chunks) {
      CarriedArrives(D.MessageBytes(m), capacity, output, inputCapacity, sizes, chunks);
    }
  }

  lemma InvIsWellFormed(s: Scope)
    requires Inv(s)
    ensures WellFormed(s.core)
  {
  }

  lemma SameWindowFits(c: Core, c': Core)
    requires |c.chans| == |c'.chans| <= 0x1_0000_0000 && c.cap == c'.cap >= 1
             && WindowOf(c).samples == WindowOf(c').samples
    ensures WindowFits(c) == WindowFits(c')
  {
    hide D.LengthComesOutRight;
    forall i | 0 <= i < |c.chans| ensures HasToBePacked(c.cap, c.chans[i]) == HasToBePacked(c.cap, c'.chans[i]) {
      assert WindowOf(c).samples[i] == WindowOf(c').samples[i];
    }
  }

  // ------------------------------------------------ what the message says

  /**
   A message reports the window that waits in `c`: one channel for every full swap buffer, under its
   number and in ascending order, with the bits of its samples in theirs; the stamps; the increment; and,
   if the trigger was hit, its channel, its time, and 0, 1 or 2 for normal, continuous and one-shot.
   */
  ghost predicate Reports(c: Core, bits: real -> Word, m: D.Message)
    requires c.tr.active < |c.chans|
  {
    && (forall j | 0 <= j < |m.channels| ::
          && m.channels[j].id < |c.chans|
          && var ch := c.chans[m.channels[j].id];
             && |ch.swap| == c.cap == |m.channels[j].samples|
             && forall k | 0 <= k < c.cap :: m.channels[j].samples[k] == bits(ch.swap[k]))
    && (forall j, l | 0 <= j < l < |m.channels| :: m.channels[j].id < m.channels[l].id)
    && (forall i | 0 <= i < |c.chans| && |c.chans[i].swap| == c.cap ::
          exists j :: 0 <= j < |m.channels| && m.channels[j].id == i)
    && m.stamps == Some(c.ts.swap) && m.tInc == c.ts.increment
    && (m.trigger.Some? <==> c.tr.hitSwap)
    && (c.tr.hitSwap ==>
          && m.trigger.value.channelId == c.tr.active && m.trigger.value.dataIndex == c.tr.indexSwap
          && (c.tr.mode == Normal ==> m.trigger.value.mode == 0)
          && (c.tr.mode == Continuous ==> m.trigger.value.mode == 1)
          && (c.tr.mode == OneShot ==> m.trigger.value.mode == 2))
  }

  // The part of it that is about the first `n` channels.

  ghost predicate EachIsFull(c: Core, bits: real -> Word, n: nat, r: seq<D.Channel>)
    requires n <= |c.chans|
  {
    forall j | 0 <= j < |r| ::
      && r[j].id < n
      && var ch := c.chans[r[j].id];
         && |ch.swap| == c.cap == |r[j].samples| && forall k | 0 <= k < c.cap :: r[j].samples[k] == bits(ch.swap[k])
  }

  ghost predicate Ascending(r: seq<D.Channel>) {
    forall j, l | 0 <= j < l < |r| :: r[j].id < r[l].id
  }

  ghost predicate HasAllFull(c: Core, n: nat, r: seq<D.Channel>)
    requires n <= |c.chans|
  {
    forall i | 0 <= i < n && |c.chans[i].swap| == c.cap :: exists j :: 0 <= j < |r| && r[j].id == i
  }

  lemma OneMoreIsFull(c: Core, bits: real -> Word, n: nat, front: seq<D.Channel>, last: D.Channel)
    requires 0 < n <= |c.chans| && EachIsFull(c, bits, n - 1, front) && last.id == n - 1
    requires var ch := c.chans[n - 1];
             |ch.swap| == c.cap == |last.samples| && forall k | 0 <= k < c.cap :: last.samples[k] == bits(ch.swap[k])
    ensures EachIsFull(c, bits, n, front + [last])
  {
  }

  lemma OneMoreIsAscending(c: Core, bits: real -> Word, n: nat, front: seq<D.Channel>, last: D.Channel)
    requires 0 < n <= |c.chans| && EachIsFull(c, bits, n - 1, front) && Ascending(front) && last.id == n - 1
    ensures Ascending(front + [last])
  {
    assert forall j | 0 <= j < |front| :: front[j].id < n - 1;
    hide EachIsFull;
  }

  lemma OneMoreHasAll(c: Core, n: nat, front: seq<D.Channel>, last: D.Channel)
    requires 0 < n <= |c.chans| && HasAllFull(c, n - 1, front) && last.id == n - 1
    ensures HasAllFull(c, n, front + [last])
  {
    var r := front + [last];
    forall i | 0 <= i < n && |c.chans[i].swap| == c.cap ensures exists j :: 0 <= j < |r| && r[j].id == i {
      if i < n - 1 {
        var j :| 0 <= j < |front| && front[j].id == i;
        assert r[j].id == i;
      } else {
        assert r[|front|].id == i;
      }
    }
  }

  lemma NoMore(c: Core, bits: real -> Word, n: nat, r: seq<D.Channel>)
    requires 0 < n <= |c.chans| && EachIsFull(c, bits, n - 1, r) && HasAllFull(c, n - 1, r)
             && |c.chans[n - 1].swap| != c.cap
    ensures EachIsFull(c, bits, n, r) && HasAllFull(c, n, r)
  {
  }

  lemma {:induction false} FullBuffersReport(c: Core, bits: real -> Word, n: nat)
    requires n <= |c.chans| <= 0x1_0000_0000
    ensures var r := FullBuffers(c, bits, n); EachIsFull(c, bits, n, r) && Ascending(r) && HasAllFull(c, n, r)
  {
    if n > 0 {
      hide EachIsFull, Ascending, HasAllFull;
      var front := FullBuffers(c, bits, n - 1);
      FullBuffersReport(c, bits, n - 1);
      if HasToBePacked(c.cap, c.chans[n - 1]) {
        var last := D.Channel(Bits(bits, c.chans[n - 1].swap), n - 1);
        OneMoreIsFull(c, bits, n, front, last);
        OneMoreIsAscending(c, bits, n, front, last);
        OneMoreHasAll(c, n, front, last);
      } else {
        assert front + [] == front;
        NoMore(c, bits, n, front);
      }
    }
  }

  lemma MessageReports(c: Core, bits: real -> Word)
    requires WellFormed(c) && |c.chans| <= 0x1_0000_0000
    ensures Reports(c, bits, MessageOf(c, bits))
  {
    FullBuffersReport(c, bits, |c.chans|);
    hide FullBuffers;
  }

  /** So that is what is decoded at the other end, of the window as it was announced. */
  lemma DecodedWindowReports(s: Scope, es: seq<Event>, bits: real -> Word, addresses: nat, capacity: nat,
                             output: seq<Byte>, inputCapacity: nat, sizes: seq<nat>, chunks: seq<seq<Byte>>)
    requires Inv(s) && AllFit(|s.core.chans|, es) && AnyToPack(s.core) && Between(es)
    requires 1 <= |s.core.chans| <= 0x20_0000 && s.core.cap < MAX_SIZE
    requires CalculateBufferSize(|s.core.chans|, s.core.cap, addresses) <= capacity
    requires |output| <= inputCapacity && |output| < 0x1_0000_0000
    requires WindowFits(s.core) && StillConfigured(s.core, Final(s, es).core)
    requires Carried(D.MessageBytes(MessageOf(Final(s, es).core, bits)), capacity, output, sizes, chunks)
    ensures s.core.tr.active < |s.core.chans|
    ensures var r := D.DecodeMessage(FP.PutAll(inputCapacity, FS.FRESH, chunks).input);
            r.Some? && Reports(s.core, bits, r.value)
  {
    WindowArrivesIff(s, es, bits, addresses, capacity, output, inputCapacity, sizes, chunks);
    InvIsWellFormed(s);
    hide MessageOf, D.DecodeMessage, D.MessageBytes, Reports, Carried, Inv, Final, WindowFits, CalculateBufferSize;
    MessageReports(s.core, bits);
  }

  /**
   A trigger just fired in `c` at the poll `fire`, and the first window after it is announced by the
   last of `turns`.
   */
  ghost predicate Captures(c: Core, fire: TP.Due, turns: seq<TP.Turn>) {
    && TP.JustFired(c, fire) && TP.TurnsFit(c, turns) && c.cap < 0x1_0000_0000
    && turns != [] && (forall k | 0 <= k < |turns| - 1 :: !TP.Announces(c, turns, k))
    && TP.Announces(c, turns, |turns| - 1)
  }

  /** Entry `at` of the window waiting in `r` is the sample `x` of time `now`, and the trigger says so. */
  ghost predicate TriggerAt(r: Core, at: int, now: Word, x: real) {
    && r.tr.active < |r.chans| && 0 <= at < r.cap && r.tr.hitSwap && r.tr.indexSwap == now
    && |Active(r).swap| == |r.ts.swap| == r.cap && Active(r).swap[at] == x && r.ts.swap[at] == now
  }

  /** The entry cap - 2 - F, F = max(cap - u, cap / 2), for the fill level `u`. */
  function Entry(cap: nat, u: nat): int {
    cap - 2 - (if cap - u > cap / 2 then cap - u else cap / 2)
  }

  lemma PlacedAt(c: Core, fire: TP.Due, turns: seq<TP.Turn>, r: Core)
    requires c.tr.active < |c.chans| == |fire.xs| && TP.TurnsFit(c, turns) && TP.Placed(c, fire, turns, r)
    requires 4 <= c.cap == r.cap && c.full == OverwriteOldest && c.cap / 2 <= |Active(c).poll| <= c.cap
    ensures TriggerAt(r, Entry(c.cap, |Active(c).poll|), fire.now, fire.xs[c.tr.active]) && r.tr.active == c.tr.active
  {
    hide TP.Samples, TP.Times;
  }

  lemma CaptureIsPlaced(c: Core, fire: TP.Due, turns: seq<TP.Turn>)
    requires Captures(c, fire, turns)
    ensures CoreInv(c) && TP.TurnsFit(c, turns) && c.tr.active < |c.chans| == |fire.xs|
    ensures c.cap / 2 <= |Active(c).poll| <= c.cap && TP.Placed(c, fire, turns, TP.After(c, turns))
  {
    TP.TriggerPlacement(c, fire, turns);
    TP.InvIsWellFormed(c);
    hide TP.Placed, TP.After, TP.Announces, CoreInv;
  }

  /**
   The message says that channel `active` had the sample `x` at entry `at` of `cap`, and that its stamp
   is the trigger's time.
   */
  ghost predicate TellsTrigger(m: D.Message, bits: real -> Word, active: nat, cap: nat, at: int, now: Word, x: real) {
    && 0 <= at < cap
    && m.trigger.Some? && m.trigger.value.channelId == active && m.trigger.value.dataIndex == now
    && m.stamps.Some? && |m.stamps.value| == cap && m.stamps.value[at] == now
    && exists j :: && 0 <= j < |m.channels| && m.channels[j].id == active
                   && |m.channels[j].samples| == cap && m.channels[j].samples[at] == bits(x)
  }

  lemma ReportSays(r: Core, bits: real -> Word, m: D.Message, at: int, now: Word, x: real)
    requires r.tr.active < |r.chans| && Reports(r, bits, m) && TriggerAt(r, at, now, x)
    ensures TellsTrigger(m, bits, r.tr.active, r.cap, at, now, x)
  {
    var j :| 0 <= j < |m.channels| && m.channels[j].id == r.tr.active;
  }

  lemma CaptureIsAt(c: Core, fire: TP.Due, turns: seq<TP.Turn>, r: Core)
    requires Captures(c, fire, turns) && c.cap >= 4 && c.full == OverwriteOldest
    requires CoreInv(c) && TP.TurnsFit(c, turns) && r == TP.After(c, turns) && r.cap == c.cap
    ensures c.tr.active < |c.chans| == |fire.xs| && r.tr.active == c.tr.active
    ensures TriggerAt(r, Entry(c.cap, |Active(c).poll|), fire.now, fire.xs[c.tr.active])
  {
    CaptureIsPlaced(c, fire, turns);
    hide Captures, CoreInv, TP.After, TP.Placed, TriggerAt, Entry;
    PlacedAt(c, fire, turns, r);
  }

  /**
   What a report of a triggered window says about the trigger: with a stream of stamps that overwrites its
   oldest and room for it, the time is the stamp at entry cap - 2 - F, F = max(cap - u, cap / 2), where u was
   the fill level when it fired, and that entry of the trigger's channel is the sample that fired.
   */
  lemma ReportedTriggerIsInPlace(c: Core, fire: TP.Due, turns: seq<TP.Turn>, r: Core, bits: real -> Word, m: D.Message)
    requires Captures(c, fire, turns) && c.cap >= 4 && c.full == OverwriteOldest
    requires CoreInv(c) && TP.TurnsFit(c, turns) && r == TP.After(c, turns) && r.cap == c.cap
    requires r.tr.active < |r.chans| && Reports(r, bits, m)
    ensures c.tr.active < |c.chans| == |fire.xs|
    ensures TellsTrigger(m, bits, c.tr.active, c.cap, Entry(c.cap, |Active(c).poll|), fire.now, fire.xs[c.tr.active])
  {
    CaptureIsAt(c, fire, turns, r);
    hide Captures, TP.TurnsFit, TP.After, Reports, CoreInv, TriggerAt, TellsTrigger, Entry;
    ReportSays(r, bits, m, Entry(c.cap, |Active(c).poll|), fire.now, fire.xs[c.tr.active]);
  }
}
