/** Invariants of every run of the capture cycle, whatever commands, polls and packs it is made of. */
module CaptureProofs {
  import opened Bytes
  import opened CaptureSpec

  // ------------------------------------------------------------- invariant

  ghost predicate Lockstep(c: Core) {
    forall i | 0 <= i < |c.chans| && c.chans[i].state == Running :: |c.chans[i].poll| == |c.ts.poll| && c.ts.running
  }

  /** What is always true: a running channel has at least as many samples as there are stamps. */
  ghost predicate Lagging(c: Core) {
    forall i | 0 <= i < |c.chans| && c.chans[i].state == Running :: c.ts.running && |c.ts.poll| <= |c.chans[i].poll|
  }

  ghost predicate WindowsEmpty(c: Core) {
    c.ts.poll == [] && forall i | 0 <= i < |c.chans| :: c.chans[i].poll == []
  }

  /** The last sample is the newest entry of the window, and the trigger stream pairs it with the one before. */
  ghost predicate ChanHistory(ch: Chan) {
    && (ch.poll != [] ==> ch.last == ch.poll[|ch.poll| - 1])
    && (ch.stream != [] && ch.poll != [] ==>
          |ch.stream| == 2 && ch.stream[1] == ch.last
          && (|ch.poll| >= 2 ==> ch.stream[0] == ch.poll[|ch.poll| - 2]))
  }

  ghost predicate CoreInv(c: Core) {
    && WellFormed(c) && Lagging(c)
    && (forall i | 0 <= i < |c.chans| :: ChanHistory(c.chans[i]))
    && (c.tr.phase == Idle || c.tr.phase == Paused ==> AllStopped(c.chans) && !c.ts.running)
    && (c.tr.phase == Paused ==> WindowsEmpty(c))
    && (c.tr.phase != FillUp && c.tr.phase != CleanUp ==> c.tr.fillUpCount == 0)
    && (AnyToPack(c) <==> c.ts.swap != [])
  }

  ghost predicate Inv(s: Scope) {
    CoreInv(s.core) && (!s.ready ==> s.core.tr.phase == Idle)
  }

  predicate SameSwaps(cs: seq<Chan>, cs': seq<Chan>) {
    |cs'| == |cs| && forall i | 0 <= i < |cs| :: cs'[i].swap == cs[i].swap
  }

  lemma SameAny(c: Core, c': Core)
    requires c'.cap == c.cap && SameSwaps(c.chans, c'.chans)
    ensures AnyToPack(c') == AnyToPack(c)
  {
    forall i | 0 <= i < |c.chans| ensures HasToBePacked(c.cap, c'.chans[i]) == HasToBePacked(c.cap, c.chans[i]) {
    }
  }

  lemma FreshInv(cap: nat, full: FullPolicy, n: nat)
    requires cap >= 1 && n >= 1
    ensures Inv(Fresh(cap, full, n))
  {
  }

  lemma PolledChannel(cap: nat, ch: Chan, x: real)
    requires cap >= 1 && |ch.poll| <= cap && ChanHistory(ch)
    ensures var ch' := ChanPoll(cap, ch, x);
            && ChanHistory(ch') && ch'.swap == ch.swap && ch'.state == ch.state
            && |ch'.poll| == if ch.state == Running && |ch.poll| < cap then |ch.poll| + 1 else |ch.poll|
  {
    if ch.state == Running {
      assert ChanPoll(cap, ch, x).poll == Newest(cap, ch.poll + [x]);
    }
  }

  lemma StampedLength(cap: nat, full: FullPolicy, t: Stamper, now: Word)
    requires cap >= 1 && |t.poll| <= cap
    ensures |Stamp(cap, full, t, now).poll| == if t.running && |t.poll| < cap then |t.poll| + 1 else |t.poll|
  {
  }

  lemma StampAndPollKeepInv(c: Core, now: Word, xs: seq<real>)
    requires CoreInv(c) && |xs| == |c.chans|
    ensures CoreInv(c.(ts := Stamp(c.cap, c.full, c.ts, now), chans := PollAll(c.cap, c.chans, xs)))
  {
    var c' := c.(ts := Stamp(c.cap, c.full, c.ts, now), chans := PollAll(c.cap, c.chans, xs));
    StampedLength(c.cap, c.full, c.ts, now);
    forall i | 0 <= i < |c.chans|
      ensures ChanHistory(c'.chans[i]) && c'.chans[i].swap == c.chans[i].swap && c'.chans[i].state == c.chans[i].state
      ensures |c'.chans[i].poll| == var ch := c.chans[i];
                                    if ch.state == Running && |ch.poll| < c.cap then |ch.poll| + 1 else |ch.poll|
    {
      PolledChannel(c.cap, c.chans[i], xs[i]);
    }
    hide ChanHistory, ChanPoll, StreamWrite;
    SameAny(c, c');
  }

  lemma TriggerChangeKeepsInv(c: Core, tr: Trig)
    requires CoreInv(c) && tr.active == c.tr.active && tr.saved == c.tr.saved
    requires tr.phase == Idle || tr.phase == Paused ==> tr.phase == c.tr.phase
    requires tr.phase != FillUp && tr.phase != CleanUp ==> tr.fillUpCount == 0
    ensures CoreInv(c.(tr := tr))
  {
    var c' := c.(tr := tr);
    SameAny(c, c');
  }

  lemma StreamTakenKeepsInv(c: Core)
    requires CoreInv(c)
    ensures CoreInv(c.(chans := c.chans[c.tr.active := Active(c).(stream := [])]))
  {
    var c' := c.(chans := c.chans[c.tr.active := Active(c).(stream := [])]);
    SameAny(c, c');
  }

  lemma DetectKeepsInv(c: Core)
    requires CoreInv(c) && c.tr.phase == Detecting
    ensures WellFormed(c) && CoreInv(Detect(c))
  {
    assert WellFormed(c) && c.tr.fillUpCount == 0;
    StreamTakenKeepsInv(c);
    hide CoreInv, WellFormed;
    var taken := c.(chans := c.chans[c.tr.active := Active(c).(stream := [])]);
    TriggerChangeKeepsInv(c, c.tr.(hit := false, phase := FillUp));
    TriggerChangeKeepsInv(taken, c.tr.(hit := true, index := c.ts.last, phase := FillUp));
    TriggerChangeKeepsInv(taken, c.tr.(hit := false));
  }

  lemma FillUpKeepsInv(c: Core)
    requires CoreInv(c) && c.tr.phase == FillUp
    ensures CoreInv(FillUpStep(c))
  {
    SameAny(c, FillUpStep(c));
  }

  lemma CleanUpKeepsInv(c: Core)
    requires CoreInv(c) && c.tr.phase == CleanUp
    ensures CoreInv(CleanUpStep(c).0)
  {
    var (c', sent) := CleanUpStep(c);
    if sent {
      assert HasToBePacked(c'.cap, c'.chans[c.tr.active]);
    } else {
      SameAny(c, c');
    }
  }

  lemma PausedKeepsInv(c: Core)
    requires CoreInv(c) && c.tr.phase == Paused
    ensures CoreInv(TriggerRun(c).0)
  {
    SameAny(c, TriggerRun(c).0);
  }

  lemma TickKeepsInv(c: Core, now: Word, xs: seq<real>)
    requires CoreInv(c) && |xs| == |c.chans|
    ensures CoreInv(Tick(c, now, xs).0)
  {
    hide CoreInv, Detect, FillUpStep, CleanUpStep;
    var p := c.(ts := Stamp(c.cap, c.full, c.ts, now), chans := PollAll(c.cap, c.chans, xs));
    StampAndPollKeepInv(c, now, xs);
    match p.tr.phase
    case Idle =>
    case Paused => PausedKeepsInv(p);
    case Detecting => DetectKeepsInv(p);
    case FillUp => FillUpKeepsInv(p);
    case CleanUp => CleanUpKeepsInv(p);
  }

  predicate SameChannels(s: Scope, s': Scope) {
    |s'.core.chans| == |s.core.chans| && s'.core.cap == s.core.cap
  }

  lemma StartKeepsInv(s: Scope, i: nat)
    requires Inv(s)
    ensures Inv(SetChannelRunning(s, i)) && SameChannels(s, SetChannelRunning(s, i))
  {
    if i < |s.core.chans| {
      var c := SetChan(s.core, i, ChanRun(s.core.chans[i]));
      if AllStopped(c.chans) {
        assert c.chans[i].state != Running;
        assert c.chans == s.core.chans;
      } else {
        assert !AnyToPack(Activate(c));
      }
    }
  }

  lemma StoppedChannelKeepsInv(c: Core, i: nat)
    requires CoreInv(c) && i < |c.chans|
    ensures CoreInv(SetChan(c, i, ChanStop(c.chans[i])))
  {
    SameAny(c, SetChan(c, i, ChanStop(c.chans[i])));
  }

  lemma DeactivateKeepsInv(c: Core)
    requires CoreInv(c)
    ensures CoreInv(Deactivate(c)) && Deactivate(c).tr.phase == Idle
  {
    SameAny(c, Deactivate(c));
  }

  lemma StopKeepsInv(s: Scope, i: nat)
    requires Inv(s)
    ensures Inv(SetChannelStopped(s, i)) && SameChannels(s, SetChannelStopped(s, i))
  {
    if i < |s.core.chans| {
      StoppedChannelKeepsInv(s.core, i);
      hide CoreInv, AllStopped;
      DeactivateKeepsInv(SetChan(s.core, i, ChanStop(s.core.chans[i])));
    }
  }

  lemma ClearKeepsInv(s: Scope)
    requires Inv(s)
    ensures Inv(ClearScope(s))
  {
    assert !AnyToPack(ClearScope(s).core);
  }

  lemma PackKeepsInv(s: Scope)
    requires Inv(s)
    ensures Inv(s.(core := Packed(s.core))) && SameChannels(s, s.(core := Packed(s.core)))
  {
    if AnyToPack(s.core) {
      assert !AnyToPack(Drain(s.core));
    } else {
      SameAny(s.core, ReadHeld(s.core));
    }
  }

  lemma SetAddressKeepsInv(s: Scope, i: nat)
    requires Inv(s)
    ensures Inv(SetAddress(s, i))
  {
    SameAny(s.core, SetAddress(s, i).core);
  }

  lemma ConfigureKeepsInv(s: Scope, tr: Trig, increment: Word)
    requires Inv(s) && tr.active < |s.core.chans| && tr.phase == s.core.tr.phase && tr.saved == s.core.tr.saved
    requires tr.fillUpCount == s.core.tr.fillUpCount
    ensures Inv(s.(core := s.core.(tr := tr))) && Inv(s.(core := s.core.(ts := s.core.ts.(increment := increment))))
  {
    SameAny(s.core, s.core.(tr := tr));
    SameAny(s.core, s.core.(ts := s.core.ts.(increment := increment)));
  }

  /** No more stamps than samples of a running channel, stopped when idle or paused, empty when paused: always. */
  lemma EveryEventKeepsInv(s: Scope, e: Event)
    requires Inv(s) && Fits(s, e)
    ensures Inv(Apply(s, e).0) && |Apply(s, e).0.core.chans| == |s.core.chans| && Apply(s, e).0.core.cap == s.core.cap
  {
    assert WellFormed(s.core);
    hide WellFormed, CoreInv, Tick, CaptureSpec.Packed, Activate, Deactivate;
    match e
    case EvPoll(now, xs) => TickKeepsInv(s.core, now, xs); PollKeepsShape(s, now, xs);
    case EvStart(i) => StartKeepsInv(s, i);
    case EvStop(i) => StopKeepsInv(s, i);
    case EvClear => ClearKeepsInv(s);
    case EvPack => PackKeepsInv(s);
    case EvSetAddress(i) => SetAddressKeepsInv(s, i);
    case EvConfigure(level, rising, mode, i) =>
      if i < |s.core.chans| {
        ConfigureKeepsInv(s, s.core.tr.(level := level, rising := rising, mode := mode, active := i), 0);
      }
    case EvIncrement(increment) => ConfigureKeepsInv(s, s.core.tr, increment);
  }

  lemma PollKeepsShape(s: Scope, now: Word, xs: seq<real>)
    requires Valid(s) && |xs| == |s.core.chans|
    ensures |ScopePoll(s, now, xs).0.core.chans| == |s.core.chans| && ScopePoll(s, now, xs).0.core.cap == s.core.cap
  {
    hide Tick, WellFormed;
  }

  // -------------------------------------------------- stamps that get lost

  /**
   Packing now would empty the stamps that are being collected: nothing is full, and the packer holds
   their stream.
   */
  predicate StaleRead(c: Core) {
    !AnyToPack(c) && c.ts.held == Collecting && c.ts.poll != []
  }

  /** If the packer holds the stream that is being collected, a window is ready for which it is given the other. */
  predicate Safe(c: Core) {
    c.ts.held == Collecting ==> AnyToPack(c)
  }

  /** The event empties the swap buffers. */
  predicate Discards(s: Scope, e: Event) {
    e.EvClear? || (e.EvStart? && e.i < |s.core.chans| && !AllStopped(s.core.chans[e.i := ChanRun(s.core.chans[e.i])]))
  }

  lemma PackKeepsLockstepIff(c: Core)
    requires CoreInv(c) && Lockstep(c)
    ensures Lockstep(Packed(c)) <==> !StaleRead(c) || AllStopped(c.chans)
  {
  }

  lemma PollKeepsLockstep(c: Core, now: Word, xs: seq<real>)
    requires WellFormed(c) && Lockstep(c) && |xs| == |c.chans|
    ensures Lockstep(c.(ts := Stamp(c.cap, c.full, c.ts, now), chans := PollAll(c.cap, c.chans, xs)))
  {
  }

  lemma DetectKeepsLockstep(c: Core)
    requires WellFormed(c) && Lockstep(c)
    ensures Lockstep(Detect(c))
  {
  }

  lemma FillUpKeepsLockstep(c: Core)
    requires WellFormed(c) && Lockstep(c)
    ensures Lockstep(FillUpStep(c))
  {
  }

  lemma CleanUpStopsAll(c: Core)
    requires WellFormed(c)
    ensures AllStopped(CleanUpStep(c).0.chans)
  {
  }

  lemma PausedKeepsLockstep(c: Core)
    requires CoreInv(c) && c.tr.phase == Paused
    ensures Lockstep(TriggerRun(c).0)
  {
  }

  lemma TickKeepsLockstep(c: Core, now: Word, xs: seq<real>)
    requires CoreInv(c) && Lockstep(c) && |xs| == |c.chans|
    ensures Lockstep(Tick(c, now, xs).0)
  {
    var p := c.(ts := Stamp(c.cap, c.full, c.ts, now), chans := PollAll(c.cap, c.chans, xs));
    assert WellFormed(c);
    PollKeepsLockstep(c, now, xs);
    StampAndPollKeepInv(c, now, xs);
    assert WellFormed(p);
    hide CoreInv, WellFormed, Lockstep, Detect, FillUpStep, CleanUpStep;
    match p.tr.phase
    case Idle =>
    case Paused => PausedKeepsLockstep(p);
    case Detecting => DetectKeepsLockstep(p);
    case FillUp => FillUpKeepsLockstep(p);
    case CleanUp =>
      CleanUpStopsAll(p);
      StoppedIsLockstep(CleanUpStep(p).0);
  }

  lemma StoppedIsLockstep(c: Core)
    requires AllStopped(c.chans)
    ensures Lockstep(c)
  {
  }

  /**
   Every running channel has as many samples as there are stamps after every event, but for a stale
   read while one runs.
   */
  lemma EventKeepsLockstepIff(s: Scope, e: Event)
    requires Inv(s) && Fits(s, e) && Lockstep(s.core)
    ensures Lockstep(Apply(s, e).0.core) <==> !(e.EvPack? && StaleRead(s.core) && !AllStopped(s.core.chans))
  {
    if e.EvPack? {
      PackKeepsLockstepIff(s.core);
    } else if e.EvPoll? {
      hide Tick;
      TickKeepsLockstep(s.core, e.now, e.xs);
    } else {
      CommandKeepsLockstep(s, e);
    }
  }

  lemma CommandKeepsLockstep(s: Scope, e: Event)
    requires Inv(s) && Lockstep(s.core) && !e.EvPack? && !e.EvPoll?
    ensures Lockstep(Apply(s, e).0.core)
  {
  }

  lemma TickKeepsHold(c: Core, now: Word, xs: seq<real>)
    requires CoreInv(c) && |xs| == |c.chans|
    ensures var (c', sent) := Tick(c, now, xs);
            c'.ts.held == (if sent then Exchanged(c.ts.held) else c.ts.held) && AnyToPack(c') == (sent || AnyToPack(c))
  {
    StampAndPollKeepInv(c, now, xs);
    TickHandsOver(c, now, xs);
    var p := c.(ts := Stamp(c.cap, c.full, c.ts, now), chans := PollAll(c.cap, c.chans, xs));
    assert WellFormed(p);
    hide CoreInv, WellFormed, AnyToPack, CleanUpStep, Detect, FillUpStep;
    if p.tr.phase == CleanUp {
      CleanUpHandsOver(p);
    } else {
      RunKeepsSwaps(p);
    }
  }

  lemma PackKeepsSafe(c: Core)
    requires Safe(c)
    ensures Safe(Packed(c))
  {
  }

  lemma DiscardKeepsHold(s: Scope, e: Event)
    requires Inv(s) && Discards(s, e)
    ensures var c := Apply(s, e).0.core; c.ts.held == s.core.ts.held && !AnyToPack(c)
  {
  }

  lemma PollKeepsSafe(s: Scope, now: Word, xs: seq<real>)
    requires Inv(s) && |xs| == |s.core.chans| && Safe(s.core)
    ensures Safe(ScopePoll(s, now, xs).0.core)
  {
    assert Valid(s);
    TickKeepsHold(s.core, now, xs);
    hide Tick, CoreInv, WellFormed, AnyToPack;
  }

  /** Safety is lost exactly by discarding a window that waits while the packer holds the other stream. */
  lemma EventKeepsSafeIff(s: Scope, e: Event)
    requires Inv(s) && Fits(s, e) && Safe(s.core)
    ensures Safe(Apply(s, e).0.core) <==> !(Discards(s, e) && s.core.ts.held == Collecting)
  {
    assert Valid(s);
    hide CoreInv, WellFormed, AnyToPack, ScopePoll, CaptureSpec.Packed, SetChannelRunning, SetChannelStopped,
         AllStopped;
    if e.EvPoll? {
      PollKeepsSafe(s, e.now, e.xs);
    } else if e.EvPack? {
      PackKeepsSafe(s.core);
    } else if Discards(s, e) {
      DiscardKeepsHold(s, e);
    } else {
      CommandKeepsSwaps(s, e);
    }
  }

  lemma CommandKeepsSwaps(s: Scope, e: Event)
    requires Inv(s) && !e.EvPoll? && !e.EvPack? && !Discards(s, e)
    ensures var c := Apply(s, e).0.core; c.ts.held == s.core.ts.held && AnyToPack(c) == AnyToPack(s.core)
  {
    SameAny(s.core, Apply(s, e).0.core);
  }

  // ------------------------------------------------------------------ runs

  ghost predicate AllFit(n: nat, es: seq<Event>) {
    forall k | 0 <= k < |es| && es[k].EvPoll? :: |es[k].xs| == n
  }

  /** The state after a run of events. */
  ghost function Final(s: Scope, es: seq<Event>): (r: Scope)
    requires Inv(s) && AllFit(|s.core.chans|, es)
    ensures Inv(r) && |r.core.chans| == |s.core.chans| && r.core.cap == s.core.cap
  {
    if es == [] then s
    else
      var r := Final(s, es[..|es| - 1]);
      EveryEventKeepsInv(r, es[|es| - 1]);
      Apply(r, es[|es| - 1]).0
  }

  ghost function SentBy(o: Output): seq<Window> {
    if o.Sent? then [o.window] else []
  }

  ghost function PackedBy(o: Output): seq<Window> {
    if o.PackedWindow? then [o.window] else []
  }

  /** The windows Trigger_run announced, in order. */
  ghost function AllSent(s: Scope, es: seq<Event>): seq<Window>
    requires Inv(s) && AllFit(|s.core.chans|, es)
  {
    if es == [] then []
    else AllSent(s, es[..|es| - 1]) + SentBy(Apply(Final(s, es[..|es| - 1]), es[|es| - 1]).1)
  }

  /** The windows the packer took away, in order. */
  ghost function AllPacked(s: Scope, es: seq<Event>): seq<Window>
    requires Inv(s) && AllFit(|s.core.chans|, es)
  {
    if es == [] then []
    else AllPacked(s, es[..|es| - 1]) + PackedBy(Apply(Final(s, es[..|es| - 1]), es[|es| - 1]).1)
  }

  /** The k-th event discards a waiting window while the packer holds the other stream of stamps. */
  ghost predicate DiscardsAt(s: Scope, es: seq<Event>, k: nat)
    requires Inv(s) && AllFit(|s.core.chans|, es) && k < |es|
  {
    Discards(Final(s, es[..k]), es[k]) && Final(s, es[..k]).core.ts.held == Collecting
  }

  lemma SameBeginning(s: Scope, es: seq<Event>, k: nat)
    requires Inv(s) && AllFit(|s.core.chans|, es) && k + 1 < |es|
    ensures DiscardsAt(s, es[..|es| - 1], k) == DiscardsAt(s, es, k)
  {
    assert es[..|es| - 1][..k] == es[..k];
  }

  lemma FinalSnoc(s: Scope, es: seq<Event>)
    requires Inv(s) && AllFit(|s.core.chans|, es) && es != []
    ensures var front, e := es[..|es| - 1], es[|es| - 1];
            && AllFit(|s.core.chans|, front) && Inv(Final(s, front))
            && Valid(Final(s, front)) && Fits(Final(s, front), e) && Final(s, es) == Apply(Final(s, front), e).0
  {
    hide Inv, Apply;
    FitsAt(Final(s, es[..|es| - 1]), es);
  }

  /**
   Runs without such an event keep every running channel in lockstep with the stamps, however often the
   packer runs.
   */
  lemma {:induction false} LockstepOverRuns(s: Scope, es: seq<Event>)
    requires Inv(s) && AllFit(|s.core.chans|, es) && Lockstep(s.core) && Safe(s.core)
    requires forall k | 0 <= k < |es| :: !DiscardsAt(s, es, k)
    ensures Lockstep(Final(s, es).core) && Safe(Final(s, es).core)
  {
    if es != [] {
      var n := |es| - 1;
      var front := es[..n];
      assert !DiscardsAt(s, es, n);
      FinalSnoc(s, es);
      hide Inv, Apply, Lockstep, Discards, Safe, Final, AllFit, Valid, Fits;
      forall k | 0 <= k < n ensures !DiscardsAt(s, front, k) {
        SameBeginning(s, es, k);
      }
      LockstepOverRuns(s, front);
      KeepsBoth(Final(s, front), es[n]);
    }
  }

  lemma KeepsBoth(s: Scope, e: Event)
    requires Inv(s) && Fits(s, e) && Lockstep(s.core) && Safe(s.core)
             && !(Discards(s, e) && s.core.ts.held == Collecting)
    ensures Lockstep(Apply(s, e).0.core) && Safe(Apply(s, e).0.core)
  {
    hide Inv, Apply, Lockstep, Discards;
    SafeIsNotStale(s.core);
    EventKeepsLockstepIff(s, e);
    EventKeepsSafeIff(s, e);
  }

  lemma SafeIsNotStale(c: Core)
    requires Safe(c)
    ensures !StaleRead(c)
  {
  }

  lemma FreshIsInLockstep(cap: nat, full: FullPolicy, n: nat)
    requires cap >= 1 && n >= 1
    ensures Inv(Fresh(cap, full, n)) && Lockstep(Fresh(cap, full, n).core) && Safe(Fresh(cap, full, n).core)
  {
    FreshInv(cap, full, n);
  }

  // --------------------------------------------------------- exactly once

  ghost function Pending(c: Core): seq<Window> {
    if AnyToPack(c) then [WindowOf(c)] else []
  }

  lemma SameSwapsSamePending(c: Core, c': Core)
    requires c'.cap == c.cap && |c'.chans| == |c.chans| && c'.ts.swap == c.ts.swap
    requires c'.tr.hitSwap == c.tr.hitSwap && c'.tr.indexSwap == c.tr.indexSwap
    requires forall i | 0 <= i < |c.chans| :: c'.chans[i].swap == c.chans[i].swap
    ensures Pending(c') == Pending(c)
  {
    forall i | 0 <= i < |c.chans| ensures HasToBePacked(c.cap, c.chans[i]) == HasToBePacked(c.cap, c'.chans[i]) {
    }
    assert WindowOf(c') == WindowOf(c);
  }

  /** In every other phase nothing is handed over. */
  lemma RunKeepsSwaps(c: Core)
    requires WellFormed(c) && c.tr.phase != CleanUp
    ensures var (c', sent) := TriggerRun(c);
            && !sent && c'.ts.swap == c.ts.swap && c'.ts.held == c.ts.held && c'.tr.hitSwap == c.tr.hitSwap
            && c'.tr.indexSwap == c.tr.indexSwap
            && forall i | 0 <= i < |c.chans| :: c'.chans[i].swap == c.chans[i].swap
  {
  }

  lemma CleanUpHandsOver(c: Core)
    requires WellFormed(c)
    ensures var (c', sent) := CleanUpStep(c);
            if sent
            then && Active(c).swap == [] && c.ts.swap == [] && |Active(c').swap| == c.cap && c'.ts.swap == c.ts.poll
                 && c'.ts.held == Exchanged(c.ts.held)
            else && c'.ts.swap == c.ts.swap && c'.ts.held == c.ts.held
                 && c'.tr.hitSwap == c.tr.hitSwap && c'.tr.indexSwap == c.tr.indexSwap
                 && forall i | 0 <= i < |c.chans| :: c'.chans[i].swap == c.chans[i].swap
  {
  }

  lemma TickHandsOver(c: Core, now: Word, xs: seq<real>)
    requires CoreInv(c) && |xs| == |c.chans|
    ensures var (c', sent) := Tick(c, now, xs);
            if sent then Pending(c) == [] && Pending(c') == [WindowOf(c')] else Pending(c') == Pending(c)
  {
    var p := c.(ts := Stamp(c.cap, c.full, c.ts, now), chans := PollAll(c.cap, c.chans, xs));
    StampAndPollKeepInv(c, now, xs);
    var (c', sent) := Tick(c, now, xs);
    assert forall i | 0 <= i < |c.chans| :: p.chans[i].swap == c.chans[i].swap;
    assert WellFormed(p) && (AnyToPack(c) ==> c.ts.swap != []);
    hide CoreInv, WellFormed, CleanUpStep, Detect, FillUpStep;
    if p.tr.phase == CleanUp {
      CleanUpHandsOver(p);
    } else {
      RunKeepsSwaps(p);
    }
    if sent {
      assert HasToBePacked(c'.cap, c'.chans[c'.tr.active]);
    } else {
      SameSwapsSamePending(c, c');
    }
  }

  lemma StopKeepsSwaps(s: Scope, i: nat)
    requires Valid(s)
    ensures var s' := SetChannelStopped(s, i);
            && s'.core.ts.swap == s.core.ts.swap && s'.core.tr.hitSwap == s.core.tr.hitSwap
            && s'.core.tr.indexSwap == s.core.tr.indexSwap && |s'.core.chans| == |s.core.chans|
            && s'.core.cap == s.core.cap
            && forall j | 0 <= j < |s.core.chans| :: s'.core.chans[j].swap == s.core.chans[j].swap
  {
    hide WellFormed;
  }

  lemma DrainEmpties(c: Core)
    requires c.cap >= 1
    ensures !AnyToPack(Drain(c))
  {
  }

  /** Commands other than a clear or a start leave what waits for the packer alone. */
  lemma CommandKeepsPending(s: Scope, e: Event)
    requires Valid(s) && (e.EvStop? || e.EvSetAddress? || e.EvConfigure? || e.EvIncrement?)
    ensures var (s', o) := Apply(s, e); o == Nothing && Pending(s'.core) == Pending(s.core)
  {
    hide SetChannelStopped, WellFormed;
    var s' := Apply(s, e).0;
    if e.EvStop? {
      StopKeepsSwaps(s, e.i);
    }
    SameSwapsSamePending(s.core, s'.core);
  }

  lemma EventHandsOver(s: Scope, e: Event)
    requires Inv(s) && Fits(s, e) && !e.EvClear? && !e.EvStart?
    ensures var (s', o) := Apply(s, e); Pending(s.core) + SentBy(o) == PackedBy(o) + Pending(s'.core)
  {
    assert Valid(s) && s.core.cap >= 1;
    hide Tick, WellFormed, CoreInv, WindowOf, Drain, AnyToPack;
    if e.EvPoll? {
      TickHandsOver(s.core, e.now, e.xs);
    } else if e.EvPack? {
      DrainEmpties(s.core);
    } else {
      hide Apply, Pending;
      CommandKeepsPending(s, e);
      assert Pending(s.core) + [] == [] + Pending(s.core);
    }
  }

  /**
   Exactly once: without a clear or a start, the windows announced are the windows the
   packer took, in order and unchanged, followed by the one that still waits.
   */
  lemma {:induction false} ExactlyOnceDelivery(s: Scope, es: seq<Event>)
    requires Inv(s) && AllFit(|s.core.chans|, es)
    requires forall k | 0 <= k < |es| :: !es[k].EvClear? && !es[k].EvStart?
    ensures Pending(s.core) + AllSent(s, es) == AllPacked(s, es) + Pending(Final(s, es).core)
  {
    hide Apply, Inv, Valid, Pending, SentBy, PackedBy, Fits;
    if es != [] {
      var front, e := es[..|es| - 1], es[|es| - 1];
      ExactlyOnceDelivery(s, front);
      var r := Final(s, front);
      FitsAt(r, es);
      EventHandsOver(r, e);
      Regroup(Pending(s.core), AllSent(s, front), SentBy(Apply(r, e).1), AllPacked(s, front), Pending(r.core),
              PackedBy(Apply(r, e).1), Pending(Apply(r, e).0.core));
    }
  }

  lemma FitsAt(r: Scope, es: seq<Event>)
    requires es != [] && Inv(r) && AllFit(|r.core.chans|, es)
    ensures Valid(r) && Fits(r, es[|es| - 1])
  {
  }

  lemma Regroup<T>(p: seq<T>, sent: seq<T>, o: seq<T>, packed: seq<T>, q: seq<T>, t: seq<T>, q': seq<T>)
    requires p + sent == packed + q && q + o == t + q'
    ensures p + (sent + o) == (packed + t) + q'
  {
    assert p + (sent + o) == (p + sent) + o;
    assert packed + (q + o) == (packed + q) + o;
    assert packed + (t + q') == (packed + t) + q';
  }

  // ------------------------------------------------------- one-shot, idle

  /** IDLE is left only by starting a channel that has an address. */
  lemma IdleIsLeftOnlyByAStart(s: Scope, e: Event)
    requires Inv(s) && Fits(s, e) && s.core.tr.phase == Idle
    ensures Apply(s, e).0.core.tr.phase != Idle
            <==> e.EvStart? && e.i < |s.core.chans| && s.core.chans[e.i].state == Stopped
  {
    if e.EvStart? && e.i < |s.core.chans| {
      var c := SetChan(s.core, e.i, ChanRun(s.core.chans[e.i]));
      if s.core.chans[e.i].state == Stopped {
        assert c.chans[e.i].state == Running;
      } else {
        assert c.chans == s.core.chans;
      }
    }
  }

  /** In one-shot mode at most one window is announced until a channel is started again. */
  lemma {:induction false} OneShotSendsAtMostOnce(s: Scope, es: seq<Event>)
    requires Inv(s) && AllFit(|s.core.chans|, es) && s.core.tr.mode == OneShot
    requires forall k | 0 <= k < |es| :: !es[k].EvStart? && (es[k].EvConfigure? ==> es[k].mode == OneShot)
    ensures |AllSent(s, es)| <= 1
    ensures s.core.tr.phase == Idle || AllSent(s, es) != [] ==> Final(s, es).core.tr.phase == Idle
    ensures s.core.tr.phase == Idle ==> AllSent(s, es) == []
    ensures Final(s, es).core.tr.mode == OneShot
  {
    if es != [] {
      var front := es[..|es| - 1];
      OneShotSendsAtMostOnce(s, front);
      OneShotStep(Final(s, front), es[|es| - 1]);
    }
  }

  lemma OneShotTick(c: Core, now: Word, xs: seq<real>)
    requires WellFormed(c) && |xs| == |c.chans| && c.tr.mode == OneShot
    ensures var (c', sent) := Tick(c, now, xs);
            (sent ==> c'.tr.phase == Idle) && (c.tr.phase == Idle ==> c'.tr.phase == Idle && !sent)
  {
    hide Detect, FillUpStep;
  }

  lemma OneShotStep(s: Scope, e: Event)
    requires Inv(s) && Fits(s, e) && s.core.tr.mode == OneShot
    requires !e.EvStart? && (e.EvConfigure? ==> e.mode == OneShot)
    ensures var (s', o) := Apply(s, e);
            && s'.core.tr.mode == OneShot && (o.Sent? ==> s'.core.tr.phase == Idle)
            && (s.core.tr.phase == Idle ==> s'.core.tr.phase == Idle && !o.Sent?)
  {
    assert WellFormed(s.core);
    hide Tick, CoreInv, WellFormed;
    if e.EvPoll? {
      OneShotTick(s.core, e.now, e.xs);
    }
  }

  // -------------------------------------------------- waiting in CLEANUP

  /**
   A window that waits for its swap is frozen: nothing but a clear or a start touches its
   samples, and nothing but those and a stale read its stamps.
   */
  lemma WaitingWindowIsFrozen(s: Scope, e: Event)
    requires Inv(s) && Fits(s, e) && s.core.tr.phase == CleanUp && AllStopped(s.core.chans) && !s.core.ts.running
    requires !e.EvClear? && !e.EvStart?
    ensures var (s', o) := Apply(s, e);
            if o.Sent?
            then forall i | 0 <= i < |s.core.chans| :: s'.core.chans[i].swap == s.core.chans[i].poll
            else && s'.core.ts.poll == (if e.EvPack? && StaleRead(s.core) then [] else s.core.ts.poll)
                 && forall i | 0 <= i < |s.core.chans| :: s'.core.chans[i].poll == s.core.chans[i].poll
  {
  }

  lemma StoppedTick(c: Core, now: Word, xs: seq<real>)
    requires WellFormed(c) && |xs| == |c.chans| && c.tr.phase == CleanUp && AllStopped(c.chans) && !c.ts.running
    ensures Tick(c, now, xs).1
            <==> |Active(c).poll| == |c.ts.poll| == c.cap && Active(c).swap == [] && c.ts.swap == []
  {
    assert PollAll(c.cap, c.chans, xs) == c.chans;
  }

  lemma PackedWaiting(c: Core)
    requires CoreInv(c)
    ensures var r := Packed(c);
            && WellFormed(r) && r.cap == c.cap && |r.chans| == |c.chans| && r.tr == c.tr && r.ts.swap == []
            && r.ts.running == c.ts.running && r.ts.last == c.ts.last && r.ts.increment == c.ts.increment
            && (AllStopped(c.chans) ==> AllStopped(r.chans)) && Active(r).poll == Active(c).poll
            && r.ts.poll == (if StaleRead(c) then [] else c.ts.poll)
            && (Active(r).swap == [] <==> Active(c).swap == [] || HasToBePacked(c.cap, Active(c)))
  {
    assert HasToBePacked(c.cap, Active(c)) ==> AnyToPack(c);
  }

  /**
   Whether a waiting window goes out at the next due poll after the packer has run: it
   and the stamps must be full, what is in the way must be something the packer takes, and
   that must not be the stamps themselves.
   */
  lemma WaitingWindowGoesOutIff(s: Scope, now: Word, xs: seq<real>)
    requires Inv(s) && s.ready && |xs| == |s.core.chans| && Eligible(s.core.ts, now)
    requires s.core.tr.phase == CleanUp && AllStopped(s.core.chans) && !s.core.ts.running
    ensures ScopePoll(Apply(s, EvPack).0, now, xs).1
            <==> && |Active(s.core).poll| == |s.core.ts.poll| == s.core.cap
                 && (Active(s.core).swap == [] || HasToBePacked(s.core.cap, Active(s.core)))
                 && !StaleRead(s.core)
  {
    PackKeepsInv(s);
    PackedWaiting(s.core);
    hide CoreInv, CaptureSpec.Packed, Tick, WellFormed, AllStopped;
    StoppedTick(Packed(s.core), now, xs);
  }

  /** In CLEANUP with windows, or with stamps, that the one poll still to come cannot fill. */
  ghost predicate Wedged(c: Core) {
    && c.tr.phase == CleanUp
    && (|| |c.ts.poll| + (if c.ts.running then 1 else 0) < c.cap
        || forall i | 0 <= i < |c.chans| :: |c.chans[i].poll| + (if c.chans[i].state == Running then 1 else 0) < c.cap)
  }

  ghost predicate Silent(c: Core) {
    Wedged(c) || c.tr.phase == Idle
  }

  /** A clear in CLEANUP wedges it, except that a window of one sample can be filled by the poll to come. */
  lemma ClearWedgesCleanUpIff(s: Scope)
    requires Inv(s) && s.core.tr.phase == CleanUp
    ensures Wedged(ClearScope(s).core) <==> s.core.cap >= 2 || AllStopped(s.core.chans)
  {
    var c := ClearScope(s).core;
    forall i | 0 <= i < |c.chans| ensures c.chans[i].poll == [] && c.chans[i].state == s.core.chans[i].state {
    }
  }

  /** Whatever follows but a start, nothing is announced any more. */
  lemma {:induction false} SilentUntilAStart(s: Scope, es: seq<Event>)
    requires Inv(s) && AllFit(|s.core.chans|, es) && Silent(s.core)
    requires forall k | 0 <= k < |es| :: !es[k].EvStart?
    ensures AllSent(s, es) == [] && Silent(Final(s, es).core)
  {
    if es != [] {
      hide Inv, Silent, Apply;
      var front := es[..|es| - 1];
      SilentUntilAStart(s, front);
      FitsAt(Final(s, front), es);
      SilentStep(Final(s, front), es[|es| - 1]);
    }
  }

  lemma IdleSendsNothing(s: Scope, e: Event)
    requires Valid(s) && Fits(s, e) && s.core.tr.phase == Idle
    ensures !Apply(s, e).1.Sent?
  {
    hide Activate, Deactivate, CaptureSpec.Packed, WellFormed;
  }

  lemma WedgedCommand(s: Scope, e: Event)
    requires Valid(s) && Wedged(s.core) && !e.EvPoll? && !e.EvStart?
    ensures !Apply(s, e).1.Sent? && Silent(Apply(s, e).0.core)
  {
  }

  lemma SilentStep(s: Scope, e: Event)
    requires Inv(s) && Fits(s, e) && Silent(s.core) && !e.EvStart?
    ensures !Apply(s, e).1.Sent? && Silent(Apply(s, e).0.core)
  {
    assert Valid(s);
    if s.core.tr.phase == Idle {
      hide Apply, Wedged, CoreInv, WellFormed;
      IdleIsLeftOnlyByAStart(s, e);
      IdleSendsNothing(s, e);
    } else if e.EvPoll? {
      WedgedTick(s.core, e.now, e.xs);
      hide CoreInv, WellFormed, Tick, Wedged;
    } else {
      hide Apply, Wedged, CoreInv, WellFormed;
      WedgedCommand(s, e);
    }
  }

  lemma WedgedTick(c: Core, now: Word, xs: seq<real>)
    requires CoreInv(c) && |xs| == |c.chans| && Wedged(c)
    ensures !Tick(c, now, xs).1 && Wedged(Tick(c, now, xs).0)
  {
    var p := PollAll(c.cap, c.chans, xs);
    var t := Stamp(c.cap, c.full, c.ts, now);
    if |c.ts.poll| + (if c.ts.running then 1 else 0) < c.cap {
      assert |t.poll| < c.cap;
    } else {
      forall i | 0 <= i < |c.chans| ensures |p[i].poll| < c.cap && p[i].state == c.chans[i].state {
      }
    }
  }

  /** A window of one sample is filled by the poll itself. */
  lemma OneSampleTick(c: Core, now: Word, xs: seq<real>)
    requires WellFormed(c) && |xs| == |c.chans| && c.cap == 1 && c.tr.phase == CleanUp && c.ts.running
    requires Active(c).state == Running && Active(c).swap == [] && c.ts.swap == [] && c.ts.poll == []
    ensures Tick(c, now, xs).1
  {
    var p := c.(ts := Stamp(c.cap, c.full, c.ts, now), chans := PollAll(c.cap, c.chans, xs));
    assert Active(p) == ChanPoll(1, Active(c), xs[c.tr.active]) && |Active(p).poll| == 1;
    assert p.ts.poll == [now];
  }

  /** A running channel in CLEANUP, nothing collected or in the way, and windows of one sample. */
  ghost predicate OneSampleToGo(s: Scope, i: nat) {
    && Inv(s) && s.ready && s.core.cap == 1 && s.core.tr.phase == CleanUp && i < |s.core.chans|
    && s.core.chans[i].state == Running && s.core.chans[i].swap == [] && s.core.ts.swap == [] && s.core.ts.poll == []
  }

  lemma ConfiguredForOne(s: Scope, i: nat)
    requires OneSampleToGo(s, i)
    ensures var t := s.core.tr; var d := Configure(s, t.level, t.rising, t.mode, i);
            && OneSampleToGo(d, i) && d.core.ts.running && |d.core.chans| == |s.core.chans| && d.core.tr.active == i
            && d.core.ts == s.core.ts
  {
    var t := s.core.tr;
    assert Lagging(s.core);
    EveryEventKeepsInv(s, EvConfigure(t.level, t.rising, t.mode, i));
  }

  lemma FinalOfOne(s: Scope, es: seq<Event>)
    requires Inv(s) && AllFit(|s.core.chans|, es) && |es| == 1
    ensures Valid(s) && Fits(s, es[0]) && Final(s, es) == Apply(s, es[0]).0
  {
    hide Apply, CoreInv;
    FitsAt(s, es);
    assert es[..0] == [] && Final(s, es[..0]) == s;
  }

  lemma SecondIsSent(s: Scope, es: seq<Event>, d: Scope)
    requires Inv(s) && AllFit(|s.core.chans|, es) && |es| == 2
    requires Valid(s) && Fits(s, es[0]) && Apply(s, es[0]).0 == d
    requires Valid(d) && Fits(d, es[1]) && Apply(d, es[1]).1.Sent?
    ensures AllSent(s, es) != []
  {
    hide Apply, Inv, Valid, Fits;
    FinalOfOne(s, es[..1]);
  }

  lemma OneSamplePoll(s: Scope, i: nat, now: Word, xs: seq<real>)
    requires OneSampleToGo(s, i) && s.core.tr.active == i && s.core.ts.running
    requires |xs| == |s.core.chans| && Eligible(s.core.ts, now)
    ensures Valid(s) && Apply(s, EvPoll(now, xs)).1.Sent?
  {
    assert WellFormed(s.core);
    OneSampleTick(s.core, now, xs);
    hide CoreInv, Tick, WellFormed;
  }

  lemma OneSampleRunFits(s: Scope, i: nat)
    ensures var es := OneSampleRun(s, i);
            && AllFit(|s.core.chans|, es) && |es| == 2 && es[0].EvConfigure? && es[1].EvPoll?
            && |es[1].xs| == |s.core.chans| && es[1].now == (s.core.ts.last + s.core.ts.increment) % 0x1_0000_0000
            && forall k | 0 <= k < |es| :: !es[k].EvStart?
  {
  }

  lemma OneSampleConfigures(s: Scope, i: nat)
    requires OneSampleToGo(s, i)
    ensures var t, e := s.core.tr, OneSampleRun(s, i)[0];
            && Valid(s) && Fits(s, e) && Apply(s, e).0 == Configure(s, t.level, t.rising, t.mode, i)
            && Eligible(s.core.ts, OneSampleRun(s, i)[1].now)
  {
    assert WellFormed(s.core);
    hide CoreInv, WellFormed;
  }

  /** A run without a start in which a window of one sample goes out all the same. */
  lemma OneSampleGoesOut(s: Scope, i: nat)
    requires OneSampleToGo(s, i)
    ensures var es := OneSampleRun(s, i);
            AllFit(|s.core.chans|, es) && AllSent(s, es) != [] && forall k | 0 <= k < |es| :: !es[k].EvStart?
  {
    assert Inv(s);
    ConfiguredForOne(s, i);
    OneSampleRunFits(s, i);
    OneSampleConfigures(s, i);
    hide Inv, Final, AllSent, WellFormed, AllFit, OneSampleToGo, OneSampleRun, Eligible, Apply, Valid, Configure;
    var es, t := OneSampleRun(s, i), s.core.tr;
    var d := Configure(s, t.level, t.rising, t.mode, i);
    OneSamplePoll(d, i, es[1].now, es[1].xs);
    SecondIsSent(s, es, d);
  }

  function OneSampleRun(s: Scope, i: nat): seq<Event> {
    var t := s.core.tr;
    [EvConfigure(t.level, t.rising, t.mode, i),
     EvPoll((s.core.ts.last + s.core.ts.increment) % 0x1_0000_0000, seq(|s.core.chans|, _ => 0.0))]
  }

  /** No run without a start announces anything. */
  ghost predicate SilentTillStart(s: Scope)
    requires Inv(s)
  {
    forall es: seq<Event> | AllFit(|s.core.chans|, es) && (forall k | 0 <= k < |es| :: !es[k].EvStart?) ::
      AllSent(s, es) == []
  }

  lemma WedgedIsSilent(s: Scope)
    requires Inv(s) && Silent(s.core)
    ensures SilentTillStart(s)
  {
    hide Inv;
    forall es: seq<Event> | AllFit(|s.core.chans|, es) && forall k | 0 <= k < |es| :: !es[k].EvStart?
      ensures AllSent(s, es) == []
    {
      SilentUntilAStart(s, es);
    }
  }

  lemma OneSampleIsNotSilent(s: Scope, i: nat)
    requires OneSampleToGo(s, i)
    ensures !SilentTillStart(s)
  {
    OneSampleGoesOut(s, i);
  }

  /**
   A clear in CLEANUP silences the scope until a start if and only if windows are longer than one
   sample or all are stopped.
   */
  lemma ClearSilencesIff(s: Scope)
    requires Inv(s) && s.core.tr.phase == CleanUp
    ensures Inv(ClearScope(s))
    ensures SilentTillStart(ClearScope(s)) <==> s.core.cap >= 2 || AllStopped(s.core.chans)
  {
    ClearKeepsInv(s);
    ClearWedgesCleanUpIff(s);
    hide SilentTillStart;
    if s.core.cap >= 2 || AllStopped(s.core.chans) {
      WedgedIsSilent(ClearScope(s));
    } else {
      var i :| 0 <= i < |s.core.chans| && s.core.chans[i].state == Running;
      OneSampleIsNotSilent(ClearScope(s), i);
    }
  }

  /** So does a stale read in CLEANUP. */
  lemma StaleReadSilencesIff(s: Scope)
    requires Inv(s) && s.core.tr.phase == CleanUp && StaleRead(s.core)
    requires AllStopped(s.core.chans) ==> !s.core.ts.running
    ensures Inv(Apply(s, EvPack).0)
    ensures SilentTillStart(Apply(s, EvPack).0) <==> s.core.cap >= 2 || AllStopped(s.core.chans)
  {
    PackKeepsInv(s);
    var s' := Apply(s, EvPack).0;
    assert s'.core == s.core.(ts := s.core.ts.(poll := []));
    hide SilentTillStart;
    if s.core.cap >= 2 || AllStopped(s.core.chans) {
      WedgedIsSilent(s');
    } else {
      var i :| 0 <= i < |s.core.chans| && s.core.chans[i].state == Running;
      assert !HasToBePacked(s.core.cap, s.core.chans[i]);
      OneSampleIsNotSilent(s', i);
    }
  }

  // ---------------------------------------------------- starting channels

  /** A start also starts every stopped channel that ran when the states were last saved. */
  lemma StartRevivesSavedChannels(s: Scope, i: nat, j: nat)
    requires Inv(s) && i < |s.core.chans| && j < |s.core.chans| && j != i
    ensures SetChannelRunning(s, i).core.chans[j].state == Running
            <==> || s.core.chans[j].state == Running
                 || (s.core.chans[j].state == Stopped && s.core.tr.saved[j]
                     && !AllStopped(s.core.chans[i := ChanRun(s.core.chans[i])]))
  {
    var cs := s.core.chans[i := ChanRun(s.core.chans[i])];
    assert cs[j] == s.core.chans[j];
  }

  /** Stopping a channel while every channel is stopped for its window shuts the trigger down and forgets them all. */
  lemma StopWhileWaitingForgetsAll(s: Scope, i: nat)
    requires Inv(s) && i < |s.core.chans| && AllStopped(s.core.chans)
    ensures var s' := SetChannelStopped(s, i);
            && s'.core.tr.phase == Idle && !s'.ready
            && forall j | 0 <= j < |s.core.chans| :: !s'.core.tr.saved[j]
  {
    assert s.core.chans[i := ChanStop(s.core.chans[i])] == s.core.chans;
  }

  // ------------------------------------------------------------ time stamps

  ghost predicate Spaced(gap: nat, s: seq<Word>) {
    forall i, j | 0 <= i < j < |s| :: s[i] + gap <= s[j]
  }

  ghost predicate SpacedUpTo(gap: nat, last: Word, s: seq<Word>) {
    Spaced(gap, s) && forall i | 0 <= i < |s| :: s[i] <= last
  }

  /** Stored stamps, the packer's before the ones being collected, are apart by the increment and not in the future. */
  ghost predicate StampsSpaced(t: Stamper) {
    SpacedUpTo(t.increment, t.last, t.swap + t.poll)
  }

  lemma StampKeepsSpacing(cap: nat, full: FullPolicy, t: Stamper, now: Word)
    requires cap >= 1 && StampsSpaced(t) && t.last + t.increment < 0x1_0000_0000 && Eligible(t, now) && |t.poll| <= cap
    ensures StampsSpaced(Stamp(cap, full, t, now))
  {
    var t' := Stamp(cap, full, t, now);
    var all, all' := t.swap + t.poll, t'.swap + t'.poll;
    var n, d := |t.swap|, |t.poll| + 1 - |t'.poll|;
    if t'.poll != t.poll {
      forall i | 0 <= i < |all'| ensures all'[i] == if i == |all'| - 1 then now else all[if i < n then i else i + d] {
      }
    }
  }

  lemma PartsAreSpaced(gap: nat, last: Word, a: seq<Word>, b: seq<Word>)
    requires SpacedUpTo(gap, last, a + b)
    ensures SpacedUpTo(gap, last, a) && SpacedUpTo(gap, last, b) && SpacedUpTo(gap, last, [])
  {
    assert forall i | 0 <= i < |a| :: a[i] == (a + b)[i];
    assert forall i | 0 <= i < |b| :: b[i] == (a + b)[i + |a|];
  }

  lemma ClearedOrSwappedStampsStaySpaced(t: Stamper)
    requires StampsSpaced(t)
    ensures StampsSpaced(t.(swap := [])) && StampsSpaced(t.(poll := []))
    ensures StampsSpaced(t.(swap := [], held := Waiting))
    ensures t.swap == [] ==> StampsSpaced(t.(swap := t.poll, poll := []))
  {
    hide SpacedUpTo;
    PartsAreSpaced(t.increment, t.last, t.swap, t.poll);
    assert t.swap + [] == t.swap && [] + t.poll == t.poll && t.poll + [] == t.poll;
  }

  /** A tick stamps, and if it announces a window it swaps the stamps too. */
  lemma TickStamps(c: Core, now: Word, xs: seq<real>)
    requires WellFormed(c) && |xs| == |c.chans|
    ensures var t, t' := Stamp(c.cap, c.full, c.ts, now), Tick(c, now, xs).0.ts;
            && t'.increment == t.increment && t'.last == t.last
            && ((t'.poll == t.poll && t'.swap == t.swap) || (t.swap == [] == t'.poll && t'.swap == t.poll))
  {
  }

  lemma PackKeepsSpacing(c: Core)
    requires StampsSpaced(c.ts)
    ensures var t := Packed(c).ts; StampsSpaced(t) && t.increment == c.ts.increment && t.last == c.ts.last
  {
    ClearedOrSwappedStampsStaySpaced(c.ts);
    hide StampsSpaced;
  }

  lemma PollKeepsSpacing(s: Scope, now: Word, xs: seq<real>)
    requires Inv(s) && |xs| == |s.core.chans| && StampsSpaced(s.core.ts)
    requires s.core.ts.last + s.core.ts.increment < 0x1_0000_0000
    ensures var t := ScopePoll(s, now, xs).0.core.ts;
            && StampsSpaced(t) && t.increment == s.core.ts.increment && (t.last == s.core.ts.last || t.last == now)
  {
    assert WellFormed(s.core);
    hide Tick, CoreInv, StampsSpaced;
    var t := s.core.ts;
    TickStamps(s.core, now, xs);
    if s.ready && Eligible(t, now) {
      StampKeepsSpacing(s.core.cap, s.core.full, t, now);
      ClearedOrSwappedStampsStaySpaced(Stamp(s.core.cap, s.core.full, t, now));
      SameStampsSpaced(Stamp(s.core.cap, s.core.full, t, now), Tick(s.core, now, xs).0.ts);
    }
  }

  lemma SameStampsSpaced(t: Stamper, t': Stamper)
    requires t'.increment == t.increment && t'.last == t.last
    requires (t'.poll == t.poll && t'.swap == t.swap) || (t.swap == [] == t'.poll && t'.swap == t.poll)
    requires StampsSpaced(t) && (t.swap == [] ==> StampsSpaced(t.(swap := t.poll, poll := [])))
    ensures StampsSpaced(t')
  {
  }

  lemma EventKeepsSpacing(s: Scope, e: Event)
    requires Inv(s) && Fits(s, e) && StampsSpaced(s.core.ts) && !e.EvIncrement?
    requires s.core.ts.last + s.core.ts.increment < 0x1_0000_0000
    ensures StampsSpaced(Apply(s, e).0.core.ts)
    ensures Apply(s, e).0.core.ts.increment == s.core.ts.increment
    ensures Apply(s, e).0.core.ts.last == s.core.ts.last || (e.EvPoll? && Apply(s, e).0.core.ts.last == e.now)
  {
    assert Valid(s);
    if e.EvPoll? {
      hide CoreInv, WellFormed, ScopePoll, StampsSpaced;
      PollKeepsSpacing(s, e.now, e.xs);
    } else if e.EvPack? {
      hide CoreInv, WellFormed, CaptureSpec.Packed, StampsSpaced;
      PackKeepsSpacing(s.core);
    } else {
      CommandStamps(s, e);
      hide CoreInv, StampsSpaced, Apply;
      SpacingIgnoresRunning(s.core.ts, Apply(s, e).0.core.ts);
    }
  }

  lemma CommandStamps(s: Scope, e: Event)
    requires Valid(s) && !e.EvPoll? && !e.EvPack? && !e.EvIncrement?
    ensures var t, t' := s.core.ts, Apply(s, e).0.core.ts;
            && t'.increment == t.increment && t'.last == t.last
            && ((t'.poll == t.poll && t'.swap == t.swap) || (t'.poll == [] && t'.swap == []))
  {
  }

  lemma SpacingIgnoresRunning(t: Stamper, t': Stamper)
    requires t'.increment == t.increment && t'.last == t.last && StampsSpaced(t)
    requires (t'.poll == t.poll && t'.swap == t.swap) || (t'.poll == [] && t'.swap == [])
    ensures StampsSpaced(t')
  {
  }

  /** With a constant increment and a clock that stays clear of the wrap, all stored stamps stay ordered and apart. */
  lemma {:induction false} StoredStampsStaySpaced(s: Scope, es: seq<Event>)
    requires Inv(s) && AllFit(|s.core.chans|, es) && StampsSpaced(s.core.ts)
    requires s.core.ts.last + s.core.ts.increment < 0x1_0000_0000
    requires forall k | 0 <= k < |es| ::
               !es[k].EvIncrement? && (es[k].EvPoll? ==> es[k].now + s.core.ts.increment < 0x1_0000_0000)
    ensures StampsSpaced(Final(s, es).core.ts) && Final(s, es).core.ts.increment == s.core.ts.increment
    ensures Final(s, es).core.ts.last + s.core.ts.increment < 0x1_0000_0000
  {
    if es != [] {
      var front := es[..|es| - 1];
      StoredStampsStaySpaced(s, front);
      EventKeepsSpacing(Final(s, front), es[|es| - 1]);
    }
  }

  /** A due poll is an increment later than the last one for sure exactly as long as the 32-bit sum does not wrap. */
  lemma GapIsSureIffNoWrap(t: Stamper)
    ensures (forall now: Word | Eligible(t, now) :: now >= t.last + t.increment)
            <==> t.last + t.increment < 0x1_0000_0000
  {
    if t.last + t.increment >= 0x1_0000_0000 {
      var now: Word := t.last + t.increment - 0x1_0000_0000;
      assert Eligible(t, now);
    }
  }
}
