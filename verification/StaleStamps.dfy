/**
 A run in which the packer empties the stamps that are being collected: it is made of polls,
 packs and one clear, and in continuous mode nothing is announced any more after it.
 */
module StaleStamps {
  import opened Bytes
  import opened CaptureSpec
  import opened CaptureProofs
  import opened TriggerProofs

  /** Nothing waits for the packer, and nothing is in the way of the next window. */
  ghost predicate Free(c: Core) {
    !AnyToPack(c) && c.tr.active < |c.chans| && Active(c).swap == []
  }

  lemma TickKeepsSwaps(c: Core, d: Due)
    requires CoreInv(c) && |d.xs| == |c.chans|
    ensures var (c', sent) := Tick(c, d.now, d.xs);
            if sent then |Active(c').swap| == c.cap
            else forall i | 0 <= i < |c.chans| :: c'.chans[i].swap == c.chans[i].swap
  {
    StampAndPollKeepInv(c, d.now, d.xs);
    var p := c.(ts := Stamp(c.cap, c.full, c.ts, d.now), chans := PollAll(c.cap, c.chans, d.xs));
    assert WellFormed(p) && WellFormed(c) && forall i | 0 <= i < |c.chans| :: p.chans[i].swap == c.chans[i].swap;
    hide CoreInv, WellFormed, CleanUpStep, Detect, FillUpStep;
    if p.tr.phase == CleanUp {
      CleanUpHandsOver(p);
    } else {
      RunKeepsSwaps(p);
    }
  }

  /** When nothing waits and the stamps are safe, packing does nothing. */
  lemma PackingNothing(c: Core, t: Turn)
    requires CoreInv(c) && Safe(c) && Free(c)
    ensures Before(c, t) == c
  {
  }

  ghost predicate AfterLap(c: Core, n: nat, r: Core)
    requires c.tr.active < |c.chans|
  {
    && Cruising(r) && r.cap == c.cap && |r.chans| == |c.chans| && r.tr.active == c.tr.active
    && if n < Countdown(c)
       then Countdown(r) == Countdown(c) - n && Free(r) && r.ts.held == c.ts.held
       else && Countdown(r) == Longer(c.cap) + 2 && AnyToPack(r) && |Active(r).swap| == c.cap
            && r.ts.held == Exchanged(c.ts.held)
  }

  lemma LapTurn(c: Core, n: nat, r: Core, t: Turn)
    requires c.tr.active < |c.chans| && n < Countdown(c) && AfterLap(c, n, r) && |t.due.xs| == |r.chans|
    ensures CoreInv(r) && AfterLap(c, n + 1, Take(r, t).0)
  {
    CountdownInPeriod(r);
    PackingNothing(r, t);
    CruisingTurn(r, t);
    TickKeepsHold(r, t.due.now, t.due.xs);
    TickKeepsSwaps(r, t.due);
    hide CoreInv, Tick, AnyToPack, OnItsWay, Lockstep, Safe;
  }

  /** Continuous capture up to the next announcement, from a state in which nothing waits. */
  lemma {:induction false} Lap(c: Core, turns: seq<Turn>)
    requires Cruising(c) && Free(c) && TurnsFit(c, turns) && |turns| <= Countdown(c)
    ensures CoreInv(c) && AfterLap(c, |turns|, After(c, turns))
  {
    CountdownInPeriod(c);
    if turns != [] {
      var front := turns[..|turns| - 1];
      assert TurnsFit(c, front);
      Lap(c, front);
      hide AfterLap, Cruising, Take;
      LapTurn(c, |front|, After(c, front), turns[|turns| - 1]);
    }
  }

  /** A capture in continuous mode on channel 0, just started. */
  function Started(cap: nat, full: FullPolicy, n: nat): Scope
    requires cap >= 1 && n >= 1
  {
    SetChannelRunning(SetAddress(Fresh(cap, full, n), 0), 0)
  }

  lemma StartedCruises(cap: nat, full: FullPolicy, n: nat)
    requires cap >= 1 && n >= 1
    ensures var c := Started(cap, full, n).core;
            && Cruising(c) && Free(c) && c.ts.held == NoStream && c.cap == cap && |c.chans| == n
            && Countdown(c) == Longer(cap) + 1
  {
    FreshInv(cap, full, n);
    SetAddressKeepsInv(Fresh(cap, full, n), 0);
    var s := SetAddress(Fresh(cap, full, n), 0);
    assert s.core.chans[0].state == Stopped;
    assert s.core.chans[0 := ChanRun(s.core.chans[0])][0].state == Running;
    ActivationCountdown(s, 0);
  }

  function Cleared(c: Core): Core {
    ClearScope(Scope(c, true, true)).core
  }

  lemma PackedCruises(c: Core)
    requires Cruising(c) && AnyToPack(c) && |Active(c).swap| == c.cap
    ensures var r := Packed(c);
            && Cruising(r) && Free(r) && r.ts.held == Waiting && r.cap == c.cap && |r.chans| == |c.chans|
            && Countdown(r) == Countdown(c)
  {
    var t := Turn(true, Due(0, []));
    assert Before(c, t) == Packed(c);
    PackingKeepsInv(c, t);
    DrainEmpties(c);
    assert HasToBePacked(c.cap, Active(c));
  }

  lemma ClearedIsUnsafe(c: Core)
    requires Cruising(c) && c.ts.held == Collecting && Countdown(c) == Longer(c.cap) + 2
    ensures var r := Cleared(c);
            && CoreInv(r) && Lockstep(r) && OnItsWay(r) && !AnyToPack(r) && r.ts.held == Collecting
            && r.tr.phase == Paused && Active(r).poll == [] && r.cap == c.cap && |r.chans| == |c.chans|
  {
    ClearKeepsInv(Scope(c, true, true));
    assert c.tr.phase == Paused;
    StoppedIsLockstep(Cleared(c));
    assert !AnyToPack(Cleared(c));
  }

  /** Continuous capture that is in lockstep but not safe, after `n` polls of a window. */
  ghost predicate Unsafe(c: Core, n: nat) {
    && CoreInv(c) && Lockstep(c) && OnItsWay(c) && !AnyToPack(c) && c.ts.held == Collecting
    && c.tr.phase == FillUp && |Active(c).poll| == n
  }

  lemma FirstSample(c: Core, d0: Due, d1: Due)
    requires CoreInv(c) && Lockstep(c) && OnItsWay(c) && !AnyToPack(c) && c.ts.held == Collecting
    requires c.tr.phase == Paused && Active(c).poll == [] && |d0.xs| == |d1.xs| == |c.chans|
    ensures var c1 := Tick(c, d0.now, d0.xs).0;
            && WellFormed(c1) && |c1.chans| == |c.chans|
            && var c2 := Tick(c1, d1.now, d1.xs).0; Unsafe(c2, 1) && c2.cap == c.cap && |c2.chans| == |c.chans|
  {
    var (c1, sent1) := Tick(c, d0.now, d0.xs);
    UnsafeTick(c, d0);
    CruisePaused(c, d0);
    assert c1.tr.phase == Detecting;
    var (c2, sent2) := Tick(c1, d1.now, d1.xs);
    UnsafeTick(c1, d1);
    CruiseDetecting(c1, d1);
    assert c2.tr.phase == FillUp;
    OneMoreSample(c1, d1);
  }

  lemma UnsafeTick(c: Core, d: Due)
    requires CoreInv(c) && Lockstep(c) && OnItsWay(c) && !AnyToPack(c) && |d.xs| == |c.chans| && c.tr.phase != CleanUp
    ensures var (c', sent) := Tick(c, d.now, d.xs);
            && CoreInv(c') && WellFormed(c) && WellFormed(c') && Lockstep(c') && !sent && !AnyToPack(c')
            && c'.ts.held == c.ts.held && |c'.chans| == |c.chans| && c'.cap == c.cap
  {
    TickKeepsInv(c, d.now, d.xs);
    TickKeepsLockstep(c, d.now, d.xs);
    TickKeepsHold(c, d.now, d.xs);
    InvIsWellFormed(Tick(c, d.now, d.xs).0);
    hide CoreInv, Lockstep, AnyToPack, Detect, FillUpStep;
  }

  lemma OneMoreSample(c: Core, d: Due)
    requires WellFormed(c) && OnItsWay(c) && |d.xs| == |c.chans| && (c.tr.phase == Detecting || c.tr.phase == FillUp)
    ensures |Active(Tick(c, d.now, d.xs).0).poll| == if |Active(c).poll| < c.cap then |Active(c).poll| + 1 else c.cap
  {
    ActivePolled(c, d.xs);
  }

  lemma SecondSample(c: Core, d: Due)
    requires Unsafe(c, 1) && c.cap >= 3 && |d.xs| == |c.chans|
    ensures WellFormed(c) && Unsafe(Tick(c, d.now, d.xs).0, 2)
  {
    UnsafeTick(c, d);
    CruiseFillUp(c, d);
    OneMoreSample(c, d);
    assert Countdown(Tick(c, d.now, d.xs).0) == c.cap - 1;
  }

  lemma UnsafeIsStale(c: Core, n: nat)
    requires Unsafe(c, n) && n > 0
    ensures StaleRead(c) && !AllStopped(c.chans) && !Lockstep(Packed(c)) && Packed(c) == c.(ts := c.ts.(poll := []))
  {
    PackKeepsLockstepIff(c);
  }

  /**
   The state after the second of two windows was announced, only the first of which was packed: the packer
   holds the stream that is collected next.
   */
  lemma TwoLaps(cap: nat, full: FullPolicy, n: nat, first: seq<Turn>, second: seq<Turn>)
    requires cap >= 1 && n >= 1 && |first| == Longer(cap) + 1 && |second| == Longer(cap) + 2
    requires forall t | t in first + second :: |t.due.xs| == n
    ensures var c0 := Started(cap, full, n).core;
            && CoreInv(c0) && |c0.chans| == n && TurnsFit(c0, first)
            && var c1 := Packed(After(c0, first));
               && CoreInv(c1) && |c1.chans| == n && TurnsFit(c1, second)
               && var c2 := After(c1, second);
                  && Cruising(c2) && c2.cap == cap && |c2.chans| == n && c2.ts.held == Collecting
                  && Countdown(c2) == Longer(cap) + 2
  {
    StartedCruises(cap, full, n);
    var c0 := Started(cap, full, n).core;
    hide Started;
    CountdownInPeriod(c0);
    assert forall k | 0 <= k < |first| :: first[k] in first + second;
    assert forall k | 0 <= k < |second| :: second[k] in first + second;
    assert TurnsFit(c0, first);
    Lap(c0, first);
    var a := After(c0, first);
    PackedCruises(a);
    var c1 := Packed(a);
    CountdownInPeriod(c1);
    Lap(c1, second);
  }

  /**
   The run: two windows announced in continuous mode and the first packed, a clear, and from the
   second poll after it a pack. The stamps collected since are gone, and the samples are not.
   */
  lemma LateMessageBreaksLockstep(cap: nat, full: FullPolicy, n: nat, first: seq<Turn>, second: seq<Turn>, d0: Due,
                                  d1: Due)
    requires cap >= 1 && n >= 1 && |first| == Longer(cap) + 1 && |second| == Longer(cap) + 2
    requires (forall t | t in first + second :: |t.due.xs| == n) && |d0.xs| == |d1.xs| == n
    ensures var c0 := Started(cap, full, n).core;
            && CoreInv(c0) && |c0.chans| == n && TurnsFit(c0, first)
            && var c1 := Packed(After(c0, first));
               && CoreInv(c1) && |c1.chans| == n && TurnsFit(c1, second)
               && var c2 := Cleared(After(c1, second));
                  && WellFormed(c2) && |c2.chans| == n
                  && var c3 := Tick(c2, d0.now, d0.xs).0;
                     && WellFormed(c3) && |c3.chans| == n
                     && var c4 := Tick(c3, d1.now, d1.xs).0;
                        Unsafe(c4, 1) && StaleRead(c4) && !Lockstep(Packed(c4))
  {
    TwoLaps(cap, full, n, first, second);
    var c1 := Packed(After(Started(cap, full, n).core, first));
    var r := After(c1, second);
    hide Started, Tick;
    ClearedIsUnsafe(r);
    var c2 := Cleared(r);
    InvIsWellFormed(c2);
    FirstSample(c2, d0, d1);
    UnsafeIsStale(Tick(Tick(c2, d0.now, d0.xs).0, d1.now, d1.xs).0, 1);
  }

  // ------------------------------------------------- two stamps are enough

  /** In continuous mode, two stamps short of a window that is not full yet. */
  ghost predicate TwoShort(c: Core) {
    && CoreInv(c) && c.tr.mode == Continuous
    && ((c.tr.phase == FillUp && Active(c).state == Running && |c.ts.poll| + 2 <= |Active(c).poll| < c.cap)
        || (c.tr.phase == CleanUp && |c.ts.poll| + (if c.ts.running then 1 else 0) < c.cap))
  }

  lemma TwoShortTick(c: Core, d: Due)
    requires TwoShort(c) && |d.xs| == |c.chans|
    ensures var (c', sent) := Tick(c, d.now, d.xs); TwoShort(c') && !sent
  {
    TickKeepsInv(c, d.now, d.xs);
    InvIsWellFormed(c);
    StampedLength(c.cap, c.full, c.ts, d.now);
    ActivePolled(c, d.xs);
    hide CoreInv, WellFormed;
  }

  lemma TwoShortPack(c: Core, t: Turn)
    requires TwoShort(c)
    ensures TwoShort(Before(c, t))
  {
    PackingKeepsInv(c, t);
    assert |Before(c, t).ts.poll| <= |c.ts.poll|;
    hide CoreInv, Before;
  }

  lemma {:induction false} TwoShortLasts(c: Core, turns: seq<Turn>)
    requires TwoShort(c) && TurnsFit(c, turns)
    ensures CoreInv(c) && TwoShort(After(c, turns))
  {
    assert CoreInv(c);
    if turns != [] {
      hide CoreInv, Take, TwoShort;
      var front := turns[..|turns| - 1];
      assert TurnsFit(c, front);
      TwoShortLasts(c, front);
      TwoShortTurn(After(c, front), turns[|turns| - 1]);
    }
  }

  lemma TwoShortNeverAnnounces(c: Core, turns: seq<Turn>, k: nat)
    requires TwoShort(c) && TurnsFit(c, turns) && k < |turns|
    ensures CoreInv(c) && !Announces(c, turns, k)
  {
    assert CoreInv(c) && TurnsFit(c, turns[..k]);
    hide CoreInv, Take, TwoShort, After;
    TwoShortLasts(c, turns[..k]);
    TwoShortTurn(After(c, turns[..k]), turns[k]);
  }

  /** Nothing is announced any more, by whatever polls and packs. */
  lemma TwoShortForEver(c: Core, turns: seq<Turn>)
    requires TwoShort(c) && TurnsFit(c, turns)
    ensures CoreInv(c) && forall k | 0 <= k < |turns| :: !Announces(c, turns, k)
  {
    assert CoreInv(c);
    hide CoreInv, TwoShort, Announces;
    forall k | 0 <= k < |turns| ensures !Announces(c, turns, k) {
      TwoShortNeverAnnounces(c, turns, k);
    }
  }

  lemma TwoShortTurn(c: Core, t: Turn)
    requires TwoShort(c) && |t.due.xs| == |c.chans|
    ensures CoreInv(c) && TwoShort(Take(c, t).0) && !Take(c, t).1
  {
    TwoShortPack(c, t);
    PackingKeepsInv(c, t);
    hide CoreInv, Tick, Before;
    TwoShortTick(Before(c, t), t.due);
  }

  /** So a late message after the second sample of a window of at least three ends continuous capture. */
  lemma LateMessageSilences(c: Core, d: Due, turns: seq<Turn>)
    requires Unsafe(c, 1) && c.cap >= 3 && |d.xs| == |c.chans| && TurnsFit(c, turns)
    ensures WellFormed(c)
    ensures var r := Packed(Tick(c, d.now, d.xs).0);
            CoreInv(r) && TurnsFit(r, turns) && forall k | 0 <= k < |turns| :: !Announces(r, turns, k)
  {
    SecondSample(c, d);
    var c' := Tick(c, d.now, d.xs).0;
    UnsafeIsStale(c', 2);
    PackingKeepsInv(c', Turn(true, d));
    TwoShortForEver(Packed(c'), turns);
  }
}
