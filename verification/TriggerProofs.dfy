/** When the trigger fires, where its sample ends up, and how often windows are announced. */
module TriggerProofs {
  import opened Bytes
  import opened CaptureSpec
  import opened CaptureProofs

  /** A poll that is due. */
  datatype Due = Due(now: Word, xs: seq<real>)

  /** A due poll, with or without a run of the packer before it. */
  datatype Turn = Turn(packed: bool, due: Due)

  function Before(c: Core, t: Turn): Core {
    if t.packed then Packed(c) else c
  }

  ghost predicate TurnsFit(c: Core, turns: seq<Turn>) {
    forall k | 0 <= k < |turns| :: |turns[k].due.xs| == |c.chans|
  }

  lemma InvIsWellFormed(c: Core)
    requires CoreInv(c)
    ensures WellFormed(c) && c.tr.active < |c.chans|
  {
  }

  /** In lockstep, and no pack will change that. */
  ghost predicate Steady(c: Core) {
    Lockstep(c) && Safe(c)
  }

  lemma PackingKeepsInv(c: Core, t: Turn)
    requires CoreInv(c)
    ensures var b := Before(c, t);
            && CoreInv(b) && |b.chans| == |c.chans|
            && b == c.(chans := b.chans, ts := c.ts.(poll := b.ts.poll, swap := b.ts.swap, held := b.ts.held))
            && (forall i | 0 <= i < |c.chans| :: b.chans[i] == c.chans[i].(swap := b.chans[i].swap))
            && (Safe(c) ==> Safe(b) && b.ts.poll == c.ts.poll)
  {
    if AnyToPack(c) {
      DrainEmpties(c);
    } else {
      SameAny(c, ReadHeld(c));
    }
  }

  lemma TickKeepsSteady(c: Core, d: Due)
    requires CoreInv(c) && Steady(c) && |d.xs| == |c.chans|
    ensures Steady(Tick(c, d.now, d.xs).0)
  {
    InvIsWellFormed(c);
    TickKeepsLockstep(c, d.now, d.xs);
    TickKeepsHold(c, d.now, d.xs);
    hide CoreInv, Lockstep, Tick, AnyToPack;
  }

  /** Turns keep it, however the packer runs. */
  lemma TurnKeepsSteady(c: Core, t: Turn)
    requires CoreInv(c) && Steady(c) && |t.due.xs| == |c.chans|
    ensures Steady(Before(c, t)) && Steady(Take(c, t).0)
  {
    PackingKeepsInv(c, t);
    assert Steady(Before(c, t));
    hide CoreInv, Steady, Before, Tick;
    TickKeepsSteady(Before(c, t), t.due);
  }

  lemma TickKeepsShape(c: Core, d: Due)
    requires CoreInv(c) && |d.xs| == |c.chans|
    ensures CoreInv(Tick(c, d.now, d.xs).0) && |Tick(c, d.now, d.xs).0.chans| == |c.chans|
  {
    TickKeepsInv(c, d.now, d.xs);
  }

  /** What the poll of a turn finds, and what it leaves. */
  ghost function Take(c: Core, t: Turn): (r: (Core, bool))
    requires CoreInv(c) && |t.due.xs| == |c.chans|
    ensures CoreInv(r.0) && |r.0.chans| == |c.chans|
  {
    hide CoreInv, Tick, Before;
    PackingKeepsInv(c, t);
    InvIsWellFormed(Before(c, t));
    TickKeepsShape(Before(c, t), t.due);
    Tick(Before(c, t), t.due.now, t.due.xs)
  }

  ghost function After(c: Core, turns: seq<Turn>): (r: Core)
    requires CoreInv(c) && TurnsFit(c, turns)
    ensures CoreInv(r) && |r.chans| == |c.chans|
  {
    if turns == [] then c else Take(After(c, turns[..|turns| - 1]), turns[|turns| - 1]).0
  }

  /** What the k-th poll finds, after the packer if it ran. */
  ghost function Found(c: Core, turns: seq<Turn>, k: nat): (r: Core)
    requires CoreInv(c) && TurnsFit(c, turns) && k < |turns|
    ensures CoreInv(r) && r.tr.active < |r.chans| == |c.chans|
  {
    PackingKeepsInv(After(c, turns[..k]), turns[k]);
    Before(After(c, turns[..k]), turns[k])
  }

  /** Whether the k-th poll announces a window. */
  ghost predicate Announces(c: Core, turns: seq<Turn>, k: nat)
    requires CoreInv(c) && TurnsFit(c, turns) && k < |turns|
  {
    Take(After(c, turns[..k]), turns[k]).1
  }

  /** The last window is out of the way when the next one is to be handed over. */
  ghost predicate InTime(c: Core)
    requires c.tr.active < |c.chans|
  {
    c.tr.phase == CleanUp ==> Active(c).swap == [] && c.ts.swap == []
  }

  /** The first turns of a run are a run of their own. */
  lemma FirstTurns(c: Core, turns: seq<Turn>, n: nat, k: nat)
    requires CoreInv(c) && TurnsFit(c, turns) && k < n <= |turns|
    ensures TurnsFit(c, turns[..n]) && Announces(c, turns[..n], k) == Announces(c, turns, k)
    ensures Found(c, turns[..n], k) == Found(c, turns, k)
  {
    assert turns[..n][..k] == turns[..k];
  }

  // ---------------------------------------------------------------- windows

  lemma NewestOfNewest<T>(n: nat, s: seq<T>, x: T)
    ensures Newest(n, Newest(n, s) + [x]) == Newest(n, s + [x])
  {
  }

  function PolledWith(cap: nat, ch: Chan, xs: seq<real>): Chan {
    if xs == [] then ch else ChanPoll(cap, PolledWith(cap, ch, xs[..|xs| - 1]), xs[|xs| - 1])
  }

  /** The window of a running channel is always the newest samples since it was last empty, in order. */
  lemma {:induction false} WindowHoldsTheNewestSamples(cap: nat, ch: Chan, xs: seq<real>)
    requires ch.state == Running && |ch.poll| <= cap
    ensures PolledWith(cap, ch, xs).state == Running && PolledWith(cap, ch, xs).poll == Newest(cap, ch.poll + xs)
  {
    if xs == [] {
      assert ch.poll + xs == ch.poll;
    } else {
      var front := xs[..|xs| - 1];
      WindowHoldsTheNewestSamples(cap, ch, front);
      NewestOfNewest(cap, ch.poll + front, xs[|xs| - 1]);
      assert ch.poll + xs == ch.poll + front + [xs[|xs| - 1]];
    }
  }

  // -------------------------------------------------------------- detection

  /**
   In a detecting mode the trigger fires at a tick exactly if the window, with the new
   sample, is at least half full and the last two samples of the channel cross the level.
   */
  lemma FiresIff(c: Core, d: Due)
    requires CoreInv(c) && |d.xs| == |c.chans| && c.tr.phase == Detecting && c.tr.mode != Continuous
    requires Active(c).state == Running
    ensures var c', x := Tick(c, d.now, d.xs).0, d.xs[c.tr.active];
            && Active(c').poll == Newest(c.cap, Active(c).poll + [x])
            && (c'.tr.phase == FillUp <==> |Active(c').poll| >= c.cap / 2 && Crosses(c.tr, Active(c).last, x))
            && (c'.tr.phase == FillUp ==> c'.tr.hit && c'.tr.index == d.now && c'.tr.fillUpCount == 0)
            && (c'.tr.phase != FillUp ==> c'.tr.phase == Detecting)
            && c' == c'.(cap := c.cap, full := c.full) && c'.tr.mode == c.tr.mode && c'.tr.active == c.tr.active
            && c'.tr.level == c.tr.level && c'.tr.rising == c.tr.rising
            && Active(c').state == Running && Active(c').last == x && Active(c').swap == Active(c).swap
            && c'.ts.swap == c.ts.swap && c'.ts.poll == StreamWrite(c.cap, c.full, c.ts.poll, d.now)
            && !Tick(c, d.now, d.xs).1
  {
    var p := c.(ts := Stamp(c.cap, c.full, c.ts, d.now), chans := PollAll(c.cap, c.chans, d.xs));
    assert Active(p) == ChanPoll(c.cap, Active(c), d.xs[c.tr.active]);
  }

  /** With room for four samples the pair that fires is the newest two of the window: no crossing is invented. */
  lemma FiringPairIsInTheWindow(c: Core, d: Due)
    requires CoreInv(c) && |d.xs| == |c.chans| && c.tr.phase == Detecting && c.tr.mode != Continuous
    requires Active(c).state == Running && c.cap >= 4 && Tick(c, d.now, d.xs).0.tr.phase == FillUp
    ensures var c' := Tick(c, d.now, d.xs).0; var n := |Active(c').poll|;
            n >= 2 && Active(c').poll[n - 1] == d.xs[c.tr.active]
            && Crosses(c.tr, Active(c').poll[n - 2], Active(c').poll[n - 1])
  {
    FiresIff(c, d);
    var ch := c.chans[c.tr.active];
    assert ChanHistory(ch) && WellFormed(c) && |ch.poll| <= c.cap;
    hide CoreInv, Tick, WellFormed;
    var w := Newest(c.cap, ch.poll + [d.xs[c.tr.active]]);
    assert |w| >= 2 && ch.poll != [];
  }

  /** A tick of a detecting state of the given capacity that fires. */
  ghost predicate Fires(cap: nat, c: Core, d: Due) {
    && CoreInv(c) && c.cap == cap && |d.xs| == |c.chans| && c.tr.phase == Detecting && c.tr.mode != Continuous
    && Active(c).state == Running && Tick(c, d.now, d.xs).0.tr.phase == FillUp
  }

  /** At every tick that fires, the pair that did is the newest two samples of the window. */
  ghost predicate NoCrossingIsInvented(cap: nat) {
    forall c: Core, d: Due | Fires(cap, c, d) :: PairInWindow(c, Tick(c, d.now, d.xs).0)
  }

  predicate PairInWindow(c: Core, c': Core)
    requires c'.tr.active < |c'.chans|
  {
    var w := Active(c').poll;
    |w| >= 2 && Crosses(c.tr, w[|w| - 2], w[|w| - 1])
  }

  /** One channel started in normal mode with a rising edge at level 1, just created. */
  function JustStarted(cap: nat, full: FullPolicy): Scope
    requires cap >= 1
  {
    SetChannelRunning(Configure(SetAddress(Fresh(cap, full, 1), 0), 1.0, true, Normal, 0), 0)
  }

  lemma JustStartedDetects(cap: nat, full: FullPolicy)
    requires cap >= 1
    ensures var c := JustStarted(cap, full).core;
            && CoreInv(c) && c.cap == cap && |c.chans| == 1 && c.tr.phase == Detecting && c.tr.mode == Normal
            && Active(c).state == Running && Active(c).poll == [] && Active(c).last == 0.0 && c.tr.rising
            && c.tr.level == 1.0
  {
    FreshInv(cap, full, 1);
    var s := SetAddress(Fresh(cap, full, 1), 0);
    SetAddressKeepsInv(Fresh(cap, full, 1), 0);
    var s' := Configure(s, 1.0, true, Normal, 0);
    EveryEventKeepsInv(s, EvConfigure(1.0, true, Normal, 0));
    StartKeepsInv(s', 0);
    assert s'.core.chans[0].state == Stopped;
    assert s'.core.chans[0 := ChanRun(s'.core.chans[0])][0].state == Running;
  }

  /** With less room the very first sample can fire, against the 0 that no sample ever was. */
  lemma FirstSampleFires(cap: nat, full: FullPolicy, now: Word)
    requires 1 <= cap < 4
    ensures var c, d := JustStarted(cap, full).core, Due(now, [2.0]);
            && CoreInv(c) && |c.chans| == 1
            && var c' := Tick(c, now, d.xs).0; c'.tr.phase == FillUp && |Active(c').poll| == 1
  {
    JustStartedDetects(cap, full);
    hide JustStarted;
    FiresIff(JustStarted(cap, full).core, Due(now, [2.0]));
  }

  /** No crossing is invented if and only if the window holds four samples. */
  lemma NoCrossingIsInventedIff(cap: nat)
    requires cap >= 1
    ensures NoCrossingIsInvented(cap) <==> cap >= 4
  {
    if cap >= 4 {
      forall c: Core, d: Due | Fires(cap, c, d) ensures PairInWindow(c, Tick(c, d.now, d.xs).0) {
        FiringPairIsInTheWindow(c, d);
      }
    } else {
      var c, d := JustStarted(cap, OverwriteOldest).core, Due(0, [2.0]);
      JustStartedDetects(cap, OverwriteOldest);
      FirstSampleFires(cap, OverwriteOldest, 0);
      assert WellFormed(c);
      hide CoreInv, Tick, JustStarted, WellFormed;
      assert Fires(cap, c, d) && !PairInWindow(c, Tick(c, d.now, d.xs).0);
    }
  }

  /** The turns take the active channel from one side of the level to the other. */
  ghost predicate PassesLevel(c: Core, turns: seq<Turn>)
    requires c.tr.active < |c.chans| && TurnsFit(c, turns)
  {
    && turns != []
    && var before, now := Active(c).last, turns[|turns| - 1].due.xs[c.tr.active];
       if c.tr.rising then before < c.tr.level <= now else now <= c.tr.level < before
  }

  /** No crossing is missed: from a half full window, the trigger fires at or before the poll that is past the level. */
  lemma {:induction false} NoCrossingIsMissed(c: Core, turns: seq<Turn>)
    requires CoreInv(c) && TurnsFit(c, turns) && c.tr.phase == Detecting && c.tr.mode != Continuous
    requires Active(c).state == Running && |Active(c).poll| >= c.cap / 2 && PassesLevel(c, turns)
    ensures exists k | 0 < k <= |turns| :: After(c, turns[..k]).tr.phase == FillUp
    decreases |turns|
  {
    hide CoreInv, Tick, Before;
    InvIsWellFormed(c);
    PackingKeepsInv(c, turns[0]);
    var c1 := Take(c, turns[0]).0;
    FiresIff(Before(c, turns[0]), turns[0].due);
    AfterFirst(c, turns, 1);
    if c1.tr.phase != FillUp {
      var rest := turns[1..];
      assert |rest| > 0;
      assert TurnsFit(c1, rest);
      NoCrossingIsMissed(c1, rest);
      var k :| 0 < k <= |rest| && After(c1, rest[..k]).tr.phase == FillUp;
      AfterFirst(c, turns, k + 1);
      assert rest[..k] == turns[1..k + 1];
    } else {
      assert turns[1..1] == [];
    }
  }

  lemma {:induction false} AfterFirst(c: Core, turns: seq<Turn>, k: nat)
    requires CoreInv(c) && TurnsFit(c, turns) && 0 < k <= |turns|
    ensures After(c, turns[..k]) == After(Take(c, turns[0]).0, turns[1..k])
  {
    hide CoreInv, Take;
    var one := turns[..1];
    assert one[..0] == [] && After(c, one[..0]) == c;
    assert After(c, one) == Take(c, turns[0]).0;
    if k == 1 {
      assert turns[1..1] == [];
    } else {
      AfterFirst(c, turns, k - 1);
      assert turns[..k][..k - 1] == turns[..k - 1] && turns[1..k][..k - 2] == turns[1..k - 1];
    }
  }

  // -------------------------------------------------------------- placement

  /** How many polls after the one that fires the window stays open, less one. */
  function FillUpPolls(cap: nat, used: nat): nat {
    var missing := if used < cap then cap - used else 0;
    var most := if missing < cap / 2 then cap / 2 else missing;
    if most == 0 then 1 else most
  }

  ghost function Samples(turns: seq<Turn>, i: nat): (r: seq<real>)
    requires forall k | 0 <= k < |turns| :: i < |turns[k].due.xs|
    ensures |r| == |turns|
  {
    seq(|turns|, k requires 0 <= k < |turns| => turns[k].due.xs[i])
  }

  ghost function Times(turns: seq<Turn>): (r: seq<Word>)
    ensures |r| == |turns|
  {
    seq(|turns|, k requires 0 <= k < |turns| => turns[k].due.now)
  }

  /** Nothing that the placement of a sample depends on has changed but the windows. */
  ghost predicate SameSetting(c: Core, c': Core) {
    && c'.cap == c.cap && c'.full == c.full && |c'.chans| == |c.chans|
    && c'.tr.mode == c.tr.mode && c'.tr.active == c.tr.active && c.tr.active < |c.chans|
    && c'.tr.hit == c.tr.hit && c'.tr.index == c.tr.index
  }

  lemma FillUpTick(c: Core, d: Due)
    requires CoreInv(c) && |d.xs| == |c.chans| && c.tr.phase == FillUp && c.tr.mode != Continuous
    requires Active(c).state == Running
    ensures var (c', sent) := Tick(c, d.now, d.xs);
            && !sent && SameSetting(c, c') && Active(c').state == Running
            && Active(c').poll == Newest(c.cap, Active(c).poll + [d.xs[c.tr.active]])
            && c'.ts.poll == StreamWrite(c.cap, c.full, c.ts.poll, d.now)
            && c'.tr.fillUpCount == (c.tr.fillUpCount + 1) % 0x1_0000_0000
            && c'.tr.phase == (if |Active(c').poll| == c.cap && c'.tr.fillUpCount >= c.cap / 2 then CleanUp else FillUp)
  {
    var p := c.(ts := Stamp(c.cap, c.full, c.ts, d.now), chans := PollAll(c.cap, c.chans, d.xs));
    assert Active(p) == ChanPoll(c.cap, Active(c), d.xs[c.tr.active]);
  }

  lemma FillUpTurn(c: Core, t: Turn)
    requires CoreInv(c) && Safe(c) && |t.due.xs| == |c.chans| && c.tr.phase == FillUp && c.tr.mode != Continuous
    requires Active(c).state == Running
    ensures var (c', sent) := Take(c, t);
            && !sent && SameSetting(c, c') && Active(c').state == Running
            && Active(c').poll == Newest(c.cap, Active(c).poll + [t.due.xs[c.tr.active]])
            && c'.ts.poll == StreamWrite(c.cap, c.full, c.ts.poll, t.due.now)
            && c'.tr.fillUpCount == (c.tr.fillUpCount + 1) % 0x1_0000_0000
            && c'.tr.phase == (if |Active(c').poll| == c.cap && c'.tr.fillUpCount >= c.cap / 2 then CleanUp else FillUp)
  {
    hide CoreInv, Tick, Before, StreamWrite, Newest;
    PackingKeepsInv(c, t);
    InvIsWellFormed(c);
    FillUpTick(Before(c, t), t.due);
  }

  /** The samples of the active channel, and if known the stamps, are the newest of those of `c` and of the turns. */
  ghost predicate Collected(c: Core, turns: seq<Turn>, window: seq<real>, stamps: seq<Word>)
    requires c.tr.active < |c.chans| && TurnsFit(c, turns)
  {
    && window == Newest(c.cap, Active(c).poll + Samples(turns, c.tr.active))
    && (c.full == OverwriteOldest ==> stamps == Newest(c.cap, c.ts.poll + Times(turns)))
  }

  lemma CollectedOneMore(c: Core, turns: seq<Turn>, t: Turn, window: seq<real>, stamps: seq<Word>)
    requires c.tr.active < |c.chans| == |t.due.xs| && TurnsFit(c, turns)
    requires Collected(c, turns, window, stamps) && c.cap >= 1
    ensures TurnsFit(c, turns + [t])
    ensures Collected(c, turns + [t], Newest(c.cap, window + [t.due.xs[c.tr.active]]),
                      StreamWrite(c.cap, c.full, stamps, t.due.now))
  {
    hide Newest;
    var i := c.tr.active;
    assert TurnsFit(c, turns + [t]);
    assert Samples(turns + [t], i) == Samples(turns, i) + [t.due.xs[i]];
    assert Times(turns + [t]) == Times(turns) + [t.due.now];
    NewestGrows(c.cap, Active(c).poll, Samples(turns, i), t.due.xs[i]);
    NewestGrows(c.cap, c.ts.poll, Times(turns), t.due.now);
  }

  /** What the polls since the one that fired have made of `c`. */
  ghost predicate FilledUp(c: Core, turns: seq<Turn>, r: Core)
    requires c.tr.active < |c.chans| && TurnsFit(c, turns)
  {
    && SameSetting(c, r) && Active(r).state == Running && Steady(r) && Collected(c, turns, Active(r).poll, r.ts.poll)
    && (if |turns| < FillUpPolls(c.cap, |Active(c).poll|) then r.tr.phase == FillUp && r.tr.fillUpCount == |turns|
        else r.tr.phase == CleanUp && |Active(r).poll| == c.cap)
  }

  lemma NewestGrows<T>(n: nat, s: seq<T>, t: seq<T>, x: T)
    ensures Newest(n, Newest(n, s + t) + [x]) == Newest(n, s + (t + [x]))
  {
    NewestOfNewest(n, s + t, x);
    assert s + (t + [x]) == s + t + [x];
  }

  lemma CollectedLength(c: Core, turns: seq<Turn>, window: seq<real>, stamps: seq<Word>)
    requires c.tr.active < |c.chans| && TurnsFit(c, turns) && Collected(c, turns, window, stamps)
    ensures |window| == var n := |Active(c).poll| + |turns|; if n <= c.cap then n else c.cap
  {
  }

  lemma FilledUpCollects(c: Core, turns: seq<Turn>, r: Core, t: Turn)
    requires WellFormed(c) && TurnsFit(c, turns) && FilledUp(c, turns, r) && |t.due.xs| == |c.chans| && CoreInv(r)
    requires r.tr.phase == FillUp && c.tr.mode != Continuous
    ensures TurnsFit(c, turns + [t])
    ensures var r' := Take(r, t).0;
            r'.tr.active == c.tr.active && Collected(c, turns + [t], Active(r').poll, r'.ts.poll)
  {
    assert Safe(r);
    hide CoreInv, Take, Newest, Collected, StreamWrite, Steady, FillUpPolls;
    FillUpTurn(r, t);
    CollectedOneMore(c, turns, t, Active(r).poll, r.ts.poll);
  }

  lemma FilledUpTurn(c: Core, turns: seq<Turn>, r: Core, t: Turn)
    requires WellFormed(c) && TurnsFit(c, turns) && FilledUp(c, turns, r) && |t.due.xs| == |c.chans| && CoreInv(r)
    requires |turns| < FillUpPolls(c.cap, |Active(c).poll|) && c.tr.mode != Continuous && c.cap < 0x1_0000_0000
    ensures TurnsFit(c, turns + [t]) && FilledUp(c, turns + [t], Take(r, t).0) && !Take(r, t).1
  {
    hide CoreInv, Take, Newest, StreamWrite, Collected, Lockstep;
    FilledUpCollects(c, turns, r, t);
    FillUpTurn(r, t);
    TurnKeepsSteady(r, t);
    CollectedLength(c, turns + [t], Active(Take(r, t).0).poll, Take(r, t).0.ts.poll);
  }

  lemma NothingFilledUp(c: Core)
    requires WellFormed(c) && Steady(c) && c.tr.phase == FillUp && c.tr.fillUpCount == 0 && Active(c).state == Running
    ensures FilledUp(c, [], c)
  {
    assert Active(c).poll + Samples([], c.tr.active) == Active(c).poll;
    assert c.ts.poll + Times([]) == c.ts.poll;
  }

  /** The polls after the one that fired, up to the one that ends the fill-up: none announces anything. */
  lemma {:induction false} FillUpRun(c: Core, turns: seq<Turn>)
    requires CoreInv(c) && Steady(c) && TurnsFit(c, turns)
    requires c.tr.phase == FillUp && c.tr.mode != Continuous && c.tr.fillUpCount == 0
    requires Active(c).state == Running && c.cap < 0x1_0000_0000 && |turns| <= FillUpPolls(c.cap, |Active(c).poll|)
    ensures FilledUp(c, turns, After(c, turns))
    ensures forall k | 0 <= k < |turns| :: !Announces(c, turns, k)
  {
    hide CoreInv, Take, FilledUp, Announces, Steady;
    InvIsWellFormed(c);
    if turns == [] {
      NothingFilledUp(c);
    } else {
      var n := |turns| - 1;
      var front, t := turns[..n], turns[n];
      FillUpRun(c, front);
      FilledUpTurn(c, front, After(c, front), t);
      assert front + [t] == turns;
      LastTurn(c, turns);
      forall k | 0 <= k < n ensures !Announces(c, turns, k) {
        FirstTurns(c, turns, n, k);
      }
    }
  }

  lemma {:induction false} LastTurn(c: Core, turns: seq<Turn>)
    requires CoreInv(c) && TurnsFit(c, turns) && turns != []
    ensures var n := |turns| - 1;
            && TurnsFit(c, turns[..n]) && After(c, turns) == Take(After(c, turns[..n]), turns[n]).0
            && Announces(c, turns, n) == Take(After(c, turns[..n]), turns[n]).1
            && Found(c, turns, n) == Before(After(c, turns[..n]), turns[n])
  {
    hide CoreInv, Take, Before;
  }

  /** The window that was collected is out, or still waits behind the one before it. */
  ghost predicate OutOrWaiting(c: Core, r: Core, sent: bool, window: seq<real>, stamps: seq<Word>)
    requires c.tr.active < |c.chans|
  {
    && |r.chans| == |c.chans| && r.tr.active == c.tr.active
    && if sent
       then Active(r).swap == window && r.ts.swap == stamps && r.tr.hitSwap == c.tr.hit && r.tr.indexSwap == c.tr.index
       else && SameSetting(c, r) && r.tr.phase == CleanUp && Active(r).state != Running && !r.ts.running
            && Active(r).poll == window && r.ts.poll == stamps && Safe(r)
  }

  /** A poll in CLEANUP hands the full window over if it is in time, and leaves it as it is, all stopped, if not. */
  lemma CleanUpTick(c: Core, d: Due)
    requires CoreInv(c) && Safe(c) && |d.xs| == |c.chans| && c.tr.phase == CleanUp
    requires |Active(c).poll| == |c.ts.poll| == c.cap && c.ts.running == (Active(c).state == Running)
    ensures var (r, sent) := Tick(c, d.now, d.xs);
            && sent == InTime(c)
            && if c.ts.running
               then OutOrWaiting(c, r, sent, Newest(c.cap, Active(c).poll + [d.xs[c.tr.active]]),
                                 StreamWrite(c.cap, c.full, c.ts.poll, d.now))
               else OutOrWaiting(c, r, sent, Active(c).poll, c.ts.poll)
  {
    TickKeepsHold(c, d.now, d.xs);
    ActivePolled(c, d.xs);
    InvIsWellFormed(c);
    hide CoreInv, WellFormed, AnyToPack;
  }

  lemma CleanUpTurn(c: Core, t: Turn)
    requires CoreInv(c) && Safe(c) && |t.due.xs| == |c.chans| && c.tr.phase == CleanUp
    requires |Active(c).poll| == |c.ts.poll| == c.cap && c.ts.running == (Active(c).state == Running)
    ensures var (r, sent) := Take(c, t);
            && sent == InTime(Before(c, t))
            && if c.ts.running
               then OutOrWaiting(c, r, sent, Newest(c.cap, Active(c).poll + [t.due.xs[c.tr.active]]),
                                 StreamWrite(c.cap, c.full, c.ts.poll, t.due.now))
               else OutOrWaiting(c, r, sent, Active(c).poll, c.ts.poll)
  {
    PackingKeepsInv(c, t);
    InvIsWellFormed(c);
    hide CoreInv, Before, Tick, Newest, StreamWrite, Safe;
    CleanUpTick(Before(c, t), t.due);
  }

  /** The window that `turns` completed is full, and out or still waiting. */
  ghost predicate Captured(c: Core, turns: seq<Turn>, r: Core, sent: bool)
    requires c.tr.active < |c.chans| && TurnsFit(c, turns)
  {
    exists window, stamps ::
      && Collected(c, turns, window, stamps) && |window| == |stamps| == c.cap
      && OutOrWaiting(c, r, sent, window, stamps)
  }

  /** A window that waits is the same window after one more turn, out or still waiting. */
  lemma WaitingTurn(c: Core, turns: seq<Turn>, r: Core, t: Turn)
    requires c.tr.active < |c.chans| && TurnsFit(c, turns) && CoreInv(r) && |t.due.xs| == |c.chans| == |r.chans|
    requires Captured(c, turns, r, false)
    ensures Take(r, t).1 == InTime(Before(r, t)) && Captured(c, turns, Take(r, t).0, Take(r, t).1)
  {
    hide CoreInv, Take, Before, InTime, Collected;
    var window, stamps :|
      && Collected(c, turns, window, stamps) && |window| == |stamps| == c.cap
      && OutOrWaiting(c, r, false, window, stamps);
    CleanUpTurn(r, t);
    assert OutOrWaiting(c, Take(r, t).0, Take(r, t).1, window, stamps);
  }

  /** The poll after the fill-up. */
  lemma FirstChance(c: Core, turns: seq<Turn>, r: Core, t: Turn)
    requires CoreInv(c) && TurnsFit(c, turns) && |t.due.xs| == |c.chans|
    requires CoreInv(r) && FilledUp(c, turns, r) && |turns| == FillUpPolls(c.cap, |Active(c).poll|)
    ensures var (r', sent) := Take(r, t);
            sent == InTime(Before(r, t)) && TurnsFit(c, turns + [t]) && Captured(c, turns + [t], r', sent)
  {
    RunningInCleanUp(r);
    hide CoreInv, Take, Before, InTime, FillUpPolls, Samples, Times, Lockstep, Safe;
    InvIsWellFormed(c);
    CleanUpTurn(r, t);
    CollectedOneMore(c, turns, t, Active(r).poll, r.ts.poll);
  }

  /**
   From the state in which the trigger has just fired until a window is announced: nothing
   is before the fill-up is over, and then, as soon as the window before it is out of the
   way, the newest samples up to the poll after the fill-up are, however long that takes.
   */
  lemma {:induction false} WindowAfterTrigger(c: Core, turns: seq<Turn>)
    requires CoreInv(c) && Steady(c) && TurnsFit(c, turns)
    requires c.tr.phase == FillUp && c.tr.mode != Continuous && c.tr.fillUpCount == 0
    requires Active(c).state == Running && c.cap < 0x1_0000_0000 && |turns| > FillUpPolls(c.cap, |Active(c).poll|)
    requires forall k | 0 <= k < |turns| - 1 :: !Announces(c, turns, k)
    ensures var f, last := FillUpPolls(c.cap, |Active(c).poll|), |turns| - 1;
            && Announces(c, turns, last) == InTime(Found(c, turns, last))
            && Captured(c, turns[..f + 1], After(c, turns), Announces(c, turns, last))
    decreases |turns|
  {
    hide CoreInv, Take, Announces, InTime, Found, Before, FillUpPolls, FilledUp, Captured;
    InvIsWellFormed(c);
    var f, n := FillUpPolls(c.cap, |Active(c).poll|), |turns| - 1;
    var front, t := turns[..n], turns[n];
    LastTurn(c, turns);
    var r := After(c, front);
    if n == f {
      FillUpRun(c, front);
      FirstChance(c, front, r, t);
      assert front + [t] == turns == turns[..f + 1];
    } else {
      forall k | 0 <= k < n ensures Announces(c, front, k) == Announces(c, turns, k) {
        FirstTurns(c, turns, n, k);
      }
      WindowAfterTrigger(c, front);
      assert front[..f + 1] == turns[..f + 1];
      assert !Announces(c, turns, n - 1);
      WaitingTurn(c, turns[..f + 1], r, t);
    }
  }

  lemma RunningInCleanUp(c: Core)
    requires Lockstep(c) && c.tr.active < |c.chans| && Active(c).state == Running
    ensures c.ts.running && |c.ts.poll| == |Active(c).poll|
  {
  }

  /** The state in which a trigger has just fired at the poll `fire`. */
  ghost predicate JustFired(c: Core, fire: Due) {
    && CoreInv(c) && Steady(c) && |fire.xs| == |c.chans|
    && c.tr.phase == FillUp && c.tr.mode != Continuous && c.tr.fillUpCount == 0
    && c.tr.hit && c.tr.index == fire.now
    && var w := Active(c).poll;
    && Active(c).state == Running && w != [] && c.cap / 2 <= |w| == |c.ts.poll| <= c.cap
    && w[|w| - 1] == fire.xs[c.tr.active]
    && (c.full == OverwriteOldest ==> c.ts.poll[|w| - 1] == fire.now)
  }

  lemma FiringTick(c: Core, fire: Due)
    requires CoreInv(c) && Steady(c) && |fire.xs| == |c.chans| && c.tr.phase == Detecting && c.tr.mode != Continuous
    requires Active(c).state == Running && Tick(c, fire.now, fire.xs).0.tr.phase == FillUp
    ensures var f := Tick(c, fire.now, fire.xs).0;
            JustFired(f, fire) && f.cap == c.cap && f.full == c.full && f.tr.active == c.tr.active
            && |f.chans| == |c.chans|
  {
    FiresIff(c, fire);
    TickKeepsShape(c, fire);
    TickKeepsSteady(c, fire);
    InvIsWellFormed(c);
    hide Tick, Safe;
    var f := Tick(c, fire.now, fire.xs).0;
    assert Lockstep(f);
    assert f.chans[c.tr.active].state == Running;
  }

  /**
   Trigger placement: however the packer runs meanwhile, the next window announced after a
   trigger has the sample that fired at entry cap - 2 - F, and with a stream that overwrites
   its oldest entry the reported trigger time is the stamp of that same entry; if the window
   is too small for that, all of it was polled after the trigger. It is announced at the
   poll after the fill-up if the packer is in time.
   */
  lemma TriggerPlacement(c: Core, fire: Due, turns: seq<Turn>)
    requires JustFired(c, fire) && TurnsFit(c, turns) && c.cap < 0x1_0000_0000
    requires turns != [] && forall k | 0 <= k < |turns| - 1 :: !Announces(c, turns, k)
    ensures var last := |turns| - 1;
            && Announces(c, turns, last) ==
              (last >= FillUpPolls(c.cap, |Active(c).poll|) && InTime(Found(c, turns, last)))
            && (Announces(c, turns, last) ==> Placed(c, fire, turns, After(c, turns)))
  {
    InvIsWellFormed(c);
    assert c.cap <= |Active(c).poll| + FillUpPolls(c.cap, |Active(c).poll|) + 1;
    hide CoreInv, FillUpPolls, Announces, InTime, Found, After, Captured, Placed;
    var f := FillUpPolls(c.cap, |Active(c).poll|);
    if |turns| <= f {
      FillUpRun(c, turns);
    } else {
      WindowAfterTrigger(c, turns);
      if Announces(c, turns, |turns| - 1) {
        CapturedIsPlaced(c, fire, turns, After(c, turns));
      }
    }
  }

  /** Of a full window that ends `n` entries after `x`: where `x` is, or, if it is out, what the window is. */
  ghost predicate EndsAfter<T>(cap: nat, x: T, later: seq<T>, n: nat, window: seq<T>)
    requires n <= |later|
  {
    && |window| == cap
    && if n < cap then window[cap - 1 - n] == x else window == later[n - cap..n]
  }

  lemma NewestEndsAfter<T>(cap: nat, s: seq<T>, later: seq<T>, n: nat)
    requires s != [] && n <= |later| && cap <= |s| + n
    ensures EndsAfter(cap, s[|s| - 1], later, n, Newest(cap, s + later[..n]))
  {
  }

  /**
   Where the sample that fired is in the window `r` has just handed over, collected up to the poll
   after the fill-up.
   */
  ghost predicate Placed(c: Core, fire: Due, turns: seq<Turn>, r: Core)
    requires c.tr.active < |c.chans| && TurnsFit(c, turns) && |fire.xs| == |c.chans|
  {
    var n := FillUpPolls(c.cap, |Active(c).poll|) + 1;
    && n <= |turns| && r.tr.active == c.tr.active < |r.chans| && r.tr.hitSwap && r.tr.indexSwap == fire.now
    && EndsAfter(c.cap, fire.xs[c.tr.active], Samples(turns, c.tr.active), n, Active(r).swap)
    && (c.full == OverwriteOldest ==> EndsAfter(c.cap, fire.now, Times(turns), n, r.ts.swap))
  }

  lemma CapturedIsPlaced(c: Core, fire: Due, turns: seq<Turn>, r: Core)
    requires JustFired(c, fire) && TurnsFit(c, turns) && c.tr.active < |c.chans|
    requires var n := FillUpPolls(c.cap, |Active(c).poll|) + 1;
             n <= |turns| && c.cap <= |Active(c).poll| + n && Captured(c, turns[..n], r, true)
    ensures Placed(c, fire, turns, r)
  {
    hide CoreInv, FillUpPolls, Newest, Samples, Times, EndsAfter;
    var n, i := FillUpPolls(c.cap, |Active(c).poll|) + 1, c.tr.active;
    FirstSamples(turns, n, i);
    NewestEndsAfter(c.cap, Active(c).poll, Samples(turns, i), n);
    NewestEndsAfter(c.cap, c.ts.poll, Times(turns), n);
  }

  lemma FirstSamples(turns: seq<Turn>, n: nat, i: nat)
    requires n <= |turns| && forall k | 0 <= k < |turns| :: i < |turns[k].due.xs|
    ensures Samples(turns[..n], i) == Samples(turns, i)[..n] && Times(turns[..n]) == Times(turns)[..n]
  {
  }

  /**
   The sample that fired is in the window for every fill level at which a trigger can fire iff the
   window holds four.
   */
  lemma PlacementNeedsRoomForFour(cap: nat)
    requires cap >= 1
    ensures (forall used | 1 <= used <= cap && used >= cap / 2 :: FillUpPolls(cap, used) + 2 <= cap) <==> cap >= 4
  {
    if cap < 4 {
      assert FillUpPolls(cap, 1) + 2 > cap;
    }
  }

  // ---------------------------------------------------------------- cadence

  function Longer(cap: nat): nat {
    if cap < 2 then 2 else cap
  }

  /** Due polls until the next announcement, this one included, in continuous mode. */
  function Countdown(c: Core): nat
    requires c.tr.active < |c.chans|
  {
    match c.tr.phase
    case Paused => Longer(c.cap) + 2
    case Detecting => Longer(c.cap) + 1
    case FillUp => if |Active(c).poll| < c.cap then c.cap - |Active(c).poll| + 1 else 2
    case CleanUp => 1
    case Idle => 0
  }

  /** Continuous capture on its way: what every phase finds. */
  ghost predicate Cruising(c: Core) {
    CoreInv(c) && Steady(c) && OnItsWay(c)
  }

  ghost predicate OnItsWay(c: Core) {
    && c.tr.active < |c.chans| == |c.tr.saved| && c.tr.mode == Continuous
    && Active(c).state == (if c.tr.phase == Paused then Stopped else Running)
    && match c.tr.phase
       case Idle => false
       case Detecting => Active(c).poll == []
       case FillUp => Active(c).poll != [] && !c.tr.hit
       case CleanUp => |Active(c).poll| == c.cap && !c.tr.hit && c.tr.saved[c.tr.active]
       case Paused => c.tr.saved[c.tr.active]
  }

  ghost predicate CruisesTo(c: Core, c': Core, sent: bool)
    requires c.tr.active < |c.chans|
  {
    && OnItsWay(c') && c'.cap == c.cap && (sent <==> Countdown(c) == 1) && (sent ==> !c'.tr.hitSwap)
    && Countdown(c') == if sent then Longer(c.cap) + 2 else Countdown(c) - 1
  }

  /** The active channel after the samples of a poll. */
  lemma ActivePolled(c: Core, xs: seq<real>)
    requires c.tr.active < |c.chans| == |xs|
    ensures PollAll(c.cap, c.chans, xs)[c.tr.active] == ChanPoll(c.cap, Active(c), xs[c.tr.active])
  {
  }

  lemma CruisePaused(c: Core, d: Due)
    requires WellFormed(c) && OnItsWay(c) && |d.xs| == |c.chans| && c.tr.phase == Paused && Active(c).poll == []
    ensures var (c', sent) := Tick(c, d.now, d.xs); CruisesTo(c, c', sent)
  {
    ActivePolled(c, d.xs);
  }

  lemma CruiseDetecting(c: Core, d: Due)
    requires WellFormed(c) && OnItsWay(c) && |d.xs| == |c.chans| && c.tr.phase == Detecting
    ensures var (c', sent) := Tick(c, d.now, d.xs); CruisesTo(c, c', sent)
  {
    ActivePolled(c, d.xs);
  }

  lemma CruiseFillUp(c: Core, d: Due)
    requires WellFormed(c) && OnItsWay(c) && |d.xs| == |c.chans| && c.tr.phase == FillUp
    ensures var (c', sent) := Tick(c, d.now, d.xs); CruisesTo(c, c', sent)
  {
    ActivePolled(c, d.xs);
  }

  lemma CruiseCleanUp(c: Core, d: Due)
    requires WellFormed(c) && OnItsWay(c) && |d.xs| == |c.chans| && c.tr.phase == CleanUp
    requires |c.ts.poll| == c.cap && c.ts.running && InTime(c)
    ensures var (c', sent) := Tick(c, d.now, d.xs); CruisesTo(c, c', sent)
  {
    ActivePolled(c, d.xs);
  }

  lemma CruisingTick(c: Core, d: Due)
    requires Cruising(c) && InTime(c) && |d.xs| == |c.chans|
    ensures var (c', sent) := Tick(c, d.now, d.xs); CoreInv(c') && Steady(c') && CruisesTo(c, c', sent)
  {
    TickKeepsInv(c, d.now, d.xs);
    TickKeepsSteady(c, d);
    assert WellFormed(c) && (c.tr.phase == CleanUp ==> |c.ts.poll| == c.cap && c.ts.running);
    assert c.tr.phase == Paused ==> Active(c).poll == [];
    hide CoreInv, Steady, Tick, CruisesTo, WellFormed;
    match c.tr.phase
    case Paused => CruisePaused(c, d);
    case Detecting => CruiseDetecting(c, d);
    case FillUp => CruiseFillUp(c, d);
    case CleanUp => CruiseCleanUp(c, d);
    case Idle =>
  }

  lemma CruisingTurn(c: Core, t: Turn)
    requires Cruising(c) && |t.due.xs| == |c.chans| && c.tr.active < |Before(c, t).chans| && InTime(Before(c, t))
    ensures var (c', sent) := Take(c, t);
            && Cruising(c') && c'.cap == c.cap
            && (sent <==> Countdown(c) == 1) && (sent ==> !c'.tr.hitSwap)
            && Countdown(c') == if sent then Longer(c.cap) + 2 else Countdown(c) - 1
  {
    hide Before, CoreInv, Tick;
    PackingKeepsInv(c, t);
    InvIsWellFormed(c);
    InvIsWellFormed(Before(c, t));
    CruisingTick(Before(c, t), t.due);
  }

  /**
   Cadence: from any state of continuous capture, however the packer runs as long as it
   runs in time, poll number t announces a window, and one that is not marked as
   triggered, exactly if t is the countdown or a whole number of periods of
   max(cap, 2) + 2 polls later. After an activation the countdown is max(cap, 2) + 1.
   */
  lemma {:induction false} ContinuousCadence(c: Core, turns: seq<Turn>)
    requires Cruising(c) && TurnsFit(c, turns)
    requires forall k | 0 <= k < |turns| :: InTime(Found(c, turns, k))
    ensures var r := After(c, turns);
            Cruising(r) && r.cap == c.cap && Countdown(r) == (Countdown(c) - 1 - |turns|) % (Longer(c.cap) + 2) + 1
    ensures turns != [] ==>
              && (Announces(c, turns, |turns| - 1) <==> (|turns| - Countdown(c)) % (Longer(c.cap) + 2) == 0)
              && (Announces(c, turns, |turns| - 1) ==> !After(c, turns).tr.hitSwap)
  {
    hide Cruising, Take, CoreInv, InTime, Before, WellFormed, Found, Announces;
    var period := Longer(c.cap) + 2;
    CountdownInPeriod(c);
    if turns == [] {
      Remainder(Countdown(c) - 1, period, 0, Countdown(c) - 1);
    } else {
      var n := |turns| - 1;
      var front, t := turns[..n], turns[n];
      assert TurnsFit(c, front);
      forall k | 0 <= k < n ensures InTime(Found(c, front, k)) {
        FirstTurns(c, turns, n, k);
        assert InTime(Found(c, turns, k));
      }
      ContinuousCadence(c, front);
      var r := After(c, front);
      LastTurn(c, turns);
      CountdownInPeriod(r);
      assert InTime(Found(c, turns, n));
      CruisingTurn(r, t);
      var x := Countdown(c) - 1 - n;
      OneDown(x, period);
      Negated(x, period);
      assert -x == |turns| - Countdown(c);
    }
  }

  lemma CountdownInPeriod(c: Core)
    requires Cruising(c)
    ensures CoreInv(c) && WellFormed(c) && c.tr.active < |c.chans| && 1 <= Countdown(c) <= Longer(c.cap) + 2
  {
  }

  lemma ActivationCountdown(s: Scope, i: nat)
    requires Inv(s) && s.core.tr.mode == Continuous && i < |s.core.chans| && s.core.ts.held != Collecting
    requires SetChannelRunning(s, i).core.chans[s.core.tr.active].state == Running
    ensures Cruising(SetChannelRunning(s, i).core)
    ensures Countdown(SetChannelRunning(s, i).core) == Longer(s.core.cap) + 1
  {
    StartKeepsInv(s, i);
    var c := SetChan(s.core, i, ChanRun(s.core.chans[i]));
    if AllStopped(c.chans) {
      assert false;
    }
  }

  // -------------------------------------------------------------- remainders

  lemma Remainder(n: int, m: int, q: int, r: int)
    requires 0 <= r < m && n == q * m + r
    ensures n % m == r
  {
    var q', r' := n / m, n % m;
    assert n == q' * m + r';
    assert (q - q') * m == r' - r;
    if q - q' >= 1 {
      AtLeast(q - q', m);
    } else if q - q' <= -1 {
      AtLeast(q' - q, m);
    }
  }

  lemma AtLeast(k: int, m: int)
    requires k >= 1 && m > 0
    ensures k * m >= m
  {
  }

  lemma OneDown(x: int, m: int)
    requires m > 0
    ensures (x - 1) % m == if x % m == 0 then m - 1 else x % m - 1
  {
    var q, r := x / m, x % m;
    if r == 0 {
      assert x - 1 == (q - 1) * m + (m - 1);
      Remainder(x - 1, m, q - 1, m - 1);
    } else {
      Remainder(x - 1, m, q, r - 1);
    }
  }

  lemma Negated(x: int, m: int)
    requires m > 0
    ensures (-x) % m == 0 <==> x % m == 0
  {
    if x % m == 0 {
      assert -x == (-(x / m)) * m + 0;
      Remainder(-x, m, -(x / m), 0);
    }
    if (-x) % m == 0 {
      assert x == (-((-x) / m)) * m + 0;
      Remainder(x, m, -((-x) / m), 0);
    }
  }
}
