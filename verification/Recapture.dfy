/** From one captured window to the next: which channels run again, and that the trigger fires again. */
module Recapture {
  import opened Bytes
  import opened CaptureSpec
  import opened CaptureProofs
  import opened TriggerProofs

  // ---------------------------------------------------------------- paused

  /**
   A due poll in PAUSED, of whatever a window left behind: DETECTING follows if and only if the mode is
   not one-shot. Then exactly the channels run that are stopped and were remembered as running, the
   stamps run, every window is empty, and nothing is left of the last trigger.
   */
  lemma PausedPoll(c: Core, now: Word, xs: seq<real>)
    requires CoreInv(c) && c.tr.phase == Paused && |xs| == |c.chans|
    ensures var (r, sent) := Tick(c, now, xs);
            && !sent && |r.chans| == |c.chans|
            && (r.tr.phase == Detecting <==> c.tr.mode == Normal || c.tr.mode == Continuous)
            && (r.tr.phase != Detecting ==> r.tr.phase == Paused)
            && (r.tr.phase == Detecting ==>
                  && r.ts.running
                  && forall i | 0 <= i < |c.chans| ::
                       && (r.chans[i].state == Running <==> c.chans[i].state == Stopped && c.tr.saved[i])
                       && (r.chans[i].state != Running ==> r.chans[i].state == c.chans[i].state))
            && r.ts.poll == [] && (forall i | 0 <= i < |c.chans| :: r.chans[i].poll == [])
            && !r.tr.hit && r.tr.index == 0 && r.tr.fillUpCount == 0
            && r.tr.hitSwap == c.tr.hitSwap && r.tr.indexSwap == c.tr.indexSwap && r.tr.saved == c.tr.saved
  {
  }

  // ------------------------------------------- states from trigger to pause

  /** Since the trigger fired in `c`: the channels as they were, and once CLEANUP is reached remembered so. */
  ghost predicate Remembers(c: Core, r: Core) {
    && |r.chans| == |c.chans| == |r.tr.saved| && r.tr.mode == c.tr.mode && r.tr.active == c.tr.active
    && match r.tr.phase
       case FillUp => forall i | 0 <= i < |c.chans| :: r.chans[i].state == c.chans[i].state
       case CleanUp =>
         forall i | 0 <= i < |c.chans| ::
           && (r.tr.saved[i] <==> c.chans[i].state == Running)
           && (r.chans[i].state == c.chans[i].state || (c.chans[i].state == Running && r.chans[i].state == Stopped))
       case Paused =>
         forall i | 0 <= i < |c.chans| ::
           && (r.tr.saved[i] <==> c.chans[i].state == Running)
           && r.chans[i].state == if c.chans[i].state == Running then Stopped else c.chans[i].state
       case _ => false
  }

  lemma PolledStates(c: Core, now: Word, xs: seq<real>)
    requires |xs| == |c.chans|
    ensures forall i | 0 <= i < |c.chans| :: PollAll(c.cap, c.chans, xs)[i].state == c.chans[i].state
  {
  }

  lemma TickRemembers(c: Core, r: Core, now: Word, xs: seq<real>)
    requires WellFormed(r) && Remembers(c, r) && r.tr.phase != Paused && |xs| == |r.chans| && c.tr.mode != OneShot
    ensures var (r', sent) := Tick(r, now, xs); Remembers(c, r') && (sent <==> r'.tr.phase == Paused)
  {
    PolledStates(r, now, xs);
  }

  lemma TurnRemembers(c: Core, r: Core, t: Turn)
    requires CoreInv(r) && Remembers(c, r) && r.tr.phase != Paused && |t.due.xs| == |r.chans| && c.tr.mode != OneShot
    ensures var (r', sent) := Take(r, t); Remembers(c, r') && (sent <==> r'.tr.phase == Paused)
  {
    PackingKeepsInv(r, t);
    InvIsWellFormed(Before(r, t));
    assert Remembers(c, Before(r, t));
    hide CoreInv, Before, Tick, Remembers, WellFormed;
    TickRemembers(c, Before(r, t), t.due.now, t.due.xs);
  }

  /** Up to the announcement, whenever that is, and however the packer runs. */
  lemma {:induction false} CaptureRemembers(c: Core, turns: seq<Turn>)
    requires CoreInv(c) && TurnsFit(c, turns) && c.tr.phase == FillUp && c.tr.mode != OneShot
    requires forall k | 0 <= k < |turns| - 1 :: !Announces(c, turns, k)
    ensures var r := After(c, turns);
            Remembers(c, r) && (turns != [] && Announces(c, turns, |turns| - 1) <==> r.tr.phase == Paused)
  {
    if turns == [] {
      InvIsWellFormed(c);
    } else {
      var n := |turns| - 1;
      var front := turns[..n];
      assert TurnsFit(c, front);
      forall k | 0 <= k < n ensures Announces(c, front, k) == Announces(c, turns, k) {
        FirstTurns(c, turns, n, k);
      }
      LastTurn(c, turns);
      hide CoreInv, Remembers, Take, Announces, After;
      CaptureRemembers(c, front);
      assert After(c, front).tr.phase != Paused;
      TurnRemembers(c, After(c, front), turns[n]);
    }
  }

  /**
   After the announcement and one more due poll every channel is as it was when the trigger fired:
   those that ran run again, and no others.
   */
  lemma SameChannelsRunAgain(c: Core, turns: seq<Turn>, next: Turn)
    requires CoreInv(c) && TurnsFit(c, turns) && turns != [] && |next.due.xs| == |c.chans|
    requires c.tr.phase == FillUp && c.tr.mode != OneShot
    requires (forall k | 0 <= k < |turns| - 1 :: !Announces(c, turns, k)) && Announces(c, turns, |turns| - 1)
    ensures var r := Take(After(c, turns), next).0;
            && r.tr.phase == Detecting && !r.tr.hit && |r.chans| == |c.chans|
            && forall i | 0 <= i < |c.chans| :: r.chans[i].state == c.chans[i].state && r.chans[i].poll == []
  {
    CaptureRemembers(c, turns);
    var p := After(c, turns);
    PackingKeepsInv(p, next);
    hide Before, Tick, Announces, After;
    PausedPoll(Before(p, next), next.due.now, next.due.xs);
  }

  // --------------------------------------------------------- the next window

  /** Detecting in a mode that looks for an edge, with the active channel running. */
  ghost predicate Looking(c: Core) {
    && CoreInv(c) && Steady(c) && c.tr.phase == Detecting && c.tr.mode != Continuous && Active(c).state == Running
  }

  /** A state in which the trigger has fired and the fill-up begins. */
  ghost predicate Fired(c: Core) {
    && CoreInv(c) && Steady(c) && c.tr.phase == FillUp && c.tr.mode != Continuous && c.tr.fillUpCount == 0
    && Active(c).state == Running && c.tr.hit
  }

  lemma LookingTurn(c: Core, t: Turn)
    requires Looking(c) && |t.due.xs| == |c.chans|
    ensures var r := Take(c, t).0; var x := t.due.xs[c.tr.active];
            && |r.chans| == |c.chans| && r.cap == c.cap && r.tr.active == c.tr.active && r.tr.mode == c.tr.mode
            && r.tr.level == c.tr.level && r.tr.rising == c.tr.rising
            && (Fired(r) || (Looking(r) && Active(r).last == x && |Active(r).poll| == Min(c.cap, |Active(c).poll| + 1)))
            && (!Fired(r) ==> !(|Active(c).poll| + 1 >= c.cap / 2 && Crosses(c.tr, Active(c).last, x)))
  {
    PackingKeepsInv(c, t);
    TurnKeepsSteady(c, t);
    InvIsWellFormed(c);
    assert c.cap >= 1 && |Active(c).poll| <= c.cap;
    hide Before, Tick, CoreInv, Steady, Lockstep, WellFormed;
    FiresIff(Before(c, t), t.due);
  }

  function Min(a: nat, b: nat): nat {
    if a < b then a else b
  }

  ghost predicate FiresWithin(c: Core, turns: seq<Turn>)
    requires CoreInv(c) && TurnsFit(c, turns)
  {
    exists k | 0 < k <= |turns| :: Fired(After(c, turns[..k]))
  }

  /** After `n` polls without firing, of which the last brought the sample `x`. */
  ghost predicate StillLooking(c: Core, n: nat, x: real, r: Core)
    requires c.tr.active < |c.chans|
  {
    && Looking(r) && r.cap == c.cap && r.tr.active == c.tr.active && |r.chans| == |c.chans|
    && r.tr.level == c.tr.level && r.tr.rising == c.tr.rising && r.tr.mode == c.tr.mode
    && |Active(r).poll| == Min(c.cap, |Active(c).poll| + n) && Active(r).last == x
  }

  function LastSample(c: Core, turns: seq<Turn>): real
    requires c.tr.active < |c.chans| && forall k | 0 <= k < |turns| :: |turns[k].due.xs| == |c.chans|
  {
    if turns == [] then Active(c).last else turns[|turns| - 1].due.xs[c.tr.active]
  }

  lemma StillLookingTurn(c: Core, n: nat, x: real, r: Core, t: Turn)
    requires c.tr.active < |c.chans| == |t.due.xs| && StillLooking(c, n, x, r)
    ensures CoreInv(r)
    ensures var r' := Take(r, t).0; Fired(r') || StillLooking(c, n + 1, t.due.xs[c.tr.active], r')
  {
    LookingTurn(r, t);
    hide CoreInv, Steady, Take, Fired;
  }

  /** Polls of a detecting trigger: either it has fired on the way, or the window has grown with them. */
  lemma {:induction false} LookingTurns(c: Core, turns: seq<Turn>)
    requires Looking(c) && TurnsFit(c, turns)
    ensures c.tr.active < |c.chans|
    ensures FiresWithin(c, turns) || StillLooking(c, |turns|, LastSample(c, turns), After(c, turns))
  {
    InvIsWellFormed(c);
    if turns == [] {
      assert |Active(c).poll| <= c.cap;
    } else {
      var n := |turns| - 1;
      var front, t := turns[..n], turns[n];
      LastTurn(c, turns);
      hide CoreInv, Steady, Take, After, StillLooking, Looking, Fired;
      LookingTurns(c, front);
      if FiresWithin(c, front) {
        FiresWithinMore(c, turns);
      } else {
        StillLookingTurn(c, n, LastSample(c, front), After(c, front), t);
        assert turns[..|turns|] == turns;
      }
    }
  }

  lemma FiresWithinMore(c: Core, turns: seq<Turn>)
    requires CoreInv(c) && TurnsFit(c, turns) && turns != [] && TurnsFit(c, turns[..|turns| - 1])
    requires FiresWithin(c, turns[..|turns| - 1])
    ensures FiresWithin(c, turns)
  {
    hide CoreInv, After, Fired;
    var front := turns[..|turns| - 1];
    var k :| 0 < k <= |front| && Fired(After(c, front[..k]));
    assert front[..k] == turns[..k];
  }

  /**
   The last sample of `before` is on one side of the level and that of `after` on the other, in the
   configured direction.
   */
  predicate PassesBetween(tr: Trig, before: Turn, after: Turn)
    requires tr.active < |before.due.xs| && tr.active < |after.due.xs|
  {
    var x, y := before.due.xs[tr.active], after.due.xs[tr.active];
    if tr.rising then x < tr.level <= y else y <= tr.level < x
  }

  /**
   From an empty window: polls that fill half of it and then pass the level fire the trigger, at or before
   the poll that is past it.
   */
  lemma FiresFromEmpty(c: Core, fill: seq<Turn>, pass: seq<Turn>)
    requires Looking(c) && TurnsFit(c, fill) && TurnsFit(c, pass)
    requires fill != [] && |fill| >= c.cap / 2 && pass != []
    requires c.tr.active < |c.chans| && PassesBetween(c.tr, fill[|fill| - 1], pass[|pass| - 1])
    ensures FiresWithin(c, fill) || (TurnsFit(After(c, fill), pass) && FiresWithin(After(c, fill), pass))
  {
    LookingTurns(c, fill);
    if !FiresWithin(c, fill) {
      var r := After(c, fill);
      HalfFullFires(c, |fill|, fill[|fill| - 1].due.xs[c.tr.active], r, pass);
    }
  }

  lemma HalfFullFires(c: Core, n: nat, x: real, r: Core, pass: seq<Turn>)
    requires WellFormed(c) && TurnsFit(c, pass) && n >= c.cap / 2 && pass != [] && StillLooking(c, n, x, r)
    requires var y := pass[|pass| - 1].due.xs[c.tr.active]; if c.tr.rising then x < c.tr.level <= y
                                                            else y <= c.tr.level < x
    ensures CoreInv(r) && TurnsFit(r, pass) && FiresWithin(r, pass)
  {
    assert TurnsFit(r, pass);
    InvIsWellFormed(r);
    NoCrossingIsMissed(r, pass);
    var k :| 0 < k <= |pass| && After(r, pass[..k]).tr.phase == FillUp;
    FirstFired(r, pass, k);
  }

  lemma FiresWithinFirst(c: Core, turns: seq<Turn>, k: nat)
    requires CoreInv(c) && TurnsFit(c, turns) && k <= |turns| && TurnsFit(c, turns[..k]) && FiresWithin(c, turns[..k])
    ensures FiresWithin(c, turns)
  {
    hide CoreInv, After, Fired;
    var j :| 0 < j <= k && Fired(After(c, turns[..k][..j]));
    assert turns[..k][..j] == turns[..j];
  }

  /** When DETECTING has become FILLUP, the trigger fired at some poll on the way. */
  lemma FirstFired(c: Core, turns: seq<Turn>, k: nat)
    requires Looking(c) && TurnsFit(c, turns) && 0 < k <= |turns| && After(c, turns[..k]).tr.phase == FillUp
    ensures FiresWithin(c, turns)
  {
    assert TurnsFit(c, turns[..k]) && CoreInv(c);
    hide CoreInv, Steady, After, FiresWithin;
    LookingTurns(c, turns[..k]);
    FiresWithinFirst(c, turns, k);
  }

  /** Once fired, and if the packer is in time, a window is announced by the poll after the fill-up at the latest. */
  lemma FiredIsAnnounced(c: Core, turns: seq<Turn>)
    requires Fired(c) && TurnsFit(c, turns) && c.cap < 0x1_0000_0000
    requires |turns| > FillUpPolls(c.cap, |Active(c).poll|) && InTime(Found(c, turns, |turns| - 1))
    ensures exists k | 0 <= k < |turns| :: Announces(c, turns, k)
  {
    if forall k | 0 <= k < |turns| :: !Announces(c, turns, k) {
      WindowAfterTrigger(c, turns);
      assert false;
    }
  }

  /**
   Normal mode captures again and again: after an announcement and the poll that ends the pause, samples
   that fill half a window and pass the level fire the trigger, and then a further window is announced
   as soon as the packer is in time.
   */
  lemma NormalModeCapturesAgain(c: Core, turns: seq<Turn>, next: Turn, fill: seq<Turn>, pass: seq<Turn>)
    requires CoreInv(c) && Steady(c) && TurnsFit(c, turns) && turns != [] && |next.due.xs| == |c.chans|
    requires c.tr.phase == FillUp && c.tr.mode == Normal && Active(c).state == Running
    requires (forall k | 0 <= k < |turns| - 1 :: !Announces(c, turns, k)) && Announces(c, turns, |turns| - 1)
    requires TurnsFit(c, fill) && TurnsFit(c, pass) && fill != [] && |fill| >= c.cap / 2 && pass != []
    requires c.tr.active < |c.chans| && PassesBetween(c.tr, fill[|fill| - 1], pass[|pass| - 1])
    ensures |After(c, turns).chans| == |c.chans|
    ensures var d := Take(After(c, turns), next).0;
            && Looking(d) && TurnsFit(d, fill)
            && (FiresWithin(d, fill) || (TurnsFit(After(d, fill), pass) && FiresWithin(After(d, fill), pass)))
  {
    var p, d := After(c, turns), Take(After(c, turns), next).0;
    CaptureKeepsSetting(c, turns);
    SameChannelsRunAgain(c, turns, next);
    TurnKeepsSteady(p, next);
    PauseKeepsSetting(p, next);
    assert Looking(d);
    hide CoreInv, Steady, Take, Announces, Looking, FiresWithin, After;
    FiresFromEmpty(d, fill, pass);
  }

  /** What is configured stays, and lockstep and safety do. */
  lemma {:induction false} CaptureKeepsSetting(c: Core, turns: seq<Turn>)
    requires CoreInv(c) && Steady(c) && TurnsFit(c, turns)
    ensures var r := After(c, turns); Steady(r) && SameShape(c, r)
  {
    if turns != [] {
      var front := turns[..|turns| - 1];
      assert TurnsFit(c, front);
      LastTurn(c, turns);
      CaptureKeepsSetting(c, front);
      TurnKeepsSteady(After(c, front), turns[|turns| - 1]);
      PauseKeepsSetting(After(c, front), turns[|turns| - 1]);
      hide CoreInv, Steady, Take, After;
    } else {
      InvIsWellFormed(c);
    }
  }

  lemma PauseKeepsSetting(c: Core, t: Turn)
    requires CoreInv(c) && |t.due.xs| == |c.chans|
    ensures SameShape(c, Take(c, t).0)
  {
    PackingKeepsInv(c, t);
    InvIsWellFormed(Before(c, t));
    hide CoreInv, Tick, Before, WellFormed;
  }

  // -------------------------------------------------- a clear in the fill-up

  /** The fill-up after a trigger, with nothing of it left. */
  ghost predicate FillsFromNothing(c: Core) {
    && CoreInv(c) && Steady(c) && c.tr.phase == FillUp && c.tr.mode != Continuous && c.tr.fillUpCount == 0
    && c.tr.active < |c.chans| && Active(c).state == Running && Active(c).poll == [] && c.ts.poll == []
    && !c.tr.hit && c.tr.index == 0
  }

  lemma ClearedFillUp(s: Scope)
    requires Inv(s) && Valid(s) && s.core.tr.phase == FillUp && s.core.tr.mode != Continuous
    requires Active(s.core).state == Running && s.core.ts.held != Collecting
    ensures var c := Apply(s, EvClear).0.core;
            FillsFromNothing(c) && |c.chans| == |s.core.chans| && c.cap == s.core.cap && c.tr.active == s.core.tr.active
  {
    ClearKeepsInv(s);
  }

  /** `r` has just been left with the newest of `turns`, not marked as triggered. */
  predicate Untriggered(c: Core, turns: seq<Turn>, r: Core)
    requires c.tr.active < |c.chans| && TurnsFit(c, turns)
  {
    && |turns| > c.cap && |r.chans| == |c.chans| && r.tr.active == c.tr.active
    && !r.tr.hitSwap && r.tr.indexSwap == 0
    && |Active(r).swap| == c.cap
    && forall k | 0 <= k < c.cap :: Active(r).swap[k] == turns[k + 1].due.xs[c.tr.active]
  }

  lemma CapturedFromNothing(c: Core, turns: seq<Turn>, r: Core)
    requires c.tr.active < |c.chans| && TurnsFit(c, turns) && Active(c).poll == [] && 1 <= c.cap < |turns|
    requires Captured(c, turns[..c.cap + 1], r, true) && !c.tr.hit && c.tr.index == 0
    ensures Untriggered(c, turns, r)
  {
    var n := c.cap + 1;
    var window, stamps :|
      TriggerProofs.Collected(c, turns[..n], window, stamps) && |window| == |stamps| == c.cap
      && OutOrWaiting(c, r, true, window, stamps);
    FirstSamples(turns, n, c.tr.active);
    assert [] + Samples(turns[..n], c.tr.active) == Samples(turns[..n], c.tr.active);
  }

  lemma NextFromNothing(c: Core, turns: seq<Turn>)
    requires FillsFromNothing(c) && TurnsFit(c, turns) && c.cap < 0x1_0000_0000 && |turns| > c.cap
    requires forall k | 0 <= k < |turns| - 1 :: !Announces(c, turns, k)
    ensures var last := |turns| - 1;
            && Announces(c, turns, last) == InTime(Found(c, turns, last))
            && (Announces(c, turns, last) ==> Untriggered(c, turns, After(c, turns)))
  {
    InvIsWellFormed(c);
    assert FillUpPolls(c.cap, 0) == c.cap;
    WindowAfterTrigger(c, turns);
    hide CoreInv, Steady, Announces, After, InTime, Found, Captured, Untriggered;
    if Announces(c, turns, |turns| - 1) {
      CapturedFromNothing(c, turns, After(c, turns));
    }
  }

  /**
   A clear after the trigger has fired takes back what it found, but not that a window is to follow: the next
   one announced is that of the `cap` polls after the first since the clear, not marked as triggered, and at
   the last of them or, if the packer is late, as soon as it is in time.
   */
  lemma {:induction false} ClearInFillUp(s: Scope, turns: seq<Turn>)
    requires Inv(s) && Valid(s) && s.core.tr.phase == FillUp && s.core.tr.mode != Continuous
    requires Active(s.core).state == Running && s.core.ts.held != Collecting && s.core.cap < 0x1_0000_0000
    requires TurnsFit(s.core, turns) && |turns| > s.core.cap
    ensures var c, last := Apply(s, EvClear).0.core, |turns| - 1;
            && FillsFromNothing(c) && TurnsFit(c, turns)
            && ((forall k | 0 <= k < last :: !Announces(c, turns, k)) ==>
                  && Announces(c, turns, last) == InTime(Found(c, turns, last))
                  && (Announces(c, turns, last) ==> Untriggered(c, turns, After(c, turns))))
  {
    var c, last := Apply(s, EvClear).0.core, |turns| - 1;
    ClearedFillUp(s);
    assert TurnsFit(c, turns);
    hide FillsFromNothing, CoreInv, Apply, Announces, InTime, Found, Untriggered, After;
    if forall k | 0 <= k < last :: !Announces(c, turns, k) {
      NextFromNothing(c, turns);
    }
  }
}
