/** What every channel collects, and not only the one that the trigger watches. */
module Windows {
  import opened Bytes
  import opened CaptureSpec
  import opened CaptureProofs
  import opened TriggerProofs
  import F = Fields

  /** Of old and new samples the newest `cap`, in order. */
  predicate KeptOf(cap: nat, all: seq<real>, kept: seq<real>) {
    kept == if |all| <= cap then all else all[|all| - cap..]
  }

  /**
   One due poll and every channel: a running channel gets the sample with its own number, any other
   keeps its window, and when a window is announced every channel's is handed over and a new one begun.
   */
  lemma TickCollects(c: Core, now: Word, xs: seq<real>, i: nat)
    requires CoreInv(c) && |xs| == |c.chans| && i < |c.chans|
    ensures var (c', sent) := Tick(c, now, xs); var old_, new_ := c.chans[i], c'.chans[i];
            && (old_.state == Running ==> KeptOf(c.cap, old_.poll + [xs[i]], if sent then new_.swap else new_.poll))
            && (old_.state != Running ==> (if sent then new_.swap else new_.poll) == old_.poll)
            && (if sent then new_.poll == [] else new_.swap == old_.swap)
            && new_.last == if old_.state == Running then xs[i] else old_.last
  {
    var p := c.(ts := Stamp(c.cap, c.full, c.ts, now), chans := PollAll(c.cap, c.chans, xs));
    assert WellFormed(c) && p.chans[i] == ChanPoll(c.cap, c.chans[i], xs[i]);
    StampAndPollKeepInv(c, now, xs);
    assert WellFormed(p);
    RunKeepsChannel(p, i);
  }

  lemma RunKeepsChannel(c: Core, i: nat)
    requires WellFormed(c) && i < |c.chans|
    ensures var (c', sent) := TriggerRun(c); var old_, new_ := c.chans[i], c'.chans[i];
            && new_.last == old_.last
            && (if sent then new_.swap == old_.poll && new_.poll == []
                else new_.swap == old_.swap && new_.poll == old_.poll)
  {
  }

  // ------------------------------------------------------------- over turns

  lemma PackKeepsWindow(c: Core, t: Turn, i: nat)
    requires CoreInv(c) && i < |c.chans|
    ensures var b := Before(c, t);
            && CoreInv(b) && |b.chans| == |c.chans| && b.cap == c.cap
            && b.chans[i].poll == c.chans[i].poll && b.chans[i].state == c.chans[i].state
  {
    PackingKeepsInv(c, t);
  }

  /** A channel that runs at every poll, with no window announced before the last. */
  ghost predicate RunsThroughout(c: Core, turns: seq<Turn>, i: nat)
    requires CoreInv(c) && TurnsFit(c, turns) && i < |c.chans|
  {
    && (forall k | 0 <= k < |turns| :: After(c, turns[..k]).chans[i].state == Running)
    && (forall k | 0 <= k < |turns| - 1 :: !Announces(c, turns, k))
  }

  /** One turn and a running channel. */
  lemma TurnCollects(c: Core, t: Turn, i: nat)
    requires CoreInv(c) && |t.due.xs| == |c.chans| && i < |c.chans| && c.chans[i].state == Running
    ensures var (r, sent) := Take(c, t);
            && |r.chans| == |c.chans| && r.cap == c.cap
            && KeptOf(c.cap, c.chans[i].poll + [t.due.xs[i]], if sent then r.chans[i].swap else r.chans[i].poll)
  {
    PackKeepsWindow(c, t, i);
    InvIsWellFormed(Before(c, t));
    TickCollects(Before(c, t), t.due.now, t.due.xs, i);
    hide CoreInv, Tick, Before, KeptOf, WellFormed;
  }

  /** The window of channel `i`, or the swap buffer if the last turn announced one. */
  ghost function Collected(c: Core, turns: seq<Turn>, i: nat): seq<real>
    requires CoreInv(c) && TurnsFit(c, turns) && i < |c.chans|
  {
    if turns != [] && Announces(c, turns, |turns| - 1) then After(c, turns).chans[i].swap
    else After(c, turns).chans[i].poll
  }

  /**
   Of a channel that runs throughout, the window, or at an announcement the swap buffer, is the newest of
   what it had and of the samples with its own number, however the packer runs.
   */
  lemma {:induction false} WindowOverTurns(c: Core, turns: seq<Turn>, i: nat)
    requires CoreInv(c) && TurnsFit(c, turns) && i < |c.chans| && RunsThroughout(c, turns, i)
    ensures After(c, turns).cap == c.cap
    ensures KeptOf(c.cap, c.chans[i].poll + Samples(turns, i), Collected(c, turns, i))
  {
    if turns == [] {
      NothingCollected(c, i);
      assert Samples(turns, i) == [];
    } else {
      var front := turns[..|turns| - 1];
      FrontRuns(c, turns, i);
      assert Collected(c, front, i) == After(c, front).chans[i].poll;
      hide CoreInv, KeptOf, RunsThroughout, Announces, After, Collected;
      WindowOverTurns(c, front, i);
      CollectedOneTurnMore(c, turns, i);
    }
  }

  lemma LastCollected(c: Core, turns: seq<Turn>, i: nat)
    requires CoreInv(c) && TurnsFit(c, turns) && i < |c.chans| && turns != []
    ensures var n := |turns| - 1;
            && TurnsFit(c, turns[..n])
            && var (r, sent) := Take(After(c, turns[..n]), turns[n]);
               After(c, turns) == r && Collected(c, turns, i) == if sent then r.chans[i].swap else r.chans[i].poll
  {
    LastTurn(c, turns);
    hide CoreInv, Take, Announces, After;
  }

  lemma SampleAdded(turns: seq<Turn>, i: nat)
    requires turns != [] && forall k | 0 <= k < |turns| :: i < |turns[k].due.xs|
    ensures var n := |turns| - 1; Samples(turns, i) == Samples(turns[..n], i) + [turns[n].due.xs[i]]
  {
  }

  lemma CollectedOneTurnMore(c: Core, turns: seq<Turn>, i: nat)
    requires CoreInv(c) && TurnsFit(c, turns) && i < |c.chans| && turns != [] && TurnsFit(c, turns[..|turns| - 1])
    requires var r := After(c, turns[..|turns| - 1]);
             && r.chans[i].state == Running && r.cap == c.cap
             && KeptOf(c.cap, c.chans[i].poll + Samples(turns[..|turns| - 1], i), r.chans[i].poll)
    ensures After(c, turns).cap == c.cap
    ensures KeptOf(c.cap, c.chans[i].poll + Samples(turns, i), Collected(c, turns, i))
  {
    LastCollected(c, turns, i);
    SampleAdded(turns, i);
    hide CoreInv, Take, KeptOf, After, Collected, TurnsFit, Samples;
    var n := |turns| - 1;
    var r := After(c, turns[..n]);
    TurnCollects(r, turns[n], i);
    Grown(c.cap, c.chans[i].poll, Samples(turns[..n], i), turns[n].due.xs[i], r.chans[i].poll, Collected(c, turns, i));
  }

  lemma Grown(cap: nat, old_: seq<real>, xs: seq<real>, x: real, kept: seq<real>, kept': seq<real>)
    requires KeptOf(cap, old_ + xs, kept) && KeptOf(cap, kept + [x], kept')
    ensures KeptOf(cap, old_ + (xs + [x]), kept')
  {
    KeptOneMore(cap, old_ + xs, kept, x, kept');
    assert old_ + xs + [x] == old_ + (xs + [x]);
  }

  lemma NothingCollected(c: Core, i: nat)
    requires CoreInv(c) && i < |c.chans|
    ensures After(c, []).cap == c.cap && KeptOf(c.cap, c.chans[i].poll + [], Collected(c, [], i))
  {
    assert WellFormed(c) && c.chans[i].poll + [] == c.chans[i].poll;
  }

  lemma KeptOneMore(cap: nat, all: seq<real>, kept: seq<real>, x: real, kept': seq<real>)
    requires KeptOf(cap, all, kept) && KeptOf(cap, kept + [x], kept')
    ensures KeptOf(cap, all + [x], kept')
  {
  }

  lemma FrontRuns(c: Core, turns: seq<Turn>, i: nat)
    requires CoreInv(c) && TurnsFit(c, turns) && i < |c.chans| && RunsThroughout(c, turns, i) && turns != []
    ensures var n := |turns| - 1;
            && TurnsFit(c, turns[..n]) && RunsThroughout(c, turns[..n], i)
            && After(c, turns[..n]).chans[i].state == Running
            && (n > 0 ==> !Announces(c, turns[..n], n - 1))
  {
    hide CoreInv, After;
    var n := |turns| - 1;
    var front := turns[..n];
    forall k | 0 <= k < n ensures front[..k] == turns[..k] && Announces(c, front, k) == Announces(c, turns, k) {
      FirstTurns(c, turns, n, k);
    }
  }

  // ------------------------------------------------------------ over events

  /** The samples of channel `i` at the due polls of a run. */
  ghost function DueSamples(s: Scope, es: seq<Event>, i: nat): seq<real>
    requires Inv(s) && AllFit(|s.core.chans|, es) && i < |s.core.chans|
  {
    if es == [] then []
    else
      var front, e := es[..|es| - 1], es[|es| - 1];
      DueSamples(s, front, i) + if F.Due(Final(s, front), e) then [e.xs[i]] else []
  }

  /** What a due poll with the sample `x` makes of a channel, and of its buffers if a window is announced. */
  predicate Polled(cap: nat, was: Chan, x: real, now: Chan, sent: bool) {
    && (was.state == Running ==> KeptOf(cap, was.poll + [x], if sent then now.swap else now.poll))
    && (was.state != Running ==> (if sent then now.swap else now.poll) == was.poll)
  }

  lemma TickPolls(c: Core, now: Word, xs: seq<real>, i: nat)
    requires CoreInv(c) && |xs| == |c.chans| && i < |c.chans|
    ensures WellFormed(c)
    ensures var (c', sent) := Tick(c, now, xs);
            |c'.chans| == |c.chans| && Polled(c.cap, c.chans[i], xs[i], c'.chans[i], sent)
  {
    assert WellFormed(c);
    TickCollects(c, now, xs, i);
    hide Tick, CoreInv, WellFormed, KeptOf;
  }

  /** One poll of the scope and one channel's window. */
  lemma PollCollects(s: Scope, now: Word, xs: seq<real>, i: nat)
    requires Inv(s) && |xs| == |s.core.chans| && i < |s.core.chans|
    ensures Valid(s)
    ensures var (s', sent) := ScopePoll(s, now, xs);
            && |s'.core.chans| == |s.core.chans| && (sent ==> F.Due(s, EvPoll(now, xs)))
            && if F.Due(s, EvPoll(now, xs)) then Polled(s.core.cap, s.core.chans[i], xs[i], s'.core.chans[i], sent)
               else s'.core.chans[i].poll == s.core.chans[i].poll
  {
    TickPolls(s.core, now, xs, i);
    DueIff(s, now, xs);
    hide Tick, CoreInv, WellFormed, Polled, F.Due, Eligible;
  }

  lemma DueIff(s: Scope, now: Word, xs: seq<real>)
    ensures F.Due(s, EvPoll(now, xs)) <==> s.ready && Eligible(s.core.ts, now)
  {
  }

  lemma CommandKeepsWindow(s: Scope, e: Event, i: nat)
    requires Inv(s) && i < |s.core.chans| && !e.EvPoll? && !Discards(s, e)
    ensures Valid(s)
    ensures var (s', o) := Apply(s, e);
            !o.Sent? && |s'.core.chans| == |s.core.chans| && s'.core.chans[i].poll == s.core.chans[i].poll
  {
  }

  /** One event and the window of a running channel. */
  lemma EventCollects(s: Scope, e: Event, i: nat)
    requires Inv(s) && Valid(s) && Fits(s, e) && i < |s.core.chans| && !Discards(s, e)
             && s.core.chans[i].state == Running
    ensures var (s', o) := Apply(s, e); var kept := if o.Sent? then s'.core.chans[i].swap else s'.core.chans[i].poll;
            && |s'.core.chans| == |s.core.chans| && (o.Sent? ==> F.Due(s, e))
            && if F.Due(s, e) then KeptOf(s.core.cap, s.core.chans[i].poll + [e.xs[i]], kept)
               else kept == s.core.chans[i].poll
  {
    if e.EvPoll? {
      PollCollects(s, e.now, e.xs, i);
      hide ScopePoll, CoreInv, WellFormed, KeptOf, F.Due;
    } else {
      CommandKeepsWindow(s, e, i);
      hide Apply, CoreInv, WellFormed, KeptOf;
    }
  }

  /** A channel that runs at every event, none of which discards windows and none before the last announces one. */
  ghost predicate RunsInEvents(s: Scope, es: seq<Event>, i: nat)
    requires Inv(s) && AllFit(|s.core.chans|, es) && i < |s.core.chans|
  {
    forall k | 0 <= k < |es| ::
      var r := Final(s, es[..k]);
      && r.core.chans[i].state == Running && !Discards(r, es[k]) && Valid(r) && Fits(r, es[k])
      && (k < |es| - 1 ==> !Apply(r, es[k]).1.Sent?)
  }

  /** The window of channel `i`, or the swap buffer if the last event announced one. */
  ghost function CollectedBy(s: Scope, es: seq<Event>, i: nat): seq<real>
    requires Inv(s) && AllFit(|s.core.chans|, es) && i < |s.core.chans|
  {
    if LastSends(s, es) then Final(s, es).core.chans[i].swap else Final(s, es).core.chans[i].poll
  }

  /** The same over any run of events. */
  lemma {:induction false} WindowOverEvents(s: Scope, es: seq<Event>, i: nat)
    requires Inv(s) && AllFit(|s.core.chans|, es) && i < |s.core.chans| && RunsInEvents(s, es, i)
    ensures KeptOf(s.core.cap, s.core.chans[i].poll + DueSamples(s, es, i), CollectedBy(s, es, i))
  {
    if es == [] {
      assert WellFormed(s.core);
      assert s.core.chans[i].poll + DueSamples(s, es, i) == s.core.chans[i].poll;
    } else {
      var front := es[..|es| - 1];
      FrontRunsInEvents(s, es, i);
      assert CollectedBy(s, front, i) == Final(s, front).core.chans[i].poll;
      hide Inv, KeptOf, AllFit, RunsInEvents, Final, CollectedBy, LastSends, DueSamples;
      WindowOverEvents(s, front, i);
      CollectedOneEventMore(s, es, i);
    }
  }

  lemma LastCollectedBy(s: Scope, es: seq<Event>, i: nat)
    requires Inv(s) && AllFit(|s.core.chans|, es) && i < |s.core.chans| && es != []
    ensures var n := |es| - 1;
            && AllFit(|s.core.chans|, es[..n])
            && var r := Final(s, es[..n]);
               && Valid(r) && Fits(r, es[n])
               && var (r', o) := Apply(r, es[n]);
                  && Final(s, es) == r' && |r'.core.chans| == |s.core.chans|
                  && CollectedBy(s, es, i) == (if o.Sent? then r'.core.chans[i].swap else r'.core.chans[i].poll)
                  && DueSamples(s, es, i) ==
                     DueSamples(s, es[..n], i) + if F.Due(r, es[n]) then [es[n].xs[i]] else []
  {
    FinalSnoc(s, es);
    hide Inv, Apply, Valid;
  }

  lemma CollectedOneEventMore(s: Scope, es: seq<Event>, i: nat)
    requires Inv(s) && AllFit(|s.core.chans|, es) && i < |s.core.chans| && es != []
    requires AllFit(|s.core.chans|, es[..|es| - 1])
    requires var r := Final(s, es[..|es| - 1]);
             && r.core.chans[i].state == Running && !Discards(r, es[|es| - 1])
             && KeptOf(s.core.cap, s.core.chans[i].poll + DueSamples(s, es[..|es| - 1], i), r.core.chans[i].poll)
    ensures KeptOf(s.core.cap, s.core.chans[i].poll + DueSamples(s, es, i), CollectedBy(s, es, i))
  {
    LastCollectedBy(s, es, i);
    hide Inv, Apply, KeptOf, Discards, Valid, AllFit, Final, CollectedBy, DueSamples;
    var n := |es| - 1;
    var r, xs := Final(s, es[..n]), DueSamples(s, es[..n], i);
    EventCollects(r, es[n], i);
    if F.Due(r, es[n]) {
      Grown(s.core.cap, s.core.chans[i].poll, xs, es[n].xs[i], r.core.chans[i].poll, CollectedBy(s, es, i));
    } else {
      assert xs + [] == xs;
    }
  }

  /** The last event of the run announces a window. */
  ghost predicate LastSends(s: Scope, es: seq<Event>)
    requires Inv(s) && AllFit(|s.core.chans|, es)
  {
    es != [] && (FinalSnoc(s, es); Apply(Final(s, es[..|es| - 1]), es[|es| - 1]).1.Sent?)
  }

  lemma FrontRunsInEvents(s: Scope, es: seq<Event>, i: nat)
    requires Inv(s) && AllFit(|s.core.chans|, es) && i < |s.core.chans| && RunsInEvents(s, es, i) && es != []
    ensures var n := |es| - 1; var r := Final(s, es[..n]);
            && AllFit(|s.core.chans|, es[..n]) && RunsInEvents(s, es[..n], i) && !LastSends(s, es[..n])
            && r.core.chans[i].state == Running && !Discards(r, es[n])
  {
    hide Inv, Apply, Discards, Final;
    var n := |es| - 1;
    var front := es[..n];
    assert AllFit(|s.core.chans|, front);
    forall k | 0 <= k < n ensures front[..k] == es[..k] && front[k] == es[k] {
    }
    if n > 0 {
      assert front[..n - 1] == es[..n - 1];
    }
  }

  /** The announcement is of every channel's window, of the stamps, and of what the trigger found. */
  lemma AnnouncedWindow(s: Scope, e: Event, i: nat)
    requires Inv(s) && Fits(s, e) && Apply(s, e).1.Sent? && i < |s.core.chans|
    ensures var (s', o) := Apply(s, e); var w := o.window;
            && |w.samples| == |s.core.chans| == |s'.core.chans|
            && w.samples[i] == (if |s'.core.chans[i].swap| == s.core.cap then s'.core.chans[i].swap else [])
            && w.stamps == s'.core.ts.swap && w.triggered == s.core.tr.hit && w.index == s.core.tr.index
  {
    assert WellFormed(s.core);
    SentTrigger(s.core, e.now, e.xs);
    hide Tick, CoreInv, WellFormed;
  }

  lemma SentTrigger(c: Core, now: Word, xs: seq<real>)
    requires WellFormed(c) && |xs| == |c.chans| && Tick(c, now, xs).1
    ensures var c' := Tick(c, now, xs).0;
            c.tr.phase == CleanUp && c'.tr.hitSwap == c.tr.hit && c'.tr.indexSwap == c.tr.index
  {
  }
}
