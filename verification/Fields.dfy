/**
 What becomes of each field of the capture in one event, whichever event it is: when it changes, and to
 what. Said of the fields alone, without the operations that change them.
 */
module Fields {
  import opened Bytes
  import opened CaptureSpec

  /** The poll is made: the scope is ready and the clock has reached the last stamp and the increment, in 32 bits. */
  predicate Due(s: Scope, e: Event) {
    e.EvPoll? && s.ready && e.now >= (s.core.ts.last + s.core.ts.increment) % 0x1_0000_0000
  }

  /** A start of a known channel, after which some channel runs. */
  predicate Activates(s: Scope, e: Event) {
    var cs := s.core.chans;
    e.EvStart? && e.i < |cs| && (cs[e.i].state != Init || exists j | 0 <= j < |cs| :: cs[j].state == Running)
  }

  /** A stop of a known channel, after which none runs. */
  predicate Deactivates(s: Scope, e: Event) {
    var cs := s.core.chans;
    e.EvStop? && e.i < |cs| && forall j | 0 <= j < |cs| && j != e.i :: cs[j].state != Running
  }

  predicate Empties(s: Scope, e: Event) {
    Activates(s, e) || e.EvClear?
  }

  /** A full buffer takes a new entry in for its oldest. */
  function Shifted<T>(cap: nat, old_: seq<T>, x: T): seq<T>
    requires cap >= 1
  {
    if |old_| < cap then old_ + [x] else old_[1..] + [x]
  }

  lemma ShiftedIsNewest<T>(cap: nat, old_: seq<T>, x: T)
    requires 1 <= cap && |old_| <= cap
    ensures Newest(cap, old_ + [x]) == Shifted(cap, old_, x)
  {
  }

  /** Window, trigger stream and stamps once a due poll has added to them, before the trigger is run. */
  function WindowThen(s: Scope, e: Event, i: nat): seq<real>
    requires s.core.cap >= 1 && e.EvPoll? && i < |s.core.chans| == |e.xs|
  {
    var ch := s.core.chans[i];
    if ch.state == Running then Shifted(s.core.cap, ch.poll, e.xs[i]) else ch.poll
  }

  function PairThen(s: Scope, e: Event, i: nat): seq<real>
    requires e.EvPoll? && i < |s.core.chans| == |e.xs|
  {
    var ch := s.core.chans[i];
    if ch.state == Running then [ch.last, e.xs[i]] else ch.stream
  }

  function StampsThen(s: Scope, e: Event): seq<Word>
    requires s.core.cap >= 1 && e.EvPoll?
  {
    var t := s.core.ts;
    if !t.running || (|t.poll| >= s.core.cap && s.core.full == RefuseNewest) then t.poll
    else Shifted(s.core.cap, t.poll, e.now)
  }

  /** The trigger looks at the pair of its channel: in DETECTING, not in continuous mode, with half a window. */
  predicate Looks(s: Scope, e: Event)
    requires Valid(s) && Fits(s, e)
  {
    var c := s.core;
    && Due(s, e) && c.tr.phase == Detecting && c.tr.mode != Continuous
    && |WindowThen(s, e, c.tr.active)| >= c.cap / 2 && |PairThen(s, e, c.tr.active)| == 2
  }

  /** What it sees is an edge in the configured direction, with the level on it. */
  predicate Sees(s: Scope, e: Event)
    requires Valid(s) && Fits(s, e)
  {
    Looks(s, e) && var p := PairThen(s, e, s.core.tr.active);
                   if s.core.tr.rising then p[0] < p[1] && p[0] <= s.core.tr.level && s.core.tr.level <= p[1]
                   else p[1] < p[0] && p[1] <= s.core.tr.level && s.core.tr.level <= p[0]
  }

  predicate Resumes(s: Scope, e: Event) {
    Due(s, e) && s.core.tr.phase == Paused && (s.core.tr.mode == Normal || s.core.tr.mode == Continuous)
  }

  /** The poll that ends the fill-up. */
  predicate FillsUp(s: Scope, e: Event)
    requires Valid(s) && Fits(s, e)
  {
    var c := s.core;
    && Due(s, e) && c.tr.phase == FillUp && |WindowThen(s, e, c.tr.active)| >= c.cap
    && (c.tr.mode == Continuous || (c.tr.fillUpCount + 1) % 0x1_0000_0000 >= c.cap / 2)
  }

  /** The poll in CLEANUP that finds window and stamps full and what is in their way gone. */
  predicate HandsOver(s: Scope, e: Event)
    requires Valid(s) && Fits(s, e)
  {
    var c := s.core;
    && Due(s, e) && c.tr.phase == CleanUp
    && |WindowThen(s, e, c.tr.active)| == c.cap && c.chans[c.tr.active].swap == []
    && |StampsThen(s, e)| == c.cap && c.ts.swap == []
  }

  predicate SomeFull(s: Scope) {
    exists i | 0 <= i < |s.core.chans| :: |s.core.chans[i].swap| == s.core.cap
  }

  // --------------------------------------------------------- field by field

  /** A channel gets its address, runs and stops by these events and no others. */
  predicate StateIs(s: Scope, e: Event, i: nat, now: ChannelState)
    requires i < |s.core.chans| == |s.core.tr.saved|
  {
    match s.core.chans[i].state
    case Init => now == if e == EvSetAddress(i) then Stopped else Init
    case Stopped =>
      now == if e == EvStart(i) || (s.core.tr.saved[i] && (Activates(s, e) || Resumes(s, e))) then Running else Stopped
    case Running => now == if e == EvStop(i) || (Due(s, e) && s.core.tr.phase == CleanUp) then Stopped else Running
  }

  /** Its window and its swap buffer, its trigger stream, and the sample that the next pair starts with. */
  predicate BuffersAre(s: Scope, e: Event, i: nat, now: Chan)
    requires Valid(s) && Fits(s, e) && i < |s.core.chans|
  {
    var was := s.core.chans[i];
    && now.poll == (if Empties(s, e) || HandsOver(s, e) then []
                    else if Due(s, e) then WindowThen(s, e, i) else was.poll)
    && now.swap == (if Empties(s, e) then [] else if HandsOver(s, e) then WindowThen(s, e, i)
                    else if e.EvPack? && |was.swap| == s.core.cap then [] else was.swap)
    && now.stream == (if Empties(s, e) || (Looks(s, e) && i == s.core.tr.active) then []
                      else if Due(s, e) then PairThen(s, e, i) else was.stream)
    && now.last == if Due(s, e) && was.state == Running then e.xs[i] else was.last
  }

  /**
   When stamps are stored, what the next due time is reckoned from (also while they are not), the stamps of
   the window, those that wait, and which of them the packer was handed last.
   */
  predicate StampsAre(s: Scope, e: Event, now: Stamper)
    requires Valid(s) && Fits(s, e)
  {
    var was := s.core.ts;
    && now.running == (if Activates(s, e) || Resumes(s, e) || FillsUp(s, e) then true
                       else if Deactivates(s, e) || (Due(s, e) && s.core.tr.phase == CleanUp) then false
                       else was.running)
    && now.last == (if Due(s, e) then e.now else was.last)
    && now.increment == (if e.EvIncrement? then e.increment else was.increment)
    && now.poll == (if Empties(s, e) || HandsOver(s, e) then []
                    else if e.EvPack? && !SomeFull(s) && was.held == Collecting then []
                    else if Due(s, e) then StampsThen(s, e) else was.poll)
    && now.swap == (if Empties(s, e) then [] else if HandsOver(s, e) then StampsThen(s, e)
                    else if e.EvPack? && (SomeFull(s) || was.held == Waiting) then [] else was.swap)
    && now.held == if e.EvPack? && SomeFull(s) then Waiting
                   else if HandsOver(s, e) && was.held == Collecting then Waiting
                   else if HandsOver(s, e) && was.held == Waiting then Collecting
                   else was.held
  }

  /** What the trigger looks for is changed by nothing but a configuration with a known channel. */
  predicate SettingIs(s: Scope, e: Event, now: Trig) {
    var was := s.core.tr;
    if e.EvConfigure? && e.i < |s.core.chans|
    then now.level == e.level && now.rising == e.rising && now.mode == e.mode && now.active == e.i
    else now.level == was.level && now.rising == was.rising && now.mode == was.mode && now.active == was.active
  }

  /** The five phases, and what leads from one to another. */
  predicate PhaseIs(s: Scope, e: Event, now: Phase)
    requires Valid(s) && Fits(s, e)
  {
    if Activates(s, e) then now == Detecting
    else if Deactivates(s, e) then now == Idle
    else
      var tr := s.core.tr;
      match tr.phase
      case Idle => now == Idle
      case Paused => now == if Resumes(s, e) then Detecting else Paused
      case Detecting => now == if Sees(s, e) || (Due(s, e) && tr.mode == Continuous) then FillUp else Detecting
      case FillUp => now == if FillsUp(s, e) then CleanUp else FillUp
      case CleanUp => now == if !HandsOver(s, e) then CleanUp else if tr.mode == OneShot then Idle else Paused
  }

  /** What the trigger found, what it says of the window that waits, and the count of polls in the fill-up. */
  predicate ResultIs(s: Scope, e: Event, now: Trig)
    requires Valid(s) && Fits(s, e)
  {
    var was := s.core.tr;
    var ends := Empties(s, e) || (Due(s, e) && was.phase == Paused);
    && now.hit == (if Sees(s, e) then true
                   else if ends || Looks(s, e) || (Due(s, e) && was.phase == Detecting && was.mode == Continuous)
                   then false else was.hit)
    && now.index == (if Sees(s, e) then e.now else if ends then 0 else was.index)
    && now.hitSwap == (if HandsOver(s, e) then was.hit else was.hitSwap)
    && now.indexSwap == (if HandsOver(s, e) then was.index else was.indexSwap)
    && now.fillUpCount ==
       if ends || Deactivates(s, e) || HandsOver(s, e) then 0
       else if Due(s, e) && was.phase == FillUp && was.mode != Continuous then (was.fillUpCount + 1) % 0x1_0000_0000
       else was.fillUpCount
  }

  /** The channel is remembered as running. */
  predicate SavedIs(s: Scope, e: Event, i: nat, now: bool)
    requires Valid(s) && Fits(s, e) && i < |s.core.chans|
  {
    now == if Deactivates(s, e) then false
           else if FillsUp(s, e) then s.core.chans[i].state == Running else s.core.tr.saved[i]
  }

  /** Everything, and that nothing else changes. */
  ghost predicate Becomes(s: Scope, e: Event, s': Scope)
    requires Valid(s) && Fits(s, e)
  {
    && s'.core.cap == s.core.cap && s'.core.full == s.core.full
    && |s'.core.chans| == |s.core.chans| == |s'.core.tr.saved|
    && (forall i | 0 <= i < |s.core.chans| ::
          StateIs(s, e, i, s'.core.chans[i].state) && BuffersAre(s, e, i, s'.core.chans[i])
          && SavedIs(s, e, i, s'.core.tr.saved[i]))
    && StampsAre(s, e, s'.core.ts) && SettingIs(s, e, s'.core.tr) && PhaseIs(s, e, s'.core.tr.phase)
    && ResultIs(s, e, s'.core.tr)
    && s'.ready == (if Activates(s, e) then true else if Deactivates(s, e) then false else s.ready)
    && s'.running == if Deactivates(s, e) then false else if e.EvPoll? && s.ready then true else s.running
  }

  // ------------------------------------------------------- by kind of event

  /** What a due poll leaves to the trigger. */
  ghost predicate LeftToTrigger(s: Scope, e: Event, p: Core)
    requires Valid(s) && Fits(s, e)
  {
    && Due(s, e) && WellFormed(p) && p == s.core.(chans := p.chans, ts := p.ts) && |p.chans| == |s.core.chans|
    && p.ts == s.core.ts.(last := e.now, poll := StampsThen(s, e))
    && forall i | 0 <= i < |p.chans| ::
         var was := s.core.chans[i];
         p.chans[i] == Chan(was.state, WindowThen(s, e, i), was.swap, PairThen(s, e, i),
                            if was.state == Running then e.xs[i] else was.last)
  }

  lemma PolledCore(s: Scope, e: Event) returns (p: Core)
    requires Valid(s) && Fits(s, e) && Due(s, e)
    ensures LeftToTrigger(s, e, p)
    ensures Apply(s, e).0 == Scope(TriggerRun(p).0, true, true)
    ensures Apply(s, e).1 == if TriggerRun(p).1 then Sent(WindowOf(TriggerRun(p).0)) else Nothing
  {
    var c := s.core;
    p := c.(ts := Stamp(c.cap, c.full, c.ts, e.now), chans := PollAll(c.cap, c.chans, e.xs));
    ShiftedIsNewest(c.cap, c.ts.poll, e.now);
    forall i | 0 <= i < |c.chans| ensures Newest(c.cap, c.chans[i].poll + [e.xs[i]]) ==
      Shifted(c.cap, c.chans[i].poll, e.xs[i]) {
      ShiftedIsNewest(c.cap, c.chans[i].poll, e.xs[i]);
    }
  }

  lemma ActivatesIff(s: Scope, i: nat)
    requires Valid(s) && i < |s.core.chans|
    ensures Activates(s, EvStart(i)) <==> !AllStopped(s.core.chans[i := ChanRun(s.core.chans[i])])
    ensures Deactivates(s, EvStop(i)) <==> AllStopped(s.core.chans[i := ChanStop(s.core.chans[i])])
  {
    var cs := s.core.chans;
    var run, stop := cs[i := ChanRun(cs[i])], cs[i := ChanStop(cs[i])];
    assert run[i].state == Running <==> cs[i].state != Init;
    assert stop[i].state != Running;
    assert forall j | 0 <= j < |cs| && j != i :: run[j] == cs[j] && stop[j] == cs[j];
  }

  /** What can happen at a due poll depends on the phase. */
  lemma ByPhase(s: Scope, e: Event)
    requires Valid(s) && Fits(s, e) && Due(s, e)
    ensures !Activates(s, e) && !Deactivates(s, e) && !Empties(s, e)
    ensures Resumes(s, e) <==> s.core.tr.phase == Paused && s.core.tr.mode != OneShot
    ensures Looks(s, e) ==> s.core.tr.phase == Detecting && s.core.tr.mode != Continuous
    ensures Sees(s, e) ==> Looks(s, e)
    ensures FillsUp(s, e) ==> s.core.tr.phase == FillUp
    ensures HandsOver(s, e) ==> s.core.tr.phase == CleanUp
  {
  }

  lemma InIdle(s: Scope, e: Event, p: Core)
    requires Valid(s) && Fits(s, e) && LeftToTrigger(s, e, p) && p.tr.phase == Idle
    ensures var (c, sent) := TriggerRun(p); Becomes(s, e, Scope(c, true, true)) && sent == HandsOver(s, e)
  {
    ByPhase(s, e);
    hide Activates, Deactivates, Empties, SomeFull, Resumes, Looks, Sees, FillsUp, HandsOver;
  }

  lemma InPaused(s: Scope, e: Event, p: Core)
    requires Valid(s) && Fits(s, e) && LeftToTrigger(s, e, p) && p.tr.phase == Paused
    ensures var (c, sent) := TriggerRun(p); Becomes(s, e, Scope(c, true, true)) && sent == HandsOver(s, e)
  {
    ByPhase(s, e);
    hide Activates, Deactivates, Empties, SomeFull, Resumes, Looks, Sees, FillsUp, HandsOver;
  }

  lemma InDetectingContinuous(s: Scope, e: Event, p: Core)
    requires Valid(s) && Fits(s, e) && LeftToTrigger(s, e, p) && p.tr.phase == Detecting && p.tr.mode == Continuous
    ensures var (c, sent) := TriggerRun(p); Becomes(s, e, Scope(c, true, true)) && sent == HandsOver(s, e)
  {
    ByPhase(s, e);
    hide Activates, Deactivates, Empties, SomeFull, Resumes, Looks, Sees, FillsUp, HandsOver;
  }

  lemma InDetectingBlind(s: Scope, e: Event, p: Core)
    requires Valid(s) && Fits(s, e) && LeftToTrigger(s, e, p) && p.tr.phase == Detecting && p.tr.mode != Continuous
             && !Looks(s, e)
    ensures var (c, sent) := TriggerRun(p); Becomes(s, e, Scope(c, true, true)) && sent == HandsOver(s, e)
  {
    ByPhase(s, e);
    hide Activates, Deactivates, Empties, SomeFull, Resumes, Sees, FillsUp, HandsOver;
  }

  lemma PairIsSeen(s: Scope, e: Event, p: Core)
    requires Valid(s) && Fits(s, e) && LeftToTrigger(s, e, p) && p.tr.phase == Detecting && p.tr.mode != Continuous
    requires Looks(s, e)
    ensures |Active(p).poll| >= p.cap / 2 && |Active(p).stream| == 2
    ensures Crosses(p.tr, Active(p).stream[0], Active(p).stream[1]) <==> Sees(s, e)
  {
  }

  lemma PairIsTaken(p: Core)
    requires WellFormed(p) && p.tr.phase == Detecting && p.tr.mode != Continuous
    requires |Active(p).poll| >= p.cap / 2 && |Active(p).stream| == 2
    ensures var seen := Crosses(p.tr, Active(p).stream[0], Active(p).stream[1]); var (r, sent) := TriggerRun(p);
            && !sent && r == p.(chans := r.chans, tr := r.tr) && |r.chans| == |p.chans|
            && r.tr == (if seen then p.tr.(hit := true, index := p.ts.last, phase := FillUp) else p.tr.(hit := false))
            && forall i | 0 <= i < |p.chans| ::
                 r.chans[i] == if i == p.tr.active then p.chans[i].(stream := []) else p.chans[i]
  {
  }

  lemma InDetectingLookingOf(s: Scope, e: Event, p: Core, i: nat)
    requires Valid(s) && Fits(s, e) && LeftToTrigger(s, e, p) && p.tr.phase == Detecting && p.tr.mode != Continuous
             && Looks(s, e)
    requires i < |p.chans|
    ensures var c := TriggerRun(p).0;
            && |c.chans| == |p.chans| == |c.tr.saved|
            && StateIs(s, e, i, c.chans[i].state) && BuffersAre(s, e, i, c.chans[i]) && SavedIs(s, e, i, c.tr.saved[i])
  {
    ByPhase(s, e);
    PairIsSeen(s, e, p);
    PairIsTaken(p);
    hide Activates, Deactivates, Empties, SomeFull, Resumes, FillsUp, HandsOver, Sees, Crosses, TriggerRun,
         WindowThen, PairThen, StampsThen;
  }

  lemma InDetectingLooking(s: Scope, e: Event, p: Core)
    requires Valid(s) && Fits(s, e) && LeftToTrigger(s, e, p) && p.tr.phase == Detecting && p.tr.mode != Continuous
             && Looks(s, e)
    ensures var (c, sent) := TriggerRun(p); Becomes(s, e, Scope(c, true, true)) && sent == HandsOver(s, e)
  {
    ByPhase(s, e);
    PairIsSeen(s, e, p);
    PairIsTaken(p);
    forall i | 0 <= i < |p.chans|
      ensures var c := TriggerRun(p).0;
              StateIs(s, e, i, c.chans[i].state) && BuffersAre(s, e, i, c.chans[i]) && SavedIs(s, e, i, c.tr.saved[i])
    {
      InDetectingLookingOf(s, e, p, i);
    }
    hide StateIs, BuffersAre, SavedIs, Activates, Deactivates, Empties, SomeFull, Resumes, FillsUp, HandsOver, Sees,
         Crosses, TriggerRun, WindowThen, PairThen, StampsThen;
  }

  lemma InFillUpContinuous(s: Scope, e: Event, p: Core)
    requires Valid(s) && Fits(s, e) && LeftToTrigger(s, e, p) && p.tr.phase == FillUp && p.tr.mode == Continuous
    ensures var (c, sent) := TriggerRun(p); Becomes(s, e, Scope(c, true, true)) && sent == HandsOver(s, e)
  {
    ByPhase(s, e);
    hide Activates, Deactivates, Empties, SomeFull, Resumes, Looks, Sees, HandsOver;
  }

  lemma InFillUpStill(s: Scope, e: Event, p: Core)
    requires Valid(s) && Fits(s, e) && LeftToTrigger(s, e, p) && p.tr.phase == FillUp && p.tr.mode != Continuous
    requires !FillsUp(s, e)
    ensures var (c, sent) := TriggerRun(p); Becomes(s, e, Scope(c, true, true)) && sent == HandsOver(s, e)
  {
    ByPhase(s, e);
    hide Activates, Deactivates, Empties, SomeFull, Resumes, Looks, Sees, HandsOver;
  }

  lemma InFillUpDone(s: Scope, e: Event, p: Core)
    requires Valid(s) && Fits(s, e) && LeftToTrigger(s, e, p) && p.tr.phase == FillUp && p.tr.mode != Continuous
    requires FillsUp(s, e)
    ensures var (c, sent) := TriggerRun(p); Becomes(s, e, Scope(c, true, true)) && sent == HandsOver(s, e)
  {
    ByPhase(s, e);
    hide Activates, Deactivates, Empties, SomeFull, Resumes, Looks, Sees, HandsOver;
  }

  lemma BuffersAreReady(s: Scope, e: Event, p: Core)
    requires Valid(s) && Fits(s, e) && LeftToTrigger(s, e, p) && p.tr.phase == CleanUp
    ensures SwapPending(StopAllAndStamps(p)) <==> HandsOver(s, e)
  {
  }

  lemma WindowIsTaken(p: Core)
    requires WellFormed(p) && p.tr.phase == CleanUp
    ensures var swaps := SwapPending(StopAllAndStamps(p)); var (r, sent) := TriggerRun(p);
            && sent == swaps && r == p.(chans := r.chans, ts := r.ts, tr := r.tr) && |r.chans| == |p.chans|
            && (forall i | 0 <= i < |p.chans| ::
                  var was := p.chans[i]; var now := if was.state == Running then Stopped else was.state;
                  r.chans[i] == if swaps then was.(state := now, poll := [], swap := was.poll) else was.(state := now))
            && r.ts == (if swaps then StampSwap(p.ts).(running := false) else p.ts.(running := false))
            && r.tr == if !swaps then p.tr
                       else p.tr.(hitSwap := p.tr.hit, indexSwap := p.tr.index, fillUpCount := 0,
                                  phase := if p.tr.mode == OneShot then Idle else Paused)
  {
    hide SwapPending;
  }

  lemma InCleanUpOf(s: Scope, e: Event, p: Core, i: nat)
    requires Valid(s) && Fits(s, e) && LeftToTrigger(s, e, p) && p.tr.phase == CleanUp
    requires i < |p.chans|
    ensures var c := TriggerRun(p).0;
            && |c.chans| == |p.chans| == |c.tr.saved|
            && StateIs(s, e, i, c.chans[i].state) && BuffersAre(s, e, i, c.chans[i]) && SavedIs(s, e, i, c.tr.saved[i])
  {
    ByPhase(s, e);
    BuffersAreReady(s, e, p);
    WindowIsTaken(p);
    hide Activates, Deactivates, Empties, SomeFull, Resumes, Looks, Sees, FillsUp, HandsOver, SwapPending,
         TriggerRun, WindowThen, PairThen, StampsThen;
  }

  lemma InCleanUp(s: Scope, e: Event, p: Core)
    requires Valid(s) && Fits(s, e) && LeftToTrigger(s, e, p) && p.tr.phase == CleanUp
    ensures var (c, sent) := TriggerRun(p); Becomes(s, e, Scope(c, true, true)) && sent == HandsOver(s, e)
  {
    ByPhase(s, e);
    BuffersAreReady(s, e, p);
    WindowIsTaken(p);
    forall i | 0 <= i < |p.chans|
      ensures var c := TriggerRun(p).0;
              StateIs(s, e, i, c.chans[i].state) && BuffersAre(s, e, i, c.chans[i]) && SavedIs(s, e, i, c.tr.saved[i])
    {
      InCleanUpOf(s, e, p, i);
    }
    hide StateIs, BuffersAre, SavedIs, Activates, Deactivates, Empties, SomeFull, Resumes, Looks, Sees, FillsUp,
         HandsOver, SwapPending, TriggerRun, WindowThen, PairThen, StampsThen;
  }

  lemma ActivationBecomes(s: Scope, i: nat)
    requires Valid(s) && Activates(s, EvStart(i))
    ensures var (s', o) := Apply(s, EvStart(i)); Becomes(s, EvStart(i), s') && o == Nothing
  {
    if i < |s.core.chans| {
      ActivatesIff(s, i);
    }
  }

  lemma OtherStartBecomes(s: Scope, i: nat)
    requires Valid(s) && !Activates(s, EvStart(i))
    ensures var (s', o) := Apply(s, EvStart(i)); Becomes(s, EvStart(i), s') && o == Nothing
  {
    if i < |s.core.chans| {
      ActivatesIff(s, i);
    }
  }

  lemma DeactivationBecomes(s: Scope, i: nat)
    requires Valid(s) && Deactivates(s, EvStop(i))
    ensures var (s', o) := Apply(s, EvStop(i)); Becomes(s, EvStop(i), s') && o == Nothing
  {
    if i < |s.core.chans| {
      ActivatesIff(s, i);
    }
  }

  lemma OtherStopBecomes(s: Scope, i: nat)
    requires Valid(s) && !Deactivates(s, EvStop(i))
    ensures var (s', o) := Apply(s, EvStop(i)); Becomes(s, EvStop(i), s') && o == Nothing
  {
    if i < |s.core.chans| {
      ActivatesIff(s, i);
    }
  }

  lemma NeitherPollNorSwitch(s: Scope, e: Event)
    requires Valid(s) && Fits(s, e) && !e.EvPoll? && !e.EvStart? && !e.EvStop?
    ensures !Due(s, e) && !Activates(s, e) && !Deactivates(s, e) && !Resumes(s, e) && !Looks(s, e) && !Sees(s, e)
    ensures !FillsUp(s, e) && !HandsOver(s, e) && (Empties(s, e) <==> e.EvClear?)
  {
  }

  /** Nothing to do: an unknown channel, or one that has its address. */
  predicate Idles(s: Scope, e: Event) {
    || (e.EvSetAddress? && (e.i >= |s.core.chans| || s.core.chans[e.i].state != Init))
    || (e.EvConfigure? && e.i >= |s.core.chans|)
  }

  lemma IdlesBecomes(s: Scope, e: Event)
    requires Valid(s) && Fits(s, e) && Idles(s, e)
    ensures Becomes(s, e, s) && Apply(s, e).0 == s
  {
    NeitherPollNorSwitch(s, e);
    hide Due, Activates, Deactivates, Resumes, Looks, Sees, FillsUp, HandsOver, Empties, SomeFull;
  }

  lemma AddressBecomes(s: Scope, i: nat)
    requires Valid(s) && !Idles(s, EvSetAddress(i))
    ensures Becomes(s, EvSetAddress(i), Apply(s, EvSetAddress(i)).0)
  {
    NeitherPollNorSwitch(s, EvSetAddress(i));
    hide Due, Activates, Deactivates, Resumes, Looks, Sees, FillsUp, HandsOver, Empties, SomeFull;
  }

  lemma ClearBecomes(s: Scope)
    requires Valid(s)
    ensures Becomes(s, EvClear, Apply(s, EvClear).0)
  {
    NeitherPollNorSwitch(s, EvClear);
    hide Due, Activates, Deactivates, Resumes, Looks, Sees, FillsUp, HandsOver, Empties;
  }

  lemma ConfigureBecomes(s: Scope, level: real, rising: bool, mode: Mode, i: nat)
    requires Valid(s) && i < |s.core.chans|
    ensures Becomes(s, EvConfigure(level, rising, mode, i), Apply(s, EvConfigure(level, rising, mode, i)).0)
  {
    NeitherPollNorSwitch(s, EvConfigure(level, rising, mode, i));
    hide Due, Activates, Deactivates, Resumes, Looks, Sees, FillsUp, HandsOver, Empties, SomeFull;
  }

  lemma IncrementBecomes(s: Scope, increment: Word)
    requires Valid(s)
    ensures Becomes(s, EvIncrement(increment), Apply(s, EvIncrement(increment)).0)
  {
    NeitherPollNorSwitch(s, EvIncrement(increment));
    hide Due, Activates, Deactivates, Resumes, Looks, Sees, FillsUp, HandsOver, Empties;
  }

  lemma NotDueBecomes(s: Scope, e: Event)
    requires Valid(s) && Fits(s, e) && e.EvPoll? && !Due(s, e)
    ensures Becomes(s, e, Apply(s, e).0)
  {
    assert !Activates(s, e) && !Deactivates(s, e) && !Empties(s, e);
    hide Activates, Deactivates, Empties, SomeFull, WindowThen, PairThen, StampsThen;
  }

  lemma PackBecomes(s: Scope)
    requires Valid(s) && SomeFull(s)
    ensures Becomes(s, EvPack, Apply(s, EvPack).0)
  {
    NeitherPollNorSwitch(s, EvPack);
    hide Due, Activates, Deactivates, Resumes, Looks, Sees, FillsUp, HandsOver, Empties;
  }

  lemma StalePackBecomes(s: Scope)
    requires Valid(s) && !SomeFull(s)
    ensures Becomes(s, EvPack, Apply(s, EvPack).0)
  {
    NeitherPollNorSwitch(s, EvPack);
    hide Due, Activates, Deactivates, Resumes, Looks, Sees, FillsUp, HandsOver, Empties;
  }

  lemma DueBecomes(s: Scope, e: Event)
    requires Valid(s) && Fits(s, e) && Due(s, e)
    ensures Becomes(s, e, Apply(s, e).0) && Apply(s, e).1.Sent? == HandsOver(s, e)
  {
    var p := PolledCore(s, e);
    assert p.tr == s.core.tr;
    hide Valid, Fits, LeftToTrigger, Becomes, TriggerRun, Apply, HandsOver, FillsUp, Looks, WellFormed;
    match p.tr.phase
    case Idle => InIdle(s, e, p);
    case Paused => InPaused(s, e, p);
    case Detecting =>
      if p.tr.mode == Continuous {
        InDetectingContinuous(s, e, p);
      } else if Looks(s, e) {
        InDetectingLooking(s, e, p);
      } else {
        InDetectingBlind(s, e, p);
      }
    case FillUp =>
      if p.tr.mode == Continuous {
        InFillUpContinuous(s, e, p);
      } else if FillsUp(s, e) {
        InFillUpDone(s, e, p);
      } else {
        InFillUpStill(s, e, p);
      }
    case CleanUp => InCleanUp(s, e, p);
  }

  lemma EventBecomes(s: Scope, e: Event)
    requires Valid(s) && Fits(s, e)
    ensures Becomes(s, e, Apply(s, e).0)
  {
    hide Apply, Becomes, Activates, Deactivates, SomeFull, Valid, Due;
    if Idles(s, e) {
      IdlesBecomes(s, e);
      return;
    }
    match e
    case EvSetAddress(i) => AddressBecomes(s, i);
    case EvStart(i) =>
      if Activates(s, e) {
        ActivationBecomes(s, i);
      } else {
        OtherStartBecomes(s, i);
      }
    case EvStop(i) =>
      if Deactivates(s, e) {
        DeactivationBecomes(s, i);
      } else {
        OtherStopBecomes(s, i);
      }
    case EvClear => ClearBecomes(s);
    case EvConfigure(level, rising, mode, i) => ConfigureBecomes(s, level, rising, mode, i);
    case EvIncrement(increment) => IncrementBecomes(s, increment);
    case EvPoll(_, _) =>
      if Due(s, e) {
        DueBecomes(s, e);
      } else {
        NotDueBecomes(s, e);
      }
    case EvPack =>
      if SomeFull(s) {
        PackBecomes(s);
      } else {
        StalePackBecomes(s);
      }
  }

  /** Field by field is all there is: two states that agree with it are the same. */
  lemma BecomesOne(s: Scope, e: Event, r: Scope, r': Scope)
    requires Valid(s) && Fits(s, e) && Becomes(s, e, r) && Becomes(s, e, r')
    ensures r == r'
  {
    hide HandsOver, FillsUp, Sees, Looks, Resumes, Empties, Activates, Deactivates, Due, SomeFull, WindowThen, PairThen,
         StampsThen, Valid, Fits;
    assert r.core.chans == r'.core.chans;
    assert r.core.tr.saved == r'.core.tr.saved;
  }

  /** So the next state is exactly what the fields say, after every event in every state. */
  lemma NextIff(s: Scope, e: Event, r: Scope)
    requires Valid(s) && Fits(s, e)
    ensures Apply(s, e).0 == r <==> Becomes(s, e, r)
  {
    EventBecomes(s, e);
    hide Apply, Becomes, Valid, Fits;
    if Becomes(s, e, r) {
      BecomesOne(s, e, Apply(s, e).0, r);
    }
  }

  /** A window as it waits in `c`: of every full swap buffer its samples, the stamps, and what the trigger found. */
  predicate Shows(c: Core, w: Window) {
    && |w.samples| == |c.chans|
    && (forall i | 0 <= i < |c.chans| ::
          w.samples[i] == if |c.chans[i].swap| == c.cap then c.chans[i].swap else [])
    && w.stamps == c.ts.swap && w.triggered == c.tr.hitSwap && w.index == c.tr.indexSwap
  }

  lemma Shown(c: Core)
    ensures Shows(c, WindowOf(c))
  {
  }

  /** What leaves the capture is this and nothing else: announcements, and what the packer reads. */
  lemma OutputIff(s: Scope, e: Event)
    requires Valid(s) && Fits(s, e)
    ensures var (s', o) := Apply(s, e);
            && (o.Sent? <==> HandsOver(s, e)) && (o.Sent? ==> Shows(s'.core, o.window))
            && (o.PackedWindow? <==> e.EvPack? && SomeFull(s)) && (o.PackedWindow? ==> Shows(s.core, o.window))
            && (o.Stale? <==> e.EvPack? && !SomeFull(s))
            && (o.Stale? ==> o.stamps == match s.core.ts.held case NoStream => [] case Collecting => s.core.ts.poll
                                                              case Waiting => s.core.ts.swap)
  {
    Shown(s.core);
    Shown(Apply(s, e).0.core);
    if Due(s, e) {
      DueBecomes(s, e);
      hide Becomes, ScopePoll, HandsOver, WindowOf, Shows;
    } else {
      hide WindowOf, Shows;
    }
  }

  /** Where every run starts. */
  lemma Beginning(cap: nat, full: FullPolicy, n: nat)
    ensures var s := Fresh(cap, full, n); var c := s.core;
            && !s.running && !s.ready && c.cap == cap && c.full == full && |c.chans| == n == |c.tr.saved|
            && (forall i | 0 <= i < n ::
                  var ch := c.chans[i];
                  ch.state == Init && ch.poll == ch.swap == ch.stream == [] && ch.last == 0.0 && !c.tr.saved[i])
            && !c.ts.running && c.ts.increment == 1 && c.ts.last == 0 && c.ts.poll == c.ts.swap == []
            && c.ts.held == NoStream
            && c.tr.phase == Idle && c.tr.mode == Continuous && c.tr.active == 0 && c.tr.level == 0.0 && !c.tr.rising
            && !c.tr.hit && !c.tr.hitSwap && c.tr.index == 0 && c.tr.indexSwap == 0 && c.tr.fillUpCount == 0
  {
  }
}
