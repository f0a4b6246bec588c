/** The trigger: a five-phase machine that drives the channels and the timestamper. */
module TriggerUnit {
  import opened Bytes
  import opened CaptureSpec
  import opened ChannelUnit
  import opened TimestamperUnit

  ghost function Views(channels: seq<Channel>): (r: seq<Chan>)
    reads channels
    ensures |r| == |channels|
    ensures forall i | 0 <= i < |channels| :: r[i] == channels[i].View()
  {
    seq(|channels|, i requires 0 <= i < |channels| reads channels => channels[i].View())
  }

  /** The channels are different objects of the same capacity. */
  ghost predicate ChannelsValid(channels: seq<Channel>, capacity: nat)
    reads channels
  {
    && (forall i | 0 <= i < |channels| :: channels[i].Valid() && channels[i].capacity == capacity)
    && (forall i, j | 0 <= i < j < |channels| :: channels[i] != channels[j])
  }

  lemma NothingRuns(cs: seq<Chan>)
    requires AllStopped(cs)
    ensures StopAll(cs) == cs && RunningFlags(cs) == NothingSaved(|cs|)
  {
  }

  class Trigger {
    const channels: seq<Channel>
    const timestamper: Timestamper
    const channelCapacity: nat
    const channelIsRunning: array<bool>

    var level: real
    var edge: bool
    var mode: Mode
    var activeChannelId: nat
    var state: Phase
    var isTriggeredPoll: bool
    var isTriggeredSwap: bool
    var triggerIndexPoll: Word
    var triggerIndexSwap: Word
    var fillUpPollCount: nat

    ghost function Fields(): Trig
      reads this, channelIsRunning
    {
      Trig(level, edge, mode, activeChannelId, state, isTriggeredPoll, isTriggeredSwap, triggerIndexPoll,
           triggerIndexSwap, channelIsRunning[..], fillUpPollCount)
    }

    ghost function View(): Core
      reads this, channels, timestamper, channelIsRunning
    {
      Core(channelCapacity, timestamper.full, Views(channels), timestamper.View(), Fields())
    }

    ghost predicate Valid()
      reads this, channels, timestamper, channelIsRunning
    {
      && channelCapacity >= 1 && ChannelsValid(channels, channelCapacity)
      && timestamper.Valid() && timestamper.capacity == channelCapacity
      && channelIsRunning.Length == |channels| && activeChannelId < |channels|
    }

    constructor (channels: seq<Channel>, channelCapacity: nat, timestamper: Timestamper)
      requires channelCapacity >= 1 && |channels| >= 1 && ChannelsValid(channels, channelCapacity)
      requires timestamper.Valid() && timestamper.capacity == channelCapacity
      requires forall i | 0 <= i < |channels| :: channels[i].state == Init
      modifies channels, timestamper
      ensures Valid() && fresh(channelIsRunning)
      ensures this.channels == channels && this.timestamper == timestamper && this.channelCapacity == channelCapacity
      ensures Views(channels) == old(Views(channels))
              && timestamper.View() == old(timestamper.View()).(running := false)
      ensures Fields() == Trig(0.0, false, Continuous, 0, Idle, false, false, 0, 0, NothingSaved(|channels|), 0)
    {
      this.channels := channels;
      this.timestamper := timestamper;
      this.channelCapacity := channelCapacity;
      this.channelIsRunning := new bool[|channels|](_ => false);
      level, edge, mode := 0.0, false, Continuous;
      activeChannelId := 0;
      isTriggeredPoll, isTriggeredSwap := false, false;
      triggerIndexSwap := 0;
      new;
      ghost var cs := Views(channels);
      assert AllStopped(cs);
      hide Views, ChannelsValid, StopAll, RunningFlags, NothingSaved, AllStopped;
      NothingRuns(cs);
      Clear();
      Deactivate();
    }

    lemma ValidIsWellFormed()
      requires Valid()
      ensures WellFormed(View())
    {
    }

    // -------------------------------------------------- loops over channels

    method StopChannelsAndTimestamp()
      requires Valid()
      modifies channels, timestamper
      ensures Valid() && View() == StopAllAndStamps(old(View()))
    {
      var i := 0;
      while i < |channels|
        invariant i <= |channels| && ChannelsValid(channels, channelCapacity)
        invariant forall j | 0 <= j < i :: channels[j].View() == ChanStop(old(channels[j].View()))
        invariant forall j | i <= j < |channels| :: channels[j].View() == old(channels[j].View())
        modifies channels
      {
        var _ := channels[i].SetStateStopped();
        i := i + 1;
      }
      timestamper.SetState(false);
      assert Views(channels) == StopAll(old(Views(channels)));
    }

    method ResetBuffers()
      requires Valid()
      modifies channels, timestamper
      ensures Valid() && View() == old(View()).(chans := ClearAll(old(Views(channels))),
                                                ts := old(timestamper.View()).(poll := [], swap := []))
    {
      var i := 0;
      while i < |channels|
        invariant i <= |channels| && ChannelsValid(channels, channelCapacity)
        invariant forall j | 0 <= j < i :: channels[j].View() == ChanClear(old(channels[j].View()))
        invariant forall j | i <= j < |channels| :: channels[j].View() == old(channels[j].View())
        modifies channels
      {
        channels[i].Clear();
        i := i + 1;
      }
      timestamper.Clear();
      assert Views(channels) == ClearAll(old(Views(channels)));
    }

    method SafeChannelStates()
      requires Valid()
      modifies channelIsRunning, timestamper
      ensures Valid() && View() == Save(old(View()))
    {
      var i := 0;
      while i < |channels|
        invariant i <= |channels|
        invariant forall j | 0 <= j < i :: channelIsRunning[j] == (channels[j].state == Running)
        modifies channelIsRunning
      {
        channelIsRunning[i] := channels[i].state == Running;
        i := i + 1;
      }
      timestamper.SetState(true);
      assert channelIsRunning[..] == RunningFlags(Views(channels));
      assert Views(channels) == old(Views(channels));
    }

    method RestoreChannelStates()
      requires Valid()
      modifies channels, timestamper
      ensures Valid() && View() == Restore(old(View()))
    {
      var i := 0;
      while i < |channels|
        invariant i <= |channels| && ChannelsValid(channels, channelCapacity)
        invariant forall j | 0 <= j < i ::
                    channels[j].View() == if channelIsRunning[j] then ChanRun(old(channels[j].View()))
                                          else old(channels[j].View())
        invariant forall j | i <= j < |channels| :: channels[j].View() == old(channels[j].View())
        modifies channels
      {
        if channelIsRunning[i] {
          var _ := channels[i].SetStateRunning();
        }
        i := i + 1;
      }
      timestamper.SetState(true);
      assert Views(channels) == RestoreAll(old(Views(channels)), channelIsRunning[..]);
    }

    method SwapAllBuffers()
      requires Valid()
      modifies channels
      ensures Valid() && View() == old(View()).(chans := SwapAll(old(Views(channels))))
    {
      var i := 0;
      while i < |channels|
        invariant i <= |channels| && ChannelsValid(channels, channelCapacity)
        invariant forall j | 0 <= j < i :: channels[j].View() == ChanSwap(old(channels[j].View()))
        invariant forall j | i <= j < |channels| :: channels[j].View() == old(channels[j].View())
        modifies channels
      {
        channels[i].SwapBuffers();
        i := i + 1;
      }
      assert Views(channels) == SwapAll(old(Views(channels)));
    }

    method SwapBuffers() returns (swapped: bool)
      requires Valid()
      modifies this, channels, timestamper
      ensures Valid() && swapped == SwapPending(old(View()))
      ensures View() == if swapped then CaptureSpec.SwapBuffers(old(View())) else old(View())
    {
      var pending := channels[activeChannelId].SwapIsPending();
      if pending == false {
        return false;
      }
      pending := timestamper.SwapIsPending();
      if pending == false {
        return false;
      }
      hide SwapAll, ChannelsValid, Views;
      SwapAllBuffers();
      SwapTimestamps();
      HandOverTrigger();
      return true;
    }

    method SwapTimestamps()
      requires Valid()
      modifies timestamper
      ensures Valid() && View() == old(View()).(ts := StampSwap(old(timestamper.View())))
    {
      timestamper.SwapBuffers();
      assert Views(channels) == old(Views(channels));
    }

    method HandOverTrigger()
      requires Valid()
      modifies this`isTriggeredSwap, this`triggerIndexSwap
      ensures Valid()
      ensures View() == old(View()).(tr := old(Fields()).(hitSwap := isTriggeredPoll, indexSwap := triggerIndexPoll))
    {
      isTriggeredSwap := isTriggeredPoll;
      triggerIndexSwap := triggerIndexPoll;
      assert Views(channels) == old(Views(channels));
    }

    method SetState(state: Phase)
      requires Valid()
      modifies this`state
      ensures Valid() && View() == old(View()).(tr := old(Fields()).(phase := state))
    {
      this.state := state;
      assert Views(channels) == old(Views(channels));
    }

    method ResetFillUpPollCount()
      requires Valid()
      modifies this`fillUpPollCount
      ensures Valid() && View() == old(View()).(tr := old(Fields()).(fillUpCount := 0))
    {
      fillUpPollCount := 0;
      assert Views(channels) == old(Views(channels));
    }

    // ------------------------------------------------------------ strategies

    method StartWhenPaused()
      requires Valid() && mode != OneShot
      modifies this, channels, timestamper
      ensures Valid() && WellFormed(old(View())) && View() == Start(old(View()))
    {
      ValidIsWellFormed();
      RestoreChannelStates();
      SetState(Detecting);
    }

    method DetectNever()
      requires Valid() && mode == Continuous
      modifies this
      ensures Valid() && WellFormed(old(View())) && View() == Detect(old(View()))
    {
      ValidIsWellFormed();
      isTriggeredPoll := false;
      state := FillUp;
    }

    method CheckCurrentData(dataLast: real, dataCurrent: real) returns (matches: bool)
      ensures matches == Crosses(Fields(), dataLast, dataCurrent)
    {
      var rising := dataCurrent > dataLast;
      if dataCurrent == dataLast {
        return false;
      }
      if rising != edge {
        return false;
      }
      var levelLower := if dataCurrent > dataLast then dataLast else dataCurrent;
      var levelHigher := if dataCurrent > dataLast then dataCurrent else dataLast;
      if level < levelLower || level > levelHigher {
        return false;
      }
      return true;
    }

    /** Reading the trigger stream empties it. */
    method ReadTriggerData() returns (triggerData: seq<real>)
      requires Valid()
      modifies channels[activeChannelId]
      ensures Valid() && triggerData == old(Active(View()).stream)
      ensures View() ==
              old(View()).(chans := old(Views(channels))[activeChannelId := old(Active(View())).(stream := [])])
    {
      var activeChannel := channels[activeChannelId];
      triggerData := activeChannel.stream;
      activeChannel.stream := [];
      assert Views(channels) == old(Views(channels))[activeChannelId := activeChannel.View()];
    }

    method SetTriggered(triggered: bool, index: Word)
      requires Valid()
      modifies this`isTriggeredPoll, this`triggerIndexPoll
      ensures Valid() && View() == old(View()).(tr := old(Fields()).(hit := triggered, index := index))
    {
      isTriggeredPoll, triggerIndexPoll := triggered, index;
      assert Views(channels) == old(Views(channels));
    }

    method DetectNormal()
      requires Valid() && mode != Continuous
      modifies this, channels
      ensures Valid() && WellFormed(old(View())) && View() == Detect(old(View()))
    {
      ValidIsWellFormed();
      ActiveIsViewed();
      hide Views, ChannelsValid, WellFormed;
      if |channels[activeChannelId].pollBuffer| < channelCapacity / 2 {
        return;
      }
      if |channels[activeChannelId].stream| != 2 {
        return;
      }
      var triggerData := ReadTriggerData();
      var triggered := CheckCurrentData(triggerData[0], triggerData[1]);
      SetTriggered(triggered, triggerIndexPoll);
      if triggered == false {
        return;
      }
      SetTriggered(true, timestamper.lastTimestamp);
      SetState(FillUp);
    }

    lemma ActiveIsViewed()
      requires Valid()
      ensures Active(View()) == channels[activeChannelId].View()
    {
    }

    method FillUpTillChannelFull()
      requires Valid() && mode == Continuous
      modifies this, channelIsRunning, timestamper
      ensures Valid() && WellFormed(old(View())) && View() == FillUpStep(old(View()))
    {
      ValidIsWellFormed();
      if |channels[activeChannelId].pollBuffer| < channelCapacity {
        return;
      }
      SafeChannelStates();
      SetState(CleanUp);
    }

    method FillUpIfTriggered()
      requires Valid() && mode != Continuous
      modifies this, channelIsRunning, timestamper
      ensures Valid() && WellFormed(old(View())) && View() == FillUpStep(old(View()))
    {
      ValidIsWellFormed();
      fillUpPollCount := (fillUpPollCount + 1) % 0x1_0000_0000;
      if |channels[activeChannelId].pollBuffer| < channelCapacity {
        return;
      }
      if fillUpPollCount < channelCapacity / 2 {
        return;
      }
      SafeChannelStates();
      SetState(CleanUp);
    }

    method StopInto(next: Phase) returns (swapped: bool)
      requires Valid() && next == if mode == OneShot then Idle else Paused
      modifies this, channels, timestamper
      ensures Valid() && WellFormed(old(View())) && (View(), swapped) == CleanUpStep(old(View()))
    {
      ValidIsWellFormed();
      hide Views, ChannelsValid, StopAll, SwapAll, WellFormed;
      StopChannelsAndTimestamp();
      swapped := SwapBuffers();
      if swapped == false {
        return false;
      }
      SetState(next);
      ResetFillUpPollCount();
      return true;
    }

    // ---------------------------------------------------------------- public

    method Run() returns (readyToSend: bool)
      requires Valid()
      modifies this, channels, timestamper, channelIsRunning
      ensures Valid() && WellFormed(old(View())) && (View(), readyToSend) == TriggerRun(old(View()))
    {
      hide Detect, FillUpStep, CleanUpStep;
      ValidIsWellFormed();
      if state == Idle {
        return false;
      }
      if state == Paused {
        if mode != OneShot {
          StartWhenPaused();
        }
        Clear();
      } else if state == Detecting {
        if mode == Continuous { DetectNever(); } else { DetectNormal(); }
      } else if state == FillUp {
        if mode == Continuous { FillUpTillChannelFull(); } else { FillUpIfTriggered(); }
      } else if state == CleanUp {
        readyToSend := StopInto(if mode == OneShot then Idle else Paused);
        return readyToSend;
      }
      return false;
    }

    method Activate()
      requires Valid()
      modifies this, channels, timestamper
      ensures Valid() && WellFormed(old(View())) && View() == CaptureSpec.Activate(old(View()))
    {
      ValidIsWellFormed();
      hide Views, ChannelsValid, RestoreAll, ClearAll;
      RestoreChannelStates();
      SetState(Detecting);
      ResetBuffers();
      Clear();
    }

    method Deactivate()
      requires Valid()
      modifies this, channels, timestamper, channelIsRunning
      ensures Valid() && View() == CaptureSpec.Deactivate(old(View()))
    {
      hide Views, ChannelsValid, StopAll, RunningFlags;
      SafeChannelStates();
      StopChannelsAndTimestamp();
      SetState(Idle);
      ResetFillUpPollCount();
    }

    method Clear()
      requires Valid()
      modifies this
      ensures Valid() && View() == old(View()).(tr := TrigClear(old(Fields())))
    {
      isTriggeredPoll := false;
      triggerIndexPoll := 0;
      fillUpPollCount := 0;
    }

    method Configure(level: real, edge: bool, mode: Mode, channelId: nat) returns (accepted: bool)
      requires Valid()
      modifies this
      ensures Valid() && accepted == (channelId < |channels|)
      ensures View() == if accepted
                        then old(View()).(tr := old(Fields()).(level := level, rising := edge, mode := mode,
                                                               active := channelId))
                        else old(View())
    {
      if channelId >= |channels| {
        return false;
      }
      this.level := level;
      this.edge := edge;
      this.mode := mode;
      activeChannelId := channelId;
      return true;
    }
  }
}
