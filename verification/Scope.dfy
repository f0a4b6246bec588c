/** The scope: owns the channels, the timestamper and the trigger, and polls them. */
module ScopeUnit {
  import opened Bytes
  import opened CaptureSpec
  import opened ChannelUnit
  import opened TimestamperUnit
  import opened TriggerUnit

  method CreateChannels(channelSize: nat, amountOfChannels: nat) returns (cs: seq<Channel>)
    requires channelSize >= 1
    ensures |cs| == amountOfChannels && ChannelsValid(cs, channelSize) && fresh(cs)
    ensures Views(cs) == FreshChans(amountOfChannels)
    ensures forall i | 0 <= i < |cs| :: cs[i].state == Init
  {
    cs := [];
    while |cs| < amountOfChannels
      invariant |cs| <= amountOfChannels && ChannelsValid(cs, channelSize) && fresh(cs)
      invariant forall i | 0 <= i < |cs| :: cs[i].View() == Chan(Init, [], [], [], 0.0)
      decreases amountOfChannels - |cs|
    {
      var c := new Channel(channelSize);
      cs := cs + [c];
    }
  }

  method CreateTrigger(channelSize: nat, amountOfChannels: nat, full: FullPolicy)
    returns (cs: seq<Channel>, t: Timestamper, tr: Trigger)
    requires channelSize >= 1 && amountOfChannels >= 1
    ensures tr.channels == cs && tr.timestamper == t && tr.Valid()
    ensures tr.View() == FreshCore(channelSize, full, amountOfChannels)
  {
    cs := CreateChannels(channelSize, amountOfChannels);
    t := new Timestamper(channelSize, full);
    hide ChannelsValid, Views, FreshChans, NothingSaved;
    tr := new Trigger(cs, channelSize, t);
  }

  lemma ActivateStartsStamps(c: Core)
    requires WellFormed(c)
    ensures var c' := c.(ts := c.ts.(running := true)); WellFormed(c') && Activate(c') == Activate(c)
  {
  }

  lemma DeactivateStopsStamps(c: Core)
    ensures Deactivate(c.(ts := c.ts.(running := false))) == Deactivate(c)
  {
  }

  class ScopeObject {
    const channels: seq<Channel>
    const timestamper: Timestamper
    const trigger: Trigger
    var scopeIsRunning: bool
    var scopeIsReadyToRun: bool

    ghost function Footprint(): set<object> {
      {this, timestamper, trigger, trigger.channelIsRunning} + set c <- channels
    }

    ghost predicate Valid()
      reads this, trigger, channels, timestamper, trigger.channelIsRunning, trigger.channels, trigger.timestamper
    {
      trigger.channels == channels && trigger.timestamper == timestamper && trigger.Valid()
    }

    ghost function View(): Scope
      reads this, trigger, trigger.channels, trigger.timestamper, trigger.channelIsRunning
    {
      Scope(trigger.View(), scopeIsRunning, scopeIsReadyToRun)
    }

    constructor (channelSize: nat, amountOfChannels: nat, full: FullPolicy)
      requires channelSize >= 1 && amountOfChannels >= 1
      ensures Valid() && View() == Fresh(channelSize, full, amountOfChannels)
    {
      var cs, t, tr := CreateTrigger(channelSize, amountOfChannels, full);
      channels, timestamper, trigger := cs, t, tr;
      scopeIsRunning, scopeIsReadyToRun := false, false;
      new;
      hide ChannelsValid, Views, FreshCore;
    }

    method PollChannels(samples: seq<real>)
      requires Valid() && |samples| == |channels|
      modifies channels
      ensures Valid()
      ensures trigger.View() ==
                old(trigger.View()).(chans := PollAll(trigger.channelCapacity, old(Views(channels)), samples))
    {
      var i := 0;
      while i < |channels|
        invariant i <= |channels| && ChannelsValid(channels, trigger.channelCapacity)
        invariant forall j | 0 <= j < i ::
                    channels[j].View() == ChanPoll(trigger.channelCapacity, old(channels[j].View()), samples[j])
        invariant forall j | i <= j < |channels| :: channels[j].View() == old(channels[j].View())
      {
        channels[i].Poll(samples[i]);
        i := i + 1;
      }
      assert Views(channels) == PollAll(trigger.channelCapacity, old(Views(channels)), samples);
    }

    method StampNow(now: Word)
      requires Valid()
      modifies timestamper
      ensures Valid()
      ensures trigger.View() == var c := old(trigger.View()); c.(ts := CaptureSpec.Stamp(c.cap, c.full, c.ts, now))
    {
      timestamper.Stamp(now);
      assert Views(channels) == old(Views(channels));
    }

    /** One poll: nothing unless it is due, else stamp, sample and trigger, in this order. */
    method Poll(now: Word, samples: seq<real>) returns (isRunning: bool, transmit: bool)
      requires Valid() && |samples| == |channels|
      modifies Footprint()
      ensures Valid() && CaptureSpec.Valid(old(View()))
      ensures (View(), transmit) == ScopePoll(old(View()), now, samples)
              && isRunning == (old(scopeIsReadyToRun) && scopeIsRunning)
    {
      trigger.ValidIsWellFormed();
      hide Views, ChannelsValid, PollAll, TriggerRun;
      if scopeIsReadyToRun == false {
        return false, false;
      }
      SetFlags(true, true);
      var due := timestamper.UpdateElapsedTime(now);
      if due == false {
        return scopeIsRunning, false;
      }
      StampNow(now);
      PollChannels(samples);
      transmit := trigger.Run();
      return scopeIsRunning, transmit;
    }

    method SetFlags(running: bool, ready: bool)
      requires Valid()
      modifies this`scopeIsRunning, this`scopeIsReadyToRun
      ensures Valid() && View() == old(View()).(running := running, ready := ready)
    {
      scopeIsRunning, scopeIsReadyToRun := running, ready;
      assert Views(channels) == old(Views(channels));
    }

    method AllChannelsAreStopped() returns (stopped: bool)
      requires Valid()
      ensures stopped == AllStopped(Views(channels))
    {
      var channelIsRunning := false;
      var i := 0;
      while i < |channels|
        invariant i <= |channels| && !channelIsRunning
        invariant forall j | 0 <= j < i :: channels[j].state != Running
      {
        channelIsRunning := channels[i].state == Running;
        if channelIsRunning {
          assert Views(channels)[i].state == Running;
          return false;
        }
        i := i + 1;
      }
      return true;
    }

    method ChangeState(channelId: nat, running: bool)
      requires Valid() && channelId < |channels|
      modifies channels[channelId]
      ensures Valid()
      ensures trigger.View() ==
              SetChan(old(trigger.View()), channelId,
                      if running then ChanRun(old(Views(channels))[channelId])
                      else ChanStop(old(Views(channels))[channelId]))
    {
      if running {
        var _ := channels[channelId].SetStateRunning();
      } else {
        var _ := channels[channelId].SetStateStopped();
      }
      assert Views(channels) == old(Views(channels))[channelId := channels[channelId].View()];
    }

    method StampsRunning(running: bool)
      requires Valid()
      modifies timestamper
      ensures Valid()
      ensures trigger.View() == var c := old(trigger.View()); c.(ts := c.ts.(running := running))
    {
      timestamper.SetState(running);
      assert Views(channels) == old(Views(channels));
    }

    /** Once any channel runs: the stamps, the trigger and the flag. */
    method ActivateTrigger()
      requires Valid()
      modifies Footprint()
      ensures Valid() && WellFormed(old(View().core))
      ensures View() == old(View()).(core := Activate(old(View().core)), ready := true)
    {
      trigger.ValidIsWellFormed();
      ActivateStartsStamps(trigger.View());
      hide Views, ChannelsValid, Activate, WellFormed;
      StampsRunning(true);
      trigger.Activate();
      SetFlags(scopeIsRunning, true);
    }

    /** Once none does. */
    method DeactivateTrigger()
      requires Valid()
      modifies Footprint()
      ensures Valid() && View() == Scope(Deactivate(old(View().core)), false, false)
    {
      DeactivateStopsStamps(trigger.View());
      hide Views, ChannelsValid, Deactivate;
      StampsRunning(false);
      trigger.Deactivate();
      SetFlags(false, false);
    }

    method SetChannelRunning(channelId: nat)
      requires Valid()
      modifies Footprint()
      ensures Valid() && CaptureSpec.Valid(old(View()))
              && View() == CaptureSpec.SetChannelRunning(old(View()), channelId)
    {
      trigger.ValidIsWellFormed();
      hide Views, ChannelsValid, AllStopped, Activate, WellFormed, ChanRun;
      if channelId >= |channels| {
        return;
      }
      ChangeState(channelId, true);
      var stopped := AllChannelsAreStopped();
      if stopped == false {
        ActivateTrigger();
      }
    }

    method SetChannelStopped(channelId: nat)
      requires Valid()
      modifies Footprint()
      ensures Valid() && CaptureSpec.Valid(old(View()))
              && View() == CaptureSpec.SetChannelStopped(old(View()), channelId)
    {
      trigger.ValidIsWellFormed();
      hide Views, ChannelsValid, AllStopped, Deactivate, WellFormed, ChanStop;
      if channelId >= |channels| {
        return;
      }
      ChangeState(channelId, false);
      var stopped := AllChannelsAreStopped();
      if stopped == true {
        DeactivateTrigger();
      }
    }

    method Clear()
      requires Valid()
      modifies Footprint()
      ensures Valid() && View() == ClearScope(old(View()))
    {
      hide Views, ChannelsValid, ClearAll;
      trigger.ResetBuffers();
      trigger.Clear();
    }
  }
}
