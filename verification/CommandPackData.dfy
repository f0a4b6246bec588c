/** The consumer of captured windows: hands every full swap buffer and the stamps to the packer. */
module CommandPackDataUnit {
  import opened Bytes
  import opened CaptureSpec
  import opened ChannelUnit
  import opened TriggerUnit
  import opened ScopeUnit

  /**
   Hands the window to the packer if any channel has one, and what is configured now; if
   none has, the packer is handed nothing and keeps the stream of stamps it had.
   */
  method Run(scope: ScopeObject)
    returns (anyChannelIsReady: bool, window: Window, activeChannelId: nat, mode: Mode, timeIncrement: Word)
    requires scope.Valid()
    modifies scope.timestamper
    ensures scope.Valid()
    ensures var c := old(scope.View().core);
            && anyChannelIsReady == AnyToPack(c) && window == WindowOf(c)
            && activeChannelId == c.tr.active && mode == c.tr.mode && timeIncrement == c.ts.increment
            && scope.View() == old(scope.View()).(core := if AnyToPack(c) then c.(ts := c.ts.(held := Waiting)) else c)
  {
    var samples;
    anyChannelIsReady, samples := FullBuffers(scope);
    var t := scope.trigger;
    window := Window(samples, scope.timestamper.swapStream, t.isTriggeredSwap, t.triggerIndexSwap);
    activeChannelId, mode, timeIncrement := t.activeChannelId, t.mode, scope.timestamper.timeIncrement;
    if anyChannelIsReady == false {
      return;
    }
    HandStampsOver(scope);
  }

  method FullBuffers(scope: ScopeObject) returns (anyChannelIsReady: bool, samples: seq<seq<real>>)
    requires scope.Valid()
    ensures var c := scope.View().core; anyChannelIsReady == AnyToPack(c) && samples == WindowOf(c).samples
  {
    anyChannelIsReady := false;
    samples := [];
    ghost var core := scope.View().core;
    var i := 0;
    while i < |scope.channels|
      invariant i <= |scope.channels| && |samples| == i
      invariant forall j | 0 <= j < i ::
                  samples[j] == if HasToBePacked(core.cap, core.chans[j]) then core.chans[j].swap else []
      invariant anyChannelIsReady == exists j | 0 <= j < i :: HasToBePacked(core.cap, core.chans[j])
    {
      var channel := scope.channels[i];
      assert core.chans[i] == channel.View();
      if |channel.swapBuffer| == channel.capacity {
        assert HasToBePacked(core.cap, core.chans[i]);
        samples := samples + [channel.swapBuffer];
        anyChannelIsReady := true;
      } else {
        samples := samples + [[]];
      }
      i := i + 1;
    }
    assert samples == WindowOf(core).samples;
  }

  method HandStampsOver(scope: ScopeObject)
    requires scope.Valid()
    modifies scope.timestamper
    ensures scope.Valid()
    ensures scope.View() == var s := old(scope.View()); s.(core := s.core.(ts := s.core.ts.(held := Waiting)))
  {
    scope.timestamper.HandOver();
    assert Views(scope.channels) == old(Views(scope.channels));
  }

  method DrainChannels(scope: ScopeObject)
    requires scope.Valid()
    modifies scope.channels
    ensures scope.Valid()
    ensures scope.View() == old(scope.View()).(core := old(scope.View().core).(
                              chans := DrainAll(scope.trigger.channelCapacity, old(Views(scope.channels)))))
  {
    var i := 0;
    while i < |scope.channels|
      invariant i <= |scope.channels| && ChannelsValid(scope.channels, scope.trigger.channelCapacity)
      invariant forall j | 0 <= j < i ::
                  scope.channels[j].View()
                  == if |old(scope.channels[j].swapBuffer)| == scope.trigger.channelCapacity
                     then old(scope.channels[j].View()).(swap := []) else old(scope.channels[j].View())
      invariant forall j | i <= j < |scope.channels| :: scope.channels[j].View() == old(scope.channels[j].View())
    {
      var channel := scope.channels[i];
      if |channel.swapBuffer| == channel.capacity {
        var _ := channel.DrainSwapBuffer();
      }
      i := i + 1;
    }
    assert Views(scope.channels) == DrainAll(scope.trigger.channelCapacity, old(Views(scope.channels)));
  }

  method ReadHeldStamps(scope: ScopeObject) returns (stamps: seq<Word>)
    requires scope.Valid()
    modifies scope.timestamper
    ensures scope.Valid() && stamps == HeldStamps(old(scope.View().core.ts))
    ensures scope.View() == old(scope.View()).(core := ReadHeld(old(scope.View().core)))
  {
    stamps := scope.timestamper.ReadHeldStream();
    assert Views(scope.channels) == old(Views(scope.channels));
  }

  /** An SC_DATA message from the command to the last byte read: what was handed over is empty afterwards. */
  method PackMessage(scope: ScopeObject) returns (output: Output)
    requires scope.Valid() && CaptureSpec.Valid(scope.View())
    modifies scope.channels, scope.timestamper
    ensures scope.Valid() && (scope.View(), output) == Apply(old(scope.View()), EvPack)
  {
    hide Views, ChannelsValid, DrainAll, WellFormed, AnyToPack, WindowOf;
    var any, window, _, _, _ := Run(scope);
    if any {
      DrainChannels(scope);
    }
    var stamps := ReadHeldStamps(scope);
    output := if any then PackedWindow(window) else Stale(stamps);
  }
}
