/** A channel: two ring buffers that are swapped, and the trigger stream. */
module ChannelUnit {
  import opened CaptureSpec

  class Channel {
    const capacity: nat
    var state: ChannelState
    var pollBuffer: seq<real>
    var swapBuffer: seq<real>
    var stream: seq<real>
    var oldTriggerData: real

    ghost function View(): Chan
      reads this
    {
      Chan(state, pollBuffer, swapBuffer, stream, oldTriggerData)
    }

    ghost predicate Valid()
      reads this
    {
      capacity >= 1 && |pollBuffer| <= capacity && |swapBuffer| <= capacity
    }

    constructor (capacity: nat)
      requires capacity >= 1
      ensures Valid() && this.capacity == capacity && View() == Chan(Init, [], [], [], 0.0)
    {
      this.capacity := capacity;
      state := Init;
      pollBuffer, swapBuffer, stream := [], [], [];
      oldTriggerData := 0.0;
    }

    method SetPollAddress()
      requires Valid()
      modifies this
      ensures Valid() && View() == old(View()).(state := if old(state) == Init then Stopped else old(state))
    {
      if state == Init {
        state := Stopped;
      }
    }

    method SetStateRunning() returns (changed: bool)
      requires Valid()
      modifies this
      ensures Valid() && View() == ChanRun(old(View())) && changed == (old(state) == Stopped)
    {
      if state == Stopped {
        state := Running;
        return true;
      }
      return false;
    }

    method SetStateStopped() returns (changed: bool)
      requires Valid()
      modifies this
      ensures Valid() && View() == ChanStop(old(View())) && changed == (old(state) == Running)
    {
      if state == Running {
        state := Stopped;
        return true;
      }
      return false;
    }

    method AddTriggerData(triggerData: real)
      modifies this`stream, this`oldTriggerData
      ensures stream == [old(oldTriggerData), triggerData] && oldTriggerData == triggerData
    {
      stream := [];
      stream := stream + [oldTriggerData];
      stream := stream + [triggerData];
      oldTriggerData := triggerData;
    }

    /** The full buffer gives up its oldest sample; what is left is always the newest ones. */
    method Poll(polledData: real)
      requires Valid()
      modifies this
      ensures Valid() && View() == ChanPoll(capacity, old(View()), polledData)
    {
      if state == Running {
        AddTriggerData(polledData);
        if |pollBuffer| + 1 > capacity {
          pollBuffer := pollBuffer[1..];
        }
        pollBuffer := pollBuffer + [polledData];
      }
    }

    method Clear()
      requires Valid()
      modifies this
      ensures Valid() && View() == ChanClear(old(View()))
    {
      pollBuffer := [];
      swapBuffer := [];
      stream := [];
    }

    /** The packer reads the swap buffer until it is empty. */
    method DrainSwapBuffer() returns (data: seq<real>)
      requires Valid()
      modifies this`swapBuffer
      ensures Valid() && View() == old(View()).(swap := []) && data == old(swapBuffer)
    {
      data := [];
      while |swapBuffer| > 0
        invariant Valid() && View() == old(View()).(swap := swapBuffer) && data + swapBuffer == old(swapBuffer)
        decreases |swapBuffer|
      {
        data := data + [swapBuffer[0]];
        swapBuffer := swapBuffer[1..];
      }
    }

    method SwapIsPending() returns (pending: bool)
      requires Valid()
      ensures pending == ChanSwapPending(capacity, View())
    {
      var pollBufferIsFull := capacity - |pollBuffer| == 0;
      var swapBufferIsEmpty := |swapBuffer| == 0;
      return pollBufferIsFull && swapBufferIsEmpty;
    }

    method SwapBuffers()
      requires Valid()
      modifies this
      ensures Valid() && View() == ChanSwap(old(View()))
    {
      var buffer := swapBuffer;
      swapBuffer := pollBuffer;
      pollBuffer := buffer;
      pollBuffer := [];
    }
  }
}
