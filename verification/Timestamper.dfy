/** The stamps of the polls, double buffered like the samples. */
module TimestamperUnit {
  import opened Bytes
  import opened CaptureSpec

  class Timestamper {
    const capacity: nat
    const full: FullPolicy
    var running: bool
    var timeIncrement: Word
    var lastTimestamp: Word
    var pollStream: seq<Word>
    var swapStream: seq<Word>
    /** The packer's pointer, as far as it is to one of the two streams. */
    var held: Held

    ghost function View(): Stamper
      reads this
    {
      Stamper(running, timeIncrement, lastTimestamp, pollStream, swapStream, held)
    }

    ghost predicate Valid()
      reads this
    {
      capacity >= 1 && |pollStream| <= capacity && |swapStream| <= capacity
    }

    constructor (capacity: nat, full: FullPolicy)
      requires capacity >= 1
      ensures Valid() && this.capacity == capacity && this.full == full
              && View() == Stamper(false, 1, 0, [], [], NoStream)
    {
      this.capacity := capacity;
      this.full := full;
      running := false;
      timeIncrement := 1;
      lastTimestamp := 0;
      pollStream, swapStream, held := [], [], NoStream;
    }

    method UpdateElapsedTime(referenceTimestamp: Word) returns (due: bool)
      ensures due == Eligible(View(), referenceTimestamp)
    {
      if referenceTimestamp < (lastTimestamp + timeIncrement) % 0x1_0000_0000 {
        return false;
      }
      return true;
    }

    method Stamp(referenceTimestamp: Word)
      requires Valid()
      modifies this
      ensures Valid() && View() == CaptureSpec.Stamp(capacity, full, old(View()), referenceTimestamp)
    {
      lastTimestamp := referenceTimestamp;
      if !running {
        return;
      }
      pollStream := StreamWrite(capacity, full, pollStream, lastTimestamp);
    }

    method Clear()
      requires Valid()
      modifies this
      ensures Valid() && View() == old(View()).(poll := [], swap := [])
    {
      pollStream := [];
      swapStream := [];
    }

    method SetState(running: bool)
      requires Valid()
      modifies this
      ensures Valid() && View() == old(View()).(running := running)
    {
      this.running := running;
    }

    method ConfigureTimestampIncrement(timestampIncrement: Word)
      requires Valid()
      modifies this
      ensures Valid() && View() == old(View()).(increment := timestampIncrement)
    {
      timeIncrement := timestampIncrement;
    }

    method SwapIsPending() returns (pending: bool)
      ensures pending == (|View().poll| == capacity && View().swap == [])
    {
      var pollBufferIsFull := capacity == |pollStream|;
      var swapBufferIsEmpty := |swapStream| == 0;
      return pollBufferIsFull && swapBufferIsEmpty;
    }

    /** Exchanges the streams; a pointer to one of them stays with it. */
    method SwapBuffers()
      requires Valid()
      modifies this
      ensures Valid() && View() == StampSwap(old(View()))
    {
      var buffer := swapStream;
      swapStream := pollStream;
      pollStream := buffer;
      held := Exchanged(held);
      pollStream := [];
    }

    /** The packer's pointer is set to the waiting stream. */
    method HandOver()
      requires Valid()
      modifies this
      ensures Valid() && View() == old(View()).(held := Waiting)
    {
      held := Waiting;
    }

    /** The packer reads the stream that it points to until it is empty. */
    method ReadHeldStream() returns (stamps: seq<Word>)
      requires Valid()
      modifies this
      ensures Valid() && stamps == HeldStamps(old(View()))
      ensures View() == match old(held)
                        case NoStream => old(View())
                        case Collecting => old(View()).(poll := [])
                        case Waiting => old(View()).(swap := [])
    {
      stamps := [];
      if held == Collecting {
        stamps, pollStream := pollStream, [];
      } else if held == Waiting {
        stamps, swapStream := swapStream, [];
      }
    }
  }
}
