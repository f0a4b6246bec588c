/** The controller: the pending command, the acknowledge gate and the event queue. */
module ControllerUnit {
  import opened Bytes
  import opened Wrappers
  import opened ControlSpec

  class Controller {
    var commandPending: Byte
    var waitForAck: bool
    var queue: multiset<Byte>
    /** The commands processed so far. */
    ghost var handled: seq<Byte>
    /** How often a command was overwritten before it was processed. */
    ghost var lost: nat

    ghost function View(): Gate
      reads this
    {
      Gate(commandPending, waitForAck, queue)
    }

    /** What is queued are messages. */
    ghost predicate Valid()
      reads this
    {
      SE_NONE !in queue
    }

    constructor ()
      ensures Valid() && View() == START && handled == [] && lost == 0
    {
      queue := multiset{};
      commandPending := SE_NONE;
      waitForAck := true;
      handled, lost := [], 0;
    }

    /** The mailbox the serializer writes. */
    method CommandUpdate(m: Byte)
      modifies this`commandPending, this`lost
      ensures Next(old(View()), Command(m), View()) && handled == old(handled)
      ensures lost == old(lost) + if old(commandPending) == SE_NONE then 0 else 1
    {
      lost := lost + if commandPending == SE_NONE then 0 else 1;
      commandPending := m;
    }

    method CommandPackPushEvent(m: Byte)
      requires Valid()
      modifies this`queue
      ensures Valid() && Next(old(View()), Event(m), View())
    {
      if m == SC_LOG {
        if SC_LOG !in queue {
          queue := queue + multiset{m};
        }
      } else if m == SE_NAK || m == SE_ACK || SC_DATA <= m < SC_LOG {
        queue := queue + multiset{m};
      }
    }

    /** The command's own events, one after the other. */
    method RunCommand(responses: seq<Byte>)
      requires Valid()
      modifies this`queue
      ensures Valid() && queue == PushAll(old(queue), responses)
    {
      hide PushEvent;
      var i := 0;
      assert responses[..0] == [];
      while i < |responses|
        invariant i <= |responses| && Valid() && queue == PushAll(old(queue), responses[..i])
      {
        CommandPackPushEvent(responses[i]);
        assert responses[..i + 1][..i] == responses[..i];
        i := i + 1;
      }
      assert responses[..i] == responses;
    }

    /** `responses`: the events the command itself pushes when it is run. */
    method RunRx(responses: seq<Byte>) returns (ran: bool)
      requires Valid()
      modifies this
      ensures Valid() && Next(old(View()), Rx(responses), View()) && commandPending == SE_NONE && lost == old(lost)
      ensures ran == (old(commandPending) != SE_NONE)
      ensures handled == old(handled) + if ran then [old(commandPending)] else []
    {
      if commandPending == SE_NONE {
        return false;
      }
      handled := handled + [commandPending];
      if commandPending == SE_NAK {
        CommandPackPushEvent(commandPending);
        commandPending := SE_NONE;
        return true;
      }
      if CanUnlock(commandPending) {
        waitForAck := false;
      }
      RunCommand(responses);
      commandPending := SE_NONE;
      return true;
    }

    method RunTx(packerIsReady: bool, logLength: nat) returns (event: Option<Byte>)
      requires Valid()
      modifies this
      ensures Valid() && Next(old(View()), Tx(packerIsReady, logLength > 0, event), View())
      ensures commandPending == old(commandPending) && handled == old(handled) && lost == old(lost)
      ensures event.Some? ==> packerIsReady && event.value != SE_NONE
    {
      if packerIsReady == false || waitForAck {
        return None;
      }
      if logLength > 0 {
        CommandPackPushEvent(SC_LOG);
      }
      if queue == multiset{} {
        return None;
      }
      var item :| item in queue;
      queue := queue - multiset{item};
      waitForAck := NeedsToBeAcked(item);
      return Some(item);
    }
  }
}
