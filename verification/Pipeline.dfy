/** The serializer's mailboxes and the single-threaded run through all stages. */
module Pipeline {
  import opened Bytes
  import opened Wrappers
  import opened FrameSpec
  import opened Framing
  import opened Transmission
  import opened ControlSpec
  import opened ControllerUnit
  import SendLine

  class Serializer {
    var unpackingPending: Byte
    var packingPending: Byte
    /** How often a mailbox was overwritten before it was emptied. */
    ghost var lost: nat

    constructor ()
      ensures unpackingPending == packingPending == SE_NONE && lost == 0
    {
      unpackingPending, packingPending, lost := SE_NONE, SE_NONE, 0;
    }

    method UpdateUnpacker(m: Byte)
      modifies this
      ensures unpackingPending == m && packingPending == old(packingPending)
      ensures lost == old(lost) + if old(unpackingPending) == SE_NONE then 0 else 1
    {
      lost := lost + if unpackingPending == SE_NONE then 0 else 1;
      unpackingPending := m;
    }

    method UpdatePacker(m: Byte)
      modifies this
      ensures packingPending == m && unpackingPending == old(unpackingPending)
      ensures lost == old(lost) + if old(packingPending) == SE_NONE then 0 else 1
    {
      lost := lost + if packingPending == SE_NONE then 0 else 1;
      packingPending := m;
    }

    method IsReady(framed: FramedIO) returns (ready: bool)
      ensures ready == (packingPending == SE_NONE && framed.output == [])
    {
      return packingPending == SE_NONE && |framed.output| == 0;
    }

    /** `decodes`: whether the payload is a message of the type, for the types that are decoded. */
    method RunRx(controller: Controller, decodes: bool) returns (ran: bool)
      requires controller.Valid()
      modifies this`unpackingPending, controller
      ensures controller.Valid()
      ensures unpackingPending == SE_NONE && ran == (old(unpackingPending) != SE_NONE)
      ensures controller.waitForAck == old(controller.waitForAck) && controller.queue == old(controller.queue)
      ensures controller.handled == old(controller.handled)
      ensures controller.commandPending ==
              if ran then Passed(old(unpackingPending), decodes) else old(controller.commandPending)
      ensures controller.lost ==
              old(controller.lost) + if ran && old(controller.commandPending) != SE_NONE then 1 else 0
    {
      if unpackingPending == SE_NONE {
        return false;
      }
      var parsingIsValid := true;
      if Decoded(unpackingPending) {
        parsingIsValid := decodes;
      }
      if parsingIsValid {
        controller.CommandUpdate(unpackingPending);
      } else {
        controller.CommandUpdate(SE_NAK);
      }
      unpackingPending := SE_NONE;
      return true;
    }

    /** Packs the pending message into the output buffer and tells the transmitter. */
    method RunTx(framed: FramedIO, payload: seq<Byte>) returns (ran: bool)
      requires framed.Valid()
      modifies this`packingPending, framed
      ensures framed.lost ==
              old(framed.lost) + if ran && SendLine.Waiting(LineOf(old(framed.TxView()))).Some? then 1 else 0
      ensures packingPending == SE_NONE && ran == (old(packingPending) != SE_NONE)
      ensures framed.Valid() && framed.RxView() == old(framed.RxView())
      ensures framed.TxView() ==
              if !ran then old(framed.TxView())
              else old(framed.TxView()).(ready := true, msgType := old(packingPending),
                                         output := PackedOutput(old(framed.output), old(packingPending), payload))
    {
      if packingPending == SE_NONE {
        return false;
      }
      framed.output := PackedOutput(framed.output, packingPending, payload);
      framed.Update(packingPending);
      packingPending := SE_NONE;
      return true;
    }
  }

  predicate Decoded(m: Byte) {
    m == EV_POLL || m == CF_ADDR || m == CF_RUNNING || m == CF_T_INC || m == CF_TRIGGER
  }

  /** What the controller gets to see of a received message. */
  function Passed(m: Byte, decodes: bool): Byte {
    if Decoded(m) && !decodes then SE_NAK else m
  }

  /** Packing needs an empty output buffer, and only three kinds of message have a payload. */
  function PackedOutput(output: seq<Byte>, m: Byte, payload: seq<Byte>): seq<Byte> {
    if output == [] && (m == SC_DATA || m == SC_ANNOUNCE || m == SC_LOG) then payload else output
  }

  /** No message is on its way between two stages. */
  ghost predicate MailboxesEmpty(serializer: Serializer, controller: Controller)
    reads serializer, controller
  {
    && serializer.unpackingPending == serializer.packingPending == controller.commandPending == SE_NONE
    && controller.Valid()
  }

  /** What a pass receives: the type of the frame that is complete when it starts. */
  function Received(r: Rx, decodes: bool): Option<Byte> {
    if r.ready && r.msgType != SE_NONE then Some(Passed(r.msgType, decodes)) else Option.None
  }

  /** The receiving stages: the frame, if there is a complete one, is handled at once. */
  method ReceiveStages(framed: FramedIO, serializer: Serializer, controller: Controller, decodes: bool,
                       responses: seq<Byte>)
    requires framed.Valid() && MailboxesEmpty(serializer, controller)
    modifies framed, serializer, controller
    ensures framed.Valid() && MailboxesEmpty(serializer, controller)
    ensures serializer.lost == old(serializer.lost) && controller.lost == old(controller.lost)
            && framed.lost == old(framed.lost)
    ensures !framed.rxDataReady && framed.TxView() == old(framed.TxView())
    ensures controller.View() == Delivered(old(controller.View()), Received(old(framed.RxView()), decodes), responses)
    ensures controller.handled == old(controller.handled) +
            if old(framed.rxDataReady) && old(framed.rxType) != SE_NONE then [Passed(old(framed.rxType), decodes)]
            else []
  {
    hide Remaining, TxValid, RxValid;
    var ran, received := framed.RunRx();
    if ran {
      serializer.UpdateUnpacker(received);
    }
    var _ := serializer.RunRx(controller, decodes);
    var _ := controller.RunRx(responses);
  }

  lemma FrameUnderWay(t: Tx, t': Tx, late: seq<Byte>)
    requires TxValid(t) && t.state != TxState.None
    requires t' == t.(output := t'.output, ready := t'.ready, msgType := t'.msgType)
    requires t'.output == if late == [] then t.output else late
    requires late != [] ==> t.output == []
    ensures Remaining(t') == Remaining(t) <==> late == [] || t.state == Foot
  {
    LateWriteIsHarmlessIffPayloadIsOut(t, late);
    assert t.output + late == t'.output;
  }

  /** What the sending stages make of the transmitter when they pop `event`. */
  ghost predicate Sent(t: Tx, event: Option<Byte>, payload: seq<Byte>, t': Tx) {
    && LineOf(t') == SendLine.Next(LineOf(t), SendLine.Pass(event))
    && (event.Some? ==> t.output == [])
    && t'.output == (if event.Some? then PackedOutput([], event.value, payload) else t.output)
    && (t.state.None? && event.Some? && t.head == [] ==> Remaining(t') == Frame(event.value, t'.output))
    && (!t.state.None? ==>
          && t'.state == t.state
          && (Remaining(t') == Remaining(t) <==> event.None? || t'.output == [] || t.state == Foot))
  }

  lemma SentBusy(t: Tx, event: Option<Byte>, payload: seq<Byte>, t': Tx)
    requires TxValid(t) && !t.state.None? && (event.Some? ==> t.output == [])
    requires t' == if event.None? then t
                   else t.(ready := true, msgType := event.value, output := PackedOutput([], event.value, payload))
    ensures Sent(t, event, payload, t')
  {
    hide PackedOutput, Remaining;
    FrameUnderWay(t, t', if event.Some? then t'.output else []);
  }

  /** The sending stages: at most one message is popped, packed and framed. */
  method SendStages(framed: FramedIO, serializer: Serializer, controller: Controller, logLength: nat,
                    payload: seq<Byte>)
    returns (event: Option<Byte>)
    requires framed.Valid() && MailboxesEmpty(serializer, controller)
    modifies framed, serializer, controller
    ensures framed.Valid() && MailboxesEmpty(serializer, controller) && framed.RxView() == old(framed.RxView())
    ensures serializer.lost == old(serializer.lost) && controller.lost == old(controller.lost)
    ensures framed.lost ==
            old(framed.lost) + if event.Some? && SendLine.Waiting(LineOf(old(framed.TxView()))).Some? then 1 else 0
    ensures controller.handled == old(controller.handled)
    ensures Next(old(controller.View()), Label.Tx(old(framed.output) == [], logLength > 0, event), controller.View())
    ensures Sent(old(framed.TxView()), event, payload, framed.TxView()) && (event.Some? ==> event.value != SE_NONE)
  {
    hide Remaining, TxValid, RxValid, PackedOutput, Frame, Next, Sum16, Footer, Header;
    ghost var t := framed.TxView();
    var ready := serializer.IsReady(framed);
    event := controller.RunTx(ready, logLength);
    if event.Some? {
      serializer.UpdatePacker(event.value);
    }
    var _ := serializer.RunTx(framed, payload);
    var _ := framed.RunTx();
    if !t.state.None? {
      SentBusy(t, event, payload, framed.TxView());
    }
  }

  /**
   One run through the stages, and one pass of the gate. It starts and ends with empty mailboxes and overwrites none
   of them; a frame that was complete before is handled in this run. A message popped with
   the transmitter idle is on its way at the end, as the frame around its payload; one that
   is popped while another waits for the transmitter replaces it, and that one is lost.
   */
  method RunScope(framed: FramedIO, serializer: Serializer, controller: Controller, decodes: bool, responses: seq<Byte>,
                  transmit: bool, logLength: nat, payload: seq<Byte>)
    returns (event: Option<Byte>)
    requires framed.Valid() && MailboxesEmpty(serializer, controller)
    modifies framed, serializer, controller
    ensures framed.Valid() && MailboxesEmpty(serializer, controller)
    ensures serializer.lost == old(serializer.lost) && controller.lost == old(controller.lost)
    ensures framed.lost ==
            old(framed.lost) + if event.Some? && SendLine.Waiting(LineOf(old(framed.TxView()))).Some? then 1 else 0
    ensures !framed.rxDataReady
    ensures controller.handled == old(controller.handled) +
            if old(framed.rxDataReady) && old(framed.rxType) != SE_NONE then [Passed(old(framed.rxType), decodes)]
            else []
    ensures NextPass(old(controller.View()),
                     Pass(Received(old(framed.RxView()), decodes), responses, transmit, old(framed.output) == [],
                          logLength > 0, event),
                     controller.View())
    ensures Sent(old(framed.TxView()), event, payload, framed.TxView()) && (event.Some? ==> event.value != SE_NONE)
  {
    hide Remaining, TxValid, RxValid, PackedOutput, Frame, Next, Sum16, Footer, Sent;
    ReceiveStages(framed, serializer, controller, decodes, responses);
    if transmit {
      controller.CommandPackPushEvent(SC_DATA);
    }
    event := SendStages(framed, serializer, controller, logLength, payload);
  }

  /**
   With an open gate, three messages without a payload and a driver that does not read in
   between, one of the three is lost: whichever is popped second.
   */
  method ThreeSendsLoseOne(framed: FramedIO, serializer: Serializer, controller: Controller)
    requires framed.Valid() && MailboxesEmpty(serializer, controller)
    requires framed.txFramedIOState.None? && framed.output == [] && SendLine.Waiting(LineOf(framed.TxView())).None?
    requires !controller.waitForAck && controller.queue == multiset{SE_NAK, SE_ACK, SC_DETECT}
    modifies framed, serializer, controller
    ensures framed.lost == old(framed.lost) + 1 && controller.queue == multiset{} && framed.output == []
  {
    hide Remaining, TxValid, RxValid, Next, PackedOutput, Frame;
    ghost var g := controller.View();
    var first := SendStages(framed, serializer, controller, 0, []);
    OnePop(g, first, controller.View());
    g := controller.View();
    var second := SendStages(framed, serializer, controller, 0, []);
    OnePop(g, second, controller.View());
    g := controller.View();
    var third := SendStages(framed, serializer, controller, 0, []);
    OnePop(g, third, controller.View());
  }

  lemma OnePop(g: Gate, event: Option<Byte>, g': Gate)
    requires Next(g, Label.Tx(true, false, event), g') && !g.waitForAck && g.queue != multiset{}
    requires forall m | m in g.queue :: !NeedsToBeAcked(m)
    ensures event.Some? && event.value in g.queue && g' == g.(queue := g.queue - multiset{event.value})
    ensures PackedOutput([], event.value, []) == []
  {
  }

  /**
   What is on the line after a message was popped with the transmitter idle: its frame, around the payload if
   it is data, an announcement or a log, and around nothing otherwise.
   */
  lemma WhatIsSent(t: Tx, event: Option<Byte>, payload: seq<Byte>, t': Tx)
    requires Sent(t, event, payload, t') && t.state.None? && t.head == [] && event.Some?
    ensures var m := event.value;
            Remaining(t') == Frame(m, if m == SC_DATA || m == SC_ANNOUNCE || m == SC_LOG then payload else [])
  {
    hide Remaining, Frame;
  }

  /**
   What the controller hears of a complete frame: its type, or a NAK if it is a poll, an address, a running,
   a time increment or a trigger command that cannot be decoded; and nothing of a frame of type SE_NONE.
   */
  lemma WhatIsHeard(r: Rx, decodes: bool)
    ensures var m, heard := r.msgType, Received(r, decodes);
            && (heard.Some? <==> r.ready && m != SE_NONE)
            && (heard.Some?
                && (decodes || !(m == EV_POLL || m == CF_ADDR || m == CF_RUNNING || m == CF_T_INC || m == CF_TRIGGER))
                ==> heard.value == m)
            && (heard.Some? && !decodes
                && (m == EV_POLL || m == CF_ADDR || m == CF_RUNNING || m == CF_T_INC || m == CF_TRIGGER)
                ==> heard.value == SE_NAK)
  {
  }
}
