/** The controller's message gate on values, and what holds over whole runs of it. */
module ControlSpec {
  import opened Bytes
  import opened Wrappers

  const SE_NONE: Byte := 0
  const SE_NAK: Byte := 1
  const SE_ACK: Byte := 2
  const SC_DATA: Byte := 50
  const SC_ANNOUNCE: Byte := 51
  const SC_DETECT: Byte := 52
  const SC_STREAM: Byte := 53
  const SC_LOG: Byte := 54
  const FIRST_HOST_MESSAGE: Byte := 100
  const EV_POLL: Byte := 102
  const CF_RUNNING: Byte := 105
  const CF_TRIGGER: Byte := 106
  const CF_T_INC: Byte := 107
  const CF_ADDR: Byte := 108

  /** Which is popped next is up to the ageing of the priority queue; what is in it is a multiset. */
  datatype Gate = Gate(commandPending: Byte, waitForAck: bool, queue: multiset<Byte>)

  const START := Gate(SE_NONE, true, multiset{})

  predicate NeedsToBeAcked(m: Byte) {
    m == SC_LOG || m == SC_DATA || m == SC_STREAM
  }

  predicate CanUnlock(m: Byte) {
    m >= FIRST_HOST_MESSAGE || m == SE_NAK || m == SE_ACK
  }

  predicate Queued(m: Byte) {
    m == SE_NAK || m == SE_ACK || SC_DATA <= m <= SC_LOG
  }

  function PushEvent(q: multiset<Byte>, m: Byte): multiset<Byte> {
    if !Queued(m) || (m == SC_LOG && SC_LOG in q) then q else q + multiset{m}
  }

  function PushAll(q: multiset<Byte>, ms: seq<Byte>): multiset<Byte> {
    if ms == [] then q else PushEvent(PushAll(q, ms[..|ms| - 1]), ms[|ms| - 1])
  }

  /** The events of the gate: a command arrives, the scope has an event, and the two runnables. */
  datatype Label =
    | Command(m: Byte)
    | Event(m: Byte)
    | Rx(responses: seq<Byte>)
    | Tx(ready: bool, log: bool, popped: Option<Byte>)

  function Offered(g: Gate, log: bool): multiset<Byte> {
    if log then PushEvent(g.queue, SC_LOG) else g.queue
  }

  /** The pending command processed: a NAK is echoed, any other may lift the gate and pushes its own events. */
  function Processed(g: Gate, responses: seq<Byte>): Gate {
    if g.commandPending == SE_NONE then g
    else if g.commandPending == SE_NAK then g.(queue := PushEvent(g.queue, SE_NAK), commandPending := SE_NONE)
    else Gate(SE_NONE, g.waitForAck && !CanUnlock(g.commandPending), PushAll(g.queue, responses))
  }

  ghost predicate Next(g: Gate, l: Label, g': Gate) {
    match l
    case Command(m) => g' == g.(commandPending := m)
    case Event(m) => g' == g.(queue := PushEvent(g.queue, m))
    case Rx(responses) => g' == Processed(g, responses)
    case Tx(ready, log, popped) =>
      if !ready || g.waitForAck then popped.None? && g' == g
      else if Offered(g, log) == multiset{} then popped.None? && g' == g.(queue := Offered(g, log))
      else
        && popped.Some? && popped.value in Offered(g, log)
        && g' == Gate(g.commandPending, NeedsToBeAcked(popped.value), Offered(g, log) - multiset{popped.value})
  }

  ghost predicate Run(gs: seq<Gate>, ls: seq<Label>) {
    && |gs| == |ls| + 1 && gs[0] == START
    && forall k | 0 <= k < |ls| :: Next(gs[k], ls[k], gs[k + 1])
  }

  predicate Pops(l: Label) {
    l.Tx? && l.popped.Some?
  }

  /** A message that was processed and lifts the gate: an ACK or a host command, never a NAK. */
  predicate Unlocks(g: Gate, l: Label) {
    l.Rx? && (g.commandPending == SE_ACK || g.commandPending >= FIRST_HOST_MESSAGE)
  }

  /** Until something unlocks, a locked gate stays locked and nothing is popped. */
  lemma {:induction false} LockedUntilUnlocked(gs: seq<Gate>, ls: seq<Label>, from: nat, end: nat)
    requires Run(gs, ls) && from <= end <= |ls| && gs[from].waitForAck
    requires forall k | from <= k < end :: !Unlocks(gs[k], ls[k])
    ensures gs[end].waitForAck
    ensures forall k | from <= k < end :: !Pops(ls[k])
    decreases end - from
  {
    if from < end {
      hide Next, Pops, Unlocks;
      LockedUntilUnlocked(gs, ls, from, end - 1);
      LockedStep(gs[end - 1], ls[end - 1], gs[end]);
    }
  }

  lemma LockedStep(g: Gate, l: Label, g': Gate)
    requires Next(g, l, g') && g.waitForAck && !Unlocks(g, l)
    ensures g'.waitForAck && !Pops(l)
  {
    hide PushEvent, PushAll, Offered;
  }

  /** Nothing is popped before the first unlocking message. */
  lemma NothingBeforeTheFirstUnlock(gs: seq<Gate>, ls: seq<Label>, j: nat)
    requires Run(gs, ls) && j < |ls| && Pops(ls[j])
    ensures exists k | 0 <= k < j :: Unlocks(gs[k], ls[k])
  {
    assert Next(gs[j], ls[j], gs[j + 1]);
    if forall k | 0 <= k < j :: !Unlocks(gs[k], ls[k]) {
      LockedUntilUnlocked(gs, ls, 0, j);
      assert false;
    }
  }

  /** Stop and wait: between a data, log or stream message and the next one popped, something unlocked. */
  lemma StopAndWait(gs: seq<Gate>, ls: seq<Label>, i: nat, j: nat)
    requires Run(gs, ls) && i < j < |ls| && Pops(ls[i]) && Pops(ls[j])
    requires var m := ls[i].popped.value; m == SC_DATA || m == SC_LOG || m == SC_STREAM
    ensures exists k | i < k < j :: Unlocks(gs[k], ls[k])
  {
    assert Next(gs[i], ls[i], gs[i + 1]) && Next(gs[j], ls[j], gs[j + 1]);
    if forall k | i < k < j :: !Unlocks(gs[k], ls[k]) {
      LockedUntilUnlocked(gs, ls, i + 1, j);
      assert false;
    }
  }

  lemma {:induction false} PushAllKeepsOneLog(q: multiset<Byte>, ms: seq<Byte>)
    requires q[SC_LOG] <= 1
    ensures PushAll(q, ms)[SC_LOG] <= 1
  {
    if ms != [] {
      PushAllKeepsOneLog(q, ms[..|ms| - 1]);
    }
  }

  /** The queue never holds a second log message, however often the log is polled. */
  lemma {:induction false} AtMostOneLogQueued(gs: seq<Gate>, ls: seq<Label>, n: nat)
    requires Run(gs, ls) && n <= |ls|
    ensures gs[n].queue[SC_LOG] <= 1
  {
    if n > 0 {
      AtMostOneLogQueued(gs, ls, n - 1);
      hide Next;
      StepKeepsOneLog(gs[n - 1], ls[n - 1], gs[n]);
    }
  }

  lemma StepKeepsOneLog(g: Gate, l: Label, g': Gate)
    requires Next(g, l, g') && g.queue[SC_LOG] <= 1
    ensures g'.queue[SC_LOG] <= 1
  {
    PushKeepsOneLog(g.queue, SC_LOG);
    PushKeepsOneLog(g.queue, SE_NAK);
    match l
    case Command(_) =>
    case Event(m) =>
      PushKeepsOneLog(g.queue, m);
      hide PushEvent;
    case Rx(responses) =>
      PushAllKeepsOneLog(g.queue, responses);
      hide PushAll, PushEvent;
    case Tx(_, _, _) =>
      hide PushEvent;
  }

  lemma PushKeepsOneLog(q: multiset<Byte>, m: Byte)
    requires q[SC_LOG] <= 1
    ensures PushEvent(q, m)[SC_LOG] <= 1
  {
  }

  // -------------------------------------------------- passes through all stages

  /** What a pass receives, whether the scope announces a window, what the sending stages find, and what they pop. */
  datatype Pass = Pass(received: Option<Byte>, responses: seq<Byte>, transmit: bool, ready: bool, log: bool,
                       popped: Option<Byte>)

  function Delivered(g: Gate, received: Option<Byte>, responses: seq<Byte>): Gate {
    Processed(if received.Some? then g.(commandPending := received.value) else g, responses)
  }

  function Announced(g: Gate, transmit: bool): Gate {
    if transmit then g.(queue := PushEvent(g.queue, SC_DATA)) else g
  }

  ghost predicate NextPass(g: Gate, p: Pass, g': Gate) {
    Next(Announced(Delivered(g, p.received, p.responses), p.transmit), Tx(p.ready, p.log, p.popped), g')
  }

  ghost predicate Passes(gs: seq<Gate>, ps: seq<Pass>) {
    && |gs| == |ps| + 1 && gs[0] == START
    && forall k | 0 <= k < |ps| :: NextPass(gs[k], ps[k], gs[k + 1])
  }

  /** The message that lifts the gate: an ACK or a host command, never a NAK. */
  predicate Lifts(m: Option<Byte>) {
    m.Some? && (m.value == SE_ACK || m.value >= FIRST_HOST_MESSAGE)
  }

  lemma PassStep(g: Gate, p: Pass, g': Gate)
    requires NextPass(g, p, g') && g.commandPending == SE_NONE
    ensures g'.commandPending == SE_NONE
    ensures g.waitForAck && !Lifts(p.received) ==> g'.waitForAck && p.popped.None?
    ensures p.popped.Some? && NeedsToBeAcked(p.popped.value) ==> g'.waitForAck
  {
    hide PushEvent, PushAll, Offered;
  }

  lemma {:induction false} PassesProcessAll(gs: seq<Gate>, ps: seq<Pass>, n: nat)
    requires Passes(gs, ps) && n <= |ps|
    ensures gs[n].commandPending == SE_NONE
  {
    if n > 0 {
      hide NextPass;
      PassesProcessAll(gs, ps, n - 1);
      PassStep(gs[n - 1], ps[n - 1], gs[n]);
    }
  }

  lemma {:induction false} LockedPasses(gs: seq<Gate>, ps: seq<Pass>, from: nat, end: nat)
    requires Passes(gs, ps) && from <= end <= |ps| && gs[from].waitForAck
    requires forall k | from <= k < end :: !Lifts(ps[k].received)
    ensures gs[end].waitForAck && forall k | from <= k < end :: ps[k].popped.None?
    decreases end - from
  {
    if from < end {
      hide NextPass, Lifts;
      LockedPasses(gs, ps, from, end - 1);
      PassesProcessAll(gs, ps, end - 1);
      PassStep(gs[end - 1], ps[end - 1], gs[end]);
    }
  }

  /** Over any sequence of passes nothing is popped before a message that lifts the gate was received. */
  lemma NoPassPopsBeforeTheFirstUnlock(gs: seq<Gate>, ps: seq<Pass>, j: nat)
    requires Passes(gs, ps) && j < |ps| && ps[j].popped.Some?
    ensures exists k | 0 <= k <= j :: Lifts(ps[k].received)
  {
    if forall k | 0 <= k < j + 1 :: !Lifts(ps[k].received) {
      LockedPasses(gs, ps, 0, j + 1);
      assert false;
    }
  }

  /**
   Stop and wait over passes: one that pops after a message to be acknowledged has received, itself or
   since, what lifts the gate.
   */
  lemma StopAndWaitOverPasses(gs: seq<Gate>, ps: seq<Pass>, i: nat, j: nat)
    requires Passes(gs, ps) && i < j < |ps|
    requires ps[i].popped.Some? && ps[j].popped.Some?
    requires var m := ps[i].popped.value; m == SC_DATA || m == SC_LOG || m == SC_STREAM
    ensures exists k | i < k <= j :: Lifts(ps[k].received)
  {
    hide NextPass, Lifts;
    PassesProcessAll(gs, ps, i);
    PassStep(gs[i], ps[i], gs[i + 1]);
    if forall k | i < k < j + 1 :: !Lifts(ps[k].received) {
      LockedPasses(gs, ps, i + 1, j + 1);
      assert false;
    }
  }

  // ------------------------------------------------- what a step does, in full

  /** When something is popped, and what the gate and the queue are then. */
  lemma WhatATxDoes(g: Gate, ready: bool, log: bool, popped: Option<Byte>, g': Gate)
    requires Next(g, Tx(ready, log, popped), g')
    ensures popped.Some? <==> ready && !g.waitForAck && (g.queue != multiset{} || log)
    ensures popped.Some? ==>
              var m := popped.value;
              && (m in g.queue || (log && m == SC_LOG))
              && (g'.waitForAck <==> m == SC_DATA || m == SC_LOG || m == SC_STREAM)
              && g'.queue == (if log && SC_LOG !in g.queue then g.queue + multiset{SC_LOG} else g.queue) - multiset{m}
    ensures popped.None? ==> g' == g
  {
  }

  /** Which message lifts the gate: an ACK or one from the host, and nothing else. */
  lemma WhatAnRxDoes(g: Gate, responses: seq<Byte>, g': Gate)
    requires Next(g, Rx(responses), g')
    ensures g'.commandPending == SE_NONE
    ensures !g'.waitForAck <==> !g.waitForAck || g.commandPending == SE_ACK || g.commandPending >= FIRST_HOST_MESSAGE
    ensures g.commandPending == SE_NAK ==> g'.queue == g.queue + multiset{SE_NAK}
    ensures g.commandPending == SE_NONE ==> g' == g
  {
    hide PushAll;
  }

  /** Which events are queued: the two answers, and data, announcement, detection, stream, and a log if none is. */
  lemma WhatIsQueued(q: multiset<Byte>, m: Byte, other: Byte)
    ensures PushEvent(q, m)[other] ==
            q[other] + if other == m
                          && (m == SE_NAK || m == SE_ACK || m == SC_DATA || m == SC_ANNOUNCE || m == SC_DETECT
                              || m == SC_STREAM
                              || (m == SC_LOG && q[SC_LOG] == 0))
                       then 1 else 0
  {
  }

  /** A command's own events are all queued, but for logs, of which at most one is. */
  lemma {:induction false} WhatResponsesAdd(q: multiset<Byte>, ms: seq<Byte>, m: Byte)
    requires m == SE_NAK || m == SE_ACK || m == SC_DATA || m == SC_ANNOUNCE || m == SC_DETECT || m == SC_STREAM
             || m == SC_LOG
    ensures PushAll(q, ms)[m] == if m != SC_LOG then q[m] + multiset(ms)[m]
                                 else if q[m] == 0 && m in ms then 1 else q[m]
  {
    if ms != [] {
      var n := |ms| - 1;
      WhatResponsesAdd(q, ms[..n], m);
      assert ms == ms[..n] + [ms[n]];
      WhatIsQueued(PushAll(q, ms[..n]), ms[n], m);
      hide PushEvent;
    }
  }

  /** The messages that nobody acknowledges. */
  predicate PassesFreely(m: Byte) {
    m == SE_NAK || m == SE_ACK || m == SC_ANNOUNCE || m == SC_DETECT
  }

  lemma OpenStep(g: Gate, l: Label, g': Gate)
    requires Next(g, l, g') && !g.waitForAck && (Pops(l) ==> PassesFreely(l.popped.value))
    ensures !g'.waitForAck
  {
    hide PushEvent, PushAll, Offered;
  }

  lemma {:induction false} OpenUntilPopped(gs: seq<Gate>, ls: seq<Label>, from: nat, end: nat)
    requires Run(gs, ls) && from <= end <= |ls| && !gs[from].waitForAck
    requires forall k | from <= k < end && Pops(ls[k]) :: PassesFreely(ls[k].popped.value)
    ensures !gs[end].waitForAck
    decreases end - from
  {
    if from < end {
      hide Next, Pops, PassesFreely;
      OpenUntilPopped(gs, ls, from, end - 1);
      OpenStep(gs[end - 1], ls[end - 1], gs[end]);
    }
  }

  /**
   The other half of stop and wait: after a NAK, an ACK, an announcement or a detection was popped, and as
   long as nothing else is, whenever the packer is ready and something is queued it is popped, and no
   acknowledge is waited for.
   */
  lemma NoWaitAfterTheOthers(gs: seq<Gate>, ls: seq<Label>, i: nat, j: nat)
    requires Run(gs, ls) && i < j < |ls| && Pops(ls[i]) && ls[j].Tx?
    requires forall k | i <= k < j && Pops(ls[k]) ::
               var m := ls[k].popped.value; m == SE_NAK || m == SE_ACK || m == SC_ANNOUNCE || m == SC_DETECT
    ensures Pops(ls[j]) <==> ls[j].ready && (gs[j].queue != multiset{} || ls[j].log)
  {
    assert Next(gs[i], ls[i], gs[i + 1]) && Next(gs[j], ls[j], gs[j + 1]);
    WhatATxDoes(gs[i], ls[i].ready, ls[i].log, ls[i].popped, gs[i + 1]);
    WhatATxDoes(gs[j], ls[j].ready, ls[j].log, ls[j].popped, gs[j + 1]);
    hide Next;
    OpenUntilPopped(gs, ls, i + 1, j);
  }

  /**
   A pass and the queue, kind by kind: what it pops and leaves is what it found, the echo of a NAK or the
   events of any other command, one data message for an announced window, and at most one log.
   */
  lemma WhatAPassQueues(g: Gate, p: Pass, g': Gate, m: Byte)
    requires NextPass(g, p, g') && g.commandPending == SE_NONE
    requires m == SE_NAK || m == SE_ACK || m == SC_DATA || m == SC_ANNOUNCE || m == SC_DETECT || m == SC_STREAM
    ensures g'.queue[m] + (if p.popped == Some(m) then 1 else 0) ==
            g.queue[m]
            + (if p.received == Some(SE_NAK) then (if m == SE_NAK then 1 else 0)
               else if p.received.Some? && p.received.value != SE_NONE then multiset(p.responses)[m] else 0)
            + if p.transmit && m == SC_DATA then 1 else 0
  {
    hide PushEvent, PushAll, Offered, Delivered, Announced, Next;
    HeardQueues(g, p.received, p.responses, m);
    var heard := Delivered(g, p.received, p.responses);
    AnnouncedQueues(heard, p.transmit, m);
    PoppedQueues(Announced(heard, p.transmit), p.ready, p.log, p.popped, g', m);
    assert Next(Announced(heard, p.transmit), Tx(p.ready, p.log, p.popped), g');
  }

  /** What is queued but logs. */
  predicate NoLog(m: Byte) {
    m == SE_NAK || m == SE_ACK || m == SC_DATA || m == SC_ANNOUNCE || m == SC_DETECT || m == SC_STREAM
  }

  lemma HeardQueues(g: Gate, received: Option<Byte>, responses: seq<Byte>, m: Byte)
    requires g.commandPending == SE_NONE && NoLog(m)
    ensures Delivered(g, received, responses).queue[m] ==
            g.queue[m] + if received == Some(SE_NAK) then (if m == SE_NAK then 1 else 0)
                         else if received.Some? && received.value != SE_NONE then multiset(responses)[m] else 0
  {
    WhatIsQueued(g.queue, SE_NAK, m);
    WhatResponsesAdd(g.queue, responses, m);
    hide PushEvent, PushAll;
  }

  lemma AnnouncedQueues(g: Gate, transmit: bool, m: Byte)
    requires NoLog(m)
    ensures Announced(g, transmit).queue[m] == g.queue[m] + if transmit && m == SC_DATA then 1 else 0
  {
    WhatIsQueued(g.queue, SC_DATA, m);
    hide PushEvent;
  }

  lemma PoppedQueues(g: Gate, ready: bool, log: bool, popped: Option<Byte>, g': Gate, m: Byte)
    requires Next(g, Tx(ready, log, popped), g') && NoLog(m)
    ensures g'.queue[m] + (if popped == Some(m) then 1 else 0) == g.queue[m]
  {
    WhatIsQueued(g.queue, SC_LOG, m);
    hide PushEvent;
  }
}
