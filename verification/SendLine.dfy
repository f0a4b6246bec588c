/**
 The line of messages to the transmitter over whole runs: passes that pop at most one
 message, and a driver that at some time has read a frame to its end.
 */
module SendLine {
  import opened Bytes
  import opened Wrappers

  /** `busy`: a frame is under way; `ready` and `msgType` are the transmitter's mailbox. */
  datatype Line = Line(busy: bool, ready: bool, msgType: Byte)

  /** As after a reset: marked ready, with no type. */
  const START := Line(false, true, 0)

  datatype Action = Pass(popped: Option<Byte>) | FrameRead

  function Posted(l: Line, popped: Option<Byte>): Line {
    if popped.Some? then Line(l.busy, true, popped.value) else l
  }

  /** Whether a pass starts a frame, and of which type. */
  function Framed(l: Line, a: Action): Option<Byte> {
    if a.Pass? && !l.busy && Posted(l, a.popped).ready then Some(Posted(l, a.popped).msgType) else None
  }

  function Next(l: Line, a: Action): Line {
    match a
    case FrameRead => l.(busy := false)
    case Pass(popped) =>
      var l' := Posted(l, popped);
      if Framed(l, a).Some? then l'.(busy := true, ready := false) else l'
  }

  /** The message that waits to be framed. */
  function Waiting(l: Line): Option<Byte> {
    if l.ready && l.msgType != 0 then Some(l.msgType) else None
  }

  /** The message a pass replaces in the mailbox. */
  function Lost(l: Line, a: Action): Option<Byte> {
    if a.Pass? && a.popped.Some? then Waiting(l) else None
  }

  function After(l: Line, run: seq<Action>): Line {
    if run == [] then l else Next(After(l, run[..|run| - 1]), run[|run| - 1])
  }

  function List(m: Option<Byte>): seq<Byte> {
    if m.Some? && m.value != 0 then [m.value] else []
  }

  /** The messages popped, framed and lost in a run, in order; a frame without a type is no message. */
  function AllPopped(run: seq<Action>): seq<Byte> {
    if run == [] then []
    else
      var a := run[|run| - 1];
      AllPopped(run[..|run| - 1]) + if a.Pass? then List(a.popped) else []
  }

  function AllFramed(run: seq<Action>): seq<Byte> {
    if run == [] then []
    else AllFramed(run[..|run| - 1]) + List(Framed(After(START, run[..|run| - 1]), run[|run| - 1]))
  }

  function AllLost(run: seq<Action>): seq<Byte> {
    if run == [] then []
    else AllLost(run[..|run| - 1]) + List(Lost(After(START, run[..|run| - 1]), run[|run| - 1]))
  }

  /** Messages have a type. */
  predicate Proper(run: seq<Action>) {
    forall k | 0 <= k < |run| && run[k].Pass? && run[k].popped.Some? :: run[k].popped.value != 0
  }

  lemma StepBalance(l: Line, a: Action)
    requires a.Pass? && a.popped.Some? ==> a.popped.value != 0
    ensures |List(Waiting(l))| + |if a.Pass? then List(a.popped) else []|
         == |List(Framed(l, a))| + |List(Lost(l, a))| + |List(Waiting(Next(l, a)))|
    ensures Lost(l, a).None? ==>
              List(Waiting(l)) + (if a.Pass? then List(a.popped) else []) ==
                List(Framed(l, a)) + List(Waiting(Next(l, a)))
  {
  }

  /** Every message popped is framed, lost, or still waits. */
  lemma {:induction false} MessagesAreAccountedFor(run: seq<Action>)
    requires Proper(run)
    ensures |AllPopped(run)| == |AllFramed(run)| + |AllLost(run)| + |List(Waiting(After(START, run)))|
  {
    if run != [] {
      hide Next, Framed, Lost, Waiting, List;
      var front, a := run[..|run| - 1], run[|run| - 1];
      MessagesAreAccountedFor(front);
      StepBalance(After(START, front), a);
    } else {
      assert List(Waiting(START)) == [];
    }
  }

  /** The k-th action of a run pops a message while another waits. */
  predicate Overruns(run: seq<Action>, k: nat)
    requires k < |run|
  {
    run[k].Pass? && run[k].popped.Some? && Waiting(After(START, run[..k])).Some?
  }

  lemma {:induction false} NothingLostIff(run: seq<Action>)
    ensures AllLost(run) == [] <==> forall k | 0 <= k < |run| :: !Overruns(run, k)
  {
    if run != [] {
      hide After;
      var n := |run| - 1;
      var front := run[..n];
      NothingLostIff(front);
      LostIff(run);
      hide Overruns, Lost, List;
      forall k | 0 <= k < n ensures Overruns(front, k) == Overruns(run, k) {
        OverrunsEarlier(run, n, k);
      }
    }
  }

  lemma LostIff(run: seq<Action>)
    requires run != []
    ensures var n := |run| - 1; List(Lost(After(START, run[..n]), run[n])) == [] <==> !Overruns(run, n)
  {
  }

  lemma OverrunsEarlier(run: seq<Action>, n: nat, k: nat)
    requires k < n <= |run|
    ensures Overruns(run[..n], k) == Overruns(run, k)
  {
    assert run[..n][..k] == run[..k];
  }

  lemma {:induction false} InOrderIfNoneLost(run: seq<Action>)
    requires Proper(run) && AllLost(run) == []
    ensures AllPopped(run) == AllFramed(run) + List(Waiting(After(START, run)))
  {
    if run != [] {
      var front, a := run[..|run| - 1], run[|run| - 1];
      InOrderIfNoneLost(front);
      var l := After(START, front);
      assert Lost(l, a).None? by { assert List(Lost(l, a)) == []; LostIsProper(front, a); }
      StepBalance(l, a);
      hide Next, Framed, Waiting, Lost, List;
      Regroup(AllFramed(front), List(Waiting(l)), if a.Pass? then List(a.popped) else [], List(Framed(l, a)),
              List(Waiting(Next(l, a))));
    } else {
      assert List(Waiting(START)) == [];
    }
  }

  lemma LostIsProper(front: seq<Action>, a: Action)
    ensures var lost := Lost(After(START, front), a); lost.Some? ==> List(lost) != []
  {
  }

  lemma Regroup<T>(framed: seq<T>, waiting: seq<T>, popped: seq<T>, next: seq<T>, waiting': seq<T>)
    requires waiting + popped == next + waiting'
    ensures (framed + waiting) + popped == (framed + next) + waiting'
  {
    assert (framed + waiting) + popped == framed + (waiting + popped);
    assert (framed + next) + waiting' == framed + (next + waiting');
  }

  /**
   Over every run, all messages popped are framed, in the order in which they were popped and
   but for one that may still wait, if and only if no pass pops one while another waits.
   */
  lemma AllFramedIff(run: seq<Action>)
    requires Proper(run)
    ensures AllPopped(run) == AllFramed(run) + List(Waiting(After(START, run)))
            <==> forall k | 0 <= k < |run| :: !Overruns(run, k)
  {
    hide After, Waiting, List;
    NothingLostIff(run);
    MessagesAreAccountedFor(run);
    if AllLost(run) == [] {
      InOrderIfNoneLost(run);
    }
  }

  /** With an open gate and no driver three passes are enough to lose a message. */
  lemma ThreePassesLoseTheSecond(a: Byte, b: Byte, c: Byte)
    requires a != 0 && b != 0 && c != 0
    ensures var run := [Pass(Some(a)), Pass(Some(b)), Pass(Some(c))];
            AllFramed(run) == [a] && AllLost(run) == [b] && Waiting(After(START, run)) == Some(c)
  {
    var run := [Pass(Some(a)), Pass(Some(b)), Pass(Some(c))];
    assert run[..2] == [Pass(Some(a)), Pass(Some(b))] && run[..2][..1] == [Pass(Some(a))] && run[..2][..1][..0] == [];
    assert After(START, run[..2][..1]) == Line(true, false, a) && AllFramed(run[..2][..1]) == [a]
           && AllLost(run[..2][..1]) == [];
    assert After(START, run[..2]) == Line(true, true, b) && AllFramed(run[..2]) == [a] && AllLost(run[..2]) == [];
  }
}
