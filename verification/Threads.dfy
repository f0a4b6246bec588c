/**
 The two threads of the thread-safe stack as interleaved steps: the scope thread polls
 under both locks, the stack thread parses commands under the config lock and packs
 under the data lock. A lock attempt never waits.
 */
module Threads {
  datatype Thread = ScopeThread | StackThread

  datatype ScopePc = ScopeOut | ReadFlags | TryData | Polling | UnlockData | UnlockConfig

  datatype StackPc =
    | StackOut | Receiving | Unpacking | TestPending | TryConfig | Parsing | ReleaseConfig
    | TryPack | Aggregating | Packing | Sending | ReleaseData

  datatype Owner = Free | Held(holder: Thread)

  /** `active`: the scope runs or is about to; `pending`: the command that waits in the controller, or none (0). */
  datatype State = State(scope: ScopePc, stack: StackPc, config: Owner, data: Owner, active: bool, pending: nat)

  const START := State(ScopeOut, StackOut, Free, Free, false, 0)

  /** What the stages in between leave in the flag, and which command they receive, is up to them. */
  datatype Choice = Choice(active: bool, received: nat)

  function ScopeStep(s: State, c: Choice): State {
    match s.scope
    case ScopeOut => if s.config == Free then s.(scope := ReadFlags, config := Held(ScopeThread)) else s
    case ReadFlags => s.(scope := if s.active then TryData else UnlockConfig)
    case TryData =>
      if s.data == Free then s.(scope := Polling, data := Held(ScopeThread)) else s.(scope := UnlockConfig)
    case Polling => s.(scope := UnlockData, active := c.active)
    case UnlockData => s.(scope := UnlockConfig, data := Free)
    case UnlockConfig => s.(scope := ScopeOut, config := Free)
  }

  function StackStep(s: State, c: Choice): State {
    match s.stack
    case StackOut => s.(stack := Receiving)
    case Receiving => s.(stack := Unpacking)
    case Unpacking => s.(stack := TestPending, pending := if c.received != 0 then c.received else s.pending)
    case TestPending => s.(stack := if s.pending != 0 then TryConfig else TryPack)
    case TryConfig => if s.config == Free then s.(stack := Parsing, config := Held(StackThread))
                      else s.(stack := TryPack)
    case Parsing => s.(stack := ReleaseConfig, active := c.active, pending := 0)
    case ReleaseConfig => s.(stack := TryPack, config := Free)
    case TryPack => if s.data == Free then s.(stack := Aggregating, data := Held(StackThread))
                    else s.(stack := StackOut)
    case Aggregating => s.(stack := Packing)
    case Packing => s.(stack := Sending)
    case Sending => s.(stack := ReleaseData)
    case ReleaseData => s.(stack := StackOut, data := Free)
  }

  function Step(s: State, t: Thread, c: Choice): State {
    if t == ScopeThread then ScopeStep(s, c) else StackStep(s, c)
  }

  /** The state after a schedule: which thread steps, and what its stage leaves behind. */
  function After(s: State, schedule: seq<(Thread, Choice)>): State {
    if schedule == [] then s
    else
      var last := schedule[|schedule| - 1];
      Step(After(s, schedule[..|schedule| - 1]), last.0, last.1)
  }

  // ----------------------------------------------------- what the stages touch

  datatype Resource = ScopeState | EventQueue | Windows | Mailboxes | TxBuffers

  /** None, read or write: how a thread in the midst of a stage uses a resource. */
  datatype Use = No | Read | Write

  function ScopeUse(pc: ScopePc, r: Resource): Use {
    match pc
    case ReadFlags => if r == ScopeState then Read else No
    case Polling => if r == ScopeState || r == EventQueue || r == Windows then Write else No
    case _ => No
  }

  function StackUse(pc: StackPc, r: Resource): Use {
    match pc
    case Receiving => if r == Mailboxes then Write else No
    case Unpacking => if r == Mailboxes then Write else No
    case TestPending => if r == Mailboxes then Read else No
    case Parsing => if r == TxBuffers then No else Write
    case Aggregating => if r == EventQueue || r == Mailboxes then Write else Read
    case Packing => if r == ScopeState || r == EventQueue then No else Write
    case Sending => if r == TxBuffers then Write else No
    case _ => No
  }

  predicate Conflict(s: State, r: Resource) {
    var a, b := ScopeUse(s.scope, r), StackUse(s.stack, r);
    (a == Write && b != No) || (a != No && b == Write)
  }

  // ------------------------------------------------------------------ theorems

  /** A lock is held by exactly the thread that is between its attempt and its release. */
  predicate LocksMatch(s: State) {
    && (s.config == Held(ScopeThread) <==> s.scope != ScopeOut)
    && (s.config == Held(StackThread) <==> s.stack == Parsing || s.stack == ReleaseConfig)
    && (s.data == Held(ScopeThread) <==> s.scope == Polling || s.scope == UnlockData)
    && (s.data == Held(StackThread) <==>
          s.stack == Aggregating || s.stack == Packing || s.stack == Sending || s.stack == ReleaseData)
  }

  lemma {:induction false} LocksAlwaysMatch(schedule: seq<(Thread, Choice)>)
    ensures LocksMatch(After(START, schedule))
  {
    if schedule != [] {
      LocksAlwaysMatch(schedule[..|schedule| - 1]);
    }
  }

  /** No interleaving brings the threads into conflicting stages at the same time. */
  lemma NoRace(schedule: seq<(Thread, Choice)>, r: Resource)
    ensures !Conflict(After(START, schedule), r)
  {
    LocksAlwaysMatch(schedule);
  }

  /** While one thread is in a stage, no step of the other leaves a stage that writes what the first uses. */
  lemma StagesAreUndisturbed(schedule: seq<(Thread, Choice)>, r: Resource, c: Choice)
    ensures var s := After(START, schedule);
            && (StackUse(s.stack, r) != No ==>
                  ScopeUse(s.scope, r) != Write && ScopeUse(ScopeStep(s, c).scope, r) != Write)
            && (ScopeUse(s.scope, r) != No ==>
                  StackUse(s.stack, r) != Write && StackUse(StackStep(s, c).stack, r) != Write)
  {
    NoRace(schedule, r);
    assert After(START, schedule + [(ScopeThread, c)]) == ScopeStep(After(START, schedule), c) by {
      assert (schedule + [(ScopeThread, c)])[..|schedule|] == schedule;
    }
    assert After(START, schedule + [(StackThread, c)]) == StackStep(After(START, schedule), c) by {
      assert (schedule + [(StackThread, c)])[..|schedule|] == schedule;
    }
    NoRace(schedule + [(ScopeThread, c)], r);
    NoRace(schedule + [(StackThread, c)], r);
  }

  /** Steps a thread still has to make until it is out of its run, whatever the other does meanwhile. */
  function ToGo(s: State, t: Thread): nat {
    if t == ScopeThread then
      match s.scope
      case ScopeOut => 0
      case UnlockConfig => 1
      case UnlockData => 2
      case Polling => 3
      case TryData => 4
      case ReadFlags => 5
    else
      match s.stack
      case StackOut => 0
      case ReleaseData => 1
      case Sending => 2
      case Packing => 3
      case Aggregating => 4
      case TryPack => 5
      case ReleaseConfig => 6
      case Parsing => 7
      case TryConfig => 8
      case TestPending => 9
      case Unpacking => 10
      case Receiving => 11
  }

  function StepsOf(schedule: seq<(Thread, Choice)>, t: Thread): nat {
    if schedule == [] then 0
    else StepsOf(schedule[..|schedule| - 1], t) + if schedule[|schedule| - 1].0 == t then 1 else 0
  }

  /** A thread on its way is never held up: its own steps count down, the other's leave the count alone. */
  lemma NobodyWaits(s: State, t: Thread, u: Thread, c: Choice)
    requires ToGo(s, t) > 0
    ensures if u == t then ToGo(Step(s, u, c), t) < ToGo(s, t) else ToGo(Step(s, u, c), t) == ToGo(s, t)
  {
  }

  /**
   Every lock is released and no state is a deadlock: in any schedule in which a thread
   makes as many steps of its own as it has to go, it gets out, holding nothing then.
   */
  lemma {:induction false} EveryRunEnds(before: seq<(Thread, Choice)>, schedule: seq<(Thread, Choice)>, t: Thread)
    requires StepsOf(schedule, t) >= ToGo(After(START, before), t)
    ensures exists k | 0 <= k <= |schedule| ::
              var s := After(START, before + schedule[..k]);
              ToGo(s, t) == 0 && s.config != Held(t) && s.data != Held(t)
  {
    var k := Out(After(START, before), schedule, t);
    AfterInARow(START, before, schedule[..k]);
    LocksAlwaysMatch(before + schedule[..k]);
  }

  lemma {:induction false} AfterInARow(s: State, a: seq<(Thread, Choice)>, b: seq<(Thread, Choice)>)
    ensures After(s, a + b) == After(After(s, a), b)
  {
    if b == [] {
      assert a + b == a;
    } else {
      assert (a + b)[..|a + b| - 1] == a + b[..|b| - 1];
      AfterInARow(s, a, b[..|b| - 1]);
    }
  }

  lemma {:induction false} Out(s: State, schedule: seq<(Thread, Choice)>, t: Thread) returns (k: nat)
    requires StepsOf(schedule, t) >= ToGo(s, t)
    ensures k <= |schedule| && ToGo(After(s, schedule[..k]), t) == 0
  {
    assert schedule[..|schedule|] == schedule;
    if forall j: nat | j <= |schedule| :: ToGo(After(s, schedule[..j]), t) > 0 {
      NeverOut(s, schedule, t);
      assert false;
    }
    k :| k <= |schedule| && ToGo(After(s, schedule[..k]), t) == 0;
  }

  lemma {:induction false} NeverOut(s: State, schedule: seq<(Thread, Choice)>, t: Thread)
    requires forall j: nat | j <= |schedule| :: ToGo(After(s, schedule[..j]), t) > 0
    ensures ToGo(After(s, schedule), t) + StepsOf(schedule, t) <= ToGo(s, t)
  {
    assert schedule[..|schedule|] == schedule;
    if schedule != [] {
      var front, last := schedule[..|schedule| - 1], schedule[|schedule| - 1];
      forall j: nat | j <= |front| ensures ToGo(After(s, front[..j]), t) > 0 {
        assert front[..j] == schedule[..j];
      }
      NeverOut(s, front, t);
      assert front[..|front|] == front;
      NobodyWaits(After(s, front), t, last.0, last.1);
    }
  }

  ghost predicate Reachable(s: State) {
    exists schedule :: After(START, schedule) == s
  }

  lemma Then(s: State, t: Thread, c: Choice) returns (s': State)
    requires Reachable(s)
    ensures s' == Step(s, t, c) && Reachable(s')
  {
    var schedule :| After(START, schedule) == s;
    s' := Step(s, t, c);
    assert (schedule + [(t, c)])[..|schedule|] == schedule;
    assert After(START, schedule + [(t, c)]) == s';
  }

  lemma InTheBeginning()
    ensures Reachable(START)
  {
    assert After(START, []) == START;
  }

  /** The locks do not serialise everything: flags may be read while a message is being aggregated. */
  lemma ThreadsOverlap()
    ensures exists s :: Reachable(s) && s.scope == ReadFlags && s.stack == Aggregating
  {
    hide Reachable;
    var c := Choice(false, 0);
    InTheBeginning();
    var s := Then(START, StackThread, c);
    s := Then(s, StackThread, c);
    s := Then(s, StackThread, c);
    s := Then(s, StackThread, c);
    s := Then(s, StackThread, c);
    s := Then(s, ScopeThread, c);
  }

  /** A pending command is put off exactly while the scope thread is in its run. */
  lemma CommandIsPutOffIff(schedule: seq<(Thread, Choice)>, c: Choice)
    requires After(START, schedule).stack == TryConfig
    ensures var s := After(START, schedule);
            && (StackStep(s, c).stack == TryPack <==> s.scope != ScopeOut)
            && (StackStep(s, c).stack == Parsing <==> s.scope == ScopeOut)
            && StackStep(s, c).pending == s.pending
  {
    LocksAlwaysMatch(schedule);
  }

  /** A command that was put off is still there when the next one is unpacked over it, whatever the two are. */
  lemma CommandMayBeOverwritten(first: nat, second: nat)
    requires first != 0 && second != 0
    ensures exists s :: Reachable(s) && s.stack == Unpacking && s.pending == first
                        && StackStep(s, Choice(s.active, second)).pending == second
  {
    hide Reachable;
    var c := Choice(false, first);
    InTheBeginning();
    var s := Then(START, StackThread, c);
    s := Then(s, StackThread, c);
    s := Then(s, StackThread, c);
    s := Then(s, StackThread, c);
    s := Then(s, ScopeThread, c);
    s := Then(s, StackThread, c);
    assert s == State(ReadFlags, TryPack, Held(ScopeThread), Free, false, first);
    s := Then(s, StackThread, c);
    s := Then(s, StackThread, c);
    s := Then(s, StackThread, c);
    s := Then(s, StackThread, c);
    s := Then(s, StackThread, c);
    s := Then(s, StackThread, c);
    s := Then(s, StackThread, c);
  }

  // -------------------------------------------- what a run of a thread does

  /** The other thread's steps leave a thread where it is. */
  lemma {:induction false} OthersSteps(s: State, schedule: seq<(Thread, Choice)>, t: Thread)
    requires forall k | 0 <= k < |schedule| :: schedule[k].0 != t
    ensures var r := After(s, schedule);
            (t == ScopeThread ==> r.scope == s.scope) && (t == StackThread ==> r.stack == s.stack)
  {
    if schedule != [] {
      OthersSteps(s, schedule[..|schedule| - 1], t);
    }
  }

  lemma {:induction false} ReachableOn(s: State, schedule: seq<(Thread, Choice)>)
    requires Reachable(s)
    ensures Reachable(After(s, schedule))
  {
    var before :| After(START, before) == s;
    AfterInARow(START, before, schedule);
  }

  lemma ReachableMatch(s: State)
    requires Reachable(s)
    ensures LocksMatch(s)
  {
    var schedule :| After(START, schedule) == s;
    LocksAlwaysMatch(schedule);
  }

  /** The stack thread has the data lock. */
  predicate StackHasData(pc: StackPc) {
    pc == Aggregating || pc == Packing || pc == Sending || pc == ReleaseData
  }

  /** The stack thread has the config lock. */
  predicate StackHasConfig(pc: StackPc) {
    pc == Parsing || pc == ReleaseConfig
  }

  /** A run of the scope thread begins exactly when the stack thread does not have the config lock. */
  lemma ScopeRunBegins(s: State, c: Choice)
    requires Reachable(s) && s.scope == ScopeOut
    ensures ScopeStep(s, c).scope == ReadFlags <==> !StackHasConfig(s.stack)
    ensures ScopeStep(s, c).scope == ReadFlags || ScopeStep(s, c) == s
  {
    ReachableMatch(s);
  }

  /**
   From the flags to its end, whatever the stack thread does in between: a run of the scope thread polls if
   and only if the scope is active when the flags are read and the stack thread does not have the data
   lock when it is tried, and is out two or three steps later.
   */
  lemma ScopePollsIff(s: State, a: seq<(Thread, Choice)>, b: seq<(Thread, Choice)>, c: Choice, d: Choice)
    requires Reachable(s) && s.scope == ReadFlags
    requires (forall k | 0 <= k < |a| :: a[k].0 == StackThread) && (forall k | 0 <= k < |b| :: b[k].0 == StackThread)
    ensures var flags := After(s, a); var try := After(ScopeStep(flags, c), b); var end := ScopeStep(try, d);
            && flags.scope == ReadFlags
            && (try.scope == TryData <==> flags.active) && (try.scope == UnlockConfig <==> !flags.active)
            && (end.scope == Polling <==> flags.active && !StackHasData(try.stack))
            && (end.scope == UnlockConfig <==> flags.active && StackHasData(try.stack))
            && (end.scope == ScopeOut <==> !flags.active)
  {
    var flags := After(s, a);
    OthersSteps(s, a, ScopeThread);
    ReachableOn(s, a);
    var read := Then(flags, ScopeThread, c);
    OthersSteps(read, b, ScopeThread);
    ReachableOn(read, b);
    hide Reachable, After;
    ScopeTries(After(read, b), d);
  }

  lemma ScopeTries(s: State, c: Choice)
    requires Reachable(s)
    ensures s.scope == TryData ==> (ScopeStep(s, c).scope == if StackHasData(s.stack) then UnlockConfig else Polling)
    ensures s.scope == UnlockConfig ==> ScopeStep(s, c).scope == ScopeOut
  {
    ReachableMatch(s);
  }

  lemma OneStep(s: State, t: Thread, c: Choice)
    ensures After(s, [(t, c)]) == Step(s, t, c)
  {
    assert [(t, c)][..0] == [] && After(s, [(t, c)][..0]) == s;
  }

  /** After polling both locks are given back, the data lock first. */
  lemma ScopeReleases(s: State, c: Choice)
    requires Reachable(s)
    ensures s.scope == Polling ==> ScopeStep(s, c).scope == UnlockData && ScopeStep(s, c).active == c.active
    ensures s.scope == UnlockData ==> ScopeStep(s, c).scope == UnlockConfig && ScopeStep(s, c).data == Free
    ensures s.scope == UnlockConfig ==> ScopeStep(s, c).scope == ScopeOut && ScopeStep(s, c).config == Free
  {
  }

  /**
   A run of the stack thread from the start, whatever the scope thread does in between: it receives, then
   unpacks, and what it unpacks is pending afterwards.
   */
  lemma StackReceivesFirst(s: State, a: seq<(Thread, Choice)>, b: seq<(Thread, Choice)>, d: seq<(Thread, Choice)>,
                           c0: Choice, c1: Choice, c2: Choice)
    requires s.stack == StackOut
    requires (forall k | 0 <= k < |a| :: a[k].0 == ScopeThread) && (forall k | 0 <= k < |b| :: b[k].0 == ScopeThread)
    requires forall k | 0 <= k < |d| :: d[k].0 == ScopeThread
    ensures var s1 := After(StackStep(After(s, a), c0), b); var s2 := After(StackStep(s1, c1),
                                                                            d); var s3 := StackStep(s2, c2);
            && s1.stack == Receiving && s2.stack == Unpacking && s3.stack == TestPending
            && s3.pending == if c2.received != 0 then c2.received else s2.pending
  {
    OthersSteps(s, a, StackThread);
    OthersSteps(StackStep(After(s, a), c0), b, StackThread);
    var s1 := After(StackStep(After(s, a), c0), b);
    OthersSteps(StackStep(s1, c1), d, StackThread);
  }

  /**
   From the test for a command on: the stack thread parses if and only if one is pending at the test and the
   scope thread is out of its run when the lock is tried; the command is then no longer pending.
   */
  lemma StackParsesIff(s: State, a: seq<(Thread, Choice)>, c: Choice, d: Choice, e: Choice)
    requires Reachable(s) && s.stack == TestPending && forall k | 0 <= k < |a| :: a[k].0 == ScopeThread
    ensures var try := After(StackStep(s, c), a); var end := StackStep(try, d);
            && (try.stack == TryConfig <==> s.pending != 0) && (try.stack == TryPack <==> s.pending == 0)
            && (end.stack == Parsing <==> s.pending != 0 && try.scope == ScopeOut)
            && (s.pending != 0 && try.scope != ScopeOut ==> end.stack == TryPack && end.pending == try.pending)
            && (end.stack == Parsing ==>
                  StackStep(end, e).pending == 0 && StackStep(end, e).active == e.active
                  && StackStep(end, e).stack == ReleaseConfig)
  {
    OneStep(s, StackThread, c);
    ReachableOn(s, [(StackThread, c)]);
    var test := StackStep(s, c);
    OthersSteps(test, a, StackThread);
    ReachableOn(test, a);
    hide Reachable, After;
    StackTries(After(test, a), d, e);
  }

  lemma StackTries(s: State, c: Choice, d: Choice)
    requires Reachable(s)
    ensures s.stack == TryConfig ==>
              && StackStep(s, c).stack == (if s.scope == ScopeOut then Parsing else TryPack)
              && StackStep(s, c).pending == s.pending
    ensures s.stack == TryPack ==> StackStep(s, c).stack != Parsing
    ensures StackStep(s, c).stack == Parsing ==>
              var r := StackStep(StackStep(s, c), d); r.pending == 0 && r.active == d.active && r.stack == ReleaseConfig
  {
    ReachableMatch(s);
  }

  /**
   From the data lock on: the stack thread packs and sends if and only if the scope thread is not
   polling when it tries.
   */
  lemma StackPacksIff(s: State, c: Choice)
    requires Reachable(s) && s.stack == TryPack
    ensures StackStep(s, c).stack == Aggregating <==> s.scope != Polling && s.scope != UnlockData
    ensures StackStep(s, c).stack == StackOut <==> s.scope == Polling || s.scope == UnlockData
  {
    ReachableMatch(s);
  }

  /** Aggregating, packing, sending, the release and the end of the run follow one another. */
  lemma StackFinishes(s: State, c: Choice)
    requires Reachable(s)
    ensures s.stack == ReleaseConfig ==> StackStep(s, c).stack == TryPack && StackStep(s, c).config == Free
    ensures s.stack == Aggregating ==> StackStep(s, c).stack == Packing
    ensures s.stack == Packing ==> StackStep(s, c).stack == Sending
    ensures s.stack == Sending ==> StackStep(s, c).stack == ReleaseData
    ensures s.stack == ReleaseData ==> StackStep(s, c).stack == StackOut && StackStep(s, c).data == Free
  {
  }
}
