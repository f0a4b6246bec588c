/**
 The capture cycle on values: what each operation of the channels, the timestamper,
 the trigger and the scope makes of the fields. The classes are proved against these
 functions; the theorems about runs are about them.
 */
module CaptureSpec {
  import opened Bytes

  datatype ChannelState = Init | Stopped | Running

  /** `stream` is the two-sample trigger stream, `last` the sample polled last. */
  datatype Chan = Chan(state: ChannelState, poll: seq<real>, swap: seq<real>, stream: seq<real>, last: real)

  /** What a timestamp stream does when it is written while full: the library behind it decides. */
  datatype FullPolicy = OverwriteOldest | RefuseNewest

  /** Which of the two streams the packer was handed last: none yet, the one being collected, or the one waiting. */
  datatype Held = NoStream | Collecting | Waiting

  datatype Stamper = Stamper(running: bool, increment: Word, last: Word, poll: seq<Word>, swap: seq<Word>, held: Held)

  /** The streams change places; the packer keeps the one it has. */
  function Exchanged(h: Held): Held {
    match h case NoStream => NoStream case Collecting => Waiting case Waiting => Collecting
  }

  function StampSwap(t: Stamper): Stamper {
    t.(poll := [], swap := t.poll, held := Exchanged(t.held))
  }

  datatype Mode = Normal | Continuous | OneShot

  datatype Phase = Idle | Detecting | FillUp | CleanUp | Paused

  datatype Trig = Trig(level: real, rising: bool, mode: Mode, active: nat, phase: Phase, hit: bool, hitSwap: bool,
                       index: Word, indexSwap: Word, saved: seq<bool>, fillUpCount: nat)

  datatype Core = Core(cap: nat, full: FullPolicy, chans: seq<Chan>, ts: Stamper, tr: Trig)

  datatype Scope = Scope(core: Core, running: bool, ready: bool)

  /** The newest `n` entries. */
  function Newest<T>(n: nat, s: seq<T>): (r: seq<T>)
    ensures |r| == if |s| <= n then |s| else n
  {
    if |s| <= n then s else s[|s| - n..]
  }

  // --------------------------------------------------------------- channel

  function ChanPoll(cap: nat, c: Chan, x: real): Chan {
    if c.state == Running then c.(poll := Newest(cap, c.poll + [x]), stream := [c.last, x], last := x) else c
  }

  function ChanRun(c: Chan): Chan {
    if c.state == Stopped then c.(state := Running) else c
  }

  function ChanStop(c: Chan): Chan {
    if c.state == Running then c.(state := Stopped) else c
  }

  function ChanClear(c: Chan): Chan {
    c.(poll := [], swap := [], stream := [])
  }

  function ChanSwap(c: Chan): Chan {
    c.(poll := [], swap := c.poll)
  }

  predicate ChanSwapPending(cap: nat, c: Chan) {
    |c.poll| == cap && c.swap == []
  }

  function PollAll(cap: nat, cs: seq<Chan>, xs: seq<real>): (r: seq<Chan>)
    requires |xs| == |cs|
    ensures |r| == |cs|
  {
    seq(|cs|, i requires 0 <= i < |cs| => ChanPoll(cap, cs[i], xs[i]))
  }

  function StopAll(cs: seq<Chan>): (r: seq<Chan>)
    ensures |r| == |cs|
  {
    seq(|cs|, i requires 0 <= i < |cs| => ChanStop(cs[i]))
  }

  function ClearAll(cs: seq<Chan>): (r: seq<Chan>)
    ensures |r| == |cs|
  {
    seq(|cs|, i requires 0 <= i < |cs| => ChanClear(cs[i]))
  }

  function SwapAll(cs: seq<Chan>): (r: seq<Chan>)
    ensures |r| == |cs|
  {
    seq(|cs|, i requires 0 <= i < |cs| => ChanSwap(cs[i]))
  }

  function RestoreAll(cs: seq<Chan>, saved: seq<bool>): (r: seq<Chan>)
    requires |saved| == |cs|
    ensures |r| == |cs|
  {
    seq(|cs|, i requires 0 <= i < |cs| => if saved[i] then ChanRun(cs[i]) else cs[i])
  }

  function RunningFlags(cs: seq<Chan>): (r: seq<bool>)
    ensures |r| == |cs|
  {
    seq(|cs|, i requires 0 <= i < |cs| => cs[i].state == Running)
  }

  predicate AllStopped(cs: seq<Chan>) {
    forall i | 0 <= i < |cs| :: cs[i].state != Running
  }

  // ----------------------------------------------------------- timestamper

  /** The comparison is made on uint32_t, so the sum may wrap. */
  predicate Eligible(t: Stamper, now: Word) {
    now >= (t.last + t.increment) % 0x1_0000_0000
  }

  function StreamWrite(cap: nat, full: FullPolicy, s: seq<Word>, w: Word): seq<Word> {
    if |s| >= cap && full == RefuseNewest then s else Newest(cap, s + [w])
  }

  function Stamp(cap: nat, full: FullPolicy, t: Stamper, now: Word): Stamper {
    t.(last := now, poll := if t.running then StreamWrite(cap, full, t.poll, now) else t.poll)
  }

  // --------------------------------------------------------------- trigger

  predicate WellFormed(c: Core) {
    && c.cap >= 1 && c.tr.active < |c.chans| == |c.tr.saved|
    && (forall i | 0 <= i < |c.chans| :: |c.chans[i].poll| <= c.cap && |c.chans[i].swap| <= c.cap)
    && |c.ts.poll| <= c.cap && |c.ts.swap| <= c.cap
  }

  /** No operation of the trigger changes these. */
  predicate SameShape(c: Core, c': Core) {
    && c'.cap == c.cap && c'.full == c.full && |c'.chans| == |c.chans| && |c'.tr.saved| == |c.tr.saved|
    && c'.tr.active == c.tr.active && c'.tr.mode == c.tr.mode && c'.tr.level == c.tr.level
    && c'.tr.rising == c.tr.rising
  }

  /** An edge in the configured direction with the level on it. */
  predicate Crosses(tr: Trig, previous: real, current: real) {
    if tr.rising then previous < current && previous <= tr.level <= current
    else current < previous && current <= tr.level <= previous
  }

  function TrigClear(tr: Trig): Trig {
    tr.(hit := false, index := 0, fillUpCount := 0)
  }

  function Active(c: Core): Chan
    requires c.tr.active < |c.chans|
  {
    c.chans[c.tr.active]
  }

  function StopAllAndStamps(c: Core): Core {
    c.(chans := StopAll(c.chans), ts := c.ts.(running := false))
  }

  function Save(c: Core): Core {
    c.(tr := c.tr.(saved := RunningFlags(c.chans)), ts := c.ts.(running := true))
  }

  function Restore(c: Core): Core
    requires |c.tr.saved| == |c.chans|
  {
    c.(chans := RestoreAll(c.chans, c.tr.saved), ts := c.ts.(running := true))
  }

  predicate SwapPending(c: Core)
    requires c.tr.active < |c.chans|
  {
    ChanSwapPending(c.cap, Active(c)) && |c.ts.poll| == c.cap && c.ts.swap == []
  }

  function SwapBuffers(c: Core): Core {
    c.(chans := SwapAll(c.chans), ts := StampSwap(c.ts),
       tr := c.tr.(hitSwap := c.tr.hit, indexSwap := c.tr.index))
  }

  function Start(c: Core): (r: Core)
    requires WellFormed(c)
    ensures SameShape(c, r)
  {
    if c.tr.mode == OneShot then c else var c' := Restore(c); c'.(tr := c'.tr.(phase := Detecting))
  }

  function Detect(c: Core): (r: Core)
    requires WellFormed(c)
    ensures SameShape(c, r)
  {
    if c.tr.mode == Continuous then c.(tr := c.tr.(hit := false, phase := FillUp))
    else if |Active(c).poll| < c.cap / 2 || |Active(c).stream| != 2 then c
    else
      var pair := Active(c).stream;
      var c' := c.(chans := c.chans[c.tr.active := Active(c).(stream := [])]);
      if Crosses(c.tr, pair[0], pair[1]) then c'.(tr := c.tr.(hit := true, index := c.ts.last, phase := FillUp))
      else c'.(tr := c.tr.(hit := false))
  }

  function FillUpStep(c: Core): (r: Core)
    requires WellFormed(c)
    ensures SameShape(c, r)
  {
    var counted := if c.tr.mode == Continuous then c
                   else c.(tr := c.tr.(fillUpCount := (c.tr.fillUpCount + 1) % 0x1_0000_0000));
    if |Active(c).poll| < c.cap || (c.tr.mode != Continuous && counted.tr.fillUpCount < c.cap / 2) then counted
    else var c' := Save(counted); c'.(tr := c'.tr.(phase := CleanUp))
  }

  function CleanUpStep(c: Core): (r: (Core, bool))
    requires WellFormed(c)
    ensures SameShape(c, r.0)
  {
    var stopped := StopAllAndStamps(c);
    if !SwapPending(stopped) then (stopped, false)
    else
      var c' := SwapBuffers(stopped);
      (c'.(tr := c'.tr.(phase := if c.tr.mode == OneShot then Idle else Paused, fillUpCount := 0)), true)
  }

  function TriggerRun(c: Core): (r: (Core, bool))
    requires WellFormed(c)
    ensures SameShape(c, r.0)
  {
    match c.tr.phase
    case Idle => (c, false)
    case Paused => var c' := Start(c); (c'.(tr := TrigClear(c'.tr)), false)
    case Detecting => (Detect(c), false)
    case FillUp => (FillUpStep(c), false)
    case CleanUp => CleanUpStep(c)
  }

  function Activate(c: Core): (r: Core)
    requires WellFormed(c)
    ensures SameShape(c, r)
  {
    var c' := Restore(c);
    c'.(chans := ClearAll(c'.chans), ts := c'.ts.(poll := [], swap := []), tr := TrigClear(c'.tr.(phase := Detecting)))
  }

  function Deactivate(c: Core): Core {
    var c' := StopAllAndStamps(Save(c));
    c'.(tr := c'.tr.(phase := Idle, fillUpCount := 0))
  }

  // ----------------------------------------------------------------- scope

  predicate Valid(s: Scope) {
    WellFormed(s.core)
  }

  /** The stamps, the samples and the trigger of one poll that is due. */
  function Tick(c: Core, now: Word, xs: seq<real>): (r: (Core, bool))
    requires WellFormed(c) && |xs| == |c.chans|
    ensures SameShape(c, r.0)
  {
    TriggerRun(c.(ts := Stamp(c.cap, c.full, c.ts, now), chans := PollAll(c.cap, c.chans, xs)))
  }

  function ScopePoll(s: Scope, now: Word, xs: seq<real>): (Scope, bool)
    requires Valid(s) && |xs| == |s.core.chans|
  {
    if !s.ready then (s, false)
    else if !Eligible(s.core.ts, now) then (s.(running := true), false)
    else var (c, sent) := Tick(s.core, now, xs); (Scope(c, true, true), sent)
  }

  function SetChan(c: Core, i: nat, ch: Chan): Core
    requires i < |c.chans|
  {
    c.(chans := c.chans[i := ch])
  }

  function SetChannelRunning(s: Scope, i: nat): Scope
    requires Valid(s)
  {
    if i >= |s.core.chans| then s
    else
      var c := SetChan(s.core, i, ChanRun(s.core.chans[i]));
      if AllStopped(c.chans) then s.(core := c) else s.(core := Activate(c), ready := true)
  }

  function SetChannelStopped(s: Scope, i: nat): Scope
    requires Valid(s)
  {
    if i >= |s.core.chans| then s
    else
      var c := SetChan(s.core, i, ChanStop(s.core.chans[i]));
      if AllStopped(c.chans) then Scope(Deactivate(c), false, false) else s.(core := c)
  }

  function SetAddress(s: Scope, i: nat): Scope {
    if i < |s.core.chans| && s.core.chans[i].state == Init
    then s.(core := SetChan(s.core, i, s.core.chans[i].(state := Stopped))) else s
  }

  function ClearScope(s: Scope): Scope {
    var c := s.core;
    s.(core := c.(chans := ClearAll(c.chans), ts := c.ts.(poll := [], swap := []), tr := TrigClear(c.tr)))
  }

  function Configure(s: Scope, level: real, rising: bool, mode: Mode, i: nat): Scope {
    if i >= |s.core.chans| then s
    else s.(core := s.core.(tr := s.core.tr.(level := level, rising := rising, mode := mode, active := i)))
  }

  function FreshChans(n: nat): (r: seq<Chan>)
    ensures |r| == n
  {
    seq(n, _ => Chan(Init, [], [], [], 0.0))
  }

  function NothingSaved(n: nat): (r: seq<bool>)
    ensures |r| == n
  {
    seq(n, _ => false)
  }

  function FreshCore(cap: nat, full: FullPolicy, n: nat): Core {
    Core(cap, full, FreshChans(n), Stamper(false, 1, 0, [], [], NoStream),
         Trig(0.0, false, Continuous, 0, Idle, false, false, 0, 0, NothingSaved(n), 0))
  }

  function Fresh(cap: nat, full: FullPolicy, n: nat): Scope {
    Scope(FreshCore(cap, full, n), false, false)
  }

  // ---------------------------------------------- what the packer takes away

  /** One captured window: per channel the full buffer (or nothing), the stamps and the trigger. */
  datatype Window = Window(samples: seq<seq<real>>, stamps: seq<Word>, triggered: bool, index: Word)

  predicate HasToBePacked(cap: nat, c: Chan) {
    |c.swap| == cap
  }

  predicate AnyToPack(c: Core) {
    exists i | 0 <= i < |c.chans| :: HasToBePacked(c.cap, c.chans[i])
  }

  function WindowOf(c: Core): Window {
    Window(seq(|c.chans|, i requires 0 <= i < |c.chans| => if HasToBePacked(c.cap, c.chans[i]) then c.chans[i].swap
                                                           else []),
           c.ts.swap, c.tr.hitSwap, c.tr.indexSwap)
  }

  function DrainAll(cap: nat, cs: seq<Chan>): (r: seq<Chan>)
    ensures |r| == |cs|
  {
    seq(|cs|, i requires 0 <= i < |cs| => if HasToBePacked(cap, cs[i]) then cs[i].(swap := []) else cs[i])
  }

  /** The packer is handed the waiting stamps and reads them and the full buffers until they are empty. */
  function Drain(c: Core): Core {
    c.(chans := DrainAll(c.cap, c.chans), ts := c.ts.(swap := [], held := Waiting))
  }

  /** Without a full buffer the packer is handed nothing, and reads the stream that it still has. */
  function ReadHeld(c: Core): Core {
    match c.ts.held
    case NoStream => c
    case Collecting => c.(ts := c.ts.(poll := []))
    case Waiting => c.(ts := c.ts.(swap := []))
  }

  function HeldStamps(t: Stamper): seq<Word> {
    match t.held case NoStream => [] case Collecting => t.poll case Waiting => t.swap
  }

  /** One SC_DATA message is packed. */
  function Packed(c: Core): Core {
    if AnyToPack(c) then Drain(c) else ReadHeld(c)
  }

  // ------------------------------------------------------------------ runs

  datatype Event =
    | EvSetAddress(i: nat)
    | EvStart(i: nat)
    | EvStop(i: nat)
    | EvClear
    | EvConfigure(level: real, rising: bool, mode: Mode, i: nat)
    | EvIncrement(increment: Word)
    | EvPoll(now: Word, xs: seq<real>)
    | EvPack

  /** `Stale`: a message without samples, of the stamps in the stream that the packer still had. */
  datatype Output = Nothing | Sent(window: Window) | PackedWindow(window: Window) | Stale(stamps: seq<Word>)

  predicate Fits(s: Scope, e: Event) {
    e.EvPoll? ==> |e.xs| == |s.core.chans|
  }

  function Apply(s: Scope, e: Event): (Scope, Output)
    requires Valid(s) && Fits(s, e)
  {
    match e
    case EvSetAddress(i) => (SetAddress(s, i), Nothing)
    case EvStart(i) => (SetChannelRunning(s, i), Nothing)
    case EvStop(i) => (SetChannelStopped(s, i), Nothing)
    case EvClear => (ClearScope(s), Nothing)
    case EvConfigure(level, rising, mode, i) => (Configure(s, level, rising, mode, i), Nothing)
    case EvIncrement(increment) => (s.(core := s.core.(ts := s.core.ts.(increment := increment))), Nothing)
    case EvPoll(now, xs) =>
      var (s', sent) := ScopePoll(s, now, xs);
      (s', if sent then Sent(WindowOf(s'.core)) else Nothing)
    case EvPack =>
      (s.(core := Packed(s.core)), if AnyToPack(s.core) then PackedWindow(WindowOf(s.core))
                                   else Stale(HeldStamps(s.core.ts)))
  }
}
