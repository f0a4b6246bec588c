/** The framed interface: one object that frames outgoing payloads and unframes incoming bytes. */
module Framing {
  import opened Bytes
  import opened FrameSpec
  import opened FrameProofs
  import SendLine

  datatype TxState = Head | Body | Foot | None

  /** The transmitter's fields; head, output and tail are the contents of its ring buffers. */
  datatype Tx = Tx(state: TxState, ready: bool, msgType: Byte, checksum: nat, head: seq<Byte>, output: seq<Byte>,
                   tail: seq<Byte>)

  /** Every byte the transmitter still owes, in order, whatever the sizes in which it is asked for them. */
  function Remaining(t: Tx): seq<Byte> {
    match t.state
    case Head => t.head + t.output + Footer(Sum16(t.output))
    case Body => t.output + Footer((t.checksum + Sum16(t.output)) % 0x1_0000)
    case Foot => t.tail
    case None => []
  }

  /** The transmitter's place in the line of messages. */
  function LineOf(t: Tx): SendLine.Line {
    SendLine.Line(t.state != None, t.ready, t.msgType)
  }

  predicate TxValid(t: Tx) {
    t.checksum < 0x1_0000 && |t.head| <= 6 && |t.tail| <= 3 &&
    match t.state
    case Head => t.head != [] && t.checksum == 0
    case Body => t.head == []
    case Foot => t.head == [] && t.tail != [] && t.checksum == 0
    case None => t.checksum == 0
  }

  predicate RxValid(s: Rx) {
    s.count < (match s.phase case Length => 4 case Checksum => 2 case _ => 1)
  }

  /** Everything a check does to the receiver is what its bytes do, one by one. */
  ghost predicate Consumed(cap: nat, s: Rx, s': Rx, data: seq<Byte>, from: nat, to: nat) {
    from <= to <= |data| && Settle(s') == Feed(cap, Settle(s), data[from..to])
  }

  lemma NothingConsumed(cap: nat, s: Rx, data: seq<Byte>, from: nat)
    requires from <= |data|
    ensures Feed(cap, Settle(s), data[from..from]) == Settle(s) && !Completes(cap, Settle(s), data[from..from])
  {
    assert data[from..from] == [];
  }

  lemma OneMoreConsumed(cap: nat, s: Rx, data: seq<Byte>, from: nat, to: nat)
    requires from <= to < |data|
    ensures Feed(cap, s, data[from..to + 1]) == Step(cap, Feed(cap, s, data[from..to]), data[to])
    ensures Completes(cap, s, data[from..to + 1])
            == (Completes(cap, s, data[from..to])
                || (Feed(cap, s, data[from..to]).phase == EndFlag && data[to] == CLOSE))
  {
    FeedSnoc(cap, s, data[from..to], data[to]);
    assert data[from..to] + [data[to]] == data[from..to + 1];
  }

  lemma ConsumedInARow(cap: nat, s: Rx, data: seq<Byte>, from: nat, mid: nat, to: nat)
    requires from <= mid <= to <= |data|
    ensures Feed(cap, s, data[from..to]) == Feed(cap, Feed(cap, s, data[from..mid]), data[mid..to])
    ensures Completes(cap, s, data[from..to])
            == (Completes(cap, s, data[from..mid]) || Completes(cap, Feed(cap, s, data[from..mid]), data[mid..to]))
  {
    FeedAppend(cap, s, data[from..mid], data[mid..to]);
    assert data[from..mid] + data[mid..to] == data[from..to];
  }

  // What one more byte does in the three phases that count bytes.

  lemma LengthByte(cap: nat, s: Rx, b: Byte)
    requires s.phase == Length
    ensures var s' := s.(expected := (s.expected + Placed(b, 3 - s.count)) % 0x1_0000_0000, count := s.count + 1);
            Step(cap, s, b) == if s'.count == 4 then Settle(s'.(count := 0, phase := Data)) else s'
  {
  }

  lemma DataByte(cap: nat, s: Rx, b: Byte)
    requires s.phase == Data && |s.input| < s.expected
    ensures Settle(s) == s
    ensures Step(cap, s, b) == Settle(s.(sum := (s.sum + b) % 0x1_0000, input := Push(cap, s.input, b)))
  {
  }

  lemma ChecksumByte(cap: nat, s: Rx, b: Byte)
    requires s.phase == Checksum && s.count < 2
    ensures var s' := s.(compare := (s.compare + Placed(b, 1 - s.count)) % 0x1_0000, count := s.count + 1);
            Step(cap, s, b) == if s'.count < 2 then s'
                               else if s'.compare == s'.sum
                               then s'.(count := 0, phase := EndFlag, compare := 0, sum := 0)
                               else FRESH
  {
  }

  lemma NothingFed(cap: nat, s: Rx, data: seq<Byte>)
    ensures Feed(cap, s, data[..0]) == s && !Completes(cap, s, data[..0])
  {
  }

  lemma FedInARow(cap: nat, s: Rx, data: seq<Byte>, mid: nat, to: nat)
    requires mid <= to <= |data|
    ensures Feed(cap, s, data[..to]) == Feed(cap, Feed(cap, s, data[..mid]), data[mid..to])
    ensures Completes(cap, s, data[..to])
            == (Completes(cap, s, data[..mid]) || Completes(cap, Feed(cap, s, data[..mid]), data[mid..to]))
  {
    FeedAppend(cap, s, data[..mid], data[mid..to]);
    assert data[..mid] + data[mid..to] == data[..to];
  }

  lemma NotStuckAt(cap: nat, s: Rx, data: seq<Byte>, k: nat)
    requires Returns(cap, s, data) && k < |data|
    ensures !Stuck(Feed(cap, s, data[..k]))
  {
  }

  function Filled(buffer: seq<Byte>, index: nat, bytes: seq<Byte>): seq<Byte>
    requires index + |bytes| <= |buffer|
  {
    buffer[..index] + bytes + buffer[index + |bytes|..]
  }

  lemma FilledPart(buffer: seq<Byte>, index: nat, bytes: seq<Byte>)
    requires index + |bytes| <= |buffer|
    ensures |Filled(buffer, index, bytes)| == |buffer| && Filled(buffer, index, bytes)[index..index + |bytes|] == bytes
  {
  }

  /** From `owed`, the bytes from `from` up to `to` of `buffer` are filled in, and `rest` is left. */
  ghost predicate HandsOut(owed: seq<Byte>, buffer: seq<Byte>, from: nat, to: nat, buffer': seq<Byte>,
                           rest: seq<Byte>) {
    && from <= to <= |buffer| && to - from <= |owed|
    && buffer' == Filled(buffer, from, owed[..to - from]) && rest == owed[to - from..]
  }

  lemma HandedOut(owed: seq<Byte>, buffer: seq<Byte>, from: nat, n: nat)
    requires from + n <= |buffer| && n <= |owed|
    ensures HandsOut(owed, buffer, from, from + n, Filled(buffer, from, owed[..n]), owed[n..])
  {
  }

  lemma NothingHandedOut(owed: seq<Byte>, buffer: seq<Byte>, from: nat)
    requires from <= |buffer|
    ensures HandsOut(owed, buffer, from, from, buffer, owed)
  {
  }

  lemma AllHandedOut(owed: seq<Byte>, buffer: seq<Byte>, from: nat, to: nat, buffer': seq<Byte>, rest: seq<Byte>)
    requires HandsOut(owed, buffer, from, to, buffer', rest)
    ensures from <= to <= |buffer| == |buffer'| && |owed| == to - from + |rest|
  {
  }

  lemma HandedOutInARow(owed: seq<Byte>, buffer: seq<Byte>, from: nat, mid: nat, buffer1: seq<Byte>, owed1: seq<Byte>,
                        to: nat, buffer2: seq<Byte>, owed2: seq<Byte>)
    requires HandsOut(owed, buffer, from, mid, buffer1, owed1) && HandsOut(owed1, buffer1, mid, to, buffer2, owed2)
    ensures HandsOut(owed, buffer, from, to, buffer2, owed2)
  {
    assert owed[..to - from] == owed[..mid - from] + owed1[..to - mid];
  }

  class FramedIO {
    const inputCapacity: nat
    var input: seq<Byte>
    var output: seq<Byte>
    var frameHead: seq<Byte>
    var frameTail: seq<Byte>

    var txDataFramingReady: bool
    var txType: Byte
    var txChecksum: nat
    var txFramedIOState: TxState

    /** How often a message was replaced before it was framed. */
    ghost var lost: nat

    var rxDataReady: bool
    var rxExpectedLength: nat
    var rxType: Byte
    var rxStateByteCount: nat
    var rxChecksum: nat
    var rxChecksumCompare: nat
    var rxFramedIOState: Phase

    ghost function RxView(): Rx
      reads this`rxFramedIOState, this`rxDataReady, this`rxExpectedLength, this`rxType, this`rxStateByteCount
      reads this`rxChecksum, this`rxChecksumCompare, this`input
    {
      Rx(rxFramedIOState, rxDataReady, rxExpectedLength, rxType, rxStateByteCount, rxChecksum, rxChecksumCompare, input)
    }

    ghost function TxView(): Tx
      reads this`txFramedIOState, this`txDataFramingReady, this`txType, this`txChecksum, this`frameHead, this`output,
            this`frameTail
    {
      Tx(txFramedIOState, txDataFramingReady, txType, txChecksum, frameHead, output, frameTail)
    }

    ghost predicate Valid()
      reads this
    {
      TxValid(TxView()) && RxValid(RxView())
    }

    constructor (inputCapacity: nat, output: seq<Byte>)
      ensures Valid() && this.inputCapacity == inputCapacity
      ensures RxView() == FRESH
      ensures TxView() == Tx(None, true, 0, 0, [], [], []) && lost == 0
    {
      this.inputCapacity := inputCapacity;
      this.frameHead := [];
      this.frameTail := [];
      this.output := output;
      this.rxDataReady := false;
      lost := 0;
      new;
      ResetTx();
      ResetRx();
    }

    // -------------------------------------------------------------- receiver

    method ResetRx()
      modifies this`input, this`rxChecksum, this`rxDataReady, this`rxExpectedLength, this`rxType, this`rxStateByteCount
      modifies this`rxChecksumCompare, this`rxFramedIOState
      ensures RxView() == FRESH
    {
      input := [];
      rxChecksum := 0;
      rxDataReady := false;
      rxExpectedLength := 0;
      rxType := 0;
      rxStateByteCount := 0;
      rxChecksumCompare := 0;
      rxFramedIOState := StartFlag;
    }

    method CheckStartFlag(data: seq<Byte>, dataOffset: nat) returns (found: bool, offset: nat)
      requires Valid() && dataOffset <= |data|
      modifies this
      ensures Valid() && TxView() == old(TxView()) && lost == old(lost)
              && Consumed(inputCapacity, old(RxView()), RxView(), data, dataOffset, offset)
      ensures !Completes(inputCapacity, Settle(old(RxView())), data[dataOffset..offset])
      ensures old(rxFramedIOState) != StartFlag ==> RxView() == old(RxView()) && offset == dataOffset
      ensures old(rxFramedIOState) == StartFlag && dataOffset < |data| ==> offset > dataOffset
    {
      hide Feed, Completes, TxValid;
      offset := dataOffset;
      NothingConsumed(inputCapacity, RxView(), data, dataOffset);
      if rxFramedIOState == StartFlag {
        while offset < |data|
          invariant dataOffset <= offset <= |data| && RxView() == old(RxView()) && TxView() == old(TxView())
                    && lost == old(lost)
          invariant Feed(inputCapacity, old(RxView()), data[dataOffset..offset]) == old(RxView())
          invariant !Completes(inputCapacity, old(RxView()), data[dataOffset..offset])
        {
          OneMoreConsumed(inputCapacity, RxView(), data, dataOffset, offset);
          if data[offset] == OPEN {
            rxFramedIOState := Type;
            offset := offset + 1;
            return true, offset;
          }
          offset := offset + 1;
        }
      }
      return false, offset;
    }

    method CheckType(data: seq<Byte>, dataOffset: nat) returns (found: bool, offset: nat)
      requires Valid() && dataOffset <= |data|
      modifies this
      ensures Valid() && TxView() == old(TxView()) && lost == old(lost)
              && Consumed(inputCapacity, old(RxView()), RxView(), data, dataOffset, offset)
      ensures !Completes(inputCapacity, Settle(old(RxView())), data[dataOffset..offset])
      ensures old(rxFramedIOState) != Type ==> RxView() == old(RxView()) && offset == dataOffset
      ensures old(rxFramedIOState) == Type && dataOffset < |data| ==> offset > dataOffset
    {
      hide Feed, Completes, TxValid;
      offset := dataOffset;
      NothingConsumed(inputCapacity, RxView(), data, dataOffset);
      if rxFramedIOState == Type && offset < |data| {
        OneMoreConsumed(inputCapacity, RxView(), data, dataOffset, offset);
        rxType := data[offset];
        offset := offset + 1;
        rxFramedIOState := Length;
        return true, offset;
      }
      return false, offset;
    }

    method CheckLength(data: seq<Byte>, dataOffset: nat) returns (found: bool, offset: nat)
      requires Valid() && dataOffset <= |data|
      modifies this
      ensures Valid() && TxView() == old(TxView()) && lost == old(lost)
              && Consumed(inputCapacity, old(RxView()), RxView(), data, dataOffset, offset)
      ensures !Completes(inputCapacity, Settle(old(RxView())), data[dataOffset..offset])
      ensures old(rxFramedIOState) != Length ==> RxView() == old(RxView()) && offset == dataOffset
      ensures old(rxFramedIOState) == Length && dataOffset < |data| ==> offset > dataOffset
    {
      hide Feed, Completes, TxValid, Step, Placed;
      offset := dataOffset;
      NothingConsumed(inputCapacity, RxView(), data, dataOffset);
      if rxFramedIOState == Length {
        while rxStateByteCount < 4 && offset < |data|
          invariant dataOffset <= offset <= |data| && TxView() == old(TxView()) && lost == old(lost)
          invariant rxFramedIOState == Length && rxStateByteCount <= 4
          invariant rxStateByteCount == 4 ==> offset > dataOffset
          invariant Feed(inputCapacity, old(RxView()), data[dataOffset..offset])
                    == if rxStateByteCount == 4 then Settle(RxView().(phase := Data, count := 0)) else RxView()
          invariant !Completes(inputCapacity, old(RxView()), data[dataOffset..offset])
          decreases |data| - offset
        {
          OneMoreConsumed(inputCapacity, old(RxView()), data, dataOffset, offset);
          LengthByte(inputCapacity, RxView(), data[offset]);
          var byte := data[offset];
          rxExpectedLength := (rxExpectedLength + Placed(byte, 4 - rxStateByteCount - 1)) % 0x1_0000_0000;
          offset := offset + 1;
          rxStateByteCount := rxStateByteCount + 1;
        }
        if rxStateByteCount == 4 {
          rxStateByteCount := 0;
          rxFramedIOState := Data;
          return true, offset;
        }
      }
      return false, offset;
    }

    /** Also leaves nothing to settle. */
    method CheckData(data: seq<Byte>, dataOffset: nat) returns (found: bool, offset: nat)
      requires Valid() && dataOffset <= |data|
      modifies this
      ensures Valid() && TxView() == old(TxView()) && lost == old(lost)
              && Consumed(inputCapacity, old(RxView()), RxView(), data, dataOffset, offset)
      ensures !Completes(inputCapacity, Settle(old(RxView())), data[dataOffset..offset])
      ensures Settle(RxView()) == RxView()
      ensures old(rxFramedIOState) != Data ==> RxView() == old(RxView()) && offset == dataOffset
      ensures old(rxFramedIOState) == Data && |old(input)| < old(rxExpectedLength) && dataOffset < |data| ==>
                offset > dataOffset
      ensures Stuck(old(RxView())) ==> RxView() == old(RxView()) && offset == dataOffset
    {
      hide Feed, Completes, TxValid, Step, Push;
      offset := dataOffset;
      NothingConsumed(inputCapacity, RxView(), data, dataOffset);
      if rxFramedIOState == Data {
        while |input| < rxExpectedLength && offset < |data|
          invariant dataOffset <= offset <= |data| && TxView() == old(TxView()) && lost == old(lost)
          invariant rxFramedIOState == Data && RxValid(RxView())
          invariant offset == dataOffset ==> RxView() == old(RxView())
          invariant Stuck(old(RxView())) ==> offset == dataOffset
          invariant Feed(inputCapacity, Settle(old(RxView())), data[dataOffset..offset]) == Settle(RxView())
          invariant !Completes(inputCapacity, Settle(old(RxView())), data[dataOffset..offset])
          decreases |data| - offset
        {
          OneMoreConsumed(inputCapacity, Settle(old(RxView())), data, dataOffset, offset);
          DataByte(inputCapacity, RxView(), data[offset]);
          var byte := data[offset];
          rxChecksum := (rxChecksum + byte) % 0x1_0000;
          input := Push(inputCapacity, input, byte);
          offset := offset + 1;
        }
        var writtenData := |input|;
        if writtenData == rxExpectedLength {
          rxFramedIOState := Checksum;
          return true, offset;
        }
      }
      return false, offset;
    }

    method CheckChecksum(data: seq<Byte>, dataOffset: nat) returns (found: bool, offset: nat)
      requires Valid() && dataOffset <= |data| && Settle(RxView()) == RxView()
      modifies this
      ensures Valid() && TxView() == old(TxView()) && lost == old(lost)
              && Consumed(inputCapacity, old(RxView()), RxView(), data, dataOffset, offset)
      ensures !Completes(inputCapacity, Settle(old(RxView())), data[dataOffset..offset])
      ensures Settle(RxView()) == RxView()
      ensures old(rxFramedIOState) != Checksum ==> RxView() == old(RxView()) && offset == dataOffset
      ensures old(rxFramedIOState) == Checksum && dataOffset < |data| ==> offset > dataOffset
    {
      hide Feed, Completes, TxValid, Step, Placed;
      offset := dataOffset;
      NothingConsumed(inputCapacity, RxView(), data, dataOffset);
      if rxFramedIOState == Checksum {
        while rxStateByteCount < 2 && offset < |data|
          invariant dataOffset <= offset <= |data| && TxView() == old(TxView()) && lost == old(lost)
          invariant rxFramedIOState == Checksum && rxStateByteCount <= 2
          invariant rxStateByteCount == 2 ==> offset > dataOffset
          invariant Feed(inputCapacity, old(RxView()), data[dataOffset..offset])
                    == if rxStateByteCount < 2 then RxView()
                       else if rxChecksumCompare == rxChecksum
                       then RxView().(count := 0, phase := EndFlag, compare := 0, sum := 0) else FRESH
          invariant !Completes(inputCapacity, old(RxView()), data[dataOffset..offset])
          decreases |data| - offset
        {
          OneMoreConsumed(inputCapacity, old(RxView()), data, dataOffset, offset);
          ChecksumByte(inputCapacity, RxView(), data[offset]);
          var byte := data[offset];
          rxChecksumCompare := (rxChecksumCompare + Placed(byte, 2 - rxStateByteCount - 1)) % 0x1_0000;
          rxStateByteCount := rxStateByteCount + 1;
          offset := offset + 1;
        }
        if rxStateByteCount == 2 {
          found := JudgeChecksum();
          return found, offset;
        }
      }
      return false, offset;
    }

    method JudgeChecksum() returns (right: bool)
      modifies this
      ensures TxView() == old(TxView()) && lost == old(lost)
      ensures right == (old(rxChecksumCompare) == old(rxChecksum))
      ensures RxView() == if right then old(RxView()).(count := 0, phase := EndFlag, compare := 0, sum := 0) else FRESH
    {
      if rxChecksumCompare == rxChecksum {
        rxStateByteCount := 0;
        rxFramedIOState := EndFlag;
        rxChecksumCompare := 0;
        rxChecksum := 0;
        return true;
      } else {
        ResetRx();
        return false;
      }
    }

    method CheckEndFlag(data: seq<Byte>, dataOffset: nat) returns (found: bool, offset: nat)
      requires Valid() && dataOffset <= |data| && Settle(RxView()) == RxView()
      modifies this
      ensures Valid() && TxView() == old(TxView()) && lost == old(lost)
              && Consumed(inputCapacity, old(RxView()), RxView(), data, dataOffset, offset)
      ensures found == Completes(inputCapacity, Settle(old(RxView())), data[dataOffset..offset])
      ensures Settle(RxView()) == RxView()
      ensures old(rxFramedIOState) != EndFlag ==> RxView() == old(RxView()) && offset == dataOffset
      ensures old(rxFramedIOState) == EndFlag && dataOffset < |data| ==> offset > dataOffset
    {
      hide Feed, Completes, TxValid;
      offset := dataOffset;
      NothingConsumed(inputCapacity, RxView(), data, dataOffset);
      if rxFramedIOState == EndFlag && offset < |data| {
        OneMoreConsumed(inputCapacity, RxView(), data, dataOffset, offset);
        var byte := data[offset];
        offset := offset + 1;
        if byte == CLOSE {
          rxFramedIOState := StartFlag;
          rxDataReady := true;
          rxExpectedLength := 0;
          return true, offset;
        } else {
          ResetRx();
          return false, offset;
        }
      }
      return false, offset;
    }

    /** One pass through the six checks. */
    method Pass(data: seq<Byte>, dataOffset: nat) returns (frameValid: bool, offset: nat)
      requires Valid() && dataOffset <= |data| && Settle(RxView()) == RxView()
      modifies this
      ensures Valid() && TxView() == old(TxView()) && lost == old(lost) && Settle(RxView()) == RxView()
      ensures dataOffset <= offset <= |data|
      ensures RxView() == Feed(inputCapacity, old(RxView()), data[dataOffset..offset])
      ensures frameValid == Completes(inputCapacity, old(RxView()), data[dataOffset..offset])
      ensures dataOffset < |data| && !Stuck(old(RxView())) ==> offset > dataOffset
      ensures Stuck(old(RxView())) ==> RxView() == old(RxView()) && offset == dataOffset
    {
      hide Feed, Completes, Step, TxValid, Remaining;
      ghost var s, cap := RxView(), inputCapacity;
      var found, o1 := CheckStartFlag(data, dataOffset);
      found, offset := CheckType(data, o1);
      ConsumedInARow(cap, s, data, dataOffset, o1, offset);
      ghost var o := offset;
      found, offset := CheckLength(data, offset);
      ConsumedInARow(cap, s, data, dataOffset, o, offset);
      o := offset;
      found, offset := CheckData(data, offset);
      ConsumedInARow(cap, s, data, dataOffset, o, offset);
      o := offset;
      found, offset := CheckChecksum(data, offset);
      ConsumedInARow(cap, s, data, dataOffset, o, offset);
      o := offset;
      frameValid, offset := CheckEndFlag(data, offset);
      ConsumedInARow(cap, s, data, dataOffset, o, offset);
    }

    /**
     The bytes of one call. The call returns as long as no byte is left to look at when
     the receiver is stuck, and then it has done exactly what the bytes do one by one.
     */
    method PutRxData(data: seq<Byte>) returns (frameValid: bool)
      requires Valid() && Settle(RxView()) == RxView()
      requires rxDataReady || Returns(inputCapacity, RxView(), data)
      modifies this
      ensures Valid() && TxView() == old(TxView()) && lost == old(lost) && Settle(RxView()) == RxView()
      ensures RxView() == Put(inputCapacity, old(RxView()), data)
      ensures frameValid == PutAnswer(inputCapacity, old(RxView()), data)
    {
      hide Feed, Completes, Step, Settle, Returns, Stuck, TxValid, RxValid;
      if rxDataReady {
        return false;
      }
      frameValid := false;
      var dataOffset := 0;
      NothingFed(inputCapacity, RxView(), data);
      while true
        invariant dataOffset <= |data| && Valid() && TxView() == old(TxView()) && lost == old(lost)
                  && Settle(RxView()) == RxView()
        invariant RxView() == Feed(inputCapacity, old(RxView()), data[..dataOffset])
        invariant frameValid == Completes(inputCapacity, old(RxView()), data[..dataOffset])
        decreases |data| - dataOffset
      {
        ghost var before := dataOffset;
        if before < |data| {
          NotStuckAt(inputCapacity, old(RxView()), data, before);
        }
        var completed;
        completed, dataOffset := Pass(data, dataOffset);
        FedInARow(inputCapacity, old(RxView()), data, before, dataOffset);
        if completed {
          frameValid := true;
        }
        if dataOffset >= |data| {
          break;
        }
      }
      assert data[..|data|] == data;
    }

    /** Hands the type of a complete frame over and makes room for the next. */
    method RunRx() returns (ran: bool, observed: Byte)
      requires Valid()
      modifies this
      ensures Valid() && TxView() == old(TxView()) && lost == old(lost)
      ensures ran == old(rxDataReady)
      ensures ran ==> observed == old(rxType) && RxView() == old(RxView()).(ready := false, msgType := 0)
      ensures !ran ==> RxView() == old(RxView())
    {
      observed := rxType;
      if rxDataReady == false {
        return false, observed;
      }
      rxDataReady := false;
      rxType := 0;
      return true, observed;
    }

    // ----------------------------------------------------------- transmitter

    method ResetTx()
      modifies this
      ensures RxView() == old(RxView()) && lost == old(lost)
      ensures TxView() == Tx(None, true, 0, 0, old(frameHead), [], old(frameTail))
    {
      output := [];
      txDataFramingReady := true;
      txType := 0;
      txFramedIOState := None;
      txChecksum := 0;
    }

    /** The mailbox of the transmitter: the message that was packed last. */
    method Update(msgType: Byte)
      requires Valid()
      modifies this
      ensures Valid() && RxView() == old(RxView()) && TxView() == old(TxView()).(ready := true, msgType := msgType)
      ensures lost == old(lost) + if SendLine.Waiting(LineOf(old(TxView()))).Some? then 1 else 0
    {
      lost := lost + if txDataFramingReady && txType != 0 then 1 else 0;
      txDataFramingReady := true;
      txType := msgType;
    }

    /**
     Starts a frame. With an empty head buffer, the frame is the message type around the
     payload in the output buffer; a header left over from before pushes the new one out.
     */
    method RunTx() returns (ran: bool)
      requires Valid()
      modifies this
      ensures Valid() && RxView() == old(RxView())
      ensures ran == (old(txFramedIOState) == None && old(txDataFramingReady))
      ensures lost == old(lost) && (!ran ==> TxView() == old(TxView()))
      ensures ran ==> TxView() == old(TxView()).(state := Head, ready := false,
                                                 head := (old(frameHead) + Header(txType, |output|))[..6])
      ensures ran && old(frameHead) == [] ==> Remaining(TxView()) == Frame(old(txType), old(output))
      ensures ran ==> Remaining(TxView()) ==
                      (old(frameHead) + Header(old(txType), |output|))[..6] + output + Footer(Sum16(output))
    {
      if txFramedIOState != None || txDataFramingReady == false {
        return false;
      }
      WriteHead(|output|);
      txDataFramingReady := false;
      txFramedIOState := Head;
      assert old(frameHead) == [] ==> frameHead == Header(txType, |output|);
      return true;
    }

    /** Start flag, type and length, as far as there is room for them. */
    method WriteHead(outputBufferLength: nat)
      requires |frameHead| <= 6
      modifies this`frameHead
      ensures frameHead == (old(frameHead) + Header(txType, outputBufferLength))[..6]
    {
      frameHead := Push(6, frameHead, OPEN);
      frameHead := Push(6, frameHead, txType);
      ghost var wanted := old(frameHead) + Header(txType, outputBufferLength);
      var i := 0;
      while i < 4
        invariant i <= 4
        invariant frameHead == wanted[..Min(|old(frameHead)| + 2 + i, 6)]
      {
        frameHead := Push(6, frameHead, BE32(outputBufferLength)[i]);
        i := i + 1;
      }
    }

    static function Min(a: nat, b: nat): nat {
      if a < b then a else b
    }

    /** A read from a ring buffer into a part of the caller's buffer. */
    static method CopyOut(bytes: seq<Byte>, data: array<Byte>, index: nat)
      requires index + |bytes| <= data.Length
      modifies data
      ensures data[..] == Filled(old(data[..]), index, bytes)
    {
      forall k | 0 <= k < |bytes| {
        data[index + k] := bytes[k];
      }
    }

    /** The bytes from `from` up to `to` of the caller's buffer are the next ones owed; the rest is left alone. */
    twostate predicate Handed(data: array<Byte>, from: nat, to: nat)
      reads this, data
    {
      && HandsOut(Remaining(old(TxView())), old(data[..]), from, to, data[..], Remaining(TxView()))
      && RxView() == old(RxView()) && Valid() && lost == old(lost)
      && txDataFramingReady == old(txDataFramingReady) && txType == old(txType)
    }

    method ReadHead(data: array<Byte>, index: nat) returns (next: nat)
      requires Valid() && index <= data.Length && txFramedIOState == Head
      modifies this, data
      ensures Handed(data, index, next)
      ensures next == data.Length || txFramedIOState == Body
    {
      hide Remaining, Sum16, Footer, HandsOut, Filled, RxValid;
      var bytesLeft := |frameHead|;
      var bytesRead := Min(bytesLeft, data.Length - index);
      CopyOut(frameHead[..bytesRead], data, index);
      frameHead := frameHead[bytesRead..];
      next := index + bytesRead;
      if bytesLeft - bytesRead == 0 {
        txFramedIOState := Body;
      }
      HeadRead(old(TxView()), bytesRead);
      HandedOut(Remaining(old(TxView())), old(data[..]), index, bytesRead);
    }

    /** Adds the bytes just handed out to the running sum. */
    method AddToChecksum(data: array<Byte>, from: nat, to: nat)
      requires from <= to <= data.Length && txChecksum < 0x1_0000
      modifies this`txChecksum
      ensures txChecksum == (old(txChecksum) + Sum16(data[from..to])) % 0x1_0000
    {
      ghost var bytes := data[..];
      assert Sum16(bytes[from..from]) == 0;
      hide Sum16;
      var i := from;
      while i < to
        invariant from <= i <= to
        invariant txChecksum == (old(txChecksum) + Sum16(bytes[from..i])) % 0x1_0000
      {
        SumUpTo(bytes, from, i, old(txChecksum));
        txChecksum := (txChecksum + data[i]) % 0x1_0000;
        i := i + 1;
      }
      assert data[from..to] == bytes[from..to];
    }

    /** Writes the sum and the closing flag, big end first. */
    method WriteTail()
      requires txChecksum < 0x1_0000
      modifies this`txChecksum, this`frameTail
      ensures frameTail == Footer(old(txChecksum)) && txChecksum == 0
    {
      var checksumLeft, checksumRight := txChecksum / 0x100 % 256, txChecksum % 256;
      txChecksum := 0;
      frameTail := [];
      frameTail := Push(3, frameTail, checksumLeft);
      frameTail := Push(3, frameTail, checksumRight);
      frameTail := Push(3, frameTail, CLOSE);
    }

    /** Copies the next part of the payload out and adds it to the sum. */
    method TakeBody(data: array<Byte>, index: nat) returns (bytesRead: nat)
      requires index < data.Length && txChecksum < 0x1_0000
      modifies this`output, this`txChecksum, data
      ensures bytesRead == Min(|old(output)|, data.Length - index)
      ensures data[..] == Filled(old(data[..]), index, old(output)[..bytesRead]) && output == old(output)[bytesRead..]
      ensures txChecksum == (old(txChecksum) + Sum16(old(output)[..bytesRead])) % 0x1_0000
    {
      hide Sum16, Filled;
      var bytesLeft := |output|;
      bytesRead := Min(bytesLeft, data.Length - index);
      CopyOut(output[..bytesRead], data, index);
      output := output[bytesRead..];
      FilledPart(old(data[..]), index, old(output)[..bytesRead]);
      assert data[index..index + bytesRead] == data[..][index..index + bytesRead];
      AddToChecksum(data, index, index + bytesRead);
    }

    method ReadBody(data: array<Byte>, index: nat) returns (next: nat)
      requires Valid() && index < data.Length && txFramedIOState == Body
      modifies this, data
      ensures Handed(data, index, next)
      ensures next == data.Length || txFramedIOState == Foot
    {
      hide Remaining, Sum16, Footer, RxValid, HandsOut, Filled;
      var bytesLeft := |output|;
      var bytesRead := TakeBody(data, index);
      next := index + bytesRead;
      if bytesLeft - bytesRead == 0 {
        txFramedIOState := Foot;
        WriteTail();
      }
      BodyRead(old(TxView()), bytesRead, TxView());
      HandedOut(Remaining(old(TxView())), old(data[..]), index, bytesRead);
    }

    method ReadFoot(data: array<Byte>, index: nat)
      requires Valid() && index < data.Length && txFramedIOState == Foot
      modifies this, data
      ensures Handed(data, index, Min(data.Length, index + |Remaining(old(TxView()))|))
    {
      hide RxValid, HandsOut, Filled;
      var bytesLeft := |frameTail|;
      var bytesRead := Min(bytesLeft, data.Length - index);
      CopyOut(frameTail[..bytesRead], data, index);
      frameTail := frameTail[bytesRead..];
      if bytesLeft - bytesRead == 0 {
        txFramedIOState := None;
      }
      HandedOut(old(frameTail), old(data[..]), index, bytesRead);
    }

    /** Hands out the next bytes of the frame: as many as fit, as many as there are, nothing else. */
    method GetTxData(data: array<Byte>)
      requires Valid()
      modifies this, data
      ensures Handed(data, 0, Min(data.Length, |Remaining(old(TxView()))|))
      ensures LineOf(TxView()) ==
              if Remaining(TxView()) == [] then SendLine.Next(LineOf(old(TxView())), SendLine.FrameRead)
              else LineOf(old(TxView()))
    {
      hide TxValid, RxValid, Remaining, HandsOut;
      ghost var owed, buffer := Remaining(TxView()), data[..];
      StateNoneIffNothingPending(TxView());
      NothingHandedOut(owed, buffer, 0);
      if txFramedIOState == None {
        return;
      }
      var index := 0;
      if txFramedIOState == Head {
        index := ReadHead(data, index);
      }
      AllHandedOut(owed, buffer, 0, index, data[..], Remaining(TxView()));
      StateNoneIffNothingPending(TxView());
      if index >= data.Length {
        return;
      }
      if txFramedIOState == Body {
        ghost var start, rest, before := index, Remaining(TxView()), data[..];
        index := ReadBody(data, index);
        HandedOutInARow(owed, buffer, 0, start, before, rest, index, data[..], Remaining(TxView()));
        AllHandedOut(owed, buffer, 0, index, data[..], Remaining(TxView()));
      }
      StateNoneIffNothingPending(TxView());
      if index >= data.Length {
        return;
      }
      if txFramedIOState == Foot {
        ghost var rest, before := Remaining(TxView()), data[..];
        ReadFoot(data, index);
        ghost var end := Min(data.Length, index + |rest|);
        HandedOutInARow(owed, buffer, 0, index, before, rest, end, data[..], Remaining(TxView()));
        StateNoneIffNothingPending(TxView());
      }
    }

    /** The pending count: the buffers' fill levels, and the tail's capacity before it is written. */
    method AmountOfTxDataPending() returns (amount: nat)
      requires Valid()
      ensures amount == |Remaining(TxView())|
      ensures txFramedIOState == None <==> amount == 0
    {
      StateNoneIffNothingPending(TxView());
      if txFramedIOState == Head {
        return |frameHead| + |output| + 3;
      } else if txFramedIOState == Body {
        return |output| + 3;
      } else if txFramedIOState == Foot {
        return |frameTail|;
      }
      return 0;
    }
  }

  lemma SumUpTo(bytes: seq<Byte>, from: nat, i: nat, before: nat)
    requires from <= i < |bytes|
    ensures (before + Sum16(bytes[from..i + 1])) % 0x1_0000 ==
              ((before + Sum16(bytes[from..i])) % 0x1_0000 + bytes[i]) % 0x1_0000
  {
    hide Sum16;
    assert bytes[from..i + 1] == bytes[from..i] + [bytes[i]];
    Sum16Snoc(bytes[from..i], bytes[i]);
    AddModAssociates(before, Sum16(bytes[from..i]), bytes[i]);
  }

  lemma StateNoneIffNothingPending(t: Tx)
    requires TxValid(t)
    ensures t.state == None <==> Remaining(t) == []
  {
  }

  lemma HeadRead(t: Tx, n: nat)
    requires t.state == Head && t.checksum == 0 && n <= |t.head|
    ensures n <= |Remaining(t)|
    ensures Remaining(t)[..n] == t.head[..n]
    ensures Remaining(t.(head := t.head[n..])) == Remaining(t)[n..]
    ensures n == |t.head| ==> Remaining(t.(head := t.head[n..], state := Body)) == Remaining(t)[n..]
  {
    hide Footer, Sum16;
    assert (0 + Sum16(t.output)) % 0x1_0000 == Sum16(t.output);
    ThreeParts(t.head, t.output, Footer(Sum16(t.output)), n);
  }

  lemma ThreeParts(h: seq<Byte>, p: seq<Byte>, f: seq<Byte>, n: nat)
    requires n <= |h|
    ensures (h + p + f)[..n] == h[..n] && (h + p + f)[n..] == h[n..] + p + f
    ensures n == |h| ==> (h + p + f)[n..] == p + f
  {
  }

  /** What is owed after a part of the payload, or all of it, has been read. */
  lemma BodyRead(t: Tx, n: nat, t': Tx)
    requires t.state == Body && n <= |t.output|
    requires var sum := (t.checksum + Sum16(t.output[..n])) % 0x1_0000;
             if n < |t.output| then t' == t.(output := t.output[n..], checksum := sum)
             else t'.state == Foot && t'.tail == Footer(sum)
    ensures n <= |Remaining(t)|
    ensures Remaining(t)[..n] == t.output[..n] && Remaining(t') == Remaining(t)[n..]
  {
    hide Footer, Sum16;
    var o := t.output;
    var f := Footer((t.checksum + Sum16(o)) % 0x1_0000);
    Sum16Append(o[..n], o[n..]);
    assert o == o[..n] + o[n..];
    AddModAssociates(t.checksum, Sum16(o[..n]), Sum16(o[n..]));
    assert (o + f)[..n] == o[..n] && (o + f)[n..] == o[n..] + f;
    assert n == |o| ==> o[..n] == o && o[n..] + f == f;
  }
}
