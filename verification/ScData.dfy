/**
 The SC_DATA message: the bytes the packer writes, with the submessage length it computes by
 hand, and a decoder of the message that follows the standard.
 */
module ScData {
  import opened Bytes
  import opened Wrappers
  import opened Wire

  datatype Channel = Channel(samples: seq<Word>, id: Word)

  datatype Trigger = Trigger(channelId: Word, dataIndex: Word, mode: Word)

  /** `stamps` is absent while no timestamp stream was handed to the packer. */
  datatype Message = Message(channels: seq<Channel>, stamps: Option<seq<Word>>, tInc: Word, trigger: Option<Trigger>)

  // ------------------------------------------------------------- encoding

  /** The width getWidthOfVarint reports; it steps by four bits and gives up after twelve. */
  function AssumedWidth(n: nat): nat {
    if n < 0x10 then 1 else if n < 0x100 then 2 else if n < 0x1000 then 3 else 1
  }

  /** The length written before a channel; the sample count is passed on as a uint32_t. */
  function AssumedLength(c: Channel): nat {
    4 * |c.samples| + 1 + (if c.id != 0 then 1 + AssumedWidth(c.id) else 0) + AssumedWidth(|c.samples| % 0x1_0000_0000)
  }

  /** A zero number takes no bytes. */
  function NumberBytes(number: nat, n: nat): seq<Byte> {
    if n == 0 then [] else FieldBytes(Field(number, Number(n)))
  }

  function Packed(number: nat, ws: seq<Word>): Field {
    Field(number, Block(WordBytes(ws)))
  }

  function Body(c: Channel): (r: seq<Byte>)
    ensures |r| >= 1
  {
    FieldBytes(Packed(1, c.samples)) + NumberBytes(2, c.id)
  }

  function ChannelBytes(c: Channel): (r: seq<Byte>)
    ensures |r| >= 3
  {
    Varint(10) + Varint(AssumedLength(c)) + Body(c)
  }

  function ChannelsBytes(cs: seq<Channel>): seq<Byte> {
    if cs == [] then [] else ChannelBytes(cs[0]) + ChannelsBytes(cs[1..])
  }

  function TriggerBody(t: Trigger): seq<Byte> {
    NumberBytes(1, t.channelId) + NumberBytes(2, t.dataIndex) + NumberBytes(3, t.mode)
  }

  function StampsBytes(stamps: Option<seq<Word>>): seq<Byte> {
    if stamps.Some? then FieldBytes(Packed(2, stamps.value)) else []
  }

  function TriggerBytes(trigger: Option<Trigger>): seq<Byte> {
    if trigger.Some? then FieldBytes(Field(4, Block(TriggerBody(trigger.value)))) else []
  }

  function TailBytes(m: Message): seq<Byte> {
    StampsBytes(m.stamps) + (NumberBytes(3, m.tInc) + TriggerBytes(m.trigger))
  }

  function MessageBytes(m: Message): seq<Byte> {
    ChannelsBytes(m.channels) + TailBytes(m)
  }

  // ------------------------------------------------------------- decoding

  const NO_CHANNEL := Channel([], 0)
  const NO_TRIGGER := Trigger(0, 0, 0)
  const NO_MESSAGE := Message([], None, 0, None)

  /** A repeated 32-bit field, packed or not. Any other wire type makes it an unknown field, which is skipped. */
  function Repeated(ws: seq<Word>, v: Value): Option<seq<Word>> {
    match v
    case Number(_) => Some(ws)
    case Eight(_, _) => Some(ws)
    case Four(w) => Some(ws + [w])
    case Block(b) => if |b| % 4 == 0 then Some(ws + ReadWords(b)) else None
  }

  /** A uint32 field keeps the low 32 bits of the varint. */
  function Uint32(was: Word, v: Value): Word {
    if v.Number? then v.n % 0x1_0000_0000 else was
  }

  function AbsorbChannel(c: Channel, f: Field): Option<Channel> {
    if f.number == 1 then
      match Repeated(c.samples, f.value)
      case None => None
      case Some(ws) => Some(c.(samples := ws))
    else if f.number == 2 then Some(c.(id := Uint32(c.id, f.value)))
    else Some(c)
  }

  function AbsorbTrigger(t: Trigger, f: Field): Option<Trigger> {
    if f.number == 1 then Some(t.(channelId := Uint32(t.channelId, f.value)))
    else if f.number == 2 then Some(t.(dataIndex := Uint32(t.dataIndex, f.value)))
    else if f.number == 3 then Some(t.(mode := Uint32(t.mode, f.value)))
    else Some(t)
  }

  function AbsorbMessage(m: Message, f: Field): Option<Message> {
    if f.number == 1 && f.value.Block? then
      match Decode(AbsorbChannel, NO_CHANNEL, f.value.bytes)
      case None => None
      case Some(c) => Some(m.(channels := m.channels + [c]))
    else if f.number == 2 && (f.value.Block? || f.value.Four?) then
      match Repeated(if m.stamps.Some? then m.stamps.value else [], f.value)
      case None => None
      case Some(ws) => Some(m.(stamps := Some(ws)))
    else if f.number == 3 then Some(m.(tInc := Uint32(m.tInc, f.value)))
    else if f.number == 4 && f.value.Block? then
      match Decode(AbsorbTrigger, if m.trigger.Some? then m.trigger.value else NO_TRIGGER, f.value.bytes)
      case None => None
      case Some(t) => Some(m.(trigger := Some(t)))
    else Some(m)
  }

  function DecodeMessage(s: seq<Byte>): Option<Message> {
    Decode(AbsorbMessage, NO_MESSAGE, s)
  }

  // ------------------------------------------------------ the hand-made width

  /** getWidthOfVarint is right for one-nibble numbers and from 128 to 255, and nowhere else. */
  lemma AssumedWidthIsRightIff(n: nat)
    ensures AssumedWidth(n) == |Varint(n)| <==> n < 16 || 128 <= n < 256
  {
    VarintWidths(n);
  }

  predicate LengthIsRight(c: Channel) {
    AssumedLength(c) == |Body(c)|
  }

  /**
   What a caller can check: both widths are right, or the sample count's is one too long and the id's
   one too short.
   */
  predicate LengthComesOutRight(samples: nat, id: Word) {
    || ((samples < 16 || 32 <= samples < 256) && (id < 16 || 128 <= id < 256))
    || ((16 <= samples < 32 || 256 <= samples < 0x1000) && 0x1000 <= id < 0x4000)
  }

  lemma BodyLength(c: Channel)
    ensures |Body(c)| == 1 + |Varint(4 * |c.samples|)| + 4 * |c.samples| + (if c.id == 0 then 0 else 1 + |Varint(c.id)|)
  {
  }

  lemma LengthIsRightIff(c: Channel)
    ensures LengthIsRight(c) <==> LengthComesOutRight(|c.samples|, c.id)
  {
    hide Varint;
    BodyLength(c);
    VarintWidths(4 * |c.samples|);
    VarintWidths(c.id);
  }

  /** The length is never more than two too long. */
  lemma LengthOverrun(c: Channel)
    ensures 0 < AssumedLength(c) <= |Body(c)| + 2
  {
    hide Varint;
    BodyLength(c);
    VarintWidths(4 * |c.samples|);
    VarintWidths(c.id);
  }

  // ----------------------------------------------------------- round trip

  lemma DecodeNumber<M>(absorb: (M, Field) -> Option<M>, m: M, number: nat, n: nat, rest: seq<Byte>, m': M)
    requires number >= 1
    requires n == 0 ==> m' == m
    requires n != 0 ==> absorb(m, Field(number, Number(n))) == Some(m')
    ensures Decode(absorb, m, NumberBytes(number, n) + rest) == Decode(absorb, m', rest)
  {
    if n == 0 {
      assert NumberBytes(number, n) + rest == rest;
    } else {
      DecodeField(absorb, m, Field(number, Number(n)), rest);
    }
  }

  lemma ChannelRoundTrip(c: Channel)
    ensures Decode(AbsorbChannel, NO_CHANNEL, Body(c)) == Some(c)
  {
    hide FieldBytes, Decode;
    SamplesDecode(c, NumberBytes(2, c.id));
    var c' := c.(id := 0);
    assert AbsorbChannel(c', Field(2, Number(c.id))) == Some(c);
    assert NumberBytes(2, c.id) + [] == NumberBytes(2, c.id);
    DecodeNumber(AbsorbChannel, c', 2, c.id, [], c);
    DecodeNothing(AbsorbChannel, c);
  }

  lemma DecodeNothing<M>(absorb: (M, Field) -> Option<M>, m: M)
    ensures Decode(absorb, m, []) == Some(m)
  {
  }

  lemma SamplesDecode(c: Channel, rest: seq<Byte>)
    ensures Decode(AbsorbChannel, NO_CHANNEL, FieldBytes(Packed(1, c.samples)) + rest)
         == Decode(AbsorbChannel, c.(id := 0), rest)
  {
    hide FieldBytes, Decode;
    WordsRoundTrip(c.samples);
    assert [] + c.samples == c.samples;
    DecodeField(AbsorbChannel, NO_CHANNEL, Packed(1, c.samples), rest);
  }

  lemma TriggerRoundTrip(t: Trigger)
    ensures Decode(AbsorbTrigger, NO_TRIGGER, TriggerBody(t)) == Some(t)
  {
    hide FieldBytes, Decode, NumberBytes;
    var n1, n2, n3 := NumberBytes(1, t.channelId), NumberBytes(2, t.dataIndex), NumberBytes(3, t.mode);
    assert TriggerBody(t) == n1 + (n2 + (n3 + []));
    DecodeNumber(AbsorbTrigger, NO_TRIGGER, 1, t.channelId, n2 + (n3 + []), Trigger(t.channelId, 0, 0));
    DecodeNumber(AbsorbTrigger, Trigger(t.channelId, 0, 0), 2, t.dataIndex, n3 + [],
                 Trigger(t.channelId, t.dataIndex, 0));
    DecodeNumber(AbsorbTrigger, Trigger(t.channelId, t.dataIndex, 0), 3, t.mode, [], t);
    DecodeNothing(AbsorbTrigger, t);
  }

  lemma TailRoundTrip(m: Message)
    ensures Decode(AbsorbMessage, Message(m.channels, None, 0, None), TailBytes(m)) == Some(m)
  {
    hide FieldBytes, Decode, NumberBytes;
    var increment, trigger := NumberBytes(3, m.tInc), TriggerBytes(m.trigger);
    var m1 := Message(m.channels, m.stamps, 0, None);
    StampsDecode(m, increment + trigger);
    DecodeNumber(AbsorbMessage, m1, 3, m.tInc, trigger, m1.(tInc := m.tInc));
    DecodeNothing(AbsorbMessage, m);
    if m.trigger.Some? {
      var f := Field(4, Block(TriggerBody(m.trigger.value)));
      TriggerRoundTrip(m.trigger.value);
      assert trigger == FieldBytes(f) + [];
      DecodeField(AbsorbMessage, m1.(tInc := m.tInc), f, []);
    }
  }

  lemma StampsDecode(m: Message, rest: seq<Byte>)
    ensures Decode(AbsorbMessage, Message(m.channels, None, 0, None), StampsBytes(m.stamps) + rest)
         == Decode(AbsorbMessage, Message(m.channels, m.stamps, 0, None), rest)
  {
    hide FieldBytes, Decode;
    if m.stamps.Some? {
      WordsRoundTrip(m.stamps.value);
      assert [] + m.stamps.value == m.stamps.value;
      DecodeField(AbsorbMessage, Message(m.channels, None, 0, None), Packed(2, m.stamps.value), rest);
    } else {
      assert StampsBytes(m.stamps) + rest == rest;
    }
  }

  /** Whatever the length says, the decoder takes that many bytes as the channel. */
  lemma LengthRules(m: Message, c: Channel, rest: seq<Byte>)
    requires AssumedLength(c) <= |Body(c) + rest|
    ensures var n := AssumedLength(c);
            Decode(AbsorbMessage, m, ChannelBytes(c) + rest)
            == match AbsorbMessage(m, Field(1, Block((Body(c) + rest)[..n])))
               case None => None
               case Some(m') => Decode(AbsorbMessage, m', (Body(c) + rest)[n..])
  {
    hide Decode, AbsorbMessage, Body;
    var n := AssumedLength(c);
    var f := Field(1, Block((Body(c) + rest)[..n]));
    assert ChannelBytes(c) + rest == FieldBytes(f) + (Body(c) + rest)[n..] by {
      assert Key(f) == 10;
      assert (Body(c) + rest)[..n] + (Body(c) + rest)[n..] == Body(c) + rest;
    }
    DecodeField(AbsorbMessage, m, f, (Body(c) + rest)[n..]);
  }

  lemma RightChannelDecodes(m: Message, c: Channel, rest: seq<Byte>)
    requires LengthIsRight(c)
    ensures Decode(AbsorbMessage, m, ChannelBytes(c) + rest)
         == Decode(AbsorbMessage, m.(channels := m.channels + [c]), rest)
  {
    hide Decode, Body, AssumedLength;
    LengthRules(m, c, rest);
    ChannelRoundTrip(c);
    assert (Body(c) + rest)[..|Body(c)|] == Body(c) && (Body(c) + rest)[|Body(c)|..] == rest;
  }

  // ------------------------------------------------- a wrong length is fatal

  lemma {:induction false} ChannelsOnlyGrow(m: Message, s: seq<Byte>)
    ensures var r := Decode(AbsorbMessage, m, s); r.Some? ==> m.channels <= r.value.channels
    decreases |s|
  {
    if s != [] {
      match ReadField(s) {
        case None =>
        case Some((f, rest)) =>
          match AbsorbMessage(m, f) {
            case None =>
            case Some(m') =>
              assert m.channels <= m'.channels;
              ChannelsOnlyGrow(m', rest);
          }
      }
    }
  }

  /** Every field that may follow a channel has more than two bytes. */
  ghost predicate FieldFollows(s: seq<Byte>) {
    |s| > 2 && exists f :: |FieldBytes(f)| > 2 && FieldBytes(f)[..2] == s[..2]
  }

  /** A channel cut short loses its samples, or the length of its id, or the id itself. */
  lemma ShortChannelIsLost(c: Channel, n: nat)
    requires 0 < n < |Body(c)|
    ensures Decode(AbsorbChannel, NO_CHANNEL, Body(c)[..n]) != Some(c)
  {
    hide FieldBytes, Decode;
    var samples := Packed(1, c.samples);
    var first := |FieldBytes(samples)|;
    if n < first {
      assert Body(c)[..n] == FieldBytes(samples)[..n];
      DecodeCutField(AbsorbChannel, NO_CHANNEL, samples, n);
    } else {
      assert Body(c)[..n] == FieldBytes(samples) + NumberBytes(2, c.id)[..n - first];
      SamplesDecode(c, NumberBytes(2, c.id)[..n - first]);
      if n == first {
        DecodeNothing(AbsorbChannel, c.(id := 0));
      } else {
        DecodeCutField(AbsorbChannel, c.(id := 0), Field(2, Number(c.id)), n - first);
      }
    }
  }

  /** A channel that takes in one or two bytes of the next field is not decoded at all. */
  lemma LongChannelIsLost(c: Channel, rest: seq<Byte>, over: nat)
    requires FieldFollows(rest) && 1 <= over <= 2
    ensures Decode(AbsorbChannel, NO_CHANNEL, Body(c) + rest[..over]) == None
  {
    hide FieldBytes, Decode;
    var f :| |FieldBytes(f)| > 2 && FieldBytes(f)[..2] == rest[..2];
    assert rest[..over] == FieldBytes(f)[..over] by {
      assert rest[..over] == rest[..2][..over];
    }
    var id := NumberBytes(2, c.id);
    assert Body(c) + rest[..over] == FieldBytes(Packed(1, c.samples)) + (id + rest[..over]);
    SamplesDecode(c, id + rest[..over]);
    assert AbsorbChannel(c.(id := 0), Field(2, Number(c.id))) == Some(c);
    DecodeNumber(AbsorbChannel, c.(id := 0), 2, c.id, rest[..over], c);
    DecodeCutField(AbsorbChannel, c, f, over);
  }

  lemma WrongChannelIsLost(m: Message, c: Channel, rest: seq<Byte>)
    requires !LengthIsRight(c) && FieldFollows(rest)
    ensures var r := Decode(AbsorbMessage, m, ChannelBytes(c) + rest);
            r.None? || (|r.value.channels| > |m.channels| && r.value.channels[|m.channels|] != c)
  {
    hide Decode, Body, AssumedLength, FieldFollows;
    var n, body := AssumedLength(c), Body(c);
    LengthOverrun(c);
    assert |rest| > 2 by { FollowersAreLong(rest); }
    LengthRules(m, c, rest);
    var taken := (body + rest)[..n];
    if n < |body| {
      assert taken == body[..n];
      ShortChannelIsLost(c, n);
    } else {
      assert taken == body + rest[..n - |body|];
      LongChannelIsLost(c, rest, n - |body|);
    }
    match AbsorbMessage(m, Field(1, Block(taken))) {
      case None =>
      case Some(m') =>
        assert m'.channels == m.channels + [m'.channels[|m.channels|]];
        ChannelsOnlyGrow(m', (body + rest)[n..]);
    }
  }

  lemma FollowersAreLong(s: seq<Byte>)
    requires FieldFollows(s)
    ensures |s| > 2
  {
  }

  lemma FollowsIfStarts(f: Field, start: seq<Byte>, end: seq<Byte>, s: seq<Byte>, rest: seq<Byte>)
    requires FieldBytes(f) == start + end && s == start + rest && |start| >= 2 && |end| >= 1 && |rest| >= 1
    ensures FieldFollows(s)
  {
    hide FieldBytes;
    assert (start + end)[..2] == start[..2] && (start + rest)[..2] == start[..2];
  }

  lemma FieldsFollowChannels(cs: seq<Channel>, m: Message)
    requires m.stamps.Some? && m.stamps.value != []
    ensures FieldFollows(ChannelsBytes(cs) + TailBytes(m))
  {
    hide Varint, FieldFollows, WordBytes, NumberBytes, TriggerBytes;
    var s := ChannelsBytes(cs) + TailBytes(m);
    if cs == [] {
      var f, words := Packed(2, m.stamps.value), WordBytes(m.stamps.value);
      var start, after := Varint(Key(f)) + Varint(|words|), NumberBytes(3, m.tInc) + TriggerBytes(m.trigger);
      assert FieldBytes(f) == start + words;
      assert s == start + (words + after);
      FollowsIfStarts(f, start, words, s, words + after);
    } else {
      var n := AssumedLength(cs[0]);
      LengthOverrun(cs[0]);
      var zeros: seq<Byte> := seq(n, _ => 0);
      var f, start, after := Field(1, Block(zeros)), Varint(10) + Varint(n), ChannelsBytes(cs[1..]) + TailBytes(m);
      assert Key(f) == 10 && FieldBytes(f) == start + zeros;
      FirstChannelBytes(cs, TailBytes(m));
      FollowsIfStarts(f, start, zeros, s, Body(cs[0]) + after);
    }
  }

  lemma FirstChannelBytes(cs: seq<Channel>, tail: seq<Byte>)
    requires cs != []
    ensures ChannelsBytes(cs) + tail
         == (Varint(10) + Varint(AssumedLength(cs[0]))) + (Body(cs[0]) + (ChannelsBytes(cs[1..]) + tail))
  {
    hide Varint, AssumedLength, Body;
  }

  predicate AllLengthsRight(cs: seq<Channel>) {
    forall i | 0 <= i < |cs| :: LengthIsRight(cs[i])
  }

  lemma {:induction false} ChannelsDecodeIff(m: Message, done: Message, cs: seq<Channel>)
    requires AllLengthsRight(cs) || (m.stamps.Some? && m.stamps.value != [])
    requires done == Message(done.channels, None, 0, None) && m.channels == done.channels + cs
    ensures var r := Decode(AbsorbMessage, done, ChannelsBytes(cs) + TailBytes(m));
            if AllLengthsRight(cs) then r == Some(m) else r.None? || r.value.channels != m.channels
    decreases |cs|
  {
    hide Decode, AbsorbMessage, TailBytes, ChannelBytes, LengthIsRight, FieldFollows;
    if cs == [] {
      assert ChannelsBytes(cs) + TailBytes(m) == TailBytes(m);
      assert m.channels == done.channels;
      TailRoundTrip(m);
    } else {
      var c, rest := cs[0], ChannelsBytes(cs[1..]) + TailBytes(m);
      assert ChannelsBytes(cs) + TailBytes(m) == ChannelBytes(c) + rest;
      assert m.channels[|done.channels|] == c;
      if LengthIsRight(c) {
        var done' := done.(channels := done.channels + [c]);
        RightChannelDecodes(done, c, rest);
        assert m.channels == done'.channels + cs[1..];
        ChannelsDecodeIff(m, done', cs[1..]);
      } else {
        FieldsFollowChannels(cs[1..], m);
        WrongChannelIsLost(done, c, rest);
      }
    }
  }

  predicate CountsAndIdsFit(m: Message) {
    forall i | 0 <= i < |m.channels| :: LengthComesOutRight(|m.channels[i].samples|, m.channels[i].id)
  }

  /** A standard decoder recovers the message when every channel's sample count and id fit the four-bit widths. */
  lemma RoundTrip(m: Message)
    requires CountsAndIdsFit(m)
    ensures DecodeMessage(MessageBytes(m)) == Some(m)
  {
    hide Decode, AbsorbMessage, TailBytes, ChannelBytes, LengthIsRight, LengthComesOutRight;
    forall i | 0 <= i < |m.channels| ensures LengthIsRight(m.channels[i]) {
      LengthIsRightIff(m.channels[i]);
    }
    ChannelsDecodeIff(m, NO_MESSAGE, m.channels);
  }

  /** With at least one timestamp in the message no other message comes out right, nor do its channels. */
  lemma RoundTripIff(m: Message)
    requires m.stamps.Some? && m.stamps.value != []
    ensures DecodeMessage(MessageBytes(m)) == Some(m) <==> CountsAndIdsFit(m)
    ensures var r := DecodeMessage(MessageBytes(m)); r.Some? && r.value.channels == m.channels ==> CountsAndIdsFit(m)
  {
    hide Decode, AbsorbMessage, TailBytes, ChannelBytes, LengthIsRight, LengthComesOutRight;
    forall i | 0 <= i < |m.channels|
      ensures LengthIsRight(m.channels[i]) <==> LengthComesOutRight(|m.channels[i].samples|, m.channels[i].id) {
      LengthIsRightIff(m.channels[i]);
    }
    ChannelsDecodeIff(m, NO_MESSAGE, m.channels);
  }
}
