/** The size of the output buffer, computed ahead of time, against the messages that have to fit in. */
module BufferSize {
  import opened Bytes
  import opened Wrappers
  import opened Wire
  import opened ScData
  import opened ScAnnounce

  const TRIGGER_SIZE := 14
  const CHANNEL_CONFIGURATION_SIZE := 45
  const MAX_NAME_LENGTH := 29
  const VERSION_LENGTH := 3
  const TYPE_FLOAT := 6

  function DataSize(channels: nat, size: nat): nat {
    (size * 4 + 15) * channels + TRIGGER_SIZE + 5 + ((size + 1) * 4 + 1)
  }

  function AnnounceSize(addresses: nat): nat {
    CHANNEL_CONFIGURATION_SIZE * addresses + 15
  }

  function CalculateBufferSize(channels: nat, size: nat, addresses: nat): nat {
    if AnnounceSize(addresses) > DataSize(channels, size) then AnnounceSize(addresses) else DataSize(channels, size)
  }

  // -------------------------------------------------------------- SC_DATA

  const MAX_SIZE := 500000

  predicate ChannelInRange(c: Channel, size: nat) {
    |c.samples| <= size && c.id < 0x20_0000
  }

  predicate MessageInRange(m: Message, channels: nat, size: nat) {
    && |m.channels| <= channels && (forall i | 0 <= i < |m.channels| :: ChannelInRange(m.channels[i], size))
    && (m.stamps.Some? ==> |m.stamps.value| <= size)
  }

  lemma ChannelFits(c: Channel, size: nat)
    requires ChannelInRange(c, size) && size < MAX_SIZE
    ensures |ChannelBytes(c)| <= 4 * size + 12
  {
    hide Varint;
    VarintWidths(10);
    VarintWidths(AssumedLength(c));
    BodyLength(c);
    VarintWidths(4 * |c.samples|);
    VarintWidths(c.id);
  }

  lemma {:induction false} ChannelsFit(cs: seq<Channel>, size: nat)
    requires (forall i | 0 <= i < |cs| :: ChannelInRange(cs[i], size)) && size < MAX_SIZE
    ensures |ChannelsBytes(cs)| <= (4 * size + 12) * |cs|
  {
    hide ChannelBytes, ChannelInRange;
    if cs != [] {
      ChannelFits(cs[0], size);
      ChannelsFit(cs[1..], size);
      assert (4 * size + 12) * |cs| == (4 * size + 12) * (|cs| - 1) + (4 * size + 12);
    }
  }

  lemma NumberFits(number: nat, w: Word)
    requires number < 16
    ensures |NumberBytes(number, w)| <= 6
  {
    VarintWidths(8 * number);
    VarintWidths(w);
  }

  /**
   The increment, the trigger and the timestamps may each be longer than their budgets, by three bytes
   in all at most.
   */
  lemma TailFits(m: Message, size: nat)
    requires (m.stamps.Some? ==> |m.stamps.value| <= size) && size < MAX_SIZE
    requires m.trigger.Some? ==> m.trigger.value.mode < 3
    ensures |TailBytes(m)| <= TRIGGER_SIZE + 5 + ((size + 1) * 4 + 1) + 2
  {
    hide Varint;
    NumberFits(3, m.tInc);
    if m.stamps.Some? {
      VarintWidths(18);
      VarintWidths(4 * |m.stamps.value|);
    }
    if m.trigger.Some? {
      var t := m.trigger.value;
      NumberFits(1, t.channelId);
      NumberFits(2, t.dataIndex);
      VarintWidths(24);
      VarintWidths(t.mode);
      VarintWidths(34);
      VarintWidths(|TriggerBody(t)|);
    }
  }

  /** Three spare bytes of every channel make up for it, so one channel is enough. */
  lemma DataFits(m: Message, channels: nat, size: nat, addresses: nat)
    requires MessageInRange(m, channels, size) && channels >= 1 && size < MAX_SIZE
    requires m.trigger.Some? ==> m.trigger.value.mode < 3
    ensures |MessageBytes(m)| <= CalculateBufferSize(channels, size, addresses)
  {
    hide ChannelsBytes, TailBytes;
    ChannelsFit(m.channels, size);
    TailFits(m, size);
    var k := 4 * size + 12;
    assert k * |m.channels| <= k * channels;
    assert (size * 4 + 15) * channels == k * channels + 3 * channels;
  }

  /** As many stamps as a window has, and a number of five bytes wherever there can be one. */
  predicate LongestTail(m: Message, size: nat) {
    && m.stamps.Some? && |m.stamps.value| == size && m.tInc >= 0x1000_0000 && m.trigger.Some?
    && var t := m.trigger.value; t.channelId >= 0x1000_0000 && t.dataIndex >= 0x1000_0000 && 0 < t.mode < 3
  }

  lemma LongestTailLength(m: Message, size: nat)
    requires LongestTail(m, size) && 0x1000 <= size < MAX_SIZE
    ensures |TailBytes(m)| == TRIGGER_SIZE + 5 + ((size + 1) * 4 + 1) + 2
  {
    hide Varint;
    var t := m.trigger.value;
    forall n | n in {18, 24, 34, 8, 16} ensures |Varint(n)| == 1 {
      VarintWidths(n);
    }
    VarintWidths(m.tInc);
    VarintWidths(4 * size);
    VarintWidths(t.channelId);
    VarintWidths(t.dataIndex);
    VarintWidths(t.mode);
    assert |TriggerBody(t)| == 14;
    VarintWidths(14);
  }

  predicate LongestChannel(c: Channel, size: nat) {
    |c.samples| == size && 0x4000 <= c.id < 0x20_0000
  }

  lemma LongestChannelLength(c: Channel, size: nat)
    requires LongestChannel(c, size) && 0x1000 <= size < MAX_SIZE
    ensures |ChannelBytes(c)| == 4 * size + 12
  {
    hide Varint;
    VarintWidths(10);
    VarintWidths(AssumedLength(c));
    BodyLength(c);
    VarintWidths(4 * |c.samples|);
    VarintWidths(c.id);
  }

  lemma {:induction false} LongestChannelsLength(cs: seq<Channel>, size: nat)
    requires (forall i | 0 <= i < |cs| :: LongestChannel(cs[i], size)) && 0x1000 <= size < MAX_SIZE
    ensures |ChannelsBytes(cs)| == (4 * size + 12) * |cs|
  {
    hide ChannelBytes, LongestChannel;
    if cs != [] {
      LongestChannelLength(cs[0], size);
      LongestChannelsLength(cs[1..], size);
      assert (4 * size + 12) * |cs| == (4 * size + 12) * (|cs| - 1) + (4 * size + 12);
    }
  }

  /**
   The longest message there is: three bytes of the budget are spare for every channel, and two are
   missing for the rest, so that it fits the budget of its own channels if and only if it has any.
   */
  lemma LongestMessageFitsIff(m: Message, size: nat)
    requires LongestTail(m, size) && (forall i | 0 <= i < |m.channels| :: LongestChannel(m.channels[i], size))
    requires 0x1000 <= size < MAX_SIZE
    ensures |MessageBytes(m)| + 3 * |m.channels| == DataSize(|m.channels|, size) + 2
    ensures |MessageBytes(m)| <= DataSize(|m.channels|, size) <==> m.channels != []
  {
    hide ChannelsBytes, TailBytes, LongestTail, LongestChannel;
    LongestTailLength(m, size);
    LongestChannelsLength(m.channels, size);
    var n := |m.channels|;
    assert (size * 4 + 15) * n == (4 * size + 12) * n + 3 * n;
  }

  /** A message without channels can outgrow the budget for no channels. */
  lemma NoRoomWithoutChannels(m: Message, size: nat)
    requires m.channels == [] && LongestTail(m, size) && 0x1000 <= size < MAX_SIZE
    ensures |MessageBytes(m)| == DataSize(0, size) + 2
  {
    LongestMessageFitsIff(m, size);
  }

  // ---------------------------------------------------------- SC_ANNOUNCE

  predicate AddressInRange(a: Address) {
    a.id < 0x20_0000 && |a.name| <= MAX_NAME_LENGTH && a.varType <= TYPE_FLOAT
  }

  lemma TextFits(number: nat, text: seq<Byte>)
    requires number < 16 && |text| < 128
    ensures |TextBytes(number, text)| == if text == [] then 0 else 2 + |text|
  {
    VarintWidths(8 * number + 2);
    VarintWidths(|text|);
  }

  lemma AddressBodyLength(a: Address)
    requires |a.name| <= MAX_NAME_LENGTH && a.varType <= TYPE_FLOAT
    ensures |AddressBody(a)| <= 6 + 31 + 2 + 6
    ensures |AddressBody(a)| ==
            (if a.id == 0 then 0 else 1 + |Varint(a.id)|) + (if a.name == [] then 0 else 2 + |a.name|)
            + (if a.varType == 0 then 0 else 2) + (if a.address == 0 then 0 else 1 + |Varint(a.address)|)
  {
    hide Varint;
    forall n | n in {8, 24, 32} ensures |Varint(n)| == 1 {
      VarintWidths(n);
    }
    TextFits(2, a.name);
    VarintWidths(a.id);
    VarintWidths(a.varType);
    VarintWidths(a.address);
  }

  lemma AddressFits(a: Address)
    requires AddressInRange(a)
    ensures |AddressBytes(a)| <= CHANNEL_CONFIGURATION_SIZE
  {
    hide Varint, AddressBody;
    AddressBodyLength(a);
    VarintWidths(a.id);
    VarintWidths(a.address);
    VarintWidths(10);
    VarintWidths(|AddressBody(a)|);
  }

  lemma {:induction false} AddressesFit(addresses: seq<Address>)
    requires forall i | 0 <= i < |addresses| :: AddressInRange(addresses[i])
    ensures |AddressesBytes(addresses)| <= CHANNEL_CONFIGURATION_SIZE * |addresses|
  {
    if addresses != [] {
      AddressFits(addresses[0]);
      AddressesFit(addresses[1..]);
    }
  }

  lemma MetaLength(a: Announcement)
    requires |a.version| < 128
    ensures |MetaBytes(a)| == (if a.maxChannels == 0 then 0 else 1 + |Varint(a.maxChannels)|)
                              + (if a.timebase == 0 then 0 else 5) + (if a.version == [] then 0 else 2 + |a.version|)
  {
    hide Varint;
    forall n | n in {16, 29} ensures |Varint(n)| == 1 {
      VarintWidths(n);
    }
    TextFits(4, a.version);
  }

  lemma AnnouncementFits(a: Announcement, channels: nat, size: nat, addresses: nat)
    requires |a.addresses| <= addresses && forall i | 0 <= i < |a.addresses| :: AddressInRange(a.addresses[i])
    requires a.maxChannels < 0x1000_0000 && |a.version| <= VERSION_LENGTH
    ensures |AnnouncementBytes(a)| <= CalculateBufferSize(channels, size, addresses)
  {
    hide Varint, AddressesBytes, MetaBytes;
    AddressesFit(a.addresses);
    MetaLength(a);
    VarintWidths(a.maxChannels);
  }

  /** A long address: the longest name and a number in every field. */
  predicate Longest(a: Address) {
    |a.name| == MAX_NAME_LENGTH && 0 < a.varType <= TYPE_FLOAT && a.address >= 0x1000_0000
  }

  /** For the longest addresses the budget is exact: it is met from an id of 2^14 on and exceeded from 2^21 on. */
  lemma AddressBudgetIsTight(a: Address)
    requires Longest(a)
    ensures |AddressBytes(a)| <= CHANNEL_CONFIGURATION_SIZE <==> a.id < 0x20_0000
    ensures |AddressBytes(a)| == CHANNEL_CONFIGURATION_SIZE <==> 0x4000 <= a.id < 0x20_0000
  {
    hide Varint, AddressBody;
    AddressBodyLength(a);
    VarintWidths(a.id);
    VarintWidths(a.address);
    VarintWidths(10);
    VarintWidths(|AddressBody(a)|);
  }

  /** So is the budget for the rest, for the current version and a time base. */
  lemma MetaBudgetIsTight(a: Announcement)
    requires |a.version| == VERSION_LENGTH && a.timebase != 0
    ensures |MetaBytes(a)| <= 15 <==> a.maxChannels < 0x1000_0000
    ensures |MetaBytes(a)| == 15 <==> 0x20_0000 <= a.maxChannels < 0x1000_0000
  {
    hide Varint, MetaBytes;
    MetaLength(a);
    VarintWidths(a.maxChannels);
  }

  /** Any number of such addresses fills the announcement's share of the buffer to the last byte. */
  lemma {:induction false} AnnouncementFillsBudget(a: Announcement)
    requires forall i | 0 <= i < |a.addresses| :: Longest(a.addresses[i]) && 0x4000 <= a.addresses[i].id < 0x20_0000
    requires |a.version| == VERSION_LENGTH && a.timebase != 0 && 0x20_0000 <= a.maxChannels < 0x1000_0000
    ensures |AnnouncementBytes(a)| == AnnounceSize(|a.addresses|)
    decreases |a.addresses|
  {
    hide AddressBytes, Longest;
    if a.addresses == [] {
      MetaBudgetIsTight(a);
    } else {
      AddressBudgetIsTight(a.addresses[0]);
      AnnouncementFillsBudget(a.(addresses := a.addresses[1..]));
    }
  }
}
