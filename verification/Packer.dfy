/** The packer: collects what a message consists of and writes it to the bounded output stream. */
module PackerUnit {
  import opened Bytes
  import opened Wrappers
  import opened Wire
  import D = ScData
  import opened ScAnnounce
  import opened BufferSize
  import opened ControlSpec

  /** A buffer of 32-bit values that is emptied by reading: the swap buffer of a channel or of the timestamps. */
  class WordStream {
    var data: seq<Word>

    constructor (data: seq<Word>)
      ensures this.data == data
    {
      this.data := data;
    }

    method Read() returns (w: Word)
      requires data != []
      modifies this
      ensures w == old(data[0]) && data == old(data[1..])
    {
      w := data[0];
      data := data[1..];
    }
  }

  datatype ChannelDef = ChannelDef(stream: WordStream, id: Word)

  datatype TriggerDef = TriggerDef(isTriggered: bool, channelId: Word, timestamp: Word, mode: Word)

  /**
   What writing `bytes` to an output that held `before` comes to. A write that does not fit is
   refused and ends the encoding, so what is left is a part of the message from its start.
   */
  predicate Wrote(before: seq<Byte>, bytes: seq<Byte>, after: seq<Byte>, size: nat, ok: bool) {
    && ok == (|before| + |bytes| <= size)
    && (ok ==> after == before + bytes)
    && before <= after <= before + bytes
    && |after| <= size
  }

  /** Part of a message is written and `rest` of it is to come. */
  predicate Halfway(before: seq<Byte>, bytes: seq<Byte>, now: seq<Byte>, rest: seq<Byte>, size: nat) {
    before <= now && |now| <= size && now + rest == before + bytes
  }

  lemma NextPiece(before: seq<Byte>, bytes: seq<Byte>, now: seq<Byte>, piece: seq<Byte>, rest: seq<Byte>,
                  after: seq<Byte>, size: nat, ok: bool)
    requires Halfway(before, bytes, now, piece + rest, size) && Wrote(now, piece, after, size, ok)
    ensures if ok then Halfway(before, bytes, after, rest, size) else Wrote(before, bytes, after, size, false)
  {
    assert now + (piece + rest) == (now + piece) + rest;
  }

  lemma AtTheStart(before: seq<Byte>, bytes: seq<Byte>, size: nat)
    requires |before| <= size
    ensures Halfway(before, bytes, before, bytes, size)
  {
  }

  lemma AtTheEnd(before: seq<Byte>, bytes: seq<Byte>, after: seq<Byte>, size: nat)
    requires Halfway(before, bytes, after, [], size)
    ensures Wrote(before, bytes, after, size, true)
  {
    assert after + [] == after;
  }

  lemma WroteAllIff(before: seq<Byte>, bytes: seq<Byte>, after: seq<Byte>, size: nat, ok: bool)
    requires Wrote(before, bytes, after, size, ok)
    ensures ok == (|before| + |bytes| <= size) == (|after| == |before| + |bytes|)
  {
  }

  lemma NothingWritten(size: nat)
    ensures Wrote([], [], [], size, true)
  {
  }

  lemma LastPiece(before: seq<Byte>, bytes: seq<Byte>, now: seq<Byte>, piece: seq<Byte>, after: seq<Byte>, size: nat,
                  ok: bool)
    requires Halfway(before, bytes, now, piece, size) && Wrote(now, piece, after, size, ok)
    ensures Wrote(before, bytes, after, size, ok)
  {
  }

  function Shift(data: nat, bits: nat): int {
    data / Pow2(bits)
  }

  function Pow2(bits: nat): (r: nat)
    ensures r >= 1
  {
    if bits == 0 then 1 else 2 * Pow2(bits - 1)
  }

  method GetWidthOfVarint(data: Word) returns (width: nat)
    ensures width == D.AssumedWidth(data)
  {
    assert Pow2(4) == 0x10 && Pow2(8) == 0x100 && Pow2(12) == 0x1000;
    var i := 1;
    while i < 4
      invariant 1 <= i <= 4
      invariant i >= 2 ==> data >= 0x10
      invariant i >= 3 ==> data >= 0x100
      invariant i >= 4 ==> data >= 0x1000
    {
      assert 4 * i == 4 || 4 * i == 8 || 4 * i == 12;
      if Shift(data, i * 4) == 0 {
        return i;
      }
      i := i + 1;
    }
    return 1;
  }

  ghost function Streams(cs: seq<ChannelDef>): set<WordStream> {
    set c | c in cs :: c.stream
  }

  ghost function Views(cs: seq<ChannelDef>): (r: seq<D.Channel>)
    reads Streams(cs)
    ensures |r| == |cs|
    ensures forall i | 0 <= i < |cs| :: r[i] == D.Channel(cs[i].stream.data, cs[i].id)
  {
    if cs == [] then []
    else
      assert Streams(cs[..|cs| - 1]) <= Streams(cs);
      Views(cs[..|cs| - 1]) + [D.Channel(cs[|cs| - 1].stream.data, cs[|cs| - 1].id)]
  }

  /** A name fits the 30 characters it is copied to, and the type is one of the seven there are. */
  predicate Printable(a: Address) {
    |a.name| <= MAX_NAME_LENGTH && a.varType <= TYPE_FLOAT
  }

  class Packer {
    const maxNumberOfChannels: nat
    const maxAddressesToAnnounce: nat
    /** The capacity of the output stream. */
    const maxSize: nat
    var channels: seq<ChannelDef>
    var addresses: seq<Address>
    var maxChannels: Word
    var timebase: Word
    var version: seq<Byte>
    var timeIncrement: Word
    var timestamp: WordStream?
    var trigger: TriggerDef
    var logMessage: seq<Byte>
    var output: seq<Byte>
    /** How much of the current message is written. */
    var bytesWritten: nat

    /** Every buffer is handed over at most once, and sample buffers are not timestamp buffers. */
    ghost predicate Distinct()
      reads this
    {
      && (forall i, j | 0 <= i < j < |channels| :: channels[i].stream != channels[j].stream)
      && (forall c | c in channels :: c.stream != timestamp)
    }

    ghost predicate Valid()
      reads this
    {
      && |channels| <= maxNumberOfChannels && |addresses| <= maxAddressesToAnnounce
      && (forall a | a in addresses :: Printable(a))
      && Distinct() && bytesWritten == 0 && |output| <= maxSize
    }

    ghost function Inputs(): set<WordStream>
      reads this
    {
      Streams(channels) + if timestamp == null then {} else {timestamp}
    }

    ghost function ViewStamps(): Option<seq<Word>>
      reads this, if timestamp == null then {} else {timestamp}
    {
      if timestamp == null then None else Some(timestamp.data)
    }

    ghost function ViewTrigger(): Option<D.Trigger>
      reads this
    {
      if trigger.isTriggered then Some(D.Trigger(trigger.channelId, trigger.timestamp, trigger.mode)) else None
    }

    ghost function DataMessage(): D.Message
      reads this, Inputs()
    {
      D.Message(Views(channels), ViewStamps(), timeIncrement, ViewTrigger())
    }

    ghost function AnnounceMessage(): Announcement
      reads this
    {
      Announcement(addresses, maxChannels, timebase, version)
    }

    constructor (maxNumberOfChannels: nat, maxAddressesToAnnounce: nat, capacity: nat)
      ensures Valid() && maxSize == capacity && output == [] && channels == [] && addresses == []
      ensures this.maxNumberOfChannels == maxNumberOfChannels && this.maxAddressesToAnnounce == maxAddressesToAnnounce
    {
      this.maxNumberOfChannels := maxNumberOfChannels;
      this.maxAddressesToAnnounce := maxAddressesToAnnounce;
      maxSize := capacity;
      channels, addresses, output, bytesWritten := [], [], [], 0;
      timestamp := null;
    }

    method AddChannel(channel: ChannelDef)
      requires Valid() && channel.stream !in Streams(channels) && channel.stream != timestamp
      modifies this`channels
      ensures Valid()
      ensures channels == if |old(channels)| < maxNumberOfChannels then old(channels) + [channel] else old(channels)
    {
      if |channels| >= maxNumberOfChannels {
        return;
      }
      assert forall i | 0 <= i < |channels| :: channels[i].stream in Streams(channels);
      channels := channels + [channel];
    }

    method AddTimestamp(stream: WordStream)
      requires Valid() && stream !in Streams(channels)
      modifies this`timestamp
      ensures Valid() && timestamp == stream
    {
      timestamp := stream;
    }

    method AddAddressAnnouncement(address: Address)
      requires Valid() && Printable(address)
      modifies this`addresses
      ensures Valid()
      ensures addresses == if |old(addresses)| < maxAddressesToAnnounce then old(addresses) + [address]
                           else old(addresses)
    {
      if |addresses| >= maxAddressesToAnnounce {
        return;
      }
      addresses := addresses + [address];
    }

    /** Whatever the output holds: the count of written bytes is reset after every message. */
    method IsReady() returns (ready: bool)
      requires Valid()
      ensures ready
    {
      ready := bytesWritten == 0;
    }

    method ResetSelf()
      modifies this`channels, this`addresses, this`bytesWritten
      ensures channels == [] && addresses == [] && bytesWritten == 0
    {
      channels, addresses, bytesWritten := [], [], 0;
    }

    // ------------------------------------------------------------- writing

    ghost predicate Writing()
      reads this
    {
      bytesWritten == |output| <= maxSize
    }

    /** The stream under the encoder: all of `bytes` or none of it. */
    method Write(bytes: seq<Byte>) returns (ok: bool)
      requires Writing()
      modifies this`output, this`bytesWritten
      ensures Writing() && Wrote(old(output), bytes, output, maxSize, ok)
    {
      if bytesWritten + |bytes| > maxSize {
        return false;
      }
      output := output + bytes;
      bytesWritten := bytesWritten + |bytes|;
      return true;
    }

    method WriteBoth(x: seq<Byte>, y: seq<Byte>) returns (ok: bool)
      requires Writing()
      modifies this`output, this`bytesWritten
      ensures Writing() && Wrote(old(output), x + y, output, maxSize, ok)
    {
      ok := Write(x);
      ghost var between := output;
      NextPiece(old(output), x + y, old(output), x, y, between, maxSize, ok);
      if ok {
        ok := Write(y);
        LastPiece(old(output), x + y, between, y, output, maxSize, ok);
      }
    }

    method EncodeField(f: Field) returns (ok: bool)
      requires Writing()
      modifies this`output, this`bytesWritten
      ensures Writing() && Wrote(old(output), FieldBytes(f), output, maxSize, ok)
    {
      ok := WriteBoth(Varint(Key(f)), Content(f.value));
    }

    method EncodeNumber(number: nat, n: nat) returns (ok: bool)
      requires Writing()
      modifies this`output, this`bytesWritten
      ensures Writing() && Wrote(old(output), D.NumberBytes(number, n), output, maxSize, ok)
    {
      if n == 0 {
        return true;
      }
      ok := EncodeField(Field(number, Number(n)));
    }

    /** Tag, length and the words of the stream, which is read until it is empty. */
    method WriteWords(number: nat, stream: WordStream) returns (ok: bool)
      requires Writing()
      modifies this`output, this`bytesWritten, stream
      ensures Writing() && Wrote(old(output), FieldBytes(D.Packed(number, old(stream.data))), output, maxSize, ok)
      ensures ok ==> stream.data == []
    {
      hide Varint, Wrote, Halfway, LE32;
      ghost var start, words := output, stream.data;
      ghost var all := FieldBytes(D.Packed(number, words));
      var length := |stream.data|;
      var head := Varint(8 * number + 2) + Varint(length * 4);
      assert all == head + WordBytes(words);
      ok := WriteBoth(Varint(8 * number + 2), Varint(length * 4));
      AtTheStart(start, all, maxSize);
      NextPiece(start, all, start, head, WordBytes(words), output, maxSize, ok);
      if !ok {
        return;
      }
      var i := 0;
      while i < length
        invariant 0 <= i <= length && |stream.data| == length - i && Writing()
        invariant Halfway(start, all, output, WordBytes(stream.data), maxSize)
      {
        ghost var before, rest := output, WordBytes(stream.data);
        var data := stream.Read();
        assert rest == LE32(data) + WordBytes(stream.data);
        ok := Write(LE32(data));
        NextPiece(start, all, before, LE32(data), WordBytes(stream.data), output, maxSize, ok);
        if !ok {
          return;
        }
        i := i + 1;
      }
      AtTheEnd(start, all, output, maxSize);
    }

    method EncodeChannel(channel: ChannelDef) returns (ok: bool)
      requires Writing()
      modifies this`output, this`bytesWritten, channel.stream
      ensures Writing()
      ensures Wrote(old(output), D.Body(D.Channel(old(channel.stream.data), channel.id)), output, maxSize, ok)
      ensures ok ==> channel.stream.data == []
    {
      hide Wrote, Halfway, FieldBytes, D.NumberBytes;
      ghost var start, samples := output, FieldBytes(D.Packed(1, channel.stream.data));
      ghost var id := D.NumberBytes(2, channel.id);
      AtTheStart(start, samples + id, maxSize);
      ok := WriteWords(1, channel.stream);
      ghost var between := output;
      NextPiece(start, samples + id, start, samples, id, between, maxSize, ok);
      if ok {
        ok := EncodeNumber(2, channel.id);
        LastPiece(start, samples + id, between, id, output, maxSize, ok);
      }
    }

    /** One channel: tag, the computed length, the samples and the id. */
    method WriteChannel(channel: ChannelDef) returns (ok: bool)
      requires Writing()
      modifies this`output, this`bytesWritten, channel.stream
      ensures Writing()
      ensures Wrote(old(output), D.ChannelBytes(D.Channel(old(channel.stream.data), channel.id)), output, maxSize, ok)
      ensures ok ==> channel.stream.data == []
    {
      hide Wrote, Halfway, D.Body, Varint, D.AssumedWidth;
      ghost var start, c := output, D.Channel(channel.stream.data, channel.id);
      var length := |channel.stream.data|;
      var idSize := 0;
      if channel.id != 0 {
        var idWidth := GetWidthOfVarint(channel.id);
        idSize := 1 + idWidth;
      }
      var width := GetWidthOfVarint(length % 0x1_0000_0000);
      var head := Varint(length * 4 + 1 + idSize + width);
      ghost var all := D.ChannelBytes(c);
      assert all == (Varint(10) + head) + D.Body(c);
      AtTheStart(start, all, maxSize);
      ok := WriteBoth(Varint(10), head);
      ghost var between := output;
      NextPiece(start, all, start, Varint(10) + head, D.Body(c), between, maxSize, ok);
      if ok {
        ok := EncodeChannel(channel);
        LastPiece(start, all, between, D.Body(c), output, maxSize, ok);
      }
    }

    method WriteChannels() returns (ok: bool)
      requires Writing() && Distinct()
      modifies this`output, this`bytesWritten, Streams(channels)
      ensures Writing()
      ensures Wrote(old(output), D.ChannelsBytes(old(Views(channels))), output, maxSize, ok)
      ensures ok ==> forall c | c in channels :: c.stream.data == []
    {
      hide Wrote, Halfway, D.ChannelBytes, Views;
      ghost var start, cs := output, Views(channels);
      ghost var all := D.ChannelsBytes(cs);
      AtTheStart(start, all, maxSize);
      assert cs[0..] == cs;
      var i := 0;
      while i < |channels|
        invariant 0 <= i <= |channels| && Writing()
        invariant Halfway(start, all, output, D.ChannelsBytes(cs[i..]), maxSize)
        invariant forall j | 0 <= j < i :: channels[j].stream.data == []
        invariant forall j | i <= j < |channels| :: cs[j] == D.Channel(channels[j].stream.data, channels[j].id)
      {
        ghost var before := output;
        assert cs[i..][1..] == cs[i + 1..];
        assert channels[i] in channels;
        ok := WriteChannel(channels[i]);
        NextPiece(start, all, before, D.ChannelBytes(cs[i]), D.ChannelsBytes(cs[i + 1..]), output, maxSize, ok);
        if !ok {
          return;
        }
        i := i + 1;
      }
      AtTheEnd(start, all, output, maxSize);
      ok := true;
    }

    method EncodeTrigger() returns (ok: bool)
      requires Writing()
      modifies this`output, this`bytesWritten
      ensures Writing()
      ensures Wrote(old(output), D.TriggerBytes(old(ViewTrigger())), output, maxSize, ok)
    {
      if !trigger.isTriggered {
        return true;
      }
      ok := EncodeField(Field(4, Block(D.TriggerBody(D.Trigger(trigger.channelId, trigger.timestamp, trigger.mode)))));
    }

    method WriteTimestamp() returns (ok: bool)
      requires Writing()
      modifies this`output, this`bytesWritten, if timestamp == null then {} else {timestamp}
      ensures Writing()
      ensures Wrote(old(output), D.StampsBytes(old(ViewStamps())), output, maxSize, ok)
      ensures ok && timestamp != null ==> timestamp.data == []
    {
      if timestamp == null {
        return true;
      }
      ok := WriteWords(2, timestamp);
    }

    /** Everything after the channels. */
    method PackTail() returns (ok: bool)
      requires Writing()
      modifies this`output, this`bytesWritten, if timestamp == null then {} else {timestamp}
      ensures Writing()
      ensures var bytes := D.StampsBytes(old(ViewStamps()))
                           + (D.NumberBytes(3, timeIncrement) + D.TriggerBytes(ViewTrigger()));
              Wrote(old(output), bytes, output, maxSize, ok)
      ensures ok && timestamp != null ==> timestamp.data == []
    {
      hide Wrote, Halfway, D.NumberBytes, D.TriggerBytes, D.StampsBytes;
      ghost var start, stamps := output, D.StampsBytes(ViewStamps());
      ghost var increment, hit := D.NumberBytes(3, timeIncrement), D.TriggerBytes(ViewTrigger());
      ghost var all := stamps + (increment + hit);
      AtTheStart(start, all, maxSize);
      ok := WriteTimestamp();
      ghost var first := output;
      NextPiece(start, all, start, stamps, increment + hit, first, maxSize, ok);
      if ok {
        ok := EncodeNumber(3, timeIncrement);
        ghost var second := output;
        NextPiece(start, all, first, increment, hit, second, maxSize, ok);
        if ok {
          ok := EncodeTrigger();
          LastPiece(start, all, second, hit, output, maxSize, ok);
        }
      }
    }

    method PackScData() returns (ok: bool)
      requires Writing() && Distinct()
      modifies this`output, this`bytesWritten, Inputs()
      ensures Writing()
      ensures Wrote(old(output), D.MessageBytes(old(DataMessage())), output, maxSize, ok)
      ensures ok ==> forall s | s in Inputs() :: s.data == []
    {
      hide Wrote, Halfway, D.ChannelsBytes, D.StampsBytes, D.NumberBytes, D.TriggerBytes;
      ghost var start, m := output, DataMessage();
      ghost var cs, tail, all := D.ChannelsBytes(m.channels), D.TailBytes(m), D.MessageBytes(m);
      AtTheStart(start, all, maxSize);
      ok := WriteChannels();
      ghost var between := output;
      NextPiece(start, all, start, cs, tail, between, maxSize, ok);
      if ok {
        assert ViewStamps() == m.stamps;
        ok := PackTail();
        LastPiece(start, all, between, tail, output, maxSize, ok);
      }
    }

    method WriteAddress(a: Address) returns (ok: bool)
      requires Writing() && Printable(a)
      modifies this`output, this`bytesWritten
      ensures Writing() && Wrote(old(output), AddressBytes(a), output, maxSize, ok)
    {
      hide Wrote, AddressBody;
      var trial := AddressBody(a);
      AddressBodyLength(a);
      assert |trial| <= CHANNEL_CONFIGURATION_SIZE;
      ok := EncodeField(Field(1, Block(trial)));
    }

    method WriteAddresses() returns (ok: bool)
      requires Writing() && forall a | a in addresses :: Printable(a)
      modifies this`output, this`bytesWritten
      ensures Writing() && Wrote(old(output), AddressesBytes(addresses), output, maxSize, ok)
    {
      hide Wrote, Halfway, AddressBytes, Printable;
      ghost var start, all := output, AddressesBytes(addresses);
      AtTheStart(start, all, maxSize);
      assert addresses[0..] == addresses;
      var i := 0;
      while i < |addresses|
        invariant 0 <= i <= |addresses| && Writing()
        invariant Halfway(start, all, output, AddressesBytes(addresses[i..]), maxSize)
      {
        ghost var before := output;
        assert addresses[i..][1..] == addresses[i + 1..];
        ok := WriteAddress(addresses[i]);
        NextPiece(start, all, before, AddressBytes(addresses[i]), AddressesBytes(addresses[i + 1..]), output,
                  maxSize, ok);
        if !ok {
          return;
        }
        i := i + 1;
      }
      AtTheEnd(start, all, output, maxSize);
      ok := true;
    }

    method EncodeTimebase() returns (ok: bool)
      requires Writing()
      modifies this`output, this`bytesWritten
      ensures Writing() && Wrote(old(output), FourBytes(3, timebase), output, maxSize, ok)
    {
      if timebase == 0 {
        return true;
      }
      ok := EncodeField(Field(3, Four(timebase)));
    }

    method EncodeText(number: nat, text: seq<Byte>) returns (ok: bool)
      requires Writing()
      modifies this`output, this`bytesWritten
      ensures Writing() && Wrote(old(output), TextBytes(number, text), output, maxSize, ok)
    {
      if text == [] {
        return true;
      }
      ok := EncodeField(Field(number, Block(text)));
    }

    method PackMeta() returns (ok: bool)
      requires Writing()
      modifies this`output, this`bytesWritten
      ensures Writing() && Wrote(old(output), MetaBytes(AnnounceMessage()), output, maxSize, ok)
    {
      hide Wrote, Halfway, D.NumberBytes, FourBytes, TextBytes;
      ghost var start, all := output, MetaBytes(AnnounceMessage());
      ghost var base, text := FourBytes(3, timebase), TextBytes(4, version);
      AtTheStart(start, all, maxSize);
      ok := EncodeNumber(2, maxChannels);
      ghost var first := output;
      NextPiece(start, all, start, D.NumberBytes(2, maxChannels), base + text, first, maxSize, ok);
      if ok {
        ok := EncodeTimebase();
        ghost var second := output;
        NextPiece(start, all, first, base, text, second, maxSize, ok);
        if ok {
          ok := EncodeText(4, version);
          LastPiece(start, all, second, text, output, maxSize, ok);
        }
      }
    }

    method PackScAnnounce() returns (ok: bool)
      requires Writing() && forall a | a in addresses :: Printable(a)
      modifies this`output, this`bytesWritten
      ensures Writing() && Wrote(old(output), AnnouncementBytes(AnnounceMessage()), output, maxSize, ok)
    {
      hide Wrote, Halfway, AddressesBytes, MetaBytes, Printable;
      ghost var start, a := output, AnnounceMessage();
      AtTheStart(start, AnnouncementBytes(a), maxSize);
      ok := WriteAddresses();
      ghost var between := output;
      NextPiece(start, AnnouncementBytes(a), start, AddressesBytes(addresses), MetaBytes(a), between, maxSize, ok);
      if ok {
        ok := PackMeta();
        LastPiece(start, AnnouncementBytes(a), between, MetaBytes(a), output, maxSize, ok);
      }
    }

    /** The bytes of the message that is prepared. */
    ghost function Message(messageType: Byte): seq<Byte>
      reads this, Inputs()
    {
      if messageType == SC_DATA then D.MessageBytes(DataMessage())
      else if messageType == SC_ANNOUNCE then AnnouncementBytes(AnnounceMessage())
      else if messageType == SC_LOG then TextBytes(1, logMessage)
      else []
    }

    /**
     Nothing happens while the output still holds bytes. Otherwise the message is written if it
     fits and cut off if not, and the packer starts over.
     */
    method Pack(messageType: Byte)
      requires Valid()
      modifies this`output, this`bytesWritten, this`channels, this`addresses, Inputs()
      ensures Valid()
      ensures old(output) != [] ==> output == old(output) && channels == old(channels) && addresses == old(addresses)
                                    && forall s | s in old(Inputs()) :: s.data == old(s.data)
      ensures old(output) == [] ==>
                && channels == [] && addresses == []
                && Wrote([], old(Message(messageType)), output, maxSize, |old(Message(messageType))| <= maxSize)
                && (messageType == SC_DATA && |output| == |old(Message(messageType))| ==>
                      forall s | s in old(Inputs()) :: s.data == [])
    {
      hide Wrote, D.MessageBytes, AnnouncementBytes, Printable;
      if |output| != 0 {
        return;
      }
      var ok := true;
      if messageType == SC_DATA {
        ok := PackScData();
      } else if messageType == SC_ANNOUNCE {
        ok := PackScAnnounce();
      } else if messageType == SC_LOG {
        ok := EncodeText(1, logMessage);
      } else {
        NothingWritten(maxSize);
      }
      WroteAllIff([], old(Message(messageType)), output, maxSize, ok);
      ResetSelf();
    }
  }

  /** The data message that is prepared, in the packer's fields. */
  lemma WhatIsPrepared(p: Packer)
    ensures var m := p.DataMessage();
            && |m.channels| == |p.channels|
            && (forall i | 0 <= i < |p.channels| ::
                  m.channels[i].id == p.channels[i].id && m.channels[i].samples == p.channels[i].stream.data)
            && (p.timestamp == null <==> m.stamps.None?) && (p.timestamp != null ==> m.stamps == Some(p.timestamp.data))
            && m.tInc == p.timeIncrement
            && (m.trigger.Some? <==> p.trigger.isTriggered)
            && (p.trigger.isTriggered ==>
                  && m.trigger.value.channelId == p.trigger.channelId && m.trigger.value.mode == p.trigger.mode
                  && m.trigger.value.dataIndex == p.trigger.timestamp)
  {
  }

  /**
   So what is packed is what was added: a decoder gets, of a packer whose counts and ids fit, the channels in
   the order in which they were added, each with its number and its samples, the stamps, the increment, and
   channel, time and mode of the trigger.
   */
  lemma WhatWasAddedArrives(p: Packer, size: nat, addresses: nat, output: seq<Byte>)
    requires p.Valid() && MessageInRange(p.DataMessage(), p.maxNumberOfChannels, size)
    requires p.maxNumberOfChannels >= 1 && size < MAX_SIZE && p.trigger.mode < 3
    requires CalculateBufferSize(p.maxNumberOfChannels, size, addresses) <= p.maxSize
    requires var bytes := D.MessageBytes(p.DataMessage()); Wrote([], bytes, output, p.maxSize, |bytes| <= p.maxSize)
    requires D.CountsAndIdsFit(p.DataMessage())
    ensures var r := D.DecodeMessage(output);
            && r.Some? && |r.value.channels| == |p.channels|
            && (forall i | 0 <= i < |p.channels| ::
                  r.value.channels[i].id == p.channels[i].id
                  && r.value.channels[i].samples == p.channels[i].stream.data)
            && (p.timestamp != null ==> r.value.stamps == Some(p.timestamp.data)) && r.value.tInc == p.timeIncrement
            && (r.value.trigger.Some? <==> p.trigger.isTriggered)
            && (p.trigger.isTriggered ==>
                  && r.value.trigger.value.channelId == p.trigger.channelId
                  && r.value.trigger.value.dataIndex == p.trigger.timestamp
                  && r.value.trigger.value.mode == p.trigger.mode)
  {
    WhatIsPrepared(p);
    hide D.MessageBytes, D.DecodeMessage, D.CountsAndIdsFit, MessageInRange, CalculateBufferSize, Wrote;
    PackedDataArrives(p.DataMessage(), p.maxNumberOfChannels, size, addresses, p.maxSize, output);
  }

  /**
   In an output of the computed size a data message is written whole, and a standard decoder gets
   it back: always when the counts and ids fit the four-bit widths and, with timestamps in it, only then.
   */
  lemma PackedDataArrives(m: D.Message, channels: nat, size: nat, addresses: nat, capacity: nat, output: seq<Byte>)
    requires MessageInRange(m, channels, size) && channels >= 1 && size < MAX_SIZE
    requires m.trigger.Some? ==> m.trigger.value.mode < 3
    requires CalculateBufferSize(channels, size, addresses) <= capacity
    requires Wrote([], D.MessageBytes(m), output, capacity, |D.MessageBytes(m)| <= capacity)
    ensures D.CountsAndIdsFit(m) ==> D.DecodeMessage(output) == Some(m)
    ensures m.stamps.Some? && m.stamps.value != [] && D.DecodeMessage(output) == Some(m) ==> D.CountsAndIdsFit(m)
  {
    hide D.MessageBytes, D.DecodeMessage, D.CountsAndIdsFit, MessageInRange, CalculateBufferSize;
    DataFits(m, channels, size, addresses);
    assert output == D.MessageBytes(m);
    if D.CountsAndIdsFit(m) {
      D.RoundTrip(m);
    } else if m.stamps.Some? && m.stamps.value != [] {
      D.RoundTripIff(m);
    }
  }

  lemma PackedAnnouncementArrives(a: Announcement, channels: nat, size: nat, addresses: nat, capacity: nat,
                                  output: seq<Byte>)
    requires |a.addresses| <= addresses && forall i | 0 <= i < |a.addresses| :: AddressInRange(a.addresses[i])
    requires a.maxChannels < 0x1000_0000 && |a.version| <= VERSION_LENGTH
    requires CalculateBufferSize(channels, size, addresses) <= capacity
    requires Wrote([], AnnouncementBytes(a), output, capacity, |AnnouncementBytes(a)| <= capacity)
    ensures DecodeAnnouncement(output) == Some(a)
  {
    hide AnnouncementBytes, DecodeAnnouncement, AddressInRange, CalculateBufferSize;
    AnnouncementFits(a, channels, size, addresses);
    assert output == AnnouncementBytes(a);
    AnnouncementRoundTrip(a);
  }
}
