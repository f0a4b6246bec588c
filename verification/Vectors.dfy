/** The byte strings that the repository's own tests expect, of the same inputs. */
module Vectors {
  import opened Bytes
  import opened Wrappers
  import opened Wire
  import opened ControlSpec
  import FS = FrameSpec
  import D = ScData
  import A = ScAnnounce

  /** The numbers that go over the line as types. */
  lemma MessageNumbers()
    ensures [SE_NONE, SE_NAK, SE_ACK] == [0, 1, 2]
    ensures [SC_DATA, SC_ANNOUNCE, SC_DETECT, SC_STREAM, SC_LOG] == [50, 51, 52, 53, 54]
    ensures FIRST_HOST_MESSAGE == 100
            && [EV_POLL, CF_RUNNING, CF_TRIGGER, CF_T_INC, CF_ADDR] == [102, 105, 106, 107, 108]
  {
  }

  // ---------------------------------------------------------------- frames

  lemma SumGrows(s: seq<Byte>, b: Byte, n: nat)
    requires Sum16(s) == n && n + b < 0x1_0000
    ensures Sum16(s + [b]) == n + b
  {
    Sum16Snoc(s, b);
  }

  lemma SumToFive()
    ensures Sum16([0, 1, 2, 3, 4, 5]) == 15
  {
    assert Sum16([]) == 0;
    hide Sum16;
    SumGrows([], 0, 0);
    SumGrows([] + [0], 1, 0);
    SumGrows([] + [0] + [1], 2, 1);
    SumGrows([] + [0] + [1] + [2], 3, 3);
    SumGrows([] + [0] + [1] + [2] + [3], 4, 6);
    SumGrows([] + [0] + [1] + [2] + [3] + [4], 5, 10);
    assert [] + [0] + [1] + [2] + [3] + [4] + [5] == [0, 1, 2, 3, 4, 5];
  }

  lemma FramedAnnouncement()
    ensures FS.Frame(SC_ANNOUNCE, [0, 1, 2, 3, 4, 5])
         == [91, 51, 0, 0, 0, 6] + [0, 1, 2, 3, 4, 5] + [0, 15, 93]
  {
    SumToFive();
    hide Sum16;
    assert FS.Header(SC_ANNOUNCE, 6) == [91, 51, 0, 0, 0, 6] && FS.Footer(15) == [0, 15, 93];
    hide FS.Header, FS.Footer;
  }

  lemma FramedDetection()
    ensures FS.Frame(SC_DETECT, []) == [91, 52, 0, 0, 0, 0, 0, 0, 93]
  {
  }

  // --------------------------------------------------------------- SC_DATA

  /** -23.5354, 234534523.5354, 3.45e-6, -3.45e-6, 0 and 1.5 as single-precision numbers. */
  const SAMPLES: seq<Word> := [0xc1bc4880, 0x4d5fab68, 0x3667868c, 0xb667868c, 0x0, 0x3fc00000]

  const SAMPLE_BYTES: seq<Byte> :=
    [128, 72, 188, 193] + [104, 171, 95, 77] + [140, 134, 103, 54] + [140, 134, 103, 182] + [0, 0, 0, 0] + [0, 0,
                                                                                                            192, 63]

  const STAMP_BYTES: seq<Byte> :=
    [0, 0, 0, 0] + [1, 0, 0, 0] + [2, 0, 0, 0] + [3, 0, 0, 0] + [4, 0, 0, 0] + [5, 0, 0, 0]

  lemma SixWords(a: Word, b: Word, c: Word, d: Word, e: Word, f: Word)
    ensures WordBytes([a, b, c, d, e, f]) == LE32(a) + LE32(b) + LE32(c) + LE32(d) + LE32(e) + LE32(f)
  {
    hide LE32;
    FirstWord(f, []);
    FirstWord(e, [f]);
    FirstWord(d, [e, f]);
    FirstWord(c, [d, e, f]);
    FirstWord(b, [c, d, e, f]);
    FirstWord(a, [b, c, d, e, f]);
    assert [f] + [] == [f] && [e] + [f] == [e, f] && [d] + [e, f] == [d, e, f] && [c] + [d, e, f] == [c, d, e, f];
    assert [b] + [c, d, e, f] == [b, c, d, e, f] && [a] + [b, c, d, e, f] == [a, b, c, d, e, f];
    assert WordBytes([]) == [];
    hide WordBytes;
  }

  lemma FirstWord(w: Word, ws: seq<Word>)
    ensures WordBytes([w] + ws) == LE32(w) + WordBytes(ws)
  {
    assert ([w] + ws)[1..] == ws;
  }

  lemma LittleEndian(w: Word, b0: Byte, b1: Byte, b2: Byte, b3: Byte)
    requires w == b0 + b1 * 0x100 + b2 * 0x1_0000 + b3 * 0x100_0000
    ensures LE32(w) == [b0, b1, b2, b3]
  {
    var q1: nat, q2: nat := b1 + b2 * 0x100 + b3 * 0x1_0000, b2 + b3 * 0x100;
    LastByte(w, q1, b0);
    LastByte(q1, q2, b1);
    LastByte(q2, b3, b2);
    assert w / 0x1_0000 == q1 / 0x100 && w / 0x100_0000 == q2 / 0x100;
  }

  lemma LastByte(n: nat, q: nat, b: Byte)
    requires n == 0x100 * q + b
    ensures n / 0x100 == q && n % 0x100 == b
  {
  }

  lemma SampleBytes()
    ensures WordBytes(SAMPLES) == SAMPLE_BYTES
  {
    hide LE32, WordBytes;
    SixWords(0xc1bc4880, 0x4d5fab68, 0x3667868c, 0xb667868c, 0, 0x3fc00000);
    LittleEndian(0xc1bc4880, 128, 72, 188, 193);
    LittleEndian(0x4d5fab68, 104, 171, 95, 77);
    LittleEndian(0x3667868c, 140, 134, 103, 54);
    LittleEndian(0xb667868c, 140, 134, 103, 182);
    LittleEndian(0, 0, 0, 0, 0);
    LittleEndian(0x3fc00000, 0, 0, 192, 63);
  }

  lemma StampBytes()
    ensures WordBytes([0, 1, 2, 3, 4, 5]) == STAMP_BYTES
  {
    hide LE32, WordBytes;
    SixWords(0, 1, 2, 3, 4, 5);
    LittleEndian(0, 0, 0, 0, 0);
    LittleEndian(1, 1, 0, 0, 0);
    LittleEndian(2, 2, 0, 0, 0);
    LittleEndian(3, 3, 0, 0, 0);
    LittleEndian(4, 4, 0, 0, 0);
    LittleEndian(5, 5, 0, 0, 0);
  }

  /** Two channels with the same samples, six stamps, an increment and a one-shot trigger. */
  lemma PackedData()
    ensures var m := D.Message([D.Channel(SAMPLES, 0), D.Channel(SAMPLES, 1)], Some([0, 1, 2, 3, 4, 5]), 10,
                               Some(D.Trigger(1, 100, 2)));
            D.MessageBytes(m) ==
              ([10, 26, 10, 24] + SAMPLE_BYTES) + ([10, 28, 10, 24] + SAMPLE_BYTES + [16, 1])
              + ([18, 24] + STAMP_BYTES + ([24, 10] + [34, 6, 8, 1, 16, 100, 24, 2]))
  {
    FirstChannel();
    SecondChannel();
    Tail();
    TwoChannels(D.Channel(SAMPLES, 0), D.Channel(SAMPLES, 1));
    hide D.ChannelBytes, D.TailBytes, D.ChannelsBytes;
  }

  lemma TwoChannels(a: D.Channel, b: D.Channel)
    ensures D.ChannelsBytes([a, b]) == D.ChannelBytes(a) + D.ChannelBytes(b)
  {
    hide D.ChannelBytes;
    assert [a, b][1..] == [b] && D.ChannelsBytes([b]) == D.ChannelBytes(b) + D.ChannelsBytes([]);
  }

  lemma FirstChannel()
    ensures D.ChannelBytes(D.Channel(SAMPLES, 0)) == [10, 26, 10, 24] + SAMPLE_BYTES
  {
    SampleBytes();
  }

  lemma SecondChannel()
    ensures D.ChannelBytes(D.Channel(SAMPLES, 1)) == [10, 28, 10, 24] + SAMPLE_BYTES + [16, 1]
  {
    SampleBytes();
  }

  lemma Tail()
    ensures var m := D.Message([D.Channel(SAMPLES, 0), D.Channel(SAMPLES, 1)], Some([0, 1, 2, 3, 4, 5]), 10,
                               Some(D.Trigger(1, 100, 2)));
            D.TailBytes(m) == [18, 24] + STAMP_BYTES + ([24, 10] + [34, 6, 8, 1, 16, 100, 24, 2])
  {
    StampsField();
    TriggerField();
    assert D.NumberBytes(3, 10) == [24, 10];
    hide D.StampsBytes, D.TriggerBytes, D.NumberBytes, STAMP_BYTES, SAMPLES;
  }

  lemma StampsField()
    ensures D.StampsBytes(Some([0, 1, 2, 3, 4, 5])) == [18, 24] + STAMP_BYTES
  {
    StampBytes();
    hide WordBytes;
    assert Varint(18) == [18] && Varint(24) == [24];
  }

  lemma TriggerField()
    ensures D.TriggerBytes(Some(D.Trigger(1, 100, 2))) == [34, 6, 8, 1, 16, 100, 24, 2]
  {
    TriggerNumbers();
    assert Varint(34) == [34] && Varint(6) == [6];
    hide D.TriggerBody, Varint;
  }

  lemma TriggerNumbers()
    ensures D.TriggerBody(D.Trigger(1, 100, 2)) == [8, 1, 16, 100, 24, 2]
  {
    assert D.NumberBytes(1, 1) == [8, 1] && D.NumberBytes(2, 100) == [16, 100] && D.NumberBytes(3, 2) == [24, 2];
    hide D.NumberBytes;
  }

  // ----------------------------------------------------------- SC_ANNOUNCE

  /** The name of the first address: 29 times the letter a. */
  const LONG_NAME: seq<Byte> := seq(29, _ => 97)

  /** channel2 and channel3 */
  const NAME2: seq<Byte> := [99, 104, 97, 110, 110, 101, 108, 50]
  const NAME3: seq<Byte> := [99, 104, 97, 110, 110, 101, 108, 51]

  /** Three addresses, three channels at most, a time base of 1.2345 and the version 0.5. */
  lemma PackedAnnouncement()
    ensures var a := A.Announcement([A.Address(1, LONG_NAME, 0, 100), A.Address(10, NAME2, 5, 200),
                                     A.Address(5, NAME3, 6, 0)], 3, 0x3f9e0419, [48, 46, 53]);
            A.AnnouncementBytes(a) ==
              ([10, 35, 8, 1, 18, 29] + LONG_NAME + [32, 100])
              + ([10, 17, 8, 10, 18, 8] + NAME2 + [24, 5, 32, 200, 1])
              + ([10, 14, 8, 5, 18, 8] + NAME3 + [24, 6])
              + [16, 3, 29, 25, 4, 158, 63, 34, 3, 48, 46, 53]
  {
    var a, b, c := A.Address(1, LONG_NAME, 0, 100), A.Address(10, NAME2, 5, 200), A.Address(5, NAME3, 6, 0);
    Numbers();
    SmallAddress(a, [32, 100]);
    SmallAddress(b, [24, 5, 32, 200, 1]);
    SmallAddress(c, [24, 6]);
    Meta([a, b, c]);
    hide A.AddressBytes, A.MetaBytes, D.NumberBytes;
    ThreeAddresses(a, b, c);
    hide A.AddressesBytes;
  }

  lemma Numbers()
    ensures D.NumberBytes(3, 0) + D.NumberBytes(4, 100) == [32, 100]
    ensures D.NumberBytes(3, 5) + D.NumberBytes(4, 200) == [24, 5, 32, 200, 1]
    ensures D.NumberBytes(3, 6) + D.NumberBytes(4, 0) == [24, 6]
  {
    assert D.NumberBytes(4, 100) == [32, 100] && D.NumberBytes(3, 5) == [24, 5] && D.NumberBytes(3, 6) == [24, 6];
    assert Varint(200) == [200, 1];
    assert D.NumberBytes(4, 200) == [32] + [200, 1];
    hide D.NumberBytes;
  }

  lemma ThreeAddresses(a: A.Address, b: A.Address, c: A.Address)
    ensures A.AddressesBytes([a, b, c]) == A.AddressBytes(a) + A.AddressBytes(b) + A.AddressBytes(c)
  {
    hide A.AddressBytes;
    assert A.AddressesBytes([c]) == A.AddressBytes(c) + A.AddressesBytes([]);
    assert [b, c][1..] == [c] && [a, b, c][1..] == [b, c];
  }

  /** An address with a number and a name below 128. */
  lemma SmallAddress(a: A.Address, numbers: seq<Byte>)
    requires 1 <= a.id < 128 && 1 <= |a.name| <= 80 && |numbers| <= 20
    requires D.NumberBytes(3, a.varType) + D.NumberBytes(4, a.address) == numbers
    ensures A.AddressBytes(a) == [10, 4 + |a.name| + |numbers|, 8, a.id, 18, |a.name|] + a.name + numbers
  {
    assert Varint(18) == [18] && Varint(10) == [10] && Varint(8) == [8] && Varint(a.id) == [a.id];
    var n := |a.name|;
    assert Varint(n) == [n] && Varint(4 + n + |numbers|) == [4 + n + |numbers|];
    hide Varint;
    assert D.NumberBytes(1, a.id) == [8, a.id] && A.TextBytes(2, a.name) == [18, n] + a.name;
    hide D.NumberBytes, A.TextBytes;
    var body := [8, a.id] + ([18, n] + a.name + numbers);
    assert A.AddressBody(a) == body;
    assert |body| == 4 + n + |numbers|;
  }

  lemma Meta(addresses: seq<A.Address>)
    ensures A.MetaBytes(A.Announcement(addresses, 3, 0x3f9e0419, [48, 46, 53]))
         == [16, 3, 29, 25, 4, 158, 63, 34, 3, 48, 46, 53]
  {
    assert D.NumberBytes(2, 3) == [16, 3];
    LittleEndian(0x3f9e0419, 25, 4, 158, 63);
    assert A.FourBytes(3, 0x3f9e0419) == [29] + [25, 4, 158, 63];
    assert A.TextBytes(4, [48, 46, 53]) == [34, 3] + [48, 46, 53];
    hide D.NumberBytes, A.FourBytes, A.TextBytes, LE32;
  }

  // ---------------------------------------------------------------- SC_LOG

  /** "Test Log Message". */
  lemma PackedLog()
    ensures var text := [84, 101, 115, 116, 32, 76, 111, 103, 32, 77, 101, 115, 115, 97, 103, 101];
            A.TextBytes(1, text) == [10, 16] + text
  {
  }
}
