/** The SC_ANNOUNCE message: the bytes the packer writes and a decoder that follows the standard. */
module ScAnnounce {
  import opened Bytes
  import opened Wrappers
  import opened Wire
  import opened ScData

  datatype Address = Address(id: Word, name: seq<Byte>, varType: Word, address: Word)

  /** `timebase` holds the bits of the float. */
  datatype Announcement = Announcement(addresses: seq<Address>, maxChannels: Word, timebase: Word, version: seq<Byte>)

  /** An empty string takes no bytes. */
  function TextBytes(number: nat, text: seq<Byte>): seq<Byte> {
    if text == [] then [] else FieldBytes(Field(number, Block(text)))
  }

  function FourBytes(number: nat, w: Word): seq<Byte> {
    if w == 0 then [] else FieldBytes(Field(number, Four(w)))
  }

  function AddressBody(a: Address): seq<Byte> {
    NumberBytes(1, a.id) + (TextBytes(2, a.name) + (NumberBytes(3, a.varType) + NumberBytes(4, a.address)))
  }

  function AddressBytes(a: Address): seq<Byte> {
    FieldBytes(Field(1, Block(AddressBody(a))))
  }

  function AddressesBytes(addresses: seq<Address>): seq<Byte> {
    if addresses == [] then [] else AddressBytes(addresses[0]) + AddressesBytes(addresses[1..])
  }

  function MetaBytes(a: Announcement): seq<Byte> {
    NumberBytes(2, a.maxChannels) + (FourBytes(3, a.timebase) + TextBytes(4, a.version))
  }

  function AnnouncementBytes(a: Announcement): seq<Byte> {
    AddressesBytes(a.addresses) + MetaBytes(a)
  }

  // ------------------------------------------------------------- decoding

  const NO_ADDRESS := Address(0, [], 0, 0)
  const NO_ANNOUNCEMENT := Announcement([], 0, 0, [])

  function Text(was: seq<Byte>, v: Value): seq<Byte> {
    if v.Block? then v.bytes else was
  }

  function AbsorbAddress(a: Address, f: Field): Option<Address> {
    if f.number == 1 then Some(a.(id := Uint32(a.id, f.value)))
    else if f.number == 2 then Some(a.(name := Text(a.name, f.value)))
    else if f.number == 3 then Some(a.(varType := Uint32(a.varType, f.value)))
    else if f.number == 4 then Some(a.(address := Uint32(a.address, f.value)))
    else Some(a)
  }

  function AbsorbAnnouncement(a: Announcement, f: Field): Option<Announcement> {
    if f.number == 1 && f.value.Block? then
      match Decode(AbsorbAddress, NO_ADDRESS, f.value.bytes)
      case None => None
      case Some(address) => Some(a.(addresses := a.addresses + [address]))
    else if f.number == 2 then Some(a.(maxChannels := Uint32(a.maxChannels, f.value)))
    else if f.number == 3 && f.value.Four? then Some(a.(timebase := f.value.word))
    else if f.number == 4 then Some(a.(version := Text(a.version, f.value)))
    else Some(a)
  }

  function DecodeAnnouncement(s: seq<Byte>): Option<Announcement> {
    Decode(AbsorbAnnouncement, NO_ANNOUNCEMENT, s)
  }

  // ----------------------------------------------------------- round trip

  lemma DecodeText<M>(absorb: (M, Field) -> Option<M>, m: M, number: nat, text: seq<Byte>, rest: seq<Byte>, m': M)
    requires number >= 1
    requires text == [] ==> m' == m
    requires text != [] ==> absorb(m, Field(number, Block(text))) == Some(m')
    ensures Decode(absorb, m, TextBytes(number, text) + rest) == Decode(absorb, m', rest)
  {
    if text == [] {
      assert TextBytes(number, text) + rest == rest;
    } else {
      DecodeField(absorb, m, Field(number, Block(text)), rest);
    }
  }

  lemma AddressRoundTrip(a: Address)
    ensures Decode(AbsorbAddress, NO_ADDRESS, AddressBody(a)) == Some(a)
  {
    hide FieldBytes, Decode, NumberBytes, TextBytes;
    var name, varType, address := TextBytes(2, a.name), NumberBytes(3, a.varType), NumberBytes(4, a.address);
    var a1, a2, a3 := Address(a.id, [], 0, 0), Address(a.id, a.name, 0, 0), a.(address := 0);
    assert AddressBody(a) == NumberBytes(1, a.id) + (name + (varType + (address + [])));
    DecodeNumber(AbsorbAddress, NO_ADDRESS, 1, a.id, name + (varType + (address + [])), a1);
    DecodeText(AbsorbAddress, a1, 2, a.name, varType + (address + []), a2);
    DecodeNumber(AbsorbAddress, a2, 3, a.varType, address + [], a3);
    DecodeNumber(AbsorbAddress, a3, 4, a.address, [], a);
    DecodeNothing(AbsorbAddress, a);
  }

  lemma MetaRoundTrip(a: Announcement)
    ensures Decode(AbsorbAnnouncement, Announcement(a.addresses, 0, 0, []), MetaBytes(a)) == Some(a)
  {
    hide FieldBytes, Decode, NumberBytes, TextBytes;
    var a0 := Announcement(a.addresses, 0, 0, []);
    var a1, a2 := a0.(maxChannels := a.maxChannels), a.(version := []);
    var timebase, version := FourBytes(3, a.timebase), TextBytes(4, a.version);
    assert MetaBytes(a) == NumberBytes(2, a.maxChannels) + (timebase + (version + []));
    DecodeNumber(AbsorbAnnouncement, a0, 2, a.maxChannels, timebase + (version + []), a1);
    if a.timebase == 0 {
      assert timebase + (version + []) == version + [];
    } else {
      DecodeField(AbsorbAnnouncement, a1, Field(3, Four(a.timebase)), version + []);
    }
    DecodeText(AbsorbAnnouncement, a2, 4, a.version, [], a);
    DecodeNothing(AbsorbAnnouncement, a);
  }

  lemma {:induction false} AddressesDecode(a: Announcement, done: Announcement, addresses: seq<Address>)
    requires done == Announcement(done.addresses, 0, 0, []) && a.addresses == done.addresses + addresses
    ensures Decode(AbsorbAnnouncement, done, AddressesBytes(addresses) + MetaBytes(a)) == Some(a)
    decreases |addresses|
  {
    hide FieldBytes, Decode, MetaBytes, AddressBody;
    if addresses == [] {
      assert AddressesBytes(addresses) + MetaBytes(a) == MetaBytes(a);
      assert a.addresses == done.addresses;
      MetaRoundTrip(a);
    } else {
      var first, rest := addresses[0], AddressesBytes(addresses[1..]) + MetaBytes(a);
      assert AddressesBytes(addresses) + MetaBytes(a) == AddressBytes(first) + rest;
      AddressRoundTrip(first);
      DecodeField(AbsorbAnnouncement, done, Field(1, Block(AddressBody(first))), rest);
      var done' := done.(addresses := done.addresses + [first]);
      assert a.addresses == done'.addresses + addresses[1..];
      AddressesDecode(a, done', addresses[1..]);
    }
  }

  /** The lengths of the addresses are taken from a trial encoding, so they are always right. */
  lemma AnnouncementRoundTrip(a: Announcement)
    ensures DecodeAnnouncement(AnnouncementBytes(a)) == Some(a)
  {
    hide Decode, AddressesBytes, MetaBytes;
    AddressesDecode(a, NO_ANNOUNCEMENT, a.addresses);
  }
}
