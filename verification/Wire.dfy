/**
 The Protocol Buffers wire format, after the sections "Base 128 Varints", "Length-Delimited
 Records" and "Message Structure" of the Encoding document, for all wire types but the deprecated
 groups: varints, 64-bit values, length-delimited blocks and 32-bit values.
 */
module Wire {
  import opened Bytes
  import opened Wrappers

  datatype Value = Number(n: nat) | Eight(low: Word, high: Word) | Block(bytes: seq<Byte>) | Four(word: Word)

  datatype Field = Field(number: nat, value: Value)

  function Varint(n: nat): (r: seq<Byte>)
    ensures |r| >= 1
  {
    if n < 128 then [n] else [128 + n % 128] + Varint(n / 128)
  }

  function LE32(w: Word): (r: seq<Byte>)
    ensures |r| == 4
  {
    [w % 256, w / 0x100 % 256, w / 0x1_0000 % 256, w / 0x100_0000 % 256]
  }

  function FromLE32(b: seq<Byte>): Word
    requires |b| == 4
  {
    var b0: int, b1: int, b2: int, b3: int := b[0], b[1], b[2], b[3];
    b0 + b1 * 0x100 + b2 * 0x1_0000 + b3 * 0x100_0000
  }

  function WordBytes(ws: seq<Word>): (r: seq<Byte>)
    ensures |r| == 4 * |ws|
  {
    if ws == [] then [] else LE32(ws[0]) + WordBytes(ws[1..])
  }

  function ReadWords(b: seq<Byte>): seq<Word>
    requires |b| % 4 == 0
  {
    if b == [] then [] else [FromLE32(b[..4])] + ReadWords(b[4..])
  }

  function Key(f: Field): nat {
    8 * f.number + match f.value case Number(_) => 0 case Eight(_, _) => 1 case Block(_) => 2 case Four(_) => 5
  }

  function Content(v: Value): seq<Byte> {
    match v
    case Number(n) => Varint(n)
    case Eight(low, high) => LE32(low) + LE32(high)
    case Block(bytes) => Varint(|bytes|) + bytes
    case Four(word) => LE32(word)
  }

  function FieldBytes(f: Field): (r: seq<Byte>)
    ensures |r| >= 1
  {
    Varint(Key(f)) + Content(f.value)
  }

  // ------------------------------------------------------------- decoding

  function ReadVarint(s: seq<Byte>): (r: Option<(nat, seq<Byte>)>)
    ensures r.Some? ==> |r.value.1| < |s|
  {
    if s == [] then None
    else if s[0] < 128 then Some((s[0] as int, s[1..]))
    else match ReadVarint(s[1..])
      case None => None
      case Some((n, rest)) => Some((s[0] - 128 + 128 * n, rest))
  }

  function ReadContent(key: nat, s: seq<Byte>): (r: Option<(Value, seq<Byte>)>)
    ensures r.Some? ==> |r.value.1| <= |s|
  {
    if key % 8 == 0 then
      match ReadVarint(s)
      case None => None
      case Some((n, rest)) => Some((Number(n), rest))
    else if key % 8 == 2 then
      match ReadVarint(s)
      case None => None
      case Some((n, rest)) => if n <= |rest| then Some((Block(rest[..n]), rest[n..])) else None
    else if key % 8 == 5 && |s| >= 4 then Some((Four(FromLE32(s[..4])), s[4..]))
    else if key % 8 == 1 && |s| >= 8 then Some((Eight(FromLE32(s[..4]), FromLE32(s[4..8])), s[8..]))
    else None
  }

  /** No field has the number 0. */
  function ReadField(s: seq<Byte>): (r: Option<(Field, seq<Byte>)>)
    ensures r.Some? ==> |r.value.1| < |s|
  {
    match ReadVarint(s)
    case None => None
    case Some((key, rest)) =>
      if key / 8 == 0 then None
      else match ReadContent(key, rest)
      case None => None
      case Some((v, rest')) => Some((Field(key / 8, v), rest'))
  }

  /** A message is decoded field by field into a record; `absorb` says what a field does to it. */
  function Decode<M>(absorb: (M, Field) -> Option<M>, m: M, s: seq<Byte>): Option<M>
    decreases |s|
  {
    if s == [] then Some(m)
    else match ReadField(s)
      case None => None
      case Some((f, rest)) =>
        match absorb(m, f)
        case None => None
        case Some(m') => Decode(absorb, m', rest)
  }

  // --------------------------------------------------------------- lemmas

  lemma {:induction false} VarintReadsBack(n: nat, rest: seq<Byte>)
    ensures ReadVarint(Varint(n) + rest) == Some((n, rest))
  {
    if n >= 128 {
      VarintReadsBack(n / 128, rest);
      assert (Varint(n) + rest)[1..] == Varint(n / 128) + rest;
    } else {
      assert (Varint(n) + rest)[1..] == rest;
    }
  }

  lemma {:induction false} CutVarintIsNone(n: nat, k: nat)
    requires k < |Varint(n)|
    ensures ReadVarint(Varint(n)[..k]) == None
  {
    if k > 0 {
      CutVarintIsNone(n / 128, k - 1);
      assert Varint(n)[..k][1..] == Varint(n / 128)[..k - 1];
    }
  }

  lemma LE32RoundTrip(w: Word)
    ensures FromLE32(LE32(w)) == w
  {
    var q1, q2, q3 := w / 0x100, w / 0x1_0000, w / 0x100_0000;
    assert q2 == q1 / 0x100 && q3 == q2 / 0x100 && q3 < 0x100;
    assert w == q1 * 0x100 + w % 0x100 && q1 == q2 * 0x100 + q1 % 0x100 && q2 == q3 * 0x100 + q2 % 0x100;
  }

  lemma {:induction false} WordsRoundTrip(ws: seq<Word>)
    ensures ReadWords(WordBytes(ws)) == ws
  {
    if ws != [] {
      LE32RoundTrip(ws[0]);
      WordsRoundTrip(ws[1..]);
      assert WordBytes(ws)[..4] == LE32(ws[0]) && WordBytes(ws)[4..] == WordBytes(ws[1..]);
    }
  }

  lemma BlockReadsBack(bytes: seq<Byte>, rest: seq<Byte>, key: nat)
    requires key % 8 == 2
    ensures ReadContent(key, Content(Block(bytes)) + rest) == Some((Block(bytes), rest))
  {
    hide ReadVarint, Varint;
    VarintReadsBack(|bytes|, bytes + rest);
    assert Content(Block(bytes)) + rest == Varint(|bytes|) + (bytes + rest);
    assert (bytes + rest)[..|bytes|] == bytes && (bytes + rest)[|bytes|..] == rest;
  }

  lemma ContentReadsBack(f: Field, rest: seq<Byte>)
    ensures ReadContent(Key(f), Content(f.value) + rest) == Some((f.value, rest))
  {
    match f.value
    case Number(n) => VarintReadsBack(n, rest);
    case Eight(low, high) =>
      LE32RoundTrip(low);
      LE32RoundTrip(high);
      var s := LE32(low) + LE32(high) + rest;
      assert s[..4] == LE32(low) && s[4..8] == LE32(high) && s[8..] == rest;
    case Block(bytes) => BlockReadsBack(bytes, rest, Key(f));
    case Four(word) =>
      LE32RoundTrip(word);
      assert (LE32(word) + rest)[..4] == LE32(word) && (LE32(word) + rest)[4..] == rest;
  }

  lemma FieldReadsBack(f: Field, rest: seq<Byte>)
    requires f.number >= 1
    ensures ReadField(FieldBytes(f) + rest) == Some((f, rest))
  {
    hide ReadVarint, Varint, ReadContent, Content;
    VarintReadsBack(Key(f), Content(f.value) + rest);
    assert FieldBytes(f) + rest == Varint(Key(f)) + (Content(f.value) + rest);
    ContentReadsBack(f, rest);
  }

  lemma CutContentIsNone(f: Field, k: nat)
    requires k < |Content(f.value)|
    ensures ReadContent(Key(f), Content(f.value)[..k]) == None
  {
    match f.value
    case Number(n) => CutVarintIsNone(n, k);
    case Block(bytes) =>
      var head := Varint(|bytes|);
      if k < |head| {
        CutVarintIsNone(|bytes|, k);
        assert Content(f.value)[..k] == head[..k];
      } else {
        VarintReadsBack(|bytes|, bytes[..k - |head|]);
        assert Content(f.value)[..k] == head + bytes[..k - |head|];
      }
    case Eight(_, _) =>
    case Four(_) =>
  }

  /** No field is a proper prefix of another: a field that is cut short is never read. */
  lemma CutFieldIsNone(f: Field, k: nat)
    requires k < |FieldBytes(f)|
    ensures ReadField(FieldBytes(f)[..k]) == None
  {
    var key := Varint(Key(f));
    if k < |key| {
      CutVarintIsNone(Key(f), k);
      assert FieldBytes(f)[..k] == key[..k];
    } else {
      VarintReadsBack(Key(f), Content(f.value)[..k - |key|]);
      assert FieldBytes(f)[..k] == key + Content(f.value)[..k - |key|];
      CutContentIsNone(f, k - |key|);
    }
  }

  lemma DecodeField<M>(absorb: (M, Field) -> Option<M>, m: M, f: Field, rest: seq<Byte>)
    requires f.number >= 1
    ensures Decode(absorb, m, FieldBytes(f) + rest)
         == match absorb(m, f) case None => None case Some(m') => Decode(absorb, m', rest)
  {
    FieldReadsBack(f, rest);
  }

  lemma DecodeCutField<M>(absorb: (M, Field) -> Option<M>, m: M, f: Field, k: nat)
    requires 0 < k < |FieldBytes(f)|
    ensures Decode(absorb, m, FieldBytes(f)[..k]) == None
  {
    CutFieldIsNone(f, k);
  }

  // --------------------------------------------------------------- widths

  function Pow128(k: nat): (r: nat)
    ensures r >= 1
  {
    if k == 0 then 1 else 128 * Pow128(k - 1)
  }

  /** A varint spends one byte on seven bits. */
  lemma {:induction false} WidthCountsSevenBitGroups(n: nat, k: nat)
    requires k >= 1
    ensures |Varint(n)| <= k <==> n < Pow128(k)
  {
    assert Pow128(k) == 128 * Pow128(k - 1);
    if k == 1 {
      assert Pow128(0) == 1;
    } else if n >= 128 {
      WidthCountsSevenBitGroups(n / 128, k - 1);
      assert n / 128 < Pow128(k - 1) <==> n < 128 * Pow128(k - 1);
    } else {
      assert Pow128(k - 1) >= 1;
    }
  }

  /** The widths of 1 to 5 bytes written out. */
  lemma VarintWidths(n: nat)
    ensures |Varint(n)| <= 1 <==> n < 0x80
    ensures |Varint(n)| <= 2 <==> n < 0x4000
    ensures |Varint(n)| <= 3 <==> n < 0x20_0000
    ensures |Varint(n)| <= 4 <==> n < 0x1000_0000
    ensures |Varint(n)| <= 5 <==> n < 0x8_0000_0000
  {
    forall k | 1 <= k <= 5 ensures |Varint(n)| <= k <==> n < Pow128(k) {
      WidthCountsSevenBitGroups(n, k);
    }
    assert Pow128(1) == 0x80 && Pow128(2) == 0x4000 && Pow128(3) == 0x20_0000;
    assert Pow128(4) == 0x1000_0000 && Pow128(5) == 0x8_0000_0000;
  }
}
