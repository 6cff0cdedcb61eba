/** The v1 posting-format header: eight bytes holding a three-byte format
    version, one byte describing the value type, and a four-byte encoding
    id. Bytes are `bv8`; the encoding id is a `uint32_t`, here `bv32`. */
module PostingFormatHeaders {

  type Bytes = seq<bv8>

  /** The bytes `[b0, b1, b2, b3]` read as a little-endian 32-bit number,
      which is how the header's encoding id is read. */
  function LittleEndianValue(b: Bytes): bv32
    requires |b| == 4
  {
    (b[0] as bv32) | ((b[1] as bv32) << 8) | ((b[2] as bv32) << 16) | ((b[3] as bv32) << 24)
  }

  /** The four bytes of `n`, least significant first. */
  function LittleEndianBytes(n: bv32): (b: Bytes)
    ensures |b| == 4
  {
    [(n & 0xFF) as bv8, ((n >> 8) & 0xFF) as bv8, ((n >> 16) & 0xFF) as bv8, ((n >> 24) & 0xFF) as bv8]
  }

  lemma LittleEndianRoundTrip(n: bv32)
    ensures LittleEndianValue(LittleEndianBytes(n)) == n
  {
  }

  lemma LittleEndianBytesRoundTrip(b: Bytes)
    requires |b| == 4
    ensures LittleEndianBytes(LittleEndianValue(b)) == b
  {
  }

  /** `FormatVersion`: major, minor and patch, one byte each. */
  datatype FormatVersion = FormatVersion(major: bv8, minor: bv8, patch: bv8) {

    /** `FormatVersion::parse`: the three bytes in order. */
    static function Parse(bytes: Bytes): (v: FormatVersion)
      requires |bytes| == 3
      ensures [v.major, v.minor, v.patch] == bytes
    {
      FormatVersion(bytes[0], bytes[1], bytes[2])
    }

    /** `FormatVersion::write`: stores the three fields in the first three
        bytes; the rest is untouched. */
    method Write(bytes: array<bv8>)
      requires bytes.Length >= 3
      modifies bytes
      ensures bytes[..] == [major, minor, patch] + old(bytes[3..])
    {
      bytes[0] := major;
      bytes[1] := minor;
      bytes[2] := patch;
      assert bytes[..] == [major, minor, patch] + old(bytes[3..]);
    }

    /** The bytes `Write` stores. */
    function Serialized(): (b: Bytes)
      ensures |b| == 3 && Parse(b) == this
    {
      [major, minor, patch]
    }

    /** `FormatVersion::current()`: version 0.1.0. */
    static function Current(): (v: FormatVersion)
      ensures v.major == 0 && v.minor == 1 && v.patch == 0
    {
      FormatVersion(0, 1, 0)
    }
  }

  lemma FormatVersionRoundTrip(bytes: Bytes)
    requires |bytes| == 3
    ensures FormatVersion.Parse(bytes).Serialized() == bytes
  {
  }

  datatype Primitive = Int | Float

  /** `ValueType`: a primitive, an array of a primitive, or a tuple of
      `size` primitives. */
  datatype ValueType =
    | PrimitiveType(prim: Primitive)
    | ArrayType(elem: Primitive)
    | TupleType(elem: Primitive, size: bv8)

  /** Bit 2 of the type byte: the element type of an array or a tuple. */
  function ElementType(b: bv8): (p: Primitive)
    ensures p == Int <==> b & 0x04 == 0
  {
    if (b & 0x04) >> 2 == 0 then Int else Float
  }

  /** `parse_type`: the low two bits select the kind; bit 2 is the element
      type of an array or a tuple; bits 3 to 7 are a tuple's size. */
  function ParseType(b: bv8): (t: ValueType)
    ensures b & 0x03 == 0 <==> t == PrimitiveType(Int)
    ensures b & 0x03 == 1 <==> t == PrimitiveType(Float)
    ensures b & 0x03 == 2 <==> t.ArrayType?
    ensures b & 0x03 == 3 <==> t.TupleType?
    ensures t.ArrayType? || t.TupleType? ==> t.elem == ElementType(b)
    ensures t.TupleType? ==> t.size == b >> 3 && t.size < 32
  {
    var kind := b & 0x03;
    if kind == 0 then PrimitiveType(Int)
    else if kind == 1 then PrimitiveType(Float)
    else if kind == 2 then ArrayType(ElementType(b))
    else TupleType(ElementType(b), (b & 0xF8) >> 3)
  }

  /** `to_byte`: the inverse encoding. A tuple's size is shifted into bits
      3 to 7 of the byte, so only its low five bits survive. */
  function ToByte(t: ValueType): bv8
  {
    match t
    case PrimitiveType(p) => if p == Int then 0x00 else 0x01
    case ArrayType(p) => if p == Int then 0x02 else 0x06
    case TupleType(p, size) => (if p == Int then 0x03 else 0x07) | (size << 3)
  }

  /** Tuples of fewer than 32 elements round-trip through the type byte. */
  ghost predicate Representable(t: ValueType) {
    t.TupleType? ==> t.size < 32
  }

  lemma ParseTypeRoundTrip(t: ValueType)
    requires Representable(t)
    ensures ParseType(ToByte(t)) == t
  {
  }

  /** A larger tuple loses the high bits of its size. */
  lemma ParseTypeTruncatesSize(p: Primitive, size: bv8)
    ensures ParseType(ToByte(TupleType(p, size))) == TupleType(p, size & 0x1F)
  {
  }

  /** The bytes of the type tests: `0b00101011` is a tuple of five ints and
      `0b01000111` a tuple of eight floats. */
  lemma ParseTypeExamples()
    ensures ParseType(0x00) == PrimitiveType(Int)
    ensures ParseType(0x01) == PrimitiveType(Float)
    ensures ParseType(0x02) == ArrayType(Int)
    ensures ParseType(0x06) == ArrayType(Float)
    ensures ParseType(0x2B) == TupleType(Int, 5)
    ensures ParseType(0x47) == TupleType(Float, 8)
  {
  }

  /** `PostingFormatHeader`. */
  datatype PostingFormatHeader = PostingFormatHeader(version: FormatVersion, valueType: ValueType, encoding: bv32) {

    /** `PostingFormatHeader::parse`: version from bytes 0-2, type from byte
        3, encoding from bytes 4-7 read little-endian. */
    static function Parse(bytes: Bytes): (h: PostingFormatHeader)
      requires |bytes| == 8
      ensures h.version.Serialized() == bytes[..3]
      ensures h.valueType == ParseType(bytes[3])
      ensures LittleEndianBytes(h.encoding) == bytes[4..]
    {
      LittleEndianBytesRoundTrip(bytes[4..]);
      PostingFormatHeader(FormatVersion.Parse(bytes[..3]), ParseType(bytes[3]), LittleEndianValue(bytes[4..]))
    }

    /** What `write` leaves in an 8-byte buffer that held `before`: the
        current version, the type byte, and bytes 4-7 as they were. */
    function WrittenOver(before: Bytes): Bytes
      requires |before| == 8
    {
      FormatVersion.Current().Serialized() + [ToByte(valueType)] + before[4..]
    }

    /** `PostingFormatHeader::write` as written: it stamps the current
        version, not the header's own, and the encoding is handed to
        `WriteLittleEndian`, which stores nothing. */
    method Write(bytes: array<bv8>)
      requires bytes.Length == 8
      modifies bytes
      ensures bytes[..] == WrittenOver(old(bytes[..]))
    {
      FormatVersion.Current().Write(bytes);
      bytes[3] := ToByte(valueType);
      WriteLittleEndian(encoding, bytes, 4);
      assert bytes[..] == [0, 1, 0] + [ToByte(valueType)] + old(bytes[4..]);
    }

    /** The eight bytes a header should occupy. */
    function Serialized(): (b: Bytes)
      ensures |b| == 8
    {
      FormatVersion.Current().Serialized() + [ToByte(valueType)] + LittleEndianBytes(encoding)
    }

    /** `write` with the little-endian store that `write_little_endian` was
        evidently meant to perform. */
    method WriteCorrected(bytes: array<bv8>)
      requires bytes.Length == 8
      modifies bytes
      ensures bytes[..] == Serialized()
    {
      FormatVersion.Current().Write(bytes);
      bytes[3] := ToByte(valueType);
      StoreLittleEndian(encoding, bytes, 4);
      assert bytes[..] == bytes[..4] + bytes[4..];
    }
  }

  /** Whatever the header's own version, `write` records the current one,
      and its encoding does not reach the bytes: parsing what it wrote gives
      back the type, version 0.1.0 and the encoding that was there before. */
  lemma WriteStampsCurrentAndKeepsOldEncoding(h: PostingFormatHeader, before: Bytes)
    requires |before| == 8 && Representable(h.valueType)
    ensures PostingFormatHeader.Parse(h.WrittenOver(before)) ==
            PostingFormatHeader(FormatVersion.Current(), h.valueType, PostingFormatHeader.Parse(before).encoding)
  {
    var w := h.WrittenOver(before);
    assert w[..3] == [0, 1, 0] && w[3] == ToByte(h.valueType) && w[4..] == before[4..];
    ParseTypeRoundTrip(h.valueType);
  }

  /** The discrepancy on a concrete input: a header with encoding 1 written
      over a zeroed buffer parses back with encoding 0. */
  lemma WriteLosesEncoding()
    ensures PostingFormatHeader.Parse(
              PostingFormatHeader(FormatVersion.Current(), PrimitiveType(Int), 1).WrittenOver([0, 0, 0, 0, 0, 0, 0, 0])
            ).encoding == 0
  {
    var h := PostingFormatHeader(FormatVersion.Current(), PrimitiveType(Int), 1);
    assert h.WrittenOver([0, 0, 0, 0, 0, 0, 0, 0])[4..] == [0, 0, 0, 0];
  }

  /** With the corrected store, a header of the current version round-trips
      through its bytes. */
  lemma HeaderRoundTrip(h: PostingFormatHeader)
    requires h.version == FormatVersion.Current() && Representable(h.valueType)
    ensures PostingFormatHeader.Parse(h.Serialized()) == h
  {
    var b := h.Serialized();
    assert b[..3] == [0, 1, 0] && b[3] == ToByte(h.valueType) && b[4..] == LittleEndianBytes(h.encoding);
    ParseTypeRoundTrip(h.valueType);
    LittleEndianRoundTrip(h.encoding);
  }

  /** The headers of the three read tests: version 0.1.0 with a primitive
      int and encoding 0; version 1.1.3 with a primitive float and encoding 1;
      version 1.0.3 with an int array and encoding 3. */
  lemma ParseHeaderExample()
    ensures PostingFormatHeader.Parse([0, 1, 0, 0, 0, 0, 0, 0]) ==
            PostingFormatHeader(FormatVersion(0, 1, 0), PrimitiveType(Int), 0)
    ensures PostingFormatHeader.Parse([1, 1, 3, 1, 1, 0, 0, 0]) ==
            PostingFormatHeader(FormatVersion(1, 1, 3), PrimitiveType(Float), 1)
    ensures PostingFormatHeader.Parse([1, 0, 3, 2, 3, 0, 0, 0]) ==
            PostingFormatHeader(FormatVersion(1, 0, 3), ArrayType(Int), 3)
  {
    assert [0, 1, 0, 0, 0, 0, 0, 0][4..] == [0 as bv8, 0, 0, 0];
    assert [1, 1, 3, 1, 1, 0, 0, 0][4..] == [1 as bv8, 0, 0, 0];
    assert [1, 0, 3, 2, 3, 0, 0, 0][4..] == [3 as bv8, 0, 0, 0];
  }

  /** `static_cast<std::byte>`: the low eight bits. */
  function LowByte(x: bv32): bv8
  {
    (x & 0xFF) as bv8
  }

  /** The four rounds of the loop. */
  predicate Round(k: bv32) {
    k == 0 || k == 1 || k == 2 || k == 3
  }

  lemma RoundsBelowFour(k: bv32)
    requires k < 4
    ensures Round(k)
  {
  }

  /** The byte the loop takes in round `k`, under the mask `0xFF << 8k`, is
      byte `k` of the little-endian form. */
  lemma MaskedByte(number: bv32, k: bv32)
    requires Round(k)
    ensures LowByte((number & (0xFF << (8 * k))) >> (8 * k)) == LittleEndianBytes(number)[k as int]
  {
  }

  /** `write_little_endian(number, bytes)` as written: each byte of `number`
      is computed under a mask shifted left eight bits at a time, and then
      dropped; `bytes` is never assigned. */
  method WriteLittleEndian(number: bv32, bytes: array<bv8>, start: nat)
    requires start + 4 == bytes.Length
    modifies bytes
    ensures bytes[..] == old(bytes[..])
  {
    var mask: bv32 := 0xFF;
    var byteNum: bv32 := 0;
    while byteNum < 4
      invariant byteNum <= 4
    {
      var byteValue := LowByte((number & mask) >> (8 * byteNum));
      mask := mask << 8;
      byteNum := byteNum + 1;
    }
  }

  /** The evidently intended `write_little_endian`: the same loop, storing
      each byte at `start + byte_num`. */
  method StoreLittleEndian(number: bv32, bytes: array<bv8>, start: nat)
    requires start + 4 == bytes.Length
    modifies bytes
    ensures bytes[..start] == old(bytes[..start])
    ensures bytes[start..] == LittleEndianBytes(number)
  {
    var mask: bv32 := 0xFF;
    var byteNum: bv32 := 0;
    while byteNum < 4
      invariant byteNum <= 4
      invariant mask == 0xFF << (8 * byteNum)
      invariant bytes[..start] == old(bytes[..start])
      invariant forall k :: 0 <= k < byteNum as int ==> bytes[start + k] == LittleEndianBytes(number)[k]
    {
      var byteValue := LowByte((number & mask) >> (8 * byteNum));
      RoundsBelowFour(byteNum);
      MaskedByte(number, byteNum);
      bytes[start + byteNum as int] := byteValue;
      mask := mask << 8;
      byteNum := byteNum + 1;
    }
    assert bytes[start..] == LittleEndianBytes(number);
  }
}
