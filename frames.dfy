/**
 * The two request frames the driver sends to an EPOS controller: a
 * 10-byte read request (`FormatReadMessage`) and a 14-byte write request
 * (`FormatWriteMessage`).  Each frame is an opcode, a length byte, the
 * object index (little-endian), a subindex, the node id 0x02, the payload,
 * a 16-bit field CRC stored low byte first, and the 'O' / 'F' marker bytes.
 *
 * The functions here describe the frames as values; the `Epos` module
 * builds them in arrays the way the driver does and is proved to produce
 * exactly these sequences.  The parsers are the inverse of the builders:
 * they are not part of the driver, they state what information a frame
 * carries and that nothing is lost.
 */
module Frames {
  import opened Bytes
  import opened Crc

  datatype Option<T> = None | Some(value: T)

  const ReadOpcode: byte := 0x10
  const ReadLengthField: byte := 0x01
  const WriteOpcode: byte := 0x11
  const WriteLengthField: byte := 0x03
  const NodeId: byte := 0x02
  /** ASCII 'O', the acknowledgement byte. */
  const AckByte: byte := 0x4F
  /** ASCII 'F', the failed-acknowledgement byte. */
  const FailByte: byte := 0x46

  const ReadFrameLength := 10
  const WriteFrameLength := 14
  /** Words covered by the CRC of a read frame and of a write frame. */
  const ReadCrcWords := 4
  const WriteCrcWords := 6

  /**
   * `(byte)((data >> 8k) & 255)` for k = 0..3: the 32-bit data, least
   * significant byte first.
   */
  function DataBytes(data: bv32): (bs: seq<byte>)
    ensures |bs| == 4
  {
    [(data & 0xFF) as byte, ((data >> 8) & 0xFF) as byte,
     ((data >> 16) & 0xFF) as byte, ((data >> 24) & 0xFF) as byte]
  }

  /** Four bytes read back as a little-endian 32-bit value. */
  function DataWord(b0: byte, b1: byte, b2: byte, b3: byte): bv32
  {
    b0 as bv32 + 0x100 * b1 as bv32 + 0x1_0000 * b2 as bv32 + 0x100_0000 * b3 as bv32
  }

  /** The CRC stored at `at`, low byte first, is the checksum of the frame with that field zeroed. */
  predicate CrcField(f: seq<byte>, at: nat, n: nat)
    requires at + 1 < |f| && Packable(|f|, n)
  {
    Word(f[at + 1], f[at]) == FieldCrc(f[at := 0][at + 1 := 0], n)
  }

  // ---------------------------------------------------------------------
  // Read request

  /** The read request as it stands when its CRC is computed: bytes 6 to 9 still zero. */
  function ReadFields(index: bv16, subindex: byte): (f: seq<byte>)
    ensures |f| == ReadFrameLength
  {
    [ReadOpcode, ReadLengthField, LowByte(index), HighByte(index), subindex, NodeId, 0, 0, 0, 0]
  }

  /** The first six assignments of the read builder, on the zero-filled array. */
  lemma ReadFieldsInOrder(index: bv16, subindex: byte)
    ensures ReadFields(index, subindex) == [0, 0, 0, 0, 0, 0, 0, 0, 0, 0][0 := ReadOpcode][1 := ReadLengthField]
      [2 := LowByte(index)][3 := HighByte(index)][4 := subindex][5 := NodeId]
  {}

  /** The last four assignments of the read builder: the CRC low and high bytes, then 'O' and 'F'. */
  function FinishRead(fields: seq<byte>, crc: bv16): (f: seq<byte>)
    requires |fields| == ReadFrameLength
    ensures |f| == ReadFrameLength
  {
    fields[6 := LowByte(crc)][7 := HighByte(crc)][8 := AckByte][9 := FailByte]
  }

  /** `FormatReadMessage(index, subindex)`. */
  function ReadFrame(index: bv16, subindex: byte): (f: seq<byte>)
    ensures |f| == ReadFrameLength
  {
    var fields := ReadFields(index, subindex);
    FinishRead(fields, FieldCrc(fields, ReadCrcWords))
  }

  /** The index, the subindex and a valid CRC of a well-formed read request. */
  function ParseReadFrame(f: seq<byte>): (r: Option<(bv16, byte)>)
    ensures r.Some? ==> |f| == ReadFrameLength
  {
    if |f| == ReadFrameLength && f[0] == ReadOpcode && f[1] == ReadLengthField && f[5] == NodeId
       && f[8] == AckByte && f[9] == FailByte && CrcField(f, 6, ReadCrcWords)
    then Some((Word(f[3], f[2]), f[4]))
    else None
  }

  /** The byte layout of a read request, whatever CRC is stored. */
  lemma FinishReadLayout(index: bv16, subindex: byte, crc: bv16)
    ensures var f := FinishRead(ReadFields(index, subindex), crc);
      && f[0] == 0x10 && f[1] == 0x01 && f[4] == subindex && f[5] == 0x02
      && f[8] == 0x4F && f[9] == 0x46
      && f[2] as bv16 + 256 * f[3] as bv16 == index
      && f[6] as bv16 + 256 * f[7] as bv16 == crc
      && f[6 := 0][7 := 0][..8] == ReadFields(index, subindex)[..8]
  {
    WordOfBytes(index);
    WordOfBytes(crc);
  }

  /** The byte layout of a read request, with its CRC over the first four words. */
  lemma ReadFrameLayout(index: bv16, subindex: byte)
    ensures var f := ReadFrame(index, subindex);
      && f[0] == 0x10 && f[1] == 0x01 && f[4] == subindex && f[5] == 0x02
      && f[8] == 0x4F && f[9] == 0x46
      && f[2] as bv16 + 256 * f[3] as bv16 == index
      && CrcField(f, 6, ReadCrcWords)
  {
    var fields := ReadFields(index, subindex);
    var crc := FieldCrc(fields, ReadCrcWords);
    var f := FinishRead(fields, crc);
    FinishReadLayout(index, subindex, crc);
    FieldCrcPrefix(f[6 := 0][7 := 0], fields, ReadCrcWords);
    WordOfBytes(crc);
  }

  /** Parsing a built read request gives back its parameters. */
  lemma ReadFrameRoundTrip(index: bv16, subindex: byte)
    ensures ParseReadFrame(ReadFrame(index, subindex)) == Some((index, subindex))
  {
    ReadFrameLayout(index, subindex);
    var f := ReadFrame(index, subindex);
    assert Word(f[3], f[2]) == index;
  }

  /** A read-shaped frame is rebuilt from its index, subindex and stored CRC. */
  lemma FinishReadOfParts(f: seq<byte>)
    requires |f| == ReadFrameLength && f[0] == ReadOpcode && f[1] == ReadLengthField && f[5] == NodeId
    requires f[8] == AckByte && f[9] == FailByte
    ensures FinishRead(ReadFields(Word(f[3], f[2]), f[4]), Word(f[7], f[6])) == f
  {
    WordBytes(f[3], f[2]);
    WordBytes(f[7], f[6]);
  }

  /** Every frame the parser accepts is the one the builder makes from what it parsed. */
  lemma ParseReadFrameExact(f: seq<byte>)
    requires ParseReadFrame(f).Some?
    ensures ReadFrame(ParseReadFrame(f).value.0, ParseReadFrame(f).value.1) == f
  {
    var index, subindex := Word(f[3], f[2]), f[4];
    var fields := ReadFields(index, subindex);
    FinishReadOfParts(f);
    FinishReadLayout(index, subindex, Word(f[7], f[6]));
    FieldCrcPrefix(fields, f[6 := 0][7 := 0], ReadCrcWords);
  }

  // ---------------------------------------------------------------------
  // Write request

  /** The write request as it stands when its CRC is computed: bytes 10 to 13 still zero. */
  function WriteFields(index: bv16, data: bv32): (f: seq<byte>)
    ensures |f| == WriteFrameLength
  {
    [WriteOpcode, WriteLengthField, LowByte(index), HighByte(index), 0, NodeId]
      + DataBytes(data) + [0, 0, 0, 0]
  }

  /** The first ten assignments of the write builder, on the zero-filled array. */
  lemma WriteFieldsInOrder(index: bv16, data: bv32)
    ensures WriteFields(index, data) == [0, 0, 0, 0, 0, 0, 0, 0, 0, 0, 0, 0, 0, 0][0 := WriteOpcode][1 := WriteLengthField]
      [2 := LowByte(index)][3 := HighByte(index)][4 := 0][5 := NodeId]
      [6 := (data & 0xFF) as byte][7 := ((data >> 8) & 0xFF) as byte]
      [8 := ((data >> 16) & 0xFF) as byte][9 := ((data >> 24) & 0xFF) as byte]
  {}

  /** The last four assignments of the write builder: the CRC low and high bytes, then 'O' and 'F'. */
  function FinishWrite(fields: seq<byte>, crc: bv16): (f: seq<byte>)
    requires |fields| == WriteFrameLength
    ensures |f| == WriteFrameLength
  {
    fields[10 := LowByte(crc)][11 := HighByte(crc)][12 := AckByte][13 := FailByte]
  }

  /** `FormatWriteMessage(index, data)`. */
  function WriteFrame(index: bv16, data: bv32): (f: seq<byte>)
    ensures |f| == WriteFrameLength
  {
    var fields := WriteFields(index, data);
    FinishWrite(fields, FieldCrc(fields, WriteCrcWords))
  }

  /** The index, the data and a valid CRC of a well-formed write request. */
  function ParseWriteFrame(f: seq<byte>): (r: Option<(bv16, bv32)>)
    ensures r.Some? ==> |f| == WriteFrameLength
  {
    if |f| == WriteFrameLength && f[0] == WriteOpcode && f[1] == WriteLengthField && f[4] == 0
       && f[5] == NodeId && f[12] == AckByte && f[13] == FailByte && CrcField(f, 10, WriteCrcWords)
    then Some((Word(f[3], f[2]), DataWord(f[6], f[7], f[8], f[9])))
    else None
  }

  /** The byte layout of a write request, whatever CRC is stored. */
  lemma FinishWriteLayout(index: bv16, data: bv32, crc: bv16)
    ensures var f := FinishWrite(WriteFields(index, data), crc);
      && f[0] == 0x11 && f[1] == 0x03 && f[4] == 0 && f[5] == 0x02
      && f[12] == 0x4F && f[13] == 0x46
      && f[2] as bv16 + 256 * f[3] as bv16 == index
      && f[6..10] == DataBytes(data)
      && f[10] as bv16 + 256 * f[11] as bv16 == crc
      && f[10 := 0][11 := 0][..12] == WriteFields(index, data)[..12]
  {
    WordOfBytes(index);
    WordOfBytes(crc);
  }

  /** The byte layout of a write request, with its CRC over the first six words. */
  lemma WriteFrameLayout(index: bv16, data: bv32)
    ensures var f := WriteFrame(index, data);
      && f[0] == 0x11 && f[1] == 0x03 && f[4] == 0 && f[5] == 0x02
      && f[12] == 0x4F && f[13] == 0x46
      && f[2] as bv16 + 256 * f[3] as bv16 == index
      && DataWord(f[6], f[7], f[8], f[9]) == data
      && CrcField(f, 10, WriteCrcWords)
  {
    var fields := WriteFields(index, data);
    var crc := FieldCrc(fields, WriteCrcWords);
    var f := FinishWrite(fields, crc);
    FinishWriteLayout(index, data, crc);
    DataRoundTrip(data);
    FieldCrcPrefix(f[10 := 0][11 := 0], fields, WriteCrcWords);
    WordOfBytes(crc);
  }

  /** Parsing a built write request gives back its parameters. */
  lemma WriteFrameRoundTrip(index: bv16, data: bv32)
    ensures ParseWriteFrame(WriteFrame(index, data)) == Some((index, data))
  {
    WriteFrameLayout(index, data);
    var f := WriteFrame(index, data);
    assert Word(f[3], f[2]) == index;
  }

  /** A write-shaped frame is rebuilt from its index, data and stored CRC. */
  lemma FinishWriteOfParts(f: seq<byte>)
    requires |f| == WriteFrameLength && f[0] == WriteOpcode && f[1] == WriteLengthField
    requires f[4] == 0 && f[5] == NodeId && f[12] == AckByte && f[13] == FailByte
    ensures FinishWrite(WriteFields(Word(f[3], f[2]), DataWord(f[6], f[7], f[8], f[9])), Word(f[11], f[10])) == f
  {
    WordBytes(f[3], f[2]);
    WordBytes(f[11], f[10]);
    DataBytesOfWord(f[6], f[7], f[8], f[9]);
  }

  /** Every frame the parser accepts is the one the builder makes from what it parsed. */
  lemma ParseWriteFrameExact(f: seq<byte>)
    requires ParseWriteFrame(f).Some?
    ensures WriteFrame(ParseWriteFrame(f).value.0, ParseWriteFrame(f).value.1) == f
  {
    var index, data := Word(f[3], f[2]), DataWord(f[6], f[7], f[8], f[9]);
    var fields := WriteFields(index, data);
    FinishWriteOfParts(f);
    FinishWriteLayout(index, data, Word(f[11], f[10]));
    FieldCrcPrefix(fields, f[10 := 0][11 := 0], WriteCrcWords);
  }

  // ---------------------------------------------------------------------
  // Byte splitting

  /** A 16-bit value is its low byte plus 256 times its high byte. */
  lemma WordOfBytes(w: bv16)
    ensures Word(HighByte(w), LowByte(w)) == w
    ensures LowByte(w) as bv16 + 256 * HighByte(w) as bv16 == w
  {}

  /** The four data bytes read back as the data. */
  lemma DataRoundTrip(data: bv32)
    ensures var bs := DataBytes(data); DataWord(bs[0], bs[1], bs[2], bs[3]) == data
  {}

  /** Four bytes split back out of the value they form. */
  lemma DataBytesOfWord(b0: byte, b1: byte, b2: byte, b3: byte)
    ensures DataBytes(DataWord(b0, b1, b2, b3)) == [b0, b1, b2, b3]
  {}

  // ---------------------------------------------------------------------
  // Known answers

  /**
   * The request to read object 0x6041, subindex 0, byte for byte.  Its
   * checksum 0xA5F8 is also the CRC-16/XMODEM of the bytes 10 01 60 41 02 00,
   * which fixes the value independently of the bit loop.
   */
  lemma ReadFrameKnownAnswer()
    ensures FieldCrc(ReadFields(0x6041, 0), ReadCrcWords) == 0xA5F8
    ensures ReadFrame(0x6041, 0) == [0x10, 0x01, 0x41, 0x60, 0x00, 0x02, 0xF8, 0xA5, 0x4F, 0x46]
  {
    assert PackedWords(ReadFields(0x6041, 0), ReadCrcWords) == [0x1001, 0x6041, 0x0200, 0];
    ReadExampleCrc();
  }

  /** The register word by word over the words of that read request. */
  lemma ReadExampleCrc()
    ensures CrcOf(0, [0x1001, 0x6041, 0x0200, 0]) == 0xA5F8
  {
    ReadExampleRegisters();
    var p0: seq<bv16> := [];
    var p1 := KnownRegister(p0, 0x1001, 0x0000, 0x1001);
    var p2 := KnownRegister(p1, 0x6041, 0x1001, 0x7313);
    var p3 := KnownRegister(p2, 0x0200, 0x7313, 0x7D58);
    var p4 := KnownRegister(p3, 0x0000, 0x7D58, 0xA5F8);
    assert p4 == [0x1001, 0x6041, 0x0200, 0];
  }

  lemma ReadExampleRegisters()
    ensures UnrolledWord(0x0000, 0x1001) == 0x1001 && UnrolledWord(0x1001, 0x6041) == 0x7313
    ensures UnrolledWord(0x7313, 0x0200) == 0x7D58 && UnrolledWord(0x7D58, 0x0000) == 0xA5F8
  {}

  /**
   * The request to write 0x0000000F to object 0x6040, byte for byte.  Its
   * checksum 0x21B2 is also the CRC-16/XMODEM of the bytes
   * 11 03 60 40 02 00 00 0F 00 00.
   */
  lemma WriteFrameKnownAnswer()
    ensures FieldCrc(WriteFields(0x6040, 0x0000000F), WriteCrcWords) == 0x21B2
    ensures WriteFrame(0x6040, 0x0000000F) ==
      [0x11, 0x03, 0x40, 0x60, 0x00, 0x02, 0x0F, 0x00, 0x00, 0x00, 0xB2, 0x21, 0x4F, 0x46]
  {
    assert PackedWords(WriteFields(0x6040, 0x0000000F), WriteCrcWords) == [0x1103, 0x6040, 0x0200, 0x000F, 0, 0];
    WriteExampleCrc();
  }

  /** The register word by word over the words of that write request. */
  lemma WriteExampleCrc()
    ensures CrcOf(0, [0x1103, 0x6040, 0x0200, 0x000F, 0, 0]) == 0x21B2
  {
    WriteExampleRegisters();
    var p0: seq<bv16> := [];
    var p1 := KnownRegister(p0, 0x1103, 0x0000, 0x1103);
    var p2 := KnownRegister(p1, 0x6040, 0x1103, 0x6061);
    var p3 := KnownRegister(p2, 0x0200, 0x6061, 0x75AD);
    var p4 := KnownRegister(p3, 0x000F, 0x75AD, 0x93E4);
    var p5 := KnownRegister(p4, 0x0000, 0x93E4, 0xF012);
    var p6 := KnownRegister(p5, 0x0000, 0xF012, 0x21B2);
    assert p6 == [0x1103, 0x6040, 0x0200, 0x000F, 0, 0];
  }

  lemma WriteExampleRegisters()
    ensures UnrolledWord(0x0000, 0x1103) == 0x1103 && UnrolledWord(0x1103, 0x6040) == 0x6061
    ensures UnrolledWord(0x6061, 0x0200) == 0x75AD && UnrolledWord(0x75AD, 0x000F) == 0x93E4
    ensures UnrolledWord(0x93E4, 0x0000) == 0xF012 && UnrolledWord(0xF012, 0x0000) == 0x21B2
  {}

  /** One more word of a known-answer computation, evaluated pass by pass. */
  lemma KnownRegister(ws: seq<bv16>, w: bv16, before: bv16, after: bv16) returns (ws': seq<bv16>)
    requires CrcOf(0, ws) == before && UnrolledWord(before, w) == after
    ensures ws' == ws + [w] && CrcOf(0, ws') == after
  {
    ws' := ws + [w];
    assert ws'[..|ws'| - 1] == ws;
    ShiftInWordUnrolled(before, w);
  }
}
