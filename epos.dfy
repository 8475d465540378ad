/**
 * The EPOS driver object: the frame builders and the checksum routine
 * working on byte arrays, and the two step machines updating the driver's
 * fields.  Serial-port writes go to a ghost log of the byte slices written;
 * the clock reading, the bytes waiting in the receive buffer and whether
 * the port is open are parameters.
 */
module Epos {
  import opened Bytes
  import opened Crc
  import opened Frames
  import opened ProgressStats
  import opened Transaction

  /** `RwSts`: the progress record a transaction updates in place. */
  class RwSts {
    var state: Status
    var value: int32
    var message: string
    var step: int32

    /** The record's current contents. */
    function Sts(): PrgSts
      reads this
    {
      PrgSts(state, value, message, step)
    }

    /** The property initialisers of `PrgSts`. */
    constructor ()
      ensures Sts() == Initial
    {
      state := Idle;
      value := 0;
      message := "";
      step := 0;
    }
  }

  class EposMotor {
    /** Tick count at which the current wait gives up. */
    var endTicks: int32
    /** The masked status word of the last read answer. */
    var statusWord: bv16
    /** Set by the port's data-received event, cleared when an answer is drained. */
    var dataReceived: bool
    /** Every slice of a request written to the port, oldest first. */
    ghost var written: seq<seq<byte>>

    /** The driver fields the step machines work on. */
    function Fields(): Link
      reads this
    {
      Link(endTicks, statusWord, dataReceived)
    }

    /** The field initialisers; the serial port itself is not modelled. */
    constructor ()
      ensures Fields() == Link(0, 0, false) && written == []
    {
      endTicks := 0;
      statusWord := 0;
      dataReceived := false;
      written := [];
    }

    /** `_com1.Write(buffer, offset, count)`. */
    method Write(buffer: array<byte>, offset: nat, count: nat)
      requires offset + count <= buffer.Length
      modifies this`written
      ensures written == old(written) + [buffer[offset..offset + count]]
    {
      written := written + [buffer[offset..offset + count]];
    }

    /** `FormatReadMessage(index, subindex)`: the 10-byte read request. */
    method FormatReadMessage(index: bv16, subindex: byte) returns (messageToSend: array<byte>)
      ensures fresh(messageToSend)
      ensures messageToSend[..] == ReadFrame(index, subindex)
    {
      messageToSend := new byte[] [0, 0, 0, 0, 0, 0, 0, 0, 0, 0];
      // m follows the array's contents; checking the array against it every
      // second store keeps each proof step small
      ghost var m: seq<byte> := [0, 0, 0, 0, 0, 0, 0, 0, 0, 0];
      messageToSend[0] := ReadOpcode;
      m := m[0 := ReadOpcode];
      messageToSend[1] := ReadLengthField;
      m := m[1 := ReadLengthField];
      assert messageToSend[..] == m;
      messageToSend[2] := LowByte(index);
      m := m[2 := LowByte(index)];
      messageToSend[3] := HighByte(index);
      m := m[3 := HighByte(index)];
      assert messageToSend[..] == m;
      messageToSend[4] := subindex;
      m := m[4 := subindex];
      messageToSend[5] := NodeId;
      m := m[5 := NodeId];
      assert messageToSend[..] == m;
      ReadFieldsInOrder(index, subindex);
      var crc := CalcFieldCrc(messageToSend, ReadCrcWords);
      messageToSend[6] := LowByte(crc);
      m := m[6 := LowByte(crc)];
      messageToSend[7] := HighByte(crc);
      m := m[7 := HighByte(crc)];
      assert messageToSend[..] == m;
      messageToSend[8] := AckByte;
      m := m[8 := AckByte];
      messageToSend[9] := FailByte;
      m := m[9 := FailByte];
      assert messageToSend[..] == m;
    }

    /** `FormatWriteMessage(index, data)`: the 14-byte write request, subindex 0. */
    method FormatWriteMessage(index: bv16, data: bv32) returns (byMessageToSend: array<byte>)
      ensures fresh(byMessageToSend)
      ensures byMessageToSend[..] == WriteFrame(index, data)
    {
      byMessageToSend := new byte[] [0, 0, 0, 0, 0, 0, 0, 0, 0, 0, 0, 0, 0, 0];
      // m follows the array's contents; checking the array against it every
      // second store keeps each proof step small
      ghost var m: seq<byte> := [0, 0, 0, 0, 0, 0, 0, 0, 0, 0, 0, 0, 0, 0];
      byMessageToSend[0] := WriteOpcode;
      m := m[0 := WriteOpcode];
      byMessageToSend[1] := WriteLengthField;
      m := m[1 := WriteLengthField];
      assert byMessageToSend[..] == m;
      byMessageToSend[2] := LowByte(index);
      m := m[2 := LowByte(index)];
      byMessageToSend[3] := HighByte(index);
      m := m[3 := HighByte(index)];
      assert byMessageToSend[..] == m;
      byMessageToSend[4] := 0x00;
      m := m[4 := 0x00];
      byMessageToSend[5] := NodeId;
      m := m[5 := NodeId];
      assert byMessageToSend[..] == m;
      byMessageToSend[6] := (data & 0xFF) as byte;
      m := m[6 := (data & 0xFF) as byte];
      byMessageToSend[7] := ((data >> 8) & 0xFF) as byte;
      m := m[7 := ((data >> 8) & 0xFF) as byte];
      assert byMessageToSend[..] == m;
      byMessageToSend[8] := ((data >> 16) & 0xFF) as byte;
      m := m[8 := ((data >> 16) & 0xFF) as byte];
      byMessageToSend[9] := ((data >> 24) & 0xFF) as byte;
      m := m[9 := ((data >> 24) & 0xFF) as byte];
      assert byMessageToSend[..] == m;
      WriteFieldsInOrder(index, data);
      var crc := CalcFieldCrc(byMessageToSend, WriteCrcWords);
      byMessageToSend[10] := LowByte(crc);
      m := m[10 := LowByte(crc)];
      byMessageToSend[11] := HighByte(crc);
      m := m[11 := HighByte(crc)];
      assert byMessageToSend[..] == m;
      byMessageToSend[12] := AckByte;
      m := m[12 := AckByte];
      byMessageToSend[13] := FailByte;
      m := m[13 := FailByte];
      assert byMessageToSend[..] == m;
    }

    /**
     * The first half of `CalcFieldCrc`: decode the bytes into the six-entry
     * word array.  Words 4 and 5 are filled only for more than four words
     * and stay 0 otherwise.
     */
    static method DecodeWords(byteArray: array<byte>, numberOfWords: nat) returns (nWordArray: seq<bv16>)
      requires Packable(byteArray.Length, numberOfWords)
      ensures nWordArray == WordArray(byteArray[..], numberOfWords)
      ensures nWordArray[..numberOfWords] == PackedWords(byteArray[..], numberOfWords)
    {
      nWordArray := [0, 0, 0, 0, 0, 0];
      nWordArray := nWordArray[0 := Word(byteArray[0], byteArray[1])];
      nWordArray := nWordArray[1 := Word(byteArray[3], byteArray[2])];
      nWordArray := nWordArray[2 := Word(byteArray[5], byteArray[4])];
      nWordArray := nWordArray[3 := Word(byteArray[7], byteArray[6])];
      if numberOfWords > 4 {
        nWordArray := nWordArray[4 := Word(byteArray[9], byteArray[8])];
        nWordArray := nWordArray[5 := Word(byteArray[11], byteArray[10])];
      }
      WordArrayPacks(byteArray[..], numberOfWords);
    }

    /**
     * `CalcFieldCrc(byteArray, numberOfWords)`: decode the words, then shift
     * them into the register one bit at a time, most significant bit first.
     */
    method CalcFieldCrc(byteArray: array<byte>, numberOfWords: nat) returns (crc: bv16)
      requires Packable(byteArray.Length, numberOfWords)
      ensures crc == FieldCrc(byteArray[..], numberOfWords)
    {
      var nWordArray := DecodeWords(byteArray, numberOfWords);
      var CRC: bv16 := 0;
      var wordNum := 0;
      while wordNum < numberOfWords
        invariant wordNum <= numberOfWords
        invariant CRC == CrcOf(0, nWordArray[..wordNum])
      {
        // the body of the do-while loop runs first with shifter = 0x8000
        var shifter := TopBit;
        var data := nWordArray[wordNum];
        ghost var start := CRC;
        while shifter != 0
          invariant ShiftInFrom(CRC, data, shifter) == ShiftInWord(start, data)
          decreases shifter
        {
          ShiftInFromStep(CRC, data, shifter);
          ghost var before := CRC;
          var carry := CRC & 0x8000;
          CRC := CRC << 1;
          ghost var shifted := CRC;
          if data & shifter != 0 {
            CRC := CRC + 1;
          }
          ghost var added := CRC;
          if carry != 0 {
            CRC := CRC ^ Generator;
          }
          PassStatements(before, data, shifter, carry, shifted, added, CRC);
          shifter := shifter >> 1;
        }
        ShiftInFromDone(CRC, data);
        CrcOfStep(0, nWordArray, wordNum);
        wordNum := wordNum + 1;
      }
      crc := CRC;
    }

    /**
     * `ReceiveData(rs232Set, receive)`: one step of a read transaction.
     * `now` is the tick count and `rx` the bytes then waiting in the receive
     * buffer; reading them only empties the buffer.
     */
    method ReceiveData(rs232Set: array<byte>, receive: RwSts, now: int32, rx: seq<byte>) returns (r: RwSts)
      requires ReadCallable(rs232Set[..], receive.step, rx)
      modifies this, receive
      ensures r == receive
      ensures var o := ReadStep(rs232Set[..], old(receive.Sts()), old(Fields()), now, rx);
        receive.Sts() == o.sts && Fields() == o.link && written == old(written) + Entry(o.written)
    {
      match receive.step {
        case 0 =>
          receive.state := Processing;
          receive.step := 1;
        case 1 =>
          Write(rs232Set, 0, 1);
          endTicks := Wrap32(now + Timeout);
          receive.step := 2;
        case 2 =>
          if dataReceived {
            receive.step := 3;
          }
          if now > endTicks {
            receive.step := 40;
          }
        case 3 =>
          dataReceived := false;
          receive.step := 4;
        case 4 =>
          Write(rs232Set, 1, 7);
          endTicks := Wrap32(now + Timeout);
          receive.step := 5;
        case 5 =>
          if dataReceived {
            receive.step := 6;
          }
          if now > endTicks {
            receive.step := 40;
          }
        case 6 =>
          dataReceived := false;
          if rx[0] == OkResponse {
            receive.step := 7;
          } else {
            receive.step := 30;
          }
        case 7 =>
          Write(rs232Set, 8, 1);
          endTicks := Wrap32(now + Timeout);
          receive.step := 8;
        case 8 =>
          if dataReceived {
            receive.step := 9;
          }
          if now > endTicks {
            receive.step := 40;
          }
        case 9 =>
          if |rx| < 7 {
            // reading byte 6 of a short answer throws; the handler fails the transaction
            receive.step := 30;
          } else {
            statusWord := ((rx[6] as bv16) * 256 + rx[5] as bv16) & StatusMask;
            dataReceived := false;
            receive.step := 10;
          }
        case 10 =>
          Write(rs232Set, 8, 1);
          receive.step := 20;
        case 20 =>
          receive.step := 0;
          receive.state := FinishedOk;
          receive.message := FinishedMessage;
        case 30 =>
          receive.step := 0;
          receive.state := Failed;
          receive.message := FailedMessage;
        case 40 =>
          receive.step := 0;
          receive.state := TimedOut;
          receive.message := TimedOutMessage;
        case _ =>
      }
      r := receive;
    }

    /**
     * `SendData(rs232Set, send)`: one step of a write transaction, taken
     * only while the port is open.
     */
    method SendData(rs232Set: array<byte>, send: RwSts, now: int32, rx: seq<byte>, portOpen: bool) returns (r: RwSts)
      requires portOpen ==> SendCallable(rs232Set[..], send.step, rx)
      modifies this, send
      ensures r == send
      ensures var o := SendStep(rs232Set[..], old(send.Sts()), old(Fields()), now, rx, portOpen);
        send.Sts() == o.sts && Fields() == o.link && written == old(written) + Entry(o.written)
    {
      if portOpen {
        match send.step {
          case 0 =>
            send.step := 1;
            send.state := Processing;
          case 1 =>
            Write(rs232Set, 0, 1);
            endTicks := Wrap32(now + Timeout);
            send.step := 2;
          case 2 =>
            if dataReceived {
              send.step := 3;
            }
            if now > endTicks {
              send.step := 40;
            }
          case 3 =>
            dataReceived := false;
            send.step := 4;
          case 4 =>
            Write(rs232Set, 1, 11);
            endTicks := Wrap32(now + Timeout);
            send.step := 5;
          case 5 =>
            if dataReceived {
              send.step := 6;
            }
            if now > endTicks {
              send.step := 40;
            }
          case 6 =>
            dataReceived := false;
            if rx[0] == OkResponse {
              send.step := 7;
            } else {
              send.step := 30;
            }
          case 7 =>
            Write(rs232Set, 12, 1);
            endTicks := Wrap32(now + Timeout);
            send.step := 8;
          case 8 =>
            if dataReceived {
              send.step := 9;
            }
            if now > endTicks {
              send.step := 40;
            }
          case 9 =>
            dataReceived := false;
            send.step := 10;
          case 10 =>
            Write(rs232Set, 12, 1);
            send.step := 20;
          case 20 =>
            send.step := 0;
            send.state := FinishedOk;
            send.message := FinishedMessage;
          case 30 =>
            send.step := 0;
            send.state := Failed;
            send.message := FailedMessage;
          case 40 =>
            send.step := 0;
            send.state := TimedOut;
            send.message := TimedOutMessage;
          case _ =>
        }
      }
      r := send;
    }
  }
}
