# EPOS serial protocol driver, modelled in Dafny

This project models the serial-protocol core of the `EposMotor` driver. The driver talks to a Maxon EPOS motor controller over RS-232. It has three parts:

- **Request frames.** `FormatReadMessage` builds the 10-byte read request: opcode 0x10, length 0x01, the object index low byte first, the subindex, node id 0x02, a 16-bit CRC low byte first, then the 'O' (0x4F) and 'F' (0x46) marker bytes. `FormatWriteMessage` builds the 14-byte write request: opcode 0x11, length 0x03, index, subindex 0, node id, the 32-bit data least significant byte first, the CRC, and the same marker bytes.
- **Field checksum.** `CalcFieldCrc` is a bit-serial CRC with generator 0x1021. The register starts at 0, data goes in most significant bit first, and there is no reflection and no final XOR. It runs over 4 words (read) or 6 words (write) packed from the frame while the CRC bytes are still 0.
- **Transaction step machines.** `ReceiveData` (read) and `SendData` (write) are non-blocking. The caller invokes one repeatedly, and each call advances a progress record (`RwSts`) by one step:
  - write the opcode;
  - wait for the data-received flag or a 1000-tick deadline;
  - drain the answer;
  - write the request body;
  - wait, then check that the answer starts with 'O' (79);
  - acknowledge, wait, then (read only) decode the status word;
  - acknowledge again.
  
  Steps 20, 30 and 40 report FinishedOk, Failed or TimedOut and rewind the record to step 0.

Layout:

| file | module | contents |
|---|---|---|
| `bytes.dfy` | `Bytes` | `byte`, `int32`, the unchecked 32-bit add (`Wrap32`), byte splitting |
| `progress_stats.dfy` | `ProgressStats` | `Status`, the `PrgSts` record as a value, its defaults |
| `crc.dfy` | `Crc` | word packing, one shift pass, the whole checksum as a fold (`FieldCrc`), its properties |
| `frames.dfy` | `Frames` | the two frames as values, their parsers (inverses), layout and round-trip lemmas |
| `transaction.dfy` | `Transaction` | one call of each step machine as a function (`ReadStep`, `SendStep`) and per-step lemmas |
| `runs.dfy` | `Runs` | repeated calls (`ReadRun`, `SendRun`) and whole-run invariants, including the timeout |
| `epos.dfy` | `Epos` | the driver class `EposMotor` and the record class `RwSts`, with the five operations as methods |

The methods in `Epos` have the shape of the driver's code:
- The builders fill a fresh zeroed byte array element by element.
- `CalcFieldCrc` runs the nested word/bit loops over local `CRC`, `carry` and `shifter` variables.
- `ReceiveData` and `SendData` switch on the step. They update `RwSts` in place and the driver's `endTicks`, `statusWord` and `dataReceived` fields.

Each method's `ensures` ties it to a function of the other modules. The properties are proved about those functions.

Modelling choices:
- **Signed parameters as bit patterns.** The signed `Int16` index and `Int32` data are carried as their two's-complement bit patterns (`bv16`, `bv32`). `(byte)(index & 255)` and `(byte)((index >> 8) & 255)` only read those bits, and an arithmetic shift and a logical shift agree on bits 8 to 15.
- **Asymmetric word packing.** Word 0 is `b[0] * 256 + b[1]` (first byte high). Words 1 to 5 are `b[2k+1] * 256 + b[2k]` (second byte high), exactly as the code writes them.
- **Status-word mask.** The status word is `(b6 * 256 + b5) & 0x417F`. In C#, `+` binds tighter than `&`, so the mask covers the whole assembled word.
- **Deadline.** `Environment.TickCount + 1000` is an unchecked `int` addition. Within 1000 ticks of `int.MaxValue` the deadline wraps to a negative number, and the next wait step times out at once (`Transaction.ArmedNearWrapTimesOut`). The model keeps this behaviour as written.
- **Duplicate file.** `MotorControllers/EposMotor/EposMotor.cs` is the same driver with other identifier names (`CalcFieldCRC`, `RWSts`) and another constructor. After its constructor, its line numbers are 2 lower than those of `Epos/EposMotor.cs`, so every row below holds for both files. A few rows cite the duplicate directly.

## Model

| member | source | states |
|---|---|---|
| `Epos.EposMotor.FormatReadMessage` | Epos/EposMotor.cs:33-50 | returns a fresh array whose contents are exactly `ReadFrame(index, subindex)`, the read request with its CRC over 4 words |
| `Epos.EposMotor.FormatWriteMessage` | Epos/EposMotor.cs:56-77 | returns a fresh array whose contents are exactly `WriteFrame(index, data)`, the write request with its CRC over 6 words |
| `Epos.EposMotor.DecodeWords` | Epos/EposMotor.cs:86-110 | the six-entry word array, with words 4 and 5 left 0 for four words; its first n entries are `PackedWords(bytes, n)` |
| `Epos.EposMotor.CalcFieldCrc` | Epos/EposMotor.cs:84-142 | the nested loops leave in `CRC` the fold `FieldCrc` of the one-bit shift pass over the first n packed words, from a zero register, for any n up to 6 |
| `Epos.EposMotor.ReceiveData` | Epos/EposMotor.cs:147-300 | updates the record in place and returns it; the record, `endTicks`, `statusWord`, `dataReceived` and the write log become exactly what `ReadStep` gives for the old state, the clock reading and the waiting bytes |
| `Epos.EposMotor.SendData` | Epos/EposMotor.cs:306-447 | the same against `SendStep`, including the closed-port case, where nothing changes |
| `Epos.EposMotor.Write` | Epos/EposMotor.cs:162 | `_com1.Write(buffer, offset, count)` appends exactly `buffer[offset..offset+count]` to the write log |
| `Epos.EposMotor.constructor` | Epos/EposMotor.cs:11-13 | the field initialisers: deadline 0, status word 0, flag false, nothing written |
| `Epos.RwSts.constructor` | ProgressStats.cs:18-33 | a new record is Idle, value 0, empty message, step 0 |
| `Bytes.Wrap32` | Epos/EposMotor.cs:164 | the unchecked `int` sum: congruent to the true sum modulo 2^32, and equal to it when it fits |
| `Bytes.LowByte` | Epos/EposMotor.cs:45 | `(byte)crc` is bits 0 to 7 of the word |
| `Bytes.HighByte` | Epos/EposMotor.cs:46 | `(byte)(crc / 256)` is bits 8 to 15 of the word |
| `Crc.WordArrayPacks` | Epos/EposMotor.cs:86-120 | for every word count up to 6, the loop's words `nWordArray[0..n)` are the packed words |
| `Crc.PackingOrder` | Epos/EposMotor.cs:90-109 | word 0 has byte 0 high and byte 1 low; word k > 0 has byte 2k+1 high and byte 2k low |
| `Crc.WordBytes` | Epos/EposMotor.cs:90-92 | a packed word splits back into the high and the low byte it was made from |
| `Crc.WordInjective` | Epos/EposMotor.cs:90-109 | two words are equal exactly when both their bytes are |
| `Crc.PassStatements` | Epos/EposMotor.cs:124-138 | the statements of the do-while body (carry, shift, add the data bit, XOR 0x1021 on carry) compute one shift pass |
| `Crc.ShiftInWordUnrolled` | Epos/EposMotor.cs:122-139 | the do-while over one word is the sixteen passes with masks 0x8000 down to 0x0001, in that order |
| `Crc.ShiftInFromStep` | Epos/EposMotor.cs:122-139 | one more pass with the mask halved, and the mask strictly decreases, so the do-while loop ends |
| `Crc.ShiftInFromDone` | Epos/EposMotor.cs:139 | the do-while loop stops when the mask reaches 0 |
| `Crc.CrcOfStep` | Epos/EposMotor.cs:117-121 | one more turn of the outer loop shifts in the next word |
| `Crc.FieldCrcPrefix` | Epos/EposMotor.cs:84-141 | the checksum depends only on the first 2n bytes |
| `Crc.ShiftInFromZero` | Epos/EposMotor.cs:122-139 | a zero register with a zero word stays zero through every pass |
| `Crc.CrcOfZeros` | Epos/EposMotor.cs:117-139 | any number of zero words leave a zero register zero |
| `Crc.FieldCrcOfZeros` | MotorControllers/EposMotor/EposMotor.cs:82-140 | all-zero input gives checksum 0 |
| `Crc.FirstWordPassesThrough` | Epos/EposMotor.cs:114-139 | from the zero register the first word goes in with no carry, so the register then holds that word |
| `Crc.PassesFrom` | Epos/EposMotor.cs:122-139 | with the top j bits of the word already in the register and the mask at bit 15 - j, the remaining passes leave exactly the word there |
| `Frames.ReadFieldsInOrder` | Epos/EposMotor.cs:35-42 | the first six assignments of the read builder give the frame that the CRC is computed over |
| `Frames.FinishReadLayout` | Epos/EposMotor.cs:37-48 | fixed bytes, the index split low byte first, and the stored CRC low byte first, whatever CRC value is stored |
| `Frames.ReadFrameLayout` | Epos/EposMotor.cs:35-49 | read frame bytes `[0]=0x10 [1]=0x01 [4]=subindex [5]=0x02 [8]=0x4F [9]=0x46`, `[2] + 256*[3] == index`, and bytes 6 and 7 hold the CRC of the frame with those bytes zeroed |
| `Frames.ReadFrameKnownAnswer` | Epos/EposMotor.cs:35-49 | a known answer: the request to read object 0x6041, subindex 0, is `10 01 41 60 00 02 F8 A5 4F 46`, checksum 0xA5F8 (also the CRC-16/XMODEM of `10 01 60 41 02 00`) |
| `Frames.ReadFrameRoundTrip` | MotorControllers/EposMotor/EposMotor.cs:31-48 | parsing a built read request gives back its index and subindex |
| `Frames.FinishReadOfParts` | Epos/EposMotor.cs:37-48 | a frame with the read request's fixed bytes is rebuilt from its index, subindex and stored CRC |
| `Frames.ParseReadFrameExact` | Epos/EposMotor.cs:33-50 | every frame the read parser accepts is exactly the request the builder makes from what was parsed |
| `Frames.WriteFieldsInOrder` | Epos/EposMotor.cs:58-69 | the first ten assignments of the write builder give the frame that the CRC is computed over |
| `Frames.FinishWriteLayout` | Epos/EposMotor.cs:60-75 | fixed bytes, the index split, data bytes 6 to 9, and the stored CRC, whatever CRC value is stored |
| `Frames.WriteFrameLayout` | Epos/EposMotor.cs:58-76 | write frame bytes `[0]=0x11 [1]=0x03 [4]=0 [5]=0x02 [12]=0x4F [13]=0x46`, `[2] + 256*[3] == index`, bytes 6 to 9 are `data` little-endian, and bytes 10 and 11 hold the CRC over 6 words |
| `Frames.WriteFrameKnownAnswer` | Epos/EposMotor.cs:58-76 | a known answer: the request to write 0x0000000F to object 0x6040 is `11 03 40 60 00 02 0F 00 00 00 B2 21 4F 46`, checksum 0x21B2 (also the CRC-16/XMODEM of `11 03 60 40 02 00 00 0F 00 00`) |
| `Frames.WriteFrameRoundTrip` | MotorControllers/EposMotor/EposMotor.cs:54-75 | parsing a built write request gives back its index and data |
| `Frames.FinishWriteOfParts` | Epos/EposMotor.cs:60-75 | a frame with the write request's fixed bytes is rebuilt from its index, data and stored CRC |
| `Frames.ParseWriteFrameExact` | Epos/EposMotor.cs:56-77 | every frame the write parser accepts is exactly the request the builder makes from what was parsed |
| `Frames.WordOfBytes` | Epos/EposMotor.cs:39-40 | a 16-bit value is its low byte plus 256 times its high byte |
| `Frames.DataRoundTrip` | Epos/EposMotor.cs:66-69 | the four data bytes read back little-endian give the 32-bit data |
| `Frames.DataBytesOfWord` | Epos/EposMotor.cs:66-69 | four bytes split back out of the little-endian value they form |
| `Transaction.Deadline` | Epos/EposMotor.cs:164 | `TickCount + 1000` is the reading plus 1000 unless that overflows; then it wraps to a value below the reading |
| `Transaction.StatusWord` | Epos/EposMotor.cs:256 | the kept status word has no bit outside 0x417F; its low byte is byte 5 masked by 0x7F and its high byte is byte 6 masked by 0x41 |
| `Transaction.ReadStepInCycle` | Epos/EposMotor.cs:152-298 | every read step keeps the record at a known step (0 to 10, 20, 30, 40) and Processing away from step 0, never touches its value, and changes its message only at 20, 30 and 40 |
| `Transaction.SendStepInCycle` | Epos/EposMotor.cs:310-445 | the same for write steps |
| `Transaction.ReadStepWrites` | Epos/EposMotor.cs:160-276 | a read transaction writes byte 0 at step 1, bytes 1 to 7 at step 4, byte 8 at steps 7 and 10, and nothing at any other step |
| `Transaction.SendStepWrites` | Epos/EposMotor.cs:321-422 | a write transaction writes byte 0, bytes 1 to 11, then byte 12 at steps 7 and 10; nothing when the port is closed |
| `Transaction.ReadStepArmsDeadline` | Epos/EposMotor.cs:160-234 | steps 1, 4 and 7 set the deadline to `Deadline(now)`; every other step leaves it |
| `Transaction.SendStepArmsDeadline` | Epos/EposMotor.cs:321-394 | the same for write steps on an open port |
| `Transaction.ReadStepAdvances` | Epos/EposMotor.cs:155-276 | steps 0, 1, 4, 7 and 10 always move on (0 to 1 setting Processing, 10 to 20, the others by one); 1, 4 and 7 arm the deadline and nothing else changes |
| `Transaction.SendStepAdvances` | MotorControllers/EposMotor/EposMotor.cs:314-420 | the same for write steps on an open port |
| `Transaction.ReadWaitStep` | Epos/EposMotor.cs:169-247 | a wait step (2, 5, 8) goes to 40 exactly when the clock is past the deadline, even if data has arrived; otherwise it moves on one step when the flag is set and stays put when not; nothing else changes |
| `Transaction.SendWaitStep` | MotorControllers/EposMotor/EposMotor.cs:328-405 | the same for write steps |
| `Transaction.ReadDrainStep` | Epos/EposMotor.cs:182-226 | steps 3 and 6 clear the flag and write nothing; step 3 goes to 4; step 6 goes to 7 exactly when the first answer byte is 79, and to 30 otherwise |
| `Transaction.SendDrainStep` | MotorControllers/EposMotor/EposMotor.cs:341-412 | the same for write steps 3 and 6, and step 9 clears the flag and goes to 10 |
| `Transaction.ReadStatusStep` | MotorControllers/EposMotor/EposMotor.cs:247-266 | read step 9 with an answer of at least 7 bytes stores `StatusWord(rx)`, clears the flag and goes to 10; a shorter answer goes to 30 and leaves every driver field, including the flag, as it was |
| `Transaction.ReadTerminalStep` | Epos/EposMotor.cs:279-297 | steps 20, 30 and 40 set step 0 and state FinishedOk, Failed or TimedOut, each with its fixed message |
| `Transaction.SendTerminalStep` | MotorControllers/EposMotor/EposMotor.cs:423-441 | the same for write steps |
| `Transaction.ReadUnknownStep` | Epos/EposMotor.cs:152-298 | a step number outside the switch leaves everything as it was |
| `Transaction.SendInert` | Epos/EposMotor.cs:310 | with the port closed, or at a step outside the switch, `SendData` changes nothing and writes nothing |
| `Transaction.ArmedNearWrapTimesOut` | Epos/EposMotor.cs:164-180 | a deadline armed within 1000 ticks of `int.MaxValue` has already passed: the next wait step times out at any later reading |
| `Runs.ReadRunInCycle` | Epos/EposMotor.cs:147-300 | any sequence of `ReceiveData` calls that does not throw keeps the record in its life cycle and its value unchanged; the receive buffer may be empty at every step but 6 |
| `Runs.SendRunInCycle` | Epos/EposMotor.cs:306-447 | the same for `SendData` calls, open port or not |
| `Runs.ReadRunLog` | Epos/EposMotor.cs:162-272 | a run of read calls only appends to the write log, and every entry it appends is byte 0, bytes 1 to 7, or byte 8 of the request |
| `Runs.SendRunLog` | Epos/EposMotor.cs:323-418 | a run of write calls only appends byte 0, bytes 1 to 11, or byte 12 of the request |
| `Runs.QuietPollStill` | Epos/EposMotor.cs:149-180 | a poll on the open port at a wait step with no data and the deadline not passed can always be made and changes nothing, whatever the receive buffer holds, empty included |
| `Runs.ReadQuietWait` | Epos/EposMotor.cs:169-247 | any number of such polls on the open port, with any buffer contents, can be made and leave the driver exactly where it was |
| `Runs.TimesOut` | Epos/EposMotor.cs:175-297 | at a wait step, a poll past the deadline and one more call on the open port, with any buffer contents, report TimedOut with "Operation Timed Out" at step 0 and write nothing |
| `Runs.Rejected` | Epos/EposMotor.cs:211-290 | an answer at step 6 whose first byte is not 'O', then one more call on the open port, report Failed with "Communication Error Received" at step 0; nothing is written and the flag holds only what arrived before the second call |
| `Runs.NeverAnsweredTimesOut` | Epos/EposMotor.cs:169-297 | a request that is never answered times out: after any number of quiet polls, a poll past the deadline and one more call report TimedOut at step 0, with nothing more written; the buffer may be empty throughout |
| `Runs.ReadRunSucceeds` | Epos/EposMotor.cs:147-300 | twelve prompt calls from step 0 on the open port (each answer arrives before its deadline, the answer drained at step 6 starts with 'O', the one drained at step 9 has at least seven bytes) report FinishedOk at step 0 with "Operation Finished Sucessfully"; the log gains exactly the opcode, bytes 1 to 7 and byte 8 twice, in that order, and the status word of the last answer is kept |
| `Runs.SendRunSucceeds` | MotorControllers/EposMotor/EposMotor.cs:304-445 | the same for `SendData` on an open port: FinishedOk, and the log gains the opcode, bytes 1 to 11 and byte 12 twice, in that order |
| `Runs.ReadStarts` | Epos/EposMotor.cs:155-180 | steps 0 to 2 on the open port with a timely answer: Processing at step 3, the opcode written, the deadline armed at the second call, the flag set |
| `Runs.ReadRequests` | Epos/EposMotor.cs:182-209 | steps 3 to 5 with a timely answer: at step 6, bytes 1 to 7 written, the deadline re-armed |
| `Runs.ReadAcknowledges` | Epos/EposMotor.cs:211-247 | steps 6 to 8 with an 'O' answer and a timely reply: at step 9, byte 8 written, the deadline re-armed |
| `Runs.ReadFinishes` | Epos/EposMotor.cs:249-283 | steps 9, 10 and 20 with a seven-byte answer: FinishedOk at step 0, the masked status word kept, byte 8 written |
| `Runs.SendStarts` | Epos/EposMotor.cs:316-341 | the same as `ReadStarts` for `SendData` |
| `Runs.SendRequests` | Epos/EposMotor.cs:343-369 | steps 3 to 5: bytes 1 to 11 written |
| `Runs.SendAcknowledges` | Epos/EposMotor.cs:371-407 | steps 6 to 8: byte 12 written |
| `Runs.SendFinishes` | Epos/EposMotor.cs:409-429 | steps 9, 10 and 20: FinishedOk at step 0, the status word untouched, byte 12 written |
| `Runs.ReadRunAppend` | Epos/EposMotor.cs:147-300 | calling `ReceiveData` for the calls of `a` and then of `b` is the run of `a + b` |
| `Runs.SendRunAppend` | Epos/EposMotor.cs:306-447 | the same for `SendData` |
| `Runs.SendQuietPollStill` | Epos/EposMotor.cs:310-341 | a `SendData` poll at a wait step with no data and the deadline not passed changes nothing, whatever the buffer holds and whether the port is open or closed |
| `Runs.SendQuietWait` | Epos/EposMotor.cs:330-407 | any number of such polls leave the driver exactly where it was |
| `Runs.SendTimesOut` | Epos/EposMotor.cs:335-443 | at a write wait step, a poll past the deadline and one more call on the open port report TimedOut with "Operation Timed Out" at step 0 and write nothing |
| `Runs.SendRejected` | Epos/EposMotor.cs:371-436 | the same for `SendData` |
| `Runs.SendNeverAnsweredTimesOut` | Epos/EposMotor.cs:330-443 | a write request that is never answered times out: after any number of quiet polls, a poll past the deadline and one more call on the open port report TimedOut at step 0, with nothing more written |

## Left out

- Serial I/O. Port construction, `Open`, `IsOpen`, `Read` and `BytesToRead` are not modelled as code. Each call gets the bytes waiting in the receive buffer (`rx`) and whether the port is open as parameters. `Write` appends the written slice to a ghost log. The receive buffer itself is not modelled: `rx` is a fresh input on each call, so the drains at steps 3, 6 and 9 constrain nothing, and a later call may see the same bytes again.
- The data-received event. No code in either driver file attaches a handler that sets `_dataReceived`. In runs (`Runs`) its arrival before each call is an input (`Call.arrived`).
- The clock. `Environment.TickCount` is the parameter `now`, read once per call.
- `Epos.EposMotor.ReceiveData`: reads `BytesToRead` without checking that the port is open, so on a closed port the driver throws. The method has no port flag and does not model that exception; in runs (`Runs.ReadNext`, `Runs.ReadRunnable`) a read call on a closed port is excluded as one that throws.
- `Epos.EposMotor.ReceiveData`: step 6 reads `rs232Buffer[0]` outside any handler, so an empty answer throws. This is a precondition (`ReadCallable`), as are frames too short for the writes at steps 1, 4, 7 and 10.
- `Epos.EposMotor.SendData`: the same preconditions for an open port (`SendCallable`).
- `Epos.EposMotor.CalcFieldCrc`: more than six words indexes past `nWordArray` and throws, and fewer than 8 (or, for more than four words, 12) bytes indexes past the input. Both are excluded by the precondition `Packable` rather than modelled as exceptions. `numberOfWords` 0 is covered and gives 0.
- `Epos.EposMotor.DecodeWords`: the packing into `nWordArray` is its own method, and `nWordArray` is a local sequence rather than a local array. This is a structural split of `CalcFieldCrc`; it stores the same six words.
- The diagnostic text `_systemStatus = e.ToString()` at read step 9 and the unused `_com1EventSet` field.
- `Enable`, `Disable` and `SetSpeed` only throw `NotImplementedException`. The life-cycle sequencing around the status word does not exist in this code.
- The constructors' port-name and port-number handling, and the exception for port number 0. They only create OS resources.
- `FestoMotor` and the `IMotorBasicFunctions` interface. The first is port set-up and unimplemented members; the second has no behaviour.
- Concurrency between the data-received event and a step in progress. Each call is atomic in the model.
- `Runs.ReadRunSucceeds`: covers the exchange in which every answer arrives before the next call. Quiet polls while waiting are covered on their own by `Runs.ReadQuietWait`, not inside a successful run; the same holds for `Runs.SendRunSucceeds`.
- Algebraic properties of the checksum beyond those listed, such as its linearity and error-detection guarantees.
